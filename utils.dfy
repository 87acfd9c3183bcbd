/** The small parsers of `stock_alert/common/utils.py`: interval strings,
    credential files of `key=value` lines, and line-ending normalisation. */
module Utils {
  import opened Base
  import opened Text
  import opened Numerals

  /** `int(float(num) * factor)` given what `float(num)` gave: a
      `ValueError` when it rejected the text. */
  function Scaled(parsed: Option<real>, u: Unit): (r: Result<int, Fault>)
    ensures r.Failure? <==> parsed.None?
    ensures r.Failure? ==> r.error == ValueError
  {
    match parsed
    case None => Failure(ValueError)
    case Some(x) => Success(Trunc(InSeconds(x, u)))
  }

  /** The units an interval may be written in. */
  datatype Unit = Millis | Seconds | Minutes | Hours | Bare

  function UnitText(u: Unit): string
  {
    match u
    case Millis => "ms"
    case Seconds => "s"
    case Minutes => "m"
    case Hours => "h"
    case Bare => ""
  }

  /** `seconds_from_interval(s)`: the text is stripped and lower-cased
      before the suffix is looked at. */
  function SecondsFromInterval(s: string): (r: Result<int, Fault>)
    ensures r.Failure? ==> r.error == ValueError
  {
    IntervalSeconds(Lower(Strip(s)))
  }

  /** The unit of the normalised text: the suffixes `ms`, `s`, `m`, `h` and
      none, tried in that order. */
  function UnitOf(t: string): (u: Unit)
    ensures EndsWith(t, UnitText(u))
  {
    if EndsWith(t, "ms") then Millis
    else if EndsWith(t, "s") then Seconds
    else if EndsWith(t, "m") then Minutes
    else if EndsWith(t, "h") then Hours
    else Bare
  }

  /** The normalised text read in its unit: `float()` of the text before
      the suffix, scaled and truncated. */
  function IntervalSeconds(t: string): (r: Result<int, Fault>)
    ensures r.Failure? ==> r.error == ValueError && UnitOf(t) != Millis
  {
    var u := UnitOf(t);
    var parsed := ParseFloat(t[..|t| - |UnitText(u)|]);
    if u == Millis then IntervalMillis(parsed) else Scaled(parsed, u)
  }

  /** `x` units in seconds, for the units that multiply. */
  function InSeconds(x: real, u: Unit): real
  {
    match u
    case Minutes => x * 60.0
    case Hours => x * 3600.0
    case _ => x
  }

  /** `max(1, int(float(num) / 1000.0))`, or `1` when `float()` raises a `ValueError`. */
  function IntervalMillis(x: Option<real>): (r: Result<int, Fault>)
    ensures r.Success? && r.value >= 1
  {
    match x
    case None => Success(1)
    case Some(v) => var n := Trunc(v / 1000.0); Success(if n > 1 then n else 1)
  }

  /** Suffix matching ignores case: an upper-cased interval means the same. */
  lemma {:induction false} IntervalIgnoresCase(s: string)
    ensures SecondsFromInterval(Upper(s)) == SecondsFromInterval(s)
  {
    StripUpper(s);
    LowerUpper(Strip(s));
  }

  /** The number of seconds `seconds_from_interval` gives a value in a unit. */
  function SecondsOf(v: real, u: Unit): int
  {
    if u == Millis then (if Trunc(v / 1000.0) > 1 then Trunc(v / 1000.0) else 1)
    else Trunc(InSeconds(v, u))
  }

  /** A rendered numeral with a unit is already stripped and lower-case. */
  lemma {:induction false} NormalisedRendered(n: Numeral, u: Unit)
    requires n.WellFormed()
    ensures Lower(Strip(n.Render() + UnitText(u))) == n.Render() + UnitText(u)
    ensures |n.Render()| > 0 && IsDigit(n.Render()[|n.Render()| - 1])
  {
    LastIsDigit(n);
    NumeralStart(n);
    NumeralLower(n);
    UnitLower(u);
    NormalOfParts(n.Render(), UnitText(u));
  }

  lemma {:induction false} NumeralLower(n: Numeral)
    requires n.WellFormed()
    ensures forall i :: 0 <= i < |n.Render()| ==> LowerChar(n.Render()[i]) == n.Render()[i]
  {
    NumeralChars(n);
  }

  lemma {:induction false} UnitLower(u: Unit)
    ensures |UnitText(u)| > 0 ==> !IsSpace(UnitText(u)[|UnitText(u)| - 1])
    ensures forall i :: 0 <= i < |UnitText(u)| ==> LowerChar(UnitText(u)[i]) == UnitText(u)[i]
  {
  }

  /** Text with no space at either end and no upper-case letter is its own
      normal form. */
  lemma {:induction false} NormalOfParts(num: string, sfx: string)
    requires |num| > 0 && !IsSpace(num[0]) && !IsSpace(num[|num| - 1])
    requires |sfx| > 0 ==> !IsSpace(sfx[|sfx| - 1])
    requires forall i :: 0 <= i < |num| ==> LowerChar(num[i]) == num[i]
    requires forall i :: 0 <= i < |sfx| ==> LowerChar(sfx[i]) == sfx[i]
    ensures Lower(Strip(num + sfx)) == num + sfx
  {
    var s := num + sfx;
    assert s[0] == num[0];
    assert !IsSpace(s[|s| - 1]) by {
      if |sfx| == 0 { assert s[|s| - 1] == num[|num| - 1]; }
      else { assert s[|s| - 1] == sfx[|sfx| - 1]; }
    }
    StripTrimmed(s);
    forall i | 0 <= i < |s| ensures LowerChar(s[i]) == s[i] {
      if i < |num| { assert s[i] == num[i]; } else { assert s[i] == sfx[i - |num|]; }
    }
    assert Lower(s) == s;
  }

  lemma {:induction false} UnitSuffix(n: Numeral, u: Unit)
    requires n.WellFormed()
    ensures var s := n.Render() + UnitText(u);
            && s[..|s| - |UnitText(u)|] == n.Render()
            && (EndsWith(s, "ms") <==> u == Millis)
            && (EndsWith(s, "s") <==> u == Millis || u == Seconds)
            && (EndsWith(s, "m") <==> u == Minutes)
            && (EndsWith(s, "h") <==> u == Hours)
  {
    LastIsDigit(n);
    DigitEndedSuffix(n.Render(), u);
  }

  /** Text ending in a digit, followed by a unit, ends in exactly that unit's suffix. */
  lemma {:induction false} DigitEndedSuffix(num: string, u: Unit)
    requires |num| > 0 && IsDigit(num[|num| - 1])
    ensures var s := num + UnitText(u);
            && s[..|s| - |UnitText(u)|] == num
            && (EndsWith(s, "ms") <==> u == Millis)
            && (EndsWith(s, "s") <==> u == Millis || u == Seconds)
            && (EndsWith(s, "m") <==> u == Minutes)
            && (EndsWith(s, "h") <==> u == Hours)
  {
    var s := num + UnitText(u);
    var d := num[|num| - 1];
    assert s[..|num|] == num;
    match u
    case Millis =>
      assert s[|s| - 2..] == "ms" && s[|s| - 1..] == "s";
    case Seconds =>
      assert s[|s| - 1..] == "s" && s[|s| - 2] == d;
    case Minutes =>
      assert s[|s| - 1..] == "m" && s[|s| - 2] == d;
    case Hours =>
      assert s[|s| - 1..] == "h" && s[|s| - 2] == d;
    case Bare =>
      assert s == num && s[|s| - 1] == d;
  }

  /** A numeral followed by a unit is read as that many units; the `ms`
      branch never gives less than one second. */
  lemma {:induction false} UnitOfRendered(n: Numeral, u: Unit)
    requires n.WellFormed()
    ensures UnitOf(n.Render() + UnitText(u)) == u
  {
    UnitSuffix(n, u);
  }

  lemma {:induction false} NumberOfRendered(n: Numeral, u: Unit)
    requires n.WellFormed()
    ensures var s := n.Render() + UnitText(u); ParseFloat(s[..|s| - |UnitText(u)|]) == Some(n.Value())
  {
    var s := n.Render() + UnitText(u);
    assert s[..|s| - |UnitText(u)|] == n.Render();
    ParseFloatRender(n);
  }

  lemma {:induction false} DispatchOfNumeral(n: Numeral, u: Unit)
    requires n.WellFormed()
    ensures IntervalSeconds(n.Render() + UnitText(u)) == Success(SecondsOf(n.Value(), u))
  {
    UnitOfRendered(n, u);
    NumberOfRendered(n, u);
    ReadIn(n.Render() + UnitText(u), u, n.Value());
  }

  lemma {:induction false} ReadIn(t: string, u: Unit, v: real)
    requires UnitOf(t) == u && ParseFloat(t[..|t| - |UnitText(u)|]) == Some(v)
    ensures IntervalSeconds(t) == Success(SecondsOf(v, u))
  {
  }

  lemma {:induction false} IntervalOfNumeral(n: Numeral, u: Unit)
    requires n.WellFormed()
    ensures SecondsFromInterval(n.Render() + UnitText(u)) == Success(SecondsOf(n.Value(), u))
  {
    NormalisedRendered(n, u);
    DispatchOfNumeral(n, u);
  }

  /** Whatever precedes the `ms`, the result is at least one second. */
  lemma {:induction false} MillisAtLeastOne(s: string)
    requires EndsWith(Lower(Strip(s)), "ms")
    ensures SecondsFromInterval(s).Success? && SecondsFromInterval(s).value >= 1
  {
  }

  /** The other suffixes have no lower bound: a zero or negative number
      gives zero or fewer seconds. */
  lemma {:induction false} NoLowerBound(v: real, u: Unit)
    requires u != Millis && v <= 0.0
    ensures SecondsOf(v, u) <= 0
  {
    TruncBounds(InSeconds(v, u));
  }

  /** The only error is a number `float()` rejects, and under `ms` even that
      gives one second. */
  lemma {:induction false} IntervalError(s: string)
    ensures var t := Lower(Strip(s));
            var u := UnitOf(t);
            SecondsFromInterval(s).Failure? <==> u != Millis && ParseFloat(t[..|t| - |UnitText(u)|]).None?
  {
    IntervalSecondsError(Lower(Strip(s)));
  }

  lemma {:induction false} IntervalSecondsError(t: string)
    ensures var u := UnitOf(t);
            IntervalSeconds(t).Failure? <==> u != Millis && ParseFloat(t[..|t| - |UnitText(u)|]).None?
  {
    var u := UnitOf(t);
    var parsed := ParseFloat(t[..|t| - |UnitText(u)|]);
    assert IntervalSeconds(t) == if u == Millis then IntervalMillis(parsed) else Scaled(parsed, u);
  }

  /** Index of the first `c` in `s`, if any. */
  function FirstIndex(s: string, c: char): (r: Option<nat>)
    ensures r.Some? ==> r.value < |s| && s[r.value] == c && forall j :: 0 <= j < r.value ==> s[j] != c
    ensures r.None? ==> forall j :: 0 <= j < |s| ==> s[j] != c
  {
    if |s| == 0 then None
    else if s[0] == c then Some(0)
    else match FirstIndex(s[1..], c)
      case None => None
      case Some(i) => Some(i + 1)
  }

  /** `key, value = line.split('=', 1)` on a stripped line: `None` when the
      line has no `=`, which makes the unpacking raise the `ValueError` the
      loop skips over. */
  function SplitPair(line: string): (r: Option<(string, string)>)
    ensures r.Some? ==> r.value.0 + "=" + r.value.1 == line && '=' !in r.value.0
    ensures r.None? <==> '=' !in line
  {
    match FirstIndex(line, '=')
    case None => None
    case Some(i) =>
      assert line == line[..i] + "=" + line[i + 1..];
      assert '=' !in line[..i] by {
        forall j | 0 <= j < i ensures line[..i][j] != '=' { assert line[..i][j] == line[j]; }
      }
      Some((line[..i], line[i + 1..]))
  }

  /** The value one line of the credential file gives for `key`: a blank
      line, a `#` comment, a line without `=` and a line with another key
      give none. */
  function LineValue(line: string, key: string): (r: Option<string>)
    ensures r.Some? ==> Strip(line) == key + "=" + r.value && Strip(line)[0] != '#'
  {
    var l := Strip(line);
    if |l| == 0 || l[0] == '#' then None
    else match SplitPair(l)
      case None => None
      case Some((k, v)) => if k == key then Some(v) else None
  }

  /** A stripped `key=value` line gives its value for its own key. */
  lemma {:induction false} LineOfPair(key: string, value: string)
    requires '=' !in key
    requires |key| > 0 ==> !IsSpace(key[0]) && key[0] != '#'
    requires |value| > 0 ==> !IsSpace(value[|value| - 1])
    ensures LineValue(key + "=" + value, key) == Some(value)
  {
    var line := key + "=" + value;
    assert line[0] == (if |key| > 0 then key[0] else '=');
    assert line[|line| - 1] == (if |value| > 0 then value[|value| - 1] else '=');
    StripTrimmed(line);
    assert FirstIndex(line, '=') == Some(|key|) by {
      assert line[|key|] == '=';
      forall j | 0 <= j < |key| ensures line[j] != '=' { assert line[j] == key[j]; }
    }
    assert line[..|key|] == key && line[|key| + 1..] == value;
  }

  /** The value of the first line that gives one for `key`. */
  function CredentialValue(lines: seq<string>, key: string): Option<string>
  {
    if |lines| == 0 then None
    else if LineValue(lines[0], key).Some? then LineValue(lines[0], key)
    else CredentialValue(lines[1..], key)
  }

  /** The first line that names the key decides, whatever follows. */
  lemma {:induction false} FirstLineDecides(lines: seq<string>, key: string, i: nat)
    requires i < |lines| && LineValue(lines[i], key).Some?
    requires forall j :: 0 <= j < i ==> LineValue(lines[j], key).None?
    ensures CredentialValue(lines, key) == LineValue(lines[i], key)
  {
    if i > 0 {
      var rest := lines[1..];
      assert LineValue(lines[0], key).None?;
      forall j | 0 <= j < i - 1 ensures LineValue(rest[j], key).None? {
        assert rest[j] == lines[j + 1];
      }
      assert rest[i - 1] == lines[i];
      FirstLineDecides(rest, key, i - 1);
    }
  }

  /** No value exactly when no line gives one. */
  lemma {:induction false} NoLineNoValue(lines: seq<string>, key: string)
    ensures CredentialValue(lines, key).None? <==> forall i :: 0 <= i < |lines| ==> LineValue(lines[i], key).None?
  {
    if |lines| > 0 {
      NoLineNoValue(lines[1..], key);
      assert forall i :: 1 <= i < |lines| ==> lines[i] == lines[1..][i - 1];
    }
  }

  /** `read_value_from_credential_file(path, key)` given the file's lines, or
      `None` for a file that does not exist. */
  method ReadCredential(file: Option<seq<string>>, key: string) returns (r: Option<string>)
    ensures file.None? ==> r.None?
    ensures file.Some? ==> r == CredentialValue(file.value, key)
  {
    if file.None? {
      return None;
    }
    var lines := file.value;
    var i := 0;
    while i < |lines|
      invariant 0 <= i <= |lines|
      invariant CredentialValue(lines[i..], key) == CredentialValue(lines, key)
    {
      assert lines[i..][1..] == lines[i + 1..];
      var l := Strip(lines[i]);
      if |l| > 0 && l[0] != '#' {
        var pair := SplitPair(l);
        if pair.Some? && pair.value.0 == key {
          return Some(pair.value.1);
        }
      }
      i := i + 1;
    }
    return None;
  }

  /** A byte. */
  newtype byte = x: int | 0 <= x < 256

  const CR: byte := 13

  const LF: byte := 10

  /** `data.replace(b"\r\n", b"\n")`: occurrences found left to right, without overlap. */
  function NormalizeLines(b: seq<byte>): (r: seq<byte>)
    ensures |r| <= |b|
  {
    if |b| < 2 then b
    else if b[0] == CR && b[1] == LF then [LF] + NormalizeLines(b[2..])
    else [b[0]] + NormalizeLines(b[1..])
  }

  /** Normalising keeps every byte other than `\r`, each as often as the
      input holds it. */
  lemma {:induction false} NormalizeKeepsNonCr(b: seq<byte>)
    ensures multiset(NormalizeLines(b))[CR := 0] == multiset(b)[CR := 0]
  {
    if |b| >= 2 {
      if b[0] == CR && b[1] == LF {
        NormalizeKeepsNonCr(b[2..]);
        assert b == [CR, LF] + b[2..];
        WithoutCrOfConcat([CR, LF], b[2..]);
        WithoutCrOfConcat([LF], NormalizeLines(b[2..]));
        assert multiset([CR, LF])[CR := 0] == multiset([LF])[CR := 0];
      } else {
        NormalizeKeepsNonCr(b[1..]);
        assert b == [b[0]] + b[1..];
        WithoutCrOfConcat([b[0]], b[1..]);
        WithoutCrOfConcat([b[0]], NormalizeLines(b[1..]));
      }
    }
  }

  /** Bytes other than `\r` are counted part by part. */
  lemma {:induction false} WithoutCrOfConcat(x: seq<byte>, y: seq<byte>)
    ensures multiset(x + y)[CR := 0] == multiset(x)[CR := 0] + multiset(y)[CR := 0]
  {
    assert multiset(x + y) == multiset(x) + multiset(y);
  }

  /** No `\r\n` in `b`. */
  predicate NoCrlf(b: seq<byte>)
  {
    forall i :: 0 <= i < |b| - 1 ==> !(b[i] == CR && b[i + 1] == LF)
  }

  /** Text without `\r\n` is left as it is. */
  lemma {:induction false} NormalizeWithoutCrlf(b: seq<byte>)
    requires NoCrlf(b)
    ensures NormalizeLines(b) == b
  {
    if |b| >= 2 {
      assert !(b[0] == CR && b[1] == LF);
      assert NoCrlf(b[1..]) by {
        forall i | 0 <= i < |b| - 2 ensures !(b[1..][i] == CR && b[1..][i + 1] == LF) {
          assert b[1..][i] == b[i + 1] && b[1..][i + 1] == b[i + 2];
        }
      }
      NormalizeWithoutCrlf(b[1..]);
    }
  }

  /** Every `\n` written as `\r\n`: the inverse the normalisation undoes. */
  function CrlfLines(b: seq<byte>): seq<byte>
  {
    if |b| == 0 then []
    else (if b[0] == LF then [CR, LF] else [b[0]]) + CrlfLines(b[1..])
  }

  lemma {:induction false} CrlfLinesStart(b: seq<byte>)
    requires |b| > 0
    ensures |CrlfLines(b)| > 0 && (CrlfLines(b)[0] == CR <==> b[0] == LF || b[0] == CR)
  {
  }

  /** Normalising undoes `CrlfLines` on every input, even one with bare
      `\r` bytes. */
  lemma {:induction false} NormalizeCrlfLines(b: seq<byte>)
    ensures NormalizeLines(CrlfLines(b)) == b
  {
    if |b| > 0 {
      var tail := CrlfLines(b[1..]);
      NormalizeCrlfLines(b[1..]);
      if b[0] == LF {
        assert CrlfLines(b) == [CR, LF] + tail;
        assert (CrlfLines(b))[2..] == tail;
      } else if |tail| == 0 {
        assert CrlfLines(b) == [b[0]];
        assert b[1..] == [];
      } else {
        assert CrlfLines(b) == [b[0]] + tail;
        assert (CrlfLines(b))[1..] == tail;
        if b[0] == CR {
          CrlfLinesStart(b[1..]);
          assert tail[0] != LF;
        }
      }
    }
  }

  /** Normalising is not idempotent: `\r\r\n` becomes `\r\n`. */
  lemma {:induction false} NormalizeNotIdempotent()
    ensures NormalizeLines([CR, CR, LF]) == [CR, LF]
    ensures NormalizeLines(NormalizeLines([CR, CR, LF])) == [LF]
  {
    assert [CR, CR, LF][1..] == [CR, LF];
    assert [CR, LF][2..] == [];
  }
}
