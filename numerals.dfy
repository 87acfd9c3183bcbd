/** Decimal numerals: the `-?\d+(\.\d+)?` numerals of the condition grammar,
    Python's `float(s)` restricted to plain decimal text, `int(x)` on a
    real (truncation toward zero) and `str(n)` on a natural number. */
module Numerals {
  import opened Base
  import opened Text

  predicate IsDigit(c: char)
  {
    '0' <= c <= '9'
  }

  predicate AllDigits(s: string)
  {
    forall i :: 0 <= i < |s| ==> IsDigit(s[i])
  }

  function DigitValue(c: char): nat
    requires IsDigit(c)
  {
    c as int - '0' as int
  }

  /** The value of a run of decimal digits read as an integer. */
  function WholeValue(ds: string): nat
    requires AllDigits(ds)
  {
    if |ds| == 0 then 0 else 10 * WholeValue(ds[..|ds| - 1]) + DigitValue(ds[|ds| - 1])
  }

  /** The value of a run of decimal digits read after a decimal point. */
  function FractionValue(ds: string): real
    requires AllDigits(ds)
  {
    if |ds| == 0 then 0.0 else (DigitValue(ds[0]) as real + FractionValue(ds[1..])) / 10.0
  }

  /** Length of the run of digits at the start of `s`. */
  function LeadingDigits(s: string): (n: nat)
    ensures n <= |s| && AllDigits(s[..n])
    ensures n < |s| ==> !IsDigit(s[n])
  {
    if |s| > 0 && IsDigit(s[0]) then
      var k := LeadingDigits(s[1..]);
      assert s[..k + 1] == [s[0]] + s[1..][..k];
      k + 1
    else 0
  }

  lemma {:induction false} LeadingDigitsOfDigits(ds: string, rest: string)
    requires AllDigits(ds)
    requires |rest| > 0 ==> !IsDigit(rest[0])
    ensures LeadingDigits(ds + rest) == |ds|
  {
    if |ds| > 0 {
      assert (ds + rest)[1..] == ds[1..] + rest;
      LeadingDigitsOfDigits(ds[1..], rest);
    } else {
      assert ds + rest == rest;
    }
  }

  /** A numeral of the condition grammar, `-?\d+(\.\d+)?`: an optional minus
      sign, the digits before the point, and the digits after it (none when
      there is no point). */
  datatype Numeral = Numeral(negative: bool, whole: string, fraction: string)
  {
    predicate WellFormed()
    {
      |whole| > 0 && AllDigits(whole) && AllDigits(fraction)
    }

    /** The numeral's text. */
    function Render(): string
    {
      Sign(negative) + whole + PointPart(fraction)
    }

    /** The number the numeral denotes (exactly; `float()` would round it). */
    function Value(): real
      requires WellFormed()
    {
      var m := WholeValue(whole) as real + FractionValue(fraction);
      if negative then -m else m
    }
  }

  function Sign(negative: bool): string
  {
    if negative then "-" else ""
  }

  /** The `.digits` part of a numeral, empty when there are no digits after the point. */
  function PointPart(fraction: string): string
  {
    if |fraction| > 0 then "." + fraction else ""
  }

  /** Matches the whole of `body` against `\d+(\.\d+)?`, giving the digits
      before and after the point. */
  function ParseUnsigned(body: string): (r: Option<(string, string)>)
    ensures r.Some? ==> |r.value.0| > 0 && AllDigits(r.value.0) && AllDigits(r.value.1)
                        && body == r.value.0 + PointPart(r.value.1)
  {
    var k := LeadingDigits(body);
    if k == 0 then None
    else if k == |body| then
      assert body[..k] == body;
      assert body == body + PointPart("");
      Some((body, ""))
    else if body[k] == '.' && k + 1 < |body| && AllDigits(body[k + 1..]) then
      var w, f := body[..k], body[k + 1..];
      assert body == w + PointPart(f);
      Some((w, f))
    else None
  }

  lemma {:induction false} UnsignedOfParts(w: string, f: string)
    requires |w| > 0 && AllDigits(w) && AllDigits(f)
    ensures ParseUnsigned(w + PointPart(f)) == Some((w, f))
  {
    var body := w + PointPart(f);
    LeadingDigitsOfDigits(w, PointPart(f));
    assert body[..|w|] == w;
    if |f| > 0 {
      assert body[|w| + 1..] == f;
    } else {
      assert body == w;
    }
  }

  /** Matches the whole of `s` against `-?\d+(\.\d+)?`. */
  function ParseNumeral(s: string): (r: Option<Numeral>)
    ensures r.Some? ==> r.value.WellFormed() && r.value.Render() == s
  {
    var neg := |s| > 0 && s[0] == '-';
    var body := if neg then s[1..] else s;
    SignedBody(s, neg, body);
    match ParseUnsigned(body)
    case None => None
    case Some((w, f)) =>
      RenderOfParts(s, neg, body, w, f);
      Some(Numeral(neg, w, f))
  }

  lemma {:induction false} SignedBody(s: string, neg: bool, body: string)
    requires neg == (|s| > 0 && s[0] == '-')
    requires body == if neg then s[1..] else s
    ensures s == Sign(neg) + body
  {
    if neg {
      assert s == [s[0]] + s[1..];
    }
  }

  lemma {:induction false} RenderOfParts(s: string, neg: bool, body: string, w: string, f: string)
    requires s == Sign(neg) + body && body == w + PointPart(f)
    ensures Numeral(neg, w, f).Render() == s
  {
    assert Sign(neg) + w + PointPart(f) == Sign(neg) + (w + PointPart(f));
  }

  /** Every well-formed numeral is recognised, and read back unchanged. */
  lemma {:induction false} ParseNumeralRender(n: Numeral)
    requires n.WellFormed()
    ensures ParseNumeral(n.Render()) == Some(n)
  {
    var s := n.Render();
    var body := n.whole + PointPart(n.fraction);
    assert s == Sign(n.negative) + body;
    if n.negative {
      assert s[1..] == body;
    } else {
      assert s == body;
    }
    UnsignedOfParts(n.whole, n.fraction);
  }

  /** Python's `float(s)` on decimal text: surrounding whitespace, an optional
      sign, digits with at most one point and at least one digit. */
  function ParseFloat(s: string): Option<real>
  {
    SignedFloat(Strip(s))
  }

  /** `float()` on text without surrounding whitespace. */
  function SignedFloat(t: string): Option<real>
  {
    var signed := |t| > 0 && (t[0] == '-' || t[0] == '+');
    var body := if signed then t[1..] else t;
    match UnsignedFloat(body)
    case None => None
    case Some(m) => Some(if signed && t[0] == '-' then -m else m)
  }

  /** The unsigned part of `float()`'s decimal text: `5`, `5.`, `5.25` or `.25`. */
  function UnsignedFloat(body: string): Option<real>
  {
    var k := LeadingDigits(body);
    var rest := body[k..];
    if |rest| == 0 then
      if k > 0 then Some(WholeValue(body[..k]) as real) else None
    else if rest[0] == '.' && AllDigits(rest[1..]) && (k > 0 || |rest| > 1) then
      Some(WholeValue(body[..k]) as real + FractionValue(rest[1..]))
    else None
  }

  lemma {:induction false} UnsignedFloatOfParts(w: string, f: string)
    requires |w| > 0 && AllDigits(w) && AllDigits(f)
    ensures UnsignedFloat(w + PointPart(f)) == Some(WholeValue(w) as real + FractionValue(f))
  {
    var body := w + PointPart(f);
    LeadingDigitsOfDigits(w, PointPart(f));
    assert body[..|w|] == w;
    assert body[|w|..] == PointPart(f);
    if |f| > 0 {
      assert PointPart(f)[1..] == f;
    }
  }

  lemma {:induction false} NotSpace(c: char)
    requires IsDigit(c) || c == '-'
    ensures !IsSpace(c)
  {
  }

  lemma {:induction false} LastOfParts(w: string, f: string)
    requires |w| > 0 && AllDigits(w) && AllDigits(f)
    ensures var body := w + PointPart(f); IsDigit(body[0]) && IsDigit(body[|body| - 1])
  {
  }

  /** `float()` reads every numeral of the condition grammar as its value. */
  lemma {:induction false} ParseFloatRender(n: Numeral)
    requires n.WellFormed()
    ensures ParseFloat(n.Render()) == Some(n.Value())
  {
    var s := n.Render();
    var body := n.whole + PointPart(n.fraction);
    assert s == Sign(n.negative) + body;
    assert s[|s| - 1] == body[|body| - 1];
    LastOfParts(n.whole, n.fraction);
    NotSpace(s[0]);
    NotSpace(s[|s| - 1]);
    StripTrimmed(s);
    SignedFloatRender(n);
  }

  lemma {:induction false} SignedFloatRender(n: Numeral)
    requires n.WellFormed()
    ensures SignedFloat(n.Render()) == Some(n.Value())
  {
    RenderIsSignBody(n);
    var m := WholeValue(n.whole) as real + FractionValue(n.fraction);
    SignedFloatOfNumeral(n.Render(), n.negative, n.whole, n.fraction, m);
  }

  lemma {:induction false} SignedFloatOfNumeral(s: string, negative: bool, w: string, f: string, m: real)
    requires |w| > 0 && AllDigits(w) && AllDigits(f)
    requires s == Sign(negative) + (w + PointPart(f))
    requires m == WholeValue(w) as real + FractionValue(f)
    ensures SignedFloat(s) == Some(if negative then -m else m)
  {
    var body := w + PointPart(f);
    assert |body| > 0 && IsDigit(body[0]) by {
      LastOfParts(w, f);
    }
    assert UnsignedFloat(body) == Some(m) by {
      UnsignedFloatOfParts(w, f);
    }
    SignedFloatOfParts(s, negative, body, m);
  }

  lemma {:induction false} RenderIsSignBody(n: Numeral)
    ensures n.Render() == Sign(n.negative) + (n.whole + PointPart(n.fraction))
  {
  }

  lemma {:induction false} SignedFloatOfParts(s: string, negative: bool, body: string, m: real)
    requires s == Sign(negative) + body
    requires |body| > 0 && IsDigit(body[0])
    requires UnsignedFloat(body) == Some(m)
    ensures SignedFloat(s) == Some(if negative then -m else m)
  {
    if negative {
      assert s[0] == '-' && s[1..] == body;
    } else {
      assert s == body;
    }
  }

  lemma {:induction false} NumeralStart(n: Numeral)
    requires n.WellFormed()
    ensures |n.Render()| > 0 && !IsSpace(n.Render()[0]) && !IsSpace(n.Render()[|n.Render()| - 1])
  {
    var body := n.whole + PointPart(n.fraction);
    assert n.Render() == Sign(n.negative) + body;
    LastOfParts(n.whole, n.fraction);
    NotSpace(n.Render()[0]);
    NotSpace(n.Render()[|n.Render()| - 1]);
  }

  lemma {:induction false} LastIsDigit(n: Numeral)
    requires n.WellFormed()
    ensures |n.Render()| > 0 && IsDigit(n.Render()[|n.Render()| - 1])
  {
    assert n.Render() == Sign(n.negative) + (n.whole + PointPart(n.fraction));
    LastOfParts(n.whole, n.fraction);
  }

  /** A numeral is written with digits, a minus sign and a point only. */
  lemma {:induction false} NumeralChars(n: Numeral)
    requires n.WellFormed()
    ensures forall i :: 0 <= i < |n.Render()| ==> IsDigit(n.Render()[i]) || n.Render()[i] == '-' || n.Render()[i] == '.'
  {
    var w, p := n.whole, PointPart(n.fraction);
    assert n.Render() == Sign(n.negative) + w + p;
  }

  /** Python's `int(x)` on a real: truncation toward zero. */
  function Trunc(x: real): int
  {
    if x >= 0.0 then x.Floor else -((-x).Floor)
  }

  /** `int(x)` is the integer next to `x` on the side of zero. */
  lemma {:induction false} TruncBounds(x: real)
    ensures x >= 0.0 ==> Trunc(x) >= 0 && Trunc(x) as real <= x < Trunc(x) as real + 1.0
    ensures x < 0.0 ==> Trunc(x) <= 0 && Trunc(x) as real - 1.0 < x <= Trunc(x) as real
  {
  }

  /** Python's `str(n)` on a natural number. */
  function Decimal(n: nat): (s: string)
    ensures |s| > 0 && AllDigits(s) && WholeValue(s) == n
    ensures |s| > 1 ==> s[0] != '0'
  {
    var d := ['0' + (n % 10) as char];
    if n < 10 then d
    else
      var s := Decimal(n / 10) + d;
      assert s[..|s| - 1] == Decimal(n / 10);
      s
  }
}
