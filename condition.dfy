/** The alert-condition grammar shared by both `parse_condition` functions:
    `^(k1|k2|...)\s*(>=|<=)\s*(-?\d+(?:\.\d+)?)$`, matched case-insensitively
    against the stripped condition text.  The alternation is tried in order
    and backtracks, so the first keyword that lets the rest match wins. */
module Condition {
  import opened Base
  import opened Text
  import opened Numerals
  import opened Alerts

  /** The groups of a match: the keyword as written, the whitespace around
      the operator, the operator and the numeral. */
  datatype Parts = Parts(keyword: string, gap1: string, op: Op, gap2: string, number: Numeral)

  /** The text a match covers. */
  function Render(p: Parts): string
  {
    p.keyword + Tail(p.gap1, p.op, p.gap2, p.number)
  }

  /** The text after the keyword. */
  function Tail(gap1: string, op: Op, gap2: string, n: Numeral): string
  {
    gap1 + (OpText(op) + (gap2 + n.Render()))
  }

  /** `p` is a match for keyword `k`. */
  predicate MatchesKeyword(p: Parts, k: string)
  {
    Lower(p.keyword) == k && AllSpaces(p.gap1) && AllSpaces(p.gap2) && p.number.WellFormed()
  }

  /** `p` is a match for one of the keywords. */
  predicate WellFormed(p: Parts, keywords: seq<string>)
  {
    Lower(p.keyword) in keywords && MatchesKeyword(p, Lower(p.keyword))
  }

  predicate IsWordChar(c: char)
  {
    'a' <= c <= 'z' || '0' <= c <= '9' || c == '_'
  }

  /** A keyword of lower-case letters, digits and underscores, as every
      alert-kind keyword is. */
  predicate IsKeyword(k: string)
  {
    |k| > 0 && forall i :: 0 <= i < |k| ==> IsWordChar(k[i])
  }

  /** A keyword is its own lower-case form. */
  lemma {:induction false} LowerOfKeyword(k: string)
    requires IsKeyword(k)
    ensures Lower(k) == k
  {
    assert forall i :: 0 <= i < |k| ==> Lower(k)[i] == k[i];
  }

  /** `\s*` then the numeral, on the whole of `t`. */
  function MatchNumber(t: string): (r: Option<(string, Numeral)>)
    ensures r.Some? ==> AllSpaces(r.value.0) && r.value.1.WellFormed() && r.value.0 + r.value.1.Render() == t
  {
    var g := LeadingSpaces(t);
    match ParseNumeral(t[g..])
    case None => None
    case Some(n) =>
      Rejoin(t, g, t[..g], n.Render());
      Some((t[..g], n))
  }

  lemma {:induction false} Rejoin(t: string, i: nat, a: string, b: string)
    requires i <= |t| && a == t[..i] && b == t[i..]
    ensures a + b == t
  {
    assert t == t[..i] + t[i..];
  }

  lemma {:induction false} OpSlice(s: string)
    requires OpOf(s).Some?
    ensures OpText(OpOf(s).value) == s
  {
  }

  /** What follows the keyword in a match. */
  datatype TailParts = TailParts(gap1: string, op: Op, gap2: string, number: Numeral)

  /** `\s*(>=|<=)\s*` then the numeral, on the whole of `t`. */
  function MatchTail(t: string): (r: Option<TailParts>)
    ensures r.Some? ==> AllSpaces(r.value.gap1) && AllSpaces(r.value.gap2) && r.value.number.WellFormed()
    ensures r.Some? ==> Tail(r.value.gap1, r.value.op, r.value.gap2, r.value.number) == t
  {
    var g := LeadingSpaces(t);
    var r2 := t[g..];
    if |r2| < 2 || OpOf(r2[..2]).None? then None
    else
      var m := MatchNumber(r2[2..]);
      if m.None? then None
      else
        var op := OpOf(r2[..2]).value;
        OpSlice(r2[..2]);
        Rejoin(r2, 2, OpText(op), m.value.0 + m.value.1.Render());
        Rejoin(t, g, t[..g], r2);
        Some(TailParts(t[..g], op, m.value.0, m.value.1))
  }

  /** The regular expression with the single alternative `k`, on the whole of `t`. */
  function MatchOne(t: string, k: string): (r: Option<Parts>)
    ensures r.Some? ==> MatchesKeyword(r.value, k) && Render(r.value) == t
  {
    if |k| > |t| || Lower(t[..|k|]) != k then None
    else
      var m := MatchTail(t[|k|..]);
      if m.None? then None
      else
        var p := Parts(t[..|k|], m.value.gap1, m.value.op, m.value.gap2, m.value.number);
        Rejoin(t, |k|, t[..|k|], t[|k|..]);
        Some(p)
  }

  /** The whole alternation, on the whole of `t`. */
  function Match(t: string, keywords: seq<string>): (r: Option<Parts>)
    ensures r.Some? ==> WellFormed(r.value, keywords) && Render(r.value) == t
  {
    if |keywords| == 0 then None
    else match MatchOne(t, keywords[0])
      case Some(p) => Some(p)
      case None =>
        var r := Match(t, keywords[1..]);
        assert r.Some? ==> Lower(r.value.keyword) in keywords by {
          if r.Some? { assert Lower(r.value.keyword) in keywords[1..]; }
        }
        r
  }

  /** `ALERT_RE.match(cond.strip())` */
  function Parse(s: string, keywords: seq<string>): (r: Option<Parts>)
    ensures r.Some? ==> WellFormed(r.value, keywords) && Render(r.value) == Strip(s)
  {
    Match(Strip(s), keywords)
  }

  lemma {:induction false} OpStart(op: Op)
    ensures |OpText(op)| == 2 && !IsSpace(OpText(op)[0]) && OpOf(OpText(op)) == Some(op)
    ensures OpText(op)[0] == '>' || OpText(op)[0] == '<'
  {
  }

  lemma {:induction false} MatchNumberRender(gap: string, n: Numeral)
    requires AllSpaces(gap) && n.WellFormed()
    ensures MatchNumber(gap + n.Render()) == Some((gap, n))
  {
    var t := gap + n.Render();
    NumeralStart(n);
    LeadingSpacesOf(gap, n.Render());
    assert t[|gap|..] == n.Render() && t[..|gap|] == gap;
    ParseNumeralRender(n);
  }

  lemma {:induction false} MatchTailRender(g1: string, op: Op, g2: string, n: Numeral)
    requires AllSpaces(g1) && AllSpaces(g2) && n.WellFormed()
    ensures MatchTail(Tail(g1, op, g2, n)) == Some(TailParts(g1, op, g2, n))
  {
    var t := Tail(g1, op, g2, n);
    var r2 := OpText(op) + (g2 + n.Render());
    OpStart(op);
    LeadingSpacesOf(g1, r2);
    assert t[|g1|..] == r2 && t[..|g1|] == g1;
    assert r2[..2] == OpText(op) && r2[2..] == g2 + n.Render();
    MatchNumberRender(g2, n);
  }

  /** A match is found again by its own keyword. */
  lemma {:induction false} MatchOneOwn(p: Parts)
    requires MatchesKeyword(p, Lower(p.keyword))
    ensures MatchOne(Render(p), Lower(p.keyword)) == Some(p)
  {
    var t := Render(p);
    assert t[..|p.keyword|] == p.keyword && t[|p.keyword|..] == Tail(p.gap1, p.op, p.gap2, p.number);
    MatchTailRender(p.gap1, p.op, p.gap2, p.number);
  }

  lemma {:induction false} LowerWordChar(c: char)
    requires IsWordChar(LowerChar(c))
    ensures !IsSpace(c) && c != '>' && c != '<'
  {
  }

  lemma {:induction false} LowerOfNonLetter(c: char)
    requires IsSpace(c) || c == '>' || c == '<'
    ensures LowerChar(c) == c && !IsWordChar(c)
  {
  }

  /** Keyword `k` is shorter than the written keyword and a prefix of it:
      the next character is a letter, digit or underscore, where the grammar
      wants whitespace or an operator. */
  lemma {:induction false} MatchOneShorter(p: Parts, k: string)
    requires MatchesKeyword(p, Lower(p.keyword)) && IsKeyword(Lower(p.keyword))
    requires |k| < |p.keyword|
    ensures MatchOne(Render(p), k) == None
  {
    var t := Render(p);
    assert t[..|p.keyword|] == p.keyword;
    var c := p.keyword[|k|];
    assert IsWordChar(Lower(p.keyword)[|k|]);
    LowerWordChar(c);
    var rest := t[|k|..];
    assert rest[0] == c;
    assert LeadingSpaces(rest) == 0;
    assert rest[0..] == rest;
  }

  /** Keyword `k` is longer than the written keyword: it would have to
      match whitespace or an operator character. */
  lemma {:induction false} MatchOneLonger(p: Parts, k: string)
    requires MatchesKeyword(p, Lower(p.keyword)) && IsKeyword(k)
    requires |k| > |p.keyword|
    ensures MatchOne(Render(p), k) == None
  {
    var t := Render(p);
    var tail := Tail(p.gap1, p.op, p.gap2, p.number);
    OpStart(p.op);
    var c := t[|p.keyword|];
    assert c == tail[0];
    assert IsSpace(c) || c == '>' || c == '<' by {
      if |p.gap1| > 0 { assert c == p.gap1[0]; } else { assert tail == OpText(p.op) + (p.gap2 + p.number.Render()); }
    }
    LowerOfNonLetter(c);
    if |k| <= |t| {
      assert Lower(t[..|k|])[|p.keyword|] == c;
      assert !IsWordChar(Lower(t[..|k|])[|p.keyword|]);
    }
  }

  /** Any other keyword does not match. */
  lemma {:induction false} MatchOneOther(p: Parts, k: string)
    requires MatchesKeyword(p, Lower(p.keyword)) && IsKeyword(Lower(p.keyword)) && IsKeyword(k)
    requires k != Lower(p.keyword)
    ensures MatchOne(Render(p), k) == None
  {
    if |k| < |p.keyword| {
      MatchOneShorter(p, k);
    } else if |k| > |p.keyword| {
      MatchOneLonger(p, k);
    } else {
      assert Render(p)[..|k|] == p.keyword;
    }
  }

  /** With keywords of word characters only, whatever the order of the
      alternatives, every match is read back as itself: no keyword can steal
      the match of another, not even one that is a prefix of it
      (`price_value` of `price_value_offset_since_last_alert`). */
  lemma {:induction false} MatchRender(p: Parts, keywords: seq<string>)
    requires WellFormed(p, keywords)
    requires forall i :: 0 <= i < |keywords| ==> IsKeyword(keywords[i])
    ensures Match(Render(p), keywords) == Some(p)
  {
    if keywords[0] == Lower(p.keyword) {
      MatchOneOwn(p);
    } else {
      MatchOneOther(p, keywords[0]);
      assert Lower(p.keyword) in keywords[1..];
      MatchRender(p, keywords[1..]);
    }
  }

  /** `Parse` succeeds exactly on the texts that are, once stripped, the
      rendering of a match, and then gives that match. */
  lemma {:induction false} ParseIff(s: string, keywords: seq<string>, p: Parts)
    requires forall i :: 0 <= i < |keywords| ==> IsKeyword(keywords[i])
    ensures Parse(s, keywords) == Some(p) <==> WellFormed(p, keywords) && Render(p) == Strip(s)
  {
    if WellFormed(p, keywords) && Render(p) == Strip(s) {
      MatchRender(p, keywords);
    }
  }

  /** A rendered match needs no stripping. */
  lemma {:induction false} ParseRender(p: Parts, keywords: seq<string>)
    requires WellFormed(p, keywords)
    requires forall i :: 0 <= i < |keywords| ==> IsKeyword(keywords[i])
    ensures Parse(Render(p), keywords) == Some(p)
  {
    var t := Render(p);
    assert IsKeyword(Lower(p.keyword));
    assert t[0] == p.keyword[0];
    LowerWordChar(p.keyword[0]);
    NumeralStart(p.number);
    assert t[|t| - 1] == p.number.Render()[|p.number.Render()| - 1];
    StripTrimmed(t);
    MatchRender(p, keywords);
  }
}
