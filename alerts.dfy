/** The alert data model of `stock_alert/common/models.py`: quotes, the
    cache configuration record, alerts with their derived names, their
    dictionary form, and the trigger decision `Alert.should_trigger`. */
module Alerts {
  import opened Base
  import opened Json
  import opened Text
  import opened Numerals

  /** `AlertKind`; the keyword of each kind is its lower-cased member name. */
  datatype Kind =
    | PriceValue
    | PctDay
    | Volume
    | PriceValueOffset
    | PricePercentOffset

  /** `Operation` */
  datatype Op = GE | LE

  function KindKeyword(k: Kind): string
  {
    match k
    case PriceValue => "price_value"
    case PctDay => "pct_day"
    case Volume => "volume"
    case PriceValueOffset => "price_value_offset_since_last_alert"
    case PricePercentOffset => "price_percent_offset_since_last_alert"
  }

  /** The keywords in the order the kinds are declared. */
  const KindKeywords: seq<string> :=
    [KindKeyword(PriceValue), KindKeyword(PctDay), KindKeyword(Volume),
     KindKeyword(PriceValueOffset), KindKeyword(PricePercentOffset)]

  function OpText(op: Op): string
  {
    match op
    case GE => ">="
    case LE => "<="
  }

  /** `AlertKind(s)`: the kind whose keyword is `s`, if any. */
  function KindOf(s: string): (r: Option<Kind>)
    ensures r.Some? <==> s in KindKeywords
    ensures r.Some? ==> KindKeyword(r.value) == s
  {
    if s == KindKeyword(PriceValue) then Some(PriceValue)
    else if s == KindKeyword(PctDay) then Some(PctDay)
    else if s == KindKeyword(Volume) then Some(Volume)
    else if s == KindKeyword(PriceValueOffset) then Some(PriceValueOffset)
    else if s == KindKeyword(PricePercentOffset) then Some(PricePercentOffset)
    else None
  }

  /** `Operation(s)` */
  function OpOf(s: string): (r: Option<Op>)
    ensures r.Some? <==> s == ">=" || s == "<="
    ensures r.Some? ==> OpText(r.value) == s
  {
    if s == ">=" then Some(GE) else if s == "<=" then Some(LE) else None
  }

  lemma {:induction false} KindOfKeyword(k: Kind)
    ensures KindOf(KindKeyword(k)) == Some(k)
  {
  }

  /** `Quote` */
  datatype Quote = Quote(symbol: string, price: real, pctDay: real, volume: int)

  /** `CacheConfig`: `directory` holds a `str`, as `CacheConfig.from_dict` builds it. */
  datatype CacheConfig = CacheConfig(fileName: string, directory: string, maxFiles: int, maxFileSize: int)

  /** `Alert`.  `name` is a field, but every constructor call derives it. */
  datatype Alert = Alert(name: string, symbol: string, kind: Kind, op: Op, value: real, cooldown: int)

  /** The text of `f"{symbol} {kind.value} {op.value} {value}"`; `repr` stands
      for Python's conversion of a float to text. */
  function AlertName(symbol: string, kind: Kind, op: Op, value: real, repr: real -> string): string
  {
    symbol + " " + KindKeyword(kind) + " " + OpText(op) + " " + repr(value)
  }

  /** `Alert(symbol, kind, op, value, alert_cooldown_secs)` */
  function NewAlert(symbol: string, kind: Kind, op: Op, value: real, cooldown: int, repr: real -> string): (a: Alert)
    ensures a.symbol == symbol && a.kind == kind && a.op == op && a.value == value && a.cooldown == cooldown
    ensures WellNamed(a, repr)
  {
    Alert(AlertName(symbol, kind, op, value, repr), symbol, kind, op, value, cooldown)
  }

  /** The alert's name is the one `__init__` derives from its fields. */
  ghost predicate WellNamed(a: Alert, repr: real -> string)
  {
    a.name == AlertName(a.symbol, a.kind, a.op, a.value, repr)
  }

  lemma {:induction false} SpaceAfter(a: string, b: string, c: string, d: string)
    requires a + " " + b == c + " " + d && |a| < |c|
    ensures c[|a|] == ' '
  {
    var x := a + " " + b;
    assert x[|a|] == ' ';
    assert x[|a|] == (c + " " + d)[|a|];
  }

  lemma {:induction false} SplitAtSpace(a: string, b: string, c: string, d: string)
    requires ' ' !in a && ' ' !in c
    requires a + " " + b == c + " " + d
    ensures a == c && b == d
  {
    if |a| < |c| {
      SpaceAfter(a, b, c, d);
      assert false;
    }
    if |c| < |a| {
      SpaceAfter(c, d, a, b);
      assert false;
    }
    var x := a + " " + b;
    assert a == x[..|a|] && c == (c + " " + d)[..|c|];
    assert b == x[|a| + 1..] && d == (c + " " + d)[|c| + 1..];
  }

  lemma {:induction false} KeywordHasNoSpace(k: Kind)
    ensures ' ' !in KindKeyword(k)
  {
    match k
    case PriceValue => WordHasNoSpace("price_value");
    case PctDay => WordHasNoSpace("pct_day");
    case Volume => WordHasNoSpace("volume");
    case PriceValueOffset => WordHasNoSpace("price_value_offset_since_last_alert");
    case PricePercentOffset => WordHasNoSpace("price_percent_offset_since_last_alert");
  }

  /** Text of lower-case letters and underscores holds no space. */
  lemma {:induction false} WordHasNoSpace(w: string)
    requires forall i :: 0 <= i < |w| ==> 'a' <= w[i] <= 'z' || w[i] == '_'
    ensures ' ' !in w
  {
  }

  lemma {:induction false} NameWords(s: string, k: Kind, o: Op, v: real, repr: real -> string)
    ensures AlertName(s, k, o, v, repr) == s + " " + (KindKeyword(k) + " " + (OpText(o) + " " + repr(v)))
  {
  }

  /** Two alerts whose symbols contain no space have the same name only when
      they agree on symbol, kind and operator and their thresholds print the
      same: the name is a faithful key of the condition, and alerts that
      differ only in cooldown share it. */
  lemma {:induction false} NameDeterminesCondition(s1: string, k1: Kind, o1: Op, v1: real,
                                s2: string, k2: Kind, o2: Op, v2: real, repr: real -> string)
    requires ' ' !in s1 && ' ' !in s2
    requires AlertName(s1, k1, o1, v1, repr) == AlertName(s2, k2, o2, v2, repr)
    ensures s1 == s2 && k1 == k2 && o1 == o2 && repr(v1) == repr(v2)
  {
    var w1, w2 := KindKeyword(k1), KindKeyword(k2);
    var p1, p2 := OpText(o1), OpText(o2);
    NameWords(s1, k1, o1, v1, repr);
    NameWords(s2, k2, o2, v2, repr);
    SplitAtSpace(s1, w1 + " " + (p1 + " " + repr(v1)), s2, w2 + " " + (p2 + " " + repr(v2)));
    KeywordHasNoSpace(k1);
    KeywordHasNoSpace(k2);
    SplitAtSpace(w1, p1 + " " + repr(v1), w2, p2 + " " + repr(v2));
    assert ' ' !in p1 && ' ' !in p2;
    SplitAtSpace(p1, repr(v1), p2, repr(v2));
    KindOfKeyword(k1);
    KindOfKeyword(k2);
    assert OpOf(p1) == Some(o1) && OpOf(p2) == Some(o2);
  }

  const NameField := "name"
  const SymbolField := "symbol"
  const KindField := "kind"
  const OpField := "op"
  const ValueField := "value"
  const CooldownField := "alert_cooldown_secs"

  /** `Alert.to_dict`: every field, with kind and operator as their text. */
  function ToDict(a: Alert): (d: Document)
    ensures d.Keys == {NameField, SymbolField, KindField, OpField, ValueField, CooldownField}
  {
    map[NameField := JStr(a.name), SymbolField := JStr(a.symbol), KindField := JStr(KindKeyword(a.kind)),
        OpField := JStr(OpText(a.op)), ValueField := JNum(a.value), CooldownField := JNum(a.cooldown as real)]
  }

  /** The symbol field is present and holds text. */
  predicate SymbolRead(d: Document)
  {
    SymbolField in d && d[SymbolField].JStr?
  }

  /** The kind field is present and `AlertKind` accepts it. */
  predicate KindRead(d: Document)
  {
    KindField in d && d[KindField].JStr? && KindOf(d[KindField].s).Some?
  }

  /** The operator field is present and `Operation` accepts it. */
  predicate OpRead(d: Document)
  {
    OpField in d && d[OpField].JStr? && OpOf(d[OpField].s).Some?
  }

  /** The value field is present and holds a number. */
  predicate ValueRead(d: Document)
  {
    ValueField in d && d[ValueField].JNum?
  }

  /** The cooldown field is present and holds a whole number. */
  predicate CooldownRead(d: Document)
  {
    CooldownField in d && d[CooldownField].JNum? && d[CooldownField].n.Floor as real == d[CooldownField].n
  }

  /** `Alert.from_dict`: reads the five condition fields in argument order and
      derives the name afresh.  It succeeds exactly when all five read; the
      first field in argument order that is missing, with every earlier one
      read, is a `KeyError`; an unknown kind, or an unknown operator after a
      known kind, is a `ValueError`. */
  function FromDict(d: Document, repr: real -> string): (r: Result<Alert, Fault>)
    ensures r.Success? <==> SymbolRead(d) && KindRead(d) && OpRead(d) && ValueRead(d) && CooldownRead(d)
    ensures r == Failure(KeyError) <==>
              || SymbolField !in d
              || (SymbolRead(d) && KindField !in d)
              || (SymbolRead(d) && KindRead(d) && OpField !in d)
              || (SymbolRead(d) && KindRead(d) && OpRead(d) && ValueField !in d)
              || (SymbolRead(d) && KindRead(d) && OpRead(d) && ValueRead(d) && CooldownField !in d)
    ensures r == Failure(ValueError) <==>
              SymbolRead(d) && KindField in d && (!KindRead(d) || (OpField in d && !OpRead(d)))
    ensures r.Failure? ==> r.error in {KeyError, ValueError, ShapeNotModelled}
    ensures r.Success? ==> WellNamed(r.value, repr)
    ensures r.Success? ==> SymbolField in d && d[SymbolField] == JStr(r.value.symbol)
    ensures r.Success? ==> KindField in d && d[KindField] == JStr(KindKeyword(r.value.kind))
    ensures r.Success? ==> OpField in d && d[OpField] == JStr(OpText(r.value.op))
    ensures r.Success? ==> ValueField in d && d[ValueField] == JNum(r.value.value)
    ensures r.Success? ==> CooldownField in d && d[CooldownField] == JNum(r.value.cooldown as real)
    ensures SymbolField !in d ==> r == Failure(KeyError)
  {
    if SymbolField !in d then Failure(KeyError)
    else if !d[SymbolField].JStr? then Failure(ShapeNotModelled)
    else if KindField !in d then Failure(KeyError)
    else if !d[KindField].JStr? || KindOf(d[KindField].s).None? then Failure(ValueError)
    else if OpField !in d then Failure(KeyError)
    else if !d[OpField].JStr? || OpOf(d[OpField].s).None? then Failure(ValueError)
    else if ValueField !in d then Failure(KeyError)
    else if !d[ValueField].JNum? then Failure(ShapeNotModelled)
    else if CooldownField !in d then Failure(KeyError)
    else if !d[CooldownField].JNum? || d[CooldownField].n.Floor as real != d[CooldownField].n then
      Failure(ShapeNotModelled)
    else
      Success(NewAlert(d[SymbolField].s, KindOf(d[KindField].s).value, OpOf(d[OpField].s).value,
                       d[ValueField].n, d[CooldownField].n.Floor, repr))
  }

  /** `from_dict(to_dict(a))` gives back the same alert. */
  lemma {:induction false} FromDictToDict(a: Alert, repr: real -> string)
    requires WellNamed(a, repr)
    ensures FromDict(ToDict(a), repr) == Success(a)
  {
    KindOfKeyword(a.kind);
    ToDictFields(a);
    var d := ToDict(a);
    assert d[CooldownField].n.Floor == a.cooldown;
  }

  lemma {:induction false} ToDictFields(a: Alert)
    ensures var d := ToDict(a);
            && d[SymbolField] == JStr(a.symbol) && d[KindField] == JStr(KindKeyword(a.kind))
            && d[OpField] == JStr(OpText(a.op)) && d[ValueField] == JNum(a.value)
            && d[CooldownField] == JNum(a.cooldown as real)
  {
  }

  /** A last-trigger time as the cache holds it: an epoch number, a
      `YYYY-MM-DD HH:MM:SS` local-time text, or another JSON value that
      `now_ts - last` cannot subtract. */
  datatype TS = Num(t: real) | Str(text: string) | NonNumeric

  /** Why `should_trigger` decided as it did; the value carried is the
      comparison value (`new_value`).  The reason text itself is not modelled. */
  datatype Reason = NotMet | CooldownActive(value: real) | PreviousPriceZero | Triggered(value: real)

  datatype Decision = Decision(fire: bool, reason: Reason)

  /** One entry of an alert's trigger history. */
  type Record = map<string, Json>

  const PriceField := "alert_last_price"

  /** `float(x)` of a stored JSON value. */
  function FloatOf(j: Json): Result<real, Fault>
  {
    match j
    case JNum(x) => Success(x)
    case JBool(b) => Success(if b then 1.0 else 0.0)
    case JStr(s) => (match ParseFloat(s) case Some(x) => Success(x) case None => Failure(ValueError))
    case _ => Failure(TypeError)
  }

  /** The price field of the last alert record, if there is a non-empty
      record holding one (`not info or PRICE not in info`). */
  function PreviousPrice(info: Option<Record>): Option<Json>
  {
    if info.Some? && PriceField in info.value then Some(info.value[PriceField]) else None
  }

  /** The comparison value, or the zero previous price that stops the
      evaluation early. */
  datatype Comparand = Value(v: real) | ZeroPrevious

  function Measure(kind: Kind, q: Quote, info: Option<Record>): Result<Comparand, Fault>
  {
    match kind
    case PriceValue => Success(Value(q.price))
    case PctDay => Success(Value(q.pctDay))
    case Volume => Success(Value(q.volume as real))
    case PriceValueOffset =>
      (match PreviousPrice(info)
       case None =>
         if q.pctDay == 0.0 then Success(Value(0.0))
         else if 1.0 + q.pctDay / 100.0 == 0.0 then Failure(ZeroDivisionError)
         else Success(Value(q.price - q.price / (1.0 + q.pctDay / 100.0)))
       case Some(j) =>
         (match FloatOf(j)
          case Failure(f) => Failure(f)
          case Success(prev) => Success(Value(q.price - prev))))
    case PricePercentOffset =>
      (match PreviousPrice(info)
       case None => Success(Value(q.pctDay))
       case Some(j) =>
         (match FloatOf(j)
          case Failure(f) => Failure(f)
          case Success(prev) =>
            if prev == 0.0 then Success(ZeroPrevious)
            else Success(Value(((q.price - prev) / prev) * 100.0))))
  }

  function Holds(op: Op, v: real, threshold: real): bool
  {
    match op
    case GE => v >= threshold
    case LE => v <= threshold
  }

  /** The last trigger time in epoch seconds: a local-time text that
      `parseLocal` cannot read counts as epoch 0. */
  function LastUnix(ts: TS, parseLocal: string -> Option<real>): real
    requires !ts.NonNumeric?
  {
    match ts
    case Num(t) => t
    case Str(s) => (match parseLocal(s) case Some(t) => t case None => 0.0)
  }

  /** `Alert.should_trigger(q, now_ts, last_trigger_ts, last_alert_info)`. */
  function ShouldTrigger(a: Alert, q: Quote, now: real, lastTs: Option<TS>, info: Option<Record>,
                         parseLocal: string -> Option<real>): Result<Decision, Fault>
  {
    match Measure(a.kind, q, info)
    case Failure(f) => Failure(f)
    case Success(ZeroPrevious) => Success(Decision(false, PreviousPriceZero))
    case Success(Value(v)) =>
      var cond := Holds(a.op, v, a.value);
      if cond && lastTs.Some? then
        if lastTs.value.NonNumeric? then Failure(TypeError)
        else if now - LastUnix(lastTs.value, parseLocal) < a.cooldown as real then
          Success(Decision(false, CooldownActive(v)))
        else Success(Decision(true, Triggered(v)))
      else if cond then Success(Decision(true, Triggered(v)))
      else Success(Decision(false, NotMet))
  }

  /** When the trigger decision is reached, the alert fires exactly when its
      condition holds on the comparison value and either it never fired or
      the cooldown has run out; and it reports that value. */
  lemma {:induction false} TriggerIff(a: Alert, q: Quote, now: real, lastTs: Option<TS>, info: Option<Record>,
                   parseLocal: string -> Option<real>, d: Decision)
    requires ShouldTrigger(a, q, now, lastTs, info, parseLocal) == Success(d)
    ensures Measure(a.kind, q, info).Success?
    ensures d.fire <==> (Measure(a.kind, q, info).value.Value?
                        && Holds(a.op, Measure(a.kind, q, info).value.v, a.value)
                        && (lastTs.None? || now - LastUnix(lastTs.value, parseLocal) >= a.cooldown as real))
    ensures d.fire ==> d.reason == Triggered(Measure(a.kind, q, info).value.v)
  {
  }

  /** A met condition within the cooldown never fires, however far the value
      is past the threshold. */
  lemma {:induction false} CooldownBlocks(a: Alert, q: Quote, now: real, last: TS, info: Option<Record>,
                       parseLocal: string -> Option<real>, v: real)
    requires Measure(a.kind, q, info) == Success(Value(v)) && Holds(a.op, v, a.value)
    requires !last.NonNumeric? && now - LastUnix(last, parseLocal) < a.cooldown as real
    ensures ShouldTrigger(a, q, now, Some(last), info, parseLocal) == Success(Decision(false, CooldownActive(v)))
  {
  }

  /** A condition that does not hold gives "Condition not met", whatever the
      cooldown state, even a last-trigger value that could not be subtracted. */
  lemma {:induction false} NotMetIgnoresCooldown(a: Alert, q: Quote, now: real, lastTs: Option<TS>, info: Option<Record>,
                              parseLocal: string -> Option<real>, v: real)
    requires Measure(a.kind, q, info) == Success(Value(v)) && !Holds(a.op, v, a.value)
    ensures ShouldTrigger(a, q, now, lastTs, info, parseLocal) == Success(Decision(false, NotMet))
  {
  }

  /** A last-trigger text that does not parse behaves exactly as epoch 0. */
  lemma {:induction false} UnparsableTimeIsEpochZero(a: Alert, q: Quote, now: real, s: string, info: Option<Record>,
                                  parseLocal: string -> Option<real>)
    requires parseLocal(s).None?
    ensures ShouldTrigger(a, q, now, Some(Str(s)), info, parseLocal)
         == ShouldTrigger(a, q, now, Some(Num(0.0)), info, parseLocal)
  {
  }

  /** Without a usable prior record, the percent-offset kind evaluates exactly
      as `pct_day`. */
  lemma {:induction false} PercentOffsetWithoutRecord(a: Alert, q: Quote, now: real, lastTs: Option<TS>, info: Option<Record>,
                                   parseLocal: string -> Option<real>)
    requires a.kind == PricePercentOffset && PreviousPrice(info).None?
    ensures ShouldTrigger(a, q, now, lastTs, info, parseLocal)
         == ShouldTrigger(a.(kind := PctDay), q, now, lastTs, info, parseLocal)
  {
  }

  /** A previous price that `float()` reads as zero (`0`, `"0"`, `false`)
      stops the percent-offset kind before any operator or cooldown check. */
  lemma {:induction false} ZeroPreviousPriceNeverFires(a: Alert, q: Quote, now: real, lastTs: Option<TS>, info: Option<Record>,
                                    parseLocal: string -> Option<real>)
    requires a.kind == PricePercentOffset
    requires PreviousPrice(info).Some? && FloatOf(PreviousPrice(info).value) == Success(0.0)
    ensures ShouldTrigger(a, q, now, lastTs, info, parseLocal) == Success(Decision(false, PreviousPriceZero))
  {
  }

  /** With a previous price that `float()` reads as `p`, the percent offset is the change from `p`
      in percent of `p`. */
  lemma {:induction false} PercentOffsetWithRecord(q: Quote, info: Option<Record>, p: real)
    requires PreviousPrice(info).Some? && FloatOf(PreviousPrice(info).value) == Success(p) && p != 0.0
    ensures exists v :: Measure(PricePercentOffset, q, info) == Success(Value(v)) && v * p == 100.0 * (q.price - p)
  {
    var v := ((q.price - p) / p) * 100.0;
    assert Measure(PricePercentOffset, q, info) == Success(Value(v));
    assert v * p == 100.0 * (q.price - p);
  }

  /** Without a prior record the value offset is today's move against the
      previous close `y` recovered from the day's percent change
      (`y * (1 + pct/100) == price`); a change of exactly -100% divides by zero. */
  lemma {:induction false} ValueOffsetWithoutRecord(q: Quote, info: Option<Record>)
    requires PreviousPrice(info).None?
    ensures q.pctDay == 0.0 ==> Measure(PriceValueOffset, q, info) == Success(Value(0.0))
    ensures q.pctDay == -100.0 ==> Measure(PriceValueOffset, q, info) == Failure(ZeroDivisionError)
    ensures q.pctDay != 0.0 && q.pctDay != -100.0 ==>
              Measure(PriceValueOffset, q, info).Success? && Measure(PriceValueOffset, q, info).value.Value?
              && (q.price - Measure(PriceValueOffset, q, info).value.v) * (1.0 + q.pctDay / 100.0) == q.price
  {
    if q.pctDay != 0.0 && q.pctDay != -100.0 {
      var g := 1.0 + q.pctDay / 100.0;
      assert g != 0.0;
      QuotientTimesDivisor(q.price, g);
    }
  }

  lemma {:induction false} QuotientTimesDivisor(x: real, y: real)
    requires y != 0.0
    ensures (x / y) * y == x
  {
  }

  /** With a previous price that `float()` reads as `p`, the value offset is the difference from `p`. */
  lemma {:induction false} ValueOffsetWithRecord(q: Quote, info: Option<Record>, p: real)
    requires PreviousPrice(info).Some? && FloatOf(PreviousPrice(info).value) == Success(p)
    ensures Measure(PriceValueOffset, q, info) == Success(Value(q.price - p))
  {
  }

  /** `price_value >= 200` with a price of 205 and no earlier trigger fires,
      reporting 205. */
  lemma {:induction false} ScenarioPriceAboveThreshold(repr: real -> string, parseLocal: string -> Option<real>, now: real)
    ensures var a := NewAlert("AAPL", PriceValue, GE, 200.0, 300, repr);
            ShouldTrigger(a, Quote("AAPL", 205.0, 1.0, 0), now, None, None, parseLocal)
            == Success(Decision(true, Triggered(205.0)))
  {
  }

  /** `price_percent_offset_since_last_alert >= 5` after an alert at price
      100: a price of 104 is a 4% move and does not fire, 106 is 6% and does. */
  lemma {:induction false} ScenarioPercentOffset(repr: real -> string, parseLocal: string -> Option<real>, now: real)
    ensures var a := NewAlert("AAPL", PricePercentOffset, GE, 5.0, 300, repr);
            var info := Some(map[PriceField := JNum(100.0)]);
            && ShouldTrigger(a, Quote("AAPL", 104.0, 0.0, 0), now, None, info, parseLocal)
               == Success(Decision(false, NotMet))
            && ShouldTrigger(a, Quote("AAPL", 106.0, 0.0, 0), now, None, info, parseLocal)
               == Success(Decision(true, Triggered(6.0)))
  {
    var info := Some(map[PriceField := JNum(100.0)]);
    assert PreviousPrice(info) == Some(JNum(100.0));
  }
}
