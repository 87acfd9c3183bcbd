/** The older alert model of `stock_alert/core/models.py`: three kinds, the
    cooldown and last trigger time kept on the alert itself, and its own
    `parse_condition` over the shared grammar. */
module LegacyModels {
  import opened Base
  import opened Text
  import opened Numerals
  import Alerts
  import Condition

  /** `AlertKind` of this model: `price`, `pct_day`, `volume`. */
  datatype LegacyKind = Price | PctDay | Volume

  function LegacyKeyword(k: LegacyKind): string
  {
    match k
    case Price => "price"
    case PctDay => "pct_day"
    case Volume => "volume"
  }

  const LegacyKeywords: seq<string> := [LegacyKeyword(Price), LegacyKeyword(PctDay), LegacyKeyword(Volume)]

  function LegacyKindOf(s: string): (r: Option<LegacyKind>)
    ensures r.Some? <==> s in LegacyKeywords
    ensures r.Some? ==> LegacyKeyword(r.value) == s
  {
    if s == "price" then Some(Price)
    else if s == "pct_day" then Some(PctDay)
    else if s == "volume" then Some(Volume)
    else None
  }

  /** `Alert` of this model.  Its `Quote` has the same fields as the newer model's and is that record here. */
  datatype LegacyAlert = LegacyAlert(name: string, symbol: string, kind: LegacyKind, op: Alerts.Op, value: real,
                                     cooldownSec: int, lastTriggerTs: Option<real>)

  /** `cooldown_sec` when none is given. */
  const DefaultCooldown := 300

  datatype LegacyReason = NotMet | CooldownActive | Triggered(now: real)

  function Comparand(k: LegacyKind, q: Alerts.Quote): real
  {
    match k
    case Price => q.price
    case PctDay => q.pctDay
    case Volume => q.volume as real
  }

  /** `Alert.should_trigger(q, now_ts)`; it reads the alert and changes nothing. */
  function LegacyShouldTrigger(a: LegacyAlert, q: Alerts.Quote, now: real): (bool, LegacyReason)
  {
    var v := Comparand(a.kind, q);
    var cond := Alerts.Holds(a.op, v, a.value);
    if cond && a.lastTriggerTs.Some? && now - a.lastTriggerTs.value < a.cooldownSec as real then (false, CooldownActive)
    else if cond then (true, Triggered(v))
    else (false, NotMet)
  }

  /** The alert fires exactly when its condition holds and it never fired or
      its cooldown has run out; a blocked firing says "Cooldown active", a
      failed condition "Condition not met", and a firing reports the value. */
  lemma {:induction false} LegacyTriggerIff(a: LegacyAlert, q: Alerts.Quote, now: real)
    ensures var (fire, reason) := LegacyShouldTrigger(a, q, now);
            var cond := Alerts.Holds(a.op, Comparand(a.kind, q), a.value);
            && (fire <==> cond && (a.lastTriggerTs.None? || now - a.lastTriggerTs.value >= a.cooldownSec as real))
            && (fire ==> reason == Triggered(Comparand(a.kind, q)))
            && (!cond ==> reason == NotMet)
            && (cond && !fire ==> reason == CooldownActive)
  {
  }

  /** The three kinds decide as the same kinds of the newer model, when the
      newer model is given the alert's own last trigger time. */
  lemma {:induction false} AgreesWithNewerModel(a: LegacyAlert, q: Alerts.Quote, now: real, info: Option<Alerts.Record>,
                             parseLocal: string -> Option<real>)
    ensures var kind := match a.kind case Price => Alerts.PriceValue case PctDay => Alerts.PctDay case Volume => Alerts.Volume;
            var newer := Alerts.Alert(a.name, a.symbol, kind, a.op, a.value, a.cooldownSec);
            var last := match a.lastTriggerTs case None => None case Some(t) => Some(Alerts.Num(t));
            Alerts.ShouldTrigger(newer, q, now, last, info, parseLocal).Success?
            && Alerts.ShouldTrigger(newer, q, now, last, info, parseLocal).value.fire == LegacyShouldTrigger(a, q, now).0
  {
  }

  lemma {:induction false} LegacyKeywordsAreWords()
    ensures forall i :: 0 <= i < |LegacyKeywords| ==> Condition.IsKeyword(LegacyKeywords[i])
  {
    assert Condition.IsKeyword("price");
    assert Condition.IsKeyword("pct_day");
    assert Condition.IsKeyword("volume");
  }

  /** `parse_condition(cond)`: a `ValueError` unless the stripped text matches
      the grammar with `price|pct_day|volume`; otherwise the lower-cased
      keyword, the operator and `float()` of the numeral. */
  function LegacyParseCondition(s: string): (r: Result<(LegacyKind, Alerts.Op, real), Fault>)
    ensures r.Failure? ==> r.error == ValueError
  {
    match Condition.Parse(s, LegacyKeywords)
    case None => Failure(ValueError)
    case Some(p) =>
      ParseFloatRender(p.number);
      Success((LegacyKindOf(Lower(p.keyword)).value, p.op, ParseFloat(p.number.Render()).value))
  }

  /** Parsing succeeds exactly on the texts that strip to a match, and gives
      the kind of the matched keyword, the operator and the numeral's value. */
  lemma {:induction false} LegacyParseConditionIff(s: string, p: Condition.Parts)
    ensures Condition.WellFormed(p, LegacyKeywords) && Condition.Render(p) == Strip(s)
            <==>
            Condition.Parse(s, LegacyKeywords) == Some(p)
    ensures Condition.Parse(s, LegacyKeywords) == Some(p) ==>
              LegacyParseCondition(s) == Success((LegacyKindOf(Lower(p.keyword)).value, p.op, p.number.Value()))
              && LegacyKeyword(LegacyKindOf(Lower(p.keyword)).value) == Lower(p.keyword)
    ensures Condition.Parse(s, LegacyKeywords).None? ==> LegacyParseCondition(s) == Failure(ValueError)
  {
    LegacyKeywordsAreWords();
    Condition.ParseIff(s, LegacyKeywords, p);
    if Condition.Parse(s, LegacyKeywords) == Some(p) {
      ParseFloatRender(p.number);
    }
  }

  /** `"<kind> <op> <numeral>"` parses back to that kind, operator and value. */
  lemma {:induction false} LegacyParseConditionRender(k: LegacyKind, op: Alerts.Op, n: Numeral)
    requires n.WellFormed()
    ensures LegacyParseCondition(LegacyKeyword(k) + " " + Alerts.OpText(op) + " " + n.Render())
            == Success((k, op, n.Value()))
  {
    var p := Condition.Parts(LegacyKeyword(k), " ", op, " ", n);
    assert Lower(LegacyKeyword(k)) == LegacyKeyword(k);
    assert Condition.Render(p) == LegacyKeyword(k) + " " + Alerts.OpText(op) + " " + n.Render();
    LegacyKeywordsAreWords();
    Condition.ParseRender(p, LegacyKeywords);
    ParseFloatRender(n);
  }
}
