/** The settings commands of `stock_alert/tools/t_manage_settings.py`:
    `parse_condition` over the five alert kinds, and what `watchlist add` and
    `alert create` do to the config file. */
module ManageSettings {
  import opened Base
  import opened Json
  import opened Text
  import opened Numerals
  import opened Alerts
  import Condition
  import opened ConfigStore

  lemma {:induction false} KindKeywordsAreWords()
    ensures forall i :: 0 <= i < |KindKeywords| ==> Condition.IsKeyword(KindKeywords[i])
  {
    assert Condition.IsKeyword("price_value");
    assert Condition.IsKeyword("pct_day");
    assert Condition.IsKeyword("volume");
    assert Condition.IsKeyword("price_value_offset_since_last_alert");
    assert Condition.IsKeyword("price_percent_offset_since_last_alert");
  }

  /** `parse_condition(cond)`: a `ValueError` unless the stripped text is a
      kind keyword in any case, optional spaces, `>=` or `<=`, optional spaces
      and an optionally negative decimal; otherwise the kind of the
      lower-cased keyword, the operator and `float()` of the numeral. */
  function ParseCondition(s: string): (r: Result<(Kind, Op, real), Fault>)
    ensures r.Failure? ==> r.error == ValueError
  {
    match Condition.Parse(s, KindKeywords)
    case None => Failure(ValueError)
    case Some(p) =>
      ParseFloatRender(p.number);
      Success((KindOf(Lower(p.keyword)).value, p.op, ParseFloat(p.number.Render()).value))
  }

  /** Parsing succeeds exactly on the texts that strip to a match of the
      grammar, and gives the kind whose keyword is the lower-cased match, the
      operator and the numeral's value; anything else is a `ValueError`. */
  lemma {:induction false} ParseConditionIff(s: string, p: Condition.Parts)
    ensures Condition.WellFormed(p, KindKeywords) && Condition.Render(p) == Strip(s)
            <==>
            Condition.Parse(s, KindKeywords) == Some(p)
    ensures Condition.Parse(s, KindKeywords) == Some(p) ==>
              ParseCondition(s) == Success((KindOf(Lower(p.keyword)).value, p.op, p.number.Value()))
              && KindKeyword(KindOf(Lower(p.keyword)).value) == Lower(p.keyword)
    ensures Condition.Parse(s, KindKeywords).None? ==> ParseCondition(s) == Failure(ValueError)
  {
    KindKeywordsAreWords();
    Condition.ParseIff(s, KindKeywords, p);
    if Condition.Parse(s, KindKeywords) == Some(p) {
      ParseFloatRender(p.number);
    }
  }

  /** `"<kind> <op> <numeral>"` parses back to that kind, operator and value,
      including the kinds whose keyword starts with another kind's keyword. */
  lemma {:induction false} ParseConditionRender(k: Kind, op: Op, n: Numeral)
    requires n.WellFormed()
    ensures ParseCondition(KindKeyword(k) + " " + OpText(op) + " " + n.Render()) == Success((k, op, n.Value()))
  {
    var s := KindKeyword(k) + " " + OpText(op) + " " + n.Render();
    var p := Condition.Parts(KindKeyword(k), " ", op, " ", n);
    SpacedRender(KindKeyword(k), op, n);
    KindPartsWellFormed(k, p);
    KindKeywordsAreWords();
    Condition.ParseRender(p, KindKeywords);
    ParseConditionIff(s, p);
    KindOfKeyword(k);
  }

  lemma {:induction false} SpacedRender(keyword: string, op: Op, n: Numeral)
    ensures Condition.Render(Condition.Parts(keyword, " ", op, " ", n)) == keyword + " " + OpText(op) + " " + n.Render()
  {
  }

  lemma {:induction false} KindPartsWellFormed(k: Kind, p: Condition.Parts)
    requires p.keyword == KindKeyword(k) && p.gap1 == " " && p.gap2 == " " && p.number.WellFormed()
    ensures Lower(p.keyword) == p.keyword && Condition.WellFormed(p, KindKeywords)
  {
    KindOfKeyword(k);
    KindKeywordsAreWords();
    var i :| 0 <= i < |KindKeywords| && KindKeywords[i] == KindKeyword(k);
    Condition.LowerOfKeyword(KindKeyword(k));
  }

  /** The items of `xs` that do not occur in `before`, in order. */
  function Without(xs: seq<string>, before: seq<string>): (r: seq<string>)
    ensures Elems(r) == Elems(xs) - Elems(before)
  {
    if |xs| == 0 then []
    else
      assert xs == [xs[0]] + xs[1..];
      assert Elems(xs) == {xs[0]} + Elems(xs[1..]);
      var rest := Without(xs[1..], before);
      if xs[0] in before then rest
      else
        assert Elems([xs[0]] + rest) == {xs[0]} + Elems(rest);
        [xs[0]] + rest
  }

  /** `sorted(set(s.upper() for s in args) - before)`, the symbols reported as added. */
  function Added(before: seq<string>, args: seq<string>): (r: seq<string>)
    ensures Sorted(r) && Elems(r) == Elems(UpperAll(args)) - Elems(before)
  {
    SortDistinct(Without(UpperAll(args), before))
  }

  /** The report is the only sorted list of exactly the new symbols, and the
      saved watchlist holds the old symbols and the added ones and nothing else. */
  lemma {:induction false} AddedIsNew(before: seq<string>, args: seq<string>, report: seq<string>)
    requires forall i :: 0 <= i < |before| ==> Upper(before[i]) == before[i]
    ensures Sorted(report) && Elems(report) == Elems(UpperAll(args)) - Elems(before) <==> report == Added(before, args)
    ensures Elems(SortDistinct(UpperAll(before + UpperAll(args)))) == Elems(before) + Elems(Added(before, args))
  {
    if Sorted(report) && Elems(report) == Elems(UpperAll(args)) - Elems(before) {
      SortedUnique(report, Added(before, args));
    }
    var u := UpperAll(args);
    assert UpperAll(before) == before;
    forall x | x in Elems(UpperAll(before + u)) ensures x in Elems(before) + Elems(u) {
      var i :| 0 <= i < |before + u| && UpperAll(before + u)[i] == x;
      if i < |before| {
        assert x == Upper(before[i]) == before[i];
      } else {
        assert x == Upper(u[i - |before|]);
        UpperIdempotent(args[i - |before|]);
      }
    }
    forall x | x in Elems(before) + Elems(u) ensures x in Elems(UpperAll(before + u)) {
      if x in Elems(before) {
        var i :| 0 <= i < |before| && before[i] == x;
        assert UpperAll(before + u)[i] == x;
      } else {
        var i :| 0 <= i < |u| && u[i] == x;
        UpperIdempotent(args[i]);
        assert UpperAll(before + u)[|before| + i] == x;
      }
    }
  }

  /** What `alert create` ends with. */
  datatype CreateOutcome =
    | Created(alert: Alert)
    | AlreadyExists
    | InvalidCondition
    | Raised(fault: Fault)

  /** An alerts map as `alerts_from_dict(load_alerts())` reads it from the
      loaded config: there is none when `load_alerts` fails, returns a value
      without `items`, or holds a payload that does not decode. */
  ghost function LoadedAlerts(config: Json, repr: real -> string): Option<map<string, Alert>>
  {
    var l := AlertsOf(config);
    if l.Success? && l.value.JObj? && Decodes(l.value.fields, repr) then Some(Decoded(l.value.fields, repr))
    else None
  }

  /** `cmd_watchlist_add`: loads the watchlist, saves it with the upper-cased
      arguments appended and reports the sorted symbols that were new. */
  method WatchlistAdd(dir: ConfigDir, args: seq<string>) returns (r: Result<seq<string>, Fault>)
    modifies dir
    ensures old(dir.LoadWatchlist()).Failure? ==> r == old(dir.LoadWatchlist()) && dir.files == old(dir.files)
    ensures old(dir.LoadWatchlist()).Success? ==>
              var before := old(dir.LoadWatchlist()).value;
              && r == Success(Added(before, args))
              && dir.LoadWatchlist() == Success(SortDistinct(UpperAll(before + UpperAll(args))))
              && (forall k :: k in old(dir.Config()).fields && k != WatchlistKey ==>
                    k in dir.Config().fields && dir.Config().fields[k] == old(dir.Config()).fields[k])
              && dir.files == (old(dir.files) - {dir.path + ".tmp"})[dir.path := Parsed(dir.Config())]
  {
    var loaded := dir.LoadWatchlist();
    if loaded.Failure? {
      return Failure(loaded.error);
    }
    var symbols := loaded.value;
    var fault := dir.SaveWatchlist(symbols + UpperAll(args));
    if fault.Some? {
      assert false;
    }
    return Success(Added(symbols, args));
  }

  /** `cmd_alert_create`: refuses a `name` that is already a key of the
      stored alerts, parses the condition, and stores the new alert under its
      derived name, which replaces an alert of the same symbol, kind, operator
      and value even when `name` was new. */
  method AlertCreate(dir: ConfigDir, name: string, symbol: string, when: string, cooldown: int,
                     repr: real -> string) returns (r: CreateOutcome)
    modifies dir
    ensures !r.Created? ==> dir.files == old(dir.files)
    ensures r == AlreadyExists <==>
              LoadedAlerts(old(dir.Config()), repr).Some? && name in LoadedAlerts(old(dir.Config()), repr).value
    ensures r == InvalidCondition <==>
              LoadedAlerts(old(dir.Config()), repr).Some? && name !in LoadedAlerts(old(dir.Config()), repr).value
              && ParseCondition(when).Failure?
    ensures r.Raised? <==> LoadedAlerts(old(dir.Config()), repr).None?
    ensures r.Created? ==>
              var (kind, op, value) := ParseCondition(when).value;
              var before := LoadedAlerts(old(dir.Config()), repr).value;
              && ParseCondition(when).Success?
              && r.alert == NewAlert(Upper(symbol), kind, op, value, cooldown, repr)
              && dir.LoadAlerts() == Success(JObj(AlertsToDict(before[r.alert.name := r.alert])))
    ensures r.Created? ==>
              && old(dir.Config()).JObj? && dir.Config().JObj?
              && (forall k :: k in old(dir.Config()).fields && k != AlertsKey ==>
                    k in dir.Config().fields && dir.Config().fields[k] == old(dir.Config()).fields[k])
              && dir.files == (old(dir.files) - {dir.path + ".tmp"})[dir.path := Parsed(dir.Config())]
  {
    ghost var config := dir.Config();
    var loaded := dir.LoadAlerts();
    if loaded.Failure? {
      return Raised(loaded.error);
    }
    if !loaded.value.JObj? {
      return Raised(AttributeError);
    }
    var decoded := AlertsFromDict(loaded.value.fields, repr);
    if decoded.Failure? {
      return Raised(decoded.error);
    }
    var alerts := decoded.value;
    if name in alerts {
      return AlreadyExists;
    }
    var parsed := ParseCondition(when);
    if parsed.Failure? {
      return InvalidCondition;
    }
    var (kind, op, value) := parsed.value;
    var alert := NewAlert(Upper(symbol), kind, op, value, cooldown, repr);
    alerts := alerts[alert.name := alert];
    var fault := dir.SaveAlerts(AlertsToDict(alerts));
    if fault.Some? {
      assert false;
    }
    return Created(alert);
  }

  /** The map `alert create` stores holds the new alert under its derived
      name and every other alert as it was; the only alert it can replace is
      one with that same derived name. */
  lemma {:induction false} CreateKeepsOthers(alerts: map<string, Alert>, a: Alert)
    ensures var stored := AlertsToDict(alerts[a.name := a]);
            && stored.Keys == alerts.Keys + {a.name}
            && stored[a.name] == JObj(ToDict(a))
            && (forall k :: k in alerts && k != a.name ==> stored[k] == JObj(ToDict(alerts[k])))
            && (a.name in alerts ==> |stored.Keys| == |alerts.Keys|)
  {
    var stored := AlertsToDict(alerts[a.name := a]);
    if a.name in alerts {
      assert stored.Keys == alerts.Keys;
    }
  }

  /** Stored alerts read back as they were stored: after a creation, the
      alerts `alert create` would load next are the earlier ones with the new
      alert under its derived name. */
  lemma {:induction false} CreatedReadsBack(alerts: map<string, Alert>, a: Alert, repr: real -> string)
    requires forall k :: k in alerts ==> WellNamed(alerts[k], repr)
    requires WellNamed(a, repr)
    ensures Decodes(AlertsToDict(alerts[a.name := a]), repr)
    ensures Decoded(AlertsToDict(alerts[a.name := a]), repr) == alerts[a.name := a]
  {
    AlertsRoundTrip(alerts[a.name := a], repr);
  }
}
