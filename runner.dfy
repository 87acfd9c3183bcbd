/** One tick and the run loop of `stock_alert/core/runner.py`: fetch a quote
    per symbol, evaluate every alert against its last trigger time and last
    history record, and persist both cache sections after each trigger. */
module Runner {
  import opened Base
  import opened Json
  import opened Text
  import opened Alerts
  import CacheStore
  import Utils

  /** The two cache sections a tick reads and writes. */
  const TsSection := "last_alerts_trigger_ts"
  const HistorySection := "alerts_history"

  /** The fields of one history record besides the price. */
  const TriggerTsField := "trigger_ts"
  const AlertNameField := "name"

  /** What a tick hands to the outside, in order: the quotes to `on_tick`, the
      data to `save_to_cache`, and each trigger to `on_alert`. */
  datatype Event =
    | Ticked(quotes: map<string, Quote>)
    | Saved(data: Document)
    | Alerted(key: string, alert: Alert, quote: Quote, reason: Reason)

  /** Python's truth value of a JSON value. */
  predicate Truthy(j: Json)
  {
    match j
    case JNull => false
    case JBool(b) => b
    case JNum(n) => n != 0.0
    case JStr(s) => |s| > 0
    case JArr(items) => |items| > 0
    case JObj(fields) => |fields| > 0
  }

  /** `last_trigger_ts.get(key)` as `should_trigger` receives it: JSON `null`
      or a missing key is no last time; `True`/`False` subtract as 1 and 0. */
  function LastTs(ts: Json, key: string): (r: Result<Option<TS>, Fault>)
    ensures r.Failure? <==> !ts.JObj?
    ensures r.Failure? ==> r.error == AttributeError
    ensures r.Success? && (key !in ts.fields || ts.fields[key].JNull?) ==> r.value.None?
    ensures r.Success? && key in ts.fields && ts.fields[key].JStr? ==> r.value == Some(Str(ts.fields[key].s))
    ensures r.Success? && key in ts.fields && ts.fields[key].JNum? ==> r.value == Some(Num(ts.fields[key].n))
  {
    if !ts.JObj? then Failure(AttributeError)
    else if key !in ts.fields then Success(None)
    else match ts.fields[key]
      case JNull => Success(None)
      case JNum(t) => Success(Some(Num(t)))
      case JBool(b) => Success(Some(Num(if b then 1.0 else 0.0)))
      case JStr(s) => Success(Some(Str(s)))
      case _ => Success(Some(NonNumeric))
  }

  /** `last_records[-1] if last_records else None` with
      `last_records = history.get(key) or []`: the last record of a non-empty
      history list, nothing for a missing or empty history.  Histories and
      records of other shapes are not modelled. */
  function LastRecord(history: Json, key: string): (r: Result<Option<Record>, Fault>)
    ensures !history.JObj? ==> r == Failure(AttributeError)
    ensures history.JObj? && (key !in history.fields || history.fields[key] == JArr([])) ==> r == Success(None)
    ensures history.JObj? && key in history.fields && history.fields[key].JArr? && |history.fields[key].items| > 0 &&
            history.fields[key].items[|history.fields[key].items| - 1].JObj? ==>
              r == Success(Some(history.fields[key].items[|history.fields[key].items| - 1].fields))
  {
    if !history.JObj? then Failure(AttributeError)
    else
      var entry := if key in history.fields then history.fields[key] else JNull;
      if !Truthy(entry) then Success(None)
      else if !entry.JArr? then Failure(ShapeNotModelled)
      else
        var last := entry.items[|entry.items| - 1];
        if last.JObj? then Success(Some(last.fields))
        else if !Truthy(last) then Success(None)
        else Failure(ShapeNotModelled)
  }

  /** The history record of one trigger. */
  function HistoryRecord(readable: string, name: string, price: real): Json
  {
    JObj(map[TriggerTsField := JStr(readable), AlertNameField := JStr(name), PriceField := JNum(price)])
  }

  /** `history.setdefault(key, []).append(record)`, as the two statements do
      it: an existing entry that is not a list has no `append`. */
  function Appended(history: map<string, Json>, key: string, record: Json): (r: Result<map<string, Json>, Fault>)
    ensures r.Failure? <==> key in history && !history[key].JArr?
    ensures r.Failure? ==> r.error == AttributeError
    ensures r.Success? ==> r.value.Keys == history.Keys + {key}
    ensures r.Success? ==> forall k :: k in history && k != key ==> r.value[k] == history[k]
    ensures r.Success? ==> r.value[key] == JArr((if key in history then history[key].items else []) + [record])
  {
    if key !in history then
      assert [] + [record] == [record];
      Success(history[key := JArr([record])])
    else if history[key].JArr? then Success(history[key := JArr(history[key].items + [record])])
    else Failure(AttributeError)
  }

  /** What one pass of the alerts loop does with one alert. */
  datatype Step =
    | Skipped
    | Held(reason: Reason)
    | Fired(ts: map<string, Json>, history: map<string, Json>, quote: Quote, reason: Reason)

  /** One pass of the alerts loop for `(key, alert)`, given the quotes and
      both sections as they are at that point. */
  function CheckAlert(key: string, alert: Alert, quotes: map<string, Quote>, ts: Json, history: Json,
                      now: real, readable: string, parseLocal: string -> Option<real>): (r: Result<Step, Fault>)
    ensures alert.symbol !in quotes ==> r == Success(Skipped)
    ensures r.Success? && r.value.Fired? ==>
              && alert.symbol in quotes && r.value.quote == quotes[alert.symbol]
              && ts.JObj? && r.value.ts == ts.fields[key := JStr(readable)]
              && history.JObj?
              && Appended(history.fields, key, HistoryRecord(readable, alert.name, r.value.quote.price))
                 == Success(r.value.history)
  {
    if alert.symbol !in quotes then Success(Skipped)
    else
      var q := quotes[alert.symbol];
      match LastTs(ts, key)
      case Failure(f) => Failure(f)
      case Success(lastTs) =>
        match LastRecord(history, key)
        case Failure(f) => Failure(f)
        case Success(record) =>
          match ShouldTrigger(alert, q, now, lastTs, record, parseLocal)
          case Failure(f) => Failure(f)
          case Success(d) =>
            if !d.fire then Success(Held(d.reason))
            else
              match Appended(history.fields, key, HistoryRecord(readable, alert.name, q.price))
              case Failure(f) => Failure(f)
              case Success(h) => Success(Fired(ts.fields[key := JStr(readable)], h, q, d.reason))
  }

  /** The alert fires in the loop exactly when `should_trigger`, given the
      key's last trigger time and last history record, says so and the
      history entry takes an `append`. */
  lemma {:induction false} FiresIff(key: string, alert: Alert, quotes: map<string, Quote>, ts: Json, history: Json,
                 now: real, readable: string, parseLocal: string -> Option<real>)
    ensures var r := CheckAlert(key, alert, quotes, ts, history, now, readable, parseLocal);
            r.Success? && r.value.Fired? <==>
              && alert.symbol in quotes
              && LastTs(ts, key).Success? && LastRecord(history, key).Success?
              && ShouldTrigger(alert, quotes[alert.symbol], now, LastTs(ts, key).value,
                               LastRecord(history, key).value, parseLocal).Success?
              && ShouldTrigger(alert, quotes[alert.symbol], now, LastTs(ts, key).value,
                               LastRecord(history, key).value, parseLocal).value.fire
              && Appended(history.fields, key, HistoryRecord(readable, alert.name, quotes[alert.symbol].price)).Success?
  {
  }

  /** Both sections as `save_to_cache` receives them. */
  function Sections(ts: map<string, Json>, history: map<string, Json>): Document
  {
    map[TsSection := JObj(ts), HistorySection := JObj(history)]
  }

  /** The sections and the events of a tick so far. */
  datatype TickState = TickState(ts: Json, history: Json, events: seq<Event>)

  /** The alerts loop from state `st` on, in the dict's order: the state after
      the last alert, or the state at the alert that raised and its error.
      Each trigger saves both sections before its `on_alert`. */
  function Evaluate(alerts: seq<(string, Alert)>, quotes: map<string, Quote>, st: TickState,
                    now: real, readable: string, parseLocal: string -> Option<real>): (TickState, Option<Fault>)
    decreases |alerts|
  {
    if |alerts| == 0 then (st, None)
    else
      match CheckAlert(alerts[0].0, alerts[0].1, quotes, st.ts, st.history, now, readable, parseLocal)
      case Failure(f) => (st, Some(f))
      case Success(Fired(ts, history, q, reason)) =>
        var next := TickState(JObj(ts), JObj(history),
                              st.events + [Saved(Sections(ts, history)), Alerted(alerts[0].0, alerts[0].1, q, reason)]);
        Evaluate(alerts[1..], quotes, next, now, readable, parseLocal)
      case Success(_) => Evaluate(alerts[1..], quotes, st, now, readable, parseLocal)
  }

  /** The events a run of the loop adds come in pairs: a save holding the
      trigger's timestamp and its new last history record, then the
      `on_alert` of that trigger, for an alert whose symbol was fetched and
      with its quote;  every trigger records the tick's one timestamp. */
  ghost predicate Paired(events: seq<Event>, quotes: map<string, Quote>, readable: string)
  {
    && |events| % 2 == 0
    && forall j :: 0 <= j < |events| / 2 ==>
         && events[2 * j].Saved?
         && events[2 * j + 1].Alerted?
         && events[2 * j + 1].alert.symbol in quotes
         && events[2 * j + 1].quote == quotes[events[2 * j + 1].alert.symbol]
         && Witnessed(events[2 * j].data, events[2 * j + 1], readable)
  }

  /** The saved sections map the trigger's key to the tick's timestamp and end
      its history with the trigger's record. */
  ghost predicate Witnessed(data: Document, e: Event, readable: string)
    requires e.Alerted?
  {
    && TsSection in data && data[TsSection].JObj?
    && e.key in data[TsSection].fields && data[TsSection].fields[e.key] == JStr(readable)
    && HistorySection in data && data[HistorySection].JObj?
    && e.key in data[HistorySection].fields && data[HistorySection].fields[e.key].JArr?
    && |data[HistorySection].fields[e.key].items| > 0
    && data[HistorySection].fields[e.key].items[|data[HistorySection].fields[e.key].items| - 1]
       == HistoryRecord(readable, e.alert.name, e.quote.price)
  }

  lemma {:induction false} PairedAppend(events: seq<Event>, more: seq<Event>, quotes: map<string, Quote>, readable: string)
    requires Paired(events, quotes, readable) && Paired(more, quotes, readable)
    ensures Paired(events + more, quotes, readable)
  {
    var all := events + more;
    forall j | 0 <= j < |all| / 2
      ensures all[2 * j].Saved? && all[2 * j + 1].Alerted? && all[2 * j + 1].alert.symbol in quotes
      ensures all[2 * j + 1].quote == quotes[all[2 * j + 1].alert.symbol]
      ensures Witnessed(all[2 * j].data, all[2 * j + 1], readable)
    {
      if j >= |events| / 2 {
        var k := j - |events| / 2;
        assert all[2 * j] == more[2 * k] && all[2 * j + 1] == more[2 * k + 1];
      } else {
        assert all[2 * j] == events[2 * j] && all[2 * j + 1] == events[2 * j + 1];
      }
    }
  }

  /** The two events of one trigger are paired. */
  lemma {:induction false} FiredPair(key: string, alert: Alert, quotes: map<string, Quote>, st: TickState,
                  now: real, readable: string, parseLocal: string -> Option<real>)
    requires CheckAlert(key, alert, quotes, st.ts, st.history, now, readable, parseLocal).Success?
    requires CheckAlert(key, alert, quotes, st.ts, st.history, now, readable, parseLocal).value.Fired?
    ensures var c := CheckAlert(key, alert, quotes, st.ts, st.history, now, readable, parseLocal).value;
            Paired([Saved(Sections(c.ts, c.history)), Alerted(key, alert, c.quote, c.reason)], quotes, readable)
  {
    var c := CheckAlert(key, alert, quotes, st.ts, st.history, now, readable, parseLocal).value;
    var pair := [Saved(Sections(c.ts, c.history)), Alerted(key, alert, c.quote, c.reason)];
    assert Appended(st.history.fields, key, HistoryRecord(readable, alert.name, c.quote.price)) == Success(c.history);
    assert Witnessed(pair[0].data, pair[1], readable);
  }

  /** Events that extend `pre + pair` by paired events extend `pre` by paired events. */
  lemma {:induction false} PairedExtension(pre: seq<Event>, pair: seq<Event>, all: seq<Event>, quotes: map<string, Quote>, readable: string)
    requires |pre| + |pair| <= |all| && all[..|pre| + |pair|] == pre + pair
    requires Paired(pair, quotes, readable) && Paired(all[|pre| + |pair|..], quotes, readable)
    ensures all[..|pre|] == pre && Paired(all[|pre|..], quotes, readable)
  {
    PrefixThenPair(pre, pair, all);
    PairedAppend(pair, all[|pre| + |pair|..], quotes, readable);
  }

  /** A sequence that starts with `pre + pair` splits after `pre`. */
  lemma {:induction false} PrefixThenPair<T>(pre: seq<T>, pair: seq<T>, all: seq<T>)
    requires |pre| + |pair| <= |all| && all[..|pre| + |pair|] == pre + pair
    ensures all[..|pre|] == pre
    ensures all[|pre|..] == pair + all[|pre| + |pair|..]
  {
    assert all[..|pre|] == (pre + pair)[..|pre|];
    assert all[|pre|..|pre| + |pair|] == pair;
    assert all[|pre|..] == all[|pre|..|pre| + |pair|] + all[|pre| + |pair|..];
  }

  /** `end` is `st` with paired events added, and when it adds any, the
      last save holds the sections of `end`; adding none changes nothing. */
  ghost predicate Grows(st: TickState, end: TickState, quotes: map<string, Quote>, readable: string)
  {
    && |st.events| <= |end.events| && end.events[..|st.events|] == st.events
    && Paired(end.events[|st.events|..], quotes, readable)
    && (|end.events| > |st.events| ==>
          end.ts.JObj? && end.history.JObj?
          && end.events[|end.events| - 2] == Saved(Sections(end.ts.fields, end.history.fields)))
    && (|end.events| == |st.events| ==> end == st)
  }

  /** What the loop adds to the events is paired as above, it only ever
      extends the events, and when it adds any, the last save holds the
      sections the loop ends with. */
  lemma {:induction false} EvaluateEvents(alerts: seq<(string, Alert)>, quotes: map<string, Quote>, st: TickState,
                                          now: real, readable: string, parseLocal: string -> Option<real>)
    ensures Grows(st, Evaluate(alerts, quotes, st, now, readable, parseLocal).0, quotes, readable)
    decreases |alerts|
  {
    if |alerts| > 0 {
      var key, alert := alerts[0].0, alerts[0].1;
      var c := CheckAlert(key, alert, quotes, st.ts, st.history, now, readable, parseLocal);
      if c.Success? && c.value.Fired? {
        var pair := [Saved(Sections(c.value.ts, c.value.history)), Alerted(key, alert, c.value.quote, c.value.reason)];
        var next := TickState(JObj(c.value.ts), JObj(c.value.history), st.events + pair);
        EvaluateFired(alerts, quotes, st, now, readable, parseLocal);
        EvaluateEvents(alerts[1..], quotes, next, now, readable, parseLocal);
        FiredPair(key, alert, quotes, st, now, readable, parseLocal);
        FiredStepEvents(st, c.value.ts, c.value.history, pair, next,
                        Evaluate(alerts[1..], quotes, next, now, readable, parseLocal).0, quotes, readable);
      } else {
        EvaluateNotFired(alerts, quotes, st, now, readable, parseLocal);
        if c.Success? {
          EvaluateEvents(alerts[1..], quotes, st, now, readable, parseLocal);
        } else {
          GrowsNone(st, quotes, readable);
        }
      }
    } else {
      GrowsNone(st, quotes, readable);
    }
  }

  lemma {:induction false} GrowsNone(st: TickState, quotes: map<string, Quote>, readable: string)
    ensures Grows(st, st, quotes, readable)
  {
    assert st.events[|st.events|..] == [];
  }

  /** One trigger followed by what the rest of the loop adds. */
  lemma {:induction false} FiredStepEvents(st: TickState, ts: Document, history: Document, pair: seq<Event>,
                                           next: TickState, end: TickState, quotes: map<string, Quote>, readable: string)
    requires |pair| == 2 && pair[0] == Saved(Sections(ts, history)) && Paired(pair, quotes, readable)
    requires next == TickState(JObj(ts), JObj(history), st.events + pair)
    requires Grows(next, end, quotes, readable)
    ensures Grows(st, end, quotes, readable)
  {
    PairedExtension(st.events, pair, end.events, quotes, readable);
  }

  /** In sections `ts` and `history`, the trigger's key maps to the tick's
      timestamp and the trigger's record is in the key's history. */
  ghost predicate HeldBy(ts: Json, history: Json, e: Event, readable: string)
    requires e.Alerted?
  {
    && ts.JObj? && e.key in ts.fields && ts.fields[e.key] == JStr(readable)
    && history.JObj? && e.key in history.fields && history.fields[e.key].JArr?
    && HistoryRecord(readable, e.alert.name, e.quote.price) in history.fields[e.key].items
  }

  /** The saved sections hold the trigger `e`. */
  ghost predicate Stamped(data: Document, e: Event, readable: string)
    requires e.Alerted?
  {
    TsSection in data && HistorySection in data && HeldBy(data[TsSection], data[HistorySection], e, readable)
  }

  /** Every save holds every trigger from the one it is saved for on back:
      a trigger at position `i` is held by each save at a position `j` with
      `i <= j + 1`, its own save included. */
  ghost predicate Accumulated(events: seq<Event>, readable: string)
  {
    forall i, j :: 0 <= i < |events| && 0 <= j < |events| && i <= j + 1 && events[i].Alerted? && events[j].Saved? ==>
      Stamped(events[j].data, events[i], readable)
  }

  /** A trigger keeps every earlier trigger in the sections and adds its own. */
  lemma {:induction false} FiredKeepsHeld(key: string, alert: Alert, quotes: map<string, Quote>, st: TickState,
                                          now: real, readable: string, parseLocal: string -> Option<real>, e: Event)
    requires CheckAlert(key, alert, quotes, st.ts, st.history, now, readable, parseLocal).Success?
    requires CheckAlert(key, alert, quotes, st.ts, st.history, now, readable, parseLocal).value.Fired?
    requires e.Alerted? && HeldBy(st.ts, st.history, e, readable)
    ensures var c := CheckAlert(key, alert, quotes, st.ts, st.history, now, readable, parseLocal).value;
            HeldBy(JObj(c.ts), JObj(c.history), e, readable)
  {
    var c := CheckAlert(key, alert, quotes, st.ts, st.history, now, readable, parseLocal).value;
    var record := HistoryRecord(readable, alert.name, c.quote.price);
    assert Appended(st.history.fields, key, record) == Success(c.history);
    if e.key == key {
      var old_items := st.history.fields[key].items;
      assert c.history[key].items == old_items + [record];
      assert HistoryRecord(readable, e.alert.name, e.quote.price) in old_items + [record];
    }
  }

  lemma {:induction false} FiredHeld(key: string, alert: Alert, quotes: map<string, Quote>, st: TickState,
                                     now: real, readable: string, parseLocal: string -> Option<real>)
    requires CheckAlert(key, alert, quotes, st.ts, st.history, now, readable, parseLocal).Success?
    requires CheckAlert(key, alert, quotes, st.ts, st.history, now, readable, parseLocal).value.Fired?
    ensures var c := CheckAlert(key, alert, quotes, st.ts, st.history, now, readable, parseLocal).value;
            HeldBy(JObj(c.ts), JObj(c.history), Alerted(key, alert, c.quote, c.reason), readable)
  {
    var c := CheckAlert(key, alert, quotes, st.ts, st.history, now, readable, parseLocal).value;
    var record := HistoryRecord(readable, alert.name, c.quote.price);
    assert Appended(st.history.fields, key, record) == Success(c.history);
    var items := c.history[key].items;
    assert items[|items| - 1] == record;
  }

  /** One trigger: what the events from `b` on held stays held, and the new
      save holds all of them. */
  lemma {:induction false} AccumulatedStep(st: TickState, next: TickState, b: nat, pair: seq<Event>, readable: string)
    requires b <= |st.events|
    requires |pair| == 2 && pair[0].Saved? && pair[1].Alerted?
    requires next.ts.JObj? && next.history.JObj? && pair[0].data == Sections(next.ts.fields, next.history.fields)
    requires next.events == st.events + pair
    requires Accumulated(st.events[b..], readable)
    requires forall i :: b <= i < |next.events| && next.events[i].Alerted? ==> HeldBy(next.ts, next.history, next.events[i], readable)
    ensures Accumulated(next.events[b..], readable)
  {
    var a, a' := st.events[b..], next.events[b..];
    assert a' == a + pair;
    forall i, j | 0 <= i < |a'| && 0 <= j < |a'| && i <= j + 1 && a'[i].Alerted? && a'[j].Saved?
      ensures Stamped(a'[j].data, a'[i], readable)
    {
      if j < |a| {
        assert a'[j] == a[j] && a'[i] == a[i];
      } else {
        assert a'[j] == pair[0];
        assert a'[i] == next.events[b + i];
      }
    }
  }

  lemma {:induction false} EvaluateAccumulates(alerts: seq<(string, Alert)>, quotes: map<string, Quote>, st: TickState,
                                               b: nat, now: real, readable: string, parseLocal: string -> Option<real>)
    requires b <= |st.events|
    requires Accumulated(st.events[b..], readable)
    requires forall i :: b <= i < |st.events| && st.events[i].Alerted? ==> HeldBy(st.ts, st.history, st.events[i], readable)
    ensures var end := Evaluate(alerts, quotes, st, now, readable, parseLocal).0;
            b <= |end.events| && Accumulated(end.events[b..], readable)
    decreases |alerts|
  {
    EvaluateEvents(alerts, quotes, st, now, readable, parseLocal);
    if |alerts| > 0 {
      var key, alert := alerts[0].0, alerts[0].1;
      var c := CheckAlert(key, alert, quotes, st.ts, st.history, now, readable, parseLocal);
      if c.Success? && c.value.Fired? {
        var pair := [Saved(Sections(c.value.ts, c.value.history)), Alerted(key, alert, c.value.quote, c.value.reason)];
        var next := TickState(JObj(c.value.ts), JObj(c.value.history), st.events + pair);
        EvaluateFired(alerts, quotes, st, now, readable, parseLocal);
        forall i | b <= i < |next.events| && next.events[i].Alerted?
          ensures HeldBy(next.ts, next.history, next.events[i], readable)
        {
          if i < |st.events| {
            assert next.events[i] == st.events[i];
            FiredKeepsHeld(key, alert, quotes, st, now, readable, parseLocal, st.events[i]);
          } else {
            assert i == |st.events| + 1 && next.events[i] == pair[1];
            FiredHeld(key, alert, quotes, st, now, readable, parseLocal);
          }
        }
        AccumulatedStep(st, next, b, pair, readable);
        EvaluateAccumulates(alerts[1..], quotes, next, b, now, readable, parseLocal);
      } else {
        EvaluateNotFired(alerts, quotes, st, now, readable, parseLocal);
        if c.Success? {
          EvaluateAccumulates(alerts[1..], quotes, st, b, now, readable, parseLocal);
        }
      }
    }
  }

  /** Every save of a tick holds the timestamp and the history record of
      every trigger of the tick so far, its own and all earlier ones: the
      two sections accumulate across the alerts loop and each save writes
      them whole. */
  lemma {:induction false} SavesAccumulate(alerts: seq<(string, Alert)>, quotes: map<string, Quote>, st: TickState,
                                           now: real, readable: string, parseLocal: string -> Option<real>)
    ensures var end := Evaluate(alerts, quotes, st, now, readable, parseLocal).0;
            |st.events| <= |end.events| && Accumulated(end.events[|st.events|..], readable)
  {
    assert st.events[|st.events|..] == [];
    EvaluateAccumulates(alerts, quotes, st, |st.events|, now, readable, parseLocal);
  }

  /** An alert that does not fire leaves the state as it was; one that
      raises ends the loop there. */
  lemma {:induction false} EvaluateNotFired(alerts: seq<(string, Alert)>, quotes: map<string, Quote>, st: TickState,
                         now: real, readable: string, parseLocal: string -> Option<real>)
    requires |alerts| > 0
    requires !(CheckAlert(alerts[0].0, alerts[0].1, quotes, st.ts, st.history, now, readable, parseLocal).Success? &&
               CheckAlert(alerts[0].0, alerts[0].1, quotes, st.ts, st.history, now, readable, parseLocal).value.Fired?)
    ensures var c := CheckAlert(alerts[0].0, alerts[0].1, quotes, st.ts, st.history, now, readable, parseLocal);
            Evaluate(alerts, quotes, st, now, readable, parseLocal)
            == if c.Success? then Evaluate(alerts[1..], quotes, st, now, readable, parseLocal) else (st, Some(c.error))
  {
  }

  /** One trigger: the loop goes on from the state with both sections
      updated and the save and `on_alert` events added. */
  lemma {:induction false} EvaluateFired(alerts: seq<(string, Alert)>, quotes: map<string, Quote>, st: TickState,
                      now: real, readable: string, parseLocal: string -> Option<real>)
    requires |alerts| > 0
    requires CheckAlert(alerts[0].0, alerts[0].1, quotes, st.ts, st.history, now, readable, parseLocal).Success?
    requires CheckAlert(alerts[0].0, alerts[0].1, quotes, st.ts, st.history, now, readable, parseLocal).value.Fired?
    ensures var c := CheckAlert(alerts[0].0, alerts[0].1, quotes, st.ts, st.history, now, readable, parseLocal).value;
            var next := TickState(JObj(c.ts), JObj(c.history),
                                  st.events + [Saved(Sections(c.ts, c.history)), Alerted(alerts[0].0, alerts[0].1, c.quote, c.reason)]);
            Evaluate(alerts, quotes, st, now, readable, parseLocal) == Evaluate(alerts[1..], quotes, next, now, readable, parseLocal)
  {
  }

  /** An alert whose symbol has no quote changes nothing and adds no event. */
  lemma {:induction false} SkipsUnquoted(alerts: seq<(string, Alert)>, quotes: map<string, Quote>, st: TickState,
                      now: real, readable: string, parseLocal: string -> Option<real>)
    requires |alerts| > 0 && alerts[0].1.symbol !in quotes
    ensures Evaluate(alerts, quotes, st, now, readable, parseLocal)
            == Evaluate(alerts[1..], quotes, st, now, readable, parseLocal)
  {
  }

  /** Trigger times of keys the loop never reaches are left as they were. */
  lemma {:induction false} OtherKeysKept(alerts: seq<(string, Alert)>, quotes: map<string, Quote>, st: TickState,
                                         now: real, readable: string, parseLocal: string -> Option<real>, k: string)
    requires st.ts.JObj? && st.history.JObj? && k in st.ts.fields
    requires forall i :: 0 <= i < |alerts| ==> alerts[i].0 != k
    ensures var (end, _) := Evaluate(alerts, quotes, st, now, readable, parseLocal);
            end.ts.JObj? && end.history.JObj? && k in end.ts.fields && end.ts.fields[k] == st.ts.fields[k]
            && (k in st.history.fields ==> k in end.history.fields && end.history.fields[k] == st.history.fields[k])
    decreases |alerts|
  {
    if |alerts| > 0 {
      var c := CheckAlert(alerts[0].0, alerts[0].1, quotes, st.ts, st.history, now, readable, parseLocal);
      if c.Success? && c.value.Fired? {
        var next := TickState(JObj(c.value.ts), JObj(c.value.history),
                              st.events + [Saved(Sections(c.value.ts, c.value.history)),
                                           Alerted(alerts[0].0, alerts[0].1, c.value.quote, c.value.reason)]);
        OtherKeysKept(alerts[1..], quotes, next, now, readable, parseLocal, k);
      } else if c.Success? {
        OtherKeysKept(alerts[1..], quotes, st, now, readable, parseLocal, k);
      }
    }
  }

  /** The cache document `run_check` starts from: `{}` without an active
      file; an active file that is not valid JSON makes the unguarded
      `json.load` raise, and one that holds something other than an object
      has no `get`. */
  function Loaded(fileName: string, files: map<string, File>): (r: Result<Document, Fault>)
    ensures fileName !in files ==> r == Success(map[])
    ensures fileName in files && files[fileName].content.Unparsable? ==> r == Failure(JsonDecodeError)
    ensures r.Failure? <==> fileName in files && !(files[fileName].content.Parsed? && files[fileName].content.value.JObj?)
    ensures r.Success? ==> CacheStore.Existing(fileName, files) == r
  {
    if fileName !in files then Success(map[])
    else match files[fileName].content
      case Unparsable => Failure(JsonDecodeError)
      case Parsed(JObj(fields)) => Success(fields)
      case Parsed(_) => Failure(AttributeError)
  }

  /** The quotes of a tick: the provider's answer for every symbol it answers for. */
  function Fetched(provider: string -> Option<Quote>, symbols: seq<string>): map<string, Quote>
  {
    map s | s in symbols && provider(s).Some? :: provider(s).value
  }

  /** The fetch loop over `sorted(symbols)`: a symbol whose fetch fails is
      left out and the loop goes on with the next one. */
  method FetchQuotes(provider: string -> Option<Quote>, symbols: seq<string>) returns (quotes: map<string, Quote>)
    ensures quotes.Keys == set s | s in symbols && provider(s).Some?
    ensures forall s :: s in quotes ==> quotes[s] == provider(s).value
    ensures quotes == Fetched(provider, symbols)
  {
    var order := SortDistinct(symbols);
    quotes := map[];
    for i := 0 to |order|
      invariant quotes.Keys == set s | s in order[..i] && provider(s).Some?
      invariant forall s :: s in quotes ==> quotes[s] == provider(s).value
    {
      var q := provider(order[i]);
      assert order[..i + 1] == order[..i] + [order[i]];
      if q.Some? {
        quotes := quotes[order[i] := q.value];
      }
    }
    assert order[..|order|] == order;
    assert forall s :: s in order <==> s in symbols by {
      forall s ensures s in order <==> s in symbols {
        assert s in order <==> s in Elems(order);
        assert s in symbols <==> s in Elems(symbols);
      }
    }
  }

  /** Every key of `data` has the same value in the document the active file holds. */
  ghost predicate Persisted(fileName: string, files: map<string, File>, data: Document)
  {
    var active := CacheStore.Existing(fileName, files);
    active.Success? && forall k :: k in data ==> k in active.value && active.value[k] == data[k]
  }

  /** `save_to_cache(data)` on a readable active file: those sections are
      then stored in it, merged into what it held, so every other top-level
      key keeps its value. */
  method SaveSections(cache: CacheStore.CacheDir, data: Document, now: real)
    modifies cache
    requires CacheStore.Existing(cache.fileName, cache.files).Success?
    ensures Persisted(cache.fileName, cache.files, data)
    ensures CacheStore.Existing(cache.fileName, cache.files)
            == Success(Merge(CacheStore.Existing(cache.fileName, old(cache.files)).value, data))
  {
    var fault := cache.Save(data, now);
  }

  /** One pass of `run_check`'s alerts loop, for `alerts[i]`: the loop goes on
      from the state it leaves or stops with its error; a trigger saves both
      sections to the active cache file and records the save and `on_alert`. */
  method CheckOne(alerts: seq<(string, Alert)>, i: nat, quotes: map<string, Quote>, cache: CacheStore.CacheDir,
                  ts: Json, history: Json, events: seq<Event>, now: real, readable: string,
                  parseLocal: string -> Option<real>)
    returns (ts': Json, history': Json, events': seq<Event>, stop: Option<Fault>)
    modifies cache
    requires i < |alerts|
    requires CacheStore.Existing(cache.fileName, cache.files).Success?
    ensures CacheStore.Existing(cache.fileName, cache.files).Success?
    ensures var st := TickState(ts, history, events);
            stop.Some? ==> events' == events && Evaluate(alerts[i..], quotes, st, now, readable, parseLocal) == (st, stop)
    ensures stop.None? ==>
              Evaluate(alerts[i..], quotes, TickState(ts, history, events), now, readable, parseLocal)
              == Evaluate(alerts[i + 1..], quotes, TickState(ts', history', events'), now, readable, parseLocal)
    ensures events' == events ==> cache.files == old(cache.files)
    ensures events' != events ==>
              |events'| == |events| + 2 && events'[|events'| - 2].Saved?
              && Persisted(cache.fileName, cache.files, events'[|events'| - 2].data)
              && events'[|events'| - 2].data.Keys == {TsSection, HistorySection}
              && CacheStore.Existing(cache.fileName, cache.files)
                 == Success(Merge(CacheStore.Existing(cache.fileName, old(cache.files)).value, events'[|events'| - 2].data))
  {
    var key, alert := alerts[i].0, alerts[i].1;
    assert alerts[i..][0] == alerts[i] && alerts[i..][1..] == alerts[i + 1..];
    var step := CheckAlert(key, alert, quotes, ts, history, now, readable, parseLocal);
    ghost var st := TickState(ts, history, events);
    ts', history', events', stop := ts, history, events, None;
    if step.Failure? {
      EvaluateNotFired(alerts[i..], quotes, st, now, readable, parseLocal);
      stop := Some(step.error);
    } else if step.value.Fired? {
      EvaluateFired(alerts[i..], quotes, st, now, readable, parseLocal);
      var data := Sections(step.value.ts, step.value.history);
      ts', history' := JObj(step.value.ts), JObj(step.value.history);
      SaveSections(cache, data, now);
      events' := events + [Saved(data), Alerted(key, alert, step.value.quote, step.value.reason)];
    } else {
      EvaluateNotFired(alerts[i..], quotes, st, now, readable, parseLocal);
    }
  }

  /** What a tick leaves in the directory: nothing changes without a
      trigger; after one, the active document is the one the tick started
      from with the last save's sections merged in. */
  ghost predicate TickLeaves(fileName: string, files: map<string, File>, files': map<string, File>, events: seq<Event>)
  {
    && (|events| <= 1 ==> files' == files)
    && (|events| > 1 ==>
          && events[|events| - 2].Saved? && CacheStore.Existing(fileName, files).Success?
          && CacheStore.Existing(fileName, files')
             == Success(Merge(CacheStore.Existing(fileName, files).value, events[|events| - 2].data)))
  }

  /** The events and the error of `run_check` on the directory `files`: an
      active file that does not load stops it before `on_tick`; otherwise
      the tick reports the fetched quotes and runs the alerts loop over the
      loaded sections. */
  function Tick(provider: string -> Option<Quote>, symbols: seq<string>, alerts: seq<(string, Alert)>,
                fileName: string, files: map<string, File>, now: real, readable: string,
                parseLocal: string -> Option<real>): (r: (seq<Event>, Option<Fault>))
    ensures r.0 == [] <==> Loaded(fileName, files).Failure?
    ensures r.0 == [] ==> r.1 == Some(Loaded(fileName, files).error)
    ensures r.0 != [] ==> r.0[0] == Ticked(Fetched(provider, symbols))
  {
    match Loaded(fileName, files)
    case Failure(f) => ([], Some(f))
    case Success(doc) =>
      var quotes := Fetched(provider, symbols);
      var start := TickState(Get(doc, TsSection, JObj(map[])), Get(doc, HistorySection, JObj(map[])), [Ticked(quotes)]);
      EvaluateEvents(alerts, quotes, start, now, readable, parseLocal);
      var end := Evaluate(alerts, quotes, start, now, readable, parseLocal);
      assert end.0.events[..1] == [Ticked(quotes)];
      (end.0.events, end.1)
  }

  /** `run_check` at time `now`, formatted as `readable`: the events it
      produces and the error that stops it, if any, are those of the
      alerts loop over the fetched quotes and the loaded sections; after the
      last trigger the active cache file holds both sections as they ended. */
  method RunCheck(provider: string -> Option<Quote>, symbols: seq<string>, alerts: seq<(string, Alert)>,
                  cache: CacheStore.CacheDir, now: real, readable: string, parseLocal: string -> Option<real>)
    returns (events: seq<Event>, fault: Option<Fault>)
    modifies cache
    ensures Loaded(cache.fileName, old(cache.files)).Failure? ==>
              events == [] && fault == Some(Loaded(cache.fileName, old(cache.files)).error)
              && cache.files == old(cache.files)
    ensures Loaded(cache.fileName, old(cache.files)).Success? ==>
              var doc := Loaded(cache.fileName, old(cache.files)).value;
              var quotes := Fetched(provider, symbols);
              var start := TickState(Get(doc, TsSection, JObj(map[])), Get(doc, HistorySection, JObj(map[])), [Ticked(quotes)]);
              var (end, f) := Evaluate(alerts, quotes, start, now, readable, parseLocal);
              events == end.events && fault == f
    ensures |events| <= 1 ==> cache.files == old(cache.files)
    ensures |events| > 1 ==> events[|events| - 2].Saved? && Persisted(cache.fileName, cache.files, events[|events| - 2].data)
    ensures (events, fault) == Tick(provider, symbols, alerts, cache.fileName, old(cache.files), now, readable, parseLocal)
    ensures TickLeaves(cache.fileName, old(cache.files), cache.files, events)
    ensures Loaded(cache.fileName, old(cache.files)).Success? ==>
              var before := Loaded(cache.fileName, old(cache.files)).value;
              && CacheStore.Existing(cache.fileName, cache.files).Success?
              && forall k :: k in before && k != TsSection && k != HistorySection ==>
                   k in CacheStore.Existing(cache.fileName, cache.files).value
                   && CacheStore.Existing(cache.fileName, cache.files).value[k] == before[k]
  {
    var loaded := Loaded(cache.fileName, cache.files);
    if loaded.Failure? {
      return [], Some(loaded.error);
    }
    var ts := Get(loaded.value, TsSection, JObj(map[]));
    var history := Get(loaded.value, HistorySection, JObj(map[]));
    var quotes := FetchQuotes(provider, symbols);
    events := [Ticked(quotes)];
    ghost var start := TickState(ts, history, events);
    ghost var doc := loaded.value;
    for i := 0 to |alerts|
      invariant Evaluate(alerts[i..], quotes, TickState(ts, history, events), now, readable, parseLocal)
                == Evaluate(alerts, quotes, start, now, readable, parseLocal)
      invariant CacheStore.Existing(cache.fileName, cache.files).Success?
      invariant |events| >= 1
      invariant |events| == 1 ==> cache.files == old(cache.files)
      invariant |events| > 1 ==> events[|events| - 2].Saved? && Persisted(cache.fileName, cache.files, events[|events| - 2].data)
      invariant |events| > 1 ==>
                  && events[|events| - 2].data.Keys == {TsSection, HistorySection}
                  && CacheStore.Existing(cache.fileName, cache.files) == Success(Merge(doc, events[|events| - 2].data))
    {
      var ts', history', events', stop := CheckOne(alerts, i, quotes, cache, ts, history, events, now, readable, parseLocal);
      if stop.Some? {
        return events, stop;
      }
      if events' != events && |events| > 1 {
        MergeAbsorbs(doc, events[|events| - 2].data, events'[|events'| - 2].data);
      }
      ts, history, events := ts', history', events';
    }
    assert alerts[|alerts|..] == [];
    fault := None;
  }

  /** What `run_loop` does, in order: a tick and the events it produced, or
      a sleep of so many seconds. */
  datatype LoopStep = Checked(events: seq<Event>) | Slept(seconds: int)

  /** Ticks at the even positions, sleeps of `pause` seconds at the odd ones. */
  ghost predicate Alternating(trace: seq<LoopStep>, pause: int)
  {
    && (forall j :: 0 <= j && 2 * j < |trace| ==> trace[2 * j].Checked?)
    && (forall j :: 0 <= j && 2 * j + 1 < |trace| ==> trace[2 * j + 1] == Slept(pause))
  }

  lemma {:induction false} AlternatingTick(trace: seq<LoopStep>, pause: int, events: seq<Event>, n: nat)
    requires Alternating(trace, pause) && |trace| == 2 * n
    ensures Alternating(trace + [Checked(events)], pause)
  {
    var t := trace + [Checked(events)];
    forall j | 0 <= j && 2 * j < |t| ensures t[2 * j].Checked? {
      if 2 * j < |trace| { assert t[2 * j] == trace[2 * j]; }
    }
    forall j | 0 <= j && 2 * j + 1 < |t| ensures t[2 * j + 1] == Slept(pause) {
      assert t[2 * j + 1] == trace[2 * j + 1];
    }
  }

  lemma {:induction false} AlternatingSleep(trace: seq<LoopStep>, pause: int, n: nat)
    requires Alternating(trace, pause) && |trace| == 2 * n + 1
    ensures Alternating(trace + [Slept(pause)], pause)
  {
    var t := trace + [Slept(pause)];
    forall j | 0 <= j && 2 * j < |t| ensures t[2 * j].Checked? {
      assert t[2 * j] == trace[2 * j];
    }
    forall j | 0 <= j && 2 * j + 1 < |t| ensures t[2 * j + 1] == Slept(pause) {
      if 2 * j + 1 < |trace| { assert t[2 * j + 1] == trace[2 * j + 1]; }
    }
  }

  /** A run of odd length ends with a tick: `run_loop` never sleeps after
      its last tick. */
  lemma {:induction false} AlternatingLast(trace: seq<LoopStep>, pause: int)
    requires Alternating(trace, pause) && |trace| % 2 == 1
    ensures trace[|trace| - 1].Checked?
  {
    var j := (|trace| - 1) / 2;
    assert 2 * j == |trace| - 1;
    assert trace[2 * j].Checked?;
  }

  /** The sleep `run_loop` takes between two ticks. */
  function Pause(seconds: int): (r: int)
    ensures r >= 1 && r >= seconds && (r == seconds || r == 1)
  {
    if seconds > 1 then seconds else 1
  }

  /** Tick `j` of a run: it starts from the directory `before[j]` at
      `clock(j)`, appears in the trace as the events `run_check` produces
      there, leaves the directory `before[j + 1]`, and raises nothing unless
      it is the last step of the trace. */
  ghost predicate TickRan(provider: string -> Option<Quote>, symbols: seq<string>, alerts: seq<(string, Alert)>,
                          fileName: string, clock: nat -> real, format: real -> string, parseLocal: string -> Option<real>,
                          trace: seq<LoopStep>, before: seq<map<string, File>>, j: nat)
  {
    && j + 1 < |before| && 2 * j < |trace|
    && var outcome := Tick(provider, symbols, alerts, fileName, before[j], clock(j), format(clock(j)), parseLocal);
       && trace[2 * j] == Checked(outcome.0)
       && TickLeaves(fileName, before[j], before[j + 1], outcome.0)
       && (2 * j + 1 < |trace| ==> outcome.1 == None)
  }

  /** The first `|before| - 1` ticks of a run, with the sleeps between them. */
  ghost predicate Ran(provider: string -> Option<Quote>, symbols: seq<string>, alerts: seq<(string, Alert)>,
                      fileName: string, clock: nat -> real, format: real -> string, parseLocal: string -> Option<real>,
                      trace: seq<LoopStep>, before: seq<map<string, File>>)
  {
    && |before| == (|trace| + 1) / 2 + 1
    && forall j: nat :: j < |before| - 1 ==> TickRan(provider, symbols, alerts, fileName, clock, format, parseLocal, trace, before, j)
  }

  /** `run_loop(..., interval_str, iterations)` with a finite iteration count:
      `clock(i)` is the time of tick `i` and `format` its local-time text.
      An interval text `seconds_from_interval` cannot read stops it before the
      first tick; otherwise it runs `max(iterations, 0)` ticks with a sleep of
      `max(1, interval)` seconds between each two and none after the last,
      unless a tick raises, which ends it.  `before` lists the directory
      before each tick and, last, after the run. */
  method RunLoop(provider: string -> Option<Quote>, symbols: seq<string>, alerts: seq<(string, Alert)>,
                 cache: CacheStore.CacheDir, intervalText: string, iterations: int,
                 clock: nat -> real, format: real -> string, parseLocal: string -> Option<real>)
    returns (trace: seq<LoopStep>, fault: Option<Fault>, ghost before: seq<map<string, File>>)
    modifies cache
    ensures Utils.SecondsFromInterval(intervalText).Failure? ==>
              && trace == [] && fault == Some(ValueError)
              && before == [old(cache.files)] && cache.files == old(cache.files)
    ensures Utils.SecondsFromInterval(intervalText).Success? ==>
              Looped(provider, symbols, alerts, cache.fileName, clock, format, parseLocal,
                     Pause(Utils.SecondsFromInterval(intervalText).value), iterations,
                     trace, fault, before, old(cache.files), cache.files)
  {
    var secs := Utils.SecondsFromInterval(intervalText);
    if secs.Failure? {
      return [], Some(secs.error), [cache.files];
    }
    trace, fault, before := RunTicks(provider, symbols, alerts, cache, Pause(secs.value), iterations, clock, format, parseLocal);
  }

  /** The run `run_loop` makes once its interval is read, from directory
      `start` to directory `end`: `max(iterations, 0)` ticks with a sleep of
      `pause` seconds between each two and none after the last, unless a
      tick raises, which ends the run with that tick's fault; tick `j` is
      `run_check` at `clock(j)` on the directory the run has reached. */
  ghost predicate Looped(provider: string -> Option<Quote>, symbols: seq<string>, alerts: seq<(string, Alert)>,
                         fileName: string, clock: nat -> real, format: real -> string, parseLocal: string -> Option<real>,
                         pause: int, iterations: int, trace: seq<LoopStep>, fault: Option<Fault>,
                         before: seq<map<string, File>>, start: map<string, File>, end: map<string, File>)
  {
    && (fault.None? ==> |trace| == (if iterations <= 0 then 0 else 2 * iterations - 1))
    && (fault.Some? ==> |trace| <= (if iterations <= 0 then 0 else 2 * iterations - 1))
    && Alternating(trace, pause)
    && (|trace| % 2 == 1 || trace == [])
    && Ran(provider, symbols, alerts, fileName, clock, format, parseLocal, trace, before)
    && before[0] == start && before[|before| - 1] == end
    && fault == if |before| == 1 then None
                else Tick(provider, symbols, alerts, fileName, before[|before| - 2], clock(|before| - 2),
                          format(clock(|before| - 2)), parseLocal).1
  }

  /** The ticks of `run_loop` once its interval is read: `max(iterations, 0)`
      ticks with a sleep of `pause` seconds between each two and none after
      the last, unless a tick raises, which ends it. */
  method RunTicks(provider: string -> Option<Quote>, symbols: seq<string>, alerts: seq<(string, Alert)>,
                  cache: CacheStore.CacheDir, pause: int, iterations: int,
                  clock: nat -> real, format: real -> string, parseLocal: string -> Option<real>)
    returns (trace: seq<LoopStep>, fault: Option<Fault>, ghost before: seq<map<string, File>>)
    modifies cache
    ensures Looped(provider, symbols, alerts, cache.fileName, clock, format, parseLocal, pause, iterations,
                   trace, fault, before, old(cache.files), cache.files)
  {
    before := [cache.files];
    var i := 0;
    trace := [];
    while i < iterations
      invariant 0 <= i && (i > 0 ==> i < iterations)
      invariant |trace| == 2 * i
      invariant Alternating(trace, pause)
      invariant |before| == i + 1 && before[0] == old(cache.files) && before[i] == cache.files
      invariant Ran(provider, symbols, alerts, cache.fileName, clock, format, parseLocal, trace, before)
      decreases iterations - i
    {
      var events, f := TickAt(provider, symbols, alerts, cache, clock, format, parseLocal, trace, before, i);
      AlternatingTick(trace, pause, events, i);
      trace := trace + [Checked(events)];
      ghost var last := before[i];
      before := before + [cache.files];
      assert before[|before| - 2] == last;
      LoopedStop(provider, symbols, alerts, cache.fileName, clock, format, parseLocal, pause, iterations,
                 trace, f, before, old(cache.files), cache.files, i);
      if f.Some? {
        return trace, f, before;
      }
      i := i + 1;
      if i >= iterations {
        break;
      }
      AlternatingSleep(trace, pause, i - 1);
      RanSleep(provider, symbols, alerts, cache.fileName, clock, format, parseLocal, trace, before, f, pause, i - 1);
      trace := trace + [Slept(pause)];
    }
    fault := None;
  }

  /** A run whose tick `n` raises, or whose tick `n` is its last, is complete. */
  lemma LoopedStop(provider: string -> Option<Quote>, symbols: seq<string>, alerts: seq<(string, Alert)>,
                   fileName: string, clock: nat -> real, format: real -> string, parseLocal: string -> Option<real>,
                   pause: int, iterations: int, trace: seq<LoopStep>, fault: Option<Fault>,
                   before: seq<map<string, File>>, start: map<string, File>, end: map<string, File>, n: nat)
    requires n < iterations && |trace| == 2 * n + 1 && |before| == n + 2
    requires Alternating(trace, pause) && Ran(provider, symbols, alerts, fileName, clock, format, parseLocal, trace, before)
    requires before[0] == start && before[n + 1] == end
    requires fault == Tick(provider, symbols, alerts, fileName, before[n], clock(n), format(clock(n)), parseLocal).1
    ensures fault.Some? || n + 1 == iterations ==>
              Looped(provider, symbols, alerts, fileName, clock, format, parseLocal, pause, iterations,
                     trace, fault, before, start, end)
  {
  }

  /** Tick `i` of `run_loop`: `run_check` at `clock(i)`, which extends the
      run so far by its events and the directory it leaves. */
  method TickAt(provider: string -> Option<Quote>, symbols: seq<string>, alerts: seq<(string, Alert)>,
                cache: CacheStore.CacheDir, clock: nat -> real, format: real -> string,
                parseLocal: string -> Option<real>, ghost trace: seq<LoopStep>, ghost before: seq<map<string, File>>,
                i: nat)
    returns (events: seq<Event>, fault: Option<Fault>)
    modifies cache
    requires |trace| == 2 * i && |before| == i + 1 && before[i] == cache.files
    requires Ran(provider, symbols, alerts, cache.fileName, clock, format, parseLocal, trace, before)
    ensures Ran(provider, symbols, alerts, cache.fileName, clock, format, parseLocal, trace + [Checked(events)], before + [cache.files])
    ensures fault == Tick(provider, symbols, alerts, cache.fileName, before[i], clock(i), format(clock(i)), parseLocal).1
  {
    events, fault := RunCheck(provider, symbols, alerts, cache, clock(i), format(clock(i)), parseLocal);
    RanTick(provider, symbols, alerts, cache.fileName, clock, format, parseLocal, trace, before, events, fault, cache.files, i);
  }

  /** A tick extends a run that ends in a sleep, or is empty. */
  lemma RanTick(provider: string -> Option<Quote>, symbols: seq<string>, alerts: seq<(string, Alert)>,
                fileName: string, clock: nat -> real, format: real -> string,
                parseLocal: string -> Option<real>, trace: seq<LoopStep>, before: seq<map<string, File>>,
                events: seq<Event>, fault: Option<Fault>, after: map<string, File>, n: nat)
    requires |trace| == 2 * n && |before| == n + 1
    requires Ran(provider, symbols, alerts, fileName, clock, format, parseLocal, trace, before)
    requires (events, fault) == Tick(provider, symbols, alerts, fileName, before[n], clock(n), format(clock(n)), parseLocal)
    requires TickLeaves(fileName, before[n], after, events)
    ensures Ran(provider, symbols, alerts, fileName, clock, format, parseLocal, trace + [Checked(events)], before + [after])
  {
    var t, b := trace + [Checked(events)], before + [after];
    forall j: nat | j < |b| - 1
      ensures TickRan(provider, symbols, alerts, fileName, clock, format, parseLocal, t, b, j)
    {
      assert b[j] == before[j];
      if j < n {
        assert TickRan(provider, symbols, alerts, fileName, clock, format, parseLocal, trace, before, j);
        assert t[2 * j] == trace[2 * j] && b[j + 1] == before[j + 1];
      }
    }
  }

  /** A sleep after a tick that raised nothing extends the run. */
  lemma RanSleep(provider: string -> Option<Quote>, symbols: seq<string>, alerts: seq<(string, Alert)>,
                 fileName: string, clock: nat -> real, format: real -> string,
                 parseLocal: string -> Option<real>, trace: seq<LoopStep>,
                 before: seq<map<string, File>>, fault: Option<Fault>, pause: int, n: nat)
    requires |trace| == 2 * n + 1 && |before| == n + 2
    requires Ran(provider, symbols, alerts, fileName, clock, format, parseLocal, trace, before)
    requires fault == Tick(provider, symbols, alerts, fileName, before[n], clock(n), format(clock(n)), parseLocal).1
    requires fault == None
    ensures Ran(provider, symbols, alerts, fileName, clock, format, parseLocal, trace + [Slept(pause)], before)
  {
    var t := trace + [Slept(pause)];
    forall j: nat | j < |before| - 1
      ensures TickRan(provider, symbols, alerts, fileName, clock, format, parseLocal, t, before, j)
    {
      assert TickRan(provider, symbols, alerts, fileName, clock, format, parseLocal, trace, before, j);
      assert t[2 * j] == trace[2 * j];
    }
  }
}
