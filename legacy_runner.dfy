/** One tick and the run loop of `stock_alert/engine/runner.py`, the older
    runner: it keeps only an epoch trigger time per alert, passes no history
    record to `should_trigger`, and saves through the older, non-merging cache
    store. */
module LegacyRunner {
  import opened Base
  import opened Json
  import opened Alerts
  import LegacyCache
  import Utils
  import Runner

  /** The one cache section this runner reads and writes. */
  const TsSection := "last_alert_trigger_ts"

  /** What one pass of the alerts loop does with one alert. */
  datatype Step = Skipped | Held(reason: Reason) | Fired(ts: map<string, Json>, quote: Quote, reason: Reason)

  /** One pass for `(name, alert)`: the trigger time becomes the numeric `now`. */
  function CheckAlert(name: string, alert: Alert, quotes: map<string, Quote>, ts: Json, now: real,
                      parseLocal: string -> Option<real>): (r: Result<Step, Fault>)
    ensures alert.symbol !in quotes ==> r == Success(Skipped)
    ensures r.Success? && r.value.Fired? ==>
              && alert.symbol in quotes && r.value.quote == quotes[alert.symbol]
              && ts.JObj? && r.value.ts == ts.fields[name := JNum(now)]
  {
    if alert.symbol !in quotes then Success(Skipped)
    else
      var q := quotes[alert.symbol];
      match Runner.LastTs(ts, name)
      case Failure(f) => Failure(f)
      case Success(lastTs) =>
        match ShouldTrigger(alert, q, now, lastTs, None, parseLocal)
        case Failure(f) => Failure(f)
        case Success(d) =>
          if d.fire then Success(Fired(ts.fields[name := JNum(now)], q, d.reason)) else Success(Held(d.reason))
  }

  /** The alert fires exactly when `should_trigger` without a history record
      says so for the alert's stored trigger time. */
  lemma {:induction false} FiresIff(name: string, alert: Alert, quotes: map<string, Quote>, ts: Json, now: real,
                 parseLocal: string -> Option<real>)
    ensures var r := CheckAlert(name, alert, quotes, ts, now, parseLocal);
            r.Success? && r.value.Fired? <==>
              && alert.symbol in quotes && Runner.LastTs(ts, name).Success?
              && ShouldTrigger(alert, quotes[alert.symbol], now, Runner.LastTs(ts, name).value, None, parseLocal).Success?
              && ShouldTrigger(alert, quotes[alert.symbol], now, Runner.LastTs(ts, name).value, None, parseLocal).value.fire
  {
  }

  /** The section and the events of a tick so far. */
  datatype TickState = TickState(ts: Json, events: seq<Runner.Event>)

  /** The alerts loop from state `st` on; each trigger saves the whole
      trigger-time map, and nothing else, before its `on_alert`. */
  function Evaluate(alerts: seq<(string, Alert)>, quotes: map<string, Quote>, st: TickState, now: real,
                    parseLocal: string -> Option<real>): (TickState, Option<Fault>)
    decreases |alerts|
  {
    if |alerts| == 0 then (st, None)
    else
      match CheckAlert(alerts[0].0, alerts[0].1, quotes, st.ts, now, parseLocal)
      case Failure(f) => (st, Some(f))
      case Success(Fired(ts, q, reason)) =>
        var next := TickState(JObj(ts), st.events + [Runner.Saved(map[TsSection := JObj(ts)]),
                                                     Runner.Alerted(alerts[0].0, alerts[0].1, q, reason)]);
        Evaluate(alerts[1..], quotes, next, now, parseLocal)
      case Success(_) => Evaluate(alerts[1..], quotes, st, now, parseLocal)
  }

  /** Saves and `on_alert` calls alternate; each save holds only the
      trigger-time map, with the trigger's name at the tick's `now`, and each
      trigger is for a fetched symbol with its quote. */
  ghost predicate Paired(events: seq<Runner.Event>, quotes: map<string, Quote>, now: real)
  {
    && |events| % 2 == 0
    && forall j :: 0 <= j < |events| / 2 ==>
         && events[2 * j].Saved? && events[2 * j + 1].Alerted?
         && events[2 * j + 1].alert.symbol in quotes
         && events[2 * j + 1].quote == quotes[events[2 * j + 1].alert.symbol]
         && events[2 * j].data.Keys == {TsSection} && events[2 * j].data[TsSection].JObj?
         && events[2 * j + 1].key in events[2 * j].data[TsSection].fields
         && events[2 * j].data[TsSection].fields[events[2 * j + 1].key] == JNum(now)
  }

  lemma {:induction false} PairedAppend(events: seq<Runner.Event>, more: seq<Runner.Event>, quotes: map<string, Quote>, now: real)
    requires Paired(events, quotes, now) && Paired(more, quotes, now)
    ensures Paired(events + more, quotes, now)
  {
    var all := events + more;
    forall j | 0 <= j < |all| / 2
      ensures all[2 * j].Saved? && all[2 * j + 1].Alerted? && all[2 * j + 1].alert.symbol in quotes
      ensures all[2 * j + 1].quote == quotes[all[2 * j + 1].alert.symbol]
      ensures all[2 * j].data.Keys == {TsSection} && all[2 * j].data[TsSection].JObj?
      ensures all[2 * j + 1].key in all[2 * j].data[TsSection].fields
      ensures all[2 * j].data[TsSection].fields[all[2 * j + 1].key] == JNum(now)
    {
      if j >= |events| / 2 {
        var k := j - |events| / 2;
        assert all[2 * j] == more[2 * k] && all[2 * j + 1] == more[2 * k + 1];
      } else {
        assert all[2 * j] == events[2 * j] && all[2 * j + 1] == events[2 * j + 1];
      }
    }
  }

  /** The two events of one trigger are paired. */
  lemma {:induction false} FiredPair(name: string, alert: Alert, quotes: map<string, Quote>, st: TickState,
                  now: real, parseLocal: string -> Option<real>)
    requires CheckAlert(name, alert, quotes, st.ts, now, parseLocal).Success?
    requires CheckAlert(name, alert, quotes, st.ts, now, parseLocal).value.Fired?
    ensures var c := CheckAlert(name, alert, quotes, st.ts, now, parseLocal).value;
            Paired([Runner.Saved(map[TsSection := JObj(c.ts)]), Runner.Alerted(name, alert, c.quote, c.reason)], quotes, now)
  {
  }

  /** One trigger: the loop goes on with the trigger time updated and the
      save and `on_alert` events added. */
  lemma {:induction false} EvaluateFired(alerts: seq<(string, Alert)>, quotes: map<string, Quote>, st: TickState,
                      now: real, parseLocal: string -> Option<real>)
    requires |alerts| > 0
    requires CheckAlert(alerts[0].0, alerts[0].1, quotes, st.ts, now, parseLocal).Success?
    requires CheckAlert(alerts[0].0, alerts[0].1, quotes, st.ts, now, parseLocal).value.Fired?
    ensures var c := CheckAlert(alerts[0].0, alerts[0].1, quotes, st.ts, now, parseLocal).value;
            var next := TickState(JObj(c.ts), st.events + [Runner.Saved(map[TsSection := JObj(c.ts)]),
                                                           Runner.Alerted(alerts[0].0, alerts[0].1, c.quote, c.reason)]);
            Evaluate(alerts, quotes, st, now, parseLocal) == Evaluate(alerts[1..], quotes, next, now, parseLocal)
  {
  }

  /** Events that extend `pre + pair` by paired events extend `pre` by paired events. */
  lemma {:induction false} PairedExtension(pre: seq<Runner.Event>, pair: seq<Runner.Event>, all: seq<Runner.Event>,
                        quotes: map<string, Quote>, now: real)
    requires |pre| + |pair| <= |all| && all[..|pre| + |pair|] == pre + pair
    requires Paired(pair, quotes, now) && Paired(all[|pre| + |pair|..], quotes, now)
    ensures all[..|pre|] == pre && Paired(all[|pre|..], quotes, now)
  {
    Runner.PrefixThenPair(pre, pair, all);
    PairedAppend(pair, all[|pre| + |pair|..], quotes, now);
  }

  /** The loop only extends the events, in pairs as above, and when it adds
      any, the last save holds the trigger-time map the loop ends with. */
  lemma {:induction false} EvaluateEvents(alerts: seq<(string, Alert)>, quotes: map<string, Quote>, st: TickState,
                                          now: real, parseLocal: string -> Option<real>)
    ensures var (end, _) := Evaluate(alerts, quotes, st, now, parseLocal);
            && |st.events| <= |end.events| && end.events[..|st.events|] == st.events
            && Paired(end.events[|st.events|..], quotes, now)
            && (|end.events| > |st.events| ==>
                  end.ts.JObj? && end.events[|end.events| - 2] == Runner.Saved(map[TsSection := end.ts]))
            && (|end.events| == |st.events| ==> end == st)
    decreases |alerts|
  {
    if |alerts| > 0 {
      var name, alert := alerts[0].0, alerts[0].1;
      var c := CheckAlert(name, alert, quotes, st.ts, now, parseLocal);
      if c.Success? && c.value.Fired? {
        var pair := [Runner.Saved(map[TsSection := JObj(c.value.ts)]), Runner.Alerted(name, alert, c.value.quote, c.value.reason)];
        var next := TickState(JObj(c.value.ts), st.events + pair);
        EvaluateFired(alerts, quotes, st, now, parseLocal);
        EvaluateEvents(alerts[1..], quotes, next, now, parseLocal);
        var end := Evaluate(alerts[1..], quotes, next, now, parseLocal).0;
        FiredPair(name, alert, quotes, st, now, parseLocal);
        PairedExtension(st.events, pair, end.events, quotes, now);
      } else {
        EvaluateNotFired(alerts, quotes, st, now, parseLocal);
        if c.Success? {
          EvaluateEvents(alerts[1..], quotes, st, now, parseLocal);
        } else {
          assert st.events[|st.events|..] == [];
        }
      }
    } else {
      assert st.events[|st.events|..] == [];
    }
  }

  /** An alert that does not fire leaves the state as it was; one that
      raises ends the loop there. */
  lemma {:induction false} EvaluateNotFired(alerts: seq<(string, Alert)>, quotes: map<string, Quote>, st: TickState,
                         now: real, parseLocal: string -> Option<real>)
    requires |alerts| > 0
    requires !(CheckAlert(alerts[0].0, alerts[0].1, quotes, st.ts, now, parseLocal).Success? &&
               CheckAlert(alerts[0].0, alerts[0].1, quotes, st.ts, now, parseLocal).value.Fired?)
    ensures var c := CheckAlert(alerts[0].0, alerts[0].1, quotes, st.ts, now, parseLocal);
            Evaluate(alerts, quotes, st, now, parseLocal)
            == if c.Success? then Evaluate(alerts[1..], quotes, st, now, parseLocal) else (st, Some(c.error))
  {
  }

  /** Trigger times of names the loop never reaches are left as they were. */
  lemma {:induction false} OtherNamesKept(alerts: seq<(string, Alert)>, quotes: map<string, Quote>, st: TickState,
                                          now: real, parseLocal: string -> Option<real>, k: string)
    requires st.ts.JObj? && k in st.ts.fields
    requires forall i :: 0 <= i < |alerts| ==> alerts[i].0 != k
    ensures var (end, _) := Evaluate(alerts, quotes, st, now, parseLocal);
            end.ts.JObj? && k in end.ts.fields && end.ts.fields[k] == st.ts.fields[k]
    decreases |alerts|
  {
    if |alerts| > 0 {
      var c := CheckAlert(alerts[0].0, alerts[0].1, quotes, st.ts, now, parseLocal);
      if c.Success? && c.value.Fired? {
        var next := TickState(JObj(c.value.ts), st.events + [Runner.Saved(map[TsSection := JObj(c.value.ts)]),
                                                             Runner.Alerted(alerts[0].0, alerts[0].1, c.value.quote, c.value.reason)]);
        OtherNamesKept(alerts[1..], quotes, next, now, parseLocal, k);
      } else if c.Success? {
        OtherNamesKept(alerts[1..], quotes, st, now, parseLocal, k);
      }
    }
  }

  /** One pass of the engine runner's alerts loop, for `alerts[i]`: the loop
      goes on from the state it leaves or stops with its error; a trigger
      saves the trigger-time map and records the save and `on_alert`. */
  method CheckOne(alerts: seq<(string, Alert)>, i: nat, quotes: map<string, Quote>, cache: LegacyCache.LegacyCacheDir,
                  ts: Json, events: seq<Runner.Event>, now: real, parseLocal: string -> Option<real>)
    returns (ts': Json, events': seq<Runner.Event>, stop: Option<Fault>)
    modifies cache
    requires i < |alerts|
    ensures var st := TickState(ts, events);
            stop.Some? ==> events' == events && Evaluate(alerts[i..], quotes, st, now, parseLocal) == (st, stop)
    ensures stop.None? ==>
              Evaluate(alerts[i..], quotes, TickState(ts, events), now, parseLocal)
              == Evaluate(alerts[i + 1..], quotes, TickState(ts', events'), now, parseLocal)
    ensures events' == events ==> cache.files == old(cache.files)
    ensures events' != events ==>
              |events'| == |events| + 2 && events'[|events'| - 2].Saved? && LegacyCache.ActiveName in cache.files
              && cache.files[LegacyCache.ActiveName].content == Parsed(JObj(events'[|events'| - 2].data))
  {
    var name, alert := alerts[i].0, alerts[i].1;
    assert alerts[i..][0] == alerts[i] && alerts[i..][1..] == alerts[i + 1..];
    var step := CheckAlert(name, alert, quotes, ts, now, parseLocal);
    ghost var st := TickState(ts, events);
    ts', events', stop := ts, events, None;
    if step.Failure? {
      EvaluateNotFired(alerts[i..], quotes, st, now, parseLocal);
      stop := Some(step.error);
    } else if step.value.Fired? {
      EvaluateFired(alerts[i..], quotes, st, now, parseLocal);
      var data := map[TsSection := JObj(step.value.ts)];
      ts' := JObj(step.value.ts);
      cache.Save(data, now);
      events' := events + [Runner.Saved(data), Runner.Alerted(name, alert, step.value.quote, step.value.reason)];
    } else {
      EvaluateNotFired(alerts[i..], quotes, st, now, parseLocal);
    }
  }

  /** What a tick leaves in the directory: nothing changes without a
      trigger; after one, the active file holds exactly the last save. */
  ghost predicate TickLeaves(files: map<string, File>, files': map<string, File>, events: seq<Runner.Event>)
  {
    && (|events| <= 1 ==> files' == files)
    && (|events| > 1 ==>
          && events[|events| - 2].Saved? && LegacyCache.ActiveName in files'
          && files'[LegacyCache.ActiveName].content == Parsed(JObj(events[|events| - 2].data)))
  }

  /** The events and the error of this runner's `run_check` on the directory
      `files`: an active file that does not load stops it before `on_tick`;
      otherwise the tick reports the fetched quotes and runs the alerts loop
      over the loaded trigger-time map. */
  function Tick(provider: string -> Option<Quote>, symbols: seq<string>, alerts: seq<(string, Alert)>,
                files: map<string, File>, now: real,
                parseLocal: string -> Option<real>): (r: (seq<Runner.Event>, Option<Fault>))
    ensures r.0 == [] <==> Runner.Loaded(LegacyCache.ActiveName, files).Failure?
    ensures r.0 == [] ==> r.1 == Some(Runner.Loaded(LegacyCache.ActiveName, files).error)
    ensures r.0 != [] ==> r.0[0] == Runner.Ticked(Runner.Fetched(provider, symbols))
  {
    match Runner.Loaded(LegacyCache.ActiveName, files)
    case Failure(f) => ([], Some(f))
    case Success(doc) =>
      var quotes := Runner.Fetched(provider, symbols);
      var start := TickState(Get(doc, TsSection, JObj(map[])), [Runner.Ticked(quotes)]);
      EvaluateEvents(alerts, quotes, start, now, parseLocal);
      var end := Evaluate(alerts, quotes, start, now, parseLocal);
      assert end.0.events[..1] == [Runner.Ticked(quotes)];
      (end.0.events, end.1)
  }

  /** `run_check` at time `now`: the events and the error are those of the
      alerts loop over the fetched quotes and the loaded trigger-time map;
      after the last trigger the active file holds that map and nothing else. */
  method RunCheck(provider: string -> Option<Quote>, symbols: seq<string>, alerts: seq<(string, Alert)>,
                  cache: LegacyCache.LegacyCacheDir, now: real, parseLocal: string -> Option<real>)
    returns (events: seq<Runner.Event>, fault: Option<Fault>)
    modifies cache
    ensures Runner.Loaded(LegacyCache.ActiveName, old(cache.files)).Failure? ==>
              events == [] && fault == Some(Runner.Loaded(LegacyCache.ActiveName, old(cache.files)).error)
              && cache.files == old(cache.files)
    ensures Runner.Loaded(LegacyCache.ActiveName, old(cache.files)).Success? ==>
              var doc := Runner.Loaded(LegacyCache.ActiveName, old(cache.files)).value;
              var quotes := Runner.Fetched(provider, symbols);
              var (end, f) := Evaluate(alerts, quotes, TickState(Get(doc, TsSection, JObj(map[])), [Runner.Ticked(quotes)]),
                                       now, parseLocal);
              events == end.events && fault == f
    ensures |events| <= 1 ==> cache.files == old(cache.files)
    ensures |events| > 1 ==>
              events[|events| - 2].Saved? && LegacyCache.ActiveName in cache.files
              && cache.files[LegacyCache.ActiveName].content == Parsed(JObj(events[|events| - 2].data))
    ensures (events, fault) == Tick(provider, symbols, alerts, old(cache.files), now, parseLocal)
    ensures TickLeaves(old(cache.files), cache.files, events)
  {
    var loaded := Runner.Loaded(LegacyCache.ActiveName, cache.files);
    if loaded.Failure? {
      return [], Some(loaded.error);
    }
    var ts := Get(loaded.value, TsSection, JObj(map[]));
    var quotes := Runner.FetchQuotes(provider, symbols);
    events := [Runner.Ticked(quotes)];
    ghost var start := TickState(ts, events);
    for i := 0 to |alerts|
      invariant Evaluate(alerts[i..], quotes, TickState(ts, events), now, parseLocal)
                == Evaluate(alerts, quotes, start, now, parseLocal)
      invariant |events| >= 1
      invariant |events| == 1 ==> cache.files == old(cache.files)
      invariant |events| > 1 ==>
                  events[|events| - 2].Saved? && LegacyCache.ActiveName in cache.files
                  && cache.files[LegacyCache.ActiveName].content == Parsed(JObj(events[|events| - 2].data))
    {
      var ts', events', stop := CheckOne(alerts, i, quotes, cache, ts, events, now, parseLocal);
      if stop.Some? {
        return events, stop;
      }
      ts, events := ts', events';
    }
    assert alerts[|alerts|..] == [];
    fault := None;
  }

  /** Tick `j` of a run: it starts from the directory `before[j]` at
      `clock(j)`, appears in the trace as the events this runner's
      `run_check` produces there, leaves the directory `before[j + 1]`, and
      raises nothing unless it is the last step of the trace. */
  ghost predicate TickRan(provider: string -> Option<Quote>, symbols: seq<string>, alerts: seq<(string, Alert)>,
                          clock: nat -> real, parseLocal: string -> Option<real>,
                          trace: seq<Runner.LoopStep>, before: seq<map<string, File>>, j: nat)
  {
    && j + 1 < |before| && 2 * j < |trace|
    && var outcome := Tick(provider, symbols, alerts, before[j], clock(j), parseLocal);
       && trace[2 * j] == Runner.Checked(outcome.0)
       && TickLeaves(before[j], before[j + 1], outcome.0)
       && (2 * j + 1 < |trace| ==> outcome.1 == None)
  }

  /** The first `|before| - 1` ticks of a run, with the sleeps between them. */
  ghost predicate Ran(provider: string -> Option<Quote>, symbols: seq<string>, alerts: seq<(string, Alert)>,
                      clock: nat -> real, parseLocal: string -> Option<real>,
                      trace: seq<Runner.LoopStep>, before: seq<map<string, File>>)
  {
    && |before| == (|trace| + 1) / 2 + 1
    && forall j: nat :: j < |before| - 1 ==> TickRan(provider, symbols, alerts, clock, parseLocal, trace, before, j)
  }

  /** A tick extends a run that ends in a sleep, or is empty. */
  lemma RanTick(provider: string -> Option<Quote>, symbols: seq<string>, alerts: seq<(string, Alert)>,
                clock: nat -> real, parseLocal: string -> Option<real>, trace: seq<Runner.LoopStep>,
                before: seq<map<string, File>>, events: seq<Runner.Event>, fault: Option<Fault>,
                after: map<string, File>, n: nat)
    requires |trace| == 2 * n && |before| == n + 1
    requires Ran(provider, symbols, alerts, clock, parseLocal, trace, before)
    requires (events, fault) == Tick(provider, symbols, alerts, before[n], clock(n), parseLocal)
    requires TickLeaves(before[n], after, events)
    ensures Ran(provider, symbols, alerts, clock, parseLocal, trace + [Runner.Checked(events)], before + [after])
  {
    var t, b := trace + [Runner.Checked(events)], before + [after];
    forall j: nat | j < |b| - 1
      ensures TickRan(provider, symbols, alerts, clock, parseLocal, t, b, j)
    {
      assert b[j] == before[j];
      if j < n {
        assert TickRan(provider, symbols, alerts, clock, parseLocal, trace, before, j);
        assert t[2 * j] == trace[2 * j] && b[j + 1] == before[j + 1];
      }
    }
  }

  /** A sleep after a tick that raised nothing extends the run. */
  lemma RanSleep(provider: string -> Option<Quote>, symbols: seq<string>, alerts: seq<(string, Alert)>,
                 clock: nat -> real, parseLocal: string -> Option<real>, trace: seq<Runner.LoopStep>,
                 before: seq<map<string, File>>, fault: Option<Fault>, pause: int, n: nat)
    requires |trace| == 2 * n + 1 && |before| == n + 2
    requires Ran(provider, symbols, alerts, clock, parseLocal, trace, before)
    requires fault == Tick(provider, symbols, alerts, before[n], clock(n), parseLocal).1
    requires fault == None
    ensures Ran(provider, symbols, alerts, clock, parseLocal, trace + [Runner.Slept(pause)], before)
  {
    var t := trace + [Runner.Slept(pause)];
    forall j: nat | j < |before| - 1
      ensures TickRan(provider, symbols, alerts, clock, parseLocal, t, before, j)
    {
      assert TickRan(provider, symbols, alerts, clock, parseLocal, trace, before, j);
      assert t[2 * j] == trace[2 * j];
    }
  }

  /** A run whose tick `n` raises, or whose tick `n` is its last, is complete. */
  lemma LoopedStop(provider: string -> Option<Quote>, symbols: seq<string>, alerts: seq<(string, Alert)>,
                   clock: nat -> real, parseLocal: string -> Option<real>,
                   pause: int, iterations: int, trace: seq<Runner.LoopStep>, fault: Option<Fault>,
                   before: seq<map<string, File>>, start: map<string, File>, end: map<string, File>, n: nat)
    requires n < iterations && |trace| == 2 * n + 1 && |before| == n + 2
    requires Runner.Alternating(trace, pause) && Ran(provider, symbols, alerts, clock, parseLocal, trace, before)
    requires before[0] == start && before[n + 1] == end
    requires fault == Tick(provider, symbols, alerts, before[n], clock(n), parseLocal).1
    ensures fault.Some? || n + 1 == iterations ==>
              Looped(provider, symbols, alerts, clock, parseLocal, pause, iterations, trace, fault, before, start, end)
  {
  }

  /** Tick `i` of `run_loop`: this runner's `run_check` at `clock(i)`, which
      extends the run so far by its events and the directory it leaves. */
  method TickAt(provider: string -> Option<Quote>, symbols: seq<string>, alerts: seq<(string, Alert)>,
                cache: LegacyCache.LegacyCacheDir, clock: nat -> real, parseLocal: string -> Option<real>,
                ghost trace: seq<Runner.LoopStep>, ghost before: seq<map<string, File>>, i: nat)
    returns (events: seq<Runner.Event>, fault: Option<Fault>)
    modifies cache
    requires |trace| == 2 * i && |before| == i + 1 && before[i] == cache.files
    requires Ran(provider, symbols, alerts, clock, parseLocal, trace, before)
    ensures Ran(provider, symbols, alerts, clock, parseLocal, trace + [Runner.Checked(events)], before + [cache.files])
    ensures fault == Tick(provider, symbols, alerts, before[i], clock(i), parseLocal).1
  {
    events, fault := RunCheck(provider, symbols, alerts, cache, clock(i), parseLocal);
    RanTick(provider, symbols, alerts, clock, parseLocal, trace, before, events, fault, cache.files, i);
  }

  /** `run_loop` with a finite iteration count, over this runner's tick;
      `clock(i)` is the time of tick `i`, and `before` lists the directory
      before each tick and, last, after the run. */
  method RunLoop(provider: string -> Option<Quote>, symbols: seq<string>, alerts: seq<(string, Alert)>,
                 cache: LegacyCache.LegacyCacheDir, intervalText: string, iterations: int,
                 clock: nat -> real, parseLocal: string -> Option<real>)
    returns (trace: seq<Runner.LoopStep>, fault: Option<Fault>, ghost before: seq<map<string, File>>)
    modifies cache
    ensures Utils.SecondsFromInterval(intervalText).Failure? ==>
              && trace == [] && fault == Some(ValueError)
              && before == [old(cache.files)] && cache.files == old(cache.files)
    ensures Utils.SecondsFromInterval(intervalText).Success? ==>
              Looped(provider, symbols, alerts, clock, parseLocal, Runner.Pause(Utils.SecondsFromInterval(intervalText).value),
                     iterations, trace, fault, before, old(cache.files), cache.files)
  {
    var secs := Utils.SecondsFromInterval(intervalText);
    if secs.Failure? {
      return [], Some(secs.error), [cache.files];
    }
    trace, fault, before := RunTicks(provider, symbols, alerts, cache, Runner.Pause(secs.value), iterations, clock, parseLocal);
  }

  /** The run `run_loop` makes once its interval is read, from directory
      `start` to directory `end`, as `Runner.Looped` states it for this
      runner's tick. */
  ghost predicate Looped(provider: string -> Option<Quote>, symbols: seq<string>, alerts: seq<(string, Alert)>,
                         clock: nat -> real, parseLocal: string -> Option<real>,
                         pause: int, iterations: int, trace: seq<Runner.LoopStep>, fault: Option<Fault>,
                         before: seq<map<string, File>>, start: map<string, File>, end: map<string, File>)
  {
    && (fault.None? ==> |trace| == (if iterations <= 0 then 0 else 2 * iterations - 1))
    && (fault.Some? ==> |trace| <= (if iterations <= 0 then 0 else 2 * iterations - 1))
    && Runner.Alternating(trace, pause)
    && (|trace| % 2 == 1 || trace == [])
    && Ran(provider, symbols, alerts, clock, parseLocal, trace, before)
    && before[0] == start && before[|before| - 1] == end
    && fault == if |before| == 1 then None
                else Tick(provider, symbols, alerts, before[|before| - 2], clock(|before| - 2), parseLocal).1
  }

  /** The ticks of `run_loop` once its interval is read: `max(iterations, 0)`
      ticks with a sleep of `pause` seconds between each two and none after
      the last, unless a tick raises, which ends it. */
  method RunTicks(provider: string -> Option<Quote>, symbols: seq<string>, alerts: seq<(string, Alert)>,
                  cache: LegacyCache.LegacyCacheDir, pause: int, iterations: int,
                  clock: nat -> real, parseLocal: string -> Option<real>)
    returns (trace: seq<Runner.LoopStep>, fault: Option<Fault>, ghost before: seq<map<string, File>>)
    modifies cache
    ensures Looped(provider, symbols, alerts, clock, parseLocal, pause, iterations, trace, fault, before,
                   old(cache.files), cache.files)
  {
    before := [cache.files];
    var i := 0;
    trace := [];
    while i < iterations
      invariant 0 <= i && (i > 0 ==> i < iterations)
      invariant |trace| == 2 * i
      invariant Runner.Alternating(trace, pause)
      invariant |before| == i + 1 && before[0] == old(cache.files) && before[i] == cache.files
      invariant Ran(provider, symbols, alerts, clock, parseLocal, trace, before)
      decreases iterations - i
    {
      var events, f := TickAt(provider, symbols, alerts, cache, clock, parseLocal, trace, before, i);
      Runner.AlternatingTick(trace, pause, events, i);
      trace := trace + [Runner.Checked(events)];
      ghost var last := before[i];
      before := before + [cache.files];
      assert before[|before| - 2] == last;
      LoopedStop(provider, symbols, alerts, clock, parseLocal, pause, iterations,
                 trace, f, before, old(cache.files), cache.files, i);
      if f.Some? {
        return trace, f, before;
      }
      i := i + 1;
      if i >= iterations {
        break;
      }
      Runner.AlternatingSleep(trace, pause, i - 1);
      RanSleep(provider, symbols, alerts, clock, parseLocal, trace, before, f, pause, i - 1);
      trace := trace + [Runner.Slept(pause)];
    }
    fault := None;
  }
}
