/** The config-file helpers of `stock_alert/core/file_utils.py`, which
    `stock_alert/store/files.py` repeats word for word over another directory: one JSON
    document holding the alerts map and the watchlist, read with a default and
    written back whole. */
module ConfigStore {
  import opened Base
  import opened Json
  import opened Text
  import opened Alerts

  /** The two top-level keys of the config document. */
  const AlertsKey := "alerts"
  const WatchlistKey := "watchlist"

  /** What `load_config` returns when there is nothing it can read. */
  const DefaultConfig: Json := JObj(map[AlertsKey := JObj(map[]), WatchlistKey := JArr([])])

  /** `_load_json(path, default)`: the decoded file, or `default` when the file
      does not exist or is not valid JSON. */
  function LoadJson(files: map<string, Content>, path: string, default: Json): (r: Json)
    ensures path in files && files[path].Parsed? ==> r == files[path].value
    ensures path !in files || files[path].Unparsable? ==> r == default
  {
    if path in files && files[path].Parsed? then files[path].value else default
  }

  /** `config[key] = value` on what `load_config` returned: only a JSON object
      takes a string key (a list, a string, a number or `None` raises
      `TypeError`), and the assignment changes that key alone. */
  function SetKey(config: Json, key: string, value: Json): (r: Result<Json, Fault>)
    ensures r.Failure? <==> !config.JObj?
    ensures r.Failure? ==> r.error == TypeError
    ensures r.Success? ==> r.value.JObj? && r.value.fields.Keys == config.fields.Keys + {key}
    ensures r.Success? ==> r.value.fields[key] == value
    ensures r.Success? ==> forall k :: k in config.fields && k != key ==> r.value.fields[k] == config.fields[k]
  {
    if config.JObj? then Success(JObj(config.fields[key := value])) else Failure(TypeError)
  }

  /** `config.get(key, default)` on what `load_config` returned: anything but
      an object has no `get` (`AttributeError`). */
  function GetKey(config: Json, key: string, default: Json): (r: Result<Json, Fault>)
    ensures r.Failure? <==> !config.JObj?
    ensures r.Failure? ==> r.error == AttributeError
    ensures r.Success? && key in config.fields ==> r.value == config.fields[key]
    ensures r.Success? && key !in config.fields ==> r.value == default
  {
    if config.JObj? then Success(Get(config.fields, key, default)) else Failure(AttributeError)
  }

  /** `[s.upper() for s in items]`: an item that is not a string has no
      `upper` (`AttributeError`). */
  function UpperItems(items: seq<Json>): (r: Result<seq<string>, Fault>)
    ensures r.Success? <==> forall i :: 0 <= i < |items| ==> items[i].JStr?
    ensures r.Success? ==> |r.value| == |items| && forall i :: 0 <= i < |items| ==> r.value[i] == Upper(items[i].s)
    ensures r.Failure? ==> r.error == AttributeError
  {
    if |items| == 0 then Success([])
    else if !items[0].JStr? then Failure(AttributeError)
    else
      match UpperItems(items[1..])
      case Failure(e) => Failure(e)
      case Success(rest) => Success([Upper(items[0].s)] + rest)
  }

  /** What `load_watchlist` makes of the loaded config. */
  function WatchlistOf(config: Json): Result<seq<string>, Fault>
  {
    match GetKey(config, WatchlistKey, JArr([]))
    case Failure(e) => Failure(e)
    case Success(data) => if data.JArr? then UpperItems(data.items) else Success([])
  }

  /** Strings as a JSON list. */
  function Strs(xs: seq<string>): (r: seq<Json>)
    ensures |r| == |xs| && forall i :: 0 <= i < |xs| ==> r[i] == JStr(xs[i])
  {
    seq(|xs|, i requires 0 <= i < |xs| => JStr(xs[i]))
  }

  /** `sorted(set(s.upper() for s in symbols))`, the watchlist `save_watchlist` stores. */
  function StoredWatchlist(symbols: seq<string>): Json
  {
    JArr(Strs(SortDistinct(UpperAll(symbols))))
  }

  /** `load_watchlist` gives the upper-cased entries of a stored list, `[]`
      when the key is absent or holds anything but a list, and fails only
      on a config that is not an object or on a list item that is not a string. */
  lemma {:induction false} WatchlistOfIff(config: Json)
    ensures WatchlistOf(config).Failure? <==>
              !config.JObj? ||
              (WatchlistKey in config.fields && config.fields[WatchlistKey].JArr? &&
               exists i :: 0 <= i < |config.fields[WatchlistKey].items| && !config.fields[WatchlistKey].items[i].JStr?)
    ensures config.JObj? && (WatchlistKey !in config.fields || !config.fields[WatchlistKey].JArr?) ==>
              WatchlistOf(config) == Success([])
    ensures WatchlistOf(config).Success? && WatchlistKey in config.fields && config.fields[WatchlistKey].JArr? ==>
              var items := config.fields[WatchlistKey].items;
              |WatchlistOf(config).value| == |items| &&
              forall i :: 0 <= i < |items| ==> WatchlistOf(config).value[i] == Upper(items[i].s)
  {
  }

  /** Upper-casing a list whose items are all upper-case changes nothing. */
  lemma {:induction false} UpperAllOfUpper(xs: seq<string>)
    requires forall i :: 0 <= i < |xs| ==> Upper(xs[i]) == xs[i]
    ensures UpperAll(xs) == xs
  {
  }

  /** Every stored symbol is already upper-case. */
  lemma {:induction false} StoredIsUpper(symbols: seq<string>, i: nat)
    requires i < |SortDistinct(UpperAll(symbols))|
    ensures Upper(SortDistinct(UpperAll(symbols))[i]) == SortDistinct(UpperAll(symbols))[i]
  {
    var u := UpperAll(symbols);
    var l := SortDistinct(u);
    assert l[i] in Elems(l);
    var j :| 0 <= j < |u| && u[j] == l[i];
    UpperIdempotent(symbols[j]);
  }

  /** After `save_watchlist(symbols)`, `load_watchlist()` returns the sorted,
      duplicate-free, upper-cased `symbols`. */
  lemma {:induction false} WatchlistAfterSave(config: Json, symbols: seq<string>)
    requires config.JObj?
    ensures WatchlistOf(SetKey(config, WatchlistKey, StoredWatchlist(symbols)).value)
            == Success(SortDistinct(UpperAll(symbols)))
  {
    var l := SortDistinct(UpperAll(symbols));
    var r := UpperItems(Strs(l));
    assert r.Success?;
    forall i | 0 <= i < |l| ensures r.value[i] == l[i] {
      assert Strs(l)[i].s == l[i];
      assert r.value[i] == Upper(Strs(l)[i].s);
      StoredIsUpper(symbols, i);
    }
    assert r.value == l;
  }

  /** Saving what `load_watchlist` returns straight after a save stores the
      same list again, so the config does not change. */
  lemma {:induction false} ResaveIsNoOp(config: Json, symbols: seq<string>)
    requires config.JObj?
    ensures var saved := SetKey(config, WatchlistKey, StoredWatchlist(symbols)).value;
            SetKey(saved, WatchlistKey, StoredWatchlist(WatchlistOf(saved).value)) == Success(saved)
  {
    var l := SortDistinct(UpperAll(symbols));
    var saved := SetKey(config, WatchlistKey, StoredWatchlist(symbols)).value;
    WatchlistAfterSave(config, symbols);
    assert StoredWatchlist(l) == StoredWatchlist(symbols) by {
      forall i | 0 <= i < |l| ensures Upper(l[i]) == l[i] {
        StoredIsUpper(symbols, i);
      }
      UpperAllOfUpper(l);
      SortDistinctOfSorted(l);
    }
    SetSameValue(saved, WatchlistKey, StoredWatchlist(symbols));
  }

  /** Setting a key to the value it already has gives the same config. */
  lemma {:induction false} SetSameValue(config: Json, key: string, value: Json)
    requires config.JObj? && key in config.fields && config.fields[key] == value
    ensures SetKey(config, key, value) == Success(config)
  {
    assert config.fields[key := value] == config.fields;
  }

  /** `load_alerts()` on the loaded config: its alerts entry, `{}` when there is none. */
  function AlertsOf(config: Json): Result<Json, Fault>
  {
    GetKey(config, AlertsKey, JObj(map[]))
  }

  /** From a missing or unreadable file, `load_alerts` reads `{}` and
      `load_watchlist` reads `[]`. */
  lemma {:induction false} AlertsDefault(files: map<string, Content>, path: string)
    requires path !in files || files[path].Unparsable?
    ensures AlertsOf(LoadJson(files, path, DefaultConfig)) == Success(JObj(map[]))
    ensures WatchlistOf(LoadJson(files, path, DefaultConfig)) == Success([])
  {
  }

  /** `Alert.from_dict(payload)`: a payload that is not an object cannot be
      indexed by a field name (`TypeError`). */
  function PayloadAlert(payload: Json, repr: real -> string): (r: Result<Alert, Fault>)
    ensures !payload.JObj? ==> r == Failure(TypeError)
    ensures payload.JObj? ==> r == FromDict(payload.fields, repr)
  {
    if payload.JObj? then FromDict(payload.fields, repr) else Failure(TypeError)
  }

  /** Every payload of `d` decodes. */
  ghost predicate Decodes(d: map<string, Json>, repr: real -> string)
  {
    forall name :: name in d ==> PayloadAlert(d[name], repr).Success?
  }

  /** The alerts the payloads of `d` decode to, under the same keys. */
  ghost function Decoded(d: map<string, Json>, repr: real -> string): map<string, Alert>
    requires Decodes(d, repr)
  {
    map name | name in d :: PayloadAlert(d[name], repr).value
  }

  /** `alerts_from_dict(d)`: decodes each payload under its key; the first
      payload that does not decode ends it with that payload's error. */
  method AlertsFromDict(d: map<string, Json>, repr: real -> string) returns (r: Result<map<string, Alert>, Fault>)
    ensures r.Success? <==> Decodes(d, repr)
    ensures r.Success? ==> r.value == Decoded(d, repr)
    ensures r.Failure? ==> exists name :: name in d && PayloadAlert(d[name], repr) == Failure(r.error)
  {
    var out: map<string, Alert> := map[];
    var todo := d.Keys;
    while todo != {}
      invariant todo <= d.Keys
      invariant out.Keys == d.Keys - todo
      invariant forall name :: name in out ==> PayloadAlert(d[name], repr) == Success(out[name])
      decreases todo
    {
      var name :| name in todo;
      var a := PayloadAlert(d[name], repr);
      if a.Failure? {
        return Failure(a.error);
      }
      out := out[name := a.value];
      todo := todo - {name};
    }
    DecodedAll(d, out, repr);
    return Success(out);
  }

  lemma {:induction false} DecodedAll(d: map<string, Json>, out: map<string, Alert>, repr: real -> string)
    requires out.Keys == d.Keys
    requires forall name :: name in out ==> PayloadAlert(d[name], repr) == Success(out[name])
    ensures Decodes(d, repr) && Decoded(d, repr) == out
  {
  }

  /** `alerts_to_dict(alerts)`: each alert's `to_dict` under the same key. */
  function AlertsToDict(alerts: map<string, Alert>): (d: map<string, Json>)
    ensures d.Keys == alerts.Keys
  {
    map name | name in alerts :: JObj(ToDict(alerts[name]))
  }

  /** `alerts_from_dict(alerts_to_dict(m))` has the keys of `m`, each mapped to
      the alert it had. */
  lemma {:induction false} AlertsRoundTrip(alerts: map<string, Alert>, repr: real -> string)
    requires forall name :: name in alerts ==> WellNamed(alerts[name], repr)
    ensures Decodes(AlertsToDict(alerts), repr)
    ensures Decoded(AlertsToDict(alerts), repr) == alerts
  {
    var d := AlertsToDict(alerts);
    forall name | name in alerts ensures PayloadAlert(d[name], repr) == Success(alerts[name]) {
      PayloadRoundTrip(alerts, name, repr);
    }
    DecodedAll(d, alerts, repr);
  }

  /** The payload `alerts_to_dict` writes under one name decodes to that name's alert. */
  lemma {:induction false} PayloadRoundTrip(alerts: map<string, Alert>, name: string, repr: real -> string)
    requires name in alerts && WellNamed(alerts[name], repr)
    ensures PayloadAlert(AlertsToDict(alerts)[name], repr) == Success(alerts[name])
  {
    FromDictToDict(alerts[name], repr);
  }

  /** The directory that holds the config file, by file name. */
  class ConfigDir {
    const path: string
    var files: map<string, Content>

    constructor(path: string, initial: map<string, Content>)
      ensures this.path == path && files == initial
    {
      this.path := path;
      files := initial;
    }

    /** `load_config()` */
    function Config(): Json
      reads this
    {
      LoadJson(files, path, DefaultConfig)
    }

    /** `_save_json(path, data)`: writes `data` to `path + ".tmp"`, then
        `os.replace` moves it over `path`; the temporary name is gone after. */
    method SaveJson(data: Json)
      modifies this
      ensures files == (old(files) - {path + ".tmp"})[path := Parsed(data)]
      ensures Config() == data
    {
      var tmp := path + ".tmp";
      files := files[tmp := Parsed(data)];
      assert tmp != path by { assert |tmp| == |path| + 4; }
      files := (files - {tmp})[path := files[tmp]];
    }

    /** `load_watchlist()` */
    function LoadWatchlist(): Result<seq<string>, Fault>
      reads this
    {
      WatchlistOf(Config())
    }

    /** `load_alerts()` */
    function LoadAlerts(): Result<Json, Fault>
      reads this
    {
      AlertsOf(Config())
    }

    /** `save_config` after setting one key of the loaded config; a config that
        is not an object raises before anything is written. */
    method SaveKey(key: string, value: Json) returns (fault: Option<Fault>)
      modifies this
      ensures fault.Some? <==> !old(Config()).JObj?
      ensures fault.Some? ==> fault.value == TypeError && files == old(files)
      ensures fault.None? ==> files == (old(files) - {path + ".tmp"})[path := Parsed(SetKey(old(Config()), key, value).value)]
      ensures fault.None? ==> Config().JObj? && Config().fields.Keys == old(Config()).fields.Keys + {key}
      ensures fault.None? ==> Config().fields[key] == value
      ensures fault.None? ==> forall k :: k in old(Config()).fields && k != key ==>
                                  Config().fields[k] == old(Config()).fields[k]
    {
      var config := Config();
      var updated := SetKey(config, key, value);
      if updated.Failure? {
        return Some(updated.error);
      }
      SaveJson(updated.value);
      return None;
    }

    /** `save_watchlist(symbols)`: the watchlist key becomes the sorted,
        duplicate-free, upper-cased symbols; every other key keeps its value,
        and `load_watchlist()` then returns that list. No file other than the
        config file and its temporary name changes. */
    method SaveWatchlist(symbols: seq<string>) returns (fault: Option<Fault>)
      modifies this
      ensures fault.Some? <==> !old(Config()).JObj?
      ensures fault.Some? ==> fault.value == TypeError && files == old(files)
      ensures fault.None? ==> Config() == SetKey(old(Config()), WatchlistKey, StoredWatchlist(symbols)).value
      ensures fault.None? ==> LoadWatchlist() == Success(SortDistinct(UpperAll(symbols)))
      ensures fault.None? ==> files == (old(files) - {path + ".tmp"})[path := Parsed(Config())]
    {
      ghost var before := Config();
      fault := SaveKey(WatchlistKey, StoredWatchlist(symbols));
      if fault.None? {
        WatchlistAfterSave(before, symbols);
      }
    }

    /** `save_alerts(alerts)`: the alerts key becomes `alerts`; every other
        key keeps its value, and no file other than the config file and its
        temporary name changes. */
    method SaveAlerts(alerts: map<string, Json>) returns (fault: Option<Fault>)
      modifies this
      ensures fault.Some? <==> !old(Config()).JObj?
      ensures fault.Some? ==> fault.value == TypeError && files == old(files)
      ensures fault.None? ==> Config() == SetKey(old(Config()), AlertsKey, JObj(alerts)).value
      ensures fault.None? ==> LoadAlerts() == Success(JObj(alerts))
      ensures fault.None? ==> files == (old(files) - {path + ".tmp"})[path := Parsed(Config())]
    {
      fault := SaveKey(AlertsKey, JObj(alerts));
    }
  }
}
