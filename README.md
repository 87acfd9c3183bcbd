# StockAlert core in Dafny

A model of the core of StockAlert, a stock-price alert tool. The model covers:

- **Alert model.** Alerts and quotes, the derived alert name, the dictionary form of an alert, and the trigger decision `Alert.should_trigger` over five alert kinds. The older three-kind decision is also modelled.
- **Condition parser.** The grammar `kind >= number` / `kind <= number`. There are two variants: five kinds and three kinds.
- **Cache store.** One JSON document per directory, holding trigger times and alert history.
  - The current store merges top-level keys and rotates the active file to `{stem}.{N}{ext}`.
  - The older store writes verbatim and rotates to `cache_data_<mtime>.json`.
- **Config document.** It holds the watchlist and the alerts map. The commands `watchlist add` and `alert create` change it.
- **Runners.** One tick (`run_check`), which fetches quotes, evaluates every alert and persists each trigger. The run loop alternates ticks and sleeps. Both runner variants are modelled.
- **Small parsers.** Interval text to seconds, credential-file lines, and CRLF normalisation.

## How the model is built

**Pure code becomes functions and lemmas.** The trigger decision, the condition parser, the name derivation, the dictionary conversions and the interval parser are functions. Lemmas state what the source promises about them.

**Code that changes state step by step is imperative Dafny.** The cache directory and the config directory are classes. Each holds a `map` from file name to file, and its methods carry `modifies this`. The fetch loop and the alerts loop are `for` loops; the run loop, the glob loops and the credential loop are `while` loops. All carry invariants.

**Each imperative method is proved against a pure specification function.**

- `Runner.RunCheck` equals `Runner.Evaluate` of the alerts.
- `Runner.RunTicks` and `LegacyRunner.RunTicks` end in a run that satisfies `Looped`, which ties each tick to that runner's `Tick` function.
- `CacheStore.CacheDir.Save` ends in a `PruneOutcome`.
- `ConfigStore.AlertsFromDict` equals `Decoded` exactly when every payload `Decodes`.

Lemmas prove the source's promises about those functions.

**The outside world is passed in as parameters:**

- the quote provider: `symbol -> Option<Quote>`;
- the clock: `now`, or `clock(i)` for the run loop;
- `time.strftime`: `format`;
- `datetime.strptime(...).timestamp()`: `parseLocal`;
- Python's float-to-text conversion: `repr` and `stampText`;
- the JSON encoded size of a document: `encodedSize`.

**State that leaves the modelled code is recorded in `Runner.Event` values:**

- `on_tick` calls;
- `on_alert` calls;
- every `save_to_cache`.

**Errors the source raises are `Fault` values.** `ValueError`, `KeyError`, `TypeError`, `AttributeError`, `ZeroDivisionError` and `JSONDecodeError` each have one, and the model returns them in a `Result`.

**Numbers are exact.** JSON numbers and floats are `real`. Python's `int(x)` is truncation toward zero (`Numerals.Trunc`).

## Model

| member | source | states |
|---|---|---|
| Alerts.KindOf | stock_alert/common/models.py:57 | `AlertKind(s)` succeeds exactly on the five kind keywords and returns the kind whose keyword is `s` |
| Alerts.OpOf | stock_alert/common/models.py:58 | `Operation(s)` succeeds exactly on `>=` and `<=` and returns the operator written `s` |
| Alerts.NewAlert | stock_alert/common/models.py:42-50 | the constructor keeps symbol, kind, operator, value and cooldown, and the name is `"{symbol} {kind} {op} {value}"` |
| Alerts.NameDeterminesCondition | stock_alert/common/models.py:50 | two alerts whose symbols have no space share a name only when symbol, kind and operator are equal and the thresholds print alike; so the name is a key of the condition, and alerts that differ only in cooldown collide |
| Alerts.ToDict | stock_alert/common/models.py:63-67 | `to_dict` has exactly the six fields; their values, with kind and operator as text, are stated by `Alerts.ToDictFields` |
| Alerts.FromDict | stock_alert/common/models.py:52-61 | `from_dict` succeeds exactly when symbol, kind, operator, value and cooldown all read (a known kind and operator, a numeric value, a whole cooldown), and then holds those fields and the name derived afresh; the first missing field in argument order is a `KeyError`; an unknown kind, or an unknown operator after a known kind, is a `ValueError`; no other error is raised except `ShapeNotModelled` |
| Alerts.FromDictToDict | stock_alert/common/models.py:52-67 | `from_dict(to_dict(a))` is `a`, with the same fields and the same derived name |
| Alerts.TriggerIff | stock_alert/common/models.py:103-135 | the alert fires exactly when the comparison value meets the threshold under the operator and either no earlier trigger time is known or the cooldown has run out; the firing reports the comparison value |
| Alerts.CooldownBlocks | stock_alert/common/models.py:111-126 | a met condition within the cooldown never fires, however far past the threshold the value is |
| Alerts.NotMetIgnoresCooldown | stock_alert/common/models.py:103-107 | a condition that does not hold gives "condition not met" whatever the cooldown state |
| Alerts.UnparsableTimeIsEpochZero | stock_alert/common/models.py:113-120 | a last-trigger text that does not parse as local time decides exactly as epoch 0 |
| Alerts.PercentOffsetWithoutRecord | stock_alert/common/models.py:89-93 | without a prior record holding a price, the percent-offset kind decides exactly as `pct_day` |
| Alerts.ZeroPreviousPriceNeverFires | stock_alert/common/models.py:94-97 | a stored previous price that `float()` reads as zero (`0`, `"0"`, `false`) stops the percent-offset kind before any operator or cooldown check |
| Alerts.PercentOffsetWithRecord | stock_alert/common/models.py:94-98 | with a stored previous price that `float()` reads as `p`, the percent offset is `(price - p) / p * 100` |
| Alerts.ValueOffsetWithoutRecord | stock_alert/common/models.py:77-85 | without a prior record the value offset is 0 when `pct_day` is 0, a `ZeroDivisionError` at exactly -100, and otherwise the change from the yesterday price `y` with `y * (1 + pct_day/100) == price` |
| Alerts.ValueOffsetWithRecord | stock_alert/common/models.py:86-88 | with a stored previous price that `float()` reads as `p`, the value offset is `price - p` |
| Alerts.ScenarioPriceAboveThreshold | stock_alert/common/models.py:71-72 | `price_value >= 200` at price 205 with no earlier trigger fires and reports 205 |
| Alerts.ScenarioPercentOffset | stock_alert/common/models.py:95-98 | a percent-offset alert `>= 5` after a trigger at 100 does not fire at 104 and fires at 106 |
| Condition.ParseIff | stock_alert/tools/t_manage_settings.py:53-54 | the anchored, case-insensitive match of the stripped text succeeds exactly on renderings of a well-formed match, and gives that match |
| Condition.MatchRender | stock_alert/tools/t_manage_settings.py:52-53 | the alternation finds the written keyword even when it begins with another keyword (`price_value` inside `price_value_offset_since_last_alert`) |
| Condition.ParseRender | stock_alert/tools/t_manage_settings.py:53-54 | a rendered match parses back to itself |
| ManageSettings.ParseCondition | stock_alert/tools/t_manage_settings.py:51-63 | every rejection is a `ValueError` |
| ManageSettings.ParseConditionIff | stock_alert/tools/t_manage_settings.py:53-63 | parsing succeeds exactly on texts that strip to keyword, optional spaces, `>=`/`<=`, optional spaces and an optionally negative decimal; it gives the kind of the lower-cased keyword, the operator and the numeral's value; anything else is a `ValueError` |
| ManageSettings.ParseConditionRender | stock_alert/tools/t_manage_settings.py:53-63 | `"<kind> <op> <numeral>"` parses back to that kind, operator and value, for all five kinds |
| ManageSettings.Added | stock_alert/tools/t_manage_settings.py:16 | the reported list is sorted and holds exactly the upper-cased arguments not already on the watchlist |
| ManageSettings.AddedIsNew | stock_alert/tools/t_manage_settings.py:12-16 | the report is the only sorted list of exactly the new symbols, and the saved watchlist is the old symbols together with the added ones |
| ManageSettings.WatchlistAdd | stock_alert/tools/t_manage_settings.py:10-16 | a load failure changes nothing; otherwise the report is `Added`, the stored watchlist is the sorted distinct upper-cased old and new symbols, every other config key keeps its value, and no file other than the config file and its temporary name changes |
| ManageSettings.AlertCreate | stock_alert/tools/t_manage_settings.py:34-49 | an existing `name` is refused and an invalid condition is reported, both without writing; a config that does not load raises; otherwise the alert is built from the upper-cased symbol and stored under its derived name, every other config key (the watchlist included) keeps its value, and no file other than the config file and its temporary name changes |
| ManageSettings.CreateKeepsOthers | stock_alert/tools/t_manage_settings.py:44-45 | the stored map has the new alert under its derived name and every other alert as it was; it replaces only an alert with the same derived name |
| ManageSettings.CreatedReadsBack | stock_alert/tools/t_manage_settings.py:36-45 | after a creation, the alerts the next `alert create` loads are the earlier ones plus the new alert |
| LegacyModels.LegacyKindOf | stock_alert/core/models.py:66 | the three-kind `AlertKind(s)` succeeds exactly on `price`, `pct_day` and `volume` |
| LegacyModels.LegacyTriggerIff | stock_alert/core/models.py:26-49 | the three-kind alert fires exactly when price, `pct_day` or volume meets the threshold and the alert's own last trigger time is absent or older than `cooldown_sec`; a blocked firing is "cooldown active", a failed condition "condition not met" |
| LegacyModels.AgreesWithNewerModel | stock_alert/core/models.py:26-49 | the three kinds decide as the same kinds of the five-kind decision given the alert's own last trigger time |
| LegacyModels.LegacyParseCondition | stock_alert/core/models.py:59-68 | every rejection is a `ValueError` |
| LegacyModels.LegacyParseConditionIff | stock_alert/core/models.py:52-68 | parsing accepts exactly the stripped `price`/`pct_day`/`volume` conditions, and gives the kind of the lower-cased keyword, the operator and the numeral's value |
| LegacyModels.LegacyParseConditionRender | stock_alert/core/models.py:52-68 | a rendered three-kind condition parses back to its kind, operator and value |
| Numerals.ParseNumeralRender | stock_alert/tools/t_manage_settings.py:53 | every numeral of the form `-?\d+(\.\d+)?` is recognised and read back unchanged |
| Numerals.ParseFloatRender | stock_alert/tools/t_manage_settings.py:60 | `float()` reads every numeral of the condition grammar as its exact value |
| Numerals.TruncBounds | stock_alert/common/utils.py:21-30 | `int(x)` is the integer next to `x` on the side of zero |
| Json.Merge | stock_alert/core/cache_utils.py:63-64 | every key of `data` takes `data`'s value, every other key of the existing document keeps its own, and there are no other keys |
| Json.MergeAbsorbs | stock_alert/core/cache_utils.py:63-64 | saving twice with the same keys is the same as saving the second document once |
| Json.MergeTwicePreserves | stock_alert/core/cache_utils.py:63-64 | keys in neither of two successive saves keep the value they had before both |
| CacheStore.StemSuffix | stock_alert/core/cache_utils.py:17-18 | a file name is its stem followed by its suffix, and a non-empty suffix starts with a dot |
| CacheStore.RotatedNameSeq | stock_alert/core/cache_utils.py:19-31 | the name `{stem}.{n}{ext}` is matched by the rotation pattern and carries `n` |
| CacheStore.ActiveNotRotated | stock_alert/core/cache_utils.py:19-31 | the active file is never taken for a rotated copy |
| CacheStore.NextNameIsFree | stock_alert/core/cache_utils.py:71-75 | the rename target `{stem}.{max+1}{ext}` is not a name in the directory and not the active name, and its number is above every rotated copy's |
| CacheStore.TopIsMax | stock_alert/core/cache_utils.py:72 | the head of the highest-first listing carries the largest sequence number, and an empty listing means 0 |
| CacheStore.PruneEstablishes | stock_alert/core/cache_utils.py:38-42 | deleting the listed copies from position `max_files - 1` on keeps only copies numbered at least as high as any deleted one, and touches no other file |
| CacheStore.PruneCount | stock_alert/core/cache_utils.py:41 | after the prune at most `max_files - 1` rotated copies remain, exactly `min(n, max_files - 1)` for `max_files >= 1`; with `max_files == 0` the slice `[-1:]` deletes only the lowest copy |
| CacheStore.Existing | stock_alert/core/cache_utils.py:54-61 | a missing or unreadable active file reads as `{}`; a readable document that is not an object makes the merge raise `TypeError` |
| CacheStore.RotationReachable | stock_alert/core/cache_utils.py:56-67 | a directory holding only an empty active file larger than `max_file_size` reads as `{}` and needs a rotation, so the rotation path is reached by an ordinary save |
| CacheStore.CacheDir.GlobRotated | stock_alert/core/cache_utils.py:23-31 | the glob loop lists each rotated copy of the directory once, with its own number |
| CacheStore.CacheDir.RotatedFiles | stock_alert/core/cache_utils.py:23-33 | the listing holds every rotated copy once, highest number first |
| CacheStore.CacheDir.Prune | stock_alert/core/cache_utils.py:36-42 | after `rotate_cache_files` the directory is a prune outcome of what it was before |
| CacheStore.CacheDir.NextSequence | stock_alert/core/cache_utils.py:72 | `max_seq + 1` is one past the highest sequence number in use |
| CacheStore.CacheDir.Save | stock_alert/core/cache_utils.py:45-81 | with a directory as origin of the glob: a non-object existing document raises `TypeError` and changes nothing; otherwise the active file holds the merge of the existing document and `data`; a file no larger than `max_file_size` is overwritten in place; a larger one is renamed to the next sequence number and the copies are pruned; no other file changes |
| CacheStore.CacheDir.SaveAsWritten | stock_alert/core/cache_utils.py:14-31 | as written, any save that needs a rotation raises `AttributeError` before renaming, pruning or writing, because the directory is a `str` |
| LegacyCache.BackupName | stock_alert/store/cache.py:36 | `cache_data_<stamp>.json` is always taken by the backup glob and is not the active name |
| LegacyCache.ActiveNotBackup | stock_alert/store/cache.py:19-27 | the active file `cache_data.json` is never taken for a backup |
| LegacyCache.Renamed | stock_alert/store/cache.py:37 | after the rename the active name is gone, the new name holds the old active file, and every other file is as before |
| LegacyCache.PruneEstablishes | stock_alert/store/cache.py:19-21 | deleting the newest-first listing from `max_files - 1` on keeps only backups modified no earlier than any deleted one, and touches no other file |
| LegacyCache.PruneCount | stock_alert/store/cache.py:20 | after the prune at most `max_files - 1` backups remain, exactly `min(n, max_files - 1)` for `max_files >= 1` |
| LegacyCache.LegacyCacheDir.GlobBackups | stock_alert/store/cache.py:19 | the glob lists every backup once |
| LegacyCache.LegacyCacheDir.NewestFirst | stock_alert/store/cache.py:19 | the listing holds every backup once, newest modification time first |
| LegacyCache.LegacyCacheDir.Prune | stock_alert/store/cache.py:16-21 | after `rotate_cache_files` the directory is a prune outcome of what it was before |
| LegacyCache.LegacyCacheDir.Save | stock_alert/store/cache.py:30-41 | `cache_data.json` holds exactly `data`, whatever it held before; a small file is overwritten in place; a larger one is renamed first to `cache_data_<mtime>.json` and the backups are pruned |
| ConfigStore.LoadJson | stock_alert/core/file_utils.py:15-20 | a readable file gives its document; a missing or invalid one gives the default; the older helpers in stock_alert/store/files.py:18-23 have the same text (see "## Left out") |
| ConfigStore.SetKey | stock_alert/core/file_utils.py:50 | `config[key] = value` fails with `TypeError` exactly on a non-object; otherwise `key` has the new value and every other key keeps its own |
| ConfigStore.GetKey | stock_alert/core/file_utils.py:44 | `config.get` fails with `AttributeError` exactly on a non-object; otherwise it gives the stored value or the default |
| ConfigStore.UpperItems | stock_alert/core/file_utils.py:45 | upper-casing the list succeeds exactly when every item is a string, and then gives the items upper-cased in order |
| ConfigStore.WatchlistOfIff | stock_alert/core/file_utils.py:42-45 | `load_watchlist` gives the upper-cased items of a stored list, `[]` when the stored value is not a list, and fails only on a non-object config or a non-string item |
| ConfigStore.AlertsDefault | stock_alert/core/file_utils.py:30-34 | from a missing or unreadable file, `load_alerts` reads `{}` and `load_watchlist` reads `[]`; the older helpers in stock_alert/store/files.py:33-37 have the same text (see "## Left out") |
| ConfigStore.StoredIsUpper | stock_alert/core/file_utils.py:50 | every stored symbol is upper-case |
| ConfigStore.WatchlistAfterSave | stock_alert/core/file_utils.py:48-51 | after `save_watchlist(symbols)`, `load_watchlist()` returns the sorted, duplicate-free, upper-cased symbols; the older helpers in stock_alert/store/files.py:51-54 have the same text (see "## Left out") |
| ConfigStore.ResaveIsNoOp | stock_alert/core/file_utils.py:48-51 | saving what `load_watchlist` returns right after a save stores the same document again |
| ConfigStore.PayloadAlert | stock_alert/core/file_utils.py:68 | a payload that is not an object raises `TypeError`; an object decodes as `from_dict` |
| ConfigStore.AlertsFromDict | stock_alert/core/file_utils.py:65-69 | the loop succeeds exactly when every payload decodes, and then gives each key's decoded alert; a failure is the error of some payload that does not decode |
| ConfigStore.AlertsToDict | stock_alert/core/file_utils.py:72-73 | the result has the keys of the alerts map |
| ConfigStore.PayloadRoundTrip | stock_alert/core/file_utils.py:65-73 | the payload `alerts_to_dict` writes under a name decodes to that name's alert |
| ConfigStore.AlertsRoundTrip | stock_alert/core/file_utils.py:65-73 | `alerts_from_dict(alerts_to_dict(m))` succeeds with the keys of `m`, each mapped to the alert it had; the older helpers in stock_alert/store/files.py:68-76 have the same text (see "## Left out") |
| ConfigStore.ConfigDir.SaveJson | stock_alert/core/file_utils.py:23-27 | the target holds exactly `data`, the temporary file is gone, and no other file changes |
| ConfigStore.ConfigDir.SaveKey | stock_alert/core/file_utils.py:37-39 | a non-object config raises `TypeError` and writes nothing; otherwise only the given key changes |
| ConfigStore.ConfigDir.SaveWatchlist | stock_alert/core/file_utils.py:48-51 | the watchlist key becomes the sorted distinct upper-cased symbols, other keys keep their values, `load_watchlist` then returns that list, and no other file changes |
| ConfigStore.ConfigDir.SaveAlerts | stock_alert/core/file_utils.py:59-62 | the alerts key becomes the given map, every other key keeps its value, and no other file changes; the older helpers in stock_alert/store/files.py:62-65 have the same text (see "## Left out") |
| Runner.LastTs | stock_alert/core/runner.py:49 | `last_trigger_ts.get(key)` is no time for a missing key or `null`, the number or text stored otherwise; a section that is not an object has no `get` |
| Runner.LastRecord | stock_alert/core/runner.py:51-53 | the record handed to `should_trigger` is the last of the key's history, or none when the history is missing or empty; a history section that is not an object has no `get` |
| Runner.Appended | stock_alert/core/runner.py:66-68 | the key's history grows by exactly the record at its end, a new key starts a one-record list, other keys are unchanged, and a non-list entry has no `append` |
| Runner.CheckAlert | stock_alert/core/runner.py:44-68 | an alert without a quote is skipped; a trigger sets the key's time to the tick's timestamp and appends one record `{ts, alert.name, price}` |
| Runner.FiresIff | stock_alert/core/runner.py:49-57 | the alert fires exactly when `should_trigger` says so for the key's stored time and last record, and the history entry takes an `append` |
| Runner.EvaluateEvents | stock_alert/core/runner.py:44-78 | the loop only extends the events; each trigger saves both sections, then calls `on_alert` with the quote; every trigger records the tick's one timestamp; the last save holds the sections the loop ends with; no event means no change |
| Runner.SavesAccumulate | stock_alert/core/runner.py:57-76 | each save of a tick holds the timestamp and the history record of every trigger so far in the tick, its own and all earlier ones, because both sections accumulate across the loop and each save writes them whole |
| Runner.SaveSections | stock_alert/core/runner.py:69-76 | `save_to_cache` with both sections on a readable active file stores them merged into what it held (stock_alert/core/cache_utils.py:63-64), so every other top-level key keeps its value |
| Runner.SkipsUnquoted | stock_alert/core/runner.py:45-47 | an alert whose symbol has no quote changes nothing and adds no event |
| Runner.OtherKeysKept | stock_alert/core/runner.py:57-68 | trigger times and histories of keys the loop never reaches keep their value |
| Runner.Loaded | stock_alert/core/runner.py:24-32 | a missing cache file reads as `{}`, an invalid one raises `JSONDecodeError`, and a document that is not an object has no `get` |
| Runner.FetchQuotes | stock_alert/core/runner.py:34-39 | the quotes are exactly the provider's answers for the symbols it answers for; a failed fetch does not stop the others |
| Runner.Tick | stock_alert/core/runner.py:24-42 | a tick produces no event exactly when the active cache file does not load, and then raises that error; otherwise its first event is `on_tick` with the fetched quotes |
| Runner.RunCheck | stock_alert/core/runner.py:11-78 | one tick is `on_tick` with the fetched quotes followed by the alerts loop's events, as `Runner.Tick` gives them for the directory before it; without a trigger the directory is unchanged; after one, the active document is the one loaded with the last save's two sections merged in, so every other top-level key keeps its value |
| Runner.Pause | stock_alert/core/runner.py:109 | the sleep between two ticks is at least one second |
| Runner.RunLoop | stock_alert/core/runner.py:81-109 | an interval that does not parse raises `ValueError` before any tick and leaves the directory as it was; otherwise the run is `Runner.Looped` with a sleep of `max(1, seconds)`: `n >= 1` iterations give exactly `n` ticks and `n - 1` sleeps, alternating, with none after the last tick (the run has odd length, see `Runner.AlternatingLast`); `n <= 0` gives none; tick `j` is `run_check` at `clock(j)` on the directory the previous tick left, its events are what `Runner.Tick` gives there, every tick but the last raises nothing, and the loop raises exactly what the last tick raises |
| Runner.RunTicks | stock_alert/core/runner.py:94-109 | the loop after the interval is read makes a run that is `Runner.Looped` for the given sleep, from the directory it starts with to the one it leaves |
| Runner.AlternatingLast | stock_alert/core/runner.py:104-109 | a run of odd length ends with a tick, so `run_loop` never sleeps after its last tick |
| LegacyRunner.CheckAlert | stock_alert/engine/runner.py:43-52 | an alert without a quote is skipped; a trigger sets the name's time to the numeric `now` |
| LegacyRunner.FiresIff | stock_alert/engine/runner.py:48-51 | the alert fires exactly when `should_trigger` without a history record says so for the stored time |
| LegacyRunner.EvaluateEvents | stock_alert/engine/runner.py:43-55 | each trigger saves the trigger-time map and nothing else, then calls `on_alert`; the last save holds the map the loop ends with |
| LegacyRunner.OtherNamesKept | stock_alert/engine/runner.py:51-52 | trigger times of names the loop never reaches keep their value |
| LegacyRunner.Tick | stock_alert/engine/runner.py:24-41 | a tick produces no event exactly when the active cache file does not load, and then raises that error; otherwise its first event is `on_tick` with the fetched quotes |
| LegacyRunner.RunCheck | stock_alert/engine/runner.py:13-55 | one tick is `on_tick` followed by the alerts loop's events, as `LegacyRunner.Tick` gives them for the directory before it; without a trigger the directory is unchanged; after one, the active file holds exactly the last saved trigger-time map |
| LegacyRunner.RunLoop | stock_alert/engine/runner.py:58-86 | an interval that does not parse raises `ValueError` before any tick and leaves the directory as it was; otherwise the run is `LegacyRunner.Looped`: exactly `n` ticks and `n - 1` sleeps of `max(1, seconds)`, alternating, none after the last tick; tick `j` is this runner's `run_check` at `clock(j)` on the directory the previous tick left, its events are what `LegacyRunner.Tick` gives there, every tick but the last raises nothing, and the loop raises exactly what the last tick raises |
| LegacyRunner.RunTicks | stock_alert/engine/runner.py:71-86 | the loop after the interval is read makes a run that is `LegacyRunner.Looped` for the given sleep, from the directory it starts with to the one it leaves |
| Utils.SecondsFromInterval | stock_alert/common/utils.py:13-30 | every failure is a `ValueError` |
| Utils.UnitOf | stock_alert/common/utils.py:19-30 | the unit picked is a suffix of the normalised text |
| Utils.IntervalSeconds | stock_alert/common/utils.py:19-30 | a failure is a `ValueError` and never happens under `ms` |
| Utils.IntervalMillis | stock_alert/common/utils.py:19-23 | the `ms` branch always succeeds with at least one second |
| Utils.IntervalIgnoresCase | stock_alert/common/utils.py:18 | an upper-cased interval means the same |
| Utils.UnitOfRendered | stock_alert/common/utils.py:19-29 | a numeral followed by a unit suffix is read in that unit, so `ms` is never taken for `s` |
| Utils.IntervalOfNumeral | stock_alert/common/utils.py:18-30 | a numeral `x` followed by a unit gives `max(1, trunc(x/1000))` for `ms`, `trunc(x)` for `s` and for no suffix, `trunc(60x)` for `m` and `trunc(3600x)` for `h` |
| Utils.MillisAtLeastOne | stock_alert/common/utils.py:19-23 | whatever precedes `ms`, the result is at least one second |
| Utils.NoLowerBound | stock_alert/common/utils.py:24-30 | the other suffixes have no lower bound: a zero or negative number gives zero or fewer seconds |
| Utils.IntervalError | stock_alert/common/utils.py:19-30 | the only error is a number `float()` rejects outside the `ms` branch |
| Utils.SplitPair | stock_alert/common/utils.py:105 | `split('=', 1)` cuts at the first `=`; a line without `=` has no pair |
| Utils.LineValue | stock_alert/common/utils.py:102-107 | a line gives a value only when, stripped, it is `key=value` and not a comment |
| Utils.LineOfPair | stock_alert/common/utils.py:102-107 | a stripped `key=value` line gives its value for its own key |
| Utils.FirstLineDecides | stock_alert/common/utils.py:101-107 | the first line that gives a value for the key decides, whatever follows |
| Utils.NoLineNoValue | stock_alert/common/utils.py:108-118 | there is no value exactly when no line gives one |
| Utils.ReadCredential | stock_alert/common/utils.py:93-118 | a missing file gives none; otherwise the loop gives the value of the first line that names the key |
| Utils.NormalizeLines | stock_alert/common/utils.py:82-84 | the result is no longer than the input |
| Utils.NormalizeKeepsNonCr | stock_alert/common/utils.py:84 | the result holds every byte other than `\r` as often as the input does |
| Utils.NormalizeWithoutCrlf | stock_alert/common/utils.py:84 | bytes without `\r\n` are left as they are |
| Utils.NormalizeCrlfLines | stock_alert/common/utils.py:84 | normalising undoes writing every `\n` as `\r\n`, on every input |
| Utils.NormalizeNotIdempotent | stock_alert/common/utils.py:84 | `\r\r\n` becomes `\r\n`, so normalising twice differs from once |
| Text.StripIsMiddle | stock_alert/common/utils.py:18 | `strip()` removes only whitespace, and only at either end |
| Text.SortDistinctOfElems | stock_alert/core/file_utils.py:50 | `sorted(set(xs))` depends only on which strings occur in `xs` |
| Text.SortDistinctOfSorted | stock_alert/core/file_utils.py:50 | `sorted(set(xs))` of a strictly sorted list is that list |
| Ranked.SliceStartKeeps | stock_alert/core/cache_utils.py:41 | with `k >= 1` the slice `[k-1:]` leaves `min(n, k-1)` elements before it; with `k == 0` it is `[-1:]` |

## Left out

- Directory creation (`ensure_storage_dir`, `ensure_app_dir`, `get_cache_dir`'s `mkdir`), the atomicity of `os.replace`, file permissions and I/O errors other than a missing or invalid file: the file system is a map from name to content, size and modification time.
- JSON text: a file holds a parsed document or an unreadable text. The round trip of `json.dump`/`json.load`, `indent` and `sort_keys` is taken as given. `encodedSize` stands for the size of the written text.
- glob details beyond name matching: hidden files, directories that match the pattern, and the glob's own order. The listings are proved for any order.
- The rotation regex is built from the stem without `re.escape`. The model reads an unescaped stem literally, which differs only for stems holding regex metacharacters.
- Clocks and local time: `time.time` is the parameter `now` (and `clock(i)` in the run loop). `strftime` is `format`. `strptime(...).timestamp()` is `parseLocal`. `time.sleep` is a `Slept` step.
- Float text: the value part of an alert name is `repr(value)`. The backup stamp is `stampText`. The reason strings of `should_trigger` are tags, not text.
- IEEE-754 arithmetic: numbers are exact reals. Results such as a 4% move from 100 to 104 are exact only in the model.
- `\s`, `isspace()` and `strip()` use Python's Unicode whitespace set (`Text.IsSpace`). Digits and case are ASCII only, where Python works on Unicode: `\d` in the condition patterns and `float()` (`Numerals.ParseFloat`) read ASCII digits only, while Python reads any Unicode decimal digit (`seconds_from_interval("٥s")` is 5 in Python and a `ValueError` here); `lower()`, `upper()` and `re.IGNORECASE` change ASCII letters only. `float()` is modelled on decimal text without exponent, `inf`, `nan` or underscores.
- Alerts.FromDict: a symbol that is not text, or a value or cooldown that is not a number, is `ShapeNotModelled`. Python would build an odd alert or fail later. A numeric cooldown that is not a whole number (`300.5`) is also `ShapeNotModelled`, because the model's cooldown is an integer; Python stores it as it is and compares `now - last < 300.5`. A threshold is a JSON number read as a real, so the name's value text is `repr` of that real: a threshold stored as the integer `5` is named as Python names the float `5.0`, while Python's `from_dict` keeps the integer and writes `5`.
- Runner.LastRecord: a history entry of an unexpected JSON shape ends the tick with `ShapeNotModelled`. Python does not always stop there. A truthy entry that is not a list, such as `{"x": 1}`, raises `KeyError` at `last_records[-1]`. A list whose last item is truthy but not an object, such as a string, is passed on to `should_trigger` as the record.
- `run_loop` with `iterations=None` runs forever and is not modelled. The loop is modelled for every integer count.
- Runner.RunCheck: the tick persists each trigger through the corrected save, `CacheStore.CacheDir.Save`. As written, `save_to_cache` raises `AttributeError` whenever the active cache file is larger than `max_file_size` (see Findings). That exception would leave `run_check` and `run_loop` after the first such trigger. The runner model does not propagate it, so its claims about the active document after a tick are about the corrected save.
- LegacyRunner.CheckAlert: `stock_alert/engine/runner.py` imports `Alert` from `stock_alert/core`; `stock_alert/core/__init__.py` is not part of this model. The model takes it to be the five-kind class of `stock_alert/common/models.py`, whose `should_trigger` accepts the three-argument call at line 49. The alternative is the three-kind class of `stock_alert/core/models.py`, which `stock_alert/cli.py` builds with a `name` and `cooldown_sec`. Its `should_trigger` takes only `q` and `now_ts`, so that call would raise `TypeError` on every alert with a quote.
- `sorted(symbols)` in the fetch loop is taken without duplicates. The provider is a function, so fetching a symbol twice gives the same quote map.
- `on_tick` and `on_alert` are recorded as events, not called. What they do is not part of this model. Log output, `argparse` and `sys.exit` are also not modelled.
- ConfigStore.AlertsFromDict: when several payloads fail, which error is reported depends on the dictionary's order. The contract names some failing payload, not the first in insertion order.
- `read_value_from_credential_file` with `exit_on_error`: a read error ends the process, and that path is not modelled (the file is given as its lines).
- `CacheConfig.from_dict`: the field-name constants it reads are not defined in `stock_alert/common/constants.py`, so the record is taken as built.
- `stock_alert/store/cache.py` imports `CacheConfig` from `core/models.py`, which does not define it. The model gives it the same four fields.
- The kind keywords: `stock_alert/common/constants.py` defines only `price`, `pct_day` and `volume` as kind keywords. The five-kind model uses the lower-cased member names (`price_value`, …, `price_percent_offset_since_last_alert`).
- The config keys `alerts` and `watchlist` (`ConfigStore.AlertsKey`, `ConfigStore.WatchlistKey`): their constants `ALERT_FIELD_ALERTS` and `ALERT_FIELD_WATCHLIST` are not defined in `stock_alert/common/constants.py`, so the key texts are chosen to match the constant names.
- `stock_alert/store/files.py` is modelled as if those two names and a five-kind `Alert` resolved. As written, it takes both constants from `stock_alert/common/constants.py`, so `load_config` and every helper that calls it raise `NameError`. `stock_alert/store/__init__.py` imports `get_app_dir`, which `files.py` does not define, so importing the package raises `ImportError`. `files.py` takes `Alert` from `stock_alert/core`; with the class of `stock_alert/core/models.py`, which has no `from_dict` or `to_dict`, `alerts_from_dict` and `alerts_to_dict` raise `AttributeError`. The model rows that cite `files.py` claim only that its text matches `stock_alert/core/file_utils.py`.
- The cache section names `last_alerts_trigger_ts` and `alerts_history` and the record fields `trigger_ts`, `name` and `alert_last_price` stand for `CACHE_FIELD_LAST_ALERTS_TRIGGER_TS`, `CACHE_FIELD_ALERTS_HISTORY`, `ALERT_RECORD_FIELD_TRIGGER_TS`, `ALERT_RECORD_FIELD_NAME` and `CACHE_FIELD_ALERT_LAST_PRICE`, which `stock_alert/common/constants.py` does not define. Each text is its constant's name, lower-cased, without the `CACHE_FIELD_` or `ALERT_RECORD_FIELD_` prefix. The model uses only that the two section names differ and the three record fields differ, so any such texts behave the same.
- The unreachable `Unsupported alert kind` and `Unsupported operator` branches of both `should_trigger` variants: the kind and operator types have no other members.
- `max_files == 0` is not excluded by a precondition. The model follows Python's slice `[-1:]`, and `CacheStore.PruneCount` states what that deletes.
- The data providers, the CLI entry points and the `LOG`, `run_shell`, `md5sum` and notification helpers: HTTP, randomness, subprocesses and printing. A provider is a function `symbol -> Option<Quote>`.
- Concurrent writers to the cache or config directory.

## Findings

| source | as written | input that shows it | evidently intended | confidence | as-written member | corrected member |
|---|---|---|---|---|---|---|
| stock_alert/core/cache_utils.py:16 | `_get_cache_file_components` returns `config.directory`, a `str` (built by `CacheConfig.from_dict`), and `_get_rotated_files` calls `.glob` on it at line 28 | any `save_to_cache` where the active file exists and is larger than `max_file_size`: it raises `AttributeError` before renaming, pruning or writing, so the data is never saved | the directory as a `Path`, so rotation renames the active file, prunes the copies and writes the merged document | not executed | CacheStore.CacheDir.SaveAsWritten | CacheStore.CacheDir.Save |
