/** The older, non-merging cache store of `stock_alert/store/cache.py`: the
    active file is always `cache_data.json`, a save replaces its content
    with `data`, and an oversized active file is renamed after its own
    modification time before the oldest backups are deleted. */
module LegacyCache {
  import opened Base
  import opened Json
  import opened Text
  import opened Ranked

  /** `get_latest_cache_file(config)`: the same name whatever `config.file_name` is. */
  const ActiveName := "cache_data.json"

  const BackupPrefix := "cache_data_"

  const BackupSuffix := ".json"

  /** `cache_dir.glob("cache_data_*.json")` selects the name: the `*` may be empty. */
  predicate IsBackup(name: string)
  {
    |name| >= |BackupPrefix| + |BackupSuffix| && StartsWith(name, BackupPrefix) && EndsWith(name, BackupSuffix)
  }

  /** `f"cache_data_{timestamp}.json"`: always selected by the glob. */
  function BackupName(stamp: string): (r: string)
    ensures IsBackup(r) && r != ActiveName
  {
    var r := BackupPrefix + stamp + BackupSuffix;
    assert r[..|BackupPrefix|] == BackupPrefix;
    assert r[|r| - |BackupSuffix|..] == BackupSuffix;
    assert r[10] == '_' && ActiveName[10] == '.';
    r
  }

  /** The active file is never taken for a backup. */
  lemma {:induction false} ActiveNotBackup()
    ensures !IsBackup(ActiveName)
  {
    assert ActiveName[..|BackupPrefix|] != BackupPrefix by {
      assert ActiveName[..|BackupPrefix|][10] == '.';
    }
  }

  /** The backups among `files`. */
  ghost function Backups(files: map<string, File>): set<string>
  {
    set n | n in files && IsBackup(n)
  }

  /** `os.path.getmtime` as a sort key. */
  function MTimeKey(files: map<string, File>): string -> real
  {
    n => if n in files then files[n].mtime else 0.0
  }

  /** The state of the glob loop: `found` lists every backup already visited, once. */
  ghost predicate Globbed(files: map<string, File>, found: seq<string>, todo: set<string>)
  {
    && todo <= files.Keys
    && Distinct(found)
    && Elems(found) == set n | n in files && n !in todo && IsBackup(n)
  }

  lemma {:induction false} GlobStep(files: map<string, File>, found: seq<string>, todo: set<string>, n: string)
    requires Globbed(files, found, todo) && n in todo
    ensures Globbed(files, if IsBackup(n) then found + [n] else found, todo - {n})
  {
    var found' := if IsBackup(n) then found + [n] else found;
    assert n !in Elems(found);
    if IsBackup(n) {
      forall i, j | 0 <= i < j < |found'| ensures found'[i] != found'[j] {
        if j == |found| {
          assert found'[i] == found[i] && found[i] in Elems(found);
        } else {
          assert found'[i] == found[i] && found'[j] == found[j];
        }
      }
      assert Elems(found') == Elems(found) + {n};
    }
  }

  /** Distinct elements are as many as the sequence is long. */
  lemma {:induction false} DistinctCard(xs: seq<string>)
    requires Distinct(xs)
    ensures |Elems(xs)| == |xs|
  {
    if |xs| > 0 {
      var init := xs[..|xs| - 1];
      assert Distinct(init) by {
        forall i, j | 0 <= i < j < |init| ensures init[i] != init[j] {
          assert init[i] == xs[i] && init[j] == xs[j];
        }
      }
      DistinctCard(init);
      assert xs == init + [xs[|xs| - 1]];
      assert Elems(xs) == Elems(init) + {xs[|xs| - 1]};
      assert xs[|xs| - 1] !in Elems(init) by {
        forall i | 0 <= i < |init| ensures init[i] != xs[|xs| - 1] {
          assert init[i] == xs[i];
        }
      }
    }
  }

  /** Sorting keeps the elements and their distinctness. */
  lemma {:induction false} SortedElems(xs: seq<string>, key: string -> real)
    requires Distinct(xs)
    ensures Distinct(SortDescending(xs, key)) && Elems(SortDescending(xs, key)) == Elems(xs)
  {
    var r := SortDescending(xs, key);
    SortKeepsDistinct(xs, key);
    forall x ensures x in Elems(r) <==> x in Elems(xs) {
      assert x in r <==> x in multiset(r);
      assert x in xs <==> x in multiset(xs);
    }
  }

  /** The elements before and from `start` split the elements of a
      sequence without repetitions. */
  lemma {:induction false} SplitElems(xs: seq<string>, start: nat)
    requires Distinct(xs) && start <= |xs|
    ensures Elems(xs) == Elems(xs[..start]) + Elems(xs[start..])
    ensures Elems(xs[..start]) !! Elems(xs[start..])
    ensures Distinct(xs[..start])
  {
    assert xs == xs[..start] + xs[start..];
    forall x | x in Elems(xs[..start]) ensures x !in Elems(xs[start..]) {
      var i :| 0 <= i < start && xs[..start][i] == x;
      forall j | 0 <= j < |xs| - start ensures xs[start..][j] != x {
        assert xs[start..][j] == xs[start + j] && xs[..start][i] == xs[i];
      }
    }
    forall i, j | 0 <= i < j < start ensures xs[..start][i] != xs[..start][j] {
      assert xs[..start][i] == xs[i] && xs[..start][j] == xs[j];
    }
  }

  /** What `rotate_cache_files` leaves: it only deletes, only backups, as
      many as the slice `[max_files - 1:]` selects, and never one modified
      later than a backup it keeps. */
  ghost predicate PruneOutcome(maxFiles: int, before: map<string, File>, after: map<string, File>)
  {
    var r, k := Backups(before), Backups(after);
    && after.Keys <= before.Keys
    && (forall n :: n in after ==> after[n] == before[n])
    && (forall n :: n in before && !IsBackup(n) ==> n in after)
    && |k| == SliceStart(|r|, maxFiles - 1)
    && (forall x, d :: x in k && d in r - k ==> before[x].mtime >= before[d].mtime)
  }

  lemma {:induction false} KeptAfterDelete(before: map<string, File>, kept: set<string>, gone: set<string>)
    requires Backups(before) == kept + gone && kept !! gone
    ensures Backups(before - gone) == kept
  {
  }

  /** Names before `start` in the newest-first listing were modified no
      earlier than those after. */
  lemma {:induction false} KeptIsNewer(before: map<string, File>, ranked: seq<string>, start: nat, x: string, d: string)
    requires Descending(ranked, MTimeKey(before)) && start <= |ranked|
    requires x in Elems(ranked[..start]) && d in Elems(ranked[start..])
    requires x in before && d in before
    ensures before[x].mtime >= before[d].mtime
  {
    var i :| 0 <= i < start && ranked[..start][i] == x;
    var j :| 0 <= j < |ranked| - start && ranked[start..][j] == d;
    assert ranked[i] == x && ranked[start + j] == d;
    assert MTimeKey(before)(ranked[i]) >= MTimeKey(before)(ranked[start + j]);
  }

  /** Deleting the names listed from `start` on leaves a prune outcome. */
  lemma {:induction false} PruneEstablishes(maxFiles: int, before: map<string, File>, ranked: seq<string>, start: nat)
    requires Distinct(ranked) && Elems(ranked) == Backups(before) && Descending(ranked, MTimeKey(before))
    requires start == SliceStart(|ranked|, maxFiles - 1)
    ensures PruneOutcome(maxFiles, before, before - Elems(ranked[start..]))
  {
    var kept, gone := Elems(ranked[..start]), Elems(ranked[start..]);
    SplitElems(ranked, start);
    KeptAfterDelete(before, kept, gone);
    DistinctCard(ranked[..start]);
    DistinctCard(ranked);
    forall x, d | x in kept && d in Backups(before) - kept
      ensures before[x].mtime >= before[d].mtime
    {
      KeptIsNewer(before, ranked, start, x, d);
    }
    assert forall n :: n in before && !IsBackup(n) ==> n !in gone;
  }

  lemma {:induction false} ElemsExtend(xs: seq<string>, lo: nat, i: nat)
    requires lo <= i < |xs|
    ensures Elems(xs[lo..i + 1]) == Elems(xs[lo..i]) + {xs[i]}
  {
    assert xs[lo..i + 1] == xs[lo..i] + [xs[i]];
  }

  lemma {:induction false} RemoveOneMore(m: map<string, File>, gone: set<string>, n: string)
    ensures (m - gone) - {n} == m - (gone + {n})
  {
  }

  /** With `max_files >= 1` at most `max_files - 1` backups remain, and
      exactly `min(n, max_files - 1)`; with `max_files == 0` only the oldest
      backup is deleted. */
  lemma {:induction false} PruneCount(maxFiles: int, before: map<string, File>, after: map<string, File>)
    requires PruneOutcome(maxFiles, before, after)
    ensures var n, k := |Backups(before)|, |Backups(after)|;
            && (maxFiles >= 1 ==> k == (if n < maxFiles - 1 then n else maxFiles - 1))
            && (maxFiles >= 1 ==> k + 1 <= maxFiles)
            && (maxFiles == 0 && n >= 1 ==> k == n - 1)
  {
    SliceStartKeeps(|Backups(before)|, maxFiles);
  }

  /** The active file exists and is larger than `max_file_size` bytes. */
  predicate NeedsRotation(maxFileSize: int, files: map<string, File>)
  {
    ActiveName in files && files[ActiveName].size > maxFileSize
  }

  /** The directory once the active file has been renamed to `name`; a file
      already called `name` is replaced, as `Path.rename` does on POSIX. */
  function Renamed(files: map<string, File>, name: string): (r: map<string, File>)
    requires ActiveName in files && name != ActiveName
    ensures ActiveName !in r && name in r && r[name] == files[ActiveName]
    ensures forall n :: n in files && n != ActiveName && n != name ==> n in r && r[n] == files[n]
    ensures r.Keys == files.Keys - {ActiveName} + {name}
  {
    (files - {ActiveName})[name := files[ActiveName]]
  }

  lemma {:induction false} WriteAfterPrune(maxFiles: int, mid: map<string, File>, pruned: map<string, File>, written: File)
    requires ActiveName !in mid && PruneOutcome(maxFiles, mid, pruned)
    ensures PruneOutcome(maxFiles, mid, pruned[ActiveName := written] - {ActiveName})
  {
    assert pruned[ActiveName := written] - {ActiveName} == pruned;
  }

  /** The cache directory of `store/cache.py`.  `encodedSize` gives the size
      of `json.dump(data, f, indent=2)` and `stampText` the text of
      `f"{timestamp}"` for a modification time. */
  class LegacyCacheDir {
    const maxFiles: int
    const maxFileSize: int
    const encodedSize: Json -> nat
    const stampText: real -> string
    var files: map<string, File>

    constructor(maxFiles: int, maxFileSize: int, initial: map<string, File>,
                encodedSize: Json -> nat, stampText: real -> string)
      ensures this.maxFiles == maxFiles && this.maxFileSize == maxFileSize && files == initial
      ensures this.encodedSize == encodedSize && this.stampText == stampText
    {
      this.maxFiles := maxFiles;
      this.maxFileSize := maxFileSize;
      this.encodedSize := encodedSize;
      this.stampText := stampText;
      files := initial;
    }

    /** `cache_dir.glob("cache_data_*.json")`: every backup once, in the
        glob's arbitrary order. */
    method GlobBackups() returns (found: seq<string>)
      ensures Distinct(found) && Elems(found) == Backups(files)
    {
      found := [];
      var todo := files.Keys;
      while todo != {}
        invariant Globbed(files, found, todo)
        decreases |todo|
      {
        var n :| n in todo;
        GlobStep(files, found, todo, n);
        if IsBackup(n) {
          found := found + [n];
        }
        todo := todo - {n};
      }
    }

    /** The list `rotate_cache_files` prunes: the backups sorted by
        modification time, newest first; among equal times the glob's order. */
    method NewestFirst() returns (ranked: seq<string>)
      ensures Distinct(ranked) && Elems(ranked) == Backups(files)
      ensures Descending(ranked, MTimeKey(files))
    {
      var found := GlobBackups();
      ranked := SortDescending(found, MTimeKey(files));
      SortedElems(found, MTimeKey(files));
    }

    /** `rotate_cache_files(config)`: unlinks every entry of the newest-first
        listing from position `max_files - 1` on. */
    method Prune()
      modifies this
      ensures PruneOutcome(maxFiles, old(files), files)
    {
      var ranked := NewestFirst();
      var start := SliceStart(|ranked|, maxFiles - 1);
      var remaining := files;
      var i := start;
      assert Elems(ranked[start..i]) == {};
      assert remaining == files - {};
      while i < |ranked|
        invariant start <= i <= |ranked|
        invariant files == old(files)
        invariant remaining == files - Elems(ranked[start..i])
      {
        var name := ranked[i];
        ElemsExtend(ranked, start, i);
        RemoveOneMore(files, Elems(ranked[start..i]), name);
        remaining := remaining - {name};
        assert remaining == files - Elems(ranked[start..i + 1]);
        i := i + 1;
      }
      assert ranked[start..|ranked|] == ranked[start..];
      PruneEstablishes(maxFiles, files, ranked, start);
      files := remaining;
    }

    /** `save_to_cache(config, data)`: when the active file is over
        `max_file_size` it is renamed to `cache_data_<mtime>.json` and the
        backups are pruned; then `data` alone is written to the active file,
        so keys the file held and `data` lacks are gone. */
    method Save(data: Document, now: real)
      modifies this
      ensures ActiveName in files && files[ActiveName] == File(Parsed(JObj(data)), encodedSize(JObj(data)), now)
      ensures !NeedsRotation(maxFileSize, old(files)) ==> files == old(files)[ActiveName := files[ActiveName]]
      ensures NeedsRotation(maxFileSize, old(files)) ==>
                var mid := Renamed(old(files), BackupName(stampText(old(files)[ActiveName].mtime)));
                PruneOutcome(maxFiles, mid, files - {ActiveName})
    {
      var written := File(Parsed(JObj(data)), encodedSize(JObj(data)), now);
      if NeedsRotation(maxFileSize, files) {
        var timestamp := files[ActiveName].mtime;
        files := Renamed(files, BackupName(stampText(timestamp)));
        ghost var mid := files;
        Prune();
        WriteAfterPrune(maxFiles, mid, files, written);
      }
      files := files[ActiveName := written];
    }
  }
}
