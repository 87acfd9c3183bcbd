/** The merging cache store of `stock_alert/core/cache_utils.py`: one
    directory holding the active cache file `config.file_name` and rotated
    copies named `{stem}.{N}{ext}`. */
module CacheStore {
  import opened Base
  import opened Json
  import opened Text
  import opened Numerals
  import opened Ranked
  import Alerts

  /** `name.rfind('.')` */
  function LastDot(name: string): (r: int)
    ensures -1 <= r < |name|
    ensures r >= 0 ==> name[r] == '.' && forall j :: r < j < |name| ==> name[j] != '.'
    ensures r == -1 ==> forall j :: 0 <= j < |name| ==> name[j] != '.'
  {
    if |name| == 0 then -1
    else if name[|name| - 1] == '.' then |name| - 1
    else LastDot(name[..|name| - 1])
  }

  /** `Path(name).suffix`: from the last dot on, unless that dot is the first
      or the last character. */
  function Suffix(name: string): string
  {
    var i := LastDot(name);
    if 0 < i < |name| - 1 then name[i..] else ""
  }

  /** `Path(name).stem` */
  function Stem(name: string): string
  {
    var i := LastDot(name);
    if 0 < i < |name| - 1 then name[..i] else name
  }

  /** The name is its stem followed by its suffix, and a suffix starts with a dot. */
  lemma {:induction false} StemSuffix(name: string)
    ensures Stem(name) + Suffix(name) == name
    ensures Suffix(name) == "" || Suffix(name)[0] == '.'
  {
    var i := LastDot(name);
    if 0 < i < |name| - 1 {
      assert name[..i] + name[i..] == name;
    }
  }

  /** `cache_dir.glob(f"{stem}.*{ext}")` selects the name. */
  predicate GlobMatches(name: string, stem: string, ext: string)
  {
    |name| >= |stem| + 1 + |ext| && StartsWith(name, stem + ".") && EndsWith(name, ext)
  }

  /** Group 1 of `re.match(f"{stem}\\.(\\d+){ext}", name)`, as a number: the
      match is anchored at the start only.  `ext` is empty or starts with a
      dot, so the greedy digit run never has to give digits back. */
  function PatternSeq(name: string, stem: string, ext: string): Option<nat>
  {
    if StartsWith(name, stem + ".") then
      var rest := name[|stem| + 1..];
      var k := LeadingDigits(rest);
      if k > 0 && StartsWith(rest[k..], ext) then Some(WholeValue(rest[..k])) else None
    else None
  }

  /** The sequence number of a rotated copy of `fileName`, if `name` is one. */
  function RotatedSeq(fileName: string, name: string): Option<nat>
  {
    var stem, ext := Stem(fileName), Suffix(fileName);
    if GlobMatches(name, stem, ext) then PatternSeq(name, stem, ext) else None
  }

  /** `f"{stem}.{n}{ext}"` */
  function RotatedName(fileName: string, n: nat): string
  {
    Stem(fileName) + "." + Decimal(n) + Suffix(fileName)
  }

  /** A rotated name carries its own sequence number. */
  lemma {:induction false} RotatedNameSeq(fileName: string, n: nat)
    ensures RotatedSeq(fileName, RotatedName(fileName, n)) == Some(n)
  {
    var stem, ext := Stem(fileName), Suffix(fileName);
    var d := Decimal(n);
    StemSuffix(fileName);
    assert RotatedName(fileName, n) == (stem + ".") + (d + ext);
    GlobOfRotated(RotatedName(fileName, n), stem, d, ext);
    PatternOfRotated(RotatedName(fileName, n), stem, d, ext);
  }

  lemma {:induction false} GlobOfRotated(name: string, stem: string, d: string, ext: string)
    requires name == (stem + ".") + (d + ext) && |d| > 0
    ensures GlobMatches(name, stem, ext)
  {
    assert name[..|stem| + 1] == stem + ".";
    assert name[|name| - |ext|..] == ext;
  }

  lemma {:induction false} PatternOfRotated(name: string, stem: string, d: string, ext: string)
    requires name == (stem + ".") + (d + ext) && |d| > 0 && AllDigits(d)
    requires ext == "" || ext[0] == '.'
    ensures PatternSeq(name, stem, ext) == Some(WholeValue(d))
  {
    assert name[..|stem| + 1] == stem + ".";
    var rest := name[|stem| + 1..];
    assert rest == d + ext;
    LeadingDigitsOfDigits(d, ext);
    assert rest[..|d|] == d && rest[|d|..] == ext;
  }

  /** The active file is never taken for a rotated copy. */
  lemma {:induction false} ActiveNotRotated(fileName: string)
    ensures RotatedSeq(fileName, fileName) == None
  {
    StemSuffix(fileName);
  }

  /** An entry of `_get_rotated_files`: a sequence number and the file's name. */
  datatype RotatedFile = RotatedFile(number: nat, name: string)

  function NumberKey(e: RotatedFile): real
  {
    e.number as real
  }

  /** Every entry is a rotated copy in `files`, with its own number. */
  ghost predicate Lists(fileName: string, files: map<string, File>, es: seq<RotatedFile>)
  {
    forall i :: 0 <= i < |es| ==> es[i].name in files && RotatedSeq(fileName, es[i].name) == Some(es[i].number)
  }

  /** The names of the entries. */
  ghost function NamesOf(es: seq<RotatedFile>): set<string>
  {
    if |es| == 0 then {} else NamesOf(es[..|es| - 1]) + {es[|es| - 1].name}
  }

  lemma {:induction false} InNamesOf(es: seq<RotatedFile>, n: string)
    ensures n in NamesOf(es) <==> exists i :: 0 <= i < |es| && es[i].name == n
  {
    if |es| > 0 {
      var init := es[..|es| - 1];
      InNamesOf(init, n);
      if n in NamesOf(init) {
        var i :| 0 <= i < |init| && init[i].name == n;
        assert es[i] == init[i];
      }
      if exists i :: 0 <= i < |es| && es[i].name == n {
        var i :| 0 <= i < |es| && es[i].name == n;
        if i < |init| { assert init[i] == es[i]; }
      }
    }
  }

  ghost predicate DistinctNames(es: seq<RotatedFile>)
  {
    forall i, j :: 0 <= i < j < |es| ==> es[i].name != es[j].name
  }

  lemma {:induction false} AppendFresh(fileName: string, files: map<string, File>, es: seq<RotatedFile>, e: RotatedFile)
    requires Lists(fileName, files, es) && Distinct(es)
    requires e.name in files && RotatedSeq(fileName, e.name) == Some(e.number)
    requires e.name !in NamesOf(es)
    ensures Lists(fileName, files, es + [e]) && Distinct(es + [e])
    ensures NamesOf(es + [e]) == NamesOf(es) + {e.name}
  {
    AppendLists(fileName, files, es, e);
    AppendDistinct(es, e);
    assert (es + [e])[..|es|] == es;
  }

  lemma {:induction false} AppendLists(fileName: string, files: map<string, File>, es: seq<RotatedFile>, e: RotatedFile)
    requires Lists(fileName, files, es)
    requires e.name in files && RotatedSeq(fileName, e.name) == Some(e.number)
    ensures Lists(fileName, files, es + [e])
  {
    var es' := es + [e];
    forall i | 0 <= i < |es'| ensures es'[i].name in files && RotatedSeq(fileName, es'[i].name) == Some(es'[i].number) {
      if i < |es| { assert es'[i] == es[i]; } else { assert es'[i] == e; }
    }
  }

  lemma {:induction false} AppendDistinct(es: seq<RotatedFile>, e: RotatedFile)
    requires Distinct(es) && e.name !in NamesOf(es)
    ensures Distinct(es + [e])
  {
    var es' := es + [e];
    InNamesOf(es, e.name);
    forall i, j | 0 <= i < j < |es'| ensures es'[i] != es'[j] {
      assert es'[i] == es[i];
      if j < |es| {
        assert es'[j] == es[j];
      } else {
        assert es'[j] == e;
      }
    }
  }

  /** What the glob loop has collected once the names outside `todo` are done. */
  ghost predicate Collected(fileName: string, files: map<string, File>, found: seq<RotatedFile>, todo: set<string>)
  {
    && todo <= files.Keys
    && Lists(fileName, files, found) && Distinct(found)
    && NamesOf(found) == RotatedIn(fileName, files) - todo
  }

  /** One turn of the glob loop. */
  function GlobStep(fileName: string, found: seq<RotatedFile>, n: string): seq<RotatedFile>
  {
    match RotatedSeq(fileName, n)
    case Some(k) => found + [RotatedFile(k, n)]
    case None => found
  }

  lemma {:induction false} CollectStep(fileName: string, files: map<string, File>, found: seq<RotatedFile>, todo: set<string>, n: string)
    requires Collected(fileName, files, found, todo) && n in todo
    ensures Collected(fileName, files, GlobStep(fileName, found, n), todo - {n})
  {
    var r := RotatedIn(fileName, files);
    RemoveFromTodo(r, todo, n);
    if RotatedSeq(fileName, n).Some? {
      assert n in r;
      CollectMatch(fileName, files, found, todo, n);
    } else {
      assert n !in r;
    }
  }

  lemma {:induction false} RemoveFromTodo(r: set<string>, todo: set<string>, n: string)
    requires n in todo
    ensures n in r ==> r - (todo - {n}) == (r - todo) + {n}
    ensures n !in r ==> r - (todo - {n}) == r - todo
  {
  }

  lemma {:induction false} CollectMatch(fileName: string, files: map<string, File>, found: seq<RotatedFile>, todo: set<string>, n: string)
    requires Collected(fileName, files, found, todo) && n in todo && RotatedSeq(fileName, n).Some?
    ensures var e := RotatedFile(RotatedSeq(fileName, n).value, n);
            Lists(fileName, files, found + [e]) && Distinct(found + [e]) && NamesOf(found + [e]) == NamesOf(found) + {n}
  {
    AppendFresh(fileName, files, found, RotatedFile(RotatedSeq(fileName, n).value, n));
  }

  lemma {:induction false} SortedLists(fileName: string, files: map<string, File>, found: seq<RotatedFile>)
    requires Lists(fileName, files, found)
    ensures Lists(fileName, files, SortDescending(found, NumberKey))
  {
    var r := SortDescending(found, NumberKey);
    forall i | 0 <= i < |r| ensures r[i].name in files && RotatedSeq(fileName, r[i].name) == Some(r[i].number) {
      assert r[i] in multiset(found);
    }
  }

  lemma {:induction false} SortedNames(found: seq<RotatedFile>)
    ensures NamesOf(SortDescending(found, NumberKey)) == NamesOf(found)
  {
    var r := SortDescending(found, NumberKey);
    forall n ensures n in NamesOf(r) <==> n in NamesOf(found) {
      InNamesOf(r, n);
      InNamesOf(found, n);
      if n in NamesOf(found) {
        var i :| 0 <= i < |found| && found[i].name == n;
        assert found[i] in multiset(r);
      }
      if n in NamesOf(r) {
        var i :| 0 <= i < |r| && r[i].name == n;
        assert r[i] in multiset(found);
      }
    }
  }

  /** Entries that agree with their names' numbers and are distinct have distinct names. */
  lemma {:induction false} ListedDistinctNames(fileName: string, files: map<string, File>, es: seq<RotatedFile>)
    requires Lists(fileName, files, es) && Distinct(es)
    ensures DistinctNames(es)
  {
  }

  /** The rotated copies among `files`. */
  ghost function RotatedIn(fileName: string, files: map<string, File>): set<string>
  {
    set n | n in files && RotatedSeq(fileName, n).Some?
  }

  lemma {:induction false} NamesOfConcat(a: seq<RotatedFile>, b: seq<RotatedFile>)
    ensures NamesOf(a + b) == NamesOf(a) + NamesOf(b)
  {
    if |b| > 0 {
      var b' := b[..|b| - 1];
      assert (a + b)[..|a + b| - 1] == a + b';
      NamesOfConcat(a, b');
    } else {
      assert a + b == a;
    }
  }

  lemma {:induction false} NamesOfCard(es: seq<RotatedFile>)
    requires DistinctNames(es)
    ensures |NamesOf(es)| == |es|
  {
    if |es| > 0 {
      var init := es[..|es| - 1];
      assert DistinctNames(init) by {
        forall i, j | 0 <= i < j < |init| ensures init[i].name != init[j].name {
          assert init[i] == es[i] && init[j] == es[j];
        }
      }
      NamesOfCard(init);
      InNamesOf(init, es[|es| - 1].name);
      assert es[|es| - 1].name !in NamesOf(init) by {
        forall i | 0 <= i < |init| ensures init[i].name != es[|es| - 1].name {
          assert init[i] == es[i];
        }
      }
    }
  }

  /** What `rotate_cache_files` leaves: it only deletes, only rotated copies,
      as many as the slice `[max_files - 1:]` selects, and never one numbered
      higher than a copy it keeps. */
  ghost predicate PruneOutcome(fileName: string, maxFiles: int, before: map<string, File>, after: map<string, File>)
  {
    var r, k := RotatedIn(fileName, before), RotatedIn(fileName, after);
    && after.Keys <= before.Keys
    && (forall n :: n in after ==> after[n] == before[n])
    && (forall n :: n in before && RotatedSeq(fileName, n).None? ==> n in after)
    && |k| == SliceStart(|r|, maxFiles - 1)
    && (forall x, d :: x in k && d in r - k ==> RotatedSeq(fileName, x).value >= RotatedSeq(fileName, d).value)
  }

  lemma {:induction false} DistinctSlice(es: seq<RotatedFile>, lo: nat, hi: nat)
    requires DistinctNames(es) && lo <= hi <= |es|
    ensures DistinctNames(es[lo..hi])
  {
    forall i, j | 0 <= i < j < hi - lo ensures es[lo..hi][i].name != es[lo..hi][j].name {
      assert es[lo..hi][i] == es[lo + i] && es[lo..hi][j] == es[lo + j];
    }
  }

  /** The names before and from `start` split the names of a listing with
      distinct names. */
  lemma {:induction false} SplitNames(es: seq<RotatedFile>, start: nat)
    requires DistinctNames(es) && start <= |es|
    ensures NamesOf(es) == NamesOf(es[..start]) + NamesOf(es[start..])
    ensures NamesOf(es[..start]) !! NamesOf(es[start..])
  {
    assert es == es[..start] + es[start..];
    NamesOfConcat(es[..start], es[start..]);
    forall n | n in NamesOf(es[..start]) ensures n !in NamesOf(es[start..]) {
      InNamesOf(es[..start], n);
      InNamesOf(es[start..], n);
      var i :| 0 <= i < start && es[..start][i].name == n;
      forall j | 0 <= j < |es| - start ensures es[start..][j].name != n {
        assert es[start..][j] == es[start + j] && es[..start][i] == es[i];
      }
    }
  }

  /** Deleting the later names of a listing of every rotated copy leaves
      exactly the earlier ones. */
  lemma {:induction false} KeptAfterDelete(fileName: string, before: map<string, File>, kept: set<string>, gone: set<string>)
    requires RotatedIn(fileName, before) == kept + gone && kept !! gone
    ensures RotatedIn(fileName, before - gone) == kept
  {
  }

  /** Entries before `start` are numbered at least as high as those after. */
  lemma {:induction false} KeptOutranks(fileName: string, before: map<string, File>, rotated: seq<RotatedFile>, start: nat, x: string, d: string)
    requires Lists(fileName, before, rotated) && Descending(rotated, NumberKey) && start <= |rotated|
    requires x in NamesOf(rotated[..start]) && d in NamesOf(rotated[start..])
    ensures RotatedSeq(fileName, x).Some? && RotatedSeq(fileName, d).Some?
    ensures RotatedSeq(fileName, x).value >= RotatedSeq(fileName, d).value
  {
    NameInPrefix(rotated, start, x);
    NameInSuffix(rotated, start, d);
    var i :| 0 <= i < start && rotated[i].name == x;
    var k :| start <= k < |rotated| && rotated[k].name == d;
    OutranksAt(fileName, before, rotated, i, k);
  }

  lemma {:induction false} NameInPrefix(es: seq<RotatedFile>, start: nat, n: string)
    requires start <= |es| && n in NamesOf(es[..start])
    ensures exists i :: 0 <= i < start && es[i].name == n
  {
    InNamesOf(es[..start], n);
    var i :| 0 <= i < start && es[..start][i].name == n;
    assert es[..start][i] == es[i];
  }

  lemma {:induction false} NameInSuffix(es: seq<RotatedFile>, start: nat, n: string)
    requires start <= |es| && n in NamesOf(es[start..])
    ensures exists k :: start <= k < |es| && es[k].name == n
  {
    InNamesOf(es[start..], n);
    var j :| 0 <= j < |es| - start && es[start..][j].name == n;
    assert es[start..][j] == es[start + j];
  }

  lemma {:induction false} OutranksAt(fileName: string, files: map<string, File>, es: seq<RotatedFile>, i: nat, k: nat)
    requires Lists(fileName, files, es) && Descending(es, NumberKey) && i < k < |es|
    ensures RotatedSeq(fileName, es[i].name) == Some(es[i].number)
    ensures RotatedSeq(fileName, es[k].name) == Some(es[k].number)
    ensures es[i].number >= es[k].number
  {
    assert NumberKey(es[i]) >= NumberKey(es[k]);
  }

  /** Deleting the names listed from `start` on leaves a prune outcome. */
  lemma {:induction false} PruneEstablishes(fileName: string, maxFiles: int, before: map<string, File>,
                         rotated: seq<RotatedFile>, start: nat)
    requires Lists(fileName, before, rotated) && NamesOf(rotated) == RotatedIn(fileName, before)
    requires DistinctNames(rotated) && Descending(rotated, NumberKey)
    requires start == SliceStart(|rotated|, maxFiles - 1)
    ensures PruneOutcome(fileName, maxFiles, before, before - NamesOf(rotated[start..]))
  {
    var kept, gone := NamesOf(rotated[..start]), NamesOf(rotated[start..]);
    var after := before - gone;
    SplitNames(rotated, start);
    KeptAfterDelete(fileName, before, kept, gone);
    DistinctSlice(rotated, 0, start);
    assert rotated[0..start] == rotated[..start];
    NamesOfCard(rotated[..start]);
    NamesOfCard(rotated);
    forall x, d | x in kept && d in RotatedIn(fileName, before) - kept
      ensures RotatedSeq(fileName, x).value >= RotatedSeq(fileName, d).value
    {
      KeptOutranks(fileName, before, rotated, start, x, d);
    }
    assert forall n :: n in before && RotatedSeq(fileName, n).None? ==> n !in gone;
  }

  /** The sequence numbers of the rotated copies among `files`. */
  ghost function Numbers(fileName: string, files: map<string, File>): set<nat>
  {
    set n | n in files && RotatedSeq(fileName, n).Some? :: RotatedSeq(fileName, n).value
  }

  /** The largest number of a finite set, `0` for the empty set. */
  ghost function MaxOf(s: set<nat>): (m: nat)
    ensures forall x :: x in s ==> x <= m
    ensures s == {} ==> m == 0
    ensures s != {} ==> m in s
  {
    if s == {} then 0
    else
      var x :| x in s;
      var rest := MaxOf(s - {x});
      assert forall y :: y in s ==> y == x || y in s - {x};
      if x >= rest then x else rest
  }

  lemma {:induction false} MaxOfIs(s: set<nat>, x: nat)
    requires x in s && forall y :: y in s ==> y <= x
    ensures MaxOf(s) == x
  {
  }

  /** `max_seq + 1`: one past the highest sequence number in use. */
  ghost function NextNumber(fileName: string, files: map<string, File>): nat
  {
    MaxOf(Numbers(fileName, files)) + 1
  }

  /** The name the active file is renamed to is new: no entry of the
      directory has it, and it is not the active name. */
  lemma {:induction false} NextNameIsFree(fileName: string, files: map<string, File>)
    ensures RotatedName(fileName, NextNumber(fileName, files)) !in files
    ensures RotatedName(fileName, NextNumber(fileName, files)) != fileName
    ensures forall n :: n in files && RotatedSeq(fileName, n).Some? ==>
              RotatedSeq(fileName, n).value < NextNumber(fileName, files)
  {
    var m := NextNumber(fileName, files);
    RotatedNameSeq(fileName, m);
    ActiveNotRotated(fileName);
    forall n | n in files && RotatedSeq(fileName, n).Some?
      ensures RotatedSeq(fileName, n).value < m
    {
      assert RotatedSeq(fileName, n).value in Numbers(fileName, files);
    }
  }

  /** The `existing` dictionary of `save_to_cache`: `{}` when the active file
      is absent or `json.load` fails on it, the loaded object otherwise; a
      loaded value that is not an object makes `{**existing, **data}` raise
      a `TypeError`. */
  function Existing(fileName: string, files: map<string, File>): (r: Result<Document, Fault>)
    ensures r.Failure? <==> fileName in files && files[fileName].content.Parsed? && !files[fileName].content.value.JObj?
    ensures r.Failure? ==> r.error == TypeError
    ensures r.Success? && r.value != map[] ==>
              fileName in files && files[fileName].content == Parsed(JObj(r.value))
  {
    if fileName !in files then Success(map[])
    else match files[fileName].content
      case Unparsable => Success(map[])
      case Parsed(JObj(fields)) => Success(fields)
      case Parsed(_) => Failure(TypeError)
  }

  /** The active file exists and is larger than `max_file_size` bytes. */
  predicate NeedsRotation(fileName: string, maxFileSize: int, files: map<string, File>)
  {
    fileName in files && files[fileName].size > maxFileSize
  }

  /** The directory once the active file has been renamed to `name`. */
  function Renamed(fileName: string, files: map<string, File>, name: string): map<string, File>
    requires fileName in files
  {
    (files - {fileName})[name := files[fileName]]
  }

  lemma {:induction false} NamesOfExtend(es: seq<RotatedFile>, lo: nat, i: nat)
    requires lo <= i < |es|
    ensures NamesOf(es[lo..i + 1]) == NamesOf(es[lo..i]) + {es[i].name}
  {
    assert es[lo..i + 1][..i - lo] == es[lo..i];
  }

  lemma {:induction false} RemoveOneMore(m: map<string, File>, gone: set<string>, n: string)
    ensures (m - gone) - {n} == m - (gone + {n})
    ensures m - {} == m
  {
  }

  /** Writing the active file after the prune leaves the prune's work as it
      was: the active name is never a rotated copy. */
  lemma {:induction false} WriteAfterPrune(fileName: string, maxFiles: int, mid: map<string, File>,
                        pruned: map<string, File>, written: File)
    requires fileName !in mid && PruneOutcome(fileName, maxFiles, mid, pruned)
    ensures PruneOutcome(fileName, maxFiles, mid, pruned[fileName := written] - {fileName})
  {
    assert pruned[fileName := written] - {fileName} == pruned;
  }

  /** With `max_files >= 1` the prune keeps `min(n, max_files - 1)` rotated
      copies, so that with the active file at most `max_files` files remain;
      with `max_files == 0` the slice `[-1:]` deletes only the lowest copy. */
  lemma {:induction false} PruneCount(fileName: string, maxFiles: int, before: map<string, File>, after: map<string, File>)
    requires PruneOutcome(fileName, maxFiles, before, after)
    ensures var n, k := |RotatedIn(fileName, before)|, |RotatedIn(fileName, after)|;
            && (maxFiles >= 1 ==> k == (if n < maxFiles - 1 then n else maxFiles - 1))
            && (maxFiles >= 1 ==> k + 1 <= maxFiles)
            && (maxFiles == 0 && n >= 1 ==> k == n - 1)
  {
    SliceStartKeeps(|RotatedIn(fileName, before)|, maxFiles);
  }

  /** A directory holding only the active file, larger than the limit, needs
      rotation and loads as `{}`: the rotation path is reached by an ordinary
      save. */
  lemma {:induction false} RotationReachable(fileName: string, maxFileSize: nat, mtime: real)
    ensures var files := map[fileName := File(Parsed(JObj(map[])), maxFileSize + 1, mtime)];
            NeedsRotation(fileName, maxFileSize, files) && Existing(fileName, files) == Success(map[])
  {
  }

  /** The head of a highest-first listing of every rotated copy carries the
      largest sequence number; an empty listing means there is none. */
  lemma {:induction false} TopIsMax(fileName: string, files: map<string, File>, rotated: seq<RotatedFile>)
    requires Lists(fileName, files, rotated) && NamesOf(rotated) == RotatedIn(fileName, files)
    requires Descending(rotated, NumberKey)
    ensures |rotated| == 0 ==> MaxOf(Numbers(fileName, files)) == 0
    ensures |rotated| > 0 ==> MaxOf(Numbers(fileName, files)) == rotated[0].number
  {
    var nums := Numbers(fileName, files);
    forall y | y in nums ensures |rotated| > 0 && y <= rotated[0].number {
      var n :| n in files && RotatedSeq(fileName, n).Some? && RotatedSeq(fileName, n).value == y;
      assert n in RotatedIn(fileName, files);
      InNamesOf(rotated, n);
      var i :| 0 <= i < |rotated| && rotated[i].name == n;
      assert NumberKey(rotated[0]) >= NumberKey(rotated[i]) || i == 0;
    }
    if |rotated| > 0 {
      assert rotated[0].number in nums;
      MaxOfIs(nums, rotated[0].number);
    } else {
      assert nums == {};
    }
  }

  /** The unlink loop of `rotate_cache_files`: every listed name from
      position `start` on is gone, and nothing else. */
  method UnlinkFrom(files: map<string, File>, rotated: seq<RotatedFile>, start: nat) returns (remaining: map<string, File>)
    requires start <= |rotated|
    ensures remaining == files - NamesOf(rotated[start..])
  {
    remaining := files;
    var i := start;
    assert NamesOf(rotated[start..i]) == {};
    assert remaining == files - {};
    while i < |rotated|
      invariant start <= i <= |rotated|
      invariant remaining == files - NamesOf(rotated[start..i])
    {
      var name := rotated[i].name;
      NamesOfExtend(rotated, start, i);
      RemoveOneMore(files, NamesOf(rotated[start..i]), name);
      remaining := remaining - {name};
      assert remaining == files - NamesOf(rotated[start..i + 1]);
      i := i + 1;
    }
    assert rotated[start..|rotated|] == rotated[start..];
  }

  /** The cache directory of one `CacheConfig`: `get_latest_cache_file` is
      the entry `fileName` of `files`.  `encodedSize` gives the size in bytes of
      `json.dump(value, f, indent=2)`. */
  class CacheDir {
    const fileName: string
    const maxFiles: int
    const maxFileSize: int
    const encodedSize: Json -> nat
    var files: map<string, File>

    constructor(config: Alerts.CacheConfig, initial: map<string, File>, encodedSize: Json -> nat)
      ensures fileName == config.fileName && maxFiles == config.maxFiles && maxFileSize == config.maxFileSize
      ensures this.encodedSize == encodedSize && files == initial
    {
      fileName := config.fileName;
      maxFiles := config.maxFiles;
      maxFileSize := config.maxFileSize;
      this.encodedSize := encodedSize;
      files := initial;
    }

    /** The names of the rotated copies now in the directory. */
    ghost function RotatedNames(): set<string>
      reads this
    {
      RotatedIn(fileName, files)
    }

    /** `_get_rotated_files(config)`, with the directory taken as a `Path`:
        every rotated copy once, highest sequence number first; the glob's
        own order, which decides among equal numbers, is arbitrary. */
    method RotatedFiles() returns (rotated: seq<RotatedFile>)
      ensures Descending(rotated, NumberKey)
      ensures Lists(fileName, files, rotated) && NamesOf(rotated) == RotatedNames() && DistinctNames(rotated)
    {
      var found := GlobRotated();
      rotated := SortDescending(found, NumberKey);
      SortedLists(fileName, files, found);
      SortedNames(found);
      SortKeepsDistinct(found, NumberKey);
      ListedDistinctNames(fileName, files, rotated);
    }

    /** The loop of `_get_rotated_files`: every globbed name that the
        pattern matches, in the glob's order. */
    method GlobRotated() returns (found: seq<RotatedFile>)
      ensures Lists(fileName, files, found) && NamesOf(found) == RotatedNames() && Distinct(found)
    {
      found := [];
      var todo := files.Keys;
      while todo != {}
        invariant Collected(fileName, files, found, todo)
        decreases |todo|
      {
        var n :| n in todo;
        CollectStep(fileName, files, found, todo, n);
        var m := RotatedSeq(fileName, n);
        if m.Some? {
          found := found + [RotatedFile(m.value, n)];
        }
        todo := todo - {n};
      }
    }

    /** `rotate_cache_files(config)`, with the directory taken as a `Path`:
        unlinks every entry of the highest-first listing from position
        `max_files - 1` on. */
    method Prune()
      modifies this
      ensures PruneOutcome(fileName, maxFiles, old(files), files)
    {
      var rotated := RotatedFiles();
      assert NamesOf(rotated) == RotatedIn(fileName, files);
      var start := SliceStart(|rotated|, maxFiles - 1);
      var remaining := UnlinkFrom(files, rotated, start);
      PruneEstablishes(fileName, maxFiles, files, rotated, start);
      files := remaining;
    }

    /** `max_seq + 1` of `save_to_cache`, where `max_seq` is the number at the
        head of the listing, or `0` when there are no rotated copies. */
    method NextSequence() returns (m: nat)
      ensures m == NextNumber(fileName, files)
    {
      var rotated := RotatedFiles();
      TopIsMax(fileName, files, rotated);
      m := if |rotated| > 0 then rotated[0].number + 1 else 1;
    }

    /** `save_to_cache(config, data)`, with the directory taken as a `Path`:
        a `TypeError` and no change when the active file holds JSON that is
        not an object; otherwise, when the active file is over
        `max_file_size`, it is renamed to the next rotated name and the
        rotated copies are pruned, and then the merge of the loaded document
        and `data` is written to the active file. */
    method Save(data: Document, now: real) returns (fault: Option<Fault>)
      modifies this
      ensures Existing(fileName, old(files)).Failure? ==> fault == Some(TypeError) && files == old(files)
      ensures Existing(fileName, old(files)).Success? ==>
                var merged := Merge(Existing(fileName, old(files)).value, data);
                && fault == None
                && fileName in files
                && files[fileName] == File(Parsed(JObj(merged)), encodedSize(JObj(merged)), now)
                && Existing(fileName, files) == Success(merged)
      ensures Existing(fileName, old(files)).Success? && !NeedsRotation(fileName, maxFileSize, old(files)) ==>
                files == old(files)[fileName := files[fileName]]
      ensures Existing(fileName, old(files)).Success? && NeedsRotation(fileName, maxFileSize, old(files)) ==>
                var mid := Renamed(fileName, old(files), RotatedName(fileName, NextNumber(fileName, old(files))));
                PruneOutcome(fileName, maxFiles, mid, files - {fileName})
    {
      var existing := Existing(fileName, files);
      if existing.Failure? {
        return Some(TypeError);
      }
      var merged := Merge(existing.value, data);
      var written := File(Parsed(JObj(merged)), encodedSize(JObj(merged)), now);
      if NeedsRotation(fileName, maxFileSize, files) {
        var m := NextSequence();
        NextNameIsFree(fileName, files);
        files := Renamed(fileName, files, RotatedName(fileName, m));
        ghost var mid := files;
        Prune();
        WriteAfterPrune(fileName, maxFiles, mid, files, written);
      }
      files := files[fileName := written];
      fault := None;
    }

    /** `save_to_cache` as written: `_get_rotated_files` calls `.glob` on
        `config.directory`, a `str`, so every save that needs rotation stops
        with an `AttributeError` before renaming, pruning or writing. */
    method SaveAsWritten(data: Document, now: real) returns (fault: Option<Fault>)
      modifies this
      ensures Existing(fileName, old(files)).Failure? ==> fault == Some(TypeError) && files == old(files)
      ensures Existing(fileName, old(files)).Success? && NeedsRotation(fileName, maxFileSize, old(files)) ==>
                fault == Some(AttributeError) && files == old(files)
      ensures Existing(fileName, old(files)).Success? && !NeedsRotation(fileName, maxFileSize, old(files)) ==>
                var merged := Merge(Existing(fileName, old(files)).value, data);
                fault == None && files == old(files)[fileName := File(Parsed(JObj(merged)), encodedSize(JObj(merged)), now)]
    {
      var existing := Existing(fileName, files);
      if existing.Failure? {
        return Some(TypeError);
      }
      var merged := Merge(existing.value, data);
      if NeedsRotation(fileName, maxFileSize, files) {
        return Some(AttributeError);
      }
      files := files[fileName := File(Parsed(JObj(merged)), encodedSize(JObj(merged)), now)];
      fault := None;
    }
  }
}
