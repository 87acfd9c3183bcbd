/** `sorted(xs, key=..., reverse=True)` and the start index of the
    slice `xs[s:]`, as both cache stores use them to choose the files to
    prune. */
module Ranked {

  /** Non-increasing by `key`. */
  ghost predicate Descending<T>(xs: seq<T>, key: T -> real)
  {
    forall i, j :: 0 <= i < j < |xs| ==> key(xs[i]) >= key(xs[j])
  }

  /** Places `x` after every element whose key is at least its own. */
  function InsertDescending<T>(xs: seq<T>, x: T, key: T -> real): (r: seq<T>)
    requires Descending(xs, key)
    ensures Descending(r, key) && multiset(r) == multiset(xs) + multiset{x}
    ensures |r| > 0 && (r[0] == x || (|xs| > 0 && r[0] == xs[0]))
  {
    if |xs| == 0 then [x]
    else if key(xs[0]) >= key(x) then
      DescendingTail(xs, key);
      var tail := InsertDescending(xs[1..], x, key);
      ConsDescending(xs[0], tail, key);
      assert multiset(xs) == multiset{xs[0]} + multiset(xs[1..]) by {
        assert xs == [xs[0]] + xs[1..];
      }
      assert multiset([xs[0]] + tail) == multiset{xs[0]} + multiset(tail);
      [xs[0]] + tail
    else
      ConsDescending(x, xs, key);
      assert multiset([x] + xs) == multiset{x} + multiset(xs);
      [x] + xs
  }

  lemma {:induction false} DescendingTail<T>(xs: seq<T>, key: T -> real)
    requires Descending(xs, key) && |xs| > 0
    ensures Descending(xs[1..], key)
  {
    forall i, j | 0 <= i < j < |xs| - 1 ensures key(xs[1..][i]) >= key(xs[1..][j]) {
      assert xs[1..][i] == xs[i + 1] && xs[1..][j] == xs[j + 1];
    }
  }

  lemma {:induction false} ConsDescending<T>(h: T, tail: seq<T>, key: T -> real)
    requires Descending(tail, key)
    requires |tail| > 0 ==> key(h) >= key(tail[0])
    ensures Descending([h] + tail, key)
  {
    var r := [h] + tail;
    forall i, j | 0 <= i < j < |r| ensures key(r[i]) >= key(r[j]) {
      assert r[j] == tail[j - 1];
      if i == 0 {
        assert key(tail[0]) >= key(tail[j - 1]) || j - 1 == 0;
      } else {
        assert r[i] == tail[i - 1];
      }
    }
  }

  /** Python's stable `sorted(xs, key=key, reverse=True)`: elements with equal
      keys keep the order they had in `xs`. */
  function SortDescending<T>(xs: seq<T>, key: T -> real): (r: seq<T>)
    ensures Descending(r, key) && multiset(r) == multiset(xs)
  {
    if |xs| == 0 then []
    else
      assert xs == xs[..|xs| - 1] + [xs[|xs| - 1]];
      InsertDescending(SortDescending(xs[..|xs| - 1], key), xs[|xs| - 1], key)
  }

  /** The first index of `xs[s:]` on a sequence of length `n`: a negative `s`
      counts from the end. */
  function SliceStart(n: nat, s: int): (r: nat)
    ensures r <= n
  {
    if s >= 0 then (if s <= n then s else n)
    else if n + s >= 0 then n + s
    else 0
  }

  /** With `k >= 1`, `xs[k-1:]` leaves exactly `min(n, k-1)` elements before
      it; with `k == 0` it is `xs[-1:]`, which leaves all elements but the last. */
  lemma {:induction false} SliceStartKeeps(n: nat, k: int)
    ensures k >= 1 ==> SliceStart(n, k - 1) == (if n < k - 1 then n else k - 1)
    ensures k == 0 && n >= 1 ==> SliceStart(n, k - 1) == n - 1
    ensures SliceStart(n, k - 1) < k || k <= 0
  {
  }

  /** No element occurs twice. */
  predicate Distinct<T(==)>(xs: seq<T>)
  {
    forall i, j :: 0 <= i < j < |xs| ==> xs[i] != xs[j]
  }

  lemma {:induction false} DistinctCounts<T>(xs: seq<T>, x: T)
    requires Distinct(xs)
    ensures multiset(xs)[x] <= 1
  {
    if |xs| > 0 {
      assert xs == [xs[0]] + xs[1..];
      assert Distinct(xs[1..]) by {
        forall i, j | 0 <= i < j < |xs| - 1 ensures xs[1..][i] != xs[1..][j] {
          assert xs[1..][i] == xs[i + 1] && xs[1..][j] == xs[j + 1];
        }
      }
      DistinctCounts(xs[1..], x);
      assert xs[0] !in xs[1..];
    }
  }

  lemma {:induction false} TwoCopies<T>(xs: seq<T>, i: nat, j: nat)
    requires i < j < |xs| && xs[i] == xs[j]
    ensures multiset(xs)[xs[j]] >= 2
  {
    assert xs == xs[..j] + [xs[j]] + xs[j + 1..];
    assert xs[i] in xs[..j];
  }

  lemma {:induction false} CountsDistinct<T>(xs: seq<T>)
    requires forall x :: x in multiset(xs) ==> multiset(xs)[x] <= 1
    ensures Distinct(xs)
  {
    forall i, j | 0 <= i < j < |xs| ensures xs[i] != xs[j] {
      if xs[i] == xs[j] {
        TwoCopies(xs, i, j);
        assert false;
      }
    }
  }

  /** Sorting neither adds nor loses distinctness. */
  lemma {:induction false} SortKeepsDistinct<T>(xs: seq<T>, key: T -> real)
    requires Distinct(xs)
    ensures Distinct(SortDescending(xs, key))
  {
    var r := SortDescending(xs, key);
    forall x | x in multiset(r) ensures multiset(r)[x] <= 1 {
      DistinctCounts(xs, x);
    }
    CountsDistinct(r);
  }
}
