/** Ordering by vote count. The dashboard sorts with the comparator
    `(a, b) => b.votes - a.votes`; `Array.prototype.sort` is stable, so the
    result is the stable descending sort modelled here (an insertion sort that
    places each element before the first element with no more votes). */
module VoteOrder {
  import opened Sequences

  /** Non-increasing by `key`: what the comparator asks of the sorted array. */
  predicate NonIncreasing<T>(s: seq<T>, key: T -> nat)
  {
    forall i, j :: 0 <= i < j < |s| ==> key(s[i]) >= key(s[j])
  }

  /** The elements whose key is exactly `k`, in their order in `s`. A sort is
      stable when it leaves every one of these subsequences unchanged. */
  function WithKey<T>(s: seq<T>, key: T -> nat, k: nat): seq<T>
  {
    if |s| == 0 then []
    else (if key(s[0]) == k then [s[0]] else []) + WithKey(s[1..], key, k)
  }

  /** Inserts `x` into the non-increasing `s` in front of the first element whose
      key is at most `key(x)`. */
  function Insert<T>(x: T, s: seq<T>, key: T -> nat): (r: seq<T>)
    requires NonIncreasing(s, key)
    ensures NonIncreasing(r, key)
    ensures multiset(r) == multiset(s) + multiset{x}
    ensures |r| == |s| + 1
    ensures r[0] == x || (|s| > 0 && r[0] == s[0])
  {
    if |s| == 0 || key(s[0]) <= key(x) then
      assert forall j :: 0 <= j < |s| ==> key(x) >= key(s[j]);
      [x] + s
    else
      var rest := Insert(x, s[1..], key);
      assert key(s[0]) >= key(rest[0]);
      assert forall j :: 0 <= j < |rest| ==> key(s[0]) >= key(rest[j]);
      assert s == [s[0]] + s[1..];
      [s[0]] + rest
  }

  /** The stable descending sort: a non-increasing permutation of `s`. */
  function SortDesc<T>(s: seq<T>, key: T -> nat): (r: seq<T>)
    ensures NonIncreasing(r, key)
    ensures multiset(r) == multiset(s)
    ensures |r| == |s|
  {
    if |s| == 0 then []
    else
      assert s == [s[0]] + s[1..];
      Insert(s[0], SortDesc(s[1..], key), key)
  }

  lemma {:induction false} WithKeyAppend<T>(a: seq<T>, b: seq<T>, key: T -> nat, k: nat)
    ensures WithKey(a + b, key, k) == WithKey(a, key, k) + WithKey(b, key, k)
  {
    if |a| == 0 {
      assert a + b == b;
    } else {
      var h := if key(a[0]) == k then [a[0]] else [];
      assert (a + b)[0] == a[0];
      assert (a + b)[1..] == a[1..] + b;
      calc {
        WithKey(a + b, key, k);
        h + WithKey(a[1..] + b, key, k);
        { WithKeyAppend(a[1..], b, key, k); }
        h + (WithKey(a[1..], key, k) + WithKey(b, key, k));
        (h + WithKey(a[1..], key, k)) + WithKey(b, key, k);
        WithKey(a, key, k) + WithKey(b, key, k);
      }
    }
  }

  lemma WithKeySingleton<T>(x: T, key: T -> nat, k: nat)
    ensures WithKey([x], key, k) == if key(x) == k then [x] else []
  {
  }

  /** Inserting `x` keeps the relative order of `x` and the elements sharing its key:
      it lands in front of all of them. */
  lemma {:induction false} InsertKeepsKeyOrder<T>(x: T, s: seq<T>, key: T -> nat, k: nat)
    requires NonIncreasing(s, key)
    ensures WithKey(Insert(x, s, key), key, k) == WithKey([x] + s, key, k)
  {
    if |s| == 0 || key(s[0]) <= key(x) {
    } else {
      var rest := Insert(x, s[1..], key);
      var wx, ws0 := WithKey([x], key, k), WithKey([s[0]], key, k);
      WithKeySingleton(x, key, k);
      WithKeySingleton(s[0], key, k);
      assert ws0 + wx == wx + ws0;
      calc {
        WithKey(Insert(x, s, key), key, k);
        WithKey([s[0]] + rest, key, k);
        { WithKeyAppend([s[0]], rest, key, k); }
        ws0 + WithKey(rest, key, k);
        { InsertKeepsKeyOrder(x, s[1..], key, k); }
        ws0 + WithKey([x] + s[1..], key, k);
        { WithKeyAppend([x], s[1..], key, k); }
        ws0 + wx + WithKey(s[1..], key, k);
        wx + ws0 + WithKey(s[1..], key, k);
        { WithKeyAppend([s[0]], s[1..], key, k); assert s == [s[0]] + s[1..]; }
        wx + WithKey(s, key, k);
        { WithKeyAppend([x], s, key, k); }
        WithKey([x] + s, key, k);
      }
    }
  }

  /** Stability: for every vote count, the elements having it appear in the sorted
      sequence in the order they had in the input. */
  lemma {:induction false} SortDescStable<T>(s: seq<T>, key: T -> nat, k: nat)
    ensures WithKey(SortDesc(s, key), key, k) == WithKey(s, key, k)
  {
    if |s| > 0 {
      var rest := SortDesc(s[1..], key);
      calc {
        WithKey(SortDesc(s, key), key, k);
        WithKey(Insert(s[0], rest, key), key, k);
        { InsertKeepsKeyOrder(s[0], rest, key, k); }
        WithKey([s[0]] + rest, key, k);
        { WithKeyAppend([s[0]], rest, key, k); }
        WithKey([s[0]], key, k) + WithKey(rest, key, k);
        { SortDescStable(s[1..], key, k); }
        WithKey([s[0]], key, k) + WithKey(s[1..], key, k);
        { WithKeyAppend([s[0]], s[1..], key, k); assert s == [s[0]] + s[1..]; }
        WithKey(s, key, k);
      }
    }
  }

  /** Sorting an already non-increasing sequence leaves it as it is. */
  lemma {:induction false} SortDescOfSorted<T>(s: seq<T>, key: T -> nat)
    requires NonIncreasing(s, key)
    ensures SortDesc(s, key) == s
  {
    if |s| > 0 {
      SortDescOfSorted(s[1..], key);
      assert s == [s[0]] + s[1..];
    }
  }

  /** In a non-increasing sequence, an element not (or not as often) in a prefix
      has no larger key than any element of that prefix. */
  lemma PrefixDominatesRest<T>(s: seq<T>, key: T -> nat, n: nat, x: T)
    requires NonIncreasing(s, key)
    requires n <= |s|
    requires multiset(s[..n])[x] < multiset(s)[x]
    ensures forall i :: 0 <= i < n ==> key(s[i]) >= key(x)
  {
    assert s == s[..n] + s[n..];
    assert multiset(s) == multiset(s[..n]) + multiset(s[n..]);
    assert x in s[n..];
    var j :| n <= j < |s| && s[j] == x;
  }

  /** The index of the first element carrying the largest key. */
  function FirstMaxIndex<T>(s: seq<T>, key: T -> nat): (i: nat)
    requires |s| > 0
    ensures i < |s|
    ensures forall j :: 0 <= j < |s| ==> key(s[j]) <= key(s[i])
    ensures forall j :: 0 <= j < i ==> key(s[j]) < key(s[i])
  {
    if |s| == 1 then 0
    else
      var j := FirstMaxIndex(s[1..], key) + 1;
      if key(s[0]) >= key(s[j]) then 0 else j
  }

  /** The head of the stable descending sort is the first-seen maximum: on a tie
      for the most votes, the element that came first in the input wins. */
  lemma {:induction false} SortDescHeadIsFirstMax<T>(s: seq<T>, key: T -> nat)
    requires |s| > 0
    ensures SortDesc(s, key)[0] == s[FirstMaxIndex(s, key)]
  {
    if |s| > 1 {
      SortDescHeadIsFirstMax(s[1..], key);
    }
  }

  /** Filtering keeps a non-increasing sequence non-increasing. */
  lemma {:induction false} FilterKeepsNonIncreasing<T>(s: seq<T>, p: T -> bool, key: T -> nat)
    requires NonIncreasing(s, key)
    ensures NonIncreasing(Filter(s, p), key)
  {
    if |s| > 0 {
      FilterKeepsNonIncreasing(s[1..], p, key);
      var rest := Filter(s[1..], p);
      assert forall i :: 0 <= i < |rest| ==> rest[i] in s[1..];
    }
  }
}
