/** `Array.prototype.sort` with a numeric comparator. The language has
    required this sort to be stable since ECMAScript 2019; a comparator
    `(a, b) => f(a) - f(b)` orders by the integer key `f`, and
    `(a, b) => f(b) - f(a)` by the key `-f`. */
module Sorting {
  import opened Seqs

  /** Keys never decrease from left to right. */
  predicate SortedBy<T>(s: seq<T>, key: T -> int) {
    forall i, j :: 0 <= i < j < |s| ==> key(s[i]) <= key(s[j])
  }

  /** The elements of `s` whose key is `k`, in their order in `s`. */
  function WithKey<T>(s: seq<T>, key: T -> int, k: int): seq<T> {
    Filter(s, x => key(x) == k)
  }

  /** `t` is a stable rearrangement of `s`: for every key, the elements
      carrying it appear in the same order in both. */
  ghost predicate StableFor<T>(t: seq<T>, s: seq<T>, key: T -> int) {
    forall k :: WithKey(t, key, k) == WithKey(s, key, k)
  }

  /** Puts `x` in front of the first element whose key is not smaller than
      its own. */
  function Insert<T>(x: T, s: seq<T>, key: T -> int): seq<T> {
    if s == [] || key(x) <= key(s[0]) then [x] + s
    else [s[0]] + Insert(x, s[1..], key)
  }

  /** Stable insertion sort by `key`: the reference result of the in-place sort. */
  function SortBy<T>(s: seq<T>, key: T -> int): seq<T> {
    if s == [] then [] else Insert(s[0], SortBy(s[1..], key), key)
  }

  lemma {:induction false} InsertPermutes<T>(x: T, s: seq<T>, key: T -> int)
    ensures multiset(Insert(x, s, key)) == multiset{x} + multiset(s)
  {
    if s != [] && key(x) > key(s[0]) {
      InsertPermutes(x, s[1..], key);
      assert s == [s[0]] + s[1..];
    }
  }

  lemma {:induction false} InsertSorted<T>(x: T, s: seq<T>, key: T -> int)
    requires SortedBy(s, key)
    ensures SortedBy(Insert(x, s, key), key)
  {
    if s != [] && key(x) > key(s[0]) {
      var rest := s[1..];
      InsertSorted(x, rest, key);
      InsertPermutes(x, rest, key);
      var r := Insert(x, rest, key);
      forall i | 0 <= i < |r| ensures key(s[0]) <= key(r[i]) {
        assert r[i] in multiset{x} + multiset(rest);
        if r[i] != x {
          var j :| 0 <= j < |rest| && rest[j] == r[i];
          assert rest[j] == s[j + 1];
        }
      }
      assert Insert(x, s, key) == [s[0]] + r;
    }
  }

  lemma WithKeyAppend<T>(a: seq<T>, b: seq<T>, key: T -> int, k: int)
    ensures WithKey(a + b, key, k) == WithKey(a, key, k) + WithKey(b, key, k)
  {
    FilterAppend(a, b, x => key(x) == k);
  }

  lemma WithKeySingle<T>(x: T, key: T -> int, k: int)
    ensures WithKey([x], key, k) == if key(x) == k then [x] else []
  {
    assert [x][1..] == [];
  }

  lemma {:induction false} InsertStable<T>(x: T, s: seq<T>, key: T -> int, k: int)
    ensures WithKey(Insert(x, s, key), key, k) == WithKey([x], key, k) + WithKey(s, key, k)
  {
    if s == [] || key(x) <= key(s[0]) {
      WithKeyAppend([x], s, key, k);
    } else {
      var head, rest := s[0], s[1..];
      InsertStable(x, rest, key, k);
      WithKeyAppend([head], Insert(x, rest, key), key, k);
      assert s == [head] + rest;
      WithKeyAppend([head], rest, key, k);
      WithKeySingle(x, key, k);
      WithKeySingle(head, key, k);
      var wh, wx, wr := WithKey([head], key, k), WithKey([x], key, k), WithKey(rest, key, k);
      if key(x) == k {
        assert wh == [];
      } else {
        assert wx == [];
      }
      assert wh + (wx + wr) == wx + (wh + wr);
    }
  }

  /** The sort rearranges its input and nothing more. */
  lemma {:induction false} SortByPermutes<T>(s: seq<T>, key: T -> int)
    ensures multiset(SortBy(s, key)) == multiset(s)
  {
    if s != [] {
      SortByPermutes(s[1..], key);
      InsertPermutes(s[0], SortBy(s[1..], key), key);
      assert s == [s[0]] + s[1..];
    }
  }

  /** The sort leaves keys in non-decreasing order. */
  lemma {:induction false} SortBySorted<T>(s: seq<T>, key: T -> int)
    ensures SortedBy(SortBy(s, key), key)
  {
    if s != [] {
      SortBySorted(s[1..], key);
      InsertSorted(s[0], SortBy(s[1..], key), key);
    }
  }

  /** The sort is stable: elements with equal keys keep their input order. */
  lemma SortByStable<T>(s: seq<T>, key: T -> int)
    ensures StableFor(SortBy(s, key), s, key)
  {
    forall k ensures WithKey(SortBy(s, key), key, k) == WithKey(s, key, k) {
      SortByStableAt(s, key, k);
    }
  }

  lemma {:induction false} SortByStableAt<T>(s: seq<T>, key: T -> int, k: int)
    ensures WithKey(SortBy(s, key), key, k) == WithKey(s, key, k)
  {
    if s != [] {
      SortByStableAt(s[1..], key, k);
      InsertStable(s[0], SortBy(s[1..], key), key, k);
      assert s == [s[0]] + s[1..];
      WithKeyAppend([s[0]], s[1..], key, k);
    }
  }

  /** Sorted, a permutation and stable: everything the caller of the sort
      can rely on, in one place. */
  lemma SortByFacts<T>(s: seq<T>, key: T -> int)
    ensures |SortBy(s, key)| == |s|
    ensures multiset(SortBy(s, key)) == multiset(s)
    ensures SortedBy(SortBy(s, key), key)
    ensures StableFor(SortBy(s, key), s, key)
  {
    SortByPermutes(s, key);
    assert |multiset(SortBy(s, key))| == |multiset(s)|;
    SortBySorted(s, key);
    SortByStable(s, key);
  }

  /** The in-place sort of the source's `orders.sort(...)` calls: an
      insertion sort that grows a sorted suffix of the array leftwards. */
  method SortInPlace<T>(a: array<T>, key: T -> int)
    modifies a
    ensures a[..] == SortBy(old(a[..]), key)
  {
    ghost var input := a[..];
    var i := a.Length;
    while i > 0
      invariant 0 <= i <= a.Length
      invariant a[i..] == SortBy(input[i..], key)
      invariant a[..i] == input[..i]
    {
      i := i - 1;
      InsertFirst(a, i, key);
      assert input[i..] == [input[i]] + input[i + 1..];
    }
  }

  /** One step of the insertion sort: moves `a[i]` into place within the
      sorted suffix `a[i + 1..]`, shifting smaller keys one slot left. */
  method InsertFirst<T>(a: array<T>, i: nat, key: T -> int)
    requires i < a.Length
    modifies a
    ensures a[i..] == Insert(old(a[i]), old(a[i + 1..]), key)
    ensures a[..i] == old(a[..i])
  {
    var x := a[i];
    ghost var sorted := a[i + 1..];
    var j := ShiftSmaller(a, i, x, sorted, key);
    a[j] := x;
    InsertStops(x, sorted[j - i..], key);
    Reassemble(a[..], i, j, sorted, x);
  }

  /** The shift loop of `InsertFirst`: the elements of the run `sorted`
      after `i` whose key is below `x`'s move one slot left, and `j` is the
      slot left free. */
  method ShiftSmaller<T>(a: array<T>, i: nat, x: T, ghost sorted: seq<T>, key: T -> int) returns (j: nat)
    requires i < a.Length && sorted == a[i + 1..]
    modifies a
    ensures i <= j < a.Length
    ensures forall k :: 0 <= k < i ==> a[k] == old(a[k])
    ensures forall k :: i <= k < j ==> a[k] == sorted[k - i]
    ensures forall k :: j < k < a.Length ==> a[k] == sorted[k - i - 1]
    ensures j - i == |sorted| || key(x) <= key(sorted[j - i])
    ensures Insert(x, sorted, key) == sorted[..j - i] + Insert(x, sorted[j - i..], key)
  {
    j := i;
    while j + 1 < a.Length && key(a[j + 1]) < key(x)
      invariant i <= j < a.Length
      invariant forall k :: 0 <= k < i ==> a[k] == old(a[k])
      invariant forall k :: i <= k < j ==> a[k] == sorted[k - i]
      invariant forall k :: j < k < a.Length ==> a[k] == sorted[k - i - 1]
      invariant forall k :: 0 <= k < j - i ==> key(sorted[k]) < key(x)
    {
      a[j] := a[j + 1];
      j := j + 1;
    }
    InsertSkips(x, sorted, key, j - i);
  }

  /** After the shift loop the suffix from `i` is the sorted run with `x`
      put back at `j`. */
  lemma Reassemble<T>(cur: seq<T>, i: nat, j: nat, sorted: seq<T>, x: T)
    requires i <= j < |cur| && |sorted| == |cur| - i - 1
    requires forall k :: i <= k < j ==> cur[k] == sorted[k - i]
    requires cur[j] == x
    requires forall k :: j < k < |cur| ==> cur[k] == sorted[k - i - 1]
    ensures cur[i..] == sorted[..j - i] + [x] + sorted[j - i..]
  {
    var whole := sorted[..j - i] + [x] + sorted[j - i..];
    forall k | i <= k < |cur| ensures cur[k] == whole[k - i] {
      if k > j {
        assert whole[k - i] == sorted[k - i - 1];
      }
    }
  }

  /** Insertion passes over a prefix whose keys are all below `x`'s. */
  lemma {:induction false} InsertSkips<T>(x: T, s: seq<T>, key: T -> int, m: nat)
    requires m <= |s|
    requires forall k :: 0 <= k < m ==> key(s[k]) < key(x)
    ensures Insert(x, s, key) == s[..m] + Insert(x, s[m..], key)
  {
    if m > 0 {
      InsertSkips(x, s[1..], key, m - 1);
      assert s[1..][..m - 1] == s[1..m] && s[1..][m - 1..] == s[m..];
      assert s[..m] == [s[0]] + s[1..m];
    }
  }

  lemma InsertStops<T>(x: T, s: seq<T>, key: T -> int)
    requires s == [] || key(x) <= key(s[0])
    ensures Insert(x, s, key) == [x] + s
  {
  }

  /** `orders = orders.sort(...)` on a list held as a sequence: the list is
      put in an array, sorted there in place and read back. */
  method SortList<T>(s: seq<T>, key: T -> int) returns (r: seq<T>)
    ensures r == SortBy(s, key)
  {
    var a := new T[|s|](i requires 0 <= i < |s| => s[i]);
    assert a[..] == s;
    SortInPlace(a, key);
    r := a[..];
  }
}
