/** `Array.prototype.map`, and how it commutes with the stable sort. */
module Mapping {
  import opened Sorting

  /** `Array.prototype.map`: `f` applied to each element, in order. */
  function Map<T, U>(s: seq<T>, f: T -> U): (r: seq<U>)
    ensures |r| == |s|
  {
    if s == [] then [] else [f(s[0])] + Map(s[1..], f)
  }

  /** Element `i` of the mapped list is `f` of element `i`. */
  lemma {:induction false} MapAt<T, U>(s: seq<T>, f: T -> U, i: nat)
    requires i < |s|
    ensures Map(s, f)[i] == f(s[i])
  {
    if i > 0 {
      MapAt(s[1..], f, i - 1);
    }
  }

  /** Inserting `x` adds `f(x)` to what the list maps to. */
  lemma {:induction false} InsertMapPermutes<T, U>(x: T, s: seq<T>, key: T -> int, f: T -> U)
    ensures multiset(Map(Insert(x, s, key), f)) == multiset{f(x)} + multiset(Map(s, f))
  {
    if s == [] || key(x) <= key(s[0]) {
      assert ([x] + s)[1..] == s;
    } else {
      InsertMapPermutes(x, s[1..], key, f);
      assert ([s[0]] + Insert(x, s[1..], key))[1..] == Insert(x, s[1..], key);
    }
  }

  /** Sorting a list leaves what its elements map to unchanged as a
      multiset, for every `f`. */
  lemma {:induction false} SortByMapPermutes<T, U>(s: seq<T>, key: T -> int, f: T -> U)
    ensures multiset(Map(SortBy(s, key), f)) == multiset(Map(s, f))
  {
    if s != [] {
      SortByMapPermutes(s[1..], key, f);
      InsertMapPermutes(s[0], SortBy(s[1..], key), key, f);
    }
  }
}
