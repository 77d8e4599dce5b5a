/** Order-preserving list operations shared by every selector. */
module Seqs {

  /** `Array.prototype.filter` (and lodash `reject` with the negated test):
      the elements that pass, in their original order. */
  function Filter<T>(s: seq<T>, p: T -> bool): (r: seq<T>)
    ensures |r| <= |s|
  {
    if s == [] then []
    else if p(s[0]) then [s[0]] + Filter(s[1..], p)
    else Filter(s[1..], p)
  }

  /** An element is kept exactly when it is in the input and passes the test. */
  lemma {:induction false} FilterMembership<T>(s: seq<T>, p: T -> bool, x: T)
    ensures x in Filter(s, p) <==> x in s && p(x)
  {
    if s != [] {
      FilterMembership(s[1..], p, x);
      assert s == [s[0]] + s[1..];
    }
  }

  /** `FilterMembership` for every element at once. */
  lemma FilterMembershipAll<T>(s: seq<T>, p: T -> bool)
    ensures forall x :: x in Filter(s, p) <==> x in s && p(x)
  {
    forall x ensures x in Filter(s, p) <==> x in s && p(x) {
      FilterMembership(s, p, x);
    }
  }

  /** Filtering distributes over concatenation, so the kept elements keep
      their relative order. */
  lemma {:induction false} FilterAppend<T>(a: seq<T>, b: seq<T>, p: T -> bool)
    ensures Filter(a + b, p) == Filter(a, p) + Filter(b, p)
  {
    if a == [] {
      assert a + b == b;
    } else {
      assert (a + b)[1..] == a[1..] + b;
      FilterAppend(a[1..], b, p);
    }
  }

  /** Two tests that never agree split a list into two parts that together
      hold every element exactly as often as the list does. */
  lemma {:induction false} FilterSplit<T>(s: seq<T>, p: T -> bool, q: T -> bool)
    requires forall i :: 0 <= i < |s| ==> p(s[i]) != q(s[i])
    ensures multiset(Filter(s, p)) + multiset(Filter(s, q)) == multiset(s)
  {
    if s != [] {
      FilterSplit(s[1..], p, q);
      assert s == [s[0]] + s[1..];
    }
  }

  /** The first element kept is the first element of the input that passes. */
  lemma {:induction false} FilterFirst<T>(s: seq<T>, p: T -> bool)
    requires |Filter(s, p)| > 0
    ensures exists j :: 0 <= j < |s| && s[j] == Filter(s, p)[0] && p(s[j]) && forall k :: 0 <= k < j ==> !p(s[k])
  {
    if !p(s[0]) {
      FilterFirst(s[1..], p);
      var j :| 0 <= j < |s[1..]| && s[1..][j] == Filter(s[1..], p)[0] && p(s[1..][j])
               && forall k :: 0 <= k < j ==> !p(s[1..][k]);
      assert s[j + 1] == Filter(s, p)[0];
      forall k | 0 <= k < j + 1 ensures !p(s[k]) {
        if k > 0 { assert s[k] == s[1..][k - 1]; }
      }
    }
  }

  /** The last element kept is the last element of the input that passes. */
  lemma {:induction false} FilterLast<T>(s: seq<T>, p: T -> bool)
    requires |Filter(s, p)| > 0
    ensures exists j :: 0 <= j < |s| && s[j] == Filter(s, p)[|Filter(s, p)| - 1] && p(s[j])
                        && forall k :: j < k < |s| ==> !p(s[k])
  {
    var rest := Filter(s[1..], p);
    if |rest| > 0 {
      FilterLast(s[1..], p);
      var j :| 0 <= j < |s[1..]| && s[1..][j] == rest[|rest| - 1] && p(s[1..][j])
               && forall k :: j < k < |s[1..]| ==> !p(s[1..][k]);
      assert s[j + 1] == Filter(s, p)[|Filter(s, p)| - 1];
      forall k | j + 1 < k < |s| ensures !p(s[k]) {
        assert s[k] == s[1..][k - 1];
      }
    } else {
      forall k | 0 < k < |s| ensures !p(s[k]) {
        assert s[k] == s[1..][k - 1];
        FilterMembership(s[1..], p, s[k]);
      }
    }
  }
}
