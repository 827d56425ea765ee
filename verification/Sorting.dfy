/** Sorting by a comparison, the way a library sort is used: the result is ordered and a permutation. */
module Sorting {

  /** No later element comes strictly before an earlier one. */
  ghost predicate Sorted<T(!new)>(before: (T, T) -> bool, s: seq<T>) {
    forall i, j :: 0 <= i < j < |s| ==> !before(s[j], s[i])
  }

  /** A strict weak order, which is what a library sort demands. */
  ghost predicate StrictWeak<T(!new)>(before: (T, T) -> bool) {
    && (forall x, y :: before(x, y) ==> !before(y, x))
    && (forall x, y, z :: !before(y, x) && !before(z, y) ==> !before(z, x))
  }

  /** `r` is an outcome of sorting `s`. */
  ghost predicate Sorts<T(!new)>(before: (T, T) -> bool, s: seq<T>, r: seq<T>) {
    Sorted(before, r) && multiset(r) == multiset(s)
  }

  /** Different members of `s` are never tied. */
  ghost predicate Distinguishes<T(!new)>(before: (T, T) -> bool, s: seq<T>) {
    forall x, y :: x in s && y in s && x != y ==> before(x, y) || before(y, x)
  }

  method Sort<T(!new)>(before: (T, T) -> bool, s: seq<T>) returns (r: seq<T>)
    requires StrictWeak(before)
    ensures Sorts(before, s, r)
  {
    r := [];
    for i := 0 to |s|
      invariant Sorted(before, r) && multiset(r) == multiset(s[..i])
    {
      assert s[..i + 1] == s[..i] + [s[i]];
      r := Insert(before, r, s[i]);
    }
    assert s[..|s|] == s;
  }

  method Insert<T(!new)>(before: (T, T) -> bool, s: seq<T>, x: T) returns (r: seq<T>)
    requires StrictWeak(before) && Sorted(before, s)
    ensures Sorted(before, r) && multiset(r) == multiset(s) + multiset{x}
  {
    hide Sorted;
    hide StrictWeak;
    var k := |s|;
    while k > 0 && before(x, s[k - 1])
      invariant 0 <= k <= |s|
      invariant forall j :: k <= j < |s| ==> before(x, s[j])
    {
      k := k - 1;
    }
    r := s[..k] + [x] + s[k..];
    assert s == s[..k] + s[k..];
    InsertKeepsOrder(before, s, x, k, r);
  }

  lemma InsertKeepsOrder<T(!new)>(before: (T, T) -> bool, s: seq<T>, x: T, k: nat, r: seq<T>)
    requires StrictWeak(before) && Sorted(before, s)
    requires k <= |s| && r == s[..k] + [x] + s[k..]
    requires forall j :: k <= j < |s| ==> before(x, s[j])
    requires k > 0 ==> !before(x, s[k - 1])
    ensures Sorted(before, r)
  {
    forall i, j | 0 <= i < j < |r|
      ensures !before(r[j], r[i])
    {
      if j < k {
        assert r[i] == s[i] && r[j] == s[j];
      } else if j == k {
        assert r[i] == s[i] && r[j] == x;
        assert i == k - 1 || !before(s[k - 1], s[i]);
      } else if i == k {
        assert r[j] == s[j - 1] && before(x, s[j - 1]);
      } else {
        assert r[j] == s[j - 1];
        assert r[i] == (if i < k then s[i] else s[i - 1]);
      }
    }
  }

  /** Without ties there is one sorted order: two permutations of one list sort to the same list. */
  lemma {:induction false} SortedIsUnique<T(!new)>(before: (T, T) -> bool, a: seq<T>, b: seq<T>)
    requires Sorted(before, a) && Sorted(before, b)
    requires multiset(a) == multiset(b)
    requires Distinguishes(before, a)
    ensures a == b
    decreases |a|
  {
    assert |a| == |multiset(a)| == |multiset(b)| == |b|;
    if |a| > 0 {
      SameFirst(before, a, b);
      DropFirst(a);
      DropFirst(b);
      SortedIsUnique(before, a[1..], b[1..]);
    }
  }

  lemma DropFirst<T(!new)>(a: seq<T>)
    requires |a| > 0
    ensures multiset(a[1..]) == multiset(a) - multiset{a[0]}
    ensures a == [a[0]] + a[1..]
  {
    assert a == [a[0]] + a[1..];
  }

  lemma SameFirst<T(!new)>(before: (T, T) -> bool, a: seq<T>, b: seq<T>)
    requires Sorted(before, a) && Sorted(before, b)
    requires multiset(a) == multiset(b) && |a| > 0 && |b| > 0
    requires Distinguishes(before, a)
    ensures a[0] == b[0]
  {
    assert b[0] in multiset(b) && a[0] in multiset(a);
    assert b[0] in a && a[0] in b;
    var i :| 0 <= i < |a| && a[i] == b[0];
    var j :| 0 <= j < |b| && b[j] == a[0];
  }
}
