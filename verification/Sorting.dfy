/** Insertion sort by a comparison: what sort.Slice does with up to twelve elements, and what any stable sort gives. */
module Sorting {

  /** x moved towards the front past those it comes before. */
  function Insert<T(==)>(before: (T, T) -> bool, s: seq<T>, x: T): (r: seq<T>)
    ensures |r| == |s| + 1 && multiset(r) == multiset(s) + multiset{x}
  {
    if s == [] || !before(x, s[|s| - 1]) then s + [x]
    else
      assert s == s[..|s| - 1] + [s[|s| - 1]];
      Insert(before, s[..|s| - 1], x) + [s[|s| - 1]]
  }

  function Sorted<T(==)>(before: (T, T) -> bool, s: seq<T>): (r: seq<T>)
    ensures |r| == |s| && multiset(r) == multiset(s)
  {
    if s == [] then []
    else
      assert s == s[..|s| - 1] + [s[|s| - 1]];
      Insert(before, Sorted(before, s[..|s| - 1]), s[|s| - 1])
  }

  /** The element at i moved back, by exchanges, to its place. */
  method MoveBack<T(==)>(before: (T, T) -> bool, a: array<T>, i: nat)
    requires i < a.Length
    modifies a
    ensures a[..i + 1] == Insert(before, old(a[..i]), old(a[i]))
    ensures forall k :: i < k < a.Length ==> a[k] == old(a[k])
  {
    var j := i;
    ghost var done, x := a[..i], a[i];
    while j > 0 && before(a[j], a[j - 1])
      invariant 0 <= j <= i && a[j] == x
      invariant forall k :: 0 <= k < j ==> a[k] == done[k]
      invariant forall k :: j <= k < i ==> a[k + 1] == done[k] && before(x, done[k])
      invariant forall k :: i < k < a.Length ==> a[k] == old(a[k])
    {
      a[j], a[j - 1] := a[j - 1], a[j];
      j := j - 1;
    }
    InsertedAt(before, done, x, j, a[..i + 1]);
  }

  lemma {:induction false} InsertedAt<T>(before: (T, T) -> bool, s: seq<T>, x: T, j: nat, t: seq<T>)
    requires j <= |s| && |t| == |s| + 1 && t[j] == x
    requires forall k :: 0 <= k < j ==> t[k] == s[k]
    requires forall k :: j <= k < |s| ==> t[k + 1] == s[k] && before(x, s[k])
    requires j == 0 || !before(x, s[j - 1])
    ensures t == Insert(before, s, x)
    decreases |s|
  {
    var n := |s|;
    if j < n {
      InsertedAt(before, s[..n - 1], x, j, t[..n]);
      assert t == t[..n] + [t[n]];
    } else {
      assert t == s + [x];
    }
  }

  lemma SortedStep<T>(before: (T, T) -> bool, s: seq<T>, i: nat)
    requires i < |s|
    ensures Sorted(before, s[..i + 1]) == Insert(before, Sorted(before, s[..i]), s[i])
  {
    assert s[..i + 1][..i] == s[..i];
  }

  method Sort<T(==)>(before: (T, T) -> bool, a: array<T>)
    modifies a
    ensures a[..] == Sorted(before, old(a[..]))
  {
    ghost var s := a[..];
    for i := 0 to a.Length
      invariant a[..i] == Sorted(before, s[..i]) && forall k :: i <= k < a.Length ==> a[k] == s[k]
    {
      SortedStep(before, s, i);
      MoveBack(before, a, i);
    }
    assert a[..] == a[..a.Length] && s[..a.Length] == s;
  }

  lemma SameElements<T>(a: seq<T>, b: seq<T>)
    requires multiset(a) == multiset(b)
    ensures forall c :: c in a <==> c in b
  {
    forall c ensures c in a <==> c in b {
      assert c in a <==> c in multiset(a);
      assert c in b <==> c in multiset(b);
    }
  }
}
