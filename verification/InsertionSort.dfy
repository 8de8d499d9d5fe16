/** The in-place insertion sort the repository writes out three times (user spending by amount,
    monthly trends by month, user ids by bytes), over any strict weak order. */
module InsertionSort {
  type Order<!T> = (T, T) -> bool

  /** before is irreflexive and transitive, and incomparability is transitive. */
  ghost predicate StrictWeak<T(!new)>(before: Order<T>) {
    && (forall x :: !before(x, x))
    && (forall x, y, z :: before(x, y) && before(y, z) ==> before(x, z))
    && (forall x, y, z :: !before(x, y) && !before(y, z) ==> !before(x, z))
  }

  ghost predicate Ordered<T>(s: seq<T>, before: Order<T>) {
    forall i, j :: 0 <= i < j < |s| ==> !before(s[j], s[i])
  }

  /** x goes behind the last element that it does not precede. */
  function Insert<T>(s: seq<T>, x: T, before: Order<T>): (r: seq<T>)
    ensures |r| == |s| + 1
  {
    if s == [] || !before(x, s[|s| - 1]) then s + [x]
    else Insert(s[..|s| - 1], x, before) + [s[|s| - 1]]
  }

  function Sorted<T>(s: seq<T>, before: Order<T>): (r: seq<T>)
    ensures |r| == |s|
  {
    if s == [] then [] else Insert(Sorted(s[..|s| - 1], before), s[|s| - 1], before)
  }

  lemma {:induction false} InsertMultiset<T>(s: seq<T>, x: T, before: Order<T>)
    ensures multiset(Insert(s, x, before)) == multiset(s) + multiset{x}
  {
    if s != [] && before(x, s[|s| - 1]) {
      InsertMultiset(s[..|s| - 1], x, before);
      assert s == s[..|s| - 1] + [s[|s| - 1]];
    }
  }

  lemma {:induction false} InsertOrdered<T(!new)>(s: seq<T>, x: T, before: Order<T>)
    requires StrictWeak(before) && Ordered(s, before)
    ensures Ordered(Insert(s, x, before), before)
  {
    var r := Insert(s, x, before);
    if s != [] && before(x, s[|s| - 1]) {
      var front, last := s[..|s| - 1], s[|s| - 1];
      InsertOrdered(front, x, before);
      InsertMultiset(front, x, before);
      var inner := Insert(front, x, before);
      forall i | 0 <= i < |inner| ensures !before(last, inner[i]) {
        assert inner[i] in multiset(inner);
        if inner[i] in multiset(front) {
          var k :| 0 <= k < |front| && front[k] == inner[i];
          assert s[k] == inner[i];
        }
      }
    }
  }

  /** The result is ordered and a permutation of the input. */
  lemma {:induction false} SortedIsSort<T(!new)>(s: seq<T>, before: Order<T>)
    requires StrictWeak(before)
    ensures Ordered(Sorted(s, before), before) && multiset(Sorted(s, before)) == multiset(s)
  {
    if s != [] {
      var front, last := s[..|s| - 1], s[|s| - 1];
      SortedIsSort(front, before);
      InsertOrdered(Sorted(front, before), last, before);
      InsertMultiset(Sorted(front, before), last, before);
      assert s == front + [last];
    }
  }

  method Sort<T>(a: array<T>, before: Order<T>)
    modifies a
    ensures a[..] == Sorted(old(a[..]), before)
  {
    ghost var was := a[..];
    assert was[..0] == [];
    for i := 0 to a.Length
      invariant a[..i] == Sorted(was[..i], before) && a[i..] == was[i..]
    {
      assert was[..i + 1][..i] == was[..i];
      assert a[i] == a[i..][0] == was[i];
      InsertInPlace(a, i, before);
      assert a[i + 1..] == was[i..][1..];
    }
    assert a[..] == a[..a.Length] && was == was[..a.Length];
  }

  /** The inner loop: shift the elements behind the key's place one to the right. */
  method InsertInPlace<T>(a: array<T>, i: nat, before: Order<T>)
    requires i < a.Length
    modifies a
    ensures a[..i + 1] == Insert(old(a[..i]), old(a[i]), before)
    ensures a[i + 1..] == old(a[i + 1..])
  {
    var key := a[i];
    ghost var was := a[..];
    var j := i;
    while j > 0 && before(key, a[j - 1])
      invariant 0 <= j <= i
      invariant forall k :: 0 <= k < j ==> a[k] == was[k]
      invariant forall k :: j < k <= i ==> a[k] == was[k - 1]
      invariant forall k :: i < k < a.Length ==> a[k] == was[k]
      invariant Insert(was[..i], key, before) == Insert(was[..j], key, before) + was[j..i]
    {
      ShiftOne(was, i, j, key, before);
      a[j] := a[j - 1];
      j := j - 1;
    }
    a[j] := key;
    Placed(was, i, j, key, before);
    assert a[..i + 1] == was[..j] + [key] + was[j..i];
  }

  lemma Placed<T>(was: seq<T>, i: nat, j: nat, key: T, before: Order<T>)
    requires j <= i < |was| && (j > 0 ==> !before(key, was[j - 1]))
    ensures Insert(was[..j], key, before) == was[..j] + [key]
  {
    assert j > 0 ==> was[..j][|was[..j]| - 1] == was[j - 1];
  }

  lemma ShiftOne<T>(was: seq<T>, i: nat, j: nat, key: T, before: Order<T>)
    requires 0 < j <= i < |was| && before(key, was[j - 1])
    ensures Insert(was[..j], key, before) + was[j..i] == Insert(was[..j - 1], key, before) + was[j - 1..i]
  {
    assert was[..j][..j - 1] == was[..j - 1];
    assert was[j - 1..i] == [was[j - 1]] + was[j..i];
  }
}
