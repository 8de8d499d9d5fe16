/** The in-process response cache: a key map, a recency list and a per-budget key index kept in
    step by every operation, and what the cache answers over any sequence of operations.
    Clock readings are parameters; the stored bytes are strings. */
module ResponseCache {
  import opened Wrappers

  const MAX_ENTRIES: nat := 10000
  const SWEEP_INTERVAL: nat := 256

  datatype Entry<K, B, D> = Entry(key: K, data: D, expiresAt: int, budgetID: Option<B>)

  // ---------- Filtering a recency list ----------

  /** The ways an operation selects the entries that stay. */
  datatype Test<K, B> = NotKey(key: K) | NotIn(keys: set<K>) | NotFor(budgetID: Option<B>) | LiveAt(now: int)

  predicate Holds<K(!new, ==), B(!new, ==), D(!new)>(t: Test<K, B>, e: Entry<K, B, D>) {
    match t
    case NotKey(key) => e.key != key
    case NotIn(keys) => e.key !in keys
    case NotFor(budgetID) => e.budgetID != budgetID
    case LiveAt(now) => now <= e.expiresAt
  }

  function Keep<K(!new, ==), B(!new, ==), D(!new)>(s: seq<Entry<K, B, D>>, t: Test<K, B>): (r: seq<Entry<K, B, D>>)
    ensures |r| <= |s|
  {
    if s == [] then [] else (if Holds(t, s[0]) then [s[0]] else []) + Keep(s[1..], t)
  }

  function Without<K(!new, ==), B(!new, ==), D(!new)>(s: seq<Entry<K, B, D>>, key: K): seq<Entry<K, B, D>> { Keep(s, NotKey(key)) }

  ghost predicate Distinct<K(!new), B(!new), D(!new)>(s: seq<Entry<K, B, D>>) {
    forall i, j :: 0 <= i < j < |s| ==> s[i].key != s[j].key
  }

  lemma {:induction false} KeepMember<K(!new), B(!new), D(!new)>(s: seq<Entry<K, B, D>>, t: Test<K, B>, e: Entry<K, B, D>)
    ensures e in Keep(s, t) <==> e in s && Holds(t, e)
  {
    if s != [] {
      KeepMember(s[1..], t, e);
      assert s == [s[0]] + s[1..];
    }
  }

  lemma {:induction false} KeepAll<K(!new), B(!new), D(!new)>(s: seq<Entry<K, B, D>>, t: Test<K, B>)
    requires forall i :: 0 <= i < |s| ==> Holds(t, s[i])
    ensures Keep(s, t) == s
  {
    if s != [] {
      KeepAll(s[1..], t);
    }
  }

  lemma {:induction false} KeepAgree<K(!new), B(!new), D(!new)>(s: seq<Entry<K, B, D>>, t: Test<K, B>, u: Test<K, B>)
    requires forall i :: 0 <= i < |s| ==> Holds(t, s[i]) == Holds(u, s[i])
    ensures Keep(s, t) == Keep(s, u)
  {
    if s != [] {
      KeepAgree(s[1..], t, u);
    }
  }

  lemma {:induction false} KeepTwice<K(!new), B(!new), D(!new)>(s: seq<Entry<K, B, D>>, keys: set<K>, key: K)
    ensures Keep(Keep(s, NotIn(keys)), NotKey(key)) == Keep(s, NotIn(keys + {key}))
  {
    if s != [] {
      KeepTwice(s[1..], keys, key);
      var rest := Keep(s[1..], NotIn(keys));
      if s[0].key !in keys {
        assert Keep(s, NotIn(keys)) == [s[0]] + rest && ([s[0]] + rest)[1..] == rest;
        assert Keep([s[0]] + rest, NotKey(key)) == (if s[0].key != key then [s[0]] else []) + Keep(rest, NotKey(key));
      } else {
        assert Keep(s, NotIn(keys)) == rest;
      }
    }
  }

  /** A key absent from a list stays absent from what a filter keeps. */
  lemma {:induction false} KeepAbsent<K(!new), B(!new), D(!new)>(s: seq<Entry<K, B, D>>, t: Test<K, B>, key: K)
    requires forall i :: 0 <= i < |s| ==> s[i].key != key
    ensures forall i :: 0 <= i < |Keep(s, t)| ==> Keep(s, t)[i].key != key
  {
    if s != [] {
      KeepAbsent(s[1..], t, key);
    }
  }

  lemma {:induction false} KeepDistinct<K(!new), B(!new), D(!new)>(s: seq<Entry<K, B, D>>, t: Test<K, B>)
    requires Distinct(s)
    ensures Distinct(Keep(s, t))
  {
    if s != [] {
      KeepDistinct(s[1..], t);
      KeepAbsent(s[1..], t, s[0].key);
    }
  }

  /** In a list without duplicate keys, dropping a key drops exactly its one position. */
  lemma {:induction false} WithoutAt<K(!new), B(!new), D(!new)>(s: seq<Entry<K, B, D>>, i: nat)
    requires Distinct(s) && i < |s|
    ensures Without(s, s[i].key) == s[..i] + s[i + 1..]
  {
    if i == 0 {
      KeepAll(s[1..], NotKey(s[0].key));
    } else {
      WithoutAt(s[1..], i - 1);
      assert s[1..][i - 1] == s[i];
      assert s[..i] == [s[0]] + s[1..][..i - 1];
      assert s[i + 1..] == s[1..][i..];
    }
  }

  function Find<K(!new, ==), B(!new, ==), D(!new)>(s: seq<Entry<K, B, D>>, key: K): (r: Option<Entry<K, B, D>>)
    ensures r.Some? ==> r.value in s && r.value.key == key
    ensures r.None? ==> forall e :: e in s ==> e.key != key
  {
    if s == [] then None else if s[0].key == key then Some(s[0]) else Find(s[1..], key)
  }

  lemma FindUnique<K(!new), B(!new), D(!new)>(s: seq<Entry<K, B, D>>, e: Entry<K, B, D>)
    requires Distinct(s) && e in s
    ensures Find(s, e.key) == Some(e)
  {
    var f := Find(s, e.key);
    assert f.Some?;
    var i :| 0 <= i < |s| && s[i] == e;
    var j :| 0 <= j < |s| && s[j] == f.value;
  }

  // ---------- What one operation does to the recency list ----------

  /** The observable state: entries from most to least recently touched, and inserts since the last sweep. */
  datatype View<K, B, D> = View(order: seq<Entry<K, B, D>>, sinceSweep: nat)

  datatype Op<K, B, D> =
    | GetOp(key: K, now: int)
    | SetOp(key: K, budgetID: Option<B>, data: D, ttl: int, now: int, later: int)
    | DeleteOp(key: K)
    | InvalidateOp(budgetID: Option<B>)
    | ClearOp
    | SweepOp(now: int)

  function Answer<K(!new, ==), B(!new, ==), D(!new)>(v: View<K, B, D>, key: K, now: int): Option<D> {
    match Find(v.order, key)
    case None => None
    case Some(e) => if now > e.expiresAt then None else Some(e.data)
  }

  function AfterGet<K(!new, ==), B(!new, ==), D(!new)>(v: View<K, B, D>, key: K, now: int): View<K, B, D> {
    match Find(v.order, key)
    case None => v
    case Some(e) => v.(order := (if now > e.expiresAt then [] else [e]) + Without(v.order, key))
  }

  /** The list after the insert and, on every 256th insert, the sweep; the overflow check comes after. */
  function Inserted<K(!new, ==), B(!new, ==), D(!new)>(v: View<K, B, D>, e: Entry<K, B, D>, later: int): seq<Entry<K, B, D>> {
    var grown := [e] + Without(v.order, e.key);
    if v.sinceSweep + 1 >= SWEEP_INTERVAL then Keep(grown, LiveAt(later)) else grown
  }

  function AfterSet<K(!new, ==), B(!new, ==), D(!new)>(v: View<K, B, D>, e: Entry<K, B, D>, later: int): View<K, B, D> {
    var s := Inserted(v, e, later);
    View(if |s| > MAX_ENTRIES then s[..MAX_ENTRIES] else s,
         if v.sinceSweep + 1 >= SWEEP_INTERVAL then 0 else v.sinceSweep + 1)
  }

  function Step<K(!new, ==), B(!new, ==), D(!new)>(v: View<K, B, D>, op: Op<K, B, D>): View<K, B, D> {
    match op
    case GetOp(key, now) => AfterGet(v, key, now)
    case SetOp(key, budgetID, data, ttl, now, later) =>
      if ttl <= 0 then v else AfterSet(v, Entry(key, data, now + ttl, budgetID), later)
    case DeleteOp(key) => v.(order := Without(v.order, key))
    case InvalidateOp(budgetID) =>
      if budgetID == None then v else v.(order := Keep(v.order, NotFor(budgetID)))
    case ClearOp => View([], 0)
    case SweepOp(now) => View(Keep(v.order, LiveAt(now)), 0)
  }

  lemma StepOfSet<K(!new), B(!new), D(!new)>(v: View<K, B, D>, key: K, budgetID: Option<B>, data: D, ttl: int, now: int, later: int)
    ensures Step(v, SetOp(key, budgetID, data, ttl, now, later)) ==
            if ttl <= 0 then v else AfterSet(v, Entry(key, data, now + ttl, budgetID), later)
  {
  }

  ghost predicate Sound<K(!new), B(!new), D(!new)>(v: View<K, B, D>) {
    Distinct(v.order) && |v.order| <= MAX_ENTRIES && v.sinceSweep < SWEEP_INTERVAL
  }

  lemma KeyGone<K(!new), B(!new), D(!new)>(s: seq<Entry<K, B, D>>, e: Entry<K, B, D>)
    requires Distinct(s) && e in s
    ensures |Without(s, e.key)| == |s| - 1
  {
    var i :| 0 <= i < |s| && s[i] == e;
    WithoutAt(s, i);
  }

  lemma MovedToFront<K(!new), B(!new), D(!new)>(s: seq<Entry<K, B, D>>, e: Entry<K, B, D>)
    requires Distinct(s)
    ensures Distinct([e] + Without(s, e.key))
  {
    KeepDistinct(s, NotKey(e.key));
    forall i | 0 <= i < |Without(s, e.key)| ensures Without(s, e.key)[i].key != e.key {
      KeepMember(s, NotKey(e.key), Without(s, e.key)[i]);
    }
  }

  lemma GetSound<K(!new), B(!new), D(!new)>(v: View<K, B, D>, key: K, now: int)
    requires Sound(v)
    ensures Sound(AfterGet(v, key, now))
  {
    KeepDistinct(v.order, NotKey(key));
    var f := Find(v.order, key);
    if f.Some? {
      KeyGone(v.order, f.value);
      MovedToFront(v.order, f.value);
    }
  }

  lemma SetSound<K(!new), B(!new), D(!new)>(v: View<K, B, D>, e: Entry<K, B, D>, later: int)
    requires Sound(v)
    ensures Sound(AfterSet(v, e, later))
  {
    MovedToFront(v.order, e);
    KeepDistinct([e] + Without(v.order, e.key), LiveAt(later));
  }

  lemma KeepSound<K(!new), B(!new), D(!new)>(v: View<K, B, D>, t: Test<K, B>, n: nat)
    requires Sound(v) && n < SWEEP_INTERVAL
    ensures Sound(View(Keep(v.order, t), n))
  {
    KeepDistinct(v.order, t);
  }

  lemma StepSound<K(!new), B(!new), D(!new)>(v: View<K, B, D>, op: Op<K, B, D>)
    requires Sound(v)
    ensures Sound(Step(v, op))
  {
    hide AfterGet, AfterSet, Keep;
    var w := Step(v, op);
    match op {
      case GetOp(key, now) => GetSound(v, key, now);
      case SetOp(key, budgetID, data, ttl, now, later) =>
        if ttl > 0 {
          SetSound(v, Entry(key, data, now + ttl, budgetID), later);
        }
      case DeleteOp(key) => KeepSound(v, NotKey(key), v.sinceSweep);
      case InvalidateOp(budgetID) => KeepSound(v, NotFor(budgetID), v.sinceSweep);
      case ClearOp =>
      case SweepOp(now) => KeepSound(v, LiveAt(now), 0);
    }
    assert Sound(w);
  }

  // ---------- The three linked structures ----------

  ghost predicate Mapped<K(!new), B(!new), D(!new)>(order: seq<Entry<K, B, D>>, entries: map<K, Entry<K, B, D>>) {
    && Distinct(order)
    && (forall i :: 0 <= i < |order| ==> order[i].key in entries && entries[order[i].key] == order[i])
    && (forall k :: k in entries ==> entries[k] in order && entries[k].key == k)
  }

  /** Every bucket lists exactly the keys of its budget's entries, and no bucket is empty. */
  ghost predicate Indexed<K(!new), B(!new), D(!new)>(entries: map<K, Entry<K, B, D>>, index: map<Option<B>, set<K>>) {
    && (forall k :: k in entries && entries[k].budgetID != None ==>
                      entries[k].budgetID in index && k in index[entries[k].budgetID])
    && (forall b, k :: b in index && k in index[b] ==> k in entries && entries[k].budgetID == b)
    && (forall b :: b in index ==> b != None && index[b] != {})
  }

  lemma MappedRemove<K(!new), B(!new), D(!new)>(order: seq<Entry<K, B, D>>, entries: map<K, Entry<K, B, D>>, key: K)
    requires Mapped(order, entries)
    ensures Mapped(Without(order, key), entries - {key})
  {
    var rest, left := Without(order, key), entries - {key};
    KeepDistinct(order, NotKey(key));
    forall i | 0 <= i < |rest| ensures rest[i].key in left && left[rest[i].key] == rest[i] {
      KeepMember(order, NotKey(key), rest[i]);
    }
    forall k | k in left ensures left[k] in rest && left[k].key == k {
      KeepMember(order, NotKey(key), entries[k]);
    }
  }

  lemma MappedFront<K(!new), B(!new), D(!new)>(order: seq<Entry<K, B, D>>, entries: map<K, Entry<K, B, D>>, e: Entry<K, B, D>)
    requires Mapped(order, entries) && e.key !in entries
    ensures Mapped([e] + order, entries[e.key := e])
  {
    var grown := [e] + order;
    forall k | k in entries ensures entries[k] in grown {
      var i :| 0 <= i < |order| && order[i] == entries[k];
      assert grown[i + 1] == entries[k];
    }
    assert grown[0] == e;
  }

  function IndexWithout<K(!new, ==), B(!new, ==), D(!new)>(index: map<Option<B>, set<K>>, e: Entry<K, B, D>): map<Option<B>, set<K>> {
    if e.budgetID == None || e.budgetID !in index then index
    else
      var left := index[e.budgetID] - {e.key};
      if left == {} then index - {e.budgetID} else index[e.budgetID := left]
  }

  function IndexWith<K(!new, ==), B(!new, ==), D(!new)>(index: map<Option<B>, set<K>>, e: Entry<K, B, D>): map<Option<B>, set<K>> {
    if e.budgetID == None then index
    else index[e.budgetID := (if e.budgetID in index then index[e.budgetID] else {}) + {e.key}]
  }

  lemma IndexedRemove<K(!new), B(!new), D(!new)>(entries: map<K, Entry<K, B, D>>, index: map<Option<B>, set<K>>, key: K)
    requires Indexed(entries, index) && key in entries && entries[key].key == key
    ensures Indexed(entries - {key}, IndexWithout(index, entries[key]))
  {
    var b, left := entries[key].budgetID, IndexWithout(index, entries[key]);
    if b != None {
      assert b in index && key in index[b];
      var rest := index[b] - {key};
      if rest == {} {
        assert left == index - {b};
        forall k | k in entries - {key} ensures entries[k].budgetID != b {
          assert k !in rest;
        }
      } else {
        assert left == index[b := rest];
      }
      forall c, k | c in left && k in left[c] ensures k in entries - {key} && entries[k].budgetID == c {
        assert c in index && k in index[c];
      }
    }
  }

  lemma IndexedFront<K(!new), B(!new), D(!new)>(entries: map<K, Entry<K, B, D>>, index: map<Option<B>, set<K>>, e: Entry<K, B, D>)
    requires Indexed(entries, index) && e.key !in entries
    ensures Indexed(entries[e.key := e], IndexWith(index, e))
  {
  }

  lemma IndexedDrop<K(!new), B(!new), D(!new)>(entries: map<K, Entry<K, B, D>>, index: map<Option<B>, set<K>>, b: Option<B>)
    requires Indexed(entries, index) && b in index
    ensures Indexed(entries - index[b], index - {b})
  {
    var left, rest := entries - index[b], index - {b};
    forall k | k in left && left[k].budgetID != None ensures left[k].budgetID in rest && k in rest[left[k].budgetID] {
      assert k in index[entries[k].budgetID];
    }
    forall c, k | c in rest && k in rest[c] ensures k in left {
      assert c in index && k in index[c];
      assert entries[k].budgetID == c != b;
    }
  }

  /** The bucket of a budget names exactly the entries that survive when that budget's are dropped. */
  lemma BucketSplits<K(!new), B(!new), D(!new)>(order: seq<Entry<K, B, D>>, entries: map<K, Entry<K, B, D>>, index: map<Option<B>, set<K>>, b: Option<B>)
    requires Mapped(order, entries) && Indexed(entries, index)
    ensures b in index ==> Keep(order, NotIn(index[b])) == Keep(order, NotFor(b))
    ensures b !in index && b != None ==> Keep(order, NotFor(b)) == order
  {
    if b in index {
      forall i | 0 <= i < |order| ensures Holds(NotIn(index[b]), order[i]) == Holds(NotFor(b), order[i]) {
        assert order[i].key in entries;
      }
      KeepAgree(order, NotIn(index[b]), NotFor(b));
    } else if b != None {
      KeepAll(order, NotFor(b));
    }
  }

  lemma FindMapped<K(!new), B(!new), D(!new)>(order: seq<Entry<K, B, D>>, entries: map<K, Entry<K, B, D>>, key: K)
    requires Mapped(order, entries)
    ensures Find(order, key) == if key in entries then Some(entries[key]) else None
    ensures key !in entries ==> Without(order, key) == order
  {
    assert key in entries ==> entries[key] in order && entries[key].key == key;
    var f := Find(order, key);
    if f.Some? {
      var i :| 0 <= i < |order| && order[i] == f.value;
    }
    if key !in entries {
      KeepAll(order, NotKey(key));
    }
  }

  lemma DropOne<K(!new), B(!new), D(!new)>(was: seq<Entry<K, B, D>>, had: map<K, Entry<K, B, D>>,
                                           order: seq<Entry<K, B, D>>, entries: map<K, Entry<K, B, D>>, done: set<K>, key: K)
    requires Mapped(order, entries)
    requires entries == had - done && order == Keep(was, NotIn(done))
    ensures Mapped(Without(order, key), entries - {key})
    ensures entries - {key} == had - (done + {key}) && Without(order, key) == Keep(was, NotIn(done + {key}))
    ensures key !in entries ==> Without(order, key) == order && entries - {key} == entries
  {
    MappedRemove(order, entries, key);
    KeepTwice(was, done, key);
    FindMapped(order, entries, key);
  }

  // ---------- The cache object ----------

  class Cache<K(!new, ==), B(!new, ==), D(!new)> {
    var entries: map<K, Entry<K, B, D>>
    var order: seq<Entry<K, B, D>>
    var budgetIndex: map<Option<B>, set<K>>
    var setsSinceSweep: nat
    var hits: nat
    var misses: nat

    /** Map, recency list and index describe the same entries. */
    ghost predicate Linked()
      reads this
    {
      Mapped(order, entries) && Indexed(entries, budgetIndex)
    }

    ghost predicate Valid()
      reads this
    {
      Linked() && Sound(Contents())
    }

    ghost function Contents(): View<K, B, D>
      reads this
    {
      View(order, setsSinceSweep)
    }

    constructor ()
      ensures Valid() && Contents() == View([], 0) && hits == 0 && misses == 0
    {
      entries, order, budgetIndex := map[], [], map[];
      setsSinceSweep, hits, misses := 0, 0, 0;
    }

    method RemoveElement(e: Entry<K, B, D>)
      requires Linked() && e in order
      modifies this`entries, this`order, this`budgetIndex
      ensures Linked() && order == Without(old(order), e.key) && entries == old(entries) - {e.key}
    {
      MappedRemove(order, entries, e.key);
      IndexedRemove(entries, budgetIndex, e.key);
      order := Without(order, e.key);
      entries := entries - {e.key};
      if e.budgetID != None {
        if e.budgetID in budgetIndex {
          var idx := budgetIndex[e.budgetID] - {e.key};
          if idx == {} {
            budgetIndex := budgetIndex - {e.budgetID};
          } else {
            budgetIndex := budgetIndex[e.budgetID := idx];
          }
        }
      }
    }

    method PushFront(e: Entry<K, B, D>)
      requires Linked() && e.key !in entries
      modifies this`entries, this`order, this`budgetIndex
      ensures Linked() && order == [e] + old(order)
    {
      MappedFront(order, entries, e);
      IndexedFront(entries, budgetIndex, e);
      order := [e] + order;
      entries := entries[e.key := e];
      if e.budgetID != None {
        var idx := if e.budgetID in budgetIndex then budgetIndex[e.budgetID] else {};
        budgetIndex := budgetIndex[e.budgetID := idx + {e.key}];
      }
    }

    method Get(key: K, now: int) returns (r: Option<D>)
      requires Valid()
      modifies this
      ensures Valid() && Contents() == Step(old(Contents()), GetOp(key, now))
      ensures r == Answer(old(Contents()), key, now)
      ensures hits == old(hits) + (if r.Some? then 1 else 0)
      ensures misses == old(misses) + (if r.Some? then 0 else 1)
    {
      ghost var v := Contents();
      ghost var w := AfterGet(v, key, now);
      GetSound(v, key, now);
      FindMapped(order, entries, key);
      if key !in entries {
        misses := misses + 1;
        assert Contents() == w;
        return None;
      }
      var e := entries[key];
      if now > e.expiresAt {
        RemoveElement(e);
        misses := misses + 1;
        assert Contents() == w;
        return None;
      }
      MappedRemove(order, entries, key);
      MappedFront(Without(order, key), entries - {key}, e);
      assert (entries - {key})[key := e] == entries;
      order := [e] + Without(order, key);
      hits := hits + 1;
      assert Contents() == w;
      r := Some(e.data);
    }

    method SweepExpired(now: int)
      requires Linked()
      modifies this`entries, this`order, this`budgetIndex
      ensures Linked() && order == Keep(old(order), LiveAt(now))
    {
      var i := |order|;
      ghost var was := order;
      while i > 0
        invariant 0 <= i <= |was| && i <= |order|
        invariant Linked()
        invariant order == was[..i] + Keep(was[i..], LiveAt(now))
      {
        i := i - 1;
        SweepOne(was, order, i, now);
        if now > order[i].expiresAt {
          RemoveElement(order[i]);
        }
      }
    }

    /** The overwrite path: the old node goes, the new one enters at the front. */
    method Replace(e: Entry<K, B, D>)
      requires Linked()
      modifies this`entries, this`order, this`budgetIndex
      ensures Linked() && order == [e] + Without(old(order), e.key)
    {
      FindMapped(order, entries, e.key);
      if e.key in entries {
        RemoveElement(entries[e.key]);
      }
      PushFront(e);
    }

    method SetLocked(key: K, budgetID: Option<B>, data: D, ttl: int, now: int, later: int)
      requires Valid()
      modifies this`entries, this`order, this`budgetIndex, this`setsSinceSweep
      ensures Valid()
      ensures Contents() == AfterSet(old(Contents()), Entry(key, data, now + ttl, budgetID), later)
    {
      ghost var v := Contents();
      var e := Entry(key, data, now + ttl, budgetID);
      Replace(e);
      setsSinceSweep := setsSinceSweep + 1;
      if setsSinceSweep >= SWEEP_INTERVAL {
        setsSinceSweep := 0;
        SweepExpired(later);
      }
      assert order == Inserted(v, e, later);
      Evict();
      ghost var w := AfterSet(v, e, later);
      SetSound(v, e, later);
      assert Contents() == w;
    }

    /** The overflow loop: drop from the back until the list fits. */
    method Evict()
      requires Linked()
      modifies this`entries, this`order, this`budgetIndex
      ensures Linked()
      ensures order == if |old(order)| > MAX_ENTRIES then old(order)[..MAX_ENTRIES] else old(order)
    {
      ghost var s := order;
      while |order| > MAX_ENTRIES
        invariant Linked()
        invariant |order| <= |s| && order == s[..|order|]
        invariant |s| > MAX_ENTRIES ==> |order| >= MAX_ENTRIES
        invariant |s| <= MAX_ENTRIES ==> |order| == |s|
      {
        WithoutAt(order, |order| - 1);
        RemoveElement(order[|order| - 1]);
      }
    }

    method Set(key: K, budgetID: Option<B>, data: D, ttl: int, now: int, later: int)
      requires Valid()
      modifies this
      ensures Valid() && hits == old(hits) && misses == old(misses)
      ensures Contents() == Step(old(Contents()), SetOp(key, budgetID, data, ttl, now, later))
    {
      StepOfSet(Contents(), key, budgetID, data, ttl, now, later);
      if ttl <= 0 {
        return;
      }
      SetLocked(key, budgetID, data, ttl, now, later);
    }

    method Sweep(now: int)
      requires Valid()
      modifies this
      ensures Valid() && hits == old(hits) && misses == old(misses)
      ensures Contents() == Step(old(Contents()), SweepOp(now))
    {
      StepSound(Contents(), SweepOp(now));
      SweepExpired(now);
      setsSinceSweep := 0;
    }

    method Delete(key: K)
      requires Valid()
      modifies this
      ensures Valid() && hits == old(hits) && misses == old(misses)
      ensures Contents() == Step(old(Contents()), DeleteOp(key))
    {
      StepSound(Contents(), DeleteOp(key));
      FindMapped(order, entries, key);
      if key in entries {
        RemoveElement(entries[key]);
      }
    }

    method InvalidateBudget(budgetID: Option<B>)
      requires Valid()
      modifies this
      ensures Valid() && hits == old(hits) && misses == old(misses)
      ensures Contents() == Step(old(Contents()), InvalidateOp(budgetID))
    {
      ghost var v := Contents();
      ghost var w := Step(v, InvalidateOp(budgetID));
      StepSound(v, InvalidateOp(budgetID));
      BucketSplits(order, entries, budgetIndex, budgetID);
      if budgetID !in budgetIndex {
        assert Contents() == w;
        return;
      }
      IndexedDrop(entries, budgetIndex, budgetID);
      DropKeys(budgetIndex[budgetID]);
      budgetIndex := budgetIndex - {budgetID};
      assert Contents() == w;
    }

    /** The walk over one bucket: the index itself is left for the caller to delete in one go. */
    method DropKeys(keys: set<K>)
      requires Mapped(order, entries)
      modifies this`entries, this`order
      ensures Mapped(order, entries)
      ensures entries == old(entries) - keys && order == Keep(old(order), NotIn(keys))
    {
      var pending := keys;
      ghost var was, had, done := order, entries, {};
      KeepAll(was, NotIn({}));
      while pending != {}
        invariant pending + done == keys
        invariant Mapped(order, entries)
        invariant entries == had - done && order == Keep(was, NotIn(done))
      {
        var key :| key in pending;
        DropOne(was, had, order, entries, done, key);
        pending, done := pending - {key}, done + {key};
        if key in entries {
          order := Without(order, key);
          entries := entries - {key};
        }
      }
    }

    method Clear()
      requires Valid()
      modifies this
      ensures Valid() && hits == old(hits) && misses == old(misses)
      ensures Contents() == Step(old(Contents()), ClearOp)
    {
      entries, order, budgetIndex := map[], [], map[];
      setsSinceSweep := 0;
    }
  }

  /** One step of the tail-first sweep: position i is kept or dropped in front of the swept rest. */
  lemma SweepOne<K(!new), B(!new), D(!new)>(was: seq<Entry<K, B, D>>, order: seq<Entry<K, B, D>>, i: nat, now: int)
    requires i < |was| && Distinct(order)
    requires order == was[..i + 1] + Keep(was[i + 1..], LiveAt(now))
    ensures |order| > i && order[i] == was[i]
    ensures (if now > was[i].expiresAt then Without(order, order[i].key) else order) == was[..i] + Keep(was[i..], LiveAt(now))
  {
    var rest := Keep(was[i + 1..], LiveAt(now));
    assert was[i..][1..] == was[i + 1..];
    assert order[..i] == was[..i] && order[i + 1..] == rest;
    WithoutAt(order, i);
  }
}
