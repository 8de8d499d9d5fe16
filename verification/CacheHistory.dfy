/** What the response cache holds after any sequence of operations, told from the operations alone:
    which stored value survives, in which order, and for how long an expired one can linger. */
module CacheHistory {
  import opened Wrappers
  import opened ResponseCache

  function Run<K(!new, ==), B(!new, ==), D(!new)>(ops: seq<Op<K, B, D>>): View<K, B, D> {
    if ops == [] then View([], 0) else Step(Run(ops[..|ops| - 1]), ops[|ops| - 1])
  }

  lemma {:induction false} RunSound<K(!new), B(!new), D(!new)>(ops: seq<Op<K, B, D>>)
    ensures Sound(Run(ops)) && |Run(ops).order| <= 10000
  {
    if ops != [] {
      RunSound(ops[..|ops| - 1]);
      StepSound(Run(ops[..|ops| - 1]), ops[|ops| - 1]);
    }
  }

  // ---------- Which entries survive ----------

  predicate Inserts<K(!new, ==), B(!new, ==), D(!new, ==)>(op: Op<K, B, D>, e: Entry<K, B, D>) {
    op.SetOp? && op.ttl > 0 && e == Entry(op.key, op.data, op.now + op.ttl, op.budgetID)
  }

  predicate SweepsOnInsert<K(!new), B(!new), D(!new)>(v: View<K, B, D>, op: Op<K, B, D>) {
    op.SetOp? && op.ttl > 0 && v.sinceSweep + 1 >= 256
  }

  /** The insert overflows a full cache, and e is the least recently touched entry. */
  ghost predicate Evicts<K(!new), B(!new), D(!new)>(v: View<K, B, D>, op: Op<K, B, D>, e: Entry<K, B, D>)
    requires op.SetOp?
  {
    && |v.order| == 10000 && e == v.order[9999]
    && (forall i :: 0 <= i < |v.order| ==> v.order[i].key != op.key)
    && (SweepsOnInsert(v, op) ==>
          op.later <= op.now + op.ttl && forall i :: 0 <= i < |v.order| ==> op.later <= v.order[i].expiresAt)
  }

  /** Every reason for which an operation removes a stored entry. */
  ghost predicate Ousts<K(!new), B(!new), D(!new)>(v: View<K, B, D>, op: Op<K, B, D>, e: Entry<K, B, D>) {
    match op
    case GetOp(key, now) => key == e.key && now > e.expiresAt
    case SetOp(key, _, _, ttl, _, later) =>
      ttl > 0 && (key == e.key || (SweepsOnInsert(v, op) && later > e.expiresAt) || Evicts(v, op, e))
    case DeleteOp(key) => key == e.key
    case InvalidateOp(budgetID) => budgetID != None && budgetID == e.budgetID
    case ClearOp => true
    case SweepOp(now) => now > e.expiresAt
  }

  lemma KeepFull<K(!new), B(!new), D(!new)>(s: seq<Entry<K, B, D>>, t: Test<K, B>)
    ensures |Keep(s, t)| == |s| <==> forall i :: 0 <= i < |s| ==> Holds(t, s[i])
    decreases |s|
  {
    if s != [] {
      KeepFull(s[1..], t);
      assert forall i :: 0 <= i < |s[1..]| ==> s[1..][i] == s[i + 1];
      if forall i :: 0 <= i < |s| ==> Holds(t, s[i]) {
        forall i | 0 <= i < |s[1..]| ensures Holds(t, s[1..][i]) {
          assert Holds(t, s[i + 1]);
        }
      }
    }
  }

  lemma GetMember<K(!new), B(!new), D(!new)>(v: View<K, B, D>, key: K, now: int, e: Entry<K, B, D>)
    requires Sound(v)
    ensures e in AfterGet(v, key, now).order <==> e in v.order && !(key == e.key && now > e.expiresAt)
  {
    KeepMember(v.order, NotKey(key), e);
    var f := Find(v.order, key);
    if e in v.order {
      FindUnique(v.order, e);
    }
  }

  lemma OverflowMember<K(!new), B(!new), D(!new)>(s: seq<Entry<K, B, D>>, e: Entry<K, B, D>)
    requires Distinct(s) && |s| == MAX_ENTRIES + 1
    ensures e in s[..MAX_ENTRIES] <==> e in s && e != s[MAX_ENTRIES]
  {
    if e in s && e != s[MAX_ENTRIES] {
      var i :| 0 <= i < |s| && s[i] == e;
      assert s[..MAX_ENTRIES][i] == e;
    }
  }

  /** The list only overflows when a full list takes a new key and the sweep, if due, finds nothing. */
  lemma InsertedSize<K(!new), B(!new), D(!new)>(v: View<K, B, D>, x: Entry<K, B, D>, later: int)
    requires Sound(v)
    ensures Distinct(Inserted(v, x, later)) && |Inserted(v, x, later)| <= MAX_ENTRIES + 1
    ensures |Inserted(v, x, later)| == MAX_ENTRIES + 1 <==>
            && |v.order| == MAX_ENTRIES
            && (forall i :: 0 <= i < |v.order| ==> v.order[i].key != x.key)
            && (v.sinceSweep + 1 >= SWEEP_INTERVAL ==>
                  later <= x.expiresAt && forall i :: 0 <= i < |v.order| ==> later <= v.order[i].expiresAt)
    ensures |Inserted(v, x, later)| == MAX_ENTRIES + 1 ==> Inserted(v, x, later) == [x] + v.order
  {
    var rest := Without(v.order, x.key);
    var grown := [x] + rest;
    MovedToFront(v.order, x);
    KeepDistinct(grown, LiveAt(later));
    KeepFull(v.order, NotKey(x.key));
    if |rest| == |v.order| {
      KeepAll(v.order, NotKey(x.key));
      KeepFull(grown, LiveAt(later));
      assert grown[0] == x && forall i :: 0 <= i < |v.order| ==> grown[i + 1] == v.order[i];
      if |Keep(grown, LiveAt(later))| == |grown| {
        KeepAll(grown, LiveAt(later));
        forall i | 0 <= i < |v.order| ensures later <= v.order[i].expiresAt {
          assert Holds(LiveAt(later), grown[i + 1]);
        }
      }
    }
  }

  lemma InsertedMember<K(!new), B(!new), D(!new)>(v: View<K, B, D>, x: Entry<K, B, D>, later: int, e: Entry<K, B, D>)
    ensures e in Inserted(v, x, later) <==>
            (e == x || (e in v.order && e.key != x.key)) && (v.sinceSweep + 1 >= SWEEP_INTERVAL ==> later <= e.expiresAt)
  {
    var rest := Without(v.order, x.key);
    KeepMember(v.order, NotKey(x.key), e);
    KeepMember([x] + rest, LiveAt(later), e);
    assert e in [x] + rest <==> e == x || e in rest;
  }

  lemma AfterSetMember<K(!new), B(!new), D(!new)>(v: View<K, B, D>, x: Entry<K, B, D>, later: int, e: Entry<K, B, D>)
    requires Sound(v)
    ensures e in AfterSet(v, x, later).order <==>
            e in Inserted(v, x, later) && !(|Inserted(v, x, later)| == MAX_ENTRIES + 1 && e == v.order[MAX_ENTRIES - 1])
  {
    var s := Inserted(v, x, later);
    InsertedSize(v, x, later);
    if |s| == MAX_ENTRIES + 1 {
      OverflowMember(s, e);
      assert s[MAX_ENTRIES] == v.order[MAX_ENTRIES - 1];
    }
  }

  lemma SetMember<K(!new), B(!new), D(!new)>(v: View<K, B, D>, op: Op<K, B, D>, e: Entry<K, B, D>)
    requires Sound(v) && op.SetOp? && op.ttl > 0
    ensures e in AfterSet(v, Entry(op.key, op.data, op.now + op.ttl, op.budgetID), op.later).order <==>
            || (e in v.order && !Ousts(v, op, e))
            || (Inserts(op, e) && !(SweepsOnInsert(v, op) && op.later > e.expiresAt))
  {
    var x := Entry(op.key, op.data, op.now + op.ttl, op.budgetID);
    AfterSetMember(v, x, op.later, e);
    InsertedMember(v, x, op.later, e);
    InsertedSize(v, x, op.later);
  }

  /** One step: what stays is what no reason removes, plus what is stored. */
  lemma StepMember<K(!new), B(!new), D(!new)>(v: View<K, B, D>, op: Op<K, B, D>, e: Entry<K, B, D>)
    requires Sound(v)
    ensures e in Step(v, op).order <==>
            || (e in v.order && !Ousts(v, op, e))
            || (Inserts(op, e) && !(SweepsOnInsert(v, op) && op.later > e.expiresAt))
  {
    hide AfterGet, AfterSet, Find, Keep, Sound;
    if op.GetOp? {
      GetMember(v, op.key, op.now, e);
    } else if op.SetOp? {
      StepOfSet(v, op.key, op.budgetID, op.data, op.ttl, op.now, op.later);
      if op.ttl > 0 {
        SetMember(v, op, e);
      }
    } else if op.DeleteOp? {
      KeepMember(v.order, NotKey(op.key), e);
    } else if op.InvalidateOp? {
      KeepMember(v.order, NotFor(op.budgetID), e);
    } else if op.SweepOp? {
      KeepMember(v.order, LiveAt(op.now), e);
    }
  }

  /** Operation i stored e, and no operation since has removed it. */
  ghost predicate HeldSince<K(!new), B(!new), D(!new)>(ops: seq<Op<K, B, D>>, i: nat, e: Entry<K, B, D>) {
    && i < |ops| && Inserts(ops[i], e)
    && !(SweepsOnInsert(Run(ops[..i]), ops[i]) && ops[i].later > e.expiresAt)
    && forall j :: i < j < |ops| ==> !Ousts(Run(ops[..j]), ops[j], e)
  }

  lemma HeldSincePrefix<K(!new), B(!new), D(!new)>(ops: seq<Op<K, B, D>>, i: nat, e: Entry<K, B, D>)
    requires |ops| > 0
    ensures var n := |ops| - 1;
            HeldSince(ops, i, e) <==>
            || (HeldSince(ops[..n], i, e) && !Ousts(Run(ops[..n]), ops[n], e))
            || (i == n && Inserts(ops[n], e) && !(SweepsOnInsert(Run(ops[..n]), ops[n]) && ops[n].later > e.expiresAt))
  {
    hide Run, Ousts, Inserts, SweepsOnInsert;
    var n := |ops| - 1;
    var was := ops[..n];
    forall j | 0 <= j < n ensures was[..j] == ops[..j] && was[j] == ops[j] {
    }
    if HeldSince(was, i, e) && !Ousts(Run(was), ops[n], e) {
      forall j | i < j < |ops| ensures !Ousts(Run(ops[..j]), ops[j], e) {
        if j < n {
          assert was[..j] == ops[..j];
        }
      }
    }
    if HeldSince(ops, i, e) && i < n {
      assert was[..i] == ops[..i];
      forall j | i < j < n ensures !Ousts(Run(was[..j]), was[j], e) {
        assert was[..j] == ops[..j];
      }
    }
  }

  /** An entry is in the cache exactly if some Set stored it and nothing since gave a reason to drop it. */
  lemma {:induction false} Residency<K(!new), B(!new), D(!new)>(ops: seq<Op<K, B, D>>, e: Entry<K, B, D>)
    ensures e in Run(ops).order <==> exists i: nat :: HeldSince(ops, i, e)
  {
    if ops != [] {
      var n := |ops| - 1;
      Residency(ops[..n], e);
      RunSound(ops[..n]);
      StepMember(Run(ops[..n]), ops[n], e);
      if i: nat :| HeldSince(ops, i, e) {
        HeldSincePrefix(ops, i, e);
      }
      if e in Run(ops).order {
        if e in Run(ops[..n]).order && !Ousts(Run(ops[..n]), ops[n], e) {
          var i: nat :| HeldSince(ops[..n], i, e);
          HeldSincePrefix(ops, i, e);
        } else {
          HeldSincePrefix(ops, n, e);
        }
      }
    }
  }

  /** Get answers d exactly if the latest Set of the key stored d, nothing has removed it since
      (delete, invalidation, clear, sweep, expiry on read, eviction), and it is not expired. */
  lemma GetAnswersLatestSet<K(!new), B(!new), D(!new)>(ops: seq<Op<K, B, D>>, key: K, now: int, d: D)
    ensures Answer(Run(ops), key, now) == Some(d) <==>
            exists i: nat, e: Entry<K, B, D> ::
              HeldSince(ops, i, e) && e.key == key && e.data == d && now <= e.expiresAt
  {
    RunSound(ops);
    var f := Find(Run(ops).order, key);
    if f.Some? {
      Residency(ops, f.value);
    }
    if i: nat, e: Entry<K, B, D> :| HeldSince(ops, i, e) && e.key == key && e.data == d && now <= e.expiresAt {
      Residency(ops, e);
      FindUnique(Run(ops).order, e);
    }
  }

  // ---------- Recency ----------

  predicate Touches<K(!new, ==), B(!new, ==), D(!new)>(v: View<K, B, D>, op: Op<K, B, D>, key: K) {
    || (op.SetOp? && op.ttl > 0 && op.key == key)
    || (op.GetOp? && op.key == key && Answer(v, key, op.now).Some?)
  }

  /** One more than the position of the last store or hit of the key, 0 if there is none. */
  function LastTouch<K(!new, ==), B(!new, ==), D(!new)>(ops: seq<Op<K, B, D>>, key: K): (t: nat)
    ensures t <= |ops|
  {
    if ops == [] then 0
    else if Touches(Run(ops[..|ops| - 1]), ops[|ops| - 1], key) then |ops|
    else LastTouch(ops[..|ops| - 1], key)
  }

  ghost predicate Ranked<K(!new), B(!new), D(!new)>(ops: seq<Op<K, B, D>>, s: seq<Entry<K, B, D>>) {
    forall i, j :: 0 <= i < j < |s| ==> LastTouch(ops, s[i].key) > LastTouch(ops, s[j].key)
  }

  lemma {:induction false} KeepBelow<K(!new), B(!new), D(!new)>(ops: seq<Op<K, B, D>>, s: seq<Entry<K, B, D>>, t: Test<K, B>, bound: nat)
    requires forall i :: 0 <= i < |s| ==> LastTouch(ops, s[i].key) < bound
    ensures forall i :: 0 <= i < |Keep(s, t)| ==> LastTouch(ops, Keep(s, t)[i].key) < bound
  {
    if s != [] {
      KeepBelow(ops, s[1..], t, bound);
    }
  }

  lemma {:induction false} RankedKeep<K(!new), B(!new), D(!new)>(ops: seq<Op<K, B, D>>, s: seq<Entry<K, B, D>>, t: Test<K, B>)
    requires Ranked(ops, s)
    ensures Ranked(ops, Keep(s, t))
  {
    if s != [] {
      RankedKeep(ops, s[1..], t);
      KeepBelow(ops, s[1..], t, LastTouch(ops, s[0].key));
    }
  }

  /** Entries whose keys the last operation did not touch keep their ranks. */
  lemma RankedLater<K(!new), B(!new), D(!new)>(ops: seq<Op<K, B, D>>, s: seq<Entry<K, B, D>>)
    requires |ops| > 0 && Ranked(ops[..|ops| - 1], s)
    requires forall i :: 0 <= i < |s| ==> !Touches(Run(ops[..|ops| - 1]), ops[|ops| - 1], s[i].key)
    ensures Ranked(ops, s)
    ensures forall i :: 0 <= i < |s| ==> LastTouch(ops, s[i].key) < |ops|
  {
  }

  lemma RankedFront<K(!new), B(!new), D(!new)>(ops: seq<Op<K, B, D>>, s: seq<Entry<K, B, D>>, e: Entry<K, B, D>)
    requires |ops| > 0 && Ranked(ops[..|ops| - 1], s)
    requires Touches(Run(ops[..|ops| - 1]), ops[|ops| - 1], e.key)
    requires forall i :: 0 <= i < |s| ==> !Touches(Run(ops[..|ops| - 1]), ops[|ops| - 1], s[i].key)
    ensures Ranked(ops, [e] + s)
  {
    RankedLater(ops, s);
  }

  lemma RankedTouch<K(!new), B(!new), D(!new)>(ops: seq<Op<K, B, D>>, s: seq<Entry<K, B, D>>, e: Entry<K, B, D>)
    requires |ops| > 0 && Ranked(ops[..|ops| - 1], s)
    requires Touches(Run(ops[..|ops| - 1]), ops[|ops| - 1], e.key)
    ensures Ranked(ops, [e] + Without(s, e.key))
  {
    RankedKeep(ops[..|ops| - 1], s, NotKey(e.key));
    var r := Without(s, e.key);
    forall i | 0 <= i < |r| ensures !Touches(Run(ops[..|ops| - 1]), ops[|ops| - 1], r[i].key) {
      KeepMember(s, NotKey(e.key), r[i]);
    }
    RankedFront(ops, r, e);
  }

  lemma RankedGet<K(!new), B(!new), D(!new)>(ops: seq<Op<K, B, D>>, v: View<K, B, D>, key: K, now: int)
    requires |ops| > 0 && ops[|ops| - 1] == GetOp(key, now) && v == Run(ops[..|ops| - 1])
    requires Ranked(ops[..|ops| - 1], v.order)
    ensures Ranked(ops, AfterGet(v, key, now).order)
  {
    var w := AfterGet(v, key, now);
    var f := Find(v.order, key);
    if f.Some? && now <= f.value.expiresAt {
      RankedTouch(ops, v.order, f.value);
    } else {
      RankedKeep(ops[..|ops| - 1], v.order, NotKey(key));
      RankedLater(ops, w.order);
    }
    assert Ranked(ops, w.order);
  }

  lemma RankedSet<K(!new), B(!new), D(!new)>(ops: seq<Op<K, B, D>>, v: View<K, B, D>, e: Entry<K, B, D>, later: int)
    requires |ops| > 0 && v == Run(ops[..|ops| - 1]) && Touches(v, ops[|ops| - 1], e.key)
    requires Ranked(ops[..|ops| - 1], v.order)
    ensures Ranked(ops, AfterSet(v, e, later).order)
  {
    var grown, w := [e] + Without(v.order, e.key), AfterSet(v, e, later);
    RankedTouch(ops, v.order, e);
    RankedKeep(ops, grown, LiveAt(later));
    assert Ranked(ops, w.order);
  }

  lemma RankedFiltered<K(!new), B(!new), D(!new)>(ops: seq<Op<K, B, D>>, v: View<K, B, D>, t: Test<K, B>)
    requires |ops| > 0 && v == Run(ops[..|ops| - 1])
    requires !ops[|ops| - 1].SetOp? && !ops[|ops| - 1].GetOp?
    requires Ranked(ops[..|ops| - 1], v.order)
    ensures Ranked(ops, Keep(v.order, t)) && Ranked(ops, v.order)
  {
    RankedKeep(ops[..|ops| - 1], v.order, t);
    RankedLater(ops, Keep(v.order, t));
    RankedLater(ops, v.order);
  }

  lemma RankedStep<K(!new), B(!new), D(!new)>(ops: seq<Op<K, B, D>>, v: View<K, B, D>, op: Op<K, B, D>)
    requires |ops| > 0 && v == Run(ops[..|ops| - 1]) && op == ops[|ops| - 1]
    requires Ranked(ops[..|ops| - 1], v.order)
    ensures Ranked(ops, Step(v, op).order)
  {
    var w := Step(v, op).order;
    if op.GetOp? {
      RankedGet(ops, v, op.key, op.now);
    } else if op.SetOp? && op.ttl > 0 {
      RankedSet(ops, v, Entry(op.key, op.data, op.now + op.ttl, op.budgetID), op.later);
    } else if op.SetOp? {
      RankedLater(ops, v.order);
    } else if !op.ClearOp? {
      RankedFiltered(ops, v, match op
                             case DeleteOp(key) => NotKey(key)
                             case InvalidateOp(budgetID) => NotFor(budgetID)
                             case SweepOp(now) => LiveAt(now));
    }
    assert Ranked(ops, w);
  }

  /** The recency list is sorted by last touch, most recent first; so eviction from its back
      removes the least recently touched entry. */
  lemma {:induction false} OrderIsLastTouchOrder<K(!new), B(!new), D(!new)>(ops: seq<Op<K, B, D>>)
    ensures Ranked(ops, Run(ops).order)
  {
    if ops != [] {
      OrderIsLastTouchOrder(ops[..|ops| - 1]);
      RankedStep(ops, Run(ops[..|ops| - 1]), ops[|ops| - 1]);
    }
  }

  // ---------- How long an expired entry can linger ----------

  predicate ClockFrom<K(!new), B(!new), D(!new)>(op: Op<K, B, D>, t: int) {
    match op
    case GetOp(_, now) => t <= now
    case SetOp(_, _, _, _, now, later) => t <= now <= later
    case SweepOp(now) => t <= now
    case _ => true
  }

  function Stores<K(!new), B(!new), D(!new)>(ops: seq<Op<K, B, D>>): nat {
    if ops == [] then 0
    else Stores(ops[..|ops| - 1]) + (if ops[|ops| - 1].SetOp? && ops[|ops| - 1].ttl > 0 then 1 else 0)
  }

  lemma SinceSweepStep<K(!new), B(!new), D(!new)>(v: View<K, B, D>, op: Op<K, B, D>)
    ensures Step(v, op).sinceSweep ==
            if op.ClearOp? || op.SweepOp? || SweepsOnInsert(v, op) then 0
            else if op.SetOp? && op.ttl > 0 then v.sinceSweep + 1 else v.sinceSweep
  {
    hide Keep, Find;
    if op.SetOp? {
      StepOfSet(v, op.key, op.budgetID, op.data, op.ttl, op.now, op.later);
    }
  }

  lemma {:induction false} LingeringCounts<K(!new), B(!new), D(!new)>(ops: seq<Op<K, B, D>>, more: seq<Op<K, B, D>>, e: Entry<K, B, D>, t: int)
    requires e.expiresAt < t && forall i :: 0 <= i < |more| ==> ClockFrom(more[i], t)
    requires e in Run(ops + more).order
    ensures Run(ops + more).sinceSweep >= Stores(more)
  {
    if more != [] {
      var n := |more| - 1;
      assert (ops + more)[..|ops + more| - 1] == ops + more[..n];
      hide Step;
      var v := Run(ops + more[..n]);
      RunSound(ops + more[..n]);
      SinceSweepStep(v, more[n]);
      StepMember(v, more[n], e);
      assert !Inserts(more[n], e);
      LingeringCounts(ops, more[..n], e, t);
    }
  }

  /** With a monotone clock, an entry that has expired by time t is gone once 256 more values
      have been stored, whatever reads, sweeps, clears and invalidations come between. */
  lemma ExpiredGoneAfter256Stores<K(!new), B(!new), D(!new)>(ops: seq<Op<K, B, D>>, more: seq<Op<K, B, D>>, e: Entry<K, B, D>, t: int)
    requires e.expiresAt < t && forall i :: 0 <= i < |more| ==> ClockFrom(more[i], t)
    requires Stores(more) >= 256
    ensures e !in Run(ops + more).order
  {
    RunSound(ops + more);
    if e in Run(ops + more).order {
      LingeringCounts(ops, more, e, t);
    }
  }
}
