/** Whether the bucket index agrees with the clients' own subscription sets. What happens to one
    client depends on its own actions only, so agreement is a matter of how its calls overlap. */
module HubAgreement {
  import opened Wrappers
  import opened HubSteps

  // ---------- One client's share of the state ----------

  datatype Local = Local(registered: bool, indexed: set<BudgetID>, subs: set<BudgetID>, snap: Option<set<BudgetID>>)

  function IndexedIn<C(==)>(buckets: Buckets<C>, c: C): set<BudgetID> { set b | b in buckets && c in buckets[b] }

  function LocalOf<C(==)>(s: State<C>, c: C): Local
    requires c in s.views
  {
    Local(c in s.clients, IndexedIn(s.buckets, c), s.views[c].budgetIDs,
          if s.registering.Some? && s.registering.value.client == c then Some(s.registering.value.budgets) else None)
  }

  function LocalStep<C(==)>(l: Local, a: Action<C>, c: C): Local {
    match a
    case RegisterSnapshot(x) => if x == c then l.(snap := Some(l.subs)) else l
    case RegisterCommit => if l.snap.Some? then Local(true, l.indexed + l.snap.value, l.subs, None) else l
    case Unregister(x) => if x == c && l.registered then l.(registered := false, indexed := {}) else l
    case SubscribeLocal(x, b) => if x == c then l.(subs := l.subs + {b}) else l
    case SubscribeIndex(x, b) => if x == c && l.registered then l.(indexed := l.indexed + {b}) else l
    case UnsubscribeLocal(x, b) => if x == c then l.(subs := l.subs - {b}) else l
    case UnsubscribeIndex(x, b) => if x == c then l.(indexed := l.indexed - {b}) else l
    case _ => l
  }

  lemma IndexedAfter<C>(buckets: Buckets<C>, x: C, c: C, b: BudgetID, bs: set<BudgetID>)
    ensures IndexedIn(Index(buckets, x, b), c) == IndexedIn(buckets, c) + (if x == c then {b} else {})
    ensures IndexedIn(IndexAll(buckets, x, bs), c) == IndexedIn(buckets, c) + (if x == c then bs else {})
    ensures IndexedIn(Unindex(buckets, x, b), c) == IndexedIn(buckets, c) - (if x == c then {b} else {})
    ensures IndexedIn(UnindexAll(buckets, x), c) == if x == c then {} else IndexedIn(buckets, c)
  {
    IndexedAfterAll(buckets, x, c, bs);
    IndexedAfterRemoval(buckets, x, c, b);
    hide IndexAll, Unindex, UnindexAll;
  }

  lemma IndexedAfterAll<C>(buckets: Buckets<C>, x: C, c: C, bs: set<BudgetID>)
    ensures IndexedIn(IndexAll(buckets, x, bs), c) == IndexedIn(buckets, c) + (if x == c then bs else {})
    ensures IndexedIn(UnindexAll(buckets, x), c) == if x == c then {} else IndexedIn(buckets, c)
  {
    forall d ensures d in IndexedIn(IndexAll(buckets, x, bs), c) <==> d in IndexedIn(buckets, c) || (x == c && d in bs) {
    }
  }

  lemma IndexedAfterRemoval<C>(buckets: Buckets<C>, x: C, c: C, b: BudgetID)
    ensures IndexedIn(Unindex(buckets, x, b), c) == IndexedIn(buckets, c) - (if x == c then {b} else {})
  {
    forall d ensures d in IndexedIn(Unindex(buckets, x, b), c) <==> d in IndexedIn(buckets, c) && !(x == c && d == b) {
      if b in buckets && buckets[b] - {x} == {} && x != c {
        assert c !in buckets[b] - {x};
      }
    }
  }

  /** One step of the hub is one local step of every client. */
  lemma StepIsLocal<C>(s: State<C>, a: Action<C>, c: C)
    requires Safe(s) && Enabled(s, a) && c in s.views
    ensures Step(s, a).Some? && c in Step(s, a).value.views
    ensures LocalOf(Step(s, a).value, c) == LocalStep(LocalOf(s, c), a, c)
  {
    StepIsSafe(s, a);
    hide IndexedIn, Index, IndexAll, Unindex, UnindexAll, Safe, Bucket, Offered;
    match a
    case RegisterCommit => IndexedAfter(s.buckets, s.registering.value.client, c, 0, s.registering.value.budgets);
    case Unregister(x) => IndexedAfter(s.buckets, x, c, 0, {});
    case SubscribeIndex(x, b) => IndexedAfter(s.buckets, x, c, b, {});
    case UnsubscribeIndex(x, b) => IndexedAfter(s.buckets, x, c, b, {});
    case _ =>
  }

  function LocalRun<C(==)>(l: Local, acts: seq<Action<C>>, c: C): Local {
    if acts == [] then l else LocalStep(LocalRun(l, acts[..|acts| - 1], c), acts[|acts| - 1], c)
  }

  lemma {:induction false} RunIsLocal<C>(s: State<C>, acts: seq<Action<C>>, c: C)
    requires Fresh(s) && Possible(s, acts) && c in s.views
    ensures Run(s, acts).Some? && c in Run(s, acts).value.views
    ensures LocalOf(Run(s, acts).value, c) == LocalRun(LocalOf(s, c), acts, c)
  {
    RunsAreSafe(s, acts);
    if acts != [] {
      hide Enabled, Step, Safe, LocalOf, LocalStep;
      RunsAreSafe(s, acts[..|acts| - 1]);
      RunIsLocal(s, acts[..|acts| - 1], c);
      StepIsLocal(Run(s, acts[..|acts| - 1]).value, acts[|acts| - 1], c);
    }
  }

  // ---------- Calls that do not overlap ----------

  datatype Call = Registering | Subscribing(budget: BudgetID) | Unsubscribing(budget: BudgetID)

  /** The call of client c in progress after an action. */
  function InProgress<C(==)>(p: Option<Call>, a: Action<C>, c: C): Option<Call> {
    match a
    case RegisterSnapshot(x) => if x == c then Some(Registering) else p
    case RegisterCommit => if p == Some(Registering) then None else p
    case SubscribeLocal(x, b) => if x == c then Some(Subscribing(b)) else p
    case SubscribeIndex(x, _) => if x == c then None else p
    case UnsubscribeLocal(x, b) => if x == c then Some(Unsubscribing(b)) else p
    case UnsubscribeIndex(x, _) => if x == c then None else p
    case _ => p
  }

  /** The action starts a call of c when none is in progress, or finishes the one in progress.
      Unregister may come at any time. */
  predicate InTurn<C(==)>(p: Option<Call>, a: Action<C>, c: C) {
    match a
    case RegisterSnapshot(x) => x == c ==> p.None?
    case SubscribeLocal(x, _) => x == c ==> p.None?
    case UnsubscribeLocal(x, _) => x == c ==> p.None?
    case SubscribeIndex(x, b) => x == c ==> p == Some(Subscribing(b))
    case UnsubscribeIndex(x, b) => x == c ==> p == Some(Unsubscribing(b))
    case _ => true
  }

  function CallAfter<C(==)>(acts: seq<Action<C>>, c: C): Option<Call> {
    if acts == [] then None else InProgress(CallAfter(acts[..|acts| - 1], c), acts[|acts| - 1], c)
  }

  /** The calls of client c in the run do not overlap; other clients' calls may. */
  predicate Serial<C(==)>(acts: seq<Action<C>>, c: C) {
    acts == [] || (Serial(acts[..|acts| - 1], c) && InTurn(CallAfter(acts[..|acts| - 1], c), acts[|acts| - 1], c))
  }

  ghost predicate Agrees(l: Local, p: Option<Call>) {
    match p
    case None => l.snap.None? && l.indexed == if l.registered then l.subs else {}
    case Some(Registering) => l.snap == Some(l.subs) && l.indexed == {} && !l.registered
    case Some(Subscribing(b)) => l.snap.None? && b in l.subs && if l.registered then l.indexed + {b} == l.subs else l.indexed == {}
    case Some(Unsubscribing(b)) => l.snap.None? && b !in l.subs && if l.registered then l.indexed - {b} == l.subs else l.indexed == {}
  }

  lemma StepAgrees<C>(l: Local, p: Option<Call>, a: Action<C>, c: C)
    requires Agrees(l, p) && InTurn(p, a, c)
    requires a == RegisterSnapshot(c) ==> !l.registered
    requires a == Unregister(c) ==> l.snap.None?
    ensures Agrees(LocalStep(l, a, c), InProgress(p, a, c))
  {
  }

  lemma {:induction false} SerialRunAgrees<C>(s: State<C>, acts: seq<Action<C>>, c: C)
    requires Fresh(s) && Possible(s, acts) && c in s.views && Serial(acts, c)
    ensures Run(s, acts).Some? && c in Run(s, acts).value.views
    ensures Agrees(LocalOf(Run(s, acts).value, c), CallAfter(acts, c))
  {
    RunIsLocal(s, acts, c);
    if acts != [] {
      hide LocalStep, InProgress, Agrees, InTurn, Step;
      var front, a := acts[..|acts| - 1], acts[|acts| - 1];
      RunIsLocal(s, front, c);
      RunsAreSafe(s, front);
      SerialRunAgrees(s, front, c);
      StepAgrees(LocalOf(Run(s, front).value, c), CallAfter(front, c), a, c);
    }
  }

  /** After any run in which the client's calls do not overlap, and with none of them in progress, it
      is in the bucket of exactly the budgets it is subscribed to while registered. */
  lemma BucketsMatchSubscriptions<C>(s: State<C>, acts: seq<Action<C>>, c: C, b: BudgetID)
    requires Fresh(s) && Possible(s, acts) && c in s.views && Serial(acts, c) && CallAfter(acts, c).None?
    ensures Run(s, acts).Some? && c in Run(s, acts).value.views
    ensures var t := Run(s, acts).value;
            c in Bucket(t.buckets, b) <==> c in t.clients && b in t.views[c].budgetIDs
  {
    SerialRunAgrees(s, acts, c);
    hide Run;
    var t := Run(s, acts).value;
    assert b in IndexedIn(t.buckets, c) <==> c in Bucket(t.buckets, b);
  }

  /** So a broadcast over the bucket reaches the same clients as a scan of all registered clients. */
  lemma BucketIsScan<C>(s: State<C>, acts: seq<Action<C>>, b: BudgetID)
    requires Fresh(s) && Possible(s, acts)
    requires forall c :: c in s.views ==> Serial(acts, c) && CallAfter(acts, c).None?
    ensures Run(s, acts).Some? && Safe(Run(s, acts).value)
    ensures var t := Run(s, acts).value;
            t.views.Keys == s.views.Keys &&
            Bucket(t.buckets, b) == set c | c in t.clients && b in t.views[c].budgetIDs
  {
    hide Run, Safe, Serial, CallAfter, Possible;
    RunsAreSafe(s, acts);
    ViewsStay(s, acts);
    var t := Run(s, acts).value;
    forall c | c in t.views ensures c in Bucket(t.buckets, b) <==> c in t.clients && b in t.views[c].budgetIDs {
      BucketsMatchSubscriptions(s, acts, c, b);
    }
    SafeScan(t, b);
  }

  lemma SafeScan<C>(t: State<C>, b: BudgetID)
    requires Safe(t)
    ensures t.clients <= t.views.Keys && Bucket(t.buckets, b) <= t.clients
  {
  }

  lemma {:induction false} ViewsStay<C>(s: State<C>, acts: seq<Action<C>>)
    requires Fresh(s) && Possible(s, acts)
    ensures Run(s, acts).Some? && Run(s, acts).value.views.Keys == s.views.Keys
  {
    RunsAreSafe(s, acts);
    if acts != [] {
      hide Enabled, Step, Safe;
      ViewsStay(s, acts[..|acts| - 1]);
      RunsAreSafe(s, acts[..|acts| - 1]);
      StepViews(Run(s, acts[..|acts| - 1]).value, acts[|acts| - 1]);
    }
  }

  lemma StepViews<C>(s: State<C>, a: Action<C>)
    requires Safe(s) && Enabled(s, a)
    ensures Step(s, a).Some? && Step(s, a).value.views.Keys == s.views.Keys
  {
    StepIsSafe(s, a);
  }

  // ---------- One registration racing one subscription or unsubscription ----------

  /** The action belongs to no call of c that could change its share of the state. */
  predicate Elsewhere<C(==)>(a: Action<C>, c: C) {
    a.Broadcast? || a.WriteOne? || a.RegisterCommit? || a.client != c
  }

  /** Client c registers (snapshot at p, commit at q) and makes one more call (own set at i, index at j);
      everything else in the run concerns other clients, broadcasts or the write pumps. */
  ghost predicate Race<C>(acts: seq<Action<C>>, c: C, p: nat, q: nat, i: nat, j: nat) {
    && p < q < |acts| && i < j < |acts| && acts[p] == RegisterSnapshot(c) && acts[q] == RegisterCommit
    && (forall k :: p < k < q ==> !acts[k].RegisterCommit?)
    && (forall k :: 0 <= k < |acts| && k != p && k != i && k != j ==> Elsewhere(acts[k], c))
  }

  ghost predicate Subscribes<C>(acts: seq<Action<C>>, c: C, b: BudgetID, p: nat, q: nat, i: nat, j: nat) {
    Race(acts, c, p, q, i, j) && acts[i] == SubscribeLocal(c, b) && acts[j] == SubscribeIndex(c, b)
  }

  ghost predicate Unsubscribes<C>(acts: seq<Action<C>>, c: C, b: BudgetID, p: nat, q: nat, i: nat, j: nat) {
    Race(acts, c, p, q, i, j) && acts[i] == UnsubscribeLocal(c, b) && acts[j] == UnsubscribeIndex(c, b)
  }

  /** Where the client stands after k actions of the race. */
  function RaceAt(subs: set<BudgetID>, b: BudgetID, p: nat, q: nat, i: nat, j: nat, k: nat): Local {
    var snap := subs + (if i < p then {b} else {});
    Local(q < k,
          if q < k then snap + (if q < j < k then {b} else {}) else {},
          subs + (if i < k then {b} else {}),
          if p < k <= q then Some(snap) else None)
  }

  lemma {:induction false} RaceRuns<C>(subs: set<BudgetID>, acts: seq<Action<C>>, c: C, b: BudgetID, p: nat, q: nat, i: nat, j: nat, k: nat)
    requires Subscribes(acts, c, b, p, q, i, j) && k <= |acts|
    ensures LocalRun(Local(false, {}, subs, None), acts[..k], c) == RaceAt(subs, b, p, q, i, j, k)
  {
    if k > 0 {
      RaceRuns(subs, acts, c, b, p, q, i, j, k - 1);
      assert acts[..k][..k - 1] == acts[..k - 1];
    }
  }

  /** However the two calls interleave with each other and with everything else, the client ends up in
      the bucket of the budget it subscribed to unless the registration took its snapshot before the
      subscription and committed after it. The budget is then in its set but missing from the index. */
  lemma MissedExactly<C>(s: State<C>, acts: seq<Action<C>>, c: C, b: BudgetID, p: nat, q: nat, i: nat, j: nat)
    requires Fresh(s) && Possible(s, acts) && c in s.views && b !in s.views[c].budgetIDs
    requires Subscribes(acts, c, b, p, q, i, j)
    ensures Run(s, acts).Some? && c in Run(s, acts).value.views
    ensures var t := Run(s, acts).value;
            && c in t.clients && b in t.views[c].budgetIDs
            && (c in Bucket(t.buckets, b) <==> !(p < i && j < q))
  {
    RunIsLocal(s, acts, c);
    RaceRuns(s.views[c].budgetIDs, acts, c, b, p, q, i, j, |acts|);
    assert acts[..|acts|] == acts;
    hide Run, LocalRun;
    var t := Run(s, acts).value;
    assert LocalOf(s, c) == Local(false, {}, s.views[c].budgetIDs, None);
    assert b in IndexedIn(t.buckets, c) <==> c in Bucket(t.buckets, b);
  }

  /** The missed interleaving is possible on any fresh hub. */
  lemma MissedInterleaving<C>(s: State<C>, c: C, b: BudgetID)
    requires Fresh(s) && c in s.views && b !in s.views[c].budgetIDs
    ensures var acts := [RegisterSnapshot(c), SubscribeLocal(c, b), SubscribeIndex(c, b), RegisterCommit];
            && Possible(s, acts) && Run(s, acts).Some? && c in Run(s, acts).value.views
            && b in Run(s, acts).value.views[c].budgetIDs && c in Run(s, acts).value.clients
            && c !in Bucket(Run(s, acts).value.buckets, b)
  {
    var acts := [RegisterSnapshot(c), SubscribeLocal(c, b), SubscribeIndex(c, b), RegisterCommit];
    assert acts[..3][..2] == acts[..2] && acts[..2][..1] == acts[..1] && acts[..1][..0] == [];
    assert Run(s, acts[..1]).Some? && Possible(s, acts[..1]);
    assert Run(s, acts[..2]).Some? && Possible(s, acts[..2]);
    assert Run(s, acts[..3]).Some? && Possible(s, acts[..3]);
    assert Possible(s, acts);
    MissedExactly(s, acts, c, b, 0, 3, 1, 2);
  }

  function LeaveAt(subs: set<BudgetID>, b: BudgetID, p: nat, q: nat, i: nat, j: nat, k: nat): Local {
    var snap := subs - (if i < p then {b} else {});
    Local(q < k,
          if q < k then snap - (if q < j < k then {b} else {}) else {},
          subs - (if i < k then {b} else {}),
          if p < k <= q then Some(snap) else None)
  }

  lemma {:induction false} LeaveRuns<C>(subs: set<BudgetID>, acts: seq<Action<C>>, c: C, b: BudgetID, p: nat, q: nat, i: nat, j: nat, k: nat)
    requires Unsubscribes(acts, c, b, p, q, i, j) && k <= |acts|
    ensures LocalRun(Local(false, {}, subs, None), acts[..k], c) == LeaveAt(subs, b, p, q, i, j, k)
  {
    if k > 0 {
      LeaveRuns(subs, acts, c, b, p, q, i, j, k - 1);
      assert acts[..k][..k - 1] == acts[..k - 1];
    }
  }

  /** The same for a client that leaves a budget while it registers: the budget is gone from its set, and
      the client stays in the budget's bucket exactly if the snapshot came before the unsubscription and
      the commit after it. */
  lemma LeftBehindExactly<C>(s: State<C>, acts: seq<Action<C>>, c: C, b: BudgetID, p: nat, q: nat, i: nat, j: nat)
    requires Fresh(s) && Possible(s, acts) && c in s.views && b in s.views[c].budgetIDs
    requires Unsubscribes(acts, c, b, p, q, i, j)
    ensures Run(s, acts).Some? && c in Run(s, acts).value.views
    ensures var t := Run(s, acts).value;
            && c in t.clients && b !in t.views[c].budgetIDs
            && (c in Bucket(t.buckets, b) <==> p < i && j < q)
  {
    RunIsLocal(s, acts, c);
    LeaveRuns(s.views[c].budgetIDs, acts, c, b, p, q, i, j, |acts|);
    assert acts[..|acts|] == acts;
    hide Run, LocalRun;
    var t := Run(s, acts).value;
    assert LocalOf(s, c) == Local(false, {}, s.views[c].budgetIDs, None);
    assert b in IndexedIn(t.buckets, c) <==> c in Bucket(t.buckets, b);
  }

  /** That interleaving is possible too. */
  lemma LeftBehindInterleaving<C>(s: State<C>, c: C, b: BudgetID)
    requires Fresh(s) && c in s.views && b in s.views[c].budgetIDs
    ensures var acts := [RegisterSnapshot(c), UnsubscribeLocal(c, b), UnsubscribeIndex(c, b), RegisterCommit];
            && Possible(s, acts) && Run(s, acts).Some? && c in Run(s, acts).value.views
            && b !in Run(s, acts).value.views[c].budgetIDs && c in Run(s, acts).value.clients
            && c in Bucket(Run(s, acts).value.buckets, b)
  {
    var acts := [RegisterSnapshot(c), UnsubscribeLocal(c, b), UnsubscribeIndex(c, b), RegisterCommit];
    assert acts[..3][..2] == acts[..2] && acts[..2][..1] == acts[..1] && acts[..1][..0] == [];
    assert Run(s, acts[..1]).Some? && Possible(s, acts[..1]);
    assert Run(s, acts[..2]).Some? && Possible(s, acts[..2]);
    assert Run(s, acts[..3]).Some? && Possible(s, acts[..3]);
    assert Possible(s, acts);
    LeftBehindExactly(s, acts, c, b, 0, 3, 1, 2);
  }
}
