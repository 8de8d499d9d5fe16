/** The WebSocket hub as a transition system: one action per lock section, so that actions of the
    event loop, of subscribers and of the write pumps interleave freely. A step that would panic
    (closing a nil or closed channel, sending on a closed one) has no successor. */
module HubSteps {
  import opened Wrappers

  const SEND_BUF_SIZE := 32

  type BudgetID = nat

  type Message = nat

  datatype Channel = NoChannel | Open(queue: seq<Message>) | Closed(queue: seq<Message>)

  datatype ClientView = ClientView(budgetIDs: set<BudgetID>, send: Channel, ejecting: bool)

  datatype Snapshot<C> = Snapshot(client: C, budgets: set<BudgetID>)

  type Buckets<C(==)> = map<BudgetID, set<C>>

  /** registering is the event loop between the two lock sections of its register branch. */
  datatype State<C> = State(clients: set<C>, buckets: Buckets<C>, views: map<C, ClientView>,
                            registering: Option<Snapshot<C>>)

  datatype Action<C> =
    | RegisterSnapshot(client: C)
    | RegisterCommit
    | Unregister(client: C)
    | Broadcast(budget: BudgetID, message: Message)
    | SubscribeLocal(client: C, budget: BudgetID)
    | SubscribeIndex(client: C, budget: BudgetID)
    | UnsubscribeLocal(client: C, budget: BudgetID)
    | UnsubscribeIndex(client: C, budget: BudgetID)
    | WriteOne(client: C)

  // ---------- The bucket index ----------

  function Bucket<C(==)>(buckets: Buckets<C>, b: BudgetID): set<C> {
    if b in buckets then buckets[b] else {}
  }

  function Index<C(==)>(buckets: Buckets<C>, c: C, b: BudgetID): Buckets<C> {
    buckets[b := Bucket(buckets, b) + {c}]
  }

  function IndexAll<C(==)>(buckets: Buckets<C>, c: C, bs: set<BudgetID>): Buckets<C> {
    map b | b in buckets.Keys + bs :: if b in bs then Bucket(buckets, b) + {c} else Bucket(buckets, b)
  }

  function Unindex<C(==)>(buckets: Buckets<C>, c: C, b: BudgetID): Buckets<C> {
    if b !in buckets then buckets
    else if buckets[b] - {c} == {} then buckets - {b}
    else buckets[b := buckets[b] - {c}]
  }

  function UnindexAll<C(==)>(buckets: Buckets<C>, c: C): Buckets<C> {
    map b | b in buckets && buckets[b] != {c} :: buckets[b] - {c}
  }

  // ---------- Steps ----------

  /** The non-blocking send with its default arm; a nil channel is never ready. */
  function Offered(v: ClientView, m: Message): ClientView {
    if v.send.Open? && |v.send.queue| < SEND_BUF_SIZE then v.(send := Open(v.send.queue + [m])) else v.(ejecting := true)
  }

  function OfferAll<C(==)>(views: map<C, ClientView>, to: set<C>, m: Message): map<C, ClientView> {
    map c | c in views :: if c in to then Offered(views[c], m) else views[c]
  }

  predicate Known<C(==)>(s: State<C>, a: Action<C>) {
    match a
    case RegisterCommit => s.registering.Some? && s.registering.value.client in s.views
    case Broadcast(_, _) => true
    case _ => a.client in s.views
  }

  /** The event loop takes one request at a time; a client is registered once; a pump reads what is there. */
  predicate Enabled<C(==)>(s: State<C>, a: Action<C>) {
    && Known(s, a)
    && match a
       case RegisterSnapshot(c) => s.registering.None? && s.views[c].send == NoChannel
       case RegisterCommit => true
       case Unregister(_) => s.registering.None?
       case Broadcast(_, _) => s.registering.None?
       case WriteOne(c) => s.views[c].send != NoChannel && s.views[c].send.queue != []
       case _ => true
  }

  function Step<C(==)>(s: State<C>, a: Action<C>): Option<State<C>>
    requires Enabled(s, a)
  {
    match a
    case RegisterSnapshot(c) =>
      Some(s.(views := s.views[c := s.views[c].(send := Open([]))],
              registering := Some(Snapshot(c, s.views[c].budgetIDs))))
    case RegisterCommit =>
      var snap := s.registering.value;
      Some(s.(clients := s.clients + {snap.client}, buckets := IndexAll(s.buckets, snap.client, snap.budgets),
              registering := None))
    case Unregister(c) =>
      if c !in s.clients then Some(s)
      else if !s.views[c].send.Open? then None
      else Some(s.(clients := s.clients - {c}, buckets := UnindexAll(s.buckets, c),
                   views := s.views[c := s.views[c].(send := Closed(s.views[c].send.queue))]))
    case Broadcast(b, m) =>
      if exists c :: c in Bucket(s.buckets, b) && c in s.views && s.views[c].send.Closed? then None
      else Some(s.(views := OfferAll(s.views, Bucket(s.buckets, b), m)))
    case SubscribeLocal(c, b) =>
      Some(s.(views := s.views[c := s.views[c].(budgetIDs := s.views[c].budgetIDs + {b})]))
    case SubscribeIndex(c, b) =>
      Some(if c in s.clients then s.(buckets := Index(s.buckets, c, b)) else s)
    case UnsubscribeLocal(c, b) =>
      Some(s.(views := s.views[c := s.views[c].(budgetIDs := s.views[c].budgetIDs - {b})]))
    case UnsubscribeIndex(c, b) =>
      Some(s.(buckets := Unindex(s.buckets, c, b)))
    case WriteOne(c) =>
      var v := s.views[c];
      var send := if v.send.Open? then Open(v.send.queue[1..]) else Closed(v.send.queue[1..]);
      Some(s.(views := s.views[c := v.(send := send)]))
  }

  // ---------- Safety ----------

  ghost predicate Safe<C>(s: State<C>) {
    && s.clients <= s.views.Keys
    && (forall b :: b in s.buckets ==> s.buckets[b] != {} && s.buckets[b] <= s.clients)
    && (forall c :: c in s.clients ==> s.views[c].send.Open?)
    && (forall c :: c in s.views && s.views[c].send.Open? ==>
          c in s.clients || (s.registering.Some? && s.registering.value.client == c))
    && (s.registering.Some? ==>
          var c := s.registering.value.client;
          c in s.views && c !in s.clients && s.views[c].send.Open?)
  }

  /** Every enabled action can be taken without a panic and keeps every bucket nonempty and inside the
      set of registered clients, all of which have open channels. */
  lemma StepIsSafe<C>(s: State<C>, a: Action<C>)
    requires Safe(s) && Enabled(s, a)
    ensures Step(s, a).Some? && Safe(Step(s, a).value)
  {
    if a.Broadcast? {
      forall c | c in Bucket(s.buckets, a.budget) ensures s.views[c].send.Open? {
        assert c in s.clients;
      }
    }
  }

  lemma StepKeepsClosed<C>(s: State<C>, a: Action<C>, c: C)
    requires Safe(s) && Enabled(s, a) && c in s.views && s.views[c].send.Closed?
    ensures Step(s, a).Some? && c in Step(s, a).value.views && Step(s, a).value.views[c].send.Closed?
  {
    StepIsSafe(s, a);
  }

  // ---------- Runs ----------

  ghost predicate Fresh<C>(s: State<C>) {
    && s.clients == {} && s.buckets == map[] && s.registering.None?
    && forall c :: c in s.views ==> s.views[c].send == NoChannel && !s.views[c].ejecting
  }

  /** The state after the actions, None if one of them was not enabled or panicked. */
  function Run<C(==)>(s: State<C>, acts: seq<Action<C>>): Option<State<C>> {
    if acts == [] then Some(s)
    else
      var before := Run(s, acts[..|acts| - 1]);
      if before.Some? && Enabled(before.value, acts[|acts| - 1]) then Step(before.value, acts[|acts| - 1]) else None
  }

  /** The actions are possible one after the other. */
  predicate Possible<C(==)>(s: State<C>, acts: seq<Action<C>>) {
    acts == [] ||
    (Possible(s, acts[..|acts| - 1]) &&
     (Run(s, acts[..|acts| - 1]).Some? ==> Enabled(Run(s, acts[..|acts| - 1]).value, acts[|acts| - 1])))
  }

  /** No interleaving panics, and every state it passes through is safe. */
  lemma {:induction false} RunsAreSafe<C>(s: State<C>, acts: seq<Action<C>>)
    requires Fresh(s) && Possible(s, acts)
    ensures Run(s, acts).Some? && Safe(Run(s, acts).value)
  {
    if acts != [] {
      hide Enabled, Step, Safe;
      RunsAreSafe(s, acts[..|acts| - 1]);
      StepIsSafe(Run(s, acts[..|acts| - 1]).value, acts[|acts| - 1]);
    }
  }

  /** In every run, a broadcast only meets registered clients with open channels. */
  lemma BroadcastReachesOpenChannels<C>(s: State<C>, acts: seq<Action<C>>, b: BudgetID, c: C)
    requires Fresh(s) && Possible(s, acts)
    ensures Run(s, acts).Some?
    ensures var t := Run(s, acts).value;
            c in Bucket(t.buckets, b) ==> c in t.clients && c in t.views && t.views[c].send.Open?
  {
    hide Run, Possible;
    RunsAreSafe(s, acts);
  }

  /** Once a channel is closed, its client has left the client set and every bucket for the rest of the run. */
  lemma {:induction false} ClosedIsGone<C>(s: State<C>, acts: seq<Action<C>>, i: nat, c: C)
    requires Fresh(s) && Possible(s, acts) && i <= |acts|
    requires var t := Run(s, acts[..i]); t.Some? && c in t.value.views && t.value.views[c].send.Closed?
    ensures Run(s, acts).Some?
    ensures var t := Run(s, acts).value;
            c in t.views && t.views[c].send.Closed? && c !in t.clients && forall b :: c !in Bucket(t.buckets, b)
  {
    RunsAreSafe(s, acts);
    var n := |acts| - 1;
    if i == |acts| {
      assert acts[..i] == acts;
    } else {
      assert acts[..n][..i] == acts[..i];
      ClosedIsGone(s, acts[..n], i, c);
      RunsAreSafe(s, acts[..n]);
      hide Step, Enabled, Safe;
      StepKeepsClosed(Run(s, acts[..n]).value, acts[n], c);
    }
    hide Run, Possible;
    GoneIfClosed(Run(s, acts).value, c);
  }

  lemma GoneIfClosed<C>(t: State<C>, c: C)
    requires Safe(t) && c in t.views && t.views[c].send.Closed?
    ensures c !in t.clients && forall b :: c !in Bucket(t.buckets, b)
  {
  }
}
