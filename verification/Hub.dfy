/** The hub and client objects. Each method is one lock section of the code and takes exactly the
    corresponding step of the transition system. */
module Hub {
  import opened Wrappers
  import opened HubSteps

  class Client {
    var budgetIDs: set<BudgetID>
    var send: Channel
    var ejecting: bool

    constructor (budgetIDs: set<BudgetID>)
      ensures View() == ClientView(budgetIDs, NoChannel, false)
    {
      this.budgetIDs, send, ejecting := budgetIDs, NoChannel, false;
    }

    ghost function View(): ClientView
      reads this
    {
      ClientView(budgetIDs, send, ejecting)
    }

    /** The select with its default arm. */
    method Offer(m: Message)
      requires !send.Closed?
      modifies this`send, this`ejecting
      ensures View() == Offered(old(View()), m)
    {
      if send.Open? && |send.queue| < SEND_BUF_SIZE {
        send := Open(send.queue + [m]);
      } else if !ejecting {
        ejecting := true;
      }
    }
  }

  /** The views of the clients in a set. */
  ghost function Views(world: set<Client>): map<Client, ClientView>
    reads world
  {
    map c | c in world :: c.View()
  }

  class Hub {
    var clients: set<Client>
    var budgetBuckets: Buckets<Client>
    /** The event loop's locals between the two lock sections of its register branch. */
    var registering: Option<Snapshot<Client>>
    /** Every client object that ever reaches this hub. */
    ghost const world: set<Client>

    constructor (ghost world: set<Client>)
      requires forall c :: c in world ==> c.send == NoChannel && !c.ejecting
      ensures this.world == world && Valid() && Fresh(Abs()) && Abs().views == Views(world)
    {
      clients, budgetBuckets, registering := {}, map[], None;
      this.world := world;
    }

    ghost function Abs(): State<Client>
      reads this, world
    {
      State(clients, budgetBuckets, Views(world), registering)
    }

    ghost predicate Valid()
      reads this, world
    {
      Safe(Abs())
    }

    /** case client := <-h.register, up to the release of client.mu. */
    method RegisterTakeSnapshot(c: Client)
      requires Valid() && Enabled(Abs(), RegisterSnapshot(c))
      modifies this`registering, c`send
      ensures Valid() && Step(old(Abs()), RegisterSnapshot(c)) == Some(Abs())
    {
      StepIsSafe(Abs(), RegisterSnapshot(c));
      c.send := Open([]);
      registering := Some(Snapshot(c, c.budgetIDs));
      assert Views(world) == old(Views(world))[c := c.View()];
    }

    /** The rest of the register branch, under h.mu. */
    method RegisterIndex()
      requires Valid() && Enabled(Abs(), RegisterCommit)
      modifies this`clients, this`budgetBuckets, this`registering
      ensures Valid() && Step(old(Abs()), RegisterCommit) == Some(Abs())
    {
      StepIsSafe(Abs(), RegisterCommit);
      var snap := registering.value;
      clients := clients + {snap.client};
      AddToBuckets(snap.client, snap.budgets);
      registering := None;
      assert Views(world) == old(Views(world));
    }

    method AddToBuckets(c: Client, snap: set<BudgetID>)
      modifies this`budgetBuckets
      ensures budgetBuckets == IndexAll(old(budgetBuckets), c, snap)
    {
      var pending := snap;
      ghost var was, done := budgetBuckets, {};
      assert budgetBuckets == IndexAll(was, c, {});
      while pending != {}
        invariant pending + done == snap
        invariant budgetBuckets == IndexAll(was, c, done)
      {
        var b :| b in pending;
        budgetBuckets := budgetBuckets[b := Bucket(budgetBuckets, b) + {c}];
        pending, done := pending - {b}, done + {b};
      }
    }

    /** case client := <-h.unregister. */
    method TakeUnregister(c: Client)
      requires Valid() && Enabled(Abs(), Action.Unregister(c))
      modifies this`clients, this`budgetBuckets, c`send
      ensures Valid() && Step(old(Abs()), Action.Unregister(c)) == Some(Abs())
    {
      StepIsSafe(Abs(), Action.Unregister(c));
      if c in clients {
        clients := clients - {c};
        RemoveFromBuckets(c);
        assert c.send.Open? && forall b :: c !in Bucket(budgetBuckets, b);
        c.send := Closed(c.send.queue);
        assert Views(world) == old(Views(world))[c := c.View()];
      }
    }

    /** The walk over every bucket, deleting the ones that become empty. */
    method RemoveFromBuckets(c: Client)
      requires forall b :: b in budgetBuckets ==> budgetBuckets[b] != {}
      modifies this`budgetBuckets
      ensures budgetBuckets == UnindexAll(old(budgetBuckets), c)
    {
      var pending := budgetBuckets.Keys;
      ghost var was := budgetBuckets;
      while pending != {}
        invariant pending <= was.Keys
        invariant forall b :: b in pending ==> b in budgetBuckets && budgetBuckets[b] == was[b]
        invariant forall b :: b in was && b !in pending ==>
                    (b in budgetBuckets <==> was[b] != {c}) && (b in budgetBuckets ==> budgetBuckets[b] == was[b] - {c})
        invariant budgetBuckets.Keys <= was.Keys
      {
        var b :| b in pending;
        var bucket := budgetBuckets[b];
        if c in bucket {
          budgetBuckets := budgetBuckets[b := bucket - {c}];
          if bucket - {c} == {} {
            budgetBuckets := budgetBuckets - {b};
          }
        }
        pending := pending - {b};
      }
    }

    /** case req := <-h.broadcast: no send meets a closed channel. */
    method TakeBroadcast(b: BudgetID, m: Message)
      requires Valid() && Enabled(Abs(), Broadcast(b, m))
      modifies world`send, world`ejecting
      ensures Valid() && Step(old(Abs()), Broadcast(b, m)) == Some(Abs())
    {
      StepIsSafe(Abs(), Broadcast(b, m));
      var bucket := Bucket(budgetBuckets, b);
      assert bucket <= clients <= world;
      var pending := bucket;
      ghost var was, done := Views(world), {};
      while pending != {}
        invariant pending + done == bucket && pending !! done
        invariant forall c :: c in world ==> c.View() == if c in done then Offered(was[c], m) else was[c]
      {
        var c :| c in pending;
        assert c in clients && was[c].send.Open?;
        c.Offer(m);
        pending, done := pending - {c}, done + {c};
      }
      assert Views(world) == OfferAll(was, bucket, m);
    }

    method SubscribeUnderClientLock(c: Client, b: BudgetID)
      requires Valid() && Enabled(Abs(), SubscribeLocal(c, b))
      modifies c`budgetIDs
      ensures Valid() && Step(old(Abs()), SubscribeLocal(c, b)) == Some(Abs())
    {
      StepIsSafe(Abs(), SubscribeLocal(c, b));
      c.budgetIDs := c.budgetIDs + {b};
      assert Views(world) == old(Views(world))[c := c.View()];
    }

    method SubscribeUnderHubLock(c: Client, b: BudgetID)
      requires Valid() && Enabled(Abs(), SubscribeIndex(c, b))
      modifies this`budgetBuckets
      ensures Valid() && Step(old(Abs()), SubscribeIndex(c, b)) == Some(Abs())
    {
      StepIsSafe(Abs(), SubscribeIndex(c, b));
      if c in clients {
        budgetBuckets := budgetBuckets[b := Bucket(budgetBuckets, b) + {c}];
      }
    }

    method UnsubscribeUnderClientLock(c: Client, b: BudgetID)
      requires Valid() && Enabled(Abs(), UnsubscribeLocal(c, b))
      modifies c`budgetIDs
      ensures Valid() && Step(old(Abs()), UnsubscribeLocal(c, b)) == Some(Abs())
    {
      StepIsSafe(Abs(), UnsubscribeLocal(c, b));
      c.budgetIDs := c.budgetIDs - {b};
      assert Views(world) == old(Views(world))[c := c.View()];
    }

    method UnsubscribeUnderHubLock(c: Client, b: BudgetID)
      requires Valid() && Enabled(Abs(), UnsubscribeIndex(c, b))
      modifies this`budgetBuckets
      ensures Valid() && Step(old(Abs()), UnsubscribeIndex(c, b)) == Some(Abs())
    {
      StepIsSafe(Abs(), UnsubscribeIndex(c, b));
      if b in budgetBuckets {
        var bucket := budgetBuckets[b] - {c};
        budgetBuckets := budgetBuckets[b := bucket];
        if bucket == {} {
          budgetBuckets := budgetBuckets - {b};
        }
      }
      assert budgetBuckets == Unindex(old(budgetBuckets), c, b);
    }

    /** One turn of the client's writePump. */
    method Pump(c: Client) returns (m: Message)
      requires Valid() && Enabled(Abs(), WriteOne(c))
      modifies c`send
      ensures Valid() && Step(old(Abs()), WriteOne(c)) == Some(Abs())
      ensures m == old(c.send.queue[0])
    {
      StepIsSafe(Abs(), WriteOne(c));
      m := c.send.queue[0];
      c.send := if c.send.Open? then Open(c.send.queue[1..]) else Closed(c.send.queue[1..]);
      assert Views(world) == old(Views(world))[c := c.View()];
    }
  }
}
