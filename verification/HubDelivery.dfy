/** What a client of the hub receives: which broadcasts are due to it, which of them enter its
    queue, and when it is ejected. */
module HubDelivery {
  import opened HubSteps

  predicate Reaches<C(==)>(s: State<C>, a: Action<C>, c: C) {
    a.Broadcast? && c in Bucket(s.buckets, a.budget) && c in s.views
  }

  /** The broadcast finds the client's queue full, with 32 messages. */
  predicate Overflows<C(==)>(s: State<C>, a: Action<C>, c: C) {
    Reaches(s, a, c) && !(s.views[c].send.Open? && |s.views[c].send.queue| < 32)
  }

  function DueBy<C(==)>(s: State<C>, a: Action<C>, c: C): seq<Message> {
    if Reaches(s, a, c) then [a.message] else []
  }

  function AcceptedBy<C(==)>(s: State<C>, a: Action<C>, c: C): seq<Message> {
    if Reaches(s, a, c) && !Overflows(s, a, c) then [a.message] else []
  }

  function WrittenBy<C(==)>(s: State<C>, a: Action<C>, c: C): seq<Message> {
    if a == WriteOne(c) && c in s.views && !s.views[c].send.NoChannel? && s.views[c].send.queue != []
    then [s.views[c].send.queue[0]] else []
  }

  /** An Unregister goroutine is spawned by the first overflow only: the flag stays set. */
  function EjectionsBy<C(==)>(s: State<C>, a: Action<C>, c: C): nat {
    if Overflows(s, a, c) && !s.views[c].ejecting then 1 else 0
  }

  datatype Log = Log(due: seq<Message>, accepted: seq<Message>, written: seq<Message>, ejections: nat)

  /** What happened to one client over a run. */
  function History<C(==)>(s: State<C>, acts: seq<Action<C>>, c: C): Log {
    if acts == [] then Log([], [], [], 0)
    else
      var front, a := acts[..|acts| - 1], acts[|acts| - 1];
      var log := History(s, front, c);
      match Run(s, front)
      case None => log
      case Some(t) => Plus(log, DueBy(t, a, c), AcceptedBy(t, a, c), WrittenBy(t, a, c), EjectionsBy(t, a, c))
  }

  predicate Subsequence<T(==)>(a: seq<T>, b: seq<T>) {
    if a == [] then true
    else if b == [] then false
    else (a[|a| - 1] == b[|b| - 1] && Subsequence(a[..|a| - 1], b[..|b| - 1])) || Subsequence(a, b[..|b| - 1])
  }

  lemma SubsequenceAppend<T>(a: seq<T>, b: seq<T>, t: T)
    requires Subsequence(a, b)
    ensures Subsequence(a + [t], b + [t]) && Subsequence(a, b + [t])
  {
    assert (a + [t])[..|a|] == a && (b + [t])[..|b|] == b;
  }

  lemma {:induction false} SubsequenceLength<T>(a: seq<T>, b: seq<T>)
    requires Subsequence(a, b)
    ensures |a| <= |b| && (|a| == |b| ==> a == b)
  {
    if a != [] {
      var front := b[..|b| - 1];
      if Subsequence(a, front) {
        SubsequenceLength(a, front);
      } else {
        SubsequenceLength(a[..|a| - 1], front);
      }
    }
  }

  function Queue(v: ClientView): seq<Message> { if v.send.NoChannel? then [] else v.send.queue }

  /** The books balance: what was written and what still queues is what was accepted; losses and the
      ejection flag go together. */
  ghost predicate Balanced(v: ClientView, log: Log) {
    && log.written + Queue(v) == log.accepted
    && Subsequence(log.accepted, log.due)
    && log.ejections == (if v.ejecting then 1 else 0)
    && (v.ejecting <==> |log.accepted| < |log.due|)
  }

  lemma StepKeepsView<C>(s: State<C>, a: Action<C>, c: C)
    requires Safe(s) && Enabled(s, a) && c in s.views
    ensures Step(s, a).Some? && c in Step(s, a).value.views
    ensures var v, w := s.views[c], Step(s, a).value.views[c];
            if Reaches(s, a, c) then w == Offered(v, a.message) && v.send.Open?
            else Queue(w) == (if a == WriteOne(c) then Queue(v)[1..] else Queue(v)) && w.ejecting == v.ejecting
  {
    StepIsSafe(s, a);
    if Reaches(s, a, c) {
      assert c in s.clients;
    }
  }

  lemma WrittenStep(written: seq<Message>, queue: seq<Message>, accepted: seq<Message>)
    requires queue != [] && written + queue == accepted
    ensures written + [queue[0]] + queue[1..] == accepted
  {
    assert queue == [queue[0]] + queue[1..];
  }

  lemma OfferBalanced(v: ClientView, log: Log, m: Message)
    requires Balanced(v, log) && v.send.Open?
    ensures var fits := |v.send.queue| < SEND_BUF_SIZE;
            Balanced(Offered(v, m), Log(log.due + [m], log.accepted + (if fits then [m] else []), log.written,
                                        log.ejections + (if !fits && !v.ejecting then 1 else 0)))
  {
    hide Subsequence;
    SubsequenceAppend(log.accepted, log.due, m);
    SubsequenceLength(log.accepted, log.due);
    if |v.send.queue| < SEND_BUF_SIZE {
      assert log.written + (v.send.queue + [m]) == log.accepted + [m];
    } else {
      assert log.accepted + [] == log.accepted;
    }
  }

  function Plus(log: Log, due: seq<Message>, accepted: seq<Message>, written: seq<Message>, ejections: nat): Log {
    Log(log.due + due, log.accepted + accepted, log.written + written, log.ejections + ejections)
  }

  lemma BalanceKept<C>(s: State<C>, a: Action<C>, c: C, log: Log)
    requires Safe(s) && Enabled(s, a) && c in s.views && Balanced(s.views[c], log)
    ensures Step(s, a).Some? && c in Step(s, a).value.views
    ensures Balanced(Step(s, a).value.views[c],
                     Plus(log, DueBy(s, a, c), AcceptedBy(s, a, c), WrittenBy(s, a, c), EjectionsBy(s, a, c)))
  {
    StepKeepsView(s, a, c);
    var v := s.views[c];
    hide Step, Safe, Subsequence, Offered;
    assert log.written + [] == log.written && log.accepted + [] == log.accepted && log.due + [] == log.due;
    if Reaches(s, a, c) {
      hide Balanced;
      OfferBalanced(v, log, a.message);
    } else if a == WriteOne(c) {
      WrittenStep(log.written, Queue(v), log.accepted);
    }
  }

  lemma {:induction false} RunBalances<C>(s: State<C>, acts: seq<Action<C>>, c: C)
    requires Fresh(s) && Possible(s, acts) && c in s.views
    ensures Run(s, acts).Some? && c in Run(s, acts).value.views
    ensures Balanced(Run(s, acts).value.views[c], History(s, acts, c))
  {
    RunsAreSafe(s, acts);
    if acts != [] {
      hide Enabled, Step, Safe, Balanced, DueBy, AcceptedBy, WrittenBy, EjectionsBy;
      var front := acts[..|acts| - 1];
      RunsAreSafe(s, front);
      RunBalances(s, front, c);
      BalanceKept(Run(s, front).value, acts[|acts| - 1], c, History(s, front, c));
    }
  }

  /** In any interleaving a client is written, in order and from the first on, the broadcasts its queue
      accepted; these are an in-order selection of the ones due to it, all of them unless a broadcast
      met a full queue; and it is ejected at most once, exactly when one was lost. */
  lemma DeliveryIsInOrder<C>(s: State<C>, acts: seq<Action<C>>, c: C)
    requires Fresh(s) && Possible(s, acts) && c in s.views
    ensures var log := History(s, acts, c);
            && Run(s, acts).Some? && c in Run(s, acts).value.views
            && log.written + Queue(Run(s, acts).value.views[c]) == log.accepted
            && Subsequence(log.accepted, log.due)
            && log.ejections <= 1 && (log.ejections == 0 <==> log.accepted == log.due)
  {
    hide Run, History, Subsequence;
    RunBalances(s, acts, c);
    SubsequenceLength(History(s, acts, c).accepted, History(s, acts, c).due);
  }

  ghost predicate LostAt<C>(s: State<C>, acts: seq<Action<C>>, i: nat, c: C) {
    i < |acts| && Run(s, acts[..i]).Some? && Overflows(Run(s, acts[..i]).value, acts[i], c)
  }

  lemma LostInFront<C>(s: State<C>, acts: seq<Action<C>>, c: C)
    requires acts != []
    ensures var n := |acts| - 1;
            (exists i: nat :: LostAt(s, acts, i, c)) <==> (exists i: nat :: LostAt(s, acts[..n], i, c)) || LostAt(s, acts, n, c)
  {
    hide Run, Overflows;
    var n := |acts| - 1;
    forall i: nat | i < n ensures LostAt(s, acts[..n], i, c) <==> LostAt(s, acts, i, c) {
      assert acts[..n][..i] == acts[..i];
    }
    if i: nat :| LostAt(s, acts[..n], i, c) {
      assert LostAt(s, acts, i, c);
    }
    if i: nat :| LostAt(s, acts, i, c) {
      assert i == n || LostAt(s, acts[..n], i, c);
    }
  }

  lemma HistoryStep<C>(s: State<C>, acts: seq<Action<C>>, c: C)
    requires acts != [] && Run(s, acts[..|acts| - 1]).Some?
    ensures var n := |acts| - 1;
            History(s, acts, c).ejections == History(s, acts[..n], c).ejections + EjectionsBy(Run(s, acts[..n]).value, acts[n], c)
  {
    hide Run, DueBy, AcceptedBy, WrittenBy, EjectionsBy;
  }

  /** A client is ejected exactly when some broadcast found 32 messages waiting for it. */
  lemma {:induction false} LossMeansOverflow<C>(s: State<C>, acts: seq<Action<C>>, c: C)
    requires Fresh(s) && Possible(s, acts) && c in s.views
    ensures History(s, acts, c).ejections > 0 <==> exists i: nat :: LostAt(s, acts, i, c)
  {
    if acts != [] {
      hide Enabled, Step, Overflows, Run, History, LostAt;
      var n := |acts| - 1;
      RunBalances(s, acts[..n], c);
      LossMeansOverflow(s, acts[..n], c);
      HistoryStep(s, acts, c);
      LostInFront(s, acts, c);
      LostLast(s, acts, c);
    }
  }

  lemma LostLast<C>(s: State<C>, acts: seq<Action<C>>, c: C)
    requires acts != [] && Run(s, acts[..|acts| - 1]).Some?
    ensures LostAt(s, acts, |acts| - 1, c) <==> Overflows(Run(s, acts[..|acts| - 1]).value, acts[|acts| - 1], c)
  {
  }
}
