/** App Attest requests against the key and challenge stores: every store access is one atomic step,
    and the steps of any number of requests interleave. A log records what the stores did. */
module AttestProtocol {
  import opened Wrappers
  import opened Cbor
  import opened Attestation

  type KeyID = string

  type RequestID = nat

  /** The envelope of the captcha token. */
  datatype Token = Token(keyID: KeyID, assertion: Bytes, challenge: Bytes, clientDataHash: Bytes)

  /** The verifier's configuration; verify is the ECDSA check over authData and the client data hash. */
  datatype Config<!P> = Config(rpIDHash: Bytes, skipRPIDCheck: bool, verify: (P, Bytes, Bytes, Bytes) -> bool)

  datatype Row<P> = Row(publicKey: P, counter: nat)

  // ---------- The checks between lookup and bump ----------

  /** The counter a request would bump to, None if the assertion is refused. */
  function Judge<P>(cfg: Config<P>, token: Token, row: Row<P>): Option<nat>
    requires token.assertion != []
  {
    match DecodeAssertion(token.assertion)
    case Err => None
    case Ok(a) =>
      if !cfg.skipRPIDCheck && (|a.authData| < 32 || a.authData[..32] != cfg.rpIDHash) then None
      else if |a.authData| < 37 then None
      else if U32(a.authData, 33) <= row.counter then None
      else if !cfg.verify(row.publicKey, a.authData, token.clientDataHash, a.signature) then None
      else Some(U32(a.authData, 33))
  }

  /** What an accepted assertion shows: it was made for this app unless the check is off, its counter is n,
      above the row's, and it is signed under the row's key. */
  predicate Genuine<P>(cfg: Config<P>, token: Token, row: Row<P>, n: nat) {
    token.assertion != [] &&
    match DecodeAssertion(token.assertion)
    case Err => false
    case Ok(a) =>
      && |a.authData| >= 37 && (cfg.skipRPIDCheck || a.authData[..32] == cfg.rpIDHash)
      && n == ((a.authData[33] as nat * 0x100 + a.authData[34]) * 0x100 + a.authData[35]) * 0x100 + a.authData[36]
      && n > row.counter
      && cfg.verify(row.publicKey, a.authData, token.clientDataHash, a.signature)
  }

  lemma JudgeExactly<P>(cfg: Config<P>, token: Token, row: Row<P>, n: nat)
    requires token.assertion != []
    ensures Judge(cfg, token, row) == Some(n) <==> Genuine(cfg, token, row, n)
  {
    hide DecodeAssertion;
  }

  predicate Complete(token: Token) {
    token.keyID != "" && token.assertion != [] && token.challenge != [] && |token.clientDataHash| == 32
  }

  // ---------- The transition system ----------

  datatype Phase<P> =
    | Redeemed(token: Token)
    | LookedUp(token: Token, row: Row<P>)
    | Judged(token: Token, row: Row<P>, counter: nat)
    | Accepted
    | Registering(keyID: KeyID, row: Row<P>)
    | Finished

  datatype Event =
    | Issued(challenge: Bytes)
    | Used(challenge: Bytes, request: RequestID)
    | Passed(keyID: KeyID, counter: nat, challenge: Bytes, request: RequestID)
    | Registered(keyID: KeyID, counter: nat)

  datatype State<P> = State(keys: map<KeyID, Row<P>>, challenges: map<Bytes, int>,
                            phases: map<RequestID, Phase<P>>, log: seq<Event>)

  datatype Action<P> =
    | Issue(challenge: Bytes, expiresAt: int)
    | StartVerify(r: RequestID, token: Token, now: int)
    | Lookup(r: RequestID)
    | Check(r: RequestID)
    | Bump(r: RequestID)
    | StartRegister(r: RequestID, keyID: KeyID, row: Row<P>, challenge: Bytes, now: int)
    | Upsert(r: RequestID)

  predicate Enabled<P>(s: State<P>, a: Action<P>) {
    match a
    case Issue(_, _) => true
    case StartVerify(r, _, _) => r !in s.phases
    case Lookup(r) => r in s.phases && s.phases[r].Redeemed?
    case Check(r) => r in s.phases && s.phases[r].LookedUp? && s.phases[r].token.assertion != []
    case Bump(r) => r in s.phases && s.phases[r].Judged?
    case StartRegister(r, _, _, _, _) => r !in s.phases
    case Upsert(r) => r in s.phases && s.phases[r].Registering?
  }

  predicate Live(challenges: map<Bytes, int>, challenge: Bytes, now: int) {
    challenge in challenges && challenges[challenge] > now
  }

  /** The DELETE that redeems a challenge, and the phase the request goes on to. */
  function Redeem<P>(s: State<P>, r: RequestID, challenge: Bytes, now: int, next: Phase<P>): State<P> {
    if Live(s.challenges, challenge, now)
    then s.(challenges := s.challenges - {challenge}, phases := s.phases[r := next], log := s.log + [Used(challenge, r)])
    else s.(phases := s.phases[r := Finished])
  }

  /** The guarded UPDATE of the counter. */
  predicate Advances<P>(keys: map<KeyID, Row<P>>, keyID: KeyID, counter: nat) {
    keyID in keys && keys[keyID].counter < counter
  }

  function Step<P>(cfg: Config<P>, s: State<P>, a: Action<P>): State<P>
    requires Enabled(s, a)
  {
    match a
    case Issue(challenge, expiresAt) =>
      if challenge in s.challenges then s
      else s.(challenges := s.challenges[challenge := expiresAt], log := s.log + [Issued(challenge)])
    case StartVerify(r, token, now) =>
      if !Complete(token) then s.(phases := s.phases[r := Finished])
      else Redeem(s, r, token.challenge, now, Redeemed(token))
    case Lookup(r) =>
      var token := s.phases[r].token;
      s.(phases := s.phases[r := if token.keyID in s.keys then LookedUp(token, s.keys[token.keyID]) else Finished])
    case Check(r) =>
      var token := s.phases[r].token;
      var judged := Judge(cfg, token, s.phases[r].row);
      s.(phases := s.phases[r := if judged.Some? then Judged(token, s.phases[r].row, judged.value) else Finished])
    case Bump(r) =>
      var token, n := s.phases[r].token, s.phases[r].counter;
      if Advances(s.keys, token.keyID, n)
      then s.(keys := s.keys[token.keyID := s.keys[token.keyID].(counter := n)], phases := s.phases[r := Accepted],
              log := s.log + [Passed(token.keyID, n, token.challenge, r)])
      else s.(phases := s.phases[r := Finished])
    case StartRegister(r, keyID, row, challenge, now) =>
      Redeem(s, r, challenge, now, Registering(keyID, row))
    case Upsert(r) =>
      var keyID, row := s.phases[r].keyID, s.phases[r].row;
      s.(keys := s.keys[keyID := row], phases := s.phases[r := Finished], log := s.log + [Registered(keyID, row.counter)])
  }

  // ---------- Counters ----------

  /** The counter last written for a key. */
  function LastCounter(log: seq<Event>, k: KeyID): Option<nat> {
    if log == [] then None
    else
      match log[|log| - 1]
      case Passed(key, n, _, _) => if key == k then Some(n) else LastCounter(log[..|log| - 1], k)
      case Registered(key, n) => if key == k then Some(n) else LastCounter(log[..|log| - 1], k)
      case _ => LastCounter(log[..|log| - 1], k)
  }

  /** Every acceptance is above the counter last written for its key. */
  predicate Rising(log: seq<Event>) {
    log == [] ||
    (Rising(log[..|log| - 1]) &&
     (log[|log| - 1].Passed? ==>
        var before := LastCounter(log[..|log| - 1], log[|log| - 1].keyID);
        before.Some? && before.value < log[|log| - 1].counter))
  }

  ghost predicate CountersMatch<P>(s: State<P>) {
    && Rising(s.log)
    && forall k :: LastCounter(s.log, k) == if k in s.keys then Some(s.keys[k].counter) else None
  }

  lemma LogAppend(log: seq<Event>, e: Event, k: KeyID)
    ensures LastCounter(log + [e], k) ==
            if (e.Passed? || e.Registered?) && e.keyID == k then Some(e.counter) else LastCounter(log, k)
    ensures Rising(log + [e]) <==>
            (Rising(log) && (e.Passed? ==> LastCounter(log, e.keyID).Some? && LastCounter(log, e.keyID).value < e.counter))
  {
    assert (log + [e])[..|log|] == log;
  }

  lemma CountersKept<P>(cfg: Config<P>, s: State<P>, a: Action<P>)
    requires Enabled(s, a) && CountersMatch(s)
    ensures CountersMatch(Step(cfg, s, a))
  {
    hide LastCounter, Rising, Judge;
    var t := Step(cfg, s, a);
    if t.log != s.log {
      var e := t.log[|s.log|];
      forall k ensures LastCounter(t.log, k) == if k in t.keys then Some(t.keys[k].counter) else None {
        LogAppend(s.log, e, k);
      }
      LogAppend(s.log, e, "");
    }
  }

  // ---------- Redemptions ----------

  datatype Pick = IssuedAs(c: Bytes) | UsedAs(c: Bytes) | PassedOn(c: Bytes) | UsedBy(r: RequestID) | PassedBy(r: RequestID)

  predicate Picks(p: Pick, e: Event) {
    match p
    case IssuedAs(c) => e == Issued(c)
    case UsedAs(c) => e.Used? && e.challenge == c
    case PassedOn(c) => e.Passed? && e.challenge == c
    case UsedBy(r) => e.Used? && e.request == r
    case PassedBy(r) => e.Passed? && e.request == r
  }

  function Count(log: seq<Event>, p: Pick): nat {
    if log == [] then 0 else Count(log[..|log| - 1], p) + (if Picks(p, log[|log| - 1]) then 1 else 0)
  }

  lemma CountAppend(log: seq<Event>, e: Event, p: Pick)
    ensures Count(log + [e], p) == Count(log, p) + (if Picks(p, e) then 1 else 0)
  {
    assert (log + [e])[..|log|] == log;
  }

  lemma {:induction false} CountTwo(log: seq<Event>, p: Pick, i: nat, j: nat)
    requires i < j < |log| && Picks(p, log[i]) && Picks(p, log[j])
    ensures Count(log, p) >= 2
  {
    var n := |log| - 1;
    if j < n {
      CountTwo(log[..n], p, i, j);
    } else {
      CountOne(log[..n], p, i);
    }
  }

  lemma {:induction false} CountOne(log: seq<Event>, p: Pick, i: nat)
    requires i < |log| && Picks(p, log[i])
    ensures Count(log, p) >= 1
  {
    if i < |log| - 1 {
      CountOne(log[..|log| - 1], p, i);
    }
  }

  /** How often a request redeemed a challenge and passed, by its phase. */
  ghost predicate Accounted<P>(log: seq<Event>, phases: map<RequestID, Phase<P>>, r: RequestID) {
    if r !in phases then Count(log, UsedBy(r)) == 0 && Count(log, PassedBy(r)) == 0
    else if phases[r].Finished? then Count(log, UsedBy(r)) <= 1 && Count(log, PassedBy(r)) == 0
    else Count(log, UsedBy(r)) == 1 && Count(log, PassedBy(r)) == (if phases[r].Accepted? then 1 else 0)
  }

  /** A request on its way holds the challenge it redeemed. */
  ghost predicate Holds<P>(log: seq<Event>, ph: Phase<P>, r: RequestID) {
    OnTheWay(ph) ==> Used(ph.token.challenge, r) in log && Complete(ph.token)
  }

  /** Every issue of a challenge is still live or was redeemed. */
  ghost predicate Booked<P>(s: State<P>, c: Bytes) {
    Count(s.log, UsedAs(c)) + (if c in s.challenges then 1 else 0) == Count(s.log, IssuedAs(c))
  }

  predicate OnTheWay<P>(ph: Phase<P>) { ph.Redeemed? || ph.LookedUp? || ph.Judged? }

  /** The requests that redeemed a challenge and may still pass. */
  ghost function Holders<P>(phases: map<RequestID, Phase<P>>, c: Bytes): set<RequestID> {
    set r | r in phases && OnTheWay(phases[r]) && phases[r].token.challenge == c
  }

  /** Every redemption of a challenge backs at most one acceptance. */
  ghost predicate Backed<P>(s: State<P>, c: Bytes) {
    Count(s.log, PassedOn(c)) + |Holders(s.phases, c)| <= Count(s.log, UsedAs(c))
  }

  ghost predicate Redemptions<P>(s: State<P>) {
    && (forall c :: Booked(s, c) && Backed(s, c))
    && (forall r :: Accounted(s.log, s.phases, r))
    && (forall r :: r in s.phases ==> Holds(s.log, s.phases[r], r))
    && (forall e :: e in s.log && e.Passed? ==> Used(e.challenge, e.request) in s.log)
  }

  lemma AccountKept<P>(cfg: Config<P>, s: State<P>, a: Action<P>, r: RequestID)
    requires Enabled(s, a) && Accounted(s.log, s.phases, r)
    ensures var t := Step(cfg, s, a); Accounted(t.log, t.phases, r)
  {
    hide Count, Judge, Complete;
    var t := Step(cfg, s, a);
    if t.log != s.log {
      CountAppend(s.log, t.log[|s.log|], UsedBy(r));
      CountAppend(s.log, t.log[|s.log|], PassedBy(r));
    }
  }

  lemma BookKept<P>(cfg: Config<P>, s: State<P>, a: Action<P>, c: Bytes)
    requires Enabled(s, a) && Booked(s, c)
    ensures Booked(Step(cfg, s, a), c)
  {
    hide Count, Judge, Complete;
    var t := Step(cfg, s, a);
    if t.log != s.log {
      CountAppend(s.log, t.log[|s.log|], UsedAs(c));
      CountAppend(s.log, t.log[|s.log|], IssuedAs(c));
    }
  }

  lemma HoldersAfter<P>(phases: map<RequestID, Phase<P>>, c: Bytes, r: RequestID, ph: Phase<P>)
    ensures var now, was := Holders(phases[r := ph], c), Holders(phases, c);
            |now| == |was| - (if r in was then 1 else 0) + (if OnTheWay(ph) && ph.token.challenge == c then 1 else 0)
  {
    var now, was := Holders(phases[r := ph], c), Holders(phases, c);
    if OnTheWay(ph) && ph.token.challenge == c {
      assert now == was + {r};
    } else {
      assert now == was - {r};
    }
  }

  lemma BackingKept<P>(cfg: Config<P>, s: State<P>, a: Action<P>, c: Bytes)
    requires Enabled(s, a) && Backed(s, c)
    ensures Backed(Step(cfg, s, a), c)
  {
    hide Count, Judge, Complete;
    var t := Step(cfg, s, a);
    if t.log != s.log {
      CountAppend(s.log, t.log[|s.log|], UsedAs(c));
      CountAppend(s.log, t.log[|s.log|], PassedOn(c));
    }
    if !a.Issue? {
      HoldersAfter(s.phases, c, a.r, t.phases[a.r]);
      assert t.phases == s.phases[a.r := t.phases[a.r]];
    }
  }

  lemma RedemptionsKept<P>(cfg: Config<P>, s: State<P>, a: Action<P>)
    requires Enabled(s, a) && Redemptions(s)
    ensures Redemptions(Step(cfg, s, a))
  {
    hide Count, Judge, Complete, Accounted, Booked, Backed;
    var t := Step(cfg, s, a);
    if t.log != s.log {
      var e := t.log[|s.log|];
      assert forall x :: x in t.log <==> x in s.log || x == e;
    }
    forall c ensures Booked(t, c) && Backed(t, c) {
      BookKept(cfg, s, a, c);
      BackingKept(cfg, s, a, c);
    }
    forall r ensures Accounted(t.log, t.phases, r) {
      AccountKept(cfg, s, a, r);
    }
  }

  // ---------- Whole runs ----------

  function Start<P>(): State<P> { State(map[], map[], map[], []) }

  function Run<P>(cfg: Config<P>, acts: seq<Action<P>>): State<P>
    requires Possible(cfg, acts)
    decreases |acts|, 1
  {
    if acts == [] then Start() else Step(cfg, Run(cfg, acts[..|acts| - 1]), acts[|acts| - 1])
  }

  predicate Possible<P>(cfg: Config<P>, acts: seq<Action<P>>)
    decreases |acts|, 0
  {
    acts == [] || (Possible(cfg, acts[..|acts| - 1]) && Enabled(Run(cfg, acts[..|acts| - 1]), acts[|acts| - 1]))
  }

  lemma {:induction false} RunInvariant<P>(cfg: Config<P>, acts: seq<Action<P>>)
    requires Possible(cfg, acts)
    ensures CountersMatch(Run(cfg, acts)) && Redemptions(Run(cfg, acts))
  {
    if acts != [] {
      hide CountersMatch, Redemptions, Step, Enabled;
      RunInvariant(cfg, acts[..|acts| - 1]);
      CountersKept(cfg, Run(cfg, acts[..|acts| - 1]), acts[|acts| - 1]);
      RedemptionsKept(cfg, Run(cfg, acts[..|acts| - 1]), acts[|acts| - 1]);
    }
  }

  lemma {:induction false} RisingPair(log: seq<Event>, k: KeyID, i: nat, j: nat)
    requires Rising(log) && i < j < |log| && log[j].Passed? && log[j].keyID == k
    requires (log[i].Passed? || log[i].Registered?) && log[i].keyID == k
    requires forall m :: i < m < j ==> !(log[m].Registered? && log[m].keyID == k)
    ensures log[i].counter < log[j].counter
  {
    var n := |log| - 1;
    if j < n {
      RisingPair(log[..n], k, i, j);
    } else {
      RisingSince(log[..n], k, i);
    }
  }

  lemma {:induction false} RisingSince(log: seq<Event>, k: KeyID, i: nat)
    requires Rising(log) && i < |log| && (log[i].Passed? || log[i].Registered?) && log[i].keyID == k
    requires forall m :: i < m < |log| ==> !(log[m].Registered? && log[m].keyID == k)
    ensures LastCounter(log, k).Some? && LastCounter(log, k).value >= log[i].counter
  {
    if i < |log| - 1 {
      RisingSince(log[..|log| - 1], k, i);
    }
  }

  /** Between registrations of a key the counters of accepted assertions strictly increase in the order
      of their bumps, starting above the registered counter, however the requests interleave. */
  lemma CountersIncrease<P>(cfg: Config<P>, acts: seq<Action<P>>, k: KeyID, i: nat, j: nat)
    requires Possible(cfg, acts)
    requires var log := Run(cfg, acts).log;
             && i < j < |log| && log[j].Passed? && log[j].keyID == k
             && (log[i].Passed? || log[i].Registered?) && log[i].keyID == k
             && forall m :: i < m < j ==> !(log[m].Registered? && log[m].keyID == k)
    ensures Run(cfg, acts).log[i].counter < Run(cfg, acts).log[j].counter
  {
    hide Run, Rising;
    RunInvariant(cfg, acts);
    RisingPair(Run(cfg, acts).log, k, i, j);
  }

  /** A challenge is redeemed at most as often as it was issued: never twice for one issue. */
  lemma RedeemedOncePerIssue<P>(cfg: Config<P>, acts: seq<Action<P>>, c: Bytes)
    requires Possible(cfg, acts)
    ensures var s := Run(cfg, acts);
            Count(s.log, UsedAs(c)) == Count(s.log, IssuedAs(c)) - (if c in s.challenges then 1 else 0)
  {
    hide Run, Count;
    RunInvariant(cfg, acts);
    assert Booked(Run(cfg, acts), c);
  }

  /** However often the same challenge was issued, at most that many acceptances rest on it. */
  lemma AcceptancesPerIssue<P>(cfg: Config<P>, acts: seq<Action<P>>, c: Bytes)
    requires Possible(cfg, acts)
    ensures var log := Run(cfg, acts).log; Count(log, PassedOn(c)) <= Count(log, UsedAs(c)) <= Count(log, IssuedAs(c))
  {
    hide Run, Count;
    RunInvariant(cfg, acts);
    assert Booked(Run(cfg, acts), c) && Backed(Run(cfg, acts), c);
  }

  /** So no two acceptances rest on the same challenge if it was issued once. */
  lemma AcceptancesUseDistinctChallenges<P>(cfg: Config<P>, acts: seq<Action<P>>, i: nat, j: nat)
    requires Possible(cfg, acts)
    requires var log := Run(cfg, acts).log;
             i < j < |log| && log[i].Passed? && log[j].Passed? && Count(log, IssuedAs(log[i].challenge)) <= 1
    ensures Run(cfg, acts).log[i].challenge != Run(cfg, acts).log[j].challenge
  {
    hide Run, Count;
    var log := Run(cfg, acts).log;
    AcceptancesPerIssue(cfg, acts, log[i].challenge);
    if log[i].challenge == log[j].challenge {
      CountTwo(log, PassedOn(log[i].challenge), i, j);
    }
  }

  /** And none on a challenge that was never issued: an accepted request redeemed an issued one itself. */
  lemma AcceptedWasIssued<P>(cfg: Config<P>, acts: seq<Action<P>>, i: nat)
    requires Possible(cfg, acts) && i < |Run(cfg, acts).log| && Run(cfg, acts).log[i].Passed?
    ensures var log := Run(cfg, acts).log;
            Used(log[i].challenge, log[i].request) in log && Count(log, IssuedAs(log[i].challenge)) >= 1
  {
    hide Run, Count;
    RunInvariant(cfg, acts);
    var log := Run(cfg, acts).log;
    assert log[i] in log && Booked(Run(cfg, acts), log[i].challenge);
    var x :| 0 <= x < |log| && log[x] == Used(log[i].challenge, log[i].request);
    CountOne(log, UsedAs(log[i].challenge), x);
  }

  // ---------- What every acceptance rests on ----------

  /** The request started with this token while its challenge, issued before, had not expired. */
  ghost predicate Began<P(!new)>(acts: seq<Action<P>>, r: RequestID, token: Token) {
    exists i, j :: 0 <= i < j < |acts| && IssuedFor(acts[i], acts[j], r, token)
  }

  predicate IssuedFor<P>(issue: Action<P>, start: Action<P>, r: RequestID, token: Token) {
    && start.StartVerify? && start.r == r && start.token == token
    && issue.Issue? && issue.challenge == token.challenge && issue.expiresAt > start.now
  }

  /** A registration of the key id came with this public key. */
  ghost predicate StoredBy<P(!new)>(acts: seq<Action<P>>, k: KeyID, key: P) {
    exists i :: 0 <= i < |acts| && RegistersAs(acts[i], k, key)
  }

  ghost predicate RegistersAs<P(!new)>(a: Action<P>, k: KeyID, key: P) {
    a.StartRegister? && a.keyID == k && a.row.publicKey == key
  }

  ghost predicate IssuedUntil<P(!new)>(acts: seq<Action<P>>, c: Bytes, expiresAt: int) {
    exists i :: 0 <= i < |acts| && acts[i] == Issue(c, expiresAt)
  }

  ghost predicate PhaseTraced<P(!new)>(cfg: Config<P>, acts: seq<Action<P>>, r: RequestID, ph: Phase<P>) {
    match ph
    case Redeemed(token) => Complete(token) && Began(acts, r, token)
    case LookedUp(token, row) => Complete(token) && Began(acts, r, token) && StoredBy(acts, token.keyID, row.publicKey)
    case Judged(token, row, n) =>
      Complete(token) && Began(acts, r, token) && StoredBy(acts, token.keyID, row.publicKey) && Genuine(cfg, token, row, n)
    case Registering(keyID, row) => StoredBy(acts, keyID, row.publicKey)
    case _ => true
  }

  ghost predicate PassedWith<P(!new)>(cfg: Config<P>, acts: seq<Action<P>>, e: Event, token: Token, row: Row<P>)
    requires e.Passed?
  {
    && Complete(token) && Began(acts, e.request, token) && token.keyID == e.keyID && token.challenge == e.challenge
    && StoredBy(acts, e.keyID, row.publicKey) && Genuine(cfg, token, row, e.counter)
  }

  ghost predicate PassTraced<P(!new)>(cfg: Config<P>, acts: seq<Action<P>>, e: Event)
    requires e.Passed?
  {
    exists token, row :: PassedWith(cfg, acts, e, token, row)
  }

  ghost predicate Traced<P(!new)>(cfg: Config<P>, acts: seq<Action<P>>, s: State<P>) {
    && (forall c :: c in s.challenges ==> IssuedUntil(acts, c, s.challenges[c]))
    && (forall k :: k in s.keys ==> StoredBy(acts, k, s.keys[k].publicKey))
    && (forall r :: r in s.phases ==> PhaseTraced(cfg, acts, r, s.phases[r]))
    && (forall e :: e in s.log && e.Passed? ==> PassTraced(cfg, acts, e))
  }

  /** What was traced stays traced when more happens. */
  lemma TraceGrows<P(!new)>(cfg: Config<P>, acts: seq<Action<P>>, a: Action<P>, s: State<P>)
    requires Traced(cfg, acts, s)
    ensures Traced(cfg, acts + [a], s)
  {
    hide Genuine, Complete, IssuedFor, RegistersAs;
    var all := acts + [a];
    forall c, t | IssuedUntil(acts, c, t) ensures IssuedUntil(all, c, t) {
      var i :| 0 <= i < |acts| && acts[i] == Issue(c, t);
      assert all[i] == acts[i];
    }
    forall k, key | StoredBy(acts, k, key) ensures StoredBy(all, k, key) {
      var i :| 0 <= i < |acts| && RegistersAs(acts[i], k, key);
      assert all[i] == acts[i];
    }
    forall r, token | Began(acts, r, token) ensures Began(all, r, token) {
      var i, j :| 0 <= i < j < |acts| && IssuedFor(acts[i], acts[j], r, token);
      assert all[i] == acts[i] && all[j] == acts[j];
    }
    forall e | e in s.log && e.Passed? ensures PassTraced(cfg, all, e) {
      var token, row :| PassedWith(cfg, acts, e, token, row);
      assert PassedWith(cfg, all, e, token, row);
    }
  }

  lemma StartTraced<P(!new)>(cfg: Config<P>, acts: seq<Action<P>>, s: State<P>, a: Action<P>)
    requires Traced(cfg, acts + [a], s) && Traced(cfg, acts, s) && Enabled(s, a)
    requires a.Issue? || a.StartVerify? || a.StartRegister?
    ensures Traced(cfg, acts + [a], Step(cfg, s, a))
  {
    hide Genuine, Judge, PassTraced, Began, StoredBy, Complete, IssuedUntil;
    var all, t := acts + [a], Step(cfg, s, a);
    match a
    case Issue(c, expiresAt) => IssueTraced(acts, c, expiresAt);
    case StartVerify(r, token, now) =>
      if Live(s.challenges, token.challenge, now) {
        BeganTraced(acts, r, token, now, s.challenges[token.challenge]);
      }
    case StartRegister(r, keyID, row, c, now) => RegisterTraced(acts, r, keyID, row, c, now);
  }

  lemma IssueTraced<P(!new)>(acts: seq<Action<P>>, c: Bytes, expiresAt: int)
    ensures IssuedUntil(acts + [Issue(c, expiresAt)], c, expiresAt)
  {
    assert (acts + [Issue(c, expiresAt)])[|acts|] == Issue(c, expiresAt);
  }

  lemma BeganTraced<P(!new)>(acts: seq<Action<P>>, r: RequestID, token: Token, now: int, expiresAt: int)
    requires IssuedUntil(acts, token.challenge, expiresAt) && expiresAt > now
    ensures Began(acts + [StartVerify(r, token, now)], r, token)
  {
    var all := acts + [StartVerify(r, token, now)];
    var i :| 0 <= i < |acts| && acts[i] == Issue(token.challenge, expiresAt);
    assert IssuedFor(all[i], all[|acts|], r, token);
  }

  lemma RegisterTraced<P(!new)>(acts: seq<Action<P>>, r: RequestID, keyID: KeyID, row: Row<P>, c: Bytes, now: int)
    ensures StoredBy(acts + [StartRegister(r, keyID, row, c, now)], keyID, row.publicKey)
  {
    assert RegistersAs((acts + [StartRegister(r, keyID, row, c, now)])[|acts|], keyID, row.publicKey);
  }

  lemma LaterTraced<P(!new)>(cfg: Config<P>, acts: seq<Action<P>>, s: State<P>, a: Action<P>)
    requires Traced(cfg, acts, s) && Enabled(s, a)
    requires !a.Issue? && !a.StartVerify? && !a.StartRegister?
    ensures Traced(cfg, acts, Step(cfg, s, a))
  {
    hide Genuine, Judge, Complete, Began, StoredBy, IssuedUntil;
    var t := Step(cfg, s, a);
    if a.Check? {
      var judged := Judge(cfg, s.phases[a.r].token, s.phases[a.r].row);
      if judged.Some? {
        JudgeExactly(cfg, s.phases[a.r].token, s.phases[a.r].row, judged.value);
      }
    } else if a.Bump? && t.log != s.log {
      var ph, e := s.phases[a.r], t.log[|s.log|];
      assert PassedWith(cfg, acts, e, ph.token, ph.row);
    }
  }

  lemma {:induction false} RunTraced<P(!new)>(cfg: Config<P>, acts: seq<Action<P>>)
    requires Possible(cfg, acts)
    ensures Traced(cfg, acts, Run(cfg, acts))
  {
    if acts != [] {
      hide Traced, Step, Enabled;
      var n := |acts| - 1;
      var s := Run(cfg, acts[..n]);
      assert acts == acts[..n] + [acts[n]];
      RunTraced(cfg, acts[..n]);
      TraceGrows(cfg, acts[..n], acts[n], s);
      if acts[n].Issue? || acts[n].StartVerify? || acts[n].StartRegister? {
        StartTraced(cfg, acts[..n], s, acts[n]);
      } else {
        LaterTraced(cfg, acts, s, acts[n]);
      }
    }
  }

  /** Under any interleaving, every acceptance goes back to a complete token sent in while its challenge was
      issued and unexpired, whose assertion was made for this app, carries the accepted counter and is signed
      under a public key registered for that key id. */
  lemma EveryPassIsGenuine<P(!new)>(cfg: Config<P>, acts: seq<Action<P>>, e: Event) returns (token: Token, row: Row<P>)
    requires Possible(cfg, acts) && e in Run(cfg, acts).log && e.Passed?
    ensures token.keyID == e.keyID != "" && token.challenge == e.challenge != [] && |token.clientDataHash| == 32
    ensures Began(acts, e.request, token)
    ensures StoredBy(acts, e.keyID, row.publicKey)
    ensures Genuine(cfg, token, row, e.counter)
  {
    hide Run, Possible, Genuine, Began, StoredBy;
    RunTraced(cfg, acts);
    assert PassTraced(cfg, acts, e);
    token, row :| PassedWith(cfg, acts, e, token, row);
  }

  // ---------- Under which public key an assertion is accepted ----------

  function After<P>(cfg: Config<P>, s: State<P>, acts: seq<Action<P>>): Option<State<P>> {
    if acts == [] then Some(s)
    else
      match After(cfg, s, acts[..|acts| - 1])
      case None => None
      case Some(t) => if Enabled(t, acts[|acts| - 1]) then Some(Step(cfg, t, acts[|acts| - 1])) else None
  }

  /** The action registers key k. */
  predicate Registers<P>(s: State<P>, a: Action<P>, k: KeyID) {
    a.Upsert? && a.r in s.phases && s.phases[a.r].Registering? && s.phases[a.r].keyID == k
  }

  /** The public key that the last registration of k among the actions stored, or else the given one. */
  function LastRegistered<P>(cfg: Config<P>, s: State<P>, acts: seq<Action<P>>, k: KeyID, otherwise: P): P {
    if acts == [] then otherwise
    else
      var front, a := acts[..|acts| - 1], acts[|acts| - 1];
      match After(cfg, s, front)
      case Some(t) => if Registers(t, a, k) then t.phases[a.r].row.publicKey else LastRegistered(cfg, s, front, k, otherwise)
      case None => LastRegistered(cfg, s, front, k, otherwise)
  }

  /** Where a request that looked up row can be afterwards. */
  ghost predicate Onward<P>(cfg: Config<P>, ph: Phase<P>, token: Token, row: Row<P>) {
    || ph == LookedUp(token, row) || ph.Accepted? || ph.Finished?
    || (ph.Judged? && ph.token == token && ph.row == row && token.assertion != [] && Judge(cfg, token, row) == Some(ph.counter))
  }

  lemma StepOnward<P>(cfg: Config<P>, s: State<P>, a: Action<P>, r: RequestID, token: Token, row: Row<P>, k: KeyID)
    requires Enabled(s, a) && r in s.phases && Onward(cfg, s.phases[r], token, row) && k in s.keys
    ensures var t := Step(cfg, s, a);
            && r in t.phases && Onward(cfg, t.phases[r], token, row) && k in t.keys
            && t.keys[k].publicKey == if Registers(s, a, k) then s.phases[a.r].row.publicKey else s.keys[k].publicKey
  {
    hide Judge, Complete;
  }

  lemma {:induction false} RunOnward<P>(cfg: Config<P>, s: State<P>, acts: seq<Action<P>>, r: RequestID, token: Token, row: Row<P>, k: KeyID)
    requires r in s.phases && s.phases[r] == LookedUp(token, row) && k in s.keys && After(cfg, s, acts).Some?
    ensures var t := After(cfg, s, acts).value;
            && r in t.phases && Onward(cfg, t.phases[r], token, row)
            && k in t.keys && t.keys[k].publicKey == LastRegistered(cfg, s, acts, k, s.keys[k].publicKey)
  {
    if acts != [] {
      hide Step, Enabled, Onward, Registers;
      var n := |acts| - 1;
      RunOnward(cfg, s, acts[..n], r, token, row, k);
      StepOnward(cfg, After(cfg, s, acts[..n]).value, acts[n], r, token, row, k);
    }
  }

  /** The token's assertion is a signature under this public key. */
  predicate SignedUnder<P>(verify: (P, Bytes, Bytes, Bytes) -> bool, key: P, token: Token)
    requires token.assertion != []
  {
    match DecodeAssertion(token.assertion)
    case Err => false
    case Ok(a) => verify(key, a.authData, token.clientDataHash, a.signature)
  }

  /** Whatever the signature scheme, an assertion checked under one public key verifies under another one:
      that holds exactly if the two are the same. */
  ghost predicate AlwaysVerifies<P(!new)>(cfg: Config<P>, token: Token, looked: Row<P>, stored: P)
    requires token.assertion != []
  {
    forall verify :: Judge(cfg.(verify := verify), token, looked).Some? ==> SignedUnder(verify, stored, token)
  }

  ghost function OnlyUnder<P(!new)>(key: P): (P, Bytes, Bytes, Bytes) -> bool {
    (k, authData, hash, signature) => k == key
  }

  lemma SignatureBindsKey<P(!new)>(cfg: Config<P>, token: Token, looked: Row<P>, stored: P)
    requires token.assertion != [] && Judge(cfg, token, looked).Some?
    ensures SignedUnder(cfg.verify, looked.publicKey, token)
    ensures AlwaysVerifies(cfg, token, looked, stored) <==> stored == looked.publicKey
  {
    hide DecodeAssertion, U32;
    assert Judge(cfg.(verify := OnlyUnder(looked.publicKey)), token, looked).Some?;
    if AlwaysVerifies(cfg, token, looked, stored) {
      assert SignedUnder(OnlyUnder(looked.publicKey), stored, token);
    }
  }

  /** A request about to bump has a signature under the key it looked up. Its assertion is sure to verify
      under the key stored by then exactly if the last registration of the key since the lookup, if there
      was one, stored the same public key again. */
  lemma AcceptedUnderStoredKey<P(!new)>(cfg: Config<P>, s: State<P>, acts: seq<Action<P>>, r: RequestID)
    requires r in s.phases && s.phases[r].Redeemed? && s.phases[r].token.keyID in s.keys
    requires var t := After(cfg, Step(cfg, s, Lookup(r)), acts);
             t.Some? && r in t.value.phases && t.value.phases[r].Judged?
    ensures var token, looked := s.phases[r].token, s.keys[s.phases[r].token.keyID];
            var t := After(cfg, Step(cfg, s, Lookup(r)), acts).value;
            && token.assertion != [] && token.keyID in t.keys
            && SignedUnder(cfg.verify, looked.publicKey, token)
            && (AlwaysVerifies(cfg, token, looked, t.keys[token.keyID].publicKey) <==>
                LastRegistered(cfg, Step(cfg, s, Lookup(r)), acts, token.keyID, looked.publicKey) == looked.publicKey)
  {
    hide After, Judge, SignedUnder, LastRegistered;
    var token := s.phases[r].token;
    var looked := s.keys[token.keyID];
    RunOnward(cfg, Step(cfg, s, Lookup(r)), acts, r, token, looked, token.keyID);
    var t := After(cfg, Step(cfg, s, Lookup(r)), acts).value;
    SignatureBindsKey(cfg, token, looked, t.keys[token.keyID].publicKey);
  }

  lemma Extend<P>(cfg: Config<P>, acts: seq<Action<P>>, a: Action<P>)
    requires Possible(cfg, acts) && Enabled(Run(cfg, acts), a)
    ensures Possible(cfg, acts + [a]) && Run(cfg, acts + [a]) == Step(cfg, Run(cfg, acts), a)
  {
    hide Step, Enabled;
    assert (acts + [a])[..|acts|] == acts;
  }

  /** A register, a verification caught between its check and its bump, and a second register of the same key. */
  function Replacement<P>(keyID: KeyID, first: P, second: P, token: Token, c0: Bytes, c2: Bytes): seq<Action<P>> {
    [Issue(c0, 1), Issue(token.challenge, 1), Issue(c2, 1), StartRegister(0, keyID, Row(first, 0), c0, 0), Upsert(0),
     StartVerify(1, token, 0), Lookup(1), Check(1), StartRegister(2, keyID, Row(second, 0), c2, 0), Upsert(2), Bump(1)]
  }

  /** Three challenges are out, and the first one is redeemed to register the first key. */
  lemma FirstKeyStored<P>(cfg: Config<P>, k: KeyID, key: P, c0: Bytes, c: Bytes, c2: Bytes)
    requires c0 != c && c0 != c2 && c != c2
    ensures var acts := [Issue(c0, 1), Issue(c, 1), Issue(c2, 1), StartRegister(0, k, Row(key, 0), c0, 0), Upsert(0)];
            && Possible(cfg, acts)
            && var t := Run(cfg, acts);
            && t.keys == map[k := Row(key, 0)]
            && t.challenges == map[c := 1, c2 := 1] && t.phases == map[0 := Finished]
  {
    hide Run, Possible;
    EmptyRun(cfg);
    var a0: seq<Action<P>> := [];
    var a1: seq<Action<P>> := [Issue(c0, 1)];
    var a2: seq<Action<P>> := [Issue(c0, 1), Issue(c, 1)];
    var a3: seq<Action<P>> := [Issue(c0, 1), Issue(c, 1), Issue(c2, 1)];
    assert a0 + [Issue(c0, 1)] == a1 && a1 + [Issue(c, 1)] == a2 && a2 + [Issue(c2, 1)] == a3;
    Extend(cfg, a0, Issue(c0, 1));
    Extend(cfg, a1, Issue(c, 1));
    Extend(cfg, a2, Issue(c2, 1));
    var s3 := Run(cfg, a3);
    assert s3.challenges == map[c0 := 1, c := 1, c2 := 1] && s3.phases == map[] && s3.keys == map[];
    RegisterExtends(cfg, a3, 0, k, Row(key, 0), c0);
    assert a3 + [StartRegister(0, k, Row(key, 0), c0, 0), Upsert(0)] ==
           [Issue(c0, 1), Issue(c, 1), Issue(c2, 1), StartRegister(0, k, Row(key, 0), c0, 0), Upsert(0)];
    assert s3.challenges - {c0} == map[c := 1, c2 := 1];
  }

  lemma RegisterExtends<P>(cfg: Config<P>, acts: seq<Action<P>>, r: RequestID, k: KeyID, row: Row<P>, c: Bytes)
    requires Possible(cfg, acts)
    requires r !in Run(cfg, acts).phases && Live(Run(cfg, acts).challenges, c, 0)
    ensures var more := acts + [StartRegister(r, k, row, c, 0), Upsert(r)];
            && Possible(cfg, more)
            && var s, t := Run(cfg, acts), Run(cfg, more);
            && t.keys == s.keys[k := row]
            && t.challenges == s.challenges - {c} && t.phases == s.phases[r := Finished]
  {
    hide Run, Possible;
    Extend(cfg, acts, StartRegister(r, k, row, c, 0));
    Extend(cfg, acts + [StartRegister(r, k, row, c, 0)], Upsert(r));
    assert acts + [StartRegister(r, k, row, c, 0)] + [Upsert(r)] == acts + [StartRegister(r, k, row, c, 0), Upsert(r)];
  }

  lemma VerifyExtends<P>(cfg: Config<P>, acts: seq<Action<P>>, r: RequestID, token: Token, row: Row<P>)
    requires Possible(cfg, acts) && Complete(token) && Judge(cfg, token, row).Some?
    requires var s := Run(cfg, acts); r !in s.phases && Live(s.challenges, token.challenge, 0) && s.keys == map[token.keyID := row]
    ensures var more := acts + [StartVerify(r, token, 0), Lookup(r), Check(r)];
            && Possible(cfg, more)
            && var s, t := Run(cfg, acts), Run(cfg, more);
            && t.keys == s.keys && t.challenges == s.challenges - {token.challenge}
            && t.phases == s.phases[r := Judged(token, row, Judge(cfg, token, row).value)]
  {
    hide Run, Possible, Judge, Complete;
    CompleteHasAssertion(token);
    Extend(cfg, acts, StartVerify(r, token, 0));
    var a1 := acts + [StartVerify(r, token, 0)];
    Extend(cfg, a1, Lookup(r));
    var a2 := a1 + [Lookup(r)];
    Extend(cfg, a2, Check(r));
    assert a2 + [Check(r)] == acts + [StartVerify(r, token, 0), Lookup(r), Check(r)];
  }

  /** From the empty stores: request 1 passes with an assertion that verifies under the first key only, after
      the second one has replaced it. */
  lemma PassesUnderReplacedKey<P(!new)>(cfg: Config<P>, first: P, second: P, token: Token, c0: Bytes, c2: Bytes)
    requires first != second && cfg.verify == OnlyUnder(first)
    requires Complete(token) && Judge(cfg, token, Row(first, 0)).Some?
    requires c0 != token.challenge && c0 != c2 && token.challenge != c2
    ensures var acts := Replacement(token.keyID, first, second, token, c0, c2);
            && Possible(cfg, acts) && Run(cfg, acts).phases[1] == Accepted
            && token.keyID in Run(cfg, acts).keys
            && Run(cfg, acts).keys[token.keyID].publicKey == second
            && !SignedUnder(cfg.verify, second, token)
  {
    hide Run, Possible, Judge, Complete, DecodeAssertion;
    var k := token.keyID;
    CompleteHasAssertion(token);
    FirstKeyStored(cfg, k, first, c0, token.challenge, c2);
    var a5 := [Issue(c0, 1), Issue(token.challenge, 1), Issue(c2, 1), StartRegister(0, k, Row(first, 0), c0, 0), Upsert(0)];
    VerifyExtends(cfg, a5, 1, token, Row(first, 0));
    var a8 := a5 + [StartVerify(1, token, 0), Lookup(1), Check(1)];
    RegisterExtends(cfg, a8, 2, k, Row(second, 0), c2);
    var a10 := a8 + [StartRegister(2, k, Row(second, 0), c2, 0), Upsert(2)];
    JudgedIsAbove(cfg, token, Row(first, 0));
    Extend(cfg, a10, Bump(1));
    assert Replacement(k, first, second, token, c0, c2) == a10 + [Bump(1)];
  }

  lemma EmptyRun<P>(cfg: Config<P>)
    ensures Possible(cfg, []) && Run(cfg, []) == Start()
  {
  }

  lemma CompleteHasAssertion(token: Token)
    ensures Complete(token) ==> token.assertion != []
  {
  }

  /** Such a token: authenticator data of thirty-seven ones, an empty signature and one-byte challenges. */
  function ExampleToken(): Token {
    Token("key", EncodeAssertion(Attestation.Assertion(seq(37, i => 1), [])), [1], seq(32, i => 0))
  }

  lemma PassesUnderReplacedKeyExample<P(!new)>(first: P, second: P)
    requires first != second
    ensures var cfg := Config(seq(32, i => 1), false, OnlyUnder(first));
            var acts := Replacement("key", first, second, ExampleToken(), [0], [2]);
            && Possible(cfg, acts) && Run(cfg, acts).phases[1] == Accepted
            && "key" in Run(cfg, acts).keys && Run(cfg, acts).keys["key"].publicKey == second
            && ExampleToken().assertion != [] && !SignedUnder(OnlyUnder(first), second, ExampleToken())
  {
    var cfg := Config(seq(32, i => 1), false, OnlyUnder(first));
    ExampleIsJudged(cfg, first);
    hide Run, Possible, Judge, Complete, Replacement, SignedUnder, ExampleToken;
    ExampleFields();
    PassesUnderReplacedKey(cfg, first, second, ExampleToken(), [0], [2]);
    CompleteHasAssertion(ExampleToken());
  }

  lemma ExampleFields()
    ensures ExampleToken().keyID == "key" && ExampleToken().challenge == [1]
  {
  }

  lemma ExampleIsJudged<P(!new)>(cfg: Config<P>, key: P)
    requires cfg.rpIDHash == seq(32, i => 1) && cfg.verify == OnlyUnder(key)
    ensures Complete(ExampleToken()) && Judge(cfg, ExampleToken(), Row(key, 0)).Some?
  {
    hide DecodeAssertion, EncodeAssertion;
    var a := Attestation.Assertion(seq(37, i => 1), []);
    AssertionRoundTrip(a);
    assert a.authData[..32] == cfg.rpIDHash;
    assert U32(a.authData, 33) > 0;
  }

  // ---------- The stores and the requests at work on them ----------

  /** The phases are the requests' own local variables; the log is for the record only. */
  class Stores<P(!new)> {
    var keys: map<KeyID, Row<P>>
    var challenges: map<Bytes, int>
    var phases: map<RequestID, Phase<P>>
    ghost var log: seq<Event>

    ghost function Abs(): State<P>
      reads this
    {
      State(keys, challenges, phases, log)
    }

    constructor ()
      ensures Abs() == Start()
    {
      keys, challenges, phases, log := map[], map[], map[], [];
    }

    method IssueChallenge(cfg: Config<P>, challenge: Bytes, expiresAt: int) returns (ok: bool)
      modifies this`challenges, this`log
      ensures ok == (challenge !in old(challenges)) && Abs() == Step(cfg, old(Abs()), Issue(challenge, expiresAt))
    {
      ok := challenge !in challenges;
      if ok {
        challenges := challenges[challenge := expiresAt];
        log := log + [Issued(challenge)];
      }
    }

    /** The DELETE that redeems a live challenge. */
    method Consume(r: RequestID, challenge: Bytes, now: int) returns (ok: bool)
      modifies this`challenges, this`log
      ensures ok == (challenge in old(challenges) && now < old(challenges)[challenge])
      ensures challenges == if ok then old(challenges) - {challenge} else old(challenges)
      ensures log == if ok then old(log) + [Used(challenge, r)] else old(log)
    {
      ok := Live(challenges, challenge, now);
      if ok {
        challenges := challenges - {challenge};
        log := log + [Used(challenge, r)];
      }
    }

    /** The guarded UPDATE. */
    method BumpCounter(r: RequestID, token: Token, n: nat) returns (ok: bool)
      modifies this`keys, this`log
      ensures ok == (token.keyID in old(keys) && old(keys)[token.keyID].counter < n)
      ensures keys == if ok then old(keys)[token.keyID := old(keys)[token.keyID].(counter := n)] else old(keys)
      ensures log == if ok then old(log) + [Passed(token.keyID, n, token.challenge, r)] else old(log)
    {
      ok := Advances(keys, token.keyID, n);
      if ok {
        keys := keys[token.keyID := keys[token.keyID].(counter := n)];
        log := log + [Passed(token.keyID, n, token.challenge, r)];
      }
    }

    method BeginVerify(cfg: Config<P>, r: RequestID, token: Token, now: int)
      requires Enabled(Abs(), StartVerify(r, token, now))
      modifies this
      ensures Abs() == Step(cfg, old(Abs()), StartVerify(r, token, now))
    {
      phases := phases[r := Finished];
      if !Complete(token) {
        return;
      }
      var ok := Consume(r, token.challenge, now);
      if ok {
        phases := phases[r := Redeemed(token)];
      }
      assert old(phases)[r := Finished][r := Redeemed(token)] == old(phases)[r := Redeemed(token)];
    }

    method LookUpKey(cfg: Config<P>, r: RequestID)
      requires Enabled(Abs(), Lookup(r))
      modifies this`phases
      ensures Abs() == Step(cfg, old(Abs()), Lookup(r))
    {
      var token := phases[r].token;
      phases := phases[r := if token.keyID in keys then LookedUp(token, keys[token.keyID]) else Finished];
    }

    method CheckAssertion(cfg: Config<P>, r: RequestID)
      requires Enabled(Abs(), Check(r))
      modifies this`phases
      ensures Abs() == Step(cfg, old(Abs()), Check(r))
    {
      hide Judge;
      var token, row := phases[r].token, phases[r].row;
      var judged := Judge(cfg, token, row);
      phases := phases[r := if judged.Some? then Judged(token, row, judged.value) else Finished];
    }

    method FinishVerify(cfg: Config<P>, r: RequestID) returns (ok: bool)
      requires Enabled(Abs(), Bump(r))
      modifies this
      ensures Abs() == Step(cfg, old(Abs()), Bump(r)) && (ok <==> phases[r] == Accepted)
    {
      ok := BumpCounter(r, phases[r].token, phases[r].counter);
      phases := phases[r := if ok then Accepted else Finished];
    }

    method BeginRegister(cfg: Config<P>, r: RequestID, keyID: KeyID, row: Row<P>, challenge: Bytes, now: int)
      requires Enabled(Abs(), StartRegister(r, keyID, row, challenge, now))
      modifies this
      ensures Abs() == Step(cfg, old(Abs()), StartRegister(r, keyID, row, challenge, now))
    {
      var ok := Consume(r, challenge, now);
      phases := phases[r := if ok then Registering(keyID, row) else Finished];
    }

    method UpsertKey(cfg: Config<P>, r: RequestID)
      requires Enabled(Abs(), Upsert(r))
      modifies this
      ensures Abs() == Step(cfg, old(Abs()), Upsert(r))
    {
      var keyID, row := phases[r].keyID, phases[r].row;
      keys := keys[keyID := row];
      log := log + [Registered(keyID, row.counter)];
      phases := phases[r := Finished];
    }

    /** A whole Verify that nothing interrupts is its four steps in a row: it accepts exactly a complete token
        with a live challenge whose assertion passes the checks against the stored row; its bump cannot fail. */
    method Verify(cfg: Config<P>, r: RequestID, token: Token, now: int) returns (ok: bool)
      requires r !in phases
      modifies this
      ensures ok <==> && token.keyID != "" && token.challenge != [] && |token.clientDataHash| == 32
                      && token.challenge in old(challenges) && now < old(challenges)[token.challenge]
                      && token.keyID in old(keys) && exists n: nat :: Genuine(cfg, token, old(keys)[token.keyID], n)
      ensures ok ==> After(cfg, old(Abs()), [StartVerify(r, token, now), Lookup(r), Check(r), Bump(r)]) == Some(Abs())
      ensures r in phases && (ok <==> phases[r] == Accepted) && (!ok <==> phases[r] == Finished)
      ensures challenges == if Complete(token) && Live(old(challenges), token.challenge, now)
                            then old(challenges) - {token.challenge} else old(challenges)
      ensures ok ==> token.keyID in keys && Genuine(cfg, token, old(keys)[token.keyID], keys[token.keyID].counter)
      ensures keys == if ok then var row := old(keys)[token.keyID];
                                 old(keys)[token.keyID := row.(counter := keys[token.keyID].counter)]
                      else old(keys)
    {
      hide Judge, Genuine;
      CompleteHasAssertion(token);
      if token.assertion != [] && token.keyID in keys {
        JudgeAccepts(cfg, token, keys[token.keyID]);
      } else {
        NothingGenuine(cfg, token);
      }
      BeginVerify(cfg, r, token, now);
      if phases[r] == Finished {
        return false;
      }
      LookUpKey(cfg, r);
      if phases[r] == Finished {
        return false;
      }
      CheckAssertion(cfg, r);
      if phases[r] == Finished {
        return false;
      }
      JudgedIsAbove(cfg, token, keys[token.keyID]);
      FourSteps(cfg, old(Abs()), r, token, now);
      ok := FinishVerify(cfg, r);
    }
  }

  lemma JudgeAccepts<P>(cfg: Config<P>, token: Token, row: Row<P>)
    requires token.assertion != []
    ensures Judge(cfg, token, row).Some? <==> exists n: nat :: Genuine(cfg, token, row, n)
    ensures Judge(cfg, token, row).Some? ==> Genuine(cfg, token, row, Judge(cfg, token, row).value)
  {
    hide Judge, Genuine;
    if Judge(cfg, token, row).Some? {
      JudgeExactly(cfg, token, row, Judge(cfg, token, row).value);
    }
    if n: nat :| Genuine(cfg, token, row, n) {
      JudgeExactly(cfg, token, row, n);
    }
  }

  lemma NothingGenuine<P(!new)>(cfg: Config<P>, token: Token)
    ensures token.assertion == [] ==> forall row, n :: !Genuine(cfg, token, row, n)
  {
  }

  lemma FourSteps<P>(cfg: Config<P>, s: State<P>, r: RequestID, token: Token, now: int)
    requires Enabled(s, StartVerify(r, token, now))
    requires Enabled(Step(cfg, s, StartVerify(r, token, now)), Lookup(r))
    requires Enabled(Step(cfg, Step(cfg, s, StartVerify(r, token, now)), Lookup(r)), Check(r))
    requires Enabled(Step(cfg, Step(cfg, Step(cfg, s, StartVerify(r, token, now)), Lookup(r)), Check(r)), Bump(r))
    ensures After(cfg, s, [StartVerify(r, token, now), Lookup(r), Check(r), Bump(r)]) ==
            Some(Step(cfg, Step(cfg, Step(cfg, Step(cfg, s, StartVerify(r, token, now)), Lookup(r)), Check(r)), Bump(r)))
  {
    hide Step, Enabled;
    var acts: seq<Action<P>> := [StartVerify(r, token, now), Lookup(r), Check(r), Bump(r)];
    assert acts[..1] == [StartVerify(r, token, now)] && acts[..1][..0] == [];
    assert After(cfg, s, acts[..1]) == Some(Step(cfg, s, StartVerify(r, token, now)));
    assert acts[..2][..1] == acts[..1];
    assert After(cfg, s, acts[..2]).Some?;
    assert acts[..3][..2] == acts[..2];
    assert After(cfg, s, acts[..3]).Some?;
  }

  lemma JudgedIsAbove<P>(cfg: Config<P>, token: Token, row: Row<P>)
    requires token.assertion != [] && Judge(cfg, token, row).Some?
    ensures Judge(cfg, token, row).value > row.counter
  {
    hide DecodeAssertion;
  }
}
