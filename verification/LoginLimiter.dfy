/** The per-email login limiter: five failures open a lockout, a window lasts fifteen minutes from its
    first failure, and a background loop purges expired records. Times are seconds. */
module LoginLimiter {
  import opened Wrappers

  const MAX_ATTEMPTS := 5
  const WINDOW := 900

  datatype Record = Record(attempts: nat, expiresAt: int)

  type Table<E> = map<E, Record>

  predicate Expired(r: Record, now: int) { now > r.expiresAt }

  // ---------- The three operations and the purge ----------

  function AfterCheck<E(==)>(t: Table<E>, email: E, now: int): Table<E> {
    if email in t && Expired(t[email], now) then t - {email} else t
  }

  predicate Blocked<E(==)>(t: Table<E>, email: E, now: int) {
    email in t && !Expired(t[email], now) && t[email].attempts >= MAX_ATTEMPTS
  }

  function AfterFailure<E(==)>(t: Table<E>, email: E, now: int): Table<E> {
    if email !in t || Expired(t[email], now) then t[email := Record(1, now + WINDOW)]
    else t[email := t[email].(attempts := t[email].attempts + 1)]
  }

  function AfterPurge<E(==)>(t: Table<E>, now: int): Table<E> {
    map email | email in t && !Expired(t[email], now) :: t[email]
  }

  class Limiter<E(==)> {
    var loginAttempts: Table<E>

    constructor ()
      ensures loginAttempts == map[]
    {
      loginAttempts := map[];
    }

    method CheckEmailRateLimit(email: E, now: int) returns (limited: bool)
      modifies this
      ensures var was := old(loginAttempts);
              && limited == Blocked(was, email, now) == (email in was && now <= was[email].expiresAt && was[email].attempts >= 5)
              && loginAttempts == AfterCheck(was, email, now)
              && loginAttempts == if email in was && now > was[email].expiresAt then was - {email} else was
    {
      if email !in loginAttempts {
        return false;
      }
      var rec := loginAttempts[email];
      if now > rec.expiresAt {
        loginAttempts := loginAttempts - {email};
        return false;
      }
      limited := rec.attempts >= MAX_ATTEMPTS;
    }

    method RecordFailedLogin(email: E, now: int)
      modifies this
      ensures loginAttempts == AfterFailure(old(loginAttempts), email, now)
    {
      if email !in loginAttempts || now > loginAttempts[email].expiresAt {
        loginAttempts := loginAttempts[email := Record(1, now + WINDOW)];
        return;
      }
      var rec := loginAttempts[email];
      loginAttempts := loginAttempts[email := rec.(attempts := rec.attempts + 1)];
    }

    method ClearLoginAttempts(email: E)
      modifies this
      ensures loginAttempts == old(loginAttempts) - {email}
    {
      loginAttempts := loginAttempts - {email};
    }

    /** One tick of the background goroutine. */
    method PurgeExpired(now: int)
      modifies this
      ensures loginAttempts == AfterPurge(old(loginAttempts), now)
      ensures forall e :: e in loginAttempts <==> e in old(loginAttempts) && now <= old(loginAttempts)[e].expiresAt
      ensures forall e :: e in loginAttempts ==> loginAttempts[e] == old(loginAttempts)[e]
    {
      var pending := loginAttempts.Keys;
      ghost var was := loginAttempts;
      while pending != {}
        invariant pending <= was.Keys && loginAttempts.Keys <= was.Keys
        invariant forall e :: e in loginAttempts ==> loginAttempts[e] == was[e]
        invariant forall e :: e in pending ==> e in loginAttempts
        invariant forall e :: e in was && e !in pending ==> (e in loginAttempts <==> !Expired(was[e], now))
      {
        var email :| email in pending;
        if now > loginAttempts[email].expiresAt {
          loginAttempts := loginAttempts - {email};
        }
        pending := pending - {email};
      }
    }

    /** A login with its check and its bookkeeping as one step. */
    method Login(email: E, passwordOk: bool, now: int) returns (limited: bool)
      modifies this
      ensures limited == Blocked(old(loginAttempts), email, now)
      ensures loginAttempts == Step(old(loginAttempts), Attempt(email, passwordOk, now))
    {
      limited := CheckEmailRateLimit(email, now);
      if limited {
        return;
      }
      if passwordOk {
        ClearLoginAttempts(email);
      } else {
        RecordFailedLogin(email, now);
      }
    }
  }

  // ---------- Runs ----------

  datatype Event<E> = Attempt(email: E, passwordOk: bool, now: int) | Purge(now: int)

  function Step<E(==)>(t: Table<E>, e: Event<E>): Table<E> {
    match e
    case Attempt(email, ok, now) =>
      if Blocked(t, email, now) then AfterCheck(t, email, now)
      else if ok then AfterCheck(t, email, now) - {email}
      else AfterFailure(AfterCheck(t, email, now), email, now)
    case Purge(now) => AfterPurge(t, now)
  }

  function Run<E(==)>(events: seq<Event<E>>): Table<E> {
    if events == [] then map[] else Step(Run(events[..|events| - 1]), events[|events| - 1])
  }

  ghost predicate Chronological<E(!new)>(events: seq<Event<E>>) {
    forall i, j :: 0 <= i <= j < |events| ==> events[i].now <= events[j].now
  }

  /** The event is a failed login of the email that the limiter let through. */
  predicate Admits<E(==)>(t: Table<E>, e: Event<E>, email: E) {
    e.Attempt? && e.email == email && !e.passwordOk && !Blocked(t, email, e.now)
  }

  /** How many failed logins of the email were let through from event lo on. */
  function Admitted<E(==)>(events: seq<Event<E>>, lo: nat, email: E): nat
    requires lo <= |events|
    decreases |events|
  {
    if lo == |events| then 0
    else
      var n := |events| - 1;
      Admitted(events[..n], lo, email) + (if Admits(Run(events[..n]), events[n], email) then 1 else 0)
  }

  /** No login of the email succeeds from event lo on. */
  ghost predicate NoSuccess<E(!new)>(events: seq<Event<E>>, lo: nat, email: E) {
    forall i :: lo <= i < |events| && events[i].Attempt? && events[i].email == email ==> !events[i].passwordOk
  }

  /** Where the email stands after f admitted failures since the interval that ends at `end` began. */
  ghost predicate Tally<E>(t: Table<E>, email: E, f: nat, end: int) {
    if email !in t then f <= MAX_ATTEMPTS - 1
    else
      && 1 <= t[email].attempts <= MAX_ATTEMPTS
      && if t[email].expiresAt >= end then f <= MAX_ATTEMPTS - 1 + t[email].attempts else f < t[email].attempts
  }

  lemma TallyStep<E>(t: Table<E>, e: Event<E>, email: E, f: nat, start: int)
    requires Tally(t, email, f, start + WINDOW) && start <= e.now <= start + WINDOW
    requires e.Attempt? && e.email == email ==> !e.passwordOk
    ensures Tally(Step(t, e), email, f + (if Admits(t, e, email) then 1 else 0), start + WINDOW)
  {
  }

  lemma {:induction false} AttemptsBounded<E(!new)>(events: seq<Event<E>>, email: E)
    ensures email in Run(events) ==> 1 <= Run(events)[email].attempts <= MAX_ATTEMPTS
  {
    if events != [] {
      AttemptsBounded(events[..|events| - 1], email);
    }
  }

  lemma {:induction false} TallyRuns<E(!new)>(events: seq<Event<E>>, lo: nat, email: E, start: int)
    requires lo <= |events| && NoSuccess(events, lo, email)
    requires forall i :: lo <= i < |events| ==> start <= events[i].now <= start + WINDOW
    ensures Tally(Run(events), email, Admitted(events, lo, email), start + WINDOW)
    decreases |events|
  {
    if lo == |events| {
      AttemptsBounded(events, email);
    } else {
      hide Step, Admits, Tally;
      var n := |events| - 1;
      TallyRuns(events[..n], lo, email, start);
      TallyStep(Run(events[..n]), events[n], email, Admitted(events[..n], lo, email), start);
    }
  }

  /** Any stretch of a run that spans at most fifteen minutes and holds no successful login of the email
      lets at most nine of its failed logins through: four left of one window and five of the next. */
  lemma AtMostNineFailures<E(!new)>(events: seq<Event<E>>, lo: nat, email: E)
    requires lo < |events| && Chronological(events) && NoSuccess(events, lo, email)
    requires events[|events| - 1].now - events[lo].now <= 900
    ensures Admitted(events, lo, email) <= 9
  {
    hide Admitted, Run;
    TallyRuns(events, lo, email, events[lo].now);
  }

  // ---------- Lockouts ----------

  /** Once blocked, an email stays blocked until its window expires, whatever is tried meanwhile. */
  lemma {:induction false} LockedUntilExpiry<E(!new)>(events: seq<Event<E>>, i: nat, j: nat, email: E)
    requires i <= j < |events| && Chronological(events)
    requires Blocked(Run(events[..i]), email, events[i].now) && events[j].now <= Run(events[..i])[email].expiresAt
    ensures Blocked(Run(events[..j]), email, events[j].now) && Run(events[..j])[email] == Run(events[..i])[email]
  {
    if i < j {
      LockedUntilExpiry(events, i, j - 1, email);
      assert events[..j][..j - 1] == events[..j - 1];
    }
  }

  /** After a success that was let through, the next five failures are let through as well. */
  lemma SuccessRestarts<E(!new)>(events: seq<Event<E>>, email: E, now: int, later: int)
    requires !Blocked(Run(events), email, now)
    ensures var cleared := events + [Attempt(email, true, now)];
            Admitted(cleared + Failures(email, later, 5), |cleared|, email) == 5
  {
    var cleared := events + [Attempt(email, true, now)];
    assert cleared[..|events|] == events && Admitted(cleared, |cleared|, email) == 0;
    FailuresRun(cleared, |cleared|, email, later, 5, None);
  }

  // ---------- Nine is reached ----------

  function Failures<E(==)>(email: E, now: int, n: nat): seq<Event<E>> { seq(n, i => Attempt(email, false, now)) }

  lemma FailOnce<E(!new)>(events: seq<Event<E>>, lo: nat, email: E, now: int, r: Option<Record>)
    requires lo <= |events|
    requires r == if email in Run(events) && !Expired(Run(events)[email], now) then Some(Run(events)[email]) else None
    requires r.Some? ==> r.value.attempts < MAX_ATTEMPTS
    ensures var more := events + [Attempt(email, false, now)];
            && Admitted(more, lo, email) == Admitted(events, lo, email) + 1 && email in Run(more)
            && Run(more)[email] == if r.Some? then r.value.(attempts := r.value.attempts + 1) else Record(1, now + WINDOW)
  {
    var more := events + [Attempt(email, false, now)];
    assert more[..|more| - 1] == events;
  }

  lemma {:induction false} FailuresRun<E(!new)>(events: seq<Event<E>>, lo: nat, email: E, now: int, n: nat, r: Option<Record>)
    requires lo <= |events|
    requires r == if email in Run(events) && !Expired(Run(events)[email], now) then Some(Run(events)[email]) else None
    requires r.Some? ==> r.value.expiresAt >= now
    requires n > 0 && (if r.Some? then r.value.attempts else 0) + n <= MAX_ATTEMPTS
    ensures var more := events + Failures(email, now, n);
            && Admitted(more, lo, email) == Admitted(events, lo, email) + n && email in Run(more)
            && Run(more)[email] == if r.Some? then r.value.(attempts := r.value.attempts + n) else Record(n, now + WINDOW)
    decreases n
  {
    hide Run, Admitted;
    var before := events + Failures(email, now, n - 1);
    assert events + Failures(email, now, n) == before + [Attempt(email, false, now)];
    if n > 1 {
      FailuresRun(events, lo, email, now, n - 1, r);
      FailOnce(before, lo, email, now, Some(Run(before)[email]));
    } else {
      assert before == events;
      FailOnce(events, lo, email, now, r);
    }
  }

  /** One failure, four more when the window is about to end and five just after: the last nine fall
      within one second. */
  lemma NineIsReached<E(!new)>(email: E)
    ensures var events := Failures(email, 0, 1) + Failures(email, 900, 4) + Failures(email, 901, 5);
            && Chronological(events) && NoSuccess(events, 1, email)
            && events[|events| - 1].now - events[1].now == 1
            && Admitted(events, 1, email) == 9
  {
    var none: seq<Event<E>> := [];
    var one := Failures(email, 0, 1);
    FailuresRun(none, 0, email, 0, 1, None);
    assert none + one == one;
    FailuresRun(one, 1, email, WINDOW, 4, Some(Record(1, WINDOW)));
    FailuresRun(one + Failures(email, WINDOW, 4), 1, email, WINDOW + 1, 5, None);
    assert Admitted(one, 1, email) == 0;
  }

  // ---------- Exactly when five per fifteen minutes holds ----------

  /** The continuation lies within fifteen minutes of start and holds no successful login of the email. */
  ghost predicate Stretch<E(!new)>(events: seq<Event<E>>, more: seq<Event<E>>, email: E, start: int) {
    && Chronological(events + more) && NoSuccess(events + more, |events|, email)
    && forall i :: 0 <= i < |more| ==> start <= more[i].now <= start + 900
  }

  /** The documented limit from start on: at most five failures are let through, whatever is tried. */
  ghost predicate AtMostFive<E(!new)>(events: seq<Event<E>>, email: E, start: int) {
    forall more :: Stretch(events, more, email, start) ==> Admitted(events + more, |events|, email) <= 5
  }

  /** A window is open at start, still takes failures and ends before the fifteen minutes do. */
  predicate HalfUsedWindow<E(==)>(t: Table<E>, email: E, start: int) {
    email in t && t[email].attempts < 5 && start <= t[email].expiresAt < start + 900
  }

  /** Where the email stands after f admitted failures since start, if no window was half used then. */
  ghost predicate OneWindow<E>(t: Table<E>, email: E, f: nat, start: int) {
    if email !in t then f == 0
    else
      && f <= t[email].attempts <= MAX_ATTEMPTS
      && (t[email].expiresAt < start + WINDOW ==> f == 0 && (t[email].attempts == MAX_ATTEMPTS || Expired(t[email], start)))
  }

  lemma OneWindowStep<E>(t: Table<E>, e: Event<E>, email: E, f: nat, start: int)
    requires OneWindow(t, email, f, start) && start <= e.now <= start + WINDOW
    requires e.Attempt? && e.email == email ==> !e.passwordOk
    ensures OneWindow(Step(t, e), email, f + (if Admits(t, e, email) then 1 else 0), start)
  {
  }

  lemma {:induction false} OneWindowRuns<E(!new)>(events: seq<Event<E>>, more: seq<Event<E>>, email: E, start: int)
    requires Stretch(events, more, email, start) && !HalfUsedWindow(Run(events), email, start)
    ensures OneWindow(Run(events + more), email, Admitted(events + more, |events|, email), start)
    decreases |more|
  {
    var n := |more| - 1;
    if more == [] {
      assert events + more == events;
      AttemptsBounded(events, email);
    } else {
      hide Step, Admits, OneWindow;
      var all := events + more;
      assert all[..|all| - 1] == events + more[..n] && all[|all| - 1] == more[n];
      OneWindowRuns(events, more[..n], email, start);
      OneWindowStep(Run(events + more[..n]), more[n], email, Admitted(events + more[..n], |events|, email), start);
    }
  }

  /** The rest of the half-used window and a whole next one. */
  lemma MoreThanFive<E(!new)>(events: seq<Event<E>>, email: E, start: int) returns (more: seq<Event<E>>)
    requires Chronological(events) && (events != [] ==> events[|events| - 1].now <= start)
    requires HalfUsedWindow(Run(events), email, start)
    ensures Stretch(events, more, email, start)
    ensures Admitted(events + more, |events|, email) == 10 - Run(events)[email].attempts
  {
    hide Run, Admitted;
    var r := Run(events)[email];
    var rest, next := Failures(email, start, MAX_ATTEMPTS - r.attempts), Failures(email, r.expiresAt + 1, MAX_ATTEMPTS);
    NothingAdmitted(events, email);
    FailuresRun(events, |events|, email, start, MAX_ATTEMPTS - r.attempts, Some(r));
    FailuresRun(events + rest, |events|, email, r.expiresAt + 1, MAX_ATTEMPTS, None);
    more := rest + next;
    assert events + rest + next == events + more;
  }

  lemma NothingAdmitted<E>(events: seq<Event<E>>, email: E)
    ensures Admitted(events, |events|, email) == 0
  {
  }

  /** From start on, the limit of five failures per fifteen minutes holds exactly if no window of the email
      is half used at start. */
  lemma FiveExactly<E(!new)>(events: seq<Event<E>>, email: E, start: int)
    requires Chronological(events) && (events != [] ==> events[|events| - 1].now <= start)
    ensures AtMostFive(events, email, start) <==> !HalfUsedWindow(Run(events), email, start)
  {
    hide Run, Admitted;
    if HalfUsedWindow(Run(events), email, start) {
      var more := MoreThanFive(events, email, start);
    } else {
      forall more | Stretch(events, more, email, start)
        ensures Admitted(events + more, |events|, email) <= MAX_ATTEMPTS
      {
        OneWindowRuns(events, more, email, start);
      }
    }
  }

  // ---------- Purging is invisible ----------

  ghost predicate SameLive<E(!new)>(t: Table<E>, u: Table<E>, now: int) {
    forall e :: (e in t && !Expired(t[e], now)) == (e in u && !Expired(u[e], now))
                && (e in t && !Expired(t[e], now) ==> t[e] == u[e])
  }

  lemma LiveStep<E(!new)>(t: Table<E>, u: Table<E>, e: Event<E>)
    requires SameLive(t, u, e.now)
    ensures SameLive(Step(t, e), Step(u, e), e.now)
    ensures e.Purge? ==> SameLive(Step(t, e), u, e.now)
    ensures e.Attempt? ==> Blocked(t, e.email, e.now) == Blocked(u, e.email, e.now)
  {
  }

  lemma LiveLater<E(!new)>(t: Table<E>, u: Table<E>, now: int, later: int)
    requires SameLive(t, u, now) && now <= later
    ensures SameLive(t, u, later)
  {
  }

  function WithoutPurges<E>(events: seq<Event<E>>): seq<Event<E>> {
    if events == [] then []
    else WithoutPurges(events[..|events| - 1]) + (if events[|events| - 1].Purge? then [] else [events[|events| - 1]])
  }

  /** What the limiter answered to each login. */
  function Answers<E(==)>(events: seq<Event<E>>): seq<bool> {
    if events == [] then []
    else
      var n := |events| - 1;
      Answers(events[..n]) + (if events[n].Attempt? then [Blocked(Run(events[..n]), events[n].email, events[n].now)] else [])
  }

  lemma {:induction false} PurgeRuns<E(!new)>(events: seq<Event<E>>, now: int)
    requires Chronological(events) && (events != [] ==> events[|events| - 1].now <= now)
    ensures Answers(events) == Answers(WithoutPurges(events))
    ensures SameLive(Run(events), Run(WithoutPurges(events)), now)
  {
    if events != [] {
      hide Step, SameLive, Blocked;
      var n := |events| - 1;
      var e, kept := events[n], WithoutPurges(events[..n]);
      PurgeRuns(events[..n], e.now);
      LiveStep(Run(events[..n]), Run(kept), e);
      if e.Purge? {
        assert WithoutPurges(events) == kept && Answers(events) == Answers(events[..n]);
        LiveLater(Run(events), Run(kept), e.now, now);
      } else {
        assert (kept + [e])[..|kept|] == kept;
        LiveLater(Run(events), Run(kept + [e]), e.now, now);
      }
    }
  }

  /** The purge loop never changes an answer, however often and whenever it runs. */
  lemma PurgingIsInvisible<E(!new)>(events: seq<Event<E>>)
    requires Chronological(events)
    ensures Answers(events) == Answers(WithoutPurges(events))
  {
    PurgeRuns(events, if events == [] then 0 else events[|events| - 1].now);
  }
}
