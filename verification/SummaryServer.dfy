/** The running server: the tables, the response cache and the cache of link targets, with every
    handler as an atomic step. Each handler is shown to answer and write exactly as its cache-free
    counterpart, over any run of requests and any clock readings. */
module SummaryServer {
  import opened Wrappers
  import opened Calendar
  import opened Models
  import opened SummaryTables
  import opened SummaryRequests
  import opened ResponseCache

  const SUMMARY_TTL := 30
  const LINK_TARGETS_TTL := 30

  datatype SummaryKey = SummaryKey(budget: Id, user: Id, today: Day)

  type Cached = Entry<SummaryKey, Id, Summary>

  datatype TargetEntry = TargetEntry(ids: set<Id>, expiresAt: int)

  /** The clock readings one request makes, in no assumed order. */
  datatype Clock = Clock(lookup: int, targets: int, store: int, sweep: int, broadcast: int)

  /** Every stored response, expired or not, is what the tables give now. */
  ghost predicate Mirrors(db: Database, order: seq<Cached>) {
    forall e :: e in order ==>
      e.budgetID == Some(e.key.budget) && ComputeSummary(db, e.key.budget, e.key.user, e.key.today) == Some(e.data)
  }

  ghost predicate TargetsFresh(links: seq<Link>, cached: map<Id, TargetEntry>) {
    forall s :: s in cached ==> cached[s].ids == Targets(links, s)
  }

  /** order keeps exactly the entries of was that belong to none of the purged budgets. */
  ghost predicate Purged(was: seq<Cached>, order: seq<Cached>, purged: set<Id>) {
    forall e :: e in order <==> e in was && !(e.budgetID.Some? && e.budgetID.value in purged)
  }

  /** Purging every budget whose view changed keeps the cache a mirror of the tables. */
  lemma PurgeMirrors(db: Database, db': Database, was: seq<Cached>, order: seq<Cached>, purged: set<Id>)
    requires Mirrors(db, was) && Purged(was, order, purged)
    requires forall b :: b !in purged ==> SameView(db, db', b)
    ensures Mirrors(db', order)
  {
    hide ComputeSummary, SameView;
    forall e | e in order
      ensures e.budgetID == Some(e.key.budget) && ComputeSummary(db', e.key.budget, e.key.user, e.key.today) == Some(e.data) {
      SummaryFrame(db, db', e.key.budget, e.key.user, e.key.today);
    }
  }

  lemma MembersAfterGet(v: View<SummaryKey, Id, Summary>, key: SummaryKey, now: int)
    requires Sound(v)
    ensures forall e :: e in AfterGet(v, key, now).order ==> e in v.order
  {
    forall e ensures e in Without(v.order, key) ==> e in v.order {
      KeepMember(v.order, NotKey(key), e);
    }
  }

  lemma MembersAfterSet(v: View<SummaryKey, Id, Summary>, x: Cached, later: int)
    ensures forall e :: e in AfterSet(v, x, later).order ==> e == x || e in v.order
  {
    hide Keep;
    forall e ensures e in Inserted(v, x, later) ==> e == x || e in v.order {
      KeepMember(v.order, NotKey(x.key), e);
      KeepMember([x] + Without(v.order, x.key), LiveAt(later), e);
    }
  }

  lemma MembersAfterInvalidate(order: seq<Cached>, b: Id)
    ensures Purged(order, Keep(order, NotFor(Some(b))), {b})
  {
    forall e ensures e in Keep(order, NotFor(Some(b))) <==> e in order && e.budgetID != Some(b) {
      KeepMember(order, NotFor(Some(b)), e);
    }
  }

  function ReadReply(v: View<SummaryKey, Id, Summary>, db: Database, key: SummaryKey, clock: Clock): Reply {
    match Answer(v, key, clock.lookup)
    case Some(summary) => Served(summary)
    case None => PlainRead(db, key.user, key.budget, key.today)
  }

  /** What a summary read leaves in the response cache. */
  function AfterRead(v: View<SummaryKey, Id, Summary>, db: Database, key: SummaryKey, clock: Clock): View<SummaryKey, Id, Summary> {
    var w := Step(v, GetOp(key, clock.lookup));
    var computed := ComputeSummary(db, key.budget, key.user, key.today);
    if Answer(v, key, clock.lookup).Some? || computed.None? then w
    else Step(w, SetOp(key, Some(key.budget), computed.value, SUMMARY_TTL, clock.store, clock.sweep))
  }

  lemma ReadMirrors(db: Database, v: View<SummaryKey, Id, Summary>, key: SummaryKey, clock: Clock)
    requires Sound(v)
    ensures Mirrors(db, v.order) ==>
              Mirrors(db, AfterRead(v, db, key, clock).order)
              && ReadReply(v, db, key, clock) == PlainRead(db, key.user, key.budget, key.today)
  {
    hide ComputeSummary, AfterGet, AfterSet, Sound;
    var w := AfterGet(v, key, clock.lookup);
    MembersAfterGet(v, key, clock.lookup);
    var computed := ComputeSummary(db, key.budget, key.user, key.today);
    if computed.Some? {
      MembersAfterSet(w, Entry(key, computed.value, clock.store + SUMMARY_TTL, Some(key.budget)), clock.sweep);
    }
    if Mirrors(db, v.order) && Answer(v, key, clock.lookup).Some? {
      AnswerMirrors(db, v, key, clock.lookup);
    }
  }

  lemma AnswerMirrors(db: Database, v: View<SummaryKey, Id, Summary>, key: SummaryKey, now: int)
    requires Mirrors(db, v.order) && Answer(v, key, now).Some?
    ensures ComputeSummary(db, key.budget, key.user, key.today) == Answer(v, key, now)
  {
    hide ComputeSummary;
  }

  class Server {
    var db: Database
    const responses: Cache<SummaryKey, Id, Summary>
    var linkTargets: map<Id, TargetEntry>

    ghost predicate Coherent()
      reads this, responses
    {
      && responses.Valid() && Integrity(db)
      && Mirrors(db, responses.Contents().order)
      && TargetsFresh(db.links, linkTargets)
    }

    constructor (db: Database)
      requires Integrity(db)
      ensures Coherent() && this.db == db && fresh(responses) && responses.Contents() == View([], 0)
    {
      this.db := db;
      responses := new Cache();
      linkTargets := map[];
    }

    // ---------- Reads ----------

    /** Reads the cache first. A coherent cache makes the reply the one the tables give; any other cache
        answers with what it stored. */
    method GetBudgetSummary(user: Id, b: Id, today: Day, clock: Clock) returns (reply: Reply)
      requires responses.Valid()
      modifies responses
      ensures responses.Valid()
      ensures reply == ReadReply(old(responses.Contents()), db, SummaryKey(b, user, today), clock)
      ensures responses.Contents() == AfterRead(old(responses.Contents()), db, SummaryKey(b, user, today), clock)
      ensures old(Coherent()) ==> Coherent() && reply == PlainRead(db, user, b, today)
    {
      hide ComputeSummary, AfterGet, AfterSet, Find, Answer, Integrity, TargetsFresh, Sound;
      var key := SummaryKey(b, user, today);
      ghost var v := responses.Contents();
      ReadMirrors(db, v, key, clock);
      var cached := responses.Get(key, clock.lookup);
      if cached.Some? {
        return Served(cached.value);
      }
      var computed := BuildSummary(db, b, user, today);
      if computed.None? {
        return Refused(NotFound);
      }
      responses.Set(key, Some(b), computed.value, SUMMARY_TTL, clock.store, clock.sweep);
      reply := Served(computed.value);
    }

    /** The distinct targets of links from s, from the cache when its entry has not expired. */
    method FetchTargetBudgetIDs(s: Id, now: int) returns (ids: set<Id>)
      requires TargetsFresh(db.links, linkTargets)
      modifies this`linkTargets
      ensures TargetsFresh(db.links, linkTargets) && ids == Targets(db.links, s)
    {
      hide Targets;
      if s in linkTargets && now < linkTargets[s].expiresAt {
        return linkTargets[s].ids;
      }
      ids := Targets(db.links, s);
      linkTargets := linkTargets[s := TargetEntry(ids, now + LINK_TARGETS_TTL)];
    }

    // ---------- Invalidation ----------

    method InvalidateBudget(b: Id)
      requires responses.Valid()
      modifies responses
      ensures responses.Valid() && Purged(old(responses.Contents().order), responses.Contents().order, {b})
      ensures responses.Contents() == Step(old(responses.Contents()), InvalidateOp(Some(b)))
    {
      MembersAfterInvalidate(responses.Contents().order, b);
      responses.InvalidateBudget(Some(b));
    }

    method InvalidateLinkedTargets(s: Id, now: int)
      requires responses.Valid() && TargetsFresh(db.links, linkTargets)
      modifies this`linkTargets, responses
      ensures responses.Valid() && TargetsFresh(db.links, linkTargets)
      ensures Purged(old(responses.Contents().order), responses.Contents().order, Targets(db.links, s))
    {
      hide Targets;
      ghost var was := responses.Contents().order;
      var ids := FetchTargetBudgetIDs(s, now);
      var pending, done := ids, {};
      while pending != {}
        invariant responses.Valid() && TargetsFresh(db.links, linkTargets)
        invariant pending + done == ids && Purged(was, responses.Contents().order, done)
      {
        var t :| t in pending;
        InvalidateBudget(t);
        pending, done := pending - {t}, done + {t};
      }
    }

    /** The tail of every expense and category write: drop the budget's responses and those of the
        budgets linking it, then look the targets up again for the broadcast. */
    method AfterSourceWrite(s: Id, clock: Clock)
      requires responses.Valid() && TargetsFresh(db.links, linkTargets)
      modifies this`linkTargets, responses
      ensures responses.Valid() && TargetsFresh(db.links, linkTargets)
      ensures Purged(old(responses.Contents().order), responses.Contents().order, Dependents(db.links, s))
    {
      hide Targets;
      InvalidateBudget(s);
      InvalidateLinkedTargets(s, clock.targets);
      var _ := FetchTargetBudgetIDs(s, clock.broadcast);
    }

    // ---------- Expense writes ----------

    method CreateExpense(user: Id, b: Id, id: Id, category: Id, amount: int, date: Date, clock: Clock) returns (reply: Reply)
      requires Coherent()
      modifies this, responses
      ensures Coherent() && Outcome(db, reply) == PlainAddExpense(old(db), user, b, id, category, amount, date)
    {
      hide SameView, Mirrors, Purged, Targets, TargetsFresh;
      if !InRange(amount) {
        return Refused(OutOfRange);
      }
      var allowed, count, belongs := HasAccess(db, b, user), |ExpensesOf(db.expenses, b)|, CategoryBelongs(db, category, b);
      if !allowed {
        return Refused(NotFound);
      }
      if count >= MAX_EXPENSES {
        return Refused(LimitReached);
      }
      if !belongs {
        return Refused(ForeignCategory);
      }
      if FindExpense(db.expenses, id).Some? {
        return Refused(Failed);
      }
      ghost var was, order := db, responses.Contents().order;
      var expense := Expense(id, b, category, amount, date, Some(user));
      db := db.(expenses := db.expenses + [expense]);
      AfterSourceWrite(b, clock);
      forall x | x !in Dependents(was.links, b) ensures SameView(was, db, x) {
        AddExpenseReach(was, expense, x);
      }
      PurgeMirrors(was, db, order, responses.Contents().order, Dependents(was.links, b));
      reply := Done;
    }

    method UpdateExpense(user: Id, b: Id, id: Id, p: ExpensePatch, clock: Clock) returns (reply: Reply)
      requires Coherent()
      modifies this, responses
      ensures Coherent() && Outcome(db, reply) == PlainChangeExpense(old(db), user, b, id, p)
    {
      hide SameView, Mirrors, Purged, Targets, TargetsFresh;
      if p.amount.Some? && !InRange(p.amount.value) {
        return Refused(OutOfRange);
      }
      if !ExpenseBelongs(db, id, b) || !HasAccess(db, b, user) {
        return Refused(NotFound);
      }
      if p.categoryID.Some? && !CategoryBelongs(db, p.categoryID.value, b) {
        return Refused(ForeignCategory);
      }
      ghost var was, order := db, responses.Contents().order;
      db := db.(expenses := PatchExpenses(db.expenses, id, b, p));
      AfterSourceWrite(b, clock);
      forall x | x !in Dependents(was.links, b) ensures SameView(was, db, x) {
        PatchExpenseReach(was, id, b, p, x);
      }
      PurgeMirrors(was, db, order, responses.Contents().order, Dependents(was.links, b));
      reply := Done;
    }

    method DeleteExpense(user: Id, b: Id, id: Id, clock: Clock) returns (reply: Reply)
      requires Coherent()
      modifies this, responses
      ensures Coherent() && Outcome(db, reply) == PlainDropExpense(old(db), user, b, id)
    {
      hide SameView, Mirrors, Purged, Targets, TargetsFresh;
      if !ExpenseBelongs(db, id, b) || !HasAccess(db, b, user) {
        return Refused(NotFound);
      }
      ghost var was, order := db, responses.Contents().order;
      db := db.(expenses := RemoveExpense(db.expenses, id, b));
      AfterSourceWrite(b, clock);
      forall x | x !in Dependents(was.links, b) ensures SameView(was, db, x) {
        PatchExpenseReach(was, id, b, ExpensePatch(None, None, None), x);
      }
      PurgeMirrors(was, db, order, responses.Contents().order, Dependents(was.links, b));
      reply := Done;
    }

    // ---------- Category writes ----------

    method CreateCategory(user: Id, b: Id, id: Id, name: string, allocation: int, sortOrder: int, clock: Clock) returns (reply: Reply)
      requires Coherent()
      modifies this, responses
      ensures Coherent() && Outcome(db, reply) == PlainAddCategory(old(db), user, b, id, name, allocation, sortOrder)
    {
      hide SameView, Mirrors, Purged, Targets, TargetsFresh, Integrity, CategoriesOf, TotalAllocation, MaxSortOrder, FindBudget, FindCategory;
      if allocation < 0 {
        return Refused(OutOfRange);
      }
      if !Owns(db, b, user) {
        return Refused(NotFound);
      }
      var income := FindBudget(db.budgets, b).value.income;
      if allocation > income {
        return Refused(OverAllocated);
      }
      var mine := CategoriesOf(db.categories, b);
      if |mine| >= MAX_CATEGORIES {
        return Refused(LimitReached);
      }
      if TotalAllocation(mine) + allocation > income {
        return Refused(OverAllocated);
      }
      if FindCategory(db.categories, id).Some? {
        return Refused(Failed);
      }
      ghost var was, order := db, responses.Contents().order;
      var category := NewCategory(db, b, id, name, allocation, sortOrder);
      db := db.(categories := db.categories + [category]);
      AfterSourceWrite(b, clock);
      AddCategoryIntegrity(was, category);
      forall x | x !in Dependents(was.links, b) ensures SameView(was, db, x) {
        AddCategoryReach(was, category, x);
      }
      PurgeMirrors(was, db, order, responses.Contents().order, Dependents(was.links, b));
      reply := Done;
    }

    method UpdateCategory(user: Id, b: Id, id: Id, p: CategoryPatch, clock: Clock) returns (reply: Reply)
      requires Coherent()
      modifies this, responses
      ensures Coherent() && Outcome(db, reply) == PlainChangeCategory(old(db), user, b, id, p)
    {
      hide SameView, Mirrors, Purged, Targets, TargetsFresh, Integrity, CategoriesOf, OtherAllocation, FindBudget, FindCategory;
      if p.allocation.Some? && p.allocation.value < 0 {
        return Refused(OutOfRange);
      }
      if p.allocation.None? {
        if !CategoryBelongs(db, id, b) || !Owns(db, b, user) {
          return Refused(NotFound);
        }
      } else {
        if !Owns(db, b, user) {
          return Refused(NotFound);
        }
        var income, others := FindBudget(db.budgets, b).value.income, OtherAllocation(CategoriesOf(db.categories, b), id);
        if others + p.allocation.value > income {
          return Refused(OverAllocated);
        }
        if !CategoryBelongs(db, id, b) {
          return Refused(NotFound);
        }
      }
      ghost var was, order := db, responses.Contents().order;
      db := db.(categories := PatchCategories(db.categories, id, b, p));
      AfterSourceWrite(b, clock);
      PatchCategoryIntegrity(was, id, b, p);
      forall x | x !in Dependents(was.links, b) ensures SameView(was, db, x) {
        PatchCategoryReach(was, id, b, p, x);
      }
      PurgeMirrors(was, db, order, responses.Contents().order, Dependents(was.links, b));
      reply := Done;
    }

    // ---------- Link writes ----------

    method InvalidateLinkTargetsCache(s: Id)
      modifies this`linkTargets
      ensures linkTargets == old(linkTargets) - {s}
    {
      linkTargets := linkTargets - {s};
    }

    method CreateLink(user: Id, t: Id, id: Id, source: Id, category: Id, mode: FilterMode) returns (reply: Reply)
      requires Coherent()
      modifies this, responses
      ensures Coherent() && Outcome(db, reply) == PlainAddLink(old(db), user, t, id, source, category, mode)
    {
      hide SameView, Mirrors, Purged, Targets, Integrity, FindBudget, FindCategory, LinksTo, FindLink;
      if source == t {
        return Refused(SelfLink);
      }
      if !HasAccess(db, t, user) || !HasAccess(db, source, user) {
        return Refused(NotFound);
      }
      var target, from := FindBudget(db.budgets, t), FindBudget(db.budgets, source);
      if target.None? || from.None? {
        return Refused(Failed);
      }
      if target.value.currency != from.value.currency {
        return Refused(OtherCurrency);
      }
      if !CategoryBelongs(db, category, source) {
        return Refused(NotFound);
      }
      if |LinksTo(db.links, t)| >= MAX_LINKS {
        return Refused(LimitReached);
      }
      if exists l :: l in db.links && l.source == t && l.target == source {
        return Refused(Circular);
      }
      if FindLink(db.links, id).Some? || exists l :: l in db.links && l.target == t && l.categoryID == category {
        return Refused(AlreadyLinked);
      }
      ghost var was, order := db, responses.Contents().order;
      var link := Link(id, source, t, category, mode);
      db := db.(links := db.links + [link]);
      InvalidateLinkTargetsCache(source);
      InvalidateBudget(t);
      AddLinkIntegrity(was, link);
      forall x ensures x != t ==> SameView(was, db, x)
               ensures x != source ==> Targets(db.links, x) == Targets(was.links, x) {
        AddLinkReach(was, link, x);
      }
      PurgeMirrors(was, db, order, responses.Contents().order, {t});
      reply := Done;
    }

    /** Changing the filter mode leaves linkTargets alone: the set of targets stays the same. */
    method UpdateLink(user: Id, t: Id, id: Id, mode: FilterMode) returns (reply: Reply)
      requires Coherent()
      modifies this, responses
      ensures Coherent() && Outcome(db, reply) == PlainChangeLink(old(db), user, t, id, mode)
      ensures linkTargets == old(linkTargets)
    {
      hide SameView, Mirrors, Purged, Targets, Integrity, FindBudget, FindLink;
      if !LinkBelongs(db, id, t) || !HasAccess(db, t, user) {
        return Refused(NotFound);
      }
      ghost var was, order := db, responses.Contents().order;
      db := db.(links := PatchLinks(db.links, id, t, mode));
      InvalidateBudget(t);
      PatchLinkIntegrity(was, id, t, mode);
      forall x ensures x != t ==> SameView(was, db, x)
               ensures Targets(db.links, x) == Targets(was.links, x) {
        PatchLinkReach(was, id, t, mode, x);
      }
      PurgeMirrors(was, db, order, responses.Contents().order, {t});
      reply := Done;
    }

    method DeleteLink(user: Id, t: Id, id: Id) returns (reply: Reply)
      requires Coherent()
      modifies this, responses
      ensures Coherent() && Outcome(db, reply) == PlainDropLink(old(db), user, t, id)
    {
      hide SameView, Mirrors, Purged, Targets, Integrity, FindBudget, FindLink;
      if !LinkBelongs(db, id, t) || !HasAccess(db, t, user) {
        return Refused(NotFound);
      }
      ghost var was, order := db, responses.Contents().order;
      var link := FindLink(db.links, id).value;
      FindLinkMember(db.links, id);
      db := db.(links := RemoveLink(db.links, id, t));
      InvalidateLinkTargetsCache(link.source);
      InvalidateBudget(t);
      DropLinkIntegrity(was, id, t);
      forall x ensures x != t ==> SameView(was, db, x)
               ensures x != link.source ==> Targets(db.links, x) == Targets(was.links, x) {
        DropLinkReach(was, link, x);
      }
      PurgeMirrors(was, db, order, responses.Contents().order, {t});
      reply := Done;
    }

    // ---------- Whole runs ----------

    method Handle(r: Request, clock: Clock) returns (reply: Reply)
      requires Coherent()
      modifies this, responses
      ensures Coherent() && Outcome(db, reply) == PlainStep(old(db), r)
    {
      assert responses.Valid();
      hide Coherent, PlainRead, PlainAddExpense, PlainChangeExpense, PlainDropExpense, PlainAddCategory, PlainChangeCategory,
           PlainAddLink, PlainChangeLink, PlainDropLink;
      match r
      case ReadSummary(user, b, today) => reply := GetBudgetSummary(user, b, today, clock);
      case AddExpense(user, b, id, category, amount, date) => reply := CreateExpense(user, b, id, category, amount, date, clock);
      case ChangeExpense(user, b, id, p) => reply := UpdateExpense(user, b, id, p, clock);
      case DropExpense(user, b, id) => reply := DeleteExpense(user, b, id, clock);
      case AddCategory(user, b, id, name, allocation, sortOrder) => reply := CreateCategory(user, b, id, name, allocation, sortOrder, clock);
      case ChangeCategory(user, b, id, p) => reply := UpdateCategory(user, b, id, p, clock);
      case AddLink(user, t, id, source, category, mode) => reply := CreateLink(user, t, id, source, category, mode);
      case ChangeLink(user, t, id, mode) => reply := UpdateLink(user, t, id, mode);
      case DropLink(user, t, id) => reply := DeleteLink(user, t, id);
    }
  }

  /** A freshly started server given any requests at any clock readings answers each of them as if
      it had no cache. */
  method Serve(db: Database, requests: seq<Request>, clocks: seq<Clock>) returns (replies: seq<Reply>, server: Server)
    requires Integrity(db) && |clocks| == |requests|
    ensures server.Coherent() && server.db == PlainRun(db, requests)
    ensures |replies| == |requests|
    ensures forall i :: 0 <= i < |requests| ==> replies[i] == PlainStep(PlainRun(db, requests[..i]), requests[i]).reply
  {
    hide PlainStep, Mirrors, Integrity, TargetsFresh, Sound;
    server := new Server(db);
    replies := [];
    for i := 0 to |requests|
      invariant fresh(server) && fresh(server.responses)
      invariant server.Coherent() && server.db == PlainRun(db, requests[..i]) && |replies| == i
      invariant forall j :: 0 <= j < i ==> replies[j] == PlainStep(PlainRun(db, requests[..j]), requests[j]).reply
    {
      assert requests[..i + 1][..i] == requests[..i];
      var reply := server.Handle(requests[i], clocks[i]);
      replies := replies + [reply];
    }
    assert requests[..|requests|] == requests;
  }
}
