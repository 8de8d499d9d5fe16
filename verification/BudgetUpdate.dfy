/** UpdateBudget drops only the responses of the budget it changes. The summaries of budgets that
    link it show the changed row too, so this is exactly when the cache stays a mirror of the tables. */
module BudgetUpdate {
  import opened Wrappers
  import opened Calendar
  import opened Models
  import opened Spending
  import opened SummaryMeaning
  import opened SummaryTables
  import opened SummaryRequests
  import opened DataRules
  import opened RequestEffects
  import opened SummaryServer
  import opened ResponseCache
  import Billing

  datatype BudgetPatch = BudgetPatch(name: Option<string>, icon: Option<string>, income: Option<int>, currency: Option<string>,
                                     periodMonths: Option<int>, cutoffDay: Option<int>, mode: Option<string>)

  /** The row an accepted update writes; its time stamp is always new. */
  function PatchedBudget(b: Budget, p: BudgetPatch, now: int): Budget {
    b.(name := Or(p.name, b.name), icon := Or(p.icon, b.icon), income := Or(p.income, b.income),
       currency := Or(p.currency, b.currency), periodMonths := Or(p.periodMonths, b.periodMonths),
       cutoffDay := Or(p.cutoffDay, b.cutoffDay), mode := Or(p.mode, b.mode), updatedAt := now)
  }

  function PutBudget(bs: seq<Budget>, row: Budget): seq<Budget> {
    if bs == [] then [] else if bs[0].id == row.id then [row] + bs[1..] else [bs[0]] + PutBudget(bs[1..], row)
  }

  function WithBudget(db: Database, row: Budget): Database { db.(budgets := PutBudget(db.budgets, row)) }

  lemma {:induction false} PutFind(bs: seq<Budget>, row: Budget, x: Id)
    ensures FindBudget(PutBudget(bs, row), x) ==
            if x == row.id && FindBudget(bs, x).Some? then Some(row) else FindBudget(bs, x)
  {
    if bs != [] {
      PutFind(bs[1..], row, x);
    }
  }

  lemma {:induction false} PutSame(bs: seq<Budget>, row: Budget)
    requires FindBudget(bs, row.id) == Some(row)
    ensures PutBudget(bs, row) == bs
  {
    if bs[0].id != row.id {
      PutSame(bs[1..], row);
    }
  }

  const MODES := {"manual", "balanced", "debt-free", "debt-payoff", "travel", "event"}

  const PERIODS := {0, 1, 3, 6, 12}

  predicate ValidPatch(p: BudgetPatch) {
    && (p.income.Some? ==> InRange(p.income.value))
    && (p.mode.Some? ==> p.mode.value in MODES)
    && (p.periodMonths.Some? ==> p.periodMonths.value in PERIODS)
    && (p.cutoffDay.Some? ==> 1 <= p.cutoffDay.value <= 31)
  }

  function PlainUpdateBudget(db: Database, user: Id, b: Id, p: BudgetPatch, now: int): Outcome {
    if !ValidPatch(p) then Refuse(db, OutOfRange)
    else if !Owns(db, b, user) then Refuse(db, NotFound)
    else
      var row := FindBudget(db.budgets, b).value;
      if p.income.Some? && p.income.value < row.income && TotalAllocation(CategoriesOf(db.categories, b)) > p.income.value
      then Refuse(db, OverAllocated)
      else Outcome(WithBudget(db, PatchedBudget(row, p, now)), Done)
  }

  // ---------- What an update accepts and writes ----------

  /** An update is done exactly if every given field is valid, the user owns the budget, and a lowered income
      covers the allocations. */
  lemma UpdateAcceptedExactly(db: Database, user: Id, b: Id, p: BudgetPatch, now: int)
    requires Keys(db)
    ensures PlainUpdateBudget(db, user, b, p, now).reply == Done <==>
            && (p.income.Some? ==> ValidAmount(p.income.value))
            && (p.mode.Some? ==> p.mode.value in ["manual", "balanced", "debt-free", "debt-payoff", "travel", "event"])
            && (p.periodMonths.Some? ==> p.periodMonths.value in [0, 1, 3, 6, 12])
            && (p.cutoffDay.Some? ==> 1 <= p.cutoffDay.value <= 31)
            && exists row :: row in db.budgets && row.id == b && row.owner == user
                             && (p.income.Some? && p.income.value < row.income ==>
                                   Allocated(db.categories, b, None) <= p.income.value)
  {
    hide FindBudget, TotalAllocation, CategoriesOf, PutBudget;
    BudgetFound(db.budgets, b);
    AllocatedIs(db.categories, b, 0);
  }

  predicate UpdatesBudget(was: Budget, p: BudgetPatch, at: int, now: Budget) {
    && now.id == was.id && now.owner == was.owner && now.updatedAt == at
    && (if p.name.Some? then now.name == p.name.value else now.name == was.name)
    && (if p.icon.Some? then now.icon == p.icon.value else now.icon == was.icon)
    && (if p.income.Some? then now.income == p.income.value else now.income == was.income)
    && (if p.currency.Some? then now.currency == p.currency.value else now.currency == was.currency)
    && (if p.periodMonths.Some? then now.periodMonths == p.periodMonths.value else now.periodMonths == was.periodMonths)
    && (if p.cutoffDay.Some? then now.cutoffDay == p.cutoffDay.value else now.cutoffDay == was.cutoffDay)
    && (if p.mode.Some? then now.mode == p.mode.value else now.mode == was.mode)
  }

  lemma {:induction false} PutRows(bs: seq<Budget>, row: Budget)
    requires DistinctBudgets(bs)
    ensures |PutBudget(bs, row)| == |bs|
    ensures forall i :: 0 <= i < |bs| ==> PutBudget(bs, row)[i] == if bs[i].id == row.id then row else bs[i]
  {
    if bs != [] && bs[0].id != row.id {
      PutRows(bs[1..], row);
    }
  }

  /** An accepted update writes the given fields and the time stamp into the named row, and nothing else. */
  lemma UpdateWrites(db: Database, user: Id, b: Id, p: BudgetPatch, now: int)
    requires Keys(db) && PlainUpdateBudget(db, user, b, p, now).reply == Done
    ensures var t := PlainUpdateBudget(db, user, b, p, now).db;
            && t == db.(budgets := t.budgets) && |t.budgets| == |db.budgets|
            && forall i :: 0 <= i < |db.budgets| ==>
                 if db.budgets[i].id == b then UpdatesBudget(db.budgets[i], p, now, t.budgets[i]) else t.budgets[i] == db.budgets[i]
  {
    hide FindBudget, TotalAllocation, CategoriesOf, PutBudget, ValidPatch;
    var row := FindBudget(db.budgets, b).value;
    BudgetFound(db.budgets, b);
    PutRows(db.budgets, PatchedBudget(row, p, now));
    forall i | 0 <= i < |db.budgets| && db.budgets[i].id == b ensures db.budgets[i] == row {
      assert db.budgets[i] in db.budgets;
    }
  }

  // ---------- Summaries that do not show the row ----------

  lemma {:induction false} LinkedRowsWithout(db: Database, row: Budget, links: seq<Link>, viewer: Id, today: Date)
    requires Valid(today)
    requires forall l :: l in links ==> l.source != row.id
    ensures LinkedRows(WithBudget(db, row), links, viewer, today) == LinkedRows(db, links, viewer, today)
  {
    hide RowsOfLink, ExpensesOf, FindCategory, Tagged;
    if links != [] {
      assert links[0] in links;
      PutFind(db.budgets, row, links[0].source);
      LinkedRowsWithout(db, row, links[1..], viewer, today);
    }
  }

  lemma UnlinkedUnchanged(db: Database, row: Budget, t: Id, viewer: Id, today: Date)
    requires Valid(today) && t != row.id && t !in Targets(db.links, row.id)
    ensures ComputeSummary(WithBudget(db, row), t, viewer, today) == ComputeSummary(db, t, viewer, today)
  {
    hide LinkedRows, Aggregate, GroupBy, LinkViews, CategoryViews, OwnRows, CategoriesOf, ExpensesOf, FindBudget;
    PutFind(db.budgets, row, t);
    forall l | l in LinksTo(db.links, t) ensures l.source != row.id {
      LinkMembers(db.links, t, l);
    }
    LinkedRowsWithout(db, row, LinksTo(db.links, t), viewer, today);
  }

  // ---------- Summaries that do ----------

  lemma LinkedChanges(db: Database, row: Budget, t: Id, viewer: Id, today: Date)
    requires Valid(today) && Integrity(db) && t in Targets(db.links, row.id)
    requires FindBudget(db.budgets, row.id).Some? && FindBudget(db.budgets, row.id).value != row
    requires ComputeSummary(db, t, viewer, today).Some?
    ensures ComputeSummary(WithBudget(db, row), t, viewer, today) != ComputeSummary(db, t, viewer, today)
  {
    hide ComputeSummary, FindBudget, FindCategory, PutBudget;
    var l :| l in db.links && l.source == row.id && l.target == t;
    var db' := WithBudget(db, row);
    PutFind(db.budgets, row, row.id);
    LinksShowSources(db, t, viewer, today, l);
    var v :| v in ComputeSummary(db, t, viewer, today).value.linked && v.info.link == l;
    assert v.info.source != row;
    if ComputeSummary(db', t, viewer, today) == ComputeSummary(db, t, viewer, today) {
      LinksShowSources(db', t, viewer, today, l);
    }
  }

  // ---------- The exact condition ----------

  /** No stored response belongs to another budget that links b. */
  ghost predicate NoDependentCached(links: seq<Link>, order: seq<Cached>, b: Id) {
    forall e :: e in order && e.key.budget != b ==> e.key.budget !in Targets(links, b)
  }

  lemma StaleExactly(db: Database, row: Budget, was: seq<Cached>, order: seq<Cached>)
    requires Integrity(db) && Mirrors(db, was) && Purged(was, order, {row.id})
    requires FindBudget(db.budgets, row.id).Some?
    ensures Mirrors(WithBudget(db, row), order) <==>
            FindBudget(db.budgets, row.id).value == row || NoDependentCached(db.links, was, row.id)
  {
    hide ComputeSummary, FindBudget, PutBudget, Integrity, Targets;
    var db' := WithBudget(db, row);
    if FindBudget(db.budgets, row.id).value == row {
      PutSame(db.budgets, row);
      assert db' == db;
    } else if NoDependentCached(db.links, was, row.id) {
      forall e | e in order ensures ComputeSummary(db', e.key.budget, e.key.user, e.key.today) == Some(e.data) {
        UnlinkedUnchanged(db, row, e.key.budget, e.key.user, e.key.today);
      }
    } else {
      var e :| e in was && e.key.budget != row.id && e.key.budget in Targets(db.links, row.id);
      assert e in order;
      LinkedChanges(db, row, e.key.budget, e.key.user, e.key.today);
    }
  }

  /** An accepted update writes a new time stamp, so it leaves a coherent cache coherent exactly if no
      stored response belongs to another budget that links the updated one. */
  method UpdateBudget(server: Server, user: Id, b: Id, p: BudgetPatch, now: int) returns (reply: Reply)
    requires server.responses.Valid()
    modifies server`db, server.responses
    ensures server.responses.Valid() && Outcome(server.db, reply) == PlainUpdateBudget(old(server.db), user, b, p, now)
    ensures server.responses.Contents() ==
            if reply == Done then Step(old(server.responses.Contents()), InvalidateOp(Some(b))) else old(server.responses.Contents())
    ensures old(server.Coherent()) && reply != Done ==> server.Coherent()
    ensures old(server.Coherent()) && reply == Done ==>
            (server.Coherent() <==>
             || old(NoDependentCached(server.db.links, server.responses.Contents().order, b))
             || old(FindBudget(server.db.budgets, b)) == FindBudget(server.db.budgets, b))
    ensures old(server.Coherent()) && reply == Done && old(FindBudget(server.db.budgets, b).value.updatedAt) != now ==>
            (server.Coherent() <==> old(NoDependentCached(server.db.links, server.responses.Contents().order, b)))
  {
    hide TotalAllocation, CategoriesOf, FindBudget, PutBudget, Mirrors, Purged, NoDependentCached, Step, ValidPatch;
    if !ValidPatch(p) {
      return Refused(OutOfRange);
    }
    if !Owns(server.db, b, user) {
      return Refused(NotFound);
    }
    var row := FindBudget(server.db.budgets, b).value;
    if p.income.Some? && p.income.value < row.income {
      if TotalAllocation(CategoriesOf(server.db.categories, b)) > p.income.value {
        return Refused(OverAllocated);
      }
    }
    var changed := PatchedBudget(row, p, now);
    ghost var was, order := server.db, server.responses.Contents().order;
    FoundId(was.budgets, b);
    PutFind(was.budgets, changed, b);
    server.db := server.db.(budgets := PutBudget(server.db.budgets, changed));
    server.InvalidateBudget(b);
    if old(server.Coherent()) {
      StaleExactly(was, changed, order, server.responses.Contents().order);
    }
    reply := Done;
  }

  // ---------- A run that serves a stale summary ----------

  lemma OneStored(v: View<SummaryKey, Id, Summary>, db: Database, key: SummaryKey, clock: Clock, b: Id, later: Clock)
    requires v == View([], 0) && b != key.budget && later.lookup <= clock.store + SUMMARY_TTL
    requires ComputeSummary(db, key.budget, key.user, key.today).Some?
    ensures var w := Step(AfterRead(v, db, key, clock), InvalidateOp(Some(b)));
            Answer(w, key, later.lookup) == ComputeSummary(db, key.budget, key.user, key.today)
  {
    hide ComputeSummary;
    var x := Entry(key, ComputeSummary(db, key.budget, key.user, key.today).value, clock.store + SUMMARY_TTL, Some(key.budget));
    assert AfterRead(v, db, key, clock) == View([x], 1) by {
      assert [x] + [] == [x];
    }
    KeepAll([x], NotFor(Some(b)));
  }

  /** Read the summary of t, update a budget that t links, read the summary again within its time to live:
      the second reply is the first one, and no longer what the tables give. */
  method StaleRead(db: Database, viewer: Id, t: Id, today: Day, first: Clock, owner: Id, b: Id, p: BudgetPatch, now: int, second: Clock)
    returns (before: Reply, updated: Reply, after: Reply)
    requires Integrity(db) && t != b && t in Targets(db.links, b)
    requires ComputeSummary(db, t, viewer, today).Some?
    requires PlainUpdateBudget(db, owner, b, p, now).reply == Done && FindBudget(db.budgets, b).value.updatedAt != now
    requires second.lookup <= first.store + 30
    ensures before == PlainRead(db, viewer, t, today) && updated == Done && after == before
    ensures after != PlainRead(PlainUpdateBudget(db, owner, b, p, now).db, viewer, t, today)
  {
    hide ComputeSummary, AfterRead, Step, Answer, Integrity, Targets, ValidPatch, FindBudget, PutBudget;
    ghost var key := SummaryKey(t, viewer, today);
    var server := new Server(db);
    before := server.GetBudgetSummary(viewer, t, today, first);
    updated := UpdateBudget(server, owner, b, p, now);
    OneStored(View([], 0), db, key, first, b, second);
    after := server.GetBudgetSummary(viewer, t, today, second);
    ghost var row := PatchedBudget(FindBudget(db.budgets, b).value, p, now);
    FoundId(db.budgets, b);
    LinkedChanges(db, row, t, viewer, today);
  }

  /** Budget 2 links category 10 of budget 1; both belong to user 7. */
  function LinkedPair(): Database {
    Database([Budget(1, 7, "Home", "wallet", "COP", 1000, 1, 1, "manual", 0), Budget(2, 7, "Trip", "wallet", "COP", 1000, 1, 1, "manual", 0)],
             {}, [Category(10, 1, "Food", 100, 1)], [], [Link(20, 1, 2, 10, All)])
  }

  /** An update that only changes the icon is enough. */
  method StaleReadExample(today: Day) returns (before: Reply, after: Reply)
    ensures before == after == PlainRead(LinkedPair(), 7, 2, today)
    ensures after != PlainRead(PlainUpdateBudget(LinkedPair(), 7, 1, IconOnly("car"), 1).db, 7, 2, today)
  {
    LinkedPairFacts(today);
    hide LinkedPair, ComputeSummary, PlainUpdateBudget, Integrity, Targets, FindBudget;
    var updated: Reply;
    before, updated, after := StaleRead(LinkedPair(), 7, 2, today, Clock(0, 0, 0, 0, 0), 7, 1, IconOnly("car"), 1, Clock(1, 1, 1, 1, 1));
  }

  function IconOnly(icon: string): BudgetPatch { BudgetPatch(None, Some(icon), None, None, None, None, None) }

  lemma LinkedPairFacts(today: Day)
    ensures var db := LinkedPair();
            && Integrity(db) && 2 in Targets(db.links, 1)
            && ComputeSummary(db, 2, 7, today).Some?
            && PlainUpdateBudget(db, 7, 1, IconOnly("car"), 1).reply == Done
            && FindBudget(db.budgets, 1).Some? && FindBudget(db.budgets, 1).value.updatedAt == 0
  {
    hide Aggregate, LinkedRows, GroupBy, CategoryViews, LinkViews, OwnRows;
    var db := LinkedPair();
    assert db.budgets[1..][0].id == 2 && db.links[0] in db.links;
    assert FindCategory(db.categories, 10) == Some(db.categories[0]);
    assert Integrity(db);
    assert 2 in Targets(db.links, 1);
    assert ComputeSummary(db, 2, 7, today).Some?;
    assert FindBudget(db.budgets, 1) == Some(db.budgets[0]);
    assert ValidPatch(IconOnly("car"));
  }

  // ---------- Cutoff days from creation on ----------

  datatype NewBudget = NewBudget(name: string, icon: string, income: int, currency: string, periodMonths: int, cutoffDay: int, mode: string)

  const MAX_BUDGETS := 7

  function OwnedCount(bs: seq<Budget>, user: Id): nat {
    if bs == [] then 0 else (if bs[0].owner == user then 1 else 0) + OwnedCount(bs[1..], user)
  }

  function SharedCount(members: set<(Id, Id)>, user: Id): nat { |set m | m in members && m.1 == user| }

  function OrDefault(s: string, default: string): string { if s == "" then default else s }

  /** Only recurring budgets have a missing cutoff day filled in. */
  function StoredCutoff(req: NewBudget): int { if req.periodMonths > 0 && req.cutoffDay <= 0 then 1 else req.cutoffDay }

  /** CreateBudget before its seeding. Only recurring budgets have their cutoff day checked. */
  function PlainCreateBudget(db: Database, user: Id, id: Id, req: NewBudget, now: int): Outcome {
    if OwnedCount(db.budgets, user) + SharedCount(db.members, user) >= MAX_BUDGETS then Refuse(db, LimitReached)
    else if !InRange(req.income) || req.periodMonths !in PERIODS || OrDefault(req.mode, "manual") !in MODES then Refuse(db, OutOfRange)
    else if req.periodMonths > 0 && !(1 <= StoredCutoff(req) <= 31) then Refuse(db, OutOfRange)
    else if FindBudget(db.budgets, id).Some? then Refuse(db, Failed)
    else
      var row := Budget(id, user, req.name, OrDefault(req.icon, "wallet"), OrDefault(req.currency, "COP"), req.income,
                        req.periodMonths, StoredCutoff(req), OrDefault(req.mode, "manual"), now);
      Outcome(db.(budgets := db.budgets + [row]), Done)
  }

  predicate ProperCutoff(b: Budget) { b.periodMonths > 0 ==> 1 <= b.cutoffDay <= 31 }

  lemma {:induction false} FindAppended(bs: seq<Budget>, row: Budget)
    requires FindBudget(bs, row.id).None?
    ensures FindBudget(bs + [row], row.id) == Some(row)
  {
    if bs != [] {
      FindAppended(bs[1..], row);
      assert (bs + [row])[1..] == bs[1..] + [row];
    }
  }

  /** A creation is done exactly if the user is in fewer than seven budgets, the amount, the period and the mode
      are valid, and a recurring budget has a day up to 31; the row holds what was given and the defaults. */
  lemma CreatedRow(db: Database, user: Id, id: Id, req: NewBudget, now: int)
    ensures PlainCreateBudget(db, user, id, req, now).reply == Done <==>
            && OwnedCount(db.budgets, user) + |set m | m in db.members && m.1 == user| < 7
            && ValidAmount(req.income) && req.periodMonths in [0, 1, 3, 6, 12]
            && req.mode in ["", "manual", "balanced", "debt-free", "debt-payoff", "travel", "event"]
            && (req.periodMonths > 0 ==> req.cutoffDay <= 31) && FindBudget(db.budgets, id).None?
    ensures PlainCreateBudget(db, user, id, req, now).reply == Done ==>
              var found := FindBudget(PlainCreateBudget(db, user, id, req, now).db.budgets, id);
              && found.Some? && ProperCutoff(found.value)
              && found.value.owner == user && found.value.name == req.name && found.value.income == req.income
              && found.value.icon == (if req.icon == "" then "wallet" else req.icon)
              && found.value.currency == (if req.currency == "" then "COP" else req.currency)
              && found.value.mode == (if req.mode == "" then "manual" else req.mode)
              && found.value.periodMonths == req.periodMonths && found.value.updatedAt == now
              && found.value.cutoffDay == (if req.periodMonths > 0 && req.cutoffDay < 1 then 1 else req.cutoffDay)
  {
    hide FindBudget, OwnedCount;
    var out := PlainCreateBudget(db, user, id, req, now);
    if out.reply == Done {
      var row := out.db.budgets[|db.budgets|];
      FindAppended(db.budgets, row);
    }
  }

  /** An accepted update keeps recurring budgets with cutoff days from 1 to 31, except exactly when it makes a
      budget recurring whose stored day is outside of that and does not set the day. */
  lemma CutoffAfterUpdate(db: Database, user: Id, b: Id, p: BudgetPatch, now: int)
    requires PlainUpdateBudget(db, user, b, p, now).reply == Done && ProperCutoff(FindBudget(db.budgets, b).value)
    ensures var row := FindBudget(db.budgets, b).value;
            var found := FindBudget(PlainUpdateBudget(db, user, b, p, now).db.budgets, b);
            && found.Some?
            && (ProperCutoff(found.value) <==>
                !(p.periodMonths.Some? && p.periodMonths.value > 0 && p.cutoffDay.None? && !(1 <= row.cutoffDay <= 31)))
  {
    hide FindBudget, PutBudget, TotalAllocation;
    var row := PatchedBudget(FindBudget(db.budgets, b).value, p, now);
    FoundId(db.budgets, b);
    PutFind(db.budgets, row, b);
  }

  /** Created as a one-time budget with cutoff day 0 and then made recurring, a budget filters its own expenses
      and the expenses its links show from different days, on every date. */
  lemma RecurringWithoutCutoff(db: Database, user: Id, id: Id, req: NewBudget, months: int, created: int, updated: int, today: Date)
    requires Valid(today) && months in PERIODS && months > 0
    requires req.periodMonths == 0 && req.cutoffDay < 1 && PlainCreateBudget(db, user, id, req, created).reply == Done
    ensures var p := BudgetPatch(None, None, None, None, Some(months), None, None);
            var out := PlainUpdateBudget(PlainCreateBudget(db, user, id, req, created).db, user, id, p, updated);
            && out.reply == Done && FindBudget(out.db.budgets, id).Some?
            && var row := FindBudget(out.db.budgets, id).value;
               Billing.SqlPeriodStart(today, row.cutoffDay, row.periodMonths) != OwnStart(row, today)
               && !Billing.Tiles(OwnStart(row, today), row.periodMonths, row.cutoffDay)
  {
    hide Billing.SqlPeriodStart, Billing.ComputeBillingPeriodStart, Billing.Tiles;
    CreatedRow(db, user, id, req, created);
    var made := PlainCreateBudget(db, user, id, req, created).db;
    hide PlainCreateBudget;
    var row := PatchedBudget(FindBudget(made.budgets, id).value, BudgetPatch(None, None, None, None, Some(months), None, None), updated);
    FoundId(made.budgets, id);
    PutFind(made.budgets, row, id);
    Billing.SqlMatchesGo(today, row.cutoffDay, row.periodMonths);
    Billing.PastPeriodsTile(today, row.cutoffDay, row.periodMonths);
  }
}
