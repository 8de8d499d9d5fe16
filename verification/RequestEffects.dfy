/** What the handlers accept, refuse and write, told from the rows of the tables: who may do what, which
    row changes how, and what that does to the amounts counted. */
module RequestEffects {
  import opened Wrappers
  import opened Calendar
  import opened Models
  import opened SummaryTables
  import opened SummaryRequests
  import opened SummaryMeaning
  import opened DataRules

  // ---------- Rows ----------

  predicate IsBudget(db: Database, b: Id) { exists row :: row in db.budgets && row.id == b }

  predicate IsOwner(db: Database, b: Id, user: Id) { exists row :: row in db.budgets && row.id == b && row.owner == user }

  predicate MayUse(db: Database, b: Id, user: Id) { IsOwner(db, b, user) || (b, user) in db.members }

  predicate HasCategory(db: Database, c: Id, b: Id) { exists row :: row in db.categories && row.id == c && row.budgetID == b }

  predicate HasExpense(db: Database, e: Id, b: Id) { exists row :: row in db.expenses && row.id == e && row.budgetID == b }

  predicate HasLink(db: Database, l: Id, t: Id) { exists row :: row in db.links && row.id == l && row.target == t }

  function ExpenseCount(es: seq<Expense>, b: Id): nat {
    if es == [] then 0 else (if es[0].budgetID == b then 1 else 0) + ExpenseCount(es[1..], b)
  }

  function CategoryCount(cs: seq<Category>, b: Id): nat {
    if cs == [] then 0 else (if cs[0].budgetID == b then 1 else 0) + CategoryCount(cs[1..], b)
  }

  function LinkCount(ls: seq<Link>, t: Id): nat {
    if ls == [] then 0 else (if ls[0].target == t then 1 else 0) + LinkCount(ls[1..], t)
  }

  /** What the categories of a budget hold together, all of them or all but one. */
  function Allocated(cs: seq<Category>, b: Id, but: Option<Id>): int {
    if cs == [] then 0
    else (if cs[0].budgetID == b && but != Some(cs[0].id) then cs[0].allocation else 0) + Allocated(cs[1..], b, but)
  }

  lemma {:induction false} Counted(db: Database, es: seq<Expense>, cs: seq<Category>, ls: seq<Link>, b: Id)
    ensures |ExpensesOf(es, b)| == ExpenseCount(es, b)
    ensures |CategoriesOf(cs, b)| == CategoryCount(cs, b)
    ensures |LinksTo(ls, b)| == LinkCount(ls, b)
    decreases |es| + |cs| + |ls|
  {
    if es != [] {
      Counted(db, es[1..], cs, ls, b);
    } else if cs != [] {
      Counted(db, es, cs[1..], ls, b);
    } else if ls != [] {
      Counted(db, es, cs, ls[1..], b);
    }
  }

  lemma {:induction false} AllocatedIs(cs: seq<Category>, b: Id, id: Id)
    ensures TotalAllocation(CategoriesOf(cs, b)) == Allocated(cs, b, None)
    ensures OtherAllocation(CategoriesOf(cs, b), id) == Allocated(cs, b, Some(id))
  {
    if cs != [] {
      var rest := CategoriesOf(cs[1..], b);
      AllocatedIs(cs[1..], b, id);
      if cs[0].budgetID == b {
        assert CategoriesOf(cs, b) == [cs[0]] + rest && ([cs[0]] + rest)[1..] == rest;
      } else {
        assert CategoriesOf(cs, b) == rest;
      }
    }
  }

  lemma {:induction false} BudgetFound(bs: seq<Budget>, id: Id)
    requires DistinctBudgets(bs)
    ensures forall row :: FindBudget(bs, id) == Some(row) <==> row in bs && row.id == id
  {
    if bs != [] {
      BudgetFound(bs[1..], id);
      assert bs == [bs[0]] + bs[1..];
      forall row | row in bs[1..] ensures row.id != bs[0].id {
        var i :| 0 <= i < |bs[1..]| && bs[1..][i] == row;
        assert bs[i + 1] == row;
      }
    }
  }

  lemma {:induction false} CategoryFound(cs: seq<Category>, id: Id)
    requires DistinctCategories(cs)
    ensures forall row :: FindCategory(cs, id) == Some(row) <==> row in cs && row.id == id
  {
    if cs != [] {
      CategoryFound(cs[1..], id);
      assert cs == [cs[0]] + cs[1..];
      forall row | row in cs[1..] ensures row.id != cs[0].id {
        var i :| 0 <= i < |cs[1..]| && cs[1..][i] == row;
        assert cs[i + 1] == row;
      }
    }
  }

  lemma {:induction false} ExpenseFound(es: seq<Expense>, id: Id)
    requires DistinctExpenses(es)
    ensures forall row :: FindExpense(es, id) == Some(row) <==> row in es && row.id == id
  {
    if es != [] {
      ExpenseFound(es[1..], id);
      assert es == [es[0]] + es[1..];
      forall row | row in es[1..] ensures row.id != es[0].id {
        var i :| 0 <= i < |es[1..]| && es[1..][i] == row;
        assert es[i + 1] == row;
      }
    }
  }

  lemma {:induction false} LinkFound(ls: seq<Link>, id: Id)
    requires DistinctIds(ls)
    ensures forall row :: FindLink(ls, id) == Some(row) <==> row in ls && row.id == id
  {
    if ls != [] {
      LinkFound(ls[1..], id);
      assert ls == [ls[0]] + ls[1..];
      forall row | row in ls[1..] ensures row.id != ls[0].id {
        var i :| 0 <= i < |ls[1..]| && ls[1..][i] == row;
        assert ls[i + 1] == row;
      }
    }
  }

  lemma AccessExactly(db: Database, b: Id, user: Id)
    requires Keys(db)
    ensures HasAccess(db, b, user) <==> MayUse(db, b, user)
    ensures Owns(db, b, user) <==> IsOwner(db, b, user)
    ensures FindBudget(db.budgets, b).Some? <==> IsBudget(db, b)
  {
    hide FindBudget;
    BudgetFound(db.budgets, b);
  }

  lemma BelongsExactly(db: Database, id: Id, b: Id)
    requires Keys(db)
    ensures CategoryBelongs(db, id, b) <==> HasCategory(db, id, b)
    ensures ExpenseBelongs(db, id, b) <==> HasExpense(db, id, b)
    ensures LinkBelongs(db, id, b) <==> HasLink(db, id, b)
  {
    hide FindCategory, FindExpense, FindLink;
    CategoryFound(db.categories, id);
    ExpenseFound(db.expenses, id);
    LinkFound(db.links, id);
  }

  // ---------- What is accepted ----------

  predicate ValidAmount(amount: int) { 0 < amount <= 100_000_000_000_000_000 }

  ghost predicate SameCurrency(db: Database, a: Id, b: Id) {
    exists x, y :: x in db.budgets && y in db.budgets && x.id == a && y.id == b && x.currency == y.currency
  }

  ghost predicate Fits(db: Database, b: Id, user: Id, allocation: int, but: Option<Id>) {
    exists row :: row in db.budgets && row.id == b && row.owner == user
                  && Allocated(db.categories, b, but) + allocation <= row.income && (but.None? ==> allocation <= row.income)
  }

  /** Whose requests succeed: members and owners read and write expenses and links, only owners write
      categories, and every limit of the tables is kept. */
  ghost predicate Accepts(db: Database, r: Request) {
    match r
    case ReadSummary(user, b, _) => IsBudget(db, b) && MayUse(db, b, user)
    case AddExpense(user, b, id, category, amount, _) =>
      && ValidAmount(amount) && MayUse(db, b, user) && ExpenseCount(db.expenses, b) < 3000 && HasCategory(db, category, b)
      && (forall e :: e in db.expenses ==> e.id != id)
    case ChangeExpense(user, b, id, p) =>
      && MayUse(db, b, user) && HasExpense(db, id, b) && (p.amount.Some? ==> ValidAmount(p.amount.value))
      && (p.categoryID.Some? ==> HasCategory(db, p.categoryID.value, b))
    case DropExpense(user, b, id) => MayUse(db, b, user) && HasExpense(db, id, b)
    case AddCategory(user, b, id, _, allocation, _) =>
      && allocation >= 0 && Fits(db, b, user, allocation, None) && CategoryCount(db.categories, b) < 50
      && (forall c :: c in db.categories ==> c.id != id)
    case ChangeCategory(user, b, id, p) =>
      && IsOwner(db, b, user) && HasCategory(db, id, b)
      && (p.allocation.Some? ==> p.allocation.value >= 0 && Fits(db, b, user, p.allocation.value, Some(id)))
    case AddLink(user, t, id, source, category, _) =>
      && source != t && MayUse(db, t, user) && MayUse(db, source, user) && SameCurrency(db, t, source)
      && HasCategory(db, category, source) && LinkCount(db.links, t) < 10
      && (forall l :: l in db.links ==>
            l.id != id && !(l.source == t && l.target == source) && !(l.target == t && l.categoryID == category))
    case ChangeLink(user, t, id, _) => MayUse(db, t, user) && HasLink(db, id, t)
    case DropLink(user, t, id) => MayUse(db, t, user) && HasLink(db, id, t)
  }

  lemma AcceptsExpense(db: Database, r: Request)
    requires Keys(db) && (r.AddExpense? || r.ChangeExpense? || r.DropExpense?)
    ensures PlainStep(db, r).reply == Done <==> Accepts(db, r)
  {
    hide HasAccess, MayUse, CategoryBelongs, HasCategory, ExpenseBelongs, HasExpense, FindExpense, ExpensesOf, Keys;
    AccessExactly(db, r.budget, r.user);
    BelongsExactly(db, r.id, r.budget);
    match r
    case AddExpense(_, b, id, category, _, _) =>
      BelongsExactly(db, category, b);
      Counted(db, db.expenses, [], [], b);
      NoSuchExpense(db.expenses, id);
    case ChangeExpense(_, b, _, p) =>
      if p.categoryID.Some? {
        BelongsExactly(db, p.categoryID.value, b);
      }
    case DropExpense(_, _, _) =>
  }

  lemma AcceptsCategory(db: Database, r: Request)
    requires Keys(db) && (r.AddCategory? || r.ChangeCategory?)
    ensures PlainStep(db, r).reply == Done <==> Accepts(db, r)
  {
    hide CategoryBelongs, HasCategory, FindBudget, FindCategory, CategoriesOf, TotalAllocation, OtherAllocation;
    AccessExactly(db, r.budget, r.user);
    BelongsExactly(db, r.id, r.budget);
    BudgetFound(db.budgets, r.budget);
    AllocatedIs(db.categories, r.budget, r.id);
    Counted(db, [], db.categories, [], r.budget);
    NoSuchCategory(db.categories, r.id);
  }

  lemma AcceptsLink(db: Database, r: Request)
    requires Keys(db) && (r.AddLink? || r.ChangeLink? || r.DropLink?)
    ensures PlainStep(db, r).reply == Done <==> Accepts(db, r)
  {
    hide HasAccess, MayUse, CategoryBelongs, HasCategory, LinkBelongs, HasLink, FindBudget, FindLink, LinksTo;
    AccessExactly(db, r.budget, r.user);
    BelongsExactly(db, r.id, r.budget);
    if r.AddLink? {
      AccessExactly(db, r.source, r.user);
      BelongsExactly(db, r.category, r.source);
      BudgetFound(db.budgets, r.budget);
      BudgetFound(db.budgets, r.source);
      Counted(db, [], [], db.links, r.budget);
      NoSuchLink(db.links, r.id);
    }
  }

  /** A read is served and a write is done exactly when its conditions hold of the rows. */
  lemma AcceptedExactly(db: Database, r: Request)
    requires Keys(db)
    ensures !PlainStep(db, r).reply.Refused? <==> Accepts(db, r)
    ensures PlainStep(db, r).reply.Refused? ==> PlainStep(db, r).db == db
  {
    hide Accepts, Keys;
    if r.ReadSummary? {
      ServedExactly(db, r.user, r.budget, r.today);
    } else if r.AddExpense? || r.ChangeExpense? || r.DropExpense? {
      AcceptsExpense(db, r);
    } else if r.AddCategory? || r.ChangeCategory? {
      AcceptsCategory(db, r);
    } else {
      AcceptsLink(db, r);
    }
  }

  lemma ServedExactly(db: Database, user: Id, b: Id, today: Day)
    requires Keys(db)
    ensures PlainRead(db, user, b, today).Served? <==> Accepts(db, ReadSummary(user, b, today))
  {
    hide HasAccess, MayUse, FindBudget, LinkedRows, OwnRows, CategoryViews, LinkViews;
    AccessExactly(db, b, user);
  }

  // ---------- Why a request is refused ----------

  /** The refusal names a condition that really fails. */
  ghost predicate Cause(db: Database, r: Request, why: Reason) {
    match r
    case ReadSummary(user, b, _) => why == NotFound && !(IsBudget(db, b) && MayUse(db, b, user))
    case AddExpense(user, b, id, category, amount, _) =>
      || (why == OutOfRange && !ValidAmount(amount))
      || (why == NotFound && !MayUse(db, b, user))
      || (why == LimitReached && ExpenseCount(db.expenses, b) >= 3000)
      || (why == ForeignCategory && !HasCategory(db, category, b))
      || (why == Failed && exists e :: e in db.expenses && e.id == id)
    case ChangeExpense(user, b, id, p) =>
      || (why == OutOfRange && p.amount.Some? && !ValidAmount(p.amount.value))
      || (why == NotFound && !(MayUse(db, b, user) && HasExpense(db, id, b)))
      || (why == ForeignCategory && p.categoryID.Some? && !HasCategory(db, p.categoryID.value, b))
    case DropExpense(user, b, id) => why == NotFound && !(MayUse(db, b, user) && HasExpense(db, id, b))
    case AddCategory(user, b, id, _, allocation, _) =>
      || (why == OutOfRange && allocation < 0)
      || (why == NotFound && !IsOwner(db, b, user))
      || (why == LimitReached && CategoryCount(db.categories, b) >= 50)
      || (why == OverAllocated && !Fits(db, b, user, allocation, None))
      || (why == Failed && exists c :: c in db.categories && c.id == id)
    case ChangeCategory(user, b, id, p) =>
      || (why == OutOfRange && p.allocation.Some? && p.allocation.value < 0)
      || (why == NotFound && !(IsOwner(db, b, user) && HasCategory(db, id, b)))
      || (why == OverAllocated && p.allocation.Some? && !Fits(db, b, user, p.allocation.value, Some(id)))
    case AddLink(user, t, id, source, category, _) =>
      || (why == SelfLink && source == t)
      || (why == NotFound && !(MayUse(db, t, user) && MayUse(db, source, user) && HasCategory(db, category, source)))
      || (why == Failed && !(IsBudget(db, t) && IsBudget(db, source)))
      || (why == OtherCurrency && !SameCurrency(db, t, source))
      || (why == LimitReached && LinkCount(db.links, t) >= 10)
      || (why == Circular && exists l :: l in db.links && l.source == t && l.target == source)
      || (why == AlreadyLinked && exists l :: l in db.links && (l.id == id || (l.target == t && l.categoryID == category)))
    case ChangeLink(user, t, id, _) => why == NotFound && !(MayUse(db, t, user) && HasLink(db, id, t))
    case DropLink(user, t, id) => why == NotFound && !(MayUse(db, t, user) && HasLink(db, id, t))
  }

  lemma ExpenseCause(db: Database, r: Request)
    requires Keys(db) && (r.AddExpense? || r.ChangeExpense? || r.DropExpense?) && PlainStep(db, r).reply.Refused?
    ensures Cause(db, r, PlainStep(db, r).reply.reason)
  {
    hide HasAccess, MayUse, CategoryBelongs, HasCategory, ExpenseBelongs, HasExpense, FindExpense, ExpensesOf, Keys;
    AccessExactly(db, r.budget, r.user);
    BelongsExactly(db, r.id, r.budget);
    match r
    case AddExpense(_, b, id, category, _, _) =>
      BelongsExactly(db, category, b);
      Counted(db, db.expenses, [], [], b);
      NoSuchExpense(db.expenses, id);
    case ChangeExpense(_, b, _, p) =>
      if p.categoryID.Some? {
        BelongsExactly(db, p.categoryID.value, b);
      }
    case DropExpense(_, _, _) =>
  }

  lemma CategoryCause(db: Database, r: Request)
    requires Keys(db) && (r.AddCategory? || r.ChangeCategory?) && PlainStep(db, r).reply.Refused?
    ensures Cause(db, r, PlainStep(db, r).reply.reason)
  {
    hide CategoryBelongs, HasCategory, FindBudget, FindCategory, CategoriesOf, TotalAllocation, OtherAllocation;
    AccessExactly(db, r.budget, r.user);
    BelongsExactly(db, r.id, r.budget);
    BudgetFound(db.budgets, r.budget);
    AllocatedIs(db.categories, r.budget, r.id);
    Counted(db, [], db.categories, [], r.budget);
    NoSuchCategory(db.categories, r.id);
  }

  lemma LinkCause(db: Database, r: Request)
    requires Keys(db) && (r.AddLink? || r.ChangeLink? || r.DropLink?) && PlainStep(db, r).reply.Refused?
    ensures Cause(db, r, PlainStep(db, r).reply.reason)
  {
    hide HasAccess, MayUse, CategoryBelongs, HasCategory, LinkBelongs, HasLink, FindBudget, FindLink, LinksTo;
    AccessExactly(db, r.budget, r.user);
    BelongsExactly(db, r.id, r.budget);
    if r.AddLink? {
      AccessExactly(db, r.source, r.user);
      BelongsExactly(db, r.category, r.source);
      BudgetFound(db.budgets, r.budget);
      BudgetFound(db.budgets, r.source);
      Counted(db, [], [], db.links, r.budget);
      NoSuchLink(db.links, r.id);
    }
  }

  lemma RefusedForCause(db: Database, r: Request)
    requires Keys(db) && PlainStep(db, r).reply.Refused?
    ensures Cause(db, r, PlainStep(db, r).reply.reason)
  {
    hide Keys, Cause;
    if r.ReadSummary? {
      assert PlainStep(db, r).reply.reason == NotFound by {
        hide ComputeSummary;
      }
      hide ComputeSummary;
      ServedExactly(db, r.user, r.budget, r.today);
      ReadCause(db, r);
    } else if r.AddExpense? || r.ChangeExpense? || r.DropExpense? {
      ExpenseCause(db, r);
    } else if r.AddCategory? || r.ChangeCategory? {
      CategoryCause(db, r);
    } else {
      LinkCause(db, r);
    }
  }

  lemma ReadCause(db: Database, r: Request)
    requires r.ReadSummary? && !Accepts(db, r)
    ensures Cause(db, r, NotFound)
  {
  }

  // ---------- What is written ----------

  predicate UpdatesCategory(was: Category, p: CategoryPatch, now: Category) {
    && now.id == was.id && now.budgetID == was.budgetID
    && (if p.name.Some? then now.name == p.name.value else now.name == was.name)
    && (if p.allocation.Some? then now.allocation == p.allocation.value else now.allocation == was.allocation)
    && (if p.sortOrder.Some? then now.sortOrder == p.sortOrder.value else now.sortOrder == was.sortOrder)
  }

  /** The order given if it is positive, or else one more than the highest of the budget so far. */
  predicate PlacedLast(cs: seq<Category>, b: Id, given: int, order: int) {
    if given > 0 then order == given
    else if exists c :: c in cs && c.budgetID == b then
      (forall c :: c in cs && c.budgetID == b ==> c.sortOrder < order) && exists c :: c in cs && c.budgetID == b && c.sortOrder == order - 1
    else order == 1
  }

  /** The tables after an accepted request. */
  ghost predicate Written(db: Database, r: Request, t: Database) {
    && t.budgets == db.budgets && t.members == db.members
    && (r.AddExpense? || r.ChangeExpense? || r.DropExpense? || t.expenses == db.expenses)
    && (r.AddCategory? || r.ChangeCategory? || t.categories == db.categories)
    && (r.AddLink? || r.ChangeLink? || r.DropLink? || t.links == db.links)
    && match r
       case ReadSummary(_, _, _) => true
       case AddExpense(user, b, id, category, amount, date) =>
         t.expenses == db.expenses + [Expense(id, b, category, amount, date, Some(user))]
       case ChangeExpense(_, _, id, p) =>
         && |t.expenses| == |db.expenses|
         && forall i :: 0 <= i < |db.expenses| ==>
              if db.expenses[i].id == id then Updates(db.expenses[i], p, t.expenses[i]) else t.expenses[i] == db.expenses[i]
       case DropExpense(_, _, id) =>
         exists i :: 0 <= i < |db.expenses| && db.expenses[i].id == id && t.expenses == db.expenses[..i] + db.expenses[i + 1..]
       case AddCategory(_, b, id, name, allocation, sortOrder) =>
         exists order :: PlacedLast(db.categories, b, sortOrder, order)
                         && t.categories == db.categories + [Category(id, b, name, allocation, order)]
       case ChangeCategory(_, _, id, p) =>
         && |t.categories| == |db.categories|
         && forall i :: 0 <= i < |db.categories| ==>
              if db.categories[i].id == id then UpdatesCategory(db.categories[i], p, t.categories[i])
              else t.categories[i] == db.categories[i]
       case AddLink(_, target, id, source, category, mode) => t.links == db.links + [Link(id, source, target, category, mode)]
       case ChangeLink(_, _, id, mode) =>
         && |t.links| == |db.links|
         && forall i :: 0 <= i < |db.links| ==>
              var was, now := db.links[i], t.links[i];
              if was.id != id then now == was
              else now.id == id && now.source == was.source && now.target == was.target && now.categoryID == was.categoryID && now.mode == mode
       case DropLink(_, _, id) =>
         exists i :: 0 <= i < |db.links| && db.links[i].id == id && t.links == db.links[..i] + db.links[i + 1..]
  }

  lemma {:induction false} RemovedOne(es: seq<Expense>, id: Id, b: Id) returns (i: nat)
    requires DistinctExpenses(es) && exists e :: e in es && e.id == id && e.budgetID == b
    ensures i < |es| && es[i].id == id && RemoveExpense(es, id, b) == es[..i] + es[i + 1..]
  {
    if es[0].id == id && es[0].budgetID == b {
      i := 0;
      RemovedNone(es[1..], id, b);
      assert [] + RemoveExpense(es[1..], id, b) == es[1..] && es[..0] + es[1..] == es[1..];
    } else {
      assert es == [es[0]] + es[1..];
      var j := RemovedOne(es[1..], id, b);
      i := j + 1;
      assert es[..i] == [es[0]] + es[1..][..j] && es[i + 1..] == es[1..][j + 1..];
    }
  }

  lemma {:induction false} RemovedNone(es: seq<Expense>, id: Id, b: Id)
    requires forall i :: 0 <= i < |es| ==> es[i].id != id
    ensures RemoveExpense(es, id, b) == es
  {
    if es != [] {
      RemovedNone(es[1..], id, b);
    }
  }

  lemma {:induction false} LinkRemovedOne(ls: seq<Link>, id: Id, t: Id) returns (i: nat)
    requires DistinctIds(ls) && exists l :: l in ls && l.id == id && l.target == t
    ensures i < |ls| && ls[i].id == id && RemoveLink(ls, id, t) == ls[..i] + ls[i + 1..]
  {
    if ls[0].id == id && ls[0].target == t {
      i := 0;
      LinkRemovedNone(ls[1..], id, t);
    } else {
      assert ls == [ls[0]] + ls[1..];
      var j := LinkRemovedOne(ls[1..], id, t);
      i := j + 1;
      assert ls[..i] == [ls[0]] + ls[1..][..j] && ls[i + 1..] == ls[1..][j + 1..];
    }
  }

  lemma {:induction false} LinkRemovedNone(ls: seq<Link>, id: Id, t: Id)
    requires forall i :: 0 <= i < |ls| ==> ls[i].id != id
    ensures RemoveLink(ls, id, t) == ls
  {
    if ls != [] {
      LinkRemovedNone(ls[1..], id, t);
    }
  }

  lemma {:induction false} LinkPatches(ls: seq<Link>, id: Id, t: Id, mode: FilterMode)
    ensures |PatchLinks(ls, id, t, mode)| == |ls|
    ensures forall i :: 0 <= i < |ls| ==>
              PatchLinks(ls, id, t, mode)[i] ==
              if ls[i].id == id && ls[i].target == t then Link(id, ls[i].source, t, ls[i].categoryID, mode) else ls[i]
  {
    if ls != [] {
      LinkPatches(ls[1..], id, t, mode);
    }
  }

  lemma {:induction false} CategoryPatches(cs: seq<Category>, id: Id, b: Id, p: CategoryPatch)
    ensures |PatchCategories(cs, id, b, p)| == |cs|
    ensures forall i :: 0 <= i < |cs| ==>
              var now := PatchCategories(cs, id, b, p)[i];
              if cs[i].id == id && cs[i].budgetID == b then UpdatesCategory(cs[i], p, now) else now == cs[i]
  {
    if cs != [] {
      CategoryPatches(cs[1..], id, b, p);
    }
  }

  lemma {:induction false} MaxIsHighest(cs: seq<Category>)
    ensures cs == [] ==> MaxSortOrder(cs) == 0
    ensures cs != [] ==> exists c :: c in cs && c.sortOrder == MaxSortOrder(cs)
    ensures forall c :: c in cs ==> c.sortOrder <= MaxSortOrder(cs)
  {
    if cs != [] {
      MaxIsHighest(cs[1..]);
      assert cs == [cs[0]] + cs[1..] && cs[0] in cs;
    }
  }

  lemma NewIsLast(db: Database, b: Id, id: Id, name: string, allocation: int, sortOrder: int)
    ensures var c := NewCategory(db, b, id, name, allocation, sortOrder);
            c == Category(id, b, name, allocation, c.sortOrder) && PlacedLast(db.categories, b, sortOrder, c.sortOrder)
  {
    hide MaxSortOrder, CategoriesOf;
    var mine := CategoriesOf(db.categories, b);
    MaxIsHighest(mine);
    forall c ensures c in mine <==> c in db.categories && c.budgetID == b {
      CategoryMember(db.categories, b, c);
    }
    if mine == [] {
      assert forall c :: c in db.categories ==> c.budgetID != b;
    } else {
      assert mine[0] in mine;
    }
  }

  lemma WritesExpense(db: Database, r: Request)
    requires Keys(db) && (r.ChangeExpense? || r.DropExpense?) && PlainStep(db, r).reply == Done
    ensures Written(db, r, PlainStep(db, r).db)
  {
    hide HasAccess, FindExpense, CategoryBelongs, PatchExpenses, RemoveExpense;
    BelongsExactly(db, r.id, r.budget);
    var row :| row in db.expenses && row.id == r.id && row.budgetID == r.budget;
    if r.ChangeExpense? {
      ExpenseOrigins(db.expenses, r.id, r.budget, r.expense);
      forall i | 0 <= i < |db.expenses| && db.expenses[i].id == r.id ensures db.expenses[i] == row {
        SameExpense(db.expenses, i, row);
      }
    } else {
      var i := RemovedOne(db.expenses, r.id, r.budget);
    }
  }

  lemma SameExpense(es: seq<Expense>, i: nat, row: Expense)
    requires DistinctExpenses(es) && i < |es| && row in es && es[i].id == row.id
    ensures es[i] == row
  {
    var j :| 0 <= j < |es| && es[j] == row;
  }

  lemma WritesCategory(db: Database, r: Request)
    requires Keys(db) && (r.AddCategory? || r.ChangeCategory?) && PlainStep(db, r).reply == Done
    ensures Written(db, r, PlainStep(db, r).db)
  {
    hide FindBudget, FindCategory, CategoriesOf, TotalAllocation, OtherAllocation, PatchCategories, NewCategory, PlacedLast, UpdatesCategory;
    if r.AddCategory? {
      NewIsLast(db, r.budget, r.id, r.name, r.allocation, r.sortOrder);
    } else {
      BelongsExactly(db, r.id, r.budget);
      CategoryPatches(db.categories, r.id, r.budget, r.patch);
      var row :| row in db.categories && row.id == r.id && row.budgetID == r.budget;
      forall i | 0 <= i < |db.categories| && db.categories[i].id == r.id ensures db.categories[i] == row {
        SameCategory(db.categories, i, row);
      }
    }
  }

  lemma SameCategory(cs: seq<Category>, i: nat, row: Category)
    requires DistinctCategories(cs) && i < |cs| && row in cs && cs[i].id == row.id
    ensures cs[i] == row
  {
    var j :| 0 <= j < |cs| && cs[j] == row;
  }

  lemma WritesLink(db: Database, r: Request)
    requires Keys(db) && (r.ChangeLink? || r.DropLink?) && PlainStep(db, r).reply == Done
    ensures Written(db, r, PlainStep(db, r).db)
  {
    hide HasAccess, FindLink, PatchLinks, RemoveLink;
    BelongsExactly(db, r.id, r.budget);
    var row :| row in db.links && row.id == r.id && row.target == r.budget;
    if r.ChangeLink? {
      LinkPatches(db.links, r.id, r.budget, r.mode);
      forall i | 0 <= i < |db.links| && db.links[i].id == r.id ensures db.links[i] == row {
        SameLink(db.links, i, row);
      }
    } else {
      var i := LinkRemovedOne(db.links, r.id, r.budget);
    }
  }

  lemma SameLink(ls: seq<Link>, i: nat, row: Link)
    requires DistinctIds(ls) && i < |ls| && row in ls && ls[i].id == row.id
    ensures ls[i] == row
  {
    var j :| 0 <= j < |ls| && ls[j] == row;
  }

  /** An accepted request writes its row and nothing else. */
  lemma WrittenExactly(db: Database, r: Request)
    requires Keys(db) && !PlainStep(db, r).reply.Refused?
    ensures Written(db, r, PlainStep(db, r).db)
  {
    if r.ChangeExpense? || r.DropExpense? {
      hide Keys, Written;
      WritesExpense(db, r);
    } else if r.AddCategory? || r.ChangeCategory? {
      hide Keys, Written;
      WritesCategory(db, r);
    } else if r.ChangeLink? || r.DropLink? {
      hide Keys, Written;
      WritesLink(db, r);
    } else {
      hide Keys, HasAccess, CategoryBelongs, FindExpense, FindLink, FindBudget, ExpensesOf, LinksTo, ComputeSummary;
    }
  }

  // ---------- What an expense write does to the amounts ----------

  /** What one expense adds to the amount counted for a budget, a category and a user. */
  function Share(e: Option<Expense>, b: Budget, today: Date, category: Option<Id>, user: Option<Id>): int {
    if e.Some? && Counts(e.value, b, today, category, user) then e.value.amount else 0
  }

  function One(e: Option<Expense>, b: Budget, today: Date, category: Option<Id>, user: Option<Id>): nat {
    if e.Some? && Counts(e.value, b, today, category, user) then 1 else 0
  }

  lemma {:induction false} SpentConcat(es: seq<Expense>, fs: seq<Expense>, b: Budget, today: Date, category: Option<Id>, user: Option<Id>)
    ensures SpentIn(es + fs, b, today, category, user) == SpentIn(es, b, today, category, user) + SpentIn(fs, b, today, category, user)
    ensures CountIn(es + fs, b, today, category, user) == CountIn(es, b, today, category, user) + CountIn(fs, b, today, category, user)
  {
    hide Counts;
    if es == [] {
      assert es + fs == fs;
    } else {
      SpentConcat(es[1..], fs, b, today, category, user);
      assert (es + fs)[1..] == es[1..] + fs;
    }
  }

  lemma SpentOne(e: Expense, b: Budget, today: Date, category: Option<Id>, user: Option<Id>)
    ensures SpentIn([e], b, today, category, user) == Share(Some(e), b, today, category, user)
    ensures CountIn([e], b, today, category, user) == One(Some(e), b, today, category, user)
  {
    hide Counts;
    assert [e][1..] == [];
    assert SpentIn([e][1..], b, today, category, user) == 0 && CountIn([e][1..], b, today, category, user) == 0;
  }

  /** One row more or less changes the amount by exactly its share. */
  lemma SpentWith(es: seq<Expense>, e: Expense, fs: seq<Expense>, b: Budget, today: Date, category: Option<Id>, user: Option<Id>)
    ensures SpentIn(es + [e] + fs, b, today, category, user) ==
            SpentIn(es + fs, b, today, category, user) + Share(Some(e), b, today, category, user)
    ensures CountIn(es + [e] + fs, b, today, category, user) ==
            CountIn(es + fs, b, today, category, user) + One(Some(e), b, today, category, user)
  {
    hide Counts, SpentIn, CountIn, Share, One;
    SpentConcat(es + [e], fs, b, today, category, user);
    SpentConcat(es, [e], b, today, category, user);
    SpentConcat(es, fs, b, today, category, user);
    SpentOne(e, b, today, category, user);
  }

  /** Whichever budget, category and user an amount is counted for, an accepted expense request moves it by
      the share of the row it writes minus the share of the row it replaces, and no other request moves it. */
  lemma AmountsMove(db: Database, r: Request, b: Budget, today: Date, category: Option<Id>, user: Option<Id>)
    returns (was: Option<Expense>, now: Option<Expense>)
    requires Keys(db) && !PlainStep(db, r).reply.Refused?
    ensures was.Some? <==> r.ChangeExpense? || r.DropExpense?
    ensures now.Some? <==> r.ChangeExpense? || r.AddExpense?
    ensures was.Some? ==> was.value in db.expenses && was.value.id == r.id
    ensures r.ChangeExpense? ==> Updates(was.value, r.expense, now.value)
    ensures r.AddExpense? ==> now == Some(Expense(r.id, r.budget, r.category, r.amount, r.date, Some(r.user)))
    ensures SpentIn(PlainStep(db, r).db.expenses, b, today, category, user) ==
            SpentIn(db.expenses, b, today, category, user)
            - Share(was, b, today, category, user) + Share(now, b, today, category, user)
    ensures CountIn(PlainStep(db, r).db.expenses, b, today, category, user) ==
            CountIn(db.expenses, b, today, category, user)
            - One(was, b, today, category, user) + One(now, b, today, category, user)
  {
    hide PlainStep, Counts, SpentIn, CountIn, Keys, Updates;
    WrittenExactly(db, r);
    var es, fs := db.expenses, PlainStep(db, r).db.expenses;
    was, now := None, None;
    if r.AddExpense? {
      var e := Expense(r.id, r.budget, r.category, r.amount, r.date, Some(r.user));
      now := Some(e);
      SpentWith(es, e, [], b, today, category, user);
      assert es + [e] + [] == fs && es + [] == es;
    } else if r.DropExpense? {
      var i :| 0 <= i < |es| && es[i].id == r.id && fs == es[..i] + es[i + 1..];
      was := Some(es[i]);
      SpentWithout(es, i, b, today, category, user);
    } else if r.ChangeExpense? {
      var i := NamedRow(db, r);
      was, now := Some(es[i]), Some(fs[i]);
      SpentReplaced(es, i, fs[i], b, today, category, user);
      assert es[i := fs[i]] == fs;
    }
  }

  lemma SpentWithout(es: seq<Expense>, i: nat, b: Budget, today: Date, category: Option<Id>, user: Option<Id>)
    requires i < |es|
    ensures SpentIn(es[..i] + es[i + 1..], b, today, category, user) ==
            SpentIn(es, b, today, category, user) - Share(Some(es[i]), b, today, category, user)
    ensures CountIn(es[..i] + es[i + 1..], b, today, category, user) ==
            CountIn(es, b, today, category, user) - One(Some(es[i]), b, today, category, user)
  {
    hide Counts, SpentIn, CountIn, Share, One;
    SpentWith(es[..i], es[i], es[i + 1..], b, today, category, user);
    assert es[..i] + [es[i]] + es[i + 1..] == es;
  }

  lemma SpentReplaced(es: seq<Expense>, i: nat, e: Expense, b: Budget, today: Date, category: Option<Id>, user: Option<Id>)
    requires i < |es|
    ensures SpentIn(es[i := e], b, today, category, user) ==
            SpentIn(es, b, today, category, user)
            - Share(Some(es[i]), b, today, category, user) + Share(Some(e), b, today, category, user)
    ensures CountIn(es[i := e], b, today, category, user) ==
            CountIn(es, b, today, category, user)
            - One(Some(es[i]), b, today, category, user) + One(Some(e), b, today, category, user)
  {
    hide Counts, SpentIn, CountIn, Share, One;
    SpentWithout(es, i, b, today, category, user);
    SpentWith(es[..i], e, es[i + 1..], b, today, category, user);
    assert es[..i] + [e] + es[i + 1..] == es[i := e];
  }

  /** The row an accepted update names, and that every other row has another id. */
  lemma NamedRow(db: Database, r: Request) returns (i: nat)
    requires Keys(db) && r.ChangeExpense? && !PlainStep(db, r).reply.Refused?
    ensures i < |db.expenses| && db.expenses[i].id == r.id
    ensures forall j :: 0 <= j < |db.expenses| && j != i ==> db.expenses[j].id != r.id
  {
    hide HasAccess, FindExpense, CategoryBelongs;
    BelongsExactly(db, r.id, r.budget);
    var row :| row in db.expenses && row.id == r.id;
    i :| 0 <= i < |db.expenses| && db.expenses[i] == row;
  }
}
