/** The budget handlers as functions from tables to tables, with no cache anywhere: the behaviour
    the cached server is measured against. */
module SummaryRequests {
  import opened Wrappers
  import opened Calendar
  import opened Models
  import opened SummaryTables

  const MAX_EXPENSES := 3000
  const MAX_CATEGORIES := 50
  const MAX_LINKS := 10
  /** 10^15 currency units, in cents. */
  const MAX_AMOUNT := 100_000_000_000_000_000

  type Day = d: Date | Valid(d) witness Date(1970, 1, 1)

  datatype Request =
    | ReadSummary(user: Id, budget: Id, today: Day)
    | AddExpense(user: Id, budget: Id, id: Id, category: Id, amount: int, date: Date)
    | ChangeExpense(user: Id, budget: Id, id: Id, expense: ExpensePatch)
    | DropExpense(user: Id, budget: Id, id: Id)
    | AddCategory(user: Id, budget: Id, id: Id, name: string, allocation: int, sortOrder: int)
    | ChangeCategory(user: Id, budget: Id, id: Id, patch: CategoryPatch)
    | AddLink(user: Id, budget: Id, id: Id, source: Id, category: Id, mode: FilterMode)
    | ChangeLink(user: Id, budget: Id, id: Id, mode: FilterMode)
    | DropLink(user: Id, budget: Id, id: Id)

  datatype Reason = NotFound | OutOfRange | LimitReached | ForeignCategory | OverAllocated
                  | SelfLink | OtherCurrency | Circular | AlreadyLinked | Failed

  datatype Reply = Served(summary: Summary) | Done | Refused(reason: Reason)

  datatype Outcome = Outcome(db: Database, reply: Reply)

  function Refuse(db: Database, why: Reason): Outcome { Outcome(db, Refused(why)) }

  // ---------- Lookups ----------

  function FindExpense(es: seq<Expense>, id: Id): Option<Expense> {
    if es == [] then None else if es[0].id == id then Some(es[0]) else FindExpense(es[1..], id)
  }

  function FindLink(ls: seq<Link>, id: Id): Option<Link> {
    if ls == [] then None else if ls[0].id == id then Some(ls[0]) else FindLink(ls[1..], id)
  }

  predicate Owns(db: Database, b: Id, user: Id) {
    FindBudget(db.budgets, b).Some? && FindBudget(db.budgets, b).value.owner == user
  }

  predicate CategoryBelongs(db: Database, c: Id, b: Id) {
    FindCategory(db.categories, c).Some? && FindCategory(db.categories, c).value.budgetID == b
  }

  predicate ExpenseBelongs(db: Database, e: Id, b: Id) {
    FindExpense(db.expenses, e).Some? && FindExpense(db.expenses, e).value.budgetID == b
  }

  predicate LinkBelongs(db: Database, l: Id, t: Id) {
    FindLink(db.links, l).Some? && FindLink(db.links, l).value.target == t
  }

  predicate InRange(amount: int) { 0 < amount <= MAX_AMOUNT }

  function TotalAllocation(cs: seq<Category>): int {
    if cs == [] then 0 else cs[0].allocation + TotalAllocation(cs[1..])
  }

  function OtherAllocation(cs: seq<Category>, id: Id): int {
    if cs == [] then 0 else (if cs[0].id == id then 0 else cs[0].allocation) + OtherAllocation(cs[1..], id)
  }

  function MaxSortOrder(cs: seq<Category>): int {
    if cs == [] then 0
    else if |cs| == 1 || cs[0].sortOrder > MaxSortOrder(cs[1..]) then cs[0].sortOrder
    else MaxSortOrder(cs[1..])
  }

  // ---------- The handlers ----------

  function PlainRead(db: Database, user: Id, b: Id, today: Day): Reply {
    match ComputeSummary(db, b, user, today)
    case None => Refused(NotFound)
    case Some(summary) => Served(summary)
  }

  function PlainAddExpense(db: Database, user: Id, b: Id, id: Id, category: Id, amount: int, date: Date): Outcome {
    if !InRange(amount) then Refuse(db, OutOfRange)
    else if !HasAccess(db, b, user) then Refuse(db, NotFound)
    else if |ExpensesOf(db.expenses, b)| >= MAX_EXPENSES then Refuse(db, LimitReached)
    else if !CategoryBelongs(db, category, b) then Refuse(db, ForeignCategory)
    else if FindExpense(db.expenses, id).Some? then Refuse(db, Failed)
    else Outcome(db.(expenses := db.expenses + [Expense(id, b, category, amount, date, Some(user))]), Done)
  }

  function PlainChangeExpense(db: Database, user: Id, b: Id, id: Id, p: ExpensePatch): Outcome {
    if p.amount.Some? && !InRange(p.amount.value) then Refuse(db, OutOfRange)
    else if !ExpenseBelongs(db, id, b) || !HasAccess(db, b, user) then Refuse(db, NotFound)
    else if p.categoryID.Some? && !CategoryBelongs(db, p.categoryID.value, b) then Refuse(db, ForeignCategory)
    else Outcome(db.(expenses := PatchExpenses(db.expenses, id, b, p)), Done)
  }

  function PlainDropExpense(db: Database, user: Id, b: Id, id: Id): Outcome {
    if !ExpenseBelongs(db, id, b) || !HasAccess(db, b, user) then Refuse(db, NotFound)
    else Outcome(db.(expenses := RemoveExpense(db.expenses, id, b)), Done)
  }

  function NewCategory(db: Database, b: Id, id: Id, name: string, allocation: int, sortOrder: int): Category {
    Category(id, b, name, allocation, if sortOrder <= 0 then MaxSortOrder(CategoriesOf(db.categories, b)) + 1 else sortOrder)
  }

  function PlainAddCategory(db: Database, user: Id, b: Id, id: Id, name: string, allocation: int, sortOrder: int): Outcome {
    if allocation < 0 then Refuse(db, OutOfRange)
    else if !Owns(db, b, user) then Refuse(db, NotFound)
    else
      var income, mine := FindBudget(db.budgets, b).value.income, CategoriesOf(db.categories, b);
      if allocation > income then Refuse(db, OverAllocated)
      else if |mine| >= MAX_CATEGORIES then Refuse(db, LimitReached)
      else if TotalAllocation(mine) + allocation > income then Refuse(db, OverAllocated)
      else if FindCategory(db.categories, id).Some? then Refuse(db, Failed)
      else Outcome(db.(categories := db.categories + [NewCategory(db, b, id, name, allocation, sortOrder)]), Done)
  }

  function PlainChangeCategory(db: Database, user: Id, b: Id, id: Id, p: CategoryPatch): Outcome {
    if p.allocation.Some? && p.allocation.value < 0 then Refuse(db, OutOfRange)
    else if !Owns(db, b, user) then Refuse(db, NotFound)
    else if p.allocation.Some? &&
            OtherAllocation(CategoriesOf(db.categories, b), id) + p.allocation.value > FindBudget(db.budgets, b).value.income
    then Refuse(db, OverAllocated)
    else if !CategoryBelongs(db, id, b) then Refuse(db, NotFound)
    else Outcome(db.(categories := PatchCategories(db.categories, id, b, p)), Done)
  }

  function PlainAddLink(db: Database, user: Id, t: Id, id: Id, source: Id, category: Id, mode: FilterMode): Outcome {
    if source == t then Refuse(db, SelfLink)
    else if !HasAccess(db, t, user) || !HasAccess(db, source, user) then Refuse(db, NotFound)
    else
      var target, from := FindBudget(db.budgets, t), FindBudget(db.budgets, source);
      if target.None? || from.None? then Refuse(db, Failed)
      else if target.value.currency != from.value.currency then Refuse(db, OtherCurrency)
      else if !CategoryBelongs(db, category, source) then Refuse(db, NotFound)
      else if |LinksTo(db.links, t)| >= MAX_LINKS then Refuse(db, LimitReached)
      else if exists l :: l in db.links && l.source == t && l.target == source then Refuse(db, Circular)
      else if FindLink(db.links, id).Some? || exists l :: l in db.links && l.target == t && l.categoryID == category
      then Refuse(db, AlreadyLinked)
      else Outcome(db.(links := db.links + [Link(id, source, t, category, mode)]), Done)
  }

  function PlainChangeLink(db: Database, user: Id, t: Id, id: Id, mode: FilterMode): Outcome {
    if !LinkBelongs(db, id, t) || !HasAccess(db, t, user) then Refuse(db, NotFound)
    else Outcome(db.(links := PatchLinks(db.links, id, t, mode)), Done)
  }

  function PlainDropLink(db: Database, user: Id, t: Id, id: Id): Outcome {
    if !LinkBelongs(db, id, t) || !HasAccess(db, t, user) then Refuse(db, NotFound)
    else Outcome(db.(links := RemoveLink(db.links, id, t)), Done)
  }

  function PlainStep(db: Database, r: Request): Outcome {
    match r
    case ReadSummary(user, b, today) => Outcome(db, PlainRead(db, user, b, today))
    case AddExpense(user, b, id, category, amount, date) => PlainAddExpense(db, user, b, id, category, amount, date)
    case ChangeExpense(user, b, id, p) => PlainChangeExpense(db, user, b, id, p)
    case DropExpense(user, b, id) => PlainDropExpense(db, user, b, id)
    case AddCategory(user, b, id, name, allocation, sortOrder) => PlainAddCategory(db, user, b, id, name, allocation, sortOrder)
    case ChangeCategory(user, b, id, p) => PlainChangeCategory(db, user, b, id, p)
    case AddLink(user, t, id, source, category, mode) => PlainAddLink(db, user, t, id, source, category, mode)
    case ChangeLink(user, t, id, mode) => PlainChangeLink(db, user, t, id, mode)
    case DropLink(user, t, id) => PlainDropLink(db, user, t, id)
  }

  function PlainRun(db: Database, rs: seq<Request>): Database {
    if rs == [] then db else PlainStep(PlainRun(db, rs[..|rs| - 1]), rs[|rs| - 1]).db
  }

  // ---------- What a handler's write can reach ----------

  /** The budgets whose summaries show rows of budget s: s itself and those with a link from it. */
  function Dependents(ls: seq<Link>, s: Id): set<Id> { {s} + Targets(ls, s) }

  lemma AddExpenseReach(db: Database, e: Expense, b: Id)
    requires b !in Dependents(db.links, e.budgetID)
    ensures SameView(db, db.(expenses := db.expenses + [e]), b)
  {
    forall x | x != e.budgetID ensures ExpensesOf(db.expenses + [e], x) == ExpensesOf(db.expenses, x) {
      ExpensesConcat(db.expenses, [e], x);
    }
    ExpenseWriteFrame(db, db.expenses + [e], e.budgetID, b);
  }

  lemma PatchExpenseReach(db: Database, id: Id, s: Id, p: ExpensePatch, b: Id)
    requires b !in Dependents(db.links, s)
    ensures SameView(db, db.(expenses := PatchExpenses(db.expenses, id, s, p)), b)
    ensures SameView(db, db.(expenses := RemoveExpense(db.expenses, id, s)), b)
  {
    hide PatchExpenses, RemoveExpense;
    forall x | x != s ensures ExpensesOf(PatchExpenses(db.expenses, id, s, p), x) == ExpensesOf(db.expenses, x)
                      ensures ExpensesOf(RemoveExpense(db.expenses, id, s), x) == ExpensesOf(db.expenses, x) {
      ExpensesElsewhere(db.expenses, id, s, p, x);
    }
    ExpenseWriteFrame(db, PatchExpenses(db.expenses, id, s, p), s, b);
    ExpenseWriteFrame(db, RemoveExpense(db.expenses, id, s), s, b);
  }

  lemma AddCategoryReach(db: Database, c: Category, b: Id)
    requires Integrity(db) && b !in Dependents(db.links, c.budgetID)
    ensures SameView(db, db.(categories := db.categories + [c]), b)
  {
    forall x | x != c.budgetID ensures CategoriesOf(db.categories + [c], x) == CategoriesOf(db.categories, x) {
      CategoriesAppend(db.categories, c, x, 0);
    }
    forall x: Id | FindCategory(db.categories, x).Some?
      ensures FindCategory(db.categories + [c], x) == FindCategory(db.categories, x) {
      CategoriesAppend(db.categories, c, 0, x);
    }
    CategoryWriteFrame(db, db.categories + [c], c.budgetID, b);
  }

  lemma AddCategoryIntegrity(db: Database, c: Category)
    requires Integrity(db)
    ensures Integrity(db.(categories := db.categories + [c]))
  {
    forall l | l in db.links ensures FindCategory(db.categories + [c], l.categoryID) == FindCategory(db.categories, l.categoryID) {
      CategoriesAppend(db.categories, c, 0, l.categoryID);
    }
  }

  lemma PatchCategoryReach(db: Database, id: Id, s: Id, p: CategoryPatch, b: Id)
    requires Integrity(db) && b !in Dependents(db.links, s)
    ensures SameView(db, db.(categories := PatchCategories(db.categories, id, s, p)), b)
  {
    hide PatchCategories;
    forall x | x != s ensures CategoriesOf(PatchCategories(db.categories, id, s, p), x) == CategoriesOf(db.categories, x) {
      CategoriesElsewhere(db.categories, id, s, p, x);
    }
    forall x: Id | FindCategory(db.categories, x).Some? && FindCategory(db.categories, x).value.budgetID != s
      ensures FindCategory(PatchCategories(db.categories, id, s, p), x) == FindCategory(db.categories, x) {
      PatchedFind(db.categories, id, s, p, x);
    }
    CategoryWriteFrame(db, PatchCategories(db.categories, id, s, p), s, b);
  }

  lemma PatchCategoryIntegrity(db: Database, id: Id, s: Id, p: CategoryPatch)
    requires Integrity(db)
    ensures Integrity(db.(categories := PatchCategories(db.categories, id, s, p)))
  {
    hide PatchCategories, FindCategory;
    forall l | l in db.links ensures
      var c := FindCategory(PatchCategories(db.categories, id, s, p), l.categoryID);
      c.Some? && c.value.budgetID == l.source {
      PatchedFind(db.categories, id, s, p, l.categoryID);
    }
  }

  lemma {:induction false} FindLinkMember(ls: seq<Link>, id: Id)
    ensures FindLink(ls, id).Some? ==> FindLink(ls, id).value in ls && FindLink(ls, id).value.id == id
    ensures FindLink(ls, id).None? ==> forall l :: l in ls ==> l.id != id
  {
    if ls != [] {
      FindLinkMember(ls[1..], id);
    }
  }

  /** A new link leaves other targets' links and other sources' targets alone. */
  lemma AddLinkReach(db: Database, l: Link, b: Id)
    ensures b != l.target ==> SameView(db, db.(links := db.links + [l]), b)
    ensures b != l.source ==> Targets(db.links + [l], b) == Targets(db.links, b)
  {
    LinksConcat(db.links, [l], b);
    assert forall x :: x in db.links + [l] <==> x in db.links || x == l;
  }

  lemma AddLinkIntegrity(db: Database, l: Link)
    requires Integrity(db) && FindLink(db.links, l.id).None?
    requires CategoryBelongs(db, l.categoryID, l.source)
    ensures Integrity(db.(links := db.links + [l]))
  {
    FindLinkMember(db.links, l.id);
  }

  /** A changed filter mode shows only in its target's summary. */
  lemma PatchLinkReach(db: Database, id: Id, t: Id, mode: FilterMode, b: Id)
    ensures b != t ==> SameView(db, db.(links := PatchLinks(db.links, id, t, mode)), b)
    ensures Targets(PatchLinks(db.links, id, t, mode), b) == Targets(db.links, b)
  {
    hide PatchLinks;
    var ls := PatchLinks(db.links, id, t, mode);
    PatchLinksMembers(db.links, id, t, mode);
    forall x | x in Targets(db.links, b) ensures x in Targets(ls, b) {
      var i :| 0 <= i < |db.links| && db.links[i].source == b && db.links[i].target == x;
      assert ls[i].source == b && ls[i].target == x;
    }
    forall x | x in Targets(ls, b) ensures x in Targets(db.links, b) {
      var i :| 0 <= i < |ls| && ls[i].source == b && ls[i].target == x;
      assert db.links[i].source == b && db.links[i].target == x;
    }
    if b != t {
      LinksElsewhere(db.links, id, t, mode, b);
    }
  }

  lemma PatchLinkIntegrity(db: Database, id: Id, t: Id, mode: FilterMode)
    requires Integrity(db)
    ensures Integrity(db.(links := PatchLinks(db.links, id, t, mode)))
  {
    hide FindCategory;
    PatchedIds(db.links, id, t, mode);
  }

  lemma {:induction false} PatchedIds(ls: seq<Link>, id: Id, t: Id, mode: FilterMode)
    ensures forall m :: m in PatchLinks(ls, id, t, mode) ==>
              exists l :: l in ls && m == (if l.id == id && l.target == t then l.(mode := mode) else l)
  {
    if ls != [] {
      PatchedIds(ls[1..], id, t, mode);
    }
  }

  /** A removed link leaves other targets' links and, ids being unique, other sources' targets alone. */
  lemma DropLinkReach(db: Database, l: Link, b: Id)
    requires Integrity(db) && l in db.links
    ensures b != l.target ==> SameView(db, db.(links := RemoveLink(db.links, l.id, l.target)), b)
    ensures b != l.source ==> Targets(RemoveLink(db.links, l.id, l.target), b) == Targets(db.links, b)
  {
    hide RemoveLink, FindCategory;
    var ls := RemoveLink(db.links, l.id, l.target);
    forall m: Link ensures m in ls <==> m in db.links && m != l {
      RemoveLinkMembers(db.links, l.id, l.target, m);
    }
    if b != l.target {
      LinksElsewhere(db.links, l.id, l.target, l.mode, b);
    }
  }

  lemma DropLinkIntegrity(db: Database, id: Id, t: Id)
    requires Integrity(db)
    ensures Integrity(db.(links := RemoveLink(db.links, id, t)))
  {
    hide RemoveLink, FindCategory;
    forall m: Link ensures m in RemoveLink(db.links, id, t) ==> m in db.links {
      RemoveLinkMembers(db.links, id, t, m);
    }
  }
}
