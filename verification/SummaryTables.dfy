/** The tables behind the budget summary, the summary as a plain function of them, the writes of the
    expense, category and link handlers, and which summaries each write can change. */
module SummaryTables {
  import opened Wrappers
  import opened Calendar
  import opened Models
  import opened Billing
  import opened Spending
  import InsertionSort

  datatype Database = Database(budgets: seq<Budget>, members: set<(Id, Id)>, categories: seq<Category>,
                               expenses: seq<Expense>, links: seq<Link>)

  // ---------- Queries ----------

  function FindBudget(bs: seq<Budget>, id: Id): Option<Budget> {
    if bs == [] then None else if bs[0].id == id then Some(bs[0]) else FindBudget(bs[1..], id)
  }

  function FindCategory(cs: seq<Category>, id: Id): Option<Category> {
    if cs == [] then None else if cs[0].id == id then Some(cs[0]) else FindCategory(cs[1..], id)
  }

  function CategoriesOf(cs: seq<Category>, b: Id): seq<Category> {
    if cs == [] then [] else (if cs[0].budgetID == b then [cs[0]] else []) + CategoriesOf(cs[1..], b)
  }

  function ExpensesOf(es: seq<Expense>, b: Id): seq<Expense> {
    if es == [] then [] else (if es[0].budgetID == b then [es[0]] else []) + ExpensesOf(es[1..], b)
  }

  function LinksTo(ls: seq<Link>, t: Id): seq<Link> {
    if ls == [] then [] else (if ls[0].target == t then [ls[0]] else []) + LinksTo(ls[1..], t)
  }

  /** SELECT DISTINCT target_budget_id ... WHERE source_budget_id = s. */
  function Targets(ls: seq<Link>, s: Id): set<Id> { set l | l in ls && l.source == s :: l.target }

  predicate HasAccess(db: Database, b: Id, user: Id) {
    var found := FindBudget(db.budgets, b);
    (found.Some? && found.value.owner == user) || (b, user) in db.members
  }

  // ---------- The summary without any cache ----------

  function OwnRows(es: seq<Expense>, oneTime: bool, start: Date): seq<Row> {
    if es == [] then []
    else (if oneTime || !Before(es[0].date, start) then [Row(es[0].categoryID, es[0].createdBy, es[0].amount, 1)] else [])
         + OwnRows(es[1..], oneTime, start)
  }

  function MatchingRows(es: seq<Expense>, l: Link, start: Date, viewer: Id): seq<Row> {
    if es == [] then []
    else (if es[0].categoryID == l.categoryID && !Before(es[0].date, start) && (l.mode.All? || es[0].createdBy == Some(viewer))
          then [Row(l.id, es[0].createdBy, es[0].amount, 1)] else [])
         + MatchingRows(es[1..], l, start, viewer)
  }

  /** The LEFT JOIN keeps a link without matching expenses as one empty row. */
  function RowsOfLink(es: seq<Expense>, l: Link, start: Date, viewer: Id): seq<Row> {
    var rows := GroupBy(MatchingRows(es, l, start, viewer));
    if rows == [] then [Row(l.id, None, 0, 0)] else rows
  }

  function Tagged(info: LinkInfo, rows: seq<Row>): seq<LinkedRow> {
    if rows == [] then [] else [LinkedRow(info, rows[0])] + Tagged(info, rows[1..])
  }

  function RowsOf(db: Database, l: Link, viewer: Id, today: Date): seq<LinkedRow>
    requires Valid(today)
  {
    var source, category := FindBudget(db.budgets, l.source), FindCategory(db.categories, l.categoryID);
    if source.None? || category.None? then []
    else
      var start := SqlPeriodStart(today, source.value.cutoffDay, source.value.periodMonths);
      Tagged(LinkInfo(l, source.value, category.value), RowsOfLink(ExpensesOf(db.expenses, l.source), l, start, viewer))
  }

  function LinkedRows(db: Database, links: seq<Link>, viewer: Id, today: Date): seq<LinkedRow>
    requires Valid(today)
  {
    if links == [] then [] else RowsOf(db, links[0], viewer, today) + LinkedRows(db, links[1..], viewer, today)
  }

  datatype CategoryView = CategoryView(category: Category, spent: int, count: nat, byUser: Option<map<Id, int>>)

  datatype LinkView = LinkView(info: LinkInfo, spent: int, count: nat, byUser: Option<map<Id, int>>)

  datatype Summary = Summary(budget: Budget, categories: seq<CategoryView>, linked: seq<LinkView>,
                             totalBudget: int, totalSpent: int, byUser: Option<map<Id, int>>)

  function CategoryViews(cats: seq<Category>, agg: Aggregation): seq<CategoryView> {
    if cats == [] then []
    else
      var c := cats[0];
      [if c.id in agg.categories
       then CategoryView(c, agg.categories[c.id].totalSpent, agg.categories[c.id].count, Breakdown(agg.categories[c.id].byUser))
       else CategoryView(c, 0, 0, None)] + CategoryViews(cats[1..], agg)
  }

  function LinkViews(linked: seq<LinkedRow>, order: seq<Id>): seq<LinkView> {
    if order == [] then []
    else
      match Assembled(linked, order[0])
      case None => LinkViews(linked, order[1..])
      case Some(a) => [LinkView(a.info, a.totalSpent, a.count, Breakdown(a.byUser))] + LinkViews(linked, order[1..])
  }

  predicate SortsBefore(x: Category, y: Category) { x.sortOrder < y.sortOrder }

  /** Only positive period lengths set the start; otherwise it stays Go's zero time. */
  function OwnStart(b: Budget, today: Date): Date {
    if b.periodMonths > 0 then ComputeBillingPeriodStart(today, b.cutoffDay, b.periodMonths) else Date(1, 1, 1)
  }

  /** GetBudgetSummary read straight from the tables: None without access. */
  function ComputeSummary(db: Database, b: Id, viewer: Id, today: Date): Option<Summary>
    requires Valid(today)
  {
    var found := FindBudget(db.budgets, b);
    if found.None? || !HasAccess(db, b, viewer) then None
    else
      var own := GroupBy(OwnRows(ExpensesOf(db.expenses, b), found.value.periodMonths == 0, OwnStart(found.value, today)));
      var linked := LinkedRows(db, LinksTo(db.links, b), viewer, today);
      var agg := Aggregate(own, linked);
      Some(Summary(found.value,
                   CategoryViews(InsertionSort.Sorted(CategoriesOf(db.categories, b), SortsBefore), agg),
                   LinkViews(linked, LinkOrder(linked)),
                   found.value.income, agg.totalSpent, Breakdown(agg.budgetByUser)))
  }

  /** The handler's own way there: the two roll-ups, then one loop over the categories and one over the links. */
  method BuildSummary(db: Database, b: Id, viewer: Id, today: Date) returns (r: Option<Summary>)
    requires Valid(today)
    ensures r == ComputeSummary(db, b, viewer, today)
  {
    hide LinkedRows, Aggregate, GroupBy, Assembled, LinkOrder, OwnRows, InsertionSort.Sorted;
    var found := FindBudget(db.budgets, b);
    if found.None? || !HasAccess(db, b, viewer) {
      return None;
    }
    var own := GroupBy(OwnRows(ExpensesOf(db.expenses, b), found.value.periodMonths == 0, OwnStart(found.value, today)));
    var linked := LinkedRows(db, LinksTo(db.links, b), viewer, today);
    var agg := AggregateSummarySpending(own, linked);
    var cats := InsertionSort.Sorted(CategoriesOf(db.categories, b), SortsBefore);
    var categories := ShowCategories(cats, agg);
    var assembled := AssembleLinkedSummaries(linked);
    var links := ShowLinks(linked, assembled);
    r := Some(Summary(found.value, categories, links, found.value.income, agg.totalSpent, Breakdown(agg.budgetByUser)));
  }

  method ShowCategories(cats: seq<Category>, agg: Aggregation) returns (views: seq<CategoryView>)
    ensures views == CategoryViews(cats, agg)
  {
    views := [];
    for i := 0 to |cats|
      invariant CategoryViews(cats, agg) == views + CategoryViews(cats[i..], agg)
    {
      var c := cats[i];
      assert cats[i..][1..] == cats[i + 1..];
      var view := CategoryView(c, 0, 0, None);
      if c.id in agg.categories {
        var a := agg.categories[c.id];
        view := CategoryView(c, a.totalSpent, a.count, Breakdown(a.byUser));
      }
      views := views + [view];
    }
  }

  method ShowLinks(linked: seq<LinkedRow>, assembled: seq<LinkedSummary>) returns (views: seq<LinkView>)
    requires |assembled| == |LinkOrder(linked)|
    requires forall i :: 0 <= i < |assembled| ==> Assembled(linked, LinkOrder(linked)[i]) == Some(assembled[i])
    ensures views == LinkViews(linked, LinkOrder(linked))
  {
    hide Assembled, LinkOrder;
    ghost var order := LinkOrder(linked);
    views := [];
    for i := 0 to |assembled|
      invariant LinkViews(linked, order) == views + LinkViews(linked, order[i..])
    {
      assert order[i..][1..] == order[i + 1..];
      var a := assembled[i];
      views := views + [LinkView(a.info, a.totalSpent, a.count, Breakdown(a.byUser))];
    }
  }

  // ---------- What a summary depends on ----------

  /** The two databases show the same data to the summary of budget b. */
  ghost predicate SameView(db: Database, db': Database, b: Id) {
    && db.budgets == db'.budgets && db.members == db'.members
    && CategoriesOf(db.categories, b) == CategoriesOf(db'.categories, b)
    && ExpensesOf(db.expenses, b) == ExpensesOf(db'.expenses, b)
    && LinksTo(db.links, b) == LinksTo(db'.links, b)
    && (forall l :: l in LinksTo(db.links, b) ==>
          && FindCategory(db.categories, l.categoryID) == FindCategory(db'.categories, l.categoryID)
          && ExpensesOf(db.expenses, l.source) == ExpensesOf(db'.expenses, l.source))
  }

  lemma {:induction false} LinkedRowsFrame(db: Database, db': Database, links: seq<Link>, viewer: Id, today: Date)
    requires Valid(today) && db.budgets == db'.budgets
    requires forall l :: l in links ==>
               && FindCategory(db.categories, l.categoryID) == FindCategory(db'.categories, l.categoryID)
               && ExpensesOf(db.expenses, l.source) == ExpensesOf(db'.expenses, l.source)
    ensures LinkedRows(db, links, viewer, today) == LinkedRows(db', links, viewer, today)
  {
    if links != [] {
      assert links[0] in links;
      LinkedRowsFrame(db, db', links[1..], viewer, today);
    }
  }

  lemma SummaryFrame(db: Database, db': Database, b: Id, viewer: Id, today: Date)
    requires Valid(today) && SameView(db, db', b)
    ensures ComputeSummary(db, b, viewer, today) == ComputeSummary(db', b, viewer, today)
  {
    hide LinkedRows, Aggregate, GroupBy, LinkViews, CategoryViews;
    LinkedRowsFrame(db, db', LinksTo(db.links, b), viewer, today);
  }

  // ---------- Writes ----------

  datatype ExpensePatch = ExpensePatch(categoryID: Option<Id>, amount: Option<int>, date: Option<Date>)

  datatype CategoryPatch = CategoryPatch(name: Option<string>, allocation: Option<int>, sortOrder: Option<int>)

  function Or<T>(o: Option<T>, t: T): T { if o.Some? then o.value else t }

  function Patched(e: Expense, p: ExpensePatch): Expense {
    e.(categoryID := Or(p.categoryID, e.categoryID), amount := Or(p.amount, e.amount), date := Or(p.date, e.date))
  }

  function PatchExpenses(es: seq<Expense>, id: Id, b: Id, p: ExpensePatch): seq<Expense> {
    if es == [] then []
    else [if es[0].id == id && es[0].budgetID == b then Patched(es[0], p) else es[0]] + PatchExpenses(es[1..], id, b, p)
  }

  function RemoveExpense(es: seq<Expense>, id: Id, b: Id): seq<Expense> {
    if es == [] then []
    else (if es[0].id == id && es[0].budgetID == b then [] else [es[0]]) + RemoveExpense(es[1..], id, b)
  }

  function PatchedCategory(c: Category, p: CategoryPatch): Category {
    c.(name := Or(p.name, c.name), allocation := Or(p.allocation, c.allocation), sortOrder := Or(p.sortOrder, c.sortOrder))
  }

  function PatchCategories(cs: seq<Category>, id: Id, b: Id, p: CategoryPatch): seq<Category> {
    if cs == [] then []
    else [if cs[0].id == id && cs[0].budgetID == b then PatchedCategory(cs[0], p) else cs[0]] + PatchCategories(cs[1..], id, b, p)
  }

  function PatchLinks(ls: seq<Link>, id: Id, t: Id, mode: FilterMode): seq<Link> {
    if ls == [] then []
    else [if ls[0].id == id && ls[0].target == t then ls[0].(mode := mode) else ls[0]] + PatchLinks(ls[1..], id, t, mode)
  }

  function RemoveLink(ls: seq<Link>, id: Id, t: Id): seq<Link> {
    if ls == [] then []
    else (if ls[0].id == id && ls[0].target == t then [] else [ls[0]]) + RemoveLink(ls[1..], id, t)
  }

  // ---------- What each write leaves alone ----------

  lemma {:induction false} ExpensesConcat(es: seq<Expense>, fs: seq<Expense>, b: Id)
    ensures ExpensesOf(es + fs, b) == ExpensesOf(es, b) + ExpensesOf(fs, b)
  {
    if es == [] {
      assert es + fs == fs;
    } else {
      ExpensesConcat(es[1..], fs, b);
      var first := if es[0].budgetID == b then [es[0]] else [];
      assert ExpensesOf(es + fs, b) == first + ExpensesOf(es[1..] + fs, b) by {
        assert (es + fs)[1..] == es[1..] + fs;
      }
    }
  }

  lemma {:induction false} ExpensesElsewhere(es: seq<Expense>, id: Id, s: Id, p: ExpensePatch, b: Id)
    requires b != s
    ensures ExpensesOf(PatchExpenses(es, id, s, p), b) == ExpensesOf(es, b)
    ensures ExpensesOf(RemoveExpense(es, id, s), b) == ExpensesOf(es, b)
  {
    if es != [] {
      ExpensesElsewhere(es[1..], id, s, p, b);
      assert es[0].id == id && es[0].budgetID == s ==> [] + RemoveExpense(es[1..], id, s) == RemoveExpense(es[1..], id, s);
    }
  }

  lemma {:induction false} CategoriesAppend(cs: seq<Category>, c: Category, b: Id, id: Id)
    ensures CategoriesOf(cs + [c], b) == CategoriesOf(cs, b) + (if c.budgetID == b then [c] else [])
    ensures FindCategory(cs, id).Some? ==> FindCategory(cs + [c], id) == FindCategory(cs, id)
  {
    if cs == [] {
      assert cs + [c] == [c] && [c][1..] == [];
    } else {
      assert (cs + [c])[1..] == cs[1..] + [c];
      CategoriesAppend(cs[1..], c, b, id);
    }
  }

  lemma {:induction false} CategoriesElsewhere(cs: seq<Category>, id: Id, s: Id, p: CategoryPatch, b: Id)
    requires b != s
    ensures CategoriesOf(PatchCategories(cs, id, s, p), b) == CategoriesOf(cs, b)
  {
    if cs != [] {
      CategoriesElsewhere(cs[1..], id, s, p, b);
    }
  }

  lemma {:induction false} PatchedFind(cs: seq<Category>, id: Id, s: Id, p: CategoryPatch, c: Id)
    ensures FindCategory(cs, c).Some? <==> FindCategory(PatchCategories(cs, id, s, p), c).Some?
    ensures FindCategory(cs, c).Some? ==> FindCategory(PatchCategories(cs, id, s, p), c).value.budgetID == FindCategory(cs, c).value.budgetID
    ensures FindCategory(cs, c).Some? && FindCategory(cs, c).value.budgetID != s ==>
            FindCategory(PatchCategories(cs, id, s, p), c) == FindCategory(cs, c)
  {
    if cs != [] {
      PatchedFind(cs[1..], id, s, p, c);
    }
  }

  lemma {:induction false} LinksConcat(ls: seq<Link>, ms: seq<Link>, t: Id)
    ensures LinksTo(ls + ms, t) == LinksTo(ls, t) + LinksTo(ms, t)
  {
    if ls == [] {
      assert ls + ms == ms;
    } else {
      LinksConcat(ls[1..], ms, t);
      var first := if ls[0].target == t then [ls[0]] else [];
      assert LinksTo(ls + ms, t) == first + LinksTo(ls[1..] + ms, t) by {
        assert (ls + ms)[1..] == ls[1..] + ms;
      }
    }
  }

  lemma {:induction false} LinksElsewhere(ls: seq<Link>, id: Id, t: Id, mode: FilterMode, b: Id)
    requires b != t
    ensures LinksTo(PatchLinks(ls, id, t, mode), b) == LinksTo(ls, b)
    ensures LinksTo(RemoveLink(ls, id, t), b) == LinksTo(ls, b)
  {
    if ls != [] {
      LinksElsewhere(ls[1..], id, t, mode, b);
      assert ls[0].id == id && ls[0].target == t ==> [] + RemoveLink(ls[1..], id, t) == RemoveLink(ls[1..], id, t);
    }
  }

  lemma {:induction false} LinkMembers(ls: seq<Link>, t: Id, l: Link)
    ensures l in LinksTo(ls, t) <==> l in ls && l.target == t
  {
    if ls != [] {
      LinkMembers(ls[1..], t, l);
      assert ls == [ls[0]] + ls[1..];
    }
  }

  /** Every row of the patched table is a row of the old one up to its mode. */
  lemma {:induction false} PatchLinksMembers(ls: seq<Link>, id: Id, t: Id, mode: FilterMode)
    ensures |PatchLinks(ls, id, t, mode)| == |ls|
    ensures forall i :: 0 <= i < |ls| ==> PatchLinks(ls, id, t, mode)[i].(mode := ls[i].mode) == ls[i]
  {
    if ls != [] {
      PatchLinksMembers(ls[1..], id, t, mode);
    }
  }

  lemma {:induction false} RemoveLinkMembers(ls: seq<Link>, id: Id, t: Id, l: Link)
    ensures l in RemoveLink(ls, id, t) <==> l in ls && !(l.id == id && l.target == t)
  {
    if ls != [] {
      RemoveLinkMembers(ls[1..], id, t, l);
      assert ls == [ls[0]] + ls[1..];
    }
  }

  /** Each link's category exists and belongs to its source budget, and link ids are unique. */
  ghost predicate Integrity(db: Database) {
    && (forall l :: l in db.links ==>
          FindCategory(db.categories, l.categoryID).Some? && FindCategory(db.categories, l.categoryID).value.budgetID == l.source)
    && (forall l, m :: l in db.links && m in db.links && l.id == m.id ==> l == m)
  }

  /** An expense write in budget s can only change summaries of s and of the budgets that link it. */
  lemma ExpenseWriteFrame(db: Database, es: seq<Expense>, s: Id, b: Id)
    requires forall x :: x != s ==> ExpensesOf(es, x) == ExpensesOf(db.expenses, x)
    requires b != s && b !in Targets(db.links, s)
    ensures SameView(db, db.(expenses := es), b)
  {
    forall l | l in LinksTo(db.links, b) ensures ExpensesOf(es, l.source) == ExpensesOf(db.expenses, l.source) {
      LinkMembers(db.links, b, l);
    }
  }

  /** So can a category write, because links only use categories of their source budget. */
  lemma CategoryWriteFrame(db: Database, cs: seq<Category>, s: Id, b: Id)
    requires Integrity(db)
    requires forall x :: x != s ==> CategoriesOf(cs, x) == CategoriesOf(db.categories, x)
    requires forall c :: FindCategory(db.categories, c).Some? && FindCategory(db.categories, c).value.budgetID != s ==>
               FindCategory(cs, c) == FindCategory(db.categories, c)
    requires b != s && b !in Targets(db.links, s)
    ensures SameView(db, db.(categories := cs), b)
  {
    forall l | l in LinksTo(db.links, b) ensures FindCategory(cs, l.categoryID) == FindCategory(db.categories, l.categoryID) {
      LinkMembers(db.links, b, l);
    }
  }
}
