/** The amounts of a summary in terms of the expense table alone: which expenses each of them counts. */
module SummaryMeaning {
  import opened Wrappers
  import opened Calendar
  import opened Models
  import opened Billing
  import opened Spending
  import opened SummaryTables
  import InsertionSort

  // ---------- Reference sums ----------

  predicate By(e: Expense, user: Option<Id>) { user.None? || e.createdBy == user }

  /** A recurring budget counts from the start of its current period on, a one-time budget counts everything. */
  predicate InPeriod(date: Date, b: Budget, today: Date) {
    if b.periodMonths == 0 then true
    else if b.periodMonths < 0 then !Before(date, Date(1, 1, 1))
    else !Before(date, ComputeBillingPeriodStart(today, b.cutoffDay, b.periodMonths))
  }

  lemma PeriodStarts(date: Date, b: Budget, today: Date)
    ensures InPeriod(date, b, today) <==> b.periodMonths == 0 || !Before(date, OwnStart(b, today))
  {
    hide ComputeBillingPeriodStart, Before;
  }

  /** The expenses of budget b in its current period, of one category or of all, by one user or by all. */
  predicate Counts(e: Expense, b: Budget, today: Date, category: Option<Id>, user: Option<Id>) {
    && e.budgetID == b.id && InPeriod(e.date, b, today)
    && (category.None? || category.value == e.categoryID) && By(e, user)
  }

  function SpentIn(es: seq<Expense>, b: Budget, today: Date, category: Option<Id>, user: Option<Id>): int {
    if es == [] then 0
    else (if Counts(es[0], b, today, category, user) then es[0].amount else 0) + SpentIn(es[1..], b, today, category, user)
  }

  function CountIn(es: seq<Expense>, b: Budget, today: Date, category: Option<Id>, user: Option<Id>): nat {
    if es == [] then 0
    else (if Counts(es[0], b, today, category, user) then 1 else 0) + CountIn(es[1..], b, today, category, user)
  }

  /** What each user spent in a category: every user with an expense there is listed. */
  function SpentByUser(es: seq<Expense>, b: Budget, today: Date, category: Id): map<Id, int> {
    map u | u in Spenders(es, b, today, category) :: SpentIn(es, b, today, Some(category), Some(u))
  }

  function Spenders(es: seq<Expense>, b: Budget, today: Date, category: Id): set<Id> {
    set e | e in es && Counts(e, b, today, Some(category), None) && e.createdBy.Some? :: e.createdBy.value
  }

  /** The expenses that a link shows to a viewer. */
  predicate Linked(e: Expense, l: Link, source: Budget, viewer: Id, today: Date, user: Option<Id>)
    requires Valid(today)
  {
    && e.budgetID == l.source && e.categoryID == l.categoryID
    && !Before(e.date, SqlPeriodStart(today, source.cutoffDay, source.periodMonths))
    && (l.mode.All? || e.createdBy == Some(viewer)) && By(e, user)
  }

  function SpentVia(es: seq<Expense>, l: Link, source: Budget, viewer: Id, today: Date, user: Option<Id>): int
    requires Valid(today)
  {
    if es == [] then 0
    else (if Linked(es[0], l, source, viewer, today, user) then es[0].amount else 0)
         + SpentVia(es[1..], l, source, viewer, today, user)
  }

  function CountVia(es: seq<Expense>, l: Link, source: Budget, viewer: Id, today: Date, user: Option<Id>): nat
    requires Valid(today)
  {
    if es == [] then 0
    else (if Linked(es[0], l, source, viewer, today, user) then 1 else 0) + CountVia(es[1..], l, source, viewer, today, user)
  }

  /** What one link contributes: nothing if its source budget or category is gone. */
  function LinkSpent(db: Database, l: Link, viewer: Id, today: Date, user: Option<Id>): int
    requires Valid(today)
  {
    var source := FindBudget(db.budgets, l.source);
    if source.None? || FindCategory(db.categories, l.categoryID).None? then 0
    else SpentVia(db.expenses, l, source.value, viewer, today, user)
  }

  function LinkCount(db: Database, l: Link, viewer: Id, today: Date, user: Option<Id>): nat
    requires Valid(today)
  {
    var source := FindBudget(db.budgets, l.source);
    if source.None? || FindCategory(db.categories, l.categoryID).None? then 0
    else CountVia(db.expenses, l, source.value, viewer, today, user)
  }

  function Creators(es: seq<Expense>): set<Id> { set e | e in es && e.createdBy.Some? :: e.createdBy.value }

  /** What each user spent through a link: users whose amounts cancel out are not listed. */
  function LinkByUser(db: Database, l: Link, viewer: Id, today: Date): map<Id, int>
    requires Valid(today)
  {
    map u | u in Creators(db.expenses) && LinkSpent(db, l, viewer, today, Some(u)) != 0 :: LinkSpent(db, l, viewer, today, Some(u))
  }

  function LinksSpent(db: Database, ls: seq<Link>, viewer: Id, today: Date): int
    requires Valid(today)
  {
    if ls == [] then 0 else LinkSpent(db, ls[0], viewer, today, None) + LinksSpent(db, ls[1..], viewer, today)
  }

  // ---------- The own rows ----------

  lemma SumOne(r: Row, sel: Sel)
    ensures Sum([r], sel) == (if Picks(sel, r) then r.amount else 0) && Count([r], sel) == (if Picks(sel, r) then r.count else 0)
  {
    assert [r][..0] == [] && Sum([], sel) == 0;
  }

  function Chosen(group: Option<Id>, user: Option<Id>): Sel {
    match (group, user)
    case (None, None) => Any
    case (Some(g), None) => OfGroup(g)
    case (None, Some(u)) => OfUser(u)
    case (Some(g), Some(u)) => OfCell(g, u)
  }

  lemma {:induction false} OwnRowsSum(es: seq<Expense>, b: Budget, today: Date, category: Option<Id>, user: Option<Id>)
    ensures var rows := OwnRows(ExpensesOf(es, b.id), b.periodMonths == 0, OwnStart(b, today));
            && Sum(rows, Chosen(category, user)) == SpentIn(es, b, today, category, user)
            && Count(rows, Chosen(category, user)) == CountIn(es, b, today, category, user)
  {
    hide OwnStart, Sum, Count, InPeriod;
    if es == [] {
      SumAbsent([], Chosen(category, user));
    } else {
      PeriodStarts(es[0].date, b, today);
      var start, oneTime := OwnStart(b, today), b.periodMonths == 0;
      var rest := ExpensesOf(es[1..], b.id);
      OwnRowsSum(es[1..], b, today, category, user);
      if es[0].budgetID == b.id {
        assert ExpensesOf(es, b.id) == [es[0]] + rest && ([es[0]] + rest)[1..] == rest;
        var row := Row(es[0].categoryID, es[0].createdBy, es[0].amount, 1);
        SumOne(row, Chosen(category, user));
        SumConcat([row], OwnRows(rest, oneTime, start), Chosen(category, user));
        assert [] + OwnRows(rest, oneTime, start) == OwnRows(rest, oneTime, start);
      } else {
        assert ExpensesOf(es, b.id) == rest;
      }
    }
  }

  lemma {:induction false} OwnRowsUsers(es: seq<Expense>, b: Budget, today: Date, category: Id)
    ensures GroupUsers(OwnRows(ExpensesOf(es, b.id), b.periodMonths == 0, OwnStart(b, today)), category) ==
            Spenders(es, b, today, category)
  {
    hide OwnStart, GroupUsers, Spenders, InPeriod;
    if es == [] {
      NobodySpent(b, today, category);
    } else {
      PeriodStarts(es[0].date, b, today);
      var start, oneTime := OwnStart(b, today), b.periodMonths == 0;
      var rest := ExpensesOf(es[1..], b.id);
      OwnRowsUsers(es[1..], b, today, category);
      SpendersStep(es, b, today, category);
      if es[0].budgetID == b.id {
        assert ExpensesOf(es, b.id) == [es[0]] + rest && ([es[0]] + rest)[1..] == rest;
        GroupUsersPrepend(Row(es[0].categoryID, es[0].createdBy, es[0].amount, 1), OwnRows(rest, oneTime, start), category);
        assert [] + OwnRows(rest, oneTime, start) == OwnRows(rest, oneTime, start);
      } else {
        assert ExpensesOf(es, b.id) == rest;
      }
    }
  }

  lemma NobodySpent(b: Budget, today: Date, category: Id)
    ensures Spenders([], b, today, category) == {} && GroupUsers([], category) == {}
  {
  }

  lemma SpendersStep(es: seq<Expense>, b: Budget, today: Date, category: Id)
    requires es != []
    ensures Spenders(es, b, today, category) ==
            Spenders(es[1..], b, today, category)
            + (if Counts(es[0], b, today, Some(category), None) && es[0].createdBy.Some? then {es[0].createdBy.value} else {})
  {
    hide InPeriod;
    assert es == [es[0]] + es[1..];
  }

  lemma GroupUsersPrepend(r: Row, rows: seq<Row>, g: Id)
    ensures GroupUsers([r] + rows, g) == GroupUsers(rows, g) + (if r.group == g && r.user.Some? then {r.user.value} else {})
  {
    assert forall x :: x in [r] + rows <==> x == r || x in rows;
    assert r in [r] + rows;
  }

  // ---------- The linked rows ----------

  lemma {:induction false} MatchingSum(es: seq<Expense>, l: Link, source: Budget, viewer: Id, today: Date, user: Option<Id>)
    requires Valid(today)
    ensures var rows := MatchingRows(ExpensesOf(es, l.source), l, SqlPeriodStart(today, source.cutoffDay, source.periodMonths), viewer);
            && Sum(rows, Chosen(None, user)) == SpentVia(es, l, source, viewer, today, user)
            && Count(rows, Chosen(None, user)) == CountVia(es, l, source, viewer, today, user)
  {
    hide SqlPeriodStart, Sum, Count;
    if es == [] {
      SumAbsent([], Chosen(None, user));
    } else {
      var start := SqlPeriodStart(today, source.cutoffDay, source.periodMonths);
      var rest := ExpensesOf(es[1..], l.source);
      MatchingSum(es[1..], l, source, viewer, today, user);
      if es[0].budgetID == l.source {
        assert ExpensesOf(es, l.source) == [es[0]] + rest && ([es[0]] + rest)[1..] == rest;
        var row := Row(l.id, es[0].createdBy, es[0].amount, 1);
        SumOne(row, Chosen(None, user));
        SumConcat([row], MatchingRows(rest, l, start, viewer), Chosen(None, user));
        assert [] + MatchingRows(rest, l, start, viewer) == MatchingRows(rest, l, start, viewer);
      } else {
        assert ExpensesOf(es, l.source) == rest;
      }
    }
  }

  lemma {:induction false} TaggedPlain(info: LinkInfo, rows: seq<Row>)
    ensures Plain(Tagged(info, rows)) == rows
  {
    if rows != [] {
      TaggedPlain(info, rows[1..]);
      PlainConcat([LinkedRow(info, rows[0])], Tagged(info, rows[1..]));
      PlainOne(LinkedRow(info, rows[0]));
      assert rows == [rows[0]] + rows[1..];
    }
  }

  lemma RowsOfSum(db: Database, l: Link, viewer: Id, today: Date, user: Option<Id>)
    requires Valid(today)
    ensures Sum(Plain(RowsOf(db, l, viewer, today)), Chosen(None, user)) == LinkSpent(db, l, viewer, today, user)
    ensures Count(Plain(RowsOf(db, l, viewer, today)), Chosen(None, user)) == LinkCount(db, l, viewer, today, user)
  {
    var source, category := FindBudget(db.budgets, l.source), FindCategory(db.categories, l.categoryID);
    SumAbsent([], Chosen(None, user));
    if source.Some? && category.Some? {
      var start := SqlPeriodStart(today, source.value.cutoffDay, source.value.periodMonths);
      var rows := MatchingRows(ExpensesOf(db.expenses, l.source), l, start, viewer);
      MatchingSum(db.expenses, l, source.value, viewer, today, user);
      GroupByKeeps(rows, Chosen(None, user));
      SumOne(Row(l.id, None, 0, 0), Chosen(None, user));
      hide Sum, Count, MatchingRows, GroupBy, SqlPeriodStart, Plain, Tagged, ExpensesOf;
      TaggedPlain(LinkInfo(l, source.value, category.value), RowsOfLink(ExpensesOf(db.expenses, l.source), l, start, viewer));
    }
  }

  lemma {:induction false} LinkedRowsSum(db: Database, ls: seq<Link>, viewer: Id, today: Date)
    requires Valid(today)
    ensures Sum(Plain(LinkedRows(db, ls, viewer, today)), Any) == LinksSpent(db, ls, viewer, today)
  {
    hide Sum, Count, RowsOf, LinkSpent, LinkCount;
    if ls == [] {
      SumAbsent([], Any);
    } else {
      hide Plain;
      var head, tail := RowsOf(db, ls[0], viewer, today), LinkedRows(db, ls[1..], viewer, today);
      LinkedRowsSum(db, ls[1..], viewer, today);
      RowsOfSum(db, ls[0], viewer, today, None);
      PlainConcat(head, tail);
      SumConcat(Plain(head), Plain(tail), Any);
    }
  }

  // ---------- What the summary says ----------

  lemma {:induction false} FoundId(bs: seq<Budget>, id: Id)
    requires FindBudget(bs, id).Some?
    ensures FindBudget(bs, id).value.id == id && FindBudget(bs, id).value in bs
  {
    if bs[0].id != id {
      FoundId(bs[1..], id);
    }
  }

  /** A summary carries the budget's own row, and its budget total is that row's income: no link adds to it. */
  lemma SummaryHead(db: Database, b: Id, viewer: Id, today: Date)
    requires Valid(today) && ComputeSummary(db, b, viewer, today).Some?
    ensures var s := ComputeSummary(db, b, viewer, today).value;
            s.budget in db.budgets && s.budget.id == b && s.totalBudget == s.budget.income
  {
    hide OwnRows, LinkedRows, GroupBy, CategoryViews, LinkViews, Aggregate, OwnStart;
    FoundId(db.budgets, b);
  }

  /** The total counts every own expense of the period once and, for every link to the budget, every
      expense that the link shows to the viewer. */
  lemma TotalCounts(db: Database, b: Id, viewer: Id, today: Date)
    requires Valid(today) && ComputeSummary(db, b, viewer, today).Some?
    ensures var s := ComputeSummary(db, b, viewer, today).value;
            s.totalSpent == SpentIn(db.expenses, s.budget, today, None, None) + LinksSpent(db, LinksTo(db.links, b), viewer, today)
  {
    FoundId(db.budgets, b);
    var row := FindBudget(db.budgets, b).value;
    var own := OwnRows(ExpensesOf(db.expenses, b), row.periodMonths == 0, OwnStart(row, today));
    OwnRowsSum(db.expenses, row, today, None, None);
    LinkedRowsSum(db, LinksTo(db.links, b), viewer, today);
    GroupByKeeps(own, Any);
    hide OwnRows, LinkedRows, Sum, GroupBy, CategoryViews, LinkViews, Categories, ByUser, Users, OwnStart;
  }

  /** What the summary shows for one category. */
  ghost predicate Shows(v: CategoryView, c: Category, own: seq<Row>) {
    && v.category == c && v.spent == Sum(own, OfGroup(c.id)) && v.count == Count(own, OfGroup(c.id))
    && v.byUser == Breakdown(GroupByUser(own, c.id))
  }

  lemma {:induction false} ViewOfCategory(cats: seq<Category>, own: seq<Row>, linked: seq<LinkedRow>, i: nat)
    requires i < |cats|
    ensures |CategoryViews(cats, Aggregate(own, linked))| == |cats|
    ensures Shows(CategoryViews(cats, Aggregate(own, linked))[i], cats[i], own)
  {
    hide Sum, Count, GroupByUser;
    if i > 0 {
      ViewOfCategory(cats[1..], own, linked, i - 1);
    } else {
      if |cats| > 1 {
        ViewOfCategory(cats[1..], own, linked, 0);
      }
      if cats[0].id !in Groups(own) {
        NoUsers(own, cats[0].id);
      }
    }
  }

  lemma SameByUser(own: seq<Row>, es: seq<Expense>, b: Budget, today: Date, category: Id)
    requires GroupUsers(own, category) == Spenders(es, b, today, category)
    requires forall u :: Sum(own, OfCell(category, u)) == SpentIn(es, b, today, Some(category), Some(u))
    ensures GroupByUser(own, category) == SpentByUser(es, b, today, category)
  {
    hide Sum, SpentIn, GroupUsers, Spenders;
  }

  /** Every category of the budget is shown, in order of its sort key, with exactly its expenses of the
      period: their sum, their number and, from two users on, the sum of each user. */
  lemma CategoriesCount(db: Database, b: Id, viewer: Id, today: Date, i: nat)
    requires Valid(today) && ComputeSummary(db, b, viewer, today).Some?
    requires i < |CategoriesOf(db.categories, b)|
    ensures var s := ComputeSummary(db, b, viewer, today).value;
            && |s.categories| == |CategoriesOf(db.categories, b)|
            && var c := InsertionSort.Sorted(CategoriesOf(db.categories, b), SortsBefore)[i];
            && s.categories[i].category == c
            && s.categories[i].spent == SpentIn(db.expenses, s.budget, today, Some(c.id), None)
            && s.categories[i].count == CountIn(db.expenses, s.budget, today, Some(c.id), None)
            && var m := SpentByUser(db.expenses, s.budget, today, c.id);
            && s.categories[i].byUser == if |m| >= 2 then Some(m) else None
  {
    FoundId(db.budgets, b);
    var row := FindBudget(db.budgets, b).value;
    var rows := OwnRows(ExpensesOf(db.expenses, b), row.periodMonths == 0, OwnStart(row, today));
    var own := GroupBy(rows);
    var linked := LinkedRows(db, LinksTo(db.links, b), viewer, today);
    var cats := InsertionSort.Sorted(CategoriesOf(db.categories, b), SortsBefore);
    var c := cats[i].id;
    ViewOfCategory(cats, own, linked, i);
    OwnRowsSum(db.expenses, row, today, Some(c), None);
    GroupByKeeps(rows, OfGroup(c));
    OwnRowsUsers(db.expenses, row, today, c);
    SameCells(own, rows);
    forall u ensures Sum(own, OfCell(c, u)) == SpentIn(db.expenses, row, today, Some(c), Some(u)) {
      OwnRowsSum(db.expenses, row, today, Some(c), Some(u));
      GroupByKeeps(rows, OfCell(c, u));
    }
    hide OwnRows, LinkedRows, Sum, Count, GroupBy, CategoryViews, LinkViews, Aggregate, OwnStart, InsertionSort.Sorted,
         GroupUsers, Spenders, SpentIn, CountIn, Cells, SpentByUser, GroupByUser;
    SameByUser(own, db.expenses, row, today, c);
  }

  function Shown(views: seq<CategoryView>): seq<Category> { seq(|views|, i requires 0 <= i < |views| => views[i].category) }

  /** The categories with a given sort order. */
  function WithOrder(cs: seq<Category>, k: int): seq<Category> {
    if cs == [] then []
    else WithOrder(cs[..|cs| - 1], k) + (if cs[|cs| - 1].sortOrder == k then [cs[|cs| - 1]] else [])
  }

  function Only(c: Category, k: int): seq<Category> { if c.sortOrder == k then [c] else [] }

  lemma WithOrderAppend(cs: seq<Category>, c: Category, k: int)
    ensures WithOrder(cs + [c], k) == WithOrder(cs, k) + Only(c, k)
  {
    assert (cs + [c])[..|cs|] == cs;
  }

  lemma OneEmpty(a: seq<Category>, x: seq<Category>, y: seq<Category>)
    requires x == [] || y == []
    ensures a + x + y == a + y + x
  {
  }

  lemma {:induction false} InsertIsStable(cs: seq<Category>, c: Category, k: int)
    ensures WithOrder(InsertionSort.Insert(cs, c, SortsBefore), k) == WithOrder(cs, k) + Only(c, k)
  {
    hide WithOrder;
    var n := |cs| - 1;
    if cs != [] && SortsBefore(c, cs[n]) {
      var front := InsertionSort.Insert(cs[..n], c, SortsBefore);
      InsertIsStable(cs[..n], c, k);
      WithOrderAppend(front, cs[n], k);
      WithOrderAppend(cs[..n], cs[n], k);
      OneEmpty(WithOrder(cs[..n], k), Only(c, k), Only(cs[n], k));
      assert cs == cs[..n] + [cs[n]];
    } else {
      WithOrderAppend(cs, c, k);
    }
  }

  lemma {:induction false} SortIsStable(cs: seq<Category>, k: int)
    ensures WithOrder(InsertionSort.Sorted(cs, SortsBefore), k) == WithOrder(cs, k)
  {
    if cs != [] {
      hide InsertionSort.Insert;
      var n := |cs| - 1;
      var front := InsertionSort.Sorted(cs[..n], SortsBefore);
      SortIsStable(cs[..n], k);
      InsertIsStable(front, cs[n], k);
      WithOrderAppend(front, cs[n], k);
    }
  }

  /** The categories shown are those of the budget, each once, by ascending sort order, and in the order of the
      table where that is the same. */
  lemma CategoriesInOrder(db: Database, b: Id, viewer: Id, today: Date)
    requires Valid(today) && ComputeSummary(db, b, viewer, today).Some?
    ensures var shown := Shown(ComputeSummary(db, b, viewer, today).value.categories);
            && multiset(shown) == multiset(CategoriesOf(db.categories, b))
            && (forall i, j :: 0 <= i < j < |shown| ==> shown[i].sortOrder <= shown[j].sortOrder)
            && forall k :: WithOrder(shown, k) == WithOrder(CategoriesOf(db.categories, b), k)
  {
    var row := FindBudget(db.budgets, b).value;
    var own := GroupBy(OwnRows(ExpensesOf(db.expenses, b), row.periodMonths == 0, OwnStart(row, today)));
    var linked := LinkedRows(db, LinksTo(db.links, b), viewer, today);
    var cats := InsertionSort.Sorted(CategoriesOf(db.categories, b), SortsBefore);
    hide OwnRows, LinkedRows, GroupBy, CategoryViews, LinkViews, Aggregate, OwnStart, InsertionSort.Sorted, Shows;
    InsertionSort.SortedIsSort(CategoriesOf(db.categories, b), SortsBefore);
    var shown := Shown(CategoryViews(cats, Aggregate(own, linked)));
    ShownAre(cats, own, linked);
    assert shown == cats;
    forall k ensures WithOrder(cats, k) == WithOrder(CategoriesOf(db.categories, b), k) {
      SortIsStable(CategoriesOf(db.categories, b), k);
    }
  }

  lemma {:induction false} ShownAre(cats: seq<Category>, own: seq<Row>, linked: seq<LinkedRow>)
    ensures Shown(CategoryViews(cats, Aggregate(own, linked))) == cats
  {
    hide Aggregate;
    if cats != [] {
      ShownAre(cats[1..], own, linked);
      var views := CategoryViews(cats, Aggregate(own, linked));
      assert views[1..] == CategoryViews(cats[1..], Aggregate(own, linked));
      assert Shown(views) == [views[0].category] + Shown(views[1..]);
    }
  }

  // ---------- Which links are shown ----------

  lemma {:induction false} TaggedMember(info: LinkInfo, rows: seq<Row>, r: LinkedRow)
    ensures r in Tagged(info, rows) <==> r.info == info && r.row in rows
  {
    if rows != [] {
      TaggedMember(info, rows[1..], r);
      assert rows == [rows[0]] + rows[1..];
    }
  }

  lemma {:induction false} MatchingGroups(es: seq<Expense>, l: Link, start: Date, viewer: Id)
    ensures forall r :: r in MatchingRows(es, l, start, viewer) ==> r.group == l.id
  {
    if es != [] {
      MatchingGroups(es[1..], l, start, viewer);
    }
  }

  lemma RowsOfLinkGroups(es: seq<Expense>, l: Link, start: Date, viewer: Id)
    ensures RowsOfLink(es, l, start, viewer) != []
    ensures forall r :: r in RowsOfLink(es, l, start, viewer) ==> r.group == l.id
  {
    hide MatchingRows, GroupBy;
    var rows := MatchingRows(es, l, start, viewer);
    MatchingGroups(es, l, start, viewer);
    GroupByKeeps(rows, Any);
    forall r | r in GroupBy(rows) ensures r.group == l.id {
      assert (r.group, r.user) in Cells(GroupBy(rows));
    }
  }

  ghost predicate FromLink(db: Database, r: LinkedRow) {
    && r.row.group == r.info.link.id
    && FindBudget(db.budgets, r.info.link.source) == Some(r.info.source)
    && FindCategory(db.categories, r.info.link.categoryID) == Some(r.info.category)
  }

  lemma RowsOfShape(db: Database, l: Link, viewer: Id, today: Date)
    requires Valid(today)
    ensures forall r :: r in RowsOf(db, l, viewer, today) ==> r.info.link == l && FromLink(db, r)
    ensures FindBudget(db.budgets, l.source).Some? && FindCategory(db.categories, l.categoryID).Some? ==>
            RowsOf(db, l, viewer, today) != []
  {
    hide RowsOfLink, ExpensesOf, FindCategory, FindBudget, Tagged;
    var source, category := FindBudget(db.budgets, l.source), FindCategory(db.categories, l.categoryID);
    if source.Some? && category.Some? {
      var start := SqlPeriodStart(today, source.value.cutoffDay, source.value.periodMonths);
      var rows := RowsOfLink(ExpensesOf(db.expenses, l.source), l, start, viewer);
      RowsOfLinkGroups(ExpensesOf(db.expenses, l.source), l, start, viewer);
      var info := LinkInfo(l, source.value, category.value);
      forall r ensures r in Tagged(info, rows) <==> r.info == info && r.row in rows {
        TaggedMember(info, rows, r);
      }
      assert LinkedRow(info, rows[0]) in Tagged(info, rows);
    }
  }

  lemma {:induction false} LinkedRowsShape(db: Database, links: seq<Link>, viewer: Id, today: Date, l: Link)
    requires Valid(today)
    ensures forall r :: r in LinkedRows(db, links, viewer, today) ==> r.info.link in links && FromLink(db, r)
    ensures l in links && FindBudget(db.budgets, l.source).Some? && FindCategory(db.categories, l.categoryID).Some? ==>
            exists r :: r in LinkedRows(db, links, viewer, today) && r.info.link == l
  {
    hide RowsOf, FindBudget, FindCategory, FromLink;
    if links != [] {
      var head, tail := RowsOf(db, links[0], viewer, today), LinkedRows(db, links[1..], viewer, today);
      RowsOfShape(db, links[0], viewer, today);
      LinkedRowsShape(db, links[1..], viewer, today, l);
      assert links == [links[0]] + links[1..];
      if l == links[0] && head != [] {
        assert head[0] in head + tail;
      }
    }
  }

  lemma {:induction false} FirstRowFound(linked: seq<LinkedRow>, id: Id)
    ensures FirstRow(linked, id).Some? ==> exists r :: r in linked && r.row.group == id && r.info == FirstRow(linked, id).value
    ensures forall r :: r in linked && r.row.group == id ==> FirstRow(linked, id).Some?
  {
    if linked != [] {
      var front, last := linked[..|linked| - 1], linked[|linked| - 1];
      FirstRowFound(front, id);
      assert linked == front + [last];
    }
  }

  lemma LinkViewsStep(linked: seq<LinkedRow>, order: seq<Id>) returns (head: seq<LinkView>)
    requires order != []
    ensures LinkViews(linked, order) == head + LinkViews(linked, order[1..])
    ensures FirstRow(linked, order[0]).None? ==> head == []
    ensures FirstRow(linked, order[0]).Some? ==> |head| == 1 && Some(head[0].info) == FirstRow(linked, order[0])
  {
    hide FirstRow, Sum, Count, GroupByUser;
    var a := Assembled(linked, order[0]);
    head := if a.None? then [] else [LinkView(a.value.info, a.value.totalSpent, a.value.count, Breakdown(a.value.byUser))];
  }

  lemma {:induction false} ViewOfLink(linked: seq<LinkedRow>, order: seq<Id>, id: Id)
    requires id in order && FirstRow(linked, id).Some?
    ensures exists v :: v in LinkViews(linked, order) && v.info == FirstRow(linked, id).value
  {
    hide FirstRow, Assembled, LinkViews;
    var head := LinkViewsStep(linked, order);
    if id == order[0] {
      assert head[0] in head + LinkViews(linked, order[1..]);
    } else {
      assert order == [order[0]] + order[1..];
      ViewOfLink(linked, order[1..], id);
      var v :| v in LinkViews(linked, order[1..]) && v.info == FirstRow(linked, id).value;
      assert v in LinkViews(linked, order);
    }
  }

  lemma {:induction false} LinkOfView(linked: seq<LinkedRow>, order: seq<Id>, v: LinkView)
    requires v in LinkViews(linked, order)
    ensures exists x :: FirstRow(linked, x) == Some(v.info)
  {
    hide FirstRow, Assembled;
    assert order != [];
    hide LinkViews;
    var head := LinkViewsStep(linked, order);
    if v in head {
      assert FirstRow(linked, order[0]) == Some(v.info);
    } else {
      LinkOfView(linked, order[1..], v);
    }
  }

  /** A summary shows each of its links beside the row of that link's source budget, and nothing else. */
  lemma LinksShowSources(db: Database, t: Id, viewer: Id, today: Date, l: Link)
    requires Valid(today) && Integrity(db) && ComputeSummary(db, t, viewer, today).Some?
    requires l in db.links && l.target == t && FindBudget(db.budgets, l.source).Some?
    ensures var views := ComputeSummary(db, t, viewer, today).value.linked;
            && (exists v :: v in views && v.info.link == l)
            && (forall v :: v in views ==> FindBudget(db.budgets, v.info.link.source) == Some(v.info.source))
  {
    hide LinkedRows, LinkViews, Aggregate, GroupBy, CategoryViews, FirstRow, FindBudget, FindCategory;
    var links := LinksTo(db.links, t);
    var linked := LinkedRows(db, links, viewer, today);
    var views := LinkViews(linked, LinkOrder(linked));
    assert ComputeSummary(db, t, viewer, today).value.linked == views;
    LinkMembers(db.links, t, l);
    LinkedRowsShape(db, links, viewer, today, l);
    forall v | v in views ensures FindBudget(db.budgets, v.info.link.source) == Some(v.info.source) {
      LinkOfView(linked, LinkOrder(linked), v);
      var x :| FirstRow(linked, x) == Some(v.info);
      FirstRowFound(linked, x);
    }
    FirstRowFound(linked, l.id);
    OrderIsFirstRows(linked, l.id);
    ViewOfLink(linked, LinkOrder(linked), l.id);
    var r :| r in linked && r.row.group == l.id && r.info == FirstRow(linked, l.id).value;
    LinkMembers(db.links, t, r.info.link);
    assert r.info.link == l;
  }

  lemma {:induction false} GroupSum(rows: seq<Row>, g: Id, id: Id, user: Option<Id>)
    requires forall r :: r in rows ==> r.group == g
    ensures Sum(rows, Chosen(Some(id), user)) == if id == g then Sum(rows, Chosen(None, user)) else 0
    ensures Count(rows, Chosen(Some(id), user)) == if id == g then Count(rows, Chosen(None, user)) else 0
    decreases |rows|
  {
    if rows != [] {
      var n := |rows| - 1;
      assert rows[n] in rows && forall r :: r in rows[..n] ==> r in rows;
      GroupSum(rows[..n], g, id, user);
    }
  }

  lemma {:induction false} PlainMember(linked: seq<LinkedRow>, r: Row)
    ensures r in Plain(linked) ==> exists l :: l in linked && l.row == r
  {
    if r in Plain(linked) {
      var i :| 0 <= i < |Plain(linked)| && Plain(linked)[i] == r;
      assert linked[i] in linked && linked[i].row == r;
    }
  }

  lemma RowsOfGroup(db: Database, l: Link, viewer: Id, today: Date, id: Id, user: Option<Id>)
    requires Valid(today)
    ensures var rows := Plain(RowsOf(db, l, viewer, today));
            && Sum(rows, Chosen(Some(id), user)) == (if id == l.id then LinkSpent(db, l, viewer, today, user) else 0)
            && Count(rows, Chosen(Some(id), user)) == (if id == l.id then LinkCount(db, l, viewer, today, user) else 0)
  {
    var linked := RowsOf(db, l, viewer, today);
    RowsOfShape(db, l, viewer, today);
    RowsOfSum(db, l, viewer, today, user);
    hide RowsOf, LinkSpent, LinkCount, Plain, Sum, Count;
    forall r | r in Plain(linked) ensures r.group == l.id {
      PlainMember(linked, r);
    }
    GroupSum(Plain(linked), l.id, id, user);
  }

  ghost predicate DistinctIds(ls: seq<Link>) { forall i, j :: 0 <= i < j < |ls| ==> ls[i].id != ls[j].id }

  lemma {:induction false} NoSuchGroup(db: Database, ls: seq<Link>, viewer: Id, today: Date, id: Id, user: Option<Id>)
    requires Valid(today) && forall i :: 0 <= i < |ls| ==> ls[i].id != id
    ensures Sum(Plain(LinkedRows(db, ls, viewer, today)), Chosen(Some(id), user)) == 0
    ensures Count(Plain(LinkedRows(db, ls, viewer, today)), Chosen(Some(id), user)) == 0
  {
    if ls == [] {
      SumAbsent([], Chosen(Some(id), user));
    } else {
      hide Sum, Count, RowsOf, LinkSpent, LinkCount, Plain;
      var head, tail := RowsOf(db, ls[0], viewer, today), LinkedRows(db, ls[1..], viewer, today);
      NoSuchGroup(db, ls[1..], viewer, today, id, user);
      RowsOfGroup(db, ls[0], viewer, today, id, user);
      PlainConcat(head, tail);
      SumConcat(Plain(head), Plain(tail), Chosen(Some(id), user));
    }
  }

  lemma {:induction false} GroupOfLink(db: Database, ls: seq<Link>, viewer: Id, today: Date, l: Link, user: Option<Id>)
    requires Valid(today) && DistinctIds(ls) && l in ls
    ensures var rows := Plain(LinkedRows(db, ls, viewer, today));
            && Sum(rows, Chosen(Some(l.id), user)) == LinkSpent(db, l, viewer, today, user)
            && Count(rows, Chosen(Some(l.id), user)) == LinkCount(db, l, viewer, today, user)
  {
    hide Sum, Count, RowsOf, LinkSpent, LinkCount, Plain, Chosen;
    var head, tail := RowsOf(db, ls[0], viewer, today), LinkedRows(db, ls[1..], viewer, today);
    assert LinkedRows(db, ls, viewer, today) == head + tail;
    hide LinkedRows;
    RowsOfGroup(db, ls[0], viewer, today, l.id, user);
    PlainConcat(head, tail);
    SumConcat(Plain(head), Plain(tail), Chosen(Some(l.id), user));
    OthersDiffer(ls);
    if l == ls[0] {
      NoSuchGroup(db, ls[1..], viewer, today, l.id, user);
    } else {
      assert ls == [ls[0]] + ls[1..];
      GroupOfLink(db, ls[1..], viewer, today, l, user);
      var i :| 0 <= i < |ls[1..]| && ls[1..][i] == l;
    }
  }

  lemma OthersDiffer(ls: seq<Link>)
    requires DistinctIds(ls) && ls != []
    ensures DistinctIds(ls[1..]) && forall i :: 0 <= i < |ls[1..]| ==> ls[1..][i].id != ls[0].id
  {
  }

  lemma {:induction false} LinksToDistinct(ls: seq<Link>, t: Id)
    requires DistinctIds(ls)
    ensures DistinctIds(LinksTo(ls, t))
  {
    if ls != [] {
      var rest := LinksTo(ls[1..], t);
      LinksToDistinct(ls[1..], t);
      forall i | 0 <= i < |rest| ensures rest[i].id != ls[0].id {
        LinkMembers(ls[1..], t, rest[i]);
        var j :| 0 <= j < |ls[1..]| && ls[1..][j] == rest[i];
        assert ls[j + 1] == rest[i];
      }
    }
  }

  // ---------- The breakdown of a link ----------

  lemma {:induction false} RowsMember(db: Database, ls: seq<Link>, viewer: Id, today: Date, r: LinkedRow)
    requires Valid(today) && r in LinkedRows(db, ls, viewer, today)
    ensures r in RowsOf(db, r.info.link, viewer, today)
  {
    hide RowsOf;
    RowsOfShape(db, ls[0], viewer, today);
    if r !in RowsOf(db, ls[0], viewer, today) {
      RowsMember(db, ls[1..], viewer, today, r);
    }
  }

  /** The rows of a link are grouped, so the row of a user has all that the user spent through it. */
  lemma RowAmount(db: Database, l: Link, viewer: Id, today: Date, r: LinkedRow, u: Id)
    requires Valid(today) && r in RowsOf(db, l, viewer, today) && r.row.user == Some(u)
    ensures r.row.amount == LinkSpent(db, l, viewer, today, Some(u))
  {
    hide Sum, Count, MatchingRows, GroupBy, Tagged, ExpensesOf, FindBudget, FindCategory, SqlPeriodStart, SpentVia, CountVia;
    var source, category := FindBudget(db.budgets, l.source).value, FindCategory(db.categories, l.categoryID).value;
    var start := SqlPeriodStart(today, source.cutoffDay, source.periodMonths);
    var es := ExpensesOf(db.expenses, l.source);
    var rows := MatchingRows(es, l, start, viewer);
    TaggedMember(LinkInfo(l, source, category), RowsOfLink(es, l, start, viewer), r);
    assert r.row in GroupBy(rows);
    RowsOfLinkGroups(es, l, start, viewer);
    GroupByUnique(rows);
    UniqueAmount(GroupBy(rows), r.row, u);
    GroupByKeeps(rows, OfCell(l.id, u));
    MatchingGroups(es, l, start, viewer);
    GroupSum(rows, l.id, l.id, Some(u));
    MatchingSum(db.expenses, l, source, viewer, today, Some(u));
  }

  lemma LinkUsers(db: Database, ls: seq<Link>, viewer: Id, today: Date, l: Link, u: Id)
    requires Valid(today) && DistinctIds(ls) && l in ls
    ensures u in GroupUsers(Nonzero(Plain(LinkedRows(db, ls, viewer, today))), l.id) <==>
            LinkSpent(db, l, viewer, today, Some(u)) != 0
  {
    hide Sum, Count, LinkedRows, LinkSpent, LinkCount, Plain, Nonzero;
    var linked := LinkedRows(db, ls, viewer, today);
    var rows := Plain(linked);
    if u in GroupUsers(Nonzero(rows), l.id) {
      var row :| row in Nonzero(rows) && row.group == l.id && row.user == Some(u);
      NonzeroRows(rows, row);
      PlainMember(linked, row);
      var r :| r in linked && r.row == row;
      LinkedRowsShape(db, ls, viewer, today, l);
      assert r.info.link == l;
      RowsMember(db, ls, viewer, today, r);
      RowAmount(db, l, viewer, today, r, u);
    } else {
      GroupOfLink(db, ls, viewer, today, l, Some(u));
      NonzeroSum(rows, OfCell(l.id, u));
      NoCell(Nonzero(rows), l.id, u);
    }
  }

  lemma {:induction false} NotACreator(es: seq<Expense>, l: Link, source: Budget, viewer: Id, today: Date, u: Id)
    requires Valid(today) && u !in Creators(es)
    ensures SpentVia(es, l, source, viewer, today, Some(u)) == 0
  {
    hide SqlPeriodStart;
    if es != [] {
      assert es[0] in es && forall e :: e in es[1..] ==> e in es;
      NotACreator(es[1..], l, source, viewer, today, u);
    }
  }

  lemma LinkBreakdown(db: Database, ls: seq<Link>, viewer: Id, today: Date, l: Link)
    requires Valid(today) && DistinctIds(ls) && l in ls
    ensures GroupByUser(Nonzero(Plain(LinkedRows(db, ls, viewer, today))), l.id) == LinkByUser(db, l, viewer, today)
  {
    var rows := Plain(LinkedRows(db, ls, viewer, today));
    forall u: Id
      ensures u in GroupUsers(Nonzero(rows), l.id) <==> u in Creators(db.expenses) && LinkSpent(db, l, viewer, today, Some(u)) != 0
    {
      LinkUsers(db, ls, viewer, today, l, u);
      var source := FindBudget(db.budgets, l.source);
      if u !in Creators(db.expenses) && source.Some? {
        hide GroupUsers, Nonzero, LinkedRows, Plain;
        NotACreator(db.expenses, l, source.value, viewer, today, u);
      }
    }
    forall u: Id ensures Sum(Nonzero(rows), OfCell(l.id, u)) == LinkSpent(db, l, viewer, today, Some(u)) {
      NonzeroSum(rows, OfCell(l.id, u));
      GroupOfLink(db, ls, viewer, today, l, Some(u));
    }
    hide Sum, LinkedRows, LinkSpent, Plain, Nonzero, Creators, GroupUsers;
  }

  ghost predicate ShowsLink(v: LinkView, linked: seq<LinkedRow>, x: Id) {
    && FirstRow(linked, x) == Some(v.info) && v.spent == Sum(Plain(linked), OfGroup(x))
    && v.count == Count(Plain(linked), OfGroup(x)) && v.byUser == Breakdown(GroupByUser(Nonzero(Plain(linked)), x))
  }

  lemma {:induction false} SpentOfView(linked: seq<LinkedRow>, order: seq<Id>, v: LinkView)
    requires v in LinkViews(linked, order)
    ensures exists x :: ShowsLink(v, linked, x)
  {
    hide FirstRow, Sum, Count, GroupByUser, Nonzero;
    assert order != [];
    var a, rest := Assembled(linked, order[0]), LinkViews(linked, order[1..]);
    if v in rest {
      hide LinkViews, Assembled;
      SpentOfView(linked, order[1..], v);
    } else {
      assert a.Some?;
      assert ShowsLink(v, linked, order[0]);
    }
  }

  /** Every link shown is one to the budget, with exactly the expenses it lets the viewer see: their sum,
      their number and, from two users on, the sum of each user. */
  lemma LinksCount(db: Database, b: Id, viewer: Id, today: Date, v: LinkView)
    requires Valid(today) && ComputeSummary(db, b, viewer, today).Some? && DistinctIds(db.links)
    requires v in ComputeSummary(db, b, viewer, today).value.linked
    ensures var l := v.info.link;
            && l in LinksTo(db.links, b)
            && v.spent == LinkSpent(db, l, viewer, today, None) && v.count == LinkCount(db, l, viewer, today, None)
            && var m := LinkByUser(db, l, viewer, today);
            && v.byUser == if |m| >= 2 then Some(m) else None
  {
    var links := LinksTo(db.links, b);
    var linked := LinkedRows(db, links, viewer, today);
    assert ComputeSummary(db, b, viewer, today).value.linked == LinkViews(linked, LinkOrder(linked)) by {
      hide LinkedRows, LinkViews, Aggregate, GroupBy, CategoryViews, OwnRows;
    }
    hide ComputeSummary, LinkViews, FirstRow, Sum, Count, LinkSpent, LinkCount, LinkByUser, GroupByUser, Plain, Nonzero, LinkedRows;
    SpentOfView(linked, LinkOrder(linked), v);
    var x :| ShowsLink(v, linked, x);
    FirstRowFound(linked, x);
    LinkedRowsShape(db, links, viewer, today, v.info.link);
    LinksToDistinct(db.links, b);
    GroupOfLink(db, links, viewer, today, v.info.link, None);
    LinkBreakdown(db, links, viewer, today, v.info.link);
  }

  // ---------- The total is what is shown ----------

  function ShownSpent(views: seq<CategoryView>): int { if views == [] then 0 else views[0].spent + ShownSpent(views[1..]) }

  function ShownLinkSpent(views: seq<LinkView>): int { if views == [] then 0 else views[0].spent + ShownLinkSpent(views[1..]) }

  ghost predicate DistinctCategories(cs: seq<Category>) { forall i, j :: 0 <= i < j < |cs| ==> cs[i].id != cs[j].id }

  function CategoryIds(cs: seq<Category>): set<Id> { set c | c in cs :: c.id }

  lemma {:induction false} CategoryViewsTotal(cats: seq<Category>, own: seq<Row>, linked: seq<LinkedRow>)
    requires DistinctCategories(cats)
    ensures ShownSpent(CategoryViews(cats, Aggregate(own, linked))) == Sum(own, InGroups(CategoryIds(cats)))
  {
    hide Sum, Count, GroupByUser;
    if cats == [] {
      SumAbsent(own, InGroups({}));
      assert CategoryIds(cats) == {};
    } else {
      CategoryViewsTotal(cats[1..], own, linked);
      ViewOfCategory(cats, own, linked, 0);
      assert cats == [cats[0]] + cats[1..];
      assert CategoryIds(cats) - {cats[0].id} == CategoryIds(cats[1..]);
      SumSplit(own, CategoryIds(cats), cats[0].id);
      assert CategoryViews(cats, Aggregate(own, linked))[1..] == CategoryViews(cats[1..], Aggregate(own, linked));
    }
  }

  lemma {:induction false} LinkViewsTotal(linked: seq<LinkedRow>, order: seq<Id>)
    requires Distinct(order)
    ensures ShownLinkSpent(LinkViews(linked, order)) == Sum(Plain(linked), InGroups(Members(order)))
  {
    hide Sum, Count, GroupByUser, FirstRow, Plain, Nonzero;
    if order == [] {
      SumAbsent(Plain(linked), InGroups({}));
      assert Members(order) == {};
    } else {
      LinkViewsTotal(linked, order[1..]);
      assert order == [order[0]] + order[1..];
      assert Members(order) - {order[0]} == Members(order[1..]);
      SumSplit(Plain(linked), Members(order), order[0]);
      if Assembled(linked, order[0]).None? {
        FirstRowNone(linked, order[0]);
        NoUsers(Plain(linked), order[0]);
      } else {
        assert LinkViews(linked, order)[1..] == LinkViews(linked, order[1..]);
      }
    }
  }

  lemma {:induction false} OwnGroups(es: seq<Expense>, oneTime: bool, start: Date, g: Id)
    requires g in Groups(OwnRows(es, oneTime, start))
    ensures exists e :: e in es && e.categoryID == g
  {
    var rows := OwnRows(es[1..], oneTime, start);
    assert es == [es[0]] + es[1..];
    if es[0].categoryID != g {
      var r :| r in OwnRows(es, oneTime, start) && r.group == g;
      assert r in rows;
      OwnGroups(es[1..], oneTime, start, g);
    }
  }

  lemma {:induction false} ExpenseMember(es: seq<Expense>, b: Id, e: Expense)
    ensures e in ExpensesOf(es, b) <==> e in es && e.budgetID == b
  {
    if es != [] {
      ExpenseMember(es[1..], b, e);
      assert es == [es[0]] + es[1..];
    }
  }

  lemma {:induction false} FoundCategory(cs: seq<Category>, id: Id)
    requires FindCategory(cs, id).Some?
    ensures FindCategory(cs, id).value.id == id && FindCategory(cs, id).value in cs
  {
    if cs[0].id != id {
      FoundCategory(cs[1..], id);
    }
  }

  lemma {:induction false} CategoryMember(cs: seq<Category>, b: Id, c: Category)
    ensures c in CategoriesOf(cs, b) <==> c in cs && c.budgetID == b
  {
    if cs != [] {
      CategoryMember(cs[1..], b, c);
      assert cs == [cs[0]] + cs[1..];
    }
  }

  lemma {:induction false} CategoriesOfDistinct(cs: seq<Category>, b: Id)
    requires DistinctCategories(cs)
    ensures DistinctCategories(CategoriesOf(cs, b))
  {
    if cs != [] {
      var rest := CategoriesOf(cs[1..], b);
      CategoriesOfDistinct(cs[1..], b);
      forall i | 0 <= i < |rest| ensures rest[i].id != cs[0].id {
        CategoryMember(cs[1..], b, rest[i]);
        var j :| 0 <= j < |cs[1..]| && cs[1..][j] == rest[i];
        assert cs[j + 1] == rest[i];
      }
    }
  }

  lemma {:induction false} OccursOnce(cs: seq<Category>, c: Category)
    requires DistinctCategories(cs)
    ensures multiset(cs)[c] <= 1
  {
    if cs != [] {
      OccursOnce(cs[1..], c);
      assert cs == [cs[0]] + cs[1..];
      assert cs[0] !in cs[1..];
    }
  }

  lemma OccursTwice(cs: seq<Category>, i: nat, j: nat)
    requires i < j < |cs| && cs[i] == cs[j]
    ensures multiset(cs)[cs[i]] >= 2
  {
    assert cs == cs[..j] + cs[j..] && cs[i] in cs[..j] && cs[j] in cs[j..];
  }

  lemma DistinctPermuted(cs: seq<Category>, ds: seq<Category>)
    requires DistinctCategories(cs) && multiset(cs) == multiset(ds)
    ensures DistinctCategories(ds) && CategoryIds(cs) == CategoryIds(ds)
  {
    assert forall c :: c in cs <==> c in multiset(cs);
    assert forall c :: c in ds <==> c in multiset(ds);
    forall i, j | 0 <= i < j < |ds| ensures ds[i].id != ds[j].id {
      OccursOnce(cs, ds[i]);
      assert ds[i] in cs && ds[j] in cs;
      if ds[i] == ds[j] {
        OccursTwice(ds, i, j);
      }
    }
  }

  /** The total is the sum of the amounts shown beside the categories and the links: no expense falls
      through and none counts twice. */
  lemma TotalIsShown(db: Database, b: Id, viewer: Id, today: Date)
    requires Valid(today) && ComputeSummary(db, b, viewer, today).Some? && DistinctCategories(db.categories)
    requires forall e :: e in db.expenses ==> FindCategory(db.categories, e.categoryID).Some?
                                              && FindCategory(db.categories, e.categoryID).value.budgetID == e.budgetID
    ensures var s := ComputeSummary(db, b, viewer, today).value;
            s.totalSpent == ShownSpent(s.categories) + ShownLinkSpent(s.linked)
  {
    FoundId(db.budgets, b);
    var row := FindBudget(db.budgets, b).value;
    var rows := OwnRows(ExpensesOf(db.expenses, b), row.periodMonths == 0, OwnStart(row, today));
    var own, linked := GroupBy(rows), LinkedRows(db, LinksTo(db.links, b), viewer, today);
    var mine := CategoriesOf(db.categories, b);
    var cats := InsertionSort.Sorted(mine, SortsBefore);
    hide OwnRows, LinkedRows, Sum, Count, GroupBy, CategoryViews, LinkViews, OwnStart, InsertionSort.Sorted, Categories, ByUser, Users;
    InsertionSort.SortedIsSort(mine, SortsBefore);
    CategoriesOfDistinct(db.categories, b);
    DistinctPermuted(mine, cats);
    CategoryViewsTotal(cats, own, linked);
    LinkOrderDistinct(linked);
    LinkViewsTotal(linked, LinkOrder(linked));
    SumAll(Plain(linked), Members(LinkOrder(linked)));
    OwnInCategories(db, b, row.periodMonths == 0, OwnStart(row, today));
    GroupByKeeps(rows, Any);
    SameCells(own, rows);
    SumAll(own, CategoryIds(cats));
  }

  lemma OwnInCategories(db: Database, b: Id, oneTime: bool, start: Date)
    requires forall e :: e in db.expenses ==> FindCategory(db.categories, e.categoryID).Some?
                                              && FindCategory(db.categories, e.categoryID).value.budgetID == e.budgetID
    ensures Groups(OwnRows(ExpensesOf(db.expenses, b), oneTime, start)) <= CategoryIds(CategoriesOf(db.categories, b))
  {
    hide OwnRows, Groups, FindCategory, CategoriesOf, ExpensesOf;
    forall g | g in Groups(OwnRows(ExpensesOf(db.expenses, b), oneTime, start))
      ensures g in CategoryIds(CategoriesOf(db.categories, b))
    {
      OwnGroups(ExpensesOf(db.expenses, b), oneTime, start, g);
      var e :| e in ExpensesOf(db.expenses, b) && e.categoryID == g;
      ExpenseMember(db.expenses, b, e);
      FoundCategory(db.categories, g);
      CategoryMember(db.categories, b, FindCategory(db.categories, g).value);
    }
  }

  // ---------- The order of the links ----------

  /** The links whose source budget and category exist. */
  function Resolved(db: Database, ls: seq<Link>): seq<Link> {
    if ls == [] then []
    else
      var n := |ls| - 1;
      Resolved(db, ls[..n])
      + (if FindBudget(db.budgets, ls[n].source).Some? && FindCategory(db.categories, ls[n].categoryID).Some? then [ls[n]] else [])
  }

  function IdsOf(ls: seq<Link>): seq<Id> { seq(|ls|, i requires 0 <= i < |ls| => ls[i].id) }

  lemma {:induction false} LinkedRowsSplit(db: Database, ls: seq<Link>, viewer: Id, today: Date)
    requires Valid(today) && ls != []
    ensures var n := |ls| - 1;
            LinkedRows(db, ls, viewer, today) == LinkedRows(db, ls[..n], viewer, today) + RowsOf(db, ls[n], viewer, today)
  {
    hide RowsOf;
    var n := |ls| - 1;
    if n > 0 {
      LinkedRowsSplit(db, ls[1..], viewer, today);
      assert ls[1..][..n - 1] == ls[..n][1..];
    }
  }

  /** Rows of one further link add that link at the end. */
  lemma {:induction false} OrderGrows(linked: seq<LinkedRow>, more: seq<LinkedRow>, id: Id)
    requires (forall r :: r in more ==> r.row.group == id) && id !in LinkOrder(linked)
    ensures LinkOrder(linked + more) == LinkOrder(linked) + (if more == [] then [] else [id])
    decreases |more|
  {
    if more == [] {
      assert linked + more == linked;
    } else {
      var n := |more| - 1;
      assert (linked + more)[..|linked + more| - 1] == linked + more[..n];
      assert more[n] in more && forall r :: r in more[..n] ==> r in more;
      OrderGrows(linked, more[..n], id);
    }
  }

  lemma {:induction false} OrderIsTableOrder(db: Database, ls: seq<Link>, viewer: Id, today: Date)
    requires Valid(today) && DistinctIds(ls)
    ensures LinkOrder(LinkedRows(db, ls, viewer, today)) == IdsOf(Resolved(db, ls))
    ensures forall l :: l in Resolved(db, ls) ==> l in ls
  {
    hide RowsOf, FindBudget, FindCategory;
    if ls != [] {
      hide LinkedRows, LinkOrder;
      var n := |ls| - 1;
      var l, front := ls[n], LinkedRows(db, ls[..n], viewer, today);
      OrderIsTableOrder(db, ls[..n], viewer, today);
      LinkedRowsSplit(db, ls, viewer, today);
      RowsOfShape(db, l, viewer, today);
      if FindBudget(db.budgets, l.source).None? || FindCategory(db.categories, l.categoryID).None? {
        NoRowsUnresolved(db, l, viewer, today);
      }
      assert ls == ls[..n] + [l];
      var ids := IdsOf(Resolved(db, ls[..n]));
      forall i | 0 <= i < |ids| ensures ids[i] != l.id {
        assert Resolved(db, ls[..n])[i] in ls[..n];
      }
      OrderGrows(front, RowsOf(db, l, viewer, today), l.id);
      assert IdsOf(Resolved(db, ls[..n]) + [l]) == ids + [l.id];
      assert Resolved(db, ls[..n]) + [] == Resolved(db, ls[..n]) && ids + [] == ids;
    } else {
      NoOrder();
    }
  }

  lemma NoOrder()
    ensures LinkOrder([]) == []
  {
  }

  lemma NoRowsUnresolved(db: Database, l: Link, viewer: Id, today: Date)
    requires Valid(today)
    requires FindBudget(db.budgets, l.source).None? || FindCategory(db.categories, l.categoryID).None?
    ensures RowsOf(db, l, viewer, today) == []
  {
  }

  lemma {:induction false} ViewsAre(linked: seq<LinkedRow>, order: seq<Id>)
    requires forall id :: id in order ==> FirstRow(linked, id).Some?
    ensures |LinkViews(linked, order)| == |order|
    ensures forall i :: 0 <= i < |order| ==> Some(LinkViews(linked, order)[i].info) == FirstRow(linked, order[i])
  {
    hide FirstRow, Assembled;
    if order != [] {
      hide LinkViews;
      assert order == [order[0]] + order[1..];
      ViewsAre(linked, order[1..]);
      var head := LinkViewsStep(linked, order);
      var views, rest := LinkViews(linked, order), LinkViews(linked, order[1..]);
      forall i | 0 <= i < |order| ensures Some(views[i].info) == FirstRow(linked, order[i]) {
        if i > 0 {
          assert views[i] == rest[i - 1] && order[i] == order[1..][i - 1];
        }
      }
    } else {
      assert LinkViews(linked, order) == [];
    }
  }

  /** The links shown are exactly the budget's links with an existing source and category, in the order of the
      table, each beside the rows it leads to. */
  lemma LinksInOrder(db: Database, b: Id, viewer: Id, today: Date)
    requires Valid(today) && ComputeSummary(db, b, viewer, today).Some? && DistinctIds(db.links)
    ensures var views, links := ComputeSummary(db, b, viewer, today).value.linked, Resolved(db, LinksTo(db.links, b));
            && |views| == |links|
            && forall i :: 0 <= i < |views| ==>
                 && views[i].info.link == links[i]
                 && FindBudget(db.budgets, links[i].source) == Some(views[i].info.source)
                 && FindCategory(db.categories, links[i].categoryID) == Some(views[i].info.category)
  {
    var ls := LinksTo(db.links, b);
    var linked := LinkedRows(db, ls, viewer, today);
    var order := LinkOrder(linked);
    assert ComputeSummary(db, b, viewer, today).value.linked == LinkViews(linked, order) by {
      hide LinkedRows, LinkViews, Aggregate, GroupBy, CategoryViews, OwnRows;
    }
    hide ComputeSummary, LinkViews, FirstRow, LinkedRows, FindBudget, FindCategory, LinkOrder, LinksTo;
    LinksToDistinct(db.links, b);
    OrderIsTableOrder(db, ls, viewer, today);
    forall id | id in order ensures FirstRow(linked, id).Some? {
      OrderIsFirstRows(linked, id);
    }
    ViewsAre(linked, order);
    var links, views := Resolved(db, ls), LinkViews(linked, order);
    forall i | 0 <= i < |views|
      ensures views[i].info.link == links[i] && FindBudget(db.budgets, links[i].source) == Some(views[i].info.source)
              && FindCategory(db.categories, links[i].categoryID) == Some(views[i].info.category) {
      FirstRowFound(linked, order[i]);
      assert links[i] in ls && order[i] == links[i].id;
      LinkedRowsShape(db, ls, viewer, today, links[i]);
      var r :| r in linked && r.row.group == order[i] && r.info == FirstRow(linked, order[i]).value;
      assert r.info.link in ls && r.info.link.id == links[i].id;
    }
  }
}
