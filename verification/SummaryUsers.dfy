/** The top-level breakdown of a summary in terms of the expense table alone: whom it lists, and with what. */
module SummaryUsers {
  import opened Wrappers
  import opened Calendar
  import opened Models
  import opened Billing
  import opened Spending
  import opened SummaryTables
  import opened SummaryMeaning
  import InsertionSort

  // ---------- Reference sums ----------

  /** What a user spent through those links that show the viewer's own expenses only. */
  function MineSpent(db: Database, ls: seq<Link>, viewer: Id, today: Date, u: Id): int
    requires Valid(today)
  {
    if ls == [] then 0
    else (if ls[0].mode == Mine then LinkSpent(db, ls[0], viewer, today, Some(u)) else 0) + MineSpent(db, ls[1..], viewer, today, u)
  }

  function MineCount(db: Database, ls: seq<Link>, viewer: Id, today: Date, u: Id): nat
    requires Valid(today)
  {
    if ls == [] then 0
    else (if ls[0].mode == Mine then LinkCount(db, ls[0], viewer, today, Some(u)) else 0) + MineCount(db, ls[1..], viewer, today, u)
  }

  /** The user has an expense in the budget's period, or one that such a link shows. */
  predicate Credited(db: Database, b: Budget, ls: seq<Link>, viewer: Id, today: Date, u: Id)
    requires Valid(today)
  {
    CountIn(db.expenses, b, today, None, Some(u)) > 0 || MineCount(db, ls, viewer, today, u) > 0
  }

  function Shares(db: Database, b: Budget, ls: seq<Link>, viewer: Id, today: Date): map<Id, int>
    requires Valid(today)
  {
    map u | u in Creators(db.expenses) && Credited(db, b, ls, viewer, today, u) ::
      SpentIn(db.expenses, b, today, None, Some(u)) + MineSpent(db, ls, viewer, today, u)
  }

  // ---------- Users and counts ----------

  ghost predicate Positive(rows: seq<Row>) { forall r :: r in rows && r.user.Some? ==> r.count >= 1 }

  /** Where every row of a user counts something, the users are those with a positive count. */
  lemma {:induction false} UsersCount(rows: seq<Row>, u: Id)
    requires Positive(rows)
    ensures u in Users(rows) <==> Count(rows, OfUser(u)) > 0
  {
    if rows != [] {
      var n := |rows| - 1;
      assert rows == rows[..n] + [rows[n]];
      UsersCount(rows[..n], u);
      UsersAppend(rows[..n], rows[n]);
    }
  }

  lemma {:induction false} OwnPositive(es: seq<Expense>, oneTime: bool, start: Date)
    ensures Positive(OwnRows(es, oneTime, start))
  {
    if es != [] {
      OwnPositive(es[1..], oneTime, start);
    }
  }

  lemma {:induction false} MatchingPositive(es: seq<Expense>, l: Link, start: Date, viewer: Id)
    ensures Positive(MatchingRows(es, l, start, viewer))
  {
    if es != [] {
      MatchingPositive(es[1..], l, start, viewer);
    }
  }

  lemma {:induction false} MergePositive(rows: seq<Row>, r: Row)
    requires Positive(rows) && Positive([r])
    ensures Positive(Merge(rows, r))
  {
    if rows != [] {
      var n := |rows| - 1;
      assert rows[n] in rows && r in [r];
      if !(rows[n].group == r.group && rows[n].user == r.user) {
        MergePositive(rows[..n], r);
      }
    }
  }

  lemma {:induction false} GroupByPositive(rows: seq<Row>)
    requires Positive(rows)
    ensures Positive(GroupBy(rows))
  {
    if rows != [] {
      hide Merge;
      var n := |rows| - 1;
      assert rows[n] in rows;
      GroupByPositive(rows[..n]);
      MergePositive(GroupBy(rows[..n]), rows[n]);
    }
  }

  lemma LinkPositive(db: Database, l: Link, viewer: Id, today: Date)
    requires Valid(today)
    ensures Positive(Plain(RowsOf(db, l, viewer, today)))
  {
    hide MatchingRows, GroupBy, Tagged, Plain, ExpensesOf, FindBudget, FindCategory, SqlPeriodStart;
    var source, category := FindBudget(db.budgets, l.source), FindCategory(db.categories, l.categoryID);
    if source.Some? && category.Some? {
      var start, es := SqlPeriodStart(today, source.value.cutoffDay, source.value.periodMonths), ExpensesOf(db.expenses, l.source);
      MatchingPositive(es, l, start, viewer);
      GroupByPositive(MatchingRows(es, l, start, viewer));
      TaggedPlain(LinkInfo(l, source.value, category.value), RowsOfLink(es, l, start, viewer));
    } else {
      NoPlain();
    }
  }

  lemma NoPlain()
    ensures Plain([]) == []
  {
  }

  // ---------- The rows of mine-only links ----------

  lemma {:induction false} MineOfOne(linked: seq<LinkedRow>, mode: FilterMode)
    requires forall r :: r in linked ==> r.info.link.mode == mode
    ensures MineOnly(linked) == if mode == Mine then Plain(linked) else []
  {
    if linked != [] {
      var n := |linked| - 1;
      assert linked[n] in linked && forall r :: r in linked[..n] ==> r in linked;
      MineOfOne(linked[..n], mode);
    }
  }

  lemma {:induction false} MineRows(db: Database, ls: seq<Link>, viewer: Id, today: Date, u: Id)
    requires Valid(today)
    ensures var mine := MineOnly(LinkedRows(db, ls, viewer, today));
            && Sum(mine, OfUser(u)) == MineSpent(db, ls, viewer, today, u)
            && (u in Users(mine) <==> MineCount(db, ls, viewer, today, u) > 0)
  {
    hide Sum, Count, RowsOf, LinkSpent, LinkCount, Users, MineOnly;
    if ls == [] {
      NoMine();
      SumAbsent([], OfUser(u));
    } else {
      var l := ls[0];
      var head, tail := RowsOf(db, l, viewer, today), LinkedRows(db, ls[1..], viewer, today);
      MineRows(db, ls[1..], viewer, today, u);
      RowsOfShape(db, l, viewer, today);
      MineOfOne(head, l.mode);
      PlainConcat(head, tail);
      SumConcat(MineOnly(head), MineOnly(tail), OfUser(u));
      UsersConcat(MineOnly(head), MineOnly(tail));
      RowsOfSum(db, l, viewer, today, Some(u));
      LinkPositive(db, l, viewer, today);
      UsersCount(Plain(head), u);
      NoMine();
      SumAbsent([], OfUser(u));
    }
  }

  lemma NoMine()
    ensures MineOnly([]) == [] && Users([]) == {}
  {
  }

  lemma UsersConcat(a: seq<Row>, b: seq<Row>)
    ensures Users(a + b) == Users(a) + Users(b)
  {
    assert forall r :: r in a + b <==> r in a || r in b;
    forall r | (r in a || r in b) && r.user.Some? ensures r.user.value in Users(a + b) {
      assert r in a + b;
    }
  }

  // ---------- The breakdown ----------

  lemma {:induction false} CreatorsCount(es: seq<Expense>, b: Budget, today: Date, u: Id)
    requires CountIn(es, b, today, None, Some(u)) > 0
    ensures u in Creators(es)
  {
    hide InPeriod;
    assert es == [es[0]] + es[1..];
    if es[0].createdBy == Some(u) {
      assert es[0] in es;
    } else {
      CreatorsCount(es[1..], b, today, u);
    }
  }

  lemma {:induction false} CreatorsLinked(es: seq<Expense>, l: Link, source: Budget, viewer: Id, today: Date, u: Id)
    requires Valid(today) && CountVia(es, l, source, viewer, today, Some(u)) > 0
    ensures u in Creators(es)
  {
    hide SqlPeriodStart;
    assert es == [es[0]] + es[1..];
    if es[0].createdBy == Some(u) {
      assert es[0] in es;
    } else {
      CreatorsLinked(es[1..], l, source, viewer, today, u);
    }
  }

  lemma {:induction false} CreatorsMine(db: Database, ls: seq<Link>, viewer: Id, today: Date, u: Id)
    requires Valid(today) && MineCount(db, ls, viewer, today, u) > 0
    ensures u in Creators(db.expenses)
  {
    hide CountVia, Creators;
    if ls[0].mode == Mine && LinkCount(db, ls[0], viewer, today, Some(u)) > 0 {
      CreatorsLinked(db.expenses, ls[0], FindBudget(db.budgets, ls[0].source).value, viewer, today, u);
    } else {
      CreatorsMine(db, ls[1..], viewer, today, u);
    }
  }

  lemma OwnShare(es: seq<Expense>, b: Budget, today: Date, u: Id)
    ensures var own := GroupBy(OwnRows(ExpensesOf(es, b.id), b.periodMonths == 0, OwnStart(b, today)));
            && Sum(own, OfUser(u)) == SpentIn(es, b, today, None, Some(u))
            && (u in Users(own) <==> CountIn(es, b, today, None, Some(u)) > 0)
  {
    var rows := OwnRows(ExpensesOf(es, b.id), b.periodMonths == 0, OwnStart(b, today));
    OwnRowsSum(es, b, today, None, Some(u));
    OwnPositive(ExpensesOf(es, b.id), b.periodMonths == 0, OwnStart(b, today));
    hide OwnRows, ExpensesOf, OwnStart, Sum, Count, GroupBy, Users;
    GroupByKeeps(rows, OfUser(u));
    SameCells(GroupBy(rows), rows);
    UsersCount(rows, u);
  }

  /** The top-level breakdown lists, from two of them on, exactly the users with an expense of their own in the
      period or one behind a mine-only link, each with the sum of both; links that show everybody's expenses
      add nobody to it. */
  lemma SummaryByUser(db: Database, b: Id, viewer: Id, today: Date)
    requires Valid(today) && ComputeSummary(db, b, viewer, today).Some?
    ensures var s := ComputeSummary(db, b, viewer, today).value;
            var m := Shares(db, s.budget, LinksTo(db.links, b), viewer, today);
            s.byUser == if |m| >= 2 then Some(m) else None
  {
    FoundId(db.budgets, b);
    var row, ls := FindBudget(db.budgets, b).value, LinksTo(db.links, b);
    var own := GroupBy(OwnRows(ExpensesOf(db.expenses, b), row.periodMonths == 0, OwnStart(row, today)));
    var linked := LinkedRows(db, ls, viewer, today);
    hide OwnRows, LinkedRows, Sum, Count, GroupBy, CategoryViews, LinkViews, OwnStart, InsertionSort.Sorted, Users, MineOnly,
         CountIn, SpentIn, MineCount, MineSpent, Creators, ByUser, Categories;
    assert ComputeSummary(db, b, viewer, today).value.byUser == Breakdown(ByUser(own + MineOnly(linked)));
    hide ComputeSummary, FindBudget, LinksTo;
    forall u: Id
      ensures (u in Users(own + MineOnly(linked)) <==> u in Creators(db.expenses) && Credited(db, row, ls, viewer, today, u))
              && Sum(own + MineOnly(linked), OfUser(u)) ==
                 SpentIn(db.expenses, row, today, None, Some(u)) + MineSpent(db, ls, viewer, today, u) {
      OwnShare(db.expenses, row, today, u);
      MineRows(db, ls, viewer, today, u);
      UsersConcat(own, MineOnly(linked));
      SumConcat(own, MineOnly(linked), OfUser(u));
      if CountIn(db.expenses, row, today, None, Some(u)) > 0 {
        CreatorsCount(db.expenses, row, today, u);
      } else if MineCount(db, ls, viewer, today, u) > 0 {
        CreatorsMine(db, ls, viewer, today, u);
      }
    }
    SharesAre(own + MineOnly(linked), db, row, ls, viewer, today);
  }

  lemma SharesAre(rows: seq<Row>, db: Database, b: Budget, ls: seq<Link>, viewer: Id, today: Date)
    requires Valid(today)
    requires forall u :: u in Users(rows) <==> u in Creators(db.expenses) && Credited(db, b, ls, viewer, today, u)
    requires forall u :: Sum(rows, OfUser(u)) == SpentIn(db.expenses, b, today, None, Some(u)) + MineSpent(db, ls, viewer, today, u)
    ensures ByUser(rows) == Shares(db, b, ls, viewer, today)
  {
    hide Users, Creators, Credited, Sum, SpentIn, MineSpent;
  }
}
