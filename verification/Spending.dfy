/** How the summary handler rolls up expense rows: totals, per-category and per-link sums, and the
    per-user breakdowns. */
module Spending {
  import opened Wrappers
  import opened Models
  import opened InsertionSort

  /** One aggregate row: group is the category of an own row and the link of a linked row. */
  datatype Row = Row(group: Id, user: Option<Id>, amount: int, count: nat)

  datatype LinkedRow = LinkedRow(info: LinkInfo, row: Row)

  // ---------- Sums over selected rows ----------

  datatype Sel = Any | OfGroup(g: Id) | OfUser(u: Id) | OfCell(g: Id, u: Id) | InGroups(gs: set<Id>)

  predicate Picks(sel: Sel, r: Row) {
    match sel
    case Any => true
    case OfGroup(g) => r.group == g
    case OfUser(u) => r.user == Some(u)
    case OfCell(g, u) => r.group == g && r.user == Some(u)
    case InGroups(gs) => r.group in gs
  }

  function Sum(rows: seq<Row>, sel: Sel): int {
    if rows == [] then 0
    else Sum(rows[..|rows| - 1], sel) + (if Picks(sel, rows[|rows| - 1]) then rows[|rows| - 1].amount else 0)
  }

  function Count(rows: seq<Row>, sel: Sel): nat {
    if rows == [] then 0
    else Count(rows[..|rows| - 1], sel) + (if Picks(sel, rows[|rows| - 1]) then rows[|rows| - 1].count else 0)
  }

  function Groups(rows: seq<Row>): set<Id> { set r | r in rows :: r.group }

  function Users(rows: seq<Row>): set<Id> { set r | r in rows && r.user.Some? :: r.user.value }

  function GroupUsers(rows: seq<Row>, g: Id): set<Id> { set r | r in rows && r.group == g && r.user.Some? :: r.user.value }

  function ByUser(rows: seq<Row>): map<Id, int> { map u | u in Users(rows) :: Sum(rows, OfUser(u)) }

  function GroupByUser(rows: seq<Row>, g: Id): map<Id, int> { map u | u in GroupUsers(rows, g) :: Sum(rows, OfCell(g, u)) }

  function Plain(linked: seq<LinkedRow>): (rows: seq<Row>)
    ensures |rows| == |linked|
    ensures forall i :: 0 <= i < |rows| ==> rows[i] == linked[i].row
  {
    if linked == [] then [] else Plain(linked[..|linked| - 1]) + [linked[|linked| - 1].row]
  }

  /** The rows of filter_mode=mine links. */
  function MineOnly(linked: seq<LinkedRow>): seq<Row> {
    if linked == [] then []
    else MineOnly(linked[..|linked| - 1]) + MineShare(linked[|linked| - 1])
  }

  function MineShare(l: LinkedRow): seq<Row> {
    if l.info.link.mode.Mine? then [l.row] else []
  }

  // ---------- aggregateSummarySpending ----------

  datatype CategoryAgg = CategoryAgg(totalSpent: int, count: nat, byUser: map<Id, int>)

  datatype Aggregation = Aggregation(totalSpent: int, categories: map<Id, CategoryAgg>,
                                     budgetByUser: map<Id, int>, allUserIDs: set<Id>)

  function Categories(own: seq<Row>): map<Id, CategoryAgg> {
    map g | g in Groups(own) :: CategoryAgg(Sum(own, OfGroup(g)), Count(own, OfGroup(g)), GroupByUser(own, g))
  }

  /** What the roll-up must be, sum by sum. */
  function Aggregate(own: seq<Row>, linked: seq<LinkedRow>): Aggregation {
    Aggregation(Sum(own, Any) + Sum(Plain(linked), Any),
                Categories(own),
                ByUser(own + MineOnly(linked)),
                Users(own) + Users(Plain(linked)))
  }

  function Plus(m: map<Id, int>, u: Id, amount: int): map<Id, int> {
    m[u := (if u in m then m[u] else 0) + amount]
  }

  lemma SumAppend(rows: seq<Row>, r: Row, sel: Sel)
    ensures Sum(rows + [r], sel) == Sum(rows, sel) + (if Picks(sel, r) then r.amount else 0)
    ensures Count(rows + [r], sel) == Count(rows, sel) + (if Picks(sel, r) then r.count else 0)
  {
    assert (rows + [r])[..|rows|] == rows;
  }

  lemma {:induction false} SumAbsent(rows: seq<Row>, sel: Sel)
    requires forall r :: r in rows ==> !Picks(sel, r)
    ensures Sum(rows, sel) == 0 && Count(rows, sel) == 0
  {
    if rows != [] {
      SumAbsent(rows[..|rows| - 1], sel);
    }
  }

  lemma UsersAppend(rows: seq<Row>, r: Row)
    ensures Users(rows + [r]) == Users(rows) + (if r.user.Some? then {r.user.value} else {})
    ensures Groups(rows + [r]) == Groups(rows) + {r.group}
    ensures forall g :: GroupUsers(rows + [r], g) ==
                        GroupUsers(rows, g) + (if r.group == g && r.user.Some? then {r.user.value} else {})
  {
    assert forall x :: x in rows + [r] <==> x in rows || x == r;
    assert r in rows + [r];
  }

  lemma ByUserAppend(rows: seq<Row>, r: Row)
    ensures ByUser(rows + [r]) == if r.user.Some? then Plus(ByUser(rows), r.user.value, r.amount) else ByUser(rows)
  {
    hide Sum;
    UsersAppend(rows, r);
    forall u: Id ensures Sum(rows + [r], OfUser(u)) == Sum(rows, OfUser(u)) + (if r.user == Some(u) then r.amount else 0) {
      SumAppend(rows, r, OfUser(u));
    }
    if r.user.Some? && r.user.value !in Users(rows) {
      SumAbsent(rows, OfUser(r.user.value));
    }
  }

  lemma GroupUsersAppend(rows: seq<Row>, r: Row, g: Id)
    ensures GroupUsers(rows + [r], g) == GroupUsers(rows, g) + (if r.group == g && r.user.Some? then {r.user.value} else {})
  {
    UsersAppend(rows, r);
  }

  lemma GroupByUserAppend(rows: seq<Row>, r: Row, g: Id)
    ensures GroupByUser(rows + [r], g) ==
            if r.group == g && r.user.Some? then Plus(GroupByUser(rows, g), r.user.value, r.amount) else GroupByUser(rows, g)
  {
    hide Sum;
    GroupUsersAppend(rows, r, g);
    hide GroupUsers;
    forall u: Id ensures Sum(rows + [r], OfCell(g, u)) ==
                     Sum(rows, OfCell(g, u)) + (if r.group == g && r.user == Some(u) then r.amount else 0) {
      SumAppend(rows, r, OfCell(g, u));
    }
    if r.group == g && r.user.Some? && r.user.value !in GroupUsers(rows, g) {
      NoCell(rows, g, r.user.value);
    }
  }

  lemma NoCell(rows: seq<Row>, g: Id, u: Id)
    requires u !in GroupUsers(rows, g)
    ensures Sum(rows, OfCell(g, u)) == 0
  {
    assert forall r :: r in rows && r.group == g && r.user.Some? ==> r.user.value in GroupUsers(rows, g);
    SumAbsent(rows, OfCell(g, u));
  }

  /** The per-category bucket after one more row. */
  function BucketPlus(b: CategoryAgg, r: Row): CategoryAgg {
    CategoryAgg(b.totalSpent + r.amount, b.count + r.count,
                if r.user.Some? then Plus(b.byUser, r.user.value, r.amount) else b.byUser)
  }

  lemma CategoriesAppend(rows: seq<Row>, r: Row)
    ensures var b := if r.group in Categories(rows) then Categories(rows)[r.group] else CategoryAgg(0, 0, map[]);
            Categories(rows + [r]) == Categories(rows)[r.group := BucketPlus(b, r)]
  {
    hide Sum, Count, GroupByUser;
    UsersAppend(rows, r);
    forall g: Id ensures Sum(rows + [r], OfGroup(g)) == Sum(rows, OfGroup(g)) + (if r.group == g then r.amount else 0)
             ensures Count(rows + [r], OfGroup(g)) == Count(rows, OfGroup(g)) + (if r.group == g then r.count else 0) {
      SumAppend(rows, r, OfGroup(g));
    }
    forall g: Id ensures GroupByUser(rows + [r], g) ==
                     if r.group == g && r.user.Some? then Plus(GroupByUser(rows, g), r.user.value, r.amount) else GroupByUser(rows, g) {
      GroupByUserAppend(rows, r, g);
    }
    if r.group !in Groups(rows) {
      NoUsers(rows, r.group);
    }
  }

  lemma NoUsers(rows: seq<Row>, g: Id)
    requires g !in Groups(rows)
    ensures GroupByUser(rows, g) == map[] && Sum(rows, OfGroup(g)) == 0 && Count(rows, OfGroup(g)) == 0
  {
    hide Sum, Count;
    assert forall r :: r in rows ==> r.group in Groups(rows);
    SumAbsent(rows, OfGroup(g));
    assert GroupUsers(rows, g) == {};
  }

  method AggregateSummarySpending(own: seq<Row>, linked: seq<LinkedRow>) returns (agg: Aggregation)
    ensures agg == Aggregate(own, linked)
  {
    hide Sum, Categories, ByUser, Users;
    var total, categories := 0, map[];
    var byUser: map<Id, int>, all: set<Id> := map[], {};
    Empty();
    for i := 0 to |own|
      invariant total == Sum(own[..i], Any) && categories == Categories(own[..i])
      invariant byUser == ByUser(own[..i]) && all == Users(own[..i])
    {
      var row := own[i];
      OwnStep(own, i);
      var cat := if row.group in categories then categories[row.group] else CategoryAgg(0, 0, map[]);
      cat := CategoryAgg(cat.totalSpent + row.amount, cat.count + row.count, cat.byUser);
      total := total + row.amount;
      if row.user.Some? {
        cat := cat.(byUser := Plus(cat.byUser, row.user.value, row.amount));
        byUser := Plus(byUser, row.user.value, row.amount);
        all := all + {row.user.value};
      }
      categories := categories[row.group := cat];
    }
    assert own[..|own|] == own;
    ghost var ownTotal := total;
    assert linked[..0] == [] && own + [] == own;
    for i := 0 to |linked|
      invariant total == ownTotal + Sum(Plain(linked[..i]), Any)
      invariant byUser == ByUser(own + MineOnly(linked[..i]))
      invariant all == Users(own) + Users(Plain(linked[..i]))
    {
      var l := linked[i].row;
      LinkedStep(own, linked, i);
      total := total + l.amount;
      if l.user == None {
        continue;
      }
      var uid := l.user.value;
      all := all + {uid};
      if linked[i].info.link.mode.Mine? {
        byUser := Plus(byUser, uid, l.amount);
      }
    }
    assert linked[..|linked|] == linked;
    agg := Aggregation(total, categories, byUser, all);
  }

  lemma Empty()
    ensures Sum([], Any) == 0 && Categories([]) == map[] && ByUser([]) == map[] && Users([]) == {}
  {
  }

  lemma OwnStep(own: seq<Row>, i: nat)
    requires i < |own|
    ensures var row, before, after := own[i], own[..i], own[..i + 1];
            && Sum(after, Any) == Sum(before, Any) + row.amount
            && Users(after) == Users(before) + (if row.user.Some? then {row.user.value} else {})
            && ByUser(after) == (if row.user.Some? then Plus(ByUser(before), row.user.value, row.amount) else ByUser(before))
            && Categories(after) ==
               Categories(before)[row.group := BucketPlus(if row.group in Categories(before) then Categories(before)[row.group]
                                                          else CategoryAgg(0, 0, map[]), row)]
  {
    hide Sum, Categories, ByUser, Users;
    assert own[..i + 1] == own[..i] + [own[i]];
    SumAppend(own[..i], own[i], Any);
    CategoriesAppend(own[..i], own[i]);
    ByUserAppend(own[..i], own[i]);
    UsersAppend(own[..i], own[i]);
  }

  lemma LinkedStep(own: seq<Row>, linked: seq<LinkedRow>, i: nat)
    requires i < |linked|
    ensures var l, before, after := linked[i].row, linked[..i], linked[..i + 1];
            && Sum(Plain(after), Any) == Sum(Plain(before), Any) + l.amount
            && Users(Plain(after)) == Users(Plain(before)) + (if l.user.Some? then {l.user.value} else {})
            && ByUser(own + MineOnly(after)) ==
               if linked[i].info.link.mode.Mine? && l.user.Some? then Plus(ByUser(own + MineOnly(before)), l.user.value, l.amount)
               else ByUser(own + MineOnly(before))
  {
    hide Sum, ByUser, Users;
    var l, before, after := linked[i].row, linked[..i], linked[..i + 1];
    assert after[..i] == before;
    SumAppend(Plain(before), l, Any);
    UsersAppend(Plain(before), l);
    if linked[i].info.link.mode.Mine? {
      ByUserAppend(own + MineOnly(before), l);
      assert own + MineOnly(after) == own + MineOnly(before) + [l];
    } else {
      assert MineOnly(after) == MineOnly(before);
    }
  }

  // ---------- Conservation ----------

  /** The totals of some categories together. */
  ghost function CategoryTotals(categories: map<Id, CategoryAgg>, gs: set<Id>): int
    requires gs <= categories.Keys
  {
    if gs == {} then 0 else var g :| g in gs; categories[g].totalSpent + CategoryTotals(categories, gs - {g})
  }

  function LinkTotals(out: seq<LinkedSummary>): int {
    if out == [] then 0 else out[0].totalSpent + LinkTotals(out[1..])
  }

  ghost predicate Distinct<T>(s: seq<T>) { forall i, j :: 0 <= i < j < |s| ==> s[i] != s[j] }

  function Members<T>(s: seq<T>): set<T> { set x | x in s }

  lemma {:induction false} SumSplit(rows: seq<Row>, gs: set<Id>, g: Id)
    requires g in gs
    ensures Sum(rows, InGroups(gs)) == Sum(rows, OfGroup(g)) + Sum(rows, InGroups(gs - {g}))
  {
    if rows != [] {
      SumSplit(rows[..|rows| - 1], gs, g);
    }
  }

  lemma {:induction false} CategoryTotalsSum(own: seq<Row>, gs: set<Id>)
    requires gs <= Groups(own)
    ensures CategoryTotals(Categories(own), gs) == Sum(own, InGroups(gs))
  {
    if gs == {} {
      SumAbsent(own, InGroups(gs));
    } else {
      var categories := Categories(own);
      var g :| g in gs && CategoryTotals(categories, gs) == categories[g].totalSpent + CategoryTotals(categories, gs - {g});
      CategoryTotalsSum(own, gs - {g});
      SumSplit(own, gs, g);
    }
  }

  lemma {:induction false} LinkTotalsSum(linked: seq<LinkedRow>, order: seq<Id>, out: seq<LinkedSummary>)
    requires Distinct(order) && |out| == |order|
    requires forall i :: 0 <= i < |out| ==> Assembled(linked, order[i]) == Some(out[i])
    ensures LinkTotals(out) == Sum(Plain(linked), InGroups(Members(order)))
  {
    hide Sum, Count, FirstRow, GroupByUser;
    if order == [] {
      SumAbsent(Plain(linked), InGroups({}));
      assert Members(order) == {};
    } else {
      LinkTotalsSum(linked, order[1..], out[1..]);
      assert order == [order[0]] + order[1..];
      assert Members(order) - {order[0]} == Members(order[1..]);
      SumSplit(Plain(linked), Members(order), order[0]);
    }
  }

  lemma {:induction false} LinkOrderDistinct(linked: seq<LinkedRow>)
    ensures Distinct(LinkOrder(linked)) && Groups(Plain(linked)) <= Members(LinkOrder(linked))
  {
    if linked != [] {
      var n := |linked| - 1;
      LinkOrderDistinct(linked[..n]);
      UsersAppend(Plain(linked[..n]), linked[n].row);
    }
  }

  lemma {:induction false} SumAll(rows: seq<Row>, gs: set<Id>)
    requires Groups(rows) <= gs
    ensures Sum(rows, InGroups(gs)) == Sum(rows, Any)
  {
    if rows != [] {
      var front, last := rows[..|rows| - 1], rows[|rows| - 1];
      assert rows == front + [last];
      UsersAppend(front, last);
      SumAll(front, gs);
    }
  }

  /** The unrounded total of the one reducer is the sum of all its category totals plus the sum of all
      link totals that the other reducer returns. */
  lemma TotalIsConserved(own: seq<Row>, linked: seq<LinkedRow>, out: seq<LinkedSummary>)
    requires |out| == |LinkOrder(linked)|
    requires forall i :: 0 <= i < |out| ==> Assembled(linked, LinkOrder(linked)[i]) == Some(out[i])
    ensures var agg := Aggregate(own, linked);
            agg.totalSpent == CategoryTotals(agg.categories, agg.categories.Keys) + LinkTotals(out)
  {
    hide Sum, Assembled, LinkOrder;
    var order := LinkOrder(linked);
    LinkOrderDistinct(linked);
    LinkTotalsSum(linked, order, out);
    SumAll(Plain(linked), Members(order));
    CategoryTotalsSum(own, Groups(own));
    SumAll(own, Groups(own));
    assert Categories(own).Keys == Groups(own);
  }

  // ---------- Row order does not matter ----------

  lemma SumLast(rows: seq<Row>, sel: Sel)
    requires rows != []
    ensures var n := |rows| - 1;
            && Sum(rows, sel) == Sum(rows[..n], sel) + (if Picks(sel, rows[n]) then rows[n].amount else 0)
            && Count(rows, sel) == Count(rows[..n], sel) + (if Picks(sel, rows[n]) then rows[n].count else 0)
  {
  }

  lemma {:induction false} SumRemove(rows: seq<Row>, i: nat, sel: Sel)
    requires i < |rows|
    ensures Sum(rows, sel) == Sum(rows[..i] + rows[i + 1..], sel) + (if Picks(sel, rows[i]) then rows[i].amount else 0)
    ensures Count(rows, sel) == Count(rows[..i] + rows[i + 1..], sel) + (if Picks(sel, rows[i]) then rows[i].count else 0)
    decreases |rows|
  {
    hide Sum, Count, Picks;
    var n := |rows| - 1;
    SumLast(rows, sel);
    if i == n {
      assert rows[..i] + rows[i + 1..] == rows[..n];
    } else {
      SumRemove(rows[..n], i, sel);
      assert rows[..n][..i] == rows[..i] && rows[i + 1..] == rows[..n][i + 1..] + [rows[n]];
      SumAppend(rows[..i] + rows[..n][i + 1..], rows[n], sel);
      assert rows[..i] + rows[i + 1..] == rows[..i] + rows[..n][i + 1..] + [rows[n]];
    }
  }

  lemma {:induction false} SumPermuted(rows: seq<Row>, other: seq<Row>, sel: Sel)
    requires multiset(rows) == multiset(other)
    ensures Sum(rows, sel) == Sum(other, sel) && Count(rows, sel) == Count(other, sel)
    decreases |rows|
  {
    hide Picks, Sum, Count;
    assert |multiset(rows)| == |rows| && |multiset(other)| == |other|;
    if rows != [] {
      var i := Counterpart(rows, other);
      SumRemove(other, i, sel);
      SumRemove(rows, 0, sel);
      SumPermuted(rows[..0] + rows[1..], other[..i] + other[i + 1..], sel);
    } else {
      assert other == [];
    }
  }

  lemma SameRows(rows: seq<Row>, other: seq<Row>)
    requires multiset(rows) == multiset(other)
    ensures Categories(rows) == Categories(other) && ByUser(rows) == ByUser(other) && Users(rows) == Users(other)
  {
    hide Sum, Count;
    assert forall r :: r in rows <==> r in multiset(rows);
    assert forall r :: r in other <==> r in multiset(other);
    forall sel: Sel ensures Sum(rows, sel) == Sum(other, sel) && Count(rows, sel) == Count(other, sel) {
      SumPermuted(rows, other, sel);
    }
    assert forall x :: x in Cells(rows) ==> x in Cells(other);
    assert Cells(rows) == Cells(other);
    SameSums(rows, other);
  }

  /** Equal sums and equal cells make equal roll-ups. */
  lemma SameSums(rows: seq<Row>, other: seq<Row>)
    requires forall sel :: Sum(rows, sel) == Sum(other, sel) && Count(rows, sel) == Count(other, sel)
    requires Cells(rows) == Cells(other)
    ensures Categories(rows) == Categories(other) && ByUser(rows) == ByUser(other) && Users(rows) == Users(other)
  {
    hide Sum, Count, Cells;
    SameCells(rows, other);
    forall g: Id ensures GroupByUser(rows, g) == GroupByUser(other, g) {
      assert GroupUsers(rows, g) == GroupUsers(other, g);
    }
  }

  lemma {:induction false} PlainConcat(a: seq<LinkedRow>, b: seq<LinkedRow>)
    ensures Plain(a + b) == Plain(a) + Plain(b) && MineOnly(a + b) == MineOnly(a) + MineOnly(b)
    decreases b
  {
    if b == [] {
      assert a + b == a;
    } else {
      assert (a + b)[..|a + b| - 1] == a + b[..|b| - 1];
      PlainConcat(a, b[..|b| - 1]);
    }
  }

  /** Removing one row removes its share. */
  lemma PlainRemove(linked: seq<LinkedRow>, i: nat)
    requires i < |linked|
    ensures var rest := linked[..i] + linked[i + 1..];
            && multiset(Plain(linked)) == multiset(Plain(rest)) + multiset([linked[i].row])
            && multiset(MineOnly(linked)) == multiset(MineOnly(rest)) + multiset(MineShare(linked[i]))
  {
    hide Plain, MineOnly, MineShare;
    var a, l, b := linked[..i], linked[i], linked[i + 1..];
    PlainParts(a, l, b);
    PlainConcat(a, b);
    assert linked == a + [l] + b;
    MultisetMiddle(Plain(a), [l.row], Plain(b));
    MultisetMiddle(MineOnly(a), MineShare(l), MineOnly(b));
  }

  lemma PlainParts(a: seq<LinkedRow>, l: LinkedRow, b: seq<LinkedRow>)
    ensures Plain(a + [l] + b) == Plain(a) + [l.row] + Plain(b)
    ensures MineOnly(a + [l] + b) == MineOnly(a) + MineShare(l) + MineOnly(b)
  {
    hide Plain, MineOnly, MineShare;
    PlainConcat(a + [l], b);
    PlainConcat(a, [l]);
    PlainOne(l);
  }

  lemma MultisetMiddle<T>(p: seq<T>, q: seq<T>, r: seq<T>)
    ensures multiset(p + q + r) == multiset(p + r) + multiset(q)
  {
  }

  lemma PlainOne(l: LinkedRow)
    ensures Plain([l]) == [l.row] && MineOnly([l]) == MineShare(l)
  {
  }

  lemma {:induction false} PlainPermuted(linked: seq<LinkedRow>, other: seq<LinkedRow>)
    requires multiset(linked) == multiset(other)
    ensures multiset(Plain(linked)) == multiset(Plain(other)) && multiset(MineOnly(linked)) == multiset(MineOnly(other))
    decreases |linked|
  {
    hide Plain, MineOnly;
    assert |multiset(linked)| == |linked| && |multiset(other)| == |other|;
    if linked != [] {
      var i := Counterpart(linked, other);
      PlainRemove(other, i);
      PlainRemove(linked, 0);
      PlainPermuted(linked[..0] + linked[1..], other[..i] + other[i + 1..]);
    } else {
      assert other == [];
    }
  }

  /** An element of a permutation equal to the first element, whose removal leaves a permutation. */
  lemma Counterpart<T>(s: seq<T>, t: seq<T>) returns (i: nat)
    requires s != [] && multiset(s) == multiset(t)
    ensures i < |t| && t[i] == s[0] && multiset(s[..0] + s[1..]) == multiset(t[..i] + t[i + 1..])
  {
    assert s[0] in multiset(t);
    i :| i < |t| && t[i] == s[0];
    WithoutOne(s, 0);
    WithoutOne(t, i);
  }

  lemma WithoutOne<T>(s: seq<T>, i: nat)
    requires i < |s|
    ensures multiset(s[..i] + s[i + 1..]) == multiset(s) - multiset{s[i]}
  {
    assert s == s[..i] + [s[i]] + s[i + 1..];
    assert multiset(s) == multiset(s[..i]) + multiset{s[i]} + multiset(s[i + 1..]);
  }

  /** The roll-up does not depend on the order in which the database returns rows. */
  lemma RowOrderIsInvisible(own: seq<Row>, own': seq<Row>, linked: seq<LinkedRow>, linked': seq<LinkedRow>)
    requires multiset(own) == multiset(own') && multiset(linked) == multiset(linked')
    ensures Aggregate(own, linked) == Aggregate(own', linked')
  {
    hide Categories, ByUser, Users, Sum;
    PlainPermuted(linked, linked');
    SameRows(own, own');
    SameRows(Plain(linked), Plain(linked'));
    SumPermuted(own, own', Any);
    SumPermuted(Plain(linked), Plain(linked'), Any);
    assert multiset(own + MineOnly(linked)) == multiset(own) + multiset(MineOnly(linked));
    assert multiset(own' + MineOnly(linked')) == multiset(own') + multiset(MineOnly(linked'));
    SameRows(own + MineOnly(linked), own' + MineOnly(linked'));
  }

  // ---------- GROUP BY (category, user) in the query is invisible too ----------

  function Merge(rows: seq<Row>, r: Row): seq<Row> {
    if rows == [] then [r]
    else
      var n := |rows| - 1;
      if rows[n].group == r.group && rows[n].user == r.user
      then rows[..n] + [rows[n].(amount := rows[n].amount + r.amount, count := rows[n].count + r.count)]
      else Merge(rows[..n], r) + [rows[n]]
  }

  /** One row per (group, user), as the aggregate query returns them. */
  function GroupBy(rows: seq<Row>): seq<Row> {
    if rows == [] then [] else Merge(GroupBy(rows[..|rows| - 1]), rows[|rows| - 1])
  }

  lemma {:induction false} MergeSum(rows: seq<Row>, r: Row, sel: Sel)
    ensures Sum(Merge(rows, r), sel) == Sum(rows, sel) + (if Picks(sel, r) then r.amount else 0)
    ensures Count(Merge(rows, r), sel) == Count(rows, sel) + (if Picks(sel, r) then r.count else 0)
  {
    if rows == [] {
      SumAppend([], r, sel);
    } else {
      var n := |rows| - 1;
      assert rows == rows[..n] + [rows[n]];
      SumAppend(rows[..n], rows[n], sel);
      if rows[n].group == r.group && rows[n].user == r.user {
        SumAppend(rows[..n], rows[n].(amount := rows[n].amount + r.amount, count := rows[n].count + r.count), sel);
      } else {
        MergeSum(rows[..n], r, sel);
        SumAppend(Merge(rows[..n], r), rows[n], sel);
      }
    }
  }

  /** The (group, user) pairs that occur. */
  function Cells(rows: seq<Row>): set<(Id, Option<Id>)> { set r | r in rows :: (r.group, r.user) }

  lemma CellsAppend(rows: seq<Row>, r: Row)
    ensures Cells(rows + [r]) == Cells(rows) + {(r.group, r.user)}
  {
    assert forall x :: x in rows + [r] <==> x in rows || x == r;
    assert r in rows + [r];
  }

  lemma {:induction false} MergeCells(rows: seq<Row>, r: Row)
    ensures Cells(Merge(rows, r)) == Cells(rows) + {(r.group, r.user)}
  {
    if rows == [] {
      CellsAppend([], r);
    } else {
      var n := |rows| - 1;
      assert rows == rows[..n] + [rows[n]];
      CellsAppend(rows[..n], rows[n]);
      if rows[n].group == r.group && rows[n].user == r.user {
        CellsAppend(rows[..n], rows[n].(amount := rows[n].amount + r.amount, count := rows[n].count + r.count));
      } else {
        MergeCells(rows[..n], r);
        CellsAppend(Merge(rows[..n], r), rows[n]);
      }
    }
  }

  lemma {:induction false} GroupByKeeps(rows: seq<Row>, sel: Sel)
    ensures Sum(GroupBy(rows), sel) == Sum(rows, sel) && Count(GroupBy(rows), sel) == Count(rows, sel)
    ensures Cells(GroupBy(rows)) == Cells(rows)
  {
    if rows != [] {
      var n := |rows| - 1;
      assert rows == rows[..n] + [rows[n]];
      GroupByKeeps(rows[..n], sel);
      MergeSum(GroupBy(rows[..n]), rows[n], sel);
      MergeCells(GroupBy(rows[..n]), rows[n]);
      CellsAppend(rows[..n], rows[n]);
    }
  }

  /** No two rows have the same group and user. */
  predicate UniqueCells(rows: seq<Row>) {
    rows == [] || (UniqueCells(rows[..|rows| - 1]) && (rows[|rows| - 1].group, rows[|rows| - 1].user) !in Cells(rows[..|rows| - 1]))
  }

  lemma UniqueAppend(rows: seq<Row>, r: Row)
    ensures UniqueCells(rows + [r]) <==> UniqueCells(rows) && (r.group, r.user) !in Cells(rows)
  {
    assert (rows + [r])[..|rows|] == rows;
  }

  lemma {:induction false} MergeUnique(rows: seq<Row>, r: Row)
    requires UniqueCells(rows)
    ensures UniqueCells(Merge(rows, r))
  {
    hide Cells;
    if rows == [] {
      UniqueOne(r);
    } else {
      var n := |rows| - 1;
      if rows[n].group == r.group && rows[n].user == r.user {
        UniqueAppend(rows[..n], rows[n].(amount := rows[n].amount + r.amount, count := rows[n].count + r.count));
      } else {
        MergeUnique(rows[..n], r);
        MergeCells(rows[..n], r);
        UniqueAppend(Merge(rows[..n], r), rows[n]);
      }
    }
  }

  lemma UniqueOne(r: Row)
    ensures UniqueCells([r])
  {
    assert [r][..0] == [];
  }

  lemma {:induction false} GroupByUnique(rows: seq<Row>)
    ensures UniqueCells(GroupBy(rows))
  {
    if rows != [] {
      hide UniqueCells, Merge;
      GroupByUnique(rows[..|rows| - 1]);
      MergeUnique(GroupBy(rows[..|rows| - 1]), rows[|rows| - 1]);
    } else {
      assert UniqueCells([]);
    }
  }

  lemma {:induction false} UniqueAmount(rows: seq<Row>, r: Row, u: Id)
    requires UniqueCells(rows) && r in rows && r.user == Some(u)
    ensures Sum(rows, OfCell(r.group, u)) == r.amount
  {
    var front, last := rows[..|rows| - 1], rows[|rows| - 1];
    assert rows == front + [last];
    if r in front {
      assert (r.group, r.user) in Cells(front);
      UniqueAmount(front, r, u);
    } else {
      forall x | x in front ensures !Picks(OfCell(r.group, u), x) {
        assert (x.group, x.user) in Cells(front);
      }
      SumAbsent(front, OfCell(r.group, u));
    }
  }

  lemma SameCells(rows: seq<Row>, other: seq<Row>)
    requires Cells(rows) == Cells(other)
    ensures Groups(rows) == Groups(other) && Users(rows) == Users(other)
    ensures forall g :: GroupUsers(rows, g) == GroupUsers(other, g)
  {
    forall r | r in rows ensures exists o :: o in other && o.group == r.group && o.user == r.user {
      assert (r.group, r.user) in Cells(other);
    }
    forall r | r in other ensures exists o :: o in rows && o.group == r.group && o.user == r.user {
      assert (r.group, r.user) in Cells(rows);
    }
  }

  /** Grouping the own rows by category and user before the roll-up does not change it. */
  lemma GroupingIsInvisible(own: seq<Row>, linked: seq<LinkedRow>)
    ensures Aggregate(GroupBy(own), linked) == Aggregate(own, linked)
  {
    hide Sum, Count, Categories, ByUser, Users, Cells, GroupBy, MineOnly;
    var grouped, mine := GroupBy(own), MineOnly(linked);
    forall sel: Sel ensures Sum(grouped, sel) == Sum(own, sel) && Count(grouped, sel) == Count(own, sel)
                    ensures Sum(grouped + mine, sel) == Sum(own + mine, sel)
                    ensures Count(grouped + mine, sel) == Count(own + mine, sel) {
      GroupByKeeps(own, sel);
      SumConcat(grouped, mine, sel);
      SumConcat(own, mine, sel);
    }
    GroupByKeeps(own, Any);
    CellsConcat(grouped, mine);
    CellsConcat(own, mine);
    SameSums(grouped, own);
    SameSums(grouped + mine, own + mine);
  }

  lemma CellsConcat(a: seq<Row>, b: seq<Row>)
    ensures Cells(a + b) == Cells(a) + Cells(b)
  {
    assert forall r :: r in a + b <==> r in a || r in b;
    forall r | r in a || r in b ensures (r.group, r.user) in Cells(a + b) {
      assert r in a + b;
    }
  }

  // ---------- Breakdowns and link accumulators ----------

  /** buildUserSpending drops breakdowns with fewer than two users. */
  function Breakdown(byUser: map<Id, int>): Option<map<Id, int>> {
    if |byUser| <= 1 then None else Some(byUser)
  }

  datatype LinkedSummary = LinkedSummary(info: LinkInfo, totalSpent: int, count: nat, byUser: map<Id, int>)

  /** The links in the order of their first rows. */
  function LinkOrder(linked: seq<LinkedRow>): seq<Id> {
    if linked == [] then []
    else
      var front, last := LinkOrder(linked[..|linked| - 1]), linked[|linked| - 1];
      if last.row.group in front then front else front + [last.row.group]
  }

  function FirstRow(linked: seq<LinkedRow>, id: Id): Option<LinkInfo> {
    if linked == [] then None
    else
      var front := FirstRow(linked[..|linked| - 1], id);
      if front.Some? then front
      else if linked[|linked| - 1].row.group == id then Some(linked[|linked| - 1].info) else None
  }

  /** Zero-amount rows, such as those of links without expenses, name no spender. */
  function Nonzero(rows: seq<Row>): seq<Row> {
    if rows == [] then []
    else Nonzero(rows[..|rows| - 1]) + (if rows[|rows| - 1].amount != 0 then [rows[|rows| - 1]] else [])
  }

  function Assembled(linked: seq<LinkedRow>, id: Id): Option<LinkedSummary> {
    match FirstRow(linked, id)
    case None => None
    case Some(info) =>
      Some(LinkedSummary(info, Sum(Plain(linked), OfGroup(id)), Count(Plain(linked), OfGroup(id)),
                         GroupByUser(Nonzero(Plain(linked)), id)))
  }

  /** The accumulator of one link after one more row. */
  function LinkPlus(a: LinkedSummary, r: Row): LinkedSummary {
    a.(totalSpent := a.totalSpent + r.amount, count := a.count + r.count,
       byUser := if r.user.Some? && r.amount != 0 then Plus(a.byUser, r.user.value, r.amount) else a.byUser)
  }

  lemma {:induction false} FirstRowNone(linked: seq<LinkedRow>, id: Id)
    requires FirstRow(linked, id).None?
    ensures id !in Groups(Plain(linked)) && id !in Groups(Nonzero(Plain(linked)))
  {
    if linked != [] {
      var front := linked[..|linked| - 1];
      FirstRowNone(front, id);
      UsersAppend(Plain(front), linked[|linked| - 1].row);
      UsersAppend(Nonzero(Plain(front)), linked[|linked| - 1].row);
      PlainFront(linked);
    }
  }

  lemma PlainFront(linked: seq<LinkedRow>)
    requires linked != []
    ensures var front, r := Plain(linked[..|linked| - 1]), linked[|linked| - 1].row;
            Plain(linked) == front + [r] && Nonzero(Plain(linked)) == Nonzero(front) + (if r.amount != 0 then [r] else [])
  {
    var front, r := Plain(linked[..|linked| - 1]), linked[|linked| - 1].row;
    assert (front + [r])[..|front|] == front;
  }

  lemma AssembledAppend(linked: seq<LinkedRow>, id: Id)
    requires linked != []
    ensures var n := |linked| - 1;
            var was, l := Assembled(linked[..n], id), linked[n];
            Assembled(linked, id) ==
            if l.row.group != id then was
            else if was.Some? then Some(LinkPlus(was.value, l.row))
            else Some(LinkPlus(LinkedSummary(l.info, 0, 0, map[]), l.row))
  {
    hide Sum, Count, GroupByUser, Plain, Nonzero, Groups;
    var n := |linked| - 1;
    var rows, r := Plain(linked[..n]), linked[n].row;
    PlainFront(linked);
    SumAppend(rows, r, OfGroup(id));
    GroupByUserAppend(Nonzero(rows), r, id);
    if FirstRow(linked[..n], id).None? {
      FirstRowNone(linked[..n], id);
      NoUsers(rows, id);
      NoUsers(Nonzero(rows), id);
    }
    assert FirstRow(linked, id) == if FirstRow(linked[..n], id).Some? then FirstRow(linked[..n], id)
                                   else if r.group == id then Some(linked[n].info) else None;
    assert Nonzero(rows) + [] == Nonzero(rows);
  }

  lemma {:induction false} OrderIsFirstRows(linked: seq<LinkedRow>, id: Id)
    ensures id in LinkOrder(linked) <==> FirstRow(linked, id).Some?
  {
    if linked != [] {
      OrderIsFirstRows(linked[..|linked| - 1], id);
    }
  }

  /** Per-link accumulators filled row by row, returned in order of first appearance. */
  method AssembleLinkedSummaries(linked: seq<LinkedRow>) returns (out: seq<LinkedSummary>)
    ensures |out| == |LinkOrder(linked)|
    ensures forall i :: 0 <= i < |out| ==> Assembled(linked, LinkOrder(linked)[i]) == Some(out[i])
  {
    hide Assembled, FirstRow;
    var idxByLink: map<Id, LinkedSummary>, order: seq<Id> := map[], [];
    AssembledNothing();
    for i := 0 to |linked|
      invariant order == LinkOrder(linked[..i])
      invariant forall id :: id in idxByLink <==> id in order
      invariant forall id :: id in idxByLink ==> Assembled(linked[..i], id) == Some(idxByLink[id])
      invariant forall id :: id !in idxByLink ==> Assembled(linked[..i], id) == None
    {
      var l := linked[i];
      assert linked[..i + 1][..i] == linked[..i];
      forall id: Id ensures var was := Assembled(linked[..i], id);
                        Assembled(linked[..i + 1], id) ==
                        if l.row.group != id then was
                        else if was.Some? then Some(LinkPlus(was.value, l.row))
                        else Some(LinkPlus(LinkedSummary(l.info, 0, 0, map[]), l.row)) {
        AssembledAppend(linked[..i + 1], id);
      }
      if l.row.group !in idxByLink {
        idxByLink := idxByLink[l.row.group := LinkedSummary(l.info, 0, 0, map[])];
        order := order + [l.row.group];
      }
      idxByLink := idxByLink[l.row.group := LinkPlus(idxByLink[l.row.group], l.row)];
    }
    assert linked[..|linked|] == linked;
    out := [];
    for i := 0 to |order|
      invariant |out| == i
      invariant forall k :: 0 <= k < i ==> Assembled(linked, order[k]) == Some(out[k])
    {
      out := out + [idxByLink[order[i]]];
    }
  }

  lemma AssembledNothing()
    ensures forall id :: Assembled([], id) == None
  {
  }

  lemma {:induction false} NonzeroRows(rows: seq<Row>, r: Row)
    ensures r in Nonzero(rows) <==> r in rows && r.amount != 0
  {
    if rows != [] {
      NonzeroRows(rows[..|rows| - 1], r);
      assert rows == rows[..|rows| - 1] + [rows[|rows| - 1]];
    }
  }

  // ---------- Row order does not matter to the link accumulators either ----------

  /** Rows of the same link carry the same link, source and category columns. */
  ghost predicate OneInfoPerLink(linked: seq<LinkedRow>) {
    forall l, m :: l in linked && m in linked && l.row.group == m.row.group ==> l.info == m.info
  }

  lemma {:induction false} FirstRowIs(linked: seq<LinkedRow>, l: LinkedRow)
    requires l in linked && OneInfoPerLink(linked)
    ensures FirstRow(linked, l.row.group) == Some(l.info)
  {
    var front, last := linked[..|linked| - 1], linked[|linked| - 1];
    assert linked == front + [last];
    if FirstRow(front, l.row.group).Some? {
      var m := FirstRowOrigin(front, l.row.group);
      assert m in linked;
    } else if l in front {
      FirstRowIs(front, l);
    }
  }

  lemma {:induction false} FirstRowOrigin(linked: seq<LinkedRow>, id: Id) returns (l: LinkedRow)
    requires FirstRow(linked, id).Some?
    ensures l in linked && l.row.group == id && FirstRow(linked, id) == Some(l.info)
  {
    var front, last := linked[..|linked| - 1], linked[|linked| - 1];
    assert linked == front + [last];
    if FirstRow(front, id).Some? {
      l := FirstRowOrigin(front, id);
    } else {
      l := last;
    }
  }

  lemma {:induction false} NonzeroSum(rows: seq<Row>, sel: Sel)
    ensures Sum(Nonzero(rows), sel) == Sum(rows, sel)
  {
    if rows == [] {
      SumAbsent(rows, sel);
    } else {
      hide Sum, Count, Picks;
      var n := |rows| - 1;
      NonzeroSum(rows[..n], sel);
      SumLast(rows, sel);
      SumAppend(Nonzero(rows[..n]), rows[n], sel);
      assert Nonzero(rows[..n]) + [] == Nonzero(rows[..n]);
    }
  }

  lemma SameBreakdown(rows: seq<Row>, other: seq<Row>, id: Id)
    requires multiset(rows) == multiset(other)
    ensures GroupByUser(Nonzero(rows), id) == GroupByUser(Nonzero(other), id)
  {
    hide Sum, Nonzero;
    assert forall r :: r in rows <==> r in multiset(rows);
    assert forall r :: r in other <==> r in multiset(other);
    forall r: Row ensures r in Nonzero(rows) <==> r in Nonzero(other) {
      NonzeroRows(rows, r);
      NonzeroRows(other, r);
    }
    forall u: Id ensures Sum(Nonzero(rows), OfCell(id, u)) == Sum(Nonzero(other), OfCell(id, u)) {
      NonzeroSum(rows, OfCell(id, u));
      NonzeroSum(other, OfCell(id, u));
      SumPermuted(rows, other, OfCell(id, u));
    }
    assert GroupUsers(Nonzero(rows), id) == GroupUsers(Nonzero(other), id);
  }

  lemma SameFirstRow(linked: seq<LinkedRow>, other: seq<LinkedRow>, id: Id)
    requires multiset(linked) == multiset(other) && OneInfoPerLink(linked)
    ensures FirstRow(linked, id) == FirstRow(other, id)
  {
    assert forall l :: l in linked <==> l in multiset(linked);
    assert forall l :: l in other <==> l in multiset(other);
    if FirstRow(linked, id).Some? {
      var l := FirstRowOrigin(linked, id);
      FirstRowIs(other, l);
    } else if FirstRow(other, id).Some? {
      var l := FirstRowOrigin(other, id);
      FirstRowIs(linked, l);
    }
  }

  /** The accumulator of a link does not depend on the order of the rows, only the order of the links does. */
  lemma LinkRowOrderIsInvisible(linked: seq<LinkedRow>, other: seq<LinkedRow>, id: Id)
    requires multiset(linked) == multiset(other) && OneInfoPerLink(linked)
    ensures Assembled(linked, id) == Assembled(other, id)
    ensures id in LinkOrder(linked) <==> id in LinkOrder(other)
  {
    hide Sum, Count, Plain, GroupByUser, FirstRow, Nonzero;
    SameFirstRow(linked, other, id);
    PlainPermuted(linked, other);
    SumPermuted(Plain(linked), Plain(other), OfGroup(id));
    SameBreakdown(Plain(linked), Plain(other), id);
    OrderIsFirstRows(linked, id);
    OrderIsFirstRows(other, id);
  }

  // ---------- Profiles ----------

  /** The user ids collected are those of the rows, own and linked. */
  lemma AllUsersAre(own: seq<Row>, linked: seq<LinkedRow>, u: Id)
    ensures u in Aggregate(own, linked).allUserIDs <==>
            (exists r :: r in own && r.user == Some(u)) || (exists l :: l in linked && l.row.user == Some(u))
  {
    var rows := Plain(linked);
    if u in Users(rows) {
      var i :| 0 <= i < |rows| && rows[i].user == Some(u);
      assert linked[i] in linked && linked[i].row == rows[i];
    }
    if l :| l in linked && l.row.user == Some(u) {
      var i :| 0 <= i < |linked| && linked[i] == l;
      assert rows[i] in rows && rows[i] == l.row;
    }
  }

  /** Every user in any breakdown that can be emitted is in allUserIDs; so whenever one is emitted,
      at least two ids were collected and the profiles of all its users are fetched. */
  lemma ProfilesAreFetched(own: seq<Row>, linked: seq<LinkedRow>, byUser: map<Id, int>)
    requires || byUser == Aggregate(own, linked).budgetByUser
             || (exists g :: g in Aggregate(own, linked).categories && byUser == Aggregate(own, linked).categories[g].byUser)
             || (exists id :: Assembled(linked, id).Some? && byUser == Assembled(linked, id).value.byUser)
    ensures byUser.Keys <= Aggregate(own, linked).allUserIDs
    ensures |byUser| >= 2 ==> |Aggregate(own, linked).allUserIDs| > 1
  {
    hide Sum, Count;
    var all := Aggregate(own, linked).allUserIDs;
    forall u | u in byUser ensures u in all {
      if byUser == Aggregate(own, linked).budgetByUser {
        MineAreLinked(linked);
        assert forall r :: r in own + MineOnly(linked) ==> r in own || r in MineOnly(linked);
      } else if id :| Assembled(linked, id).Some? && byUser == Assembled(linked, id).value.byUser {
        var r :| r in Nonzero(Plain(linked)) && r.user == Some(u);
        NonzeroRows(Plain(linked), r);
      }
    }
    assert |byUser| == |byUser.Keys|;
    SubsetSize(byUser.Keys, all);
  }

  lemma {:induction false} MineAreLinked(linked: seq<LinkedRow>)
    ensures forall r :: r in MineOnly(linked) ==> r in Plain(linked)
  {
    if linked != [] {
      MineAreLinked(linked[..|linked| - 1]);
    }
  }

  datatype UserSpending = UserSpending(user: Id, amount: int)

  predicate MoreFirst(x: UserSpending, y: UserSpending) { x.amount > y.amount }

  /** The breakdown as listed: every user once, amounts descending, ties in any order. */
  method BuildUserSpending(byUser: map<Id, int>) returns (out: Option<seq<UserSpending>>)
    ensures out.None? <==> |byUser| < 2
    ensures out.Some? ==> forall i, j :: 0 <= i < j < |out.value| ==> out.value[i].amount >= out.value[j].amount
    ensures out.Some? ==> multiset(out.value) == multiset(set u | u in byUser :: UserSpending(u, byUser[u]))
  {
    if |byUser| <= 1 {
      return None;
    }
    var pending, result := byUser.Keys, [];
    ghost var done: set<UserSpending> := {};
    while pending != {}
      invariant pending <= byUser.Keys
      invariant done == set u | u in byUser && u !in pending :: UserSpending(u, byUser[u])
      invariant multiset(result) == multiset(done)
    {
      var uid :| uid in pending;
      var entry := UserSpending(uid, byUser[uid]);
      assert entry !in done;
      pending := pending - {uid};
      result := result + [entry];
      done := done + {entry};
    }
    assert done == set u | u in byUser :: UserSpending(u, byUser[u]);
    var a := new UserSpending[|result|](i requires 0 <= i < |result| => result[i]);
    assert a[..] == result;
    SortedIsSort(result, MoreFirst);
    Sort(a, MoreFirst);
    out := Some(a[..]);
  }

  lemma SubsetSize(a: set<Id>, b: set<Id>)
    requires a <= b
    ensures |a| <= |b|
  {
    if a != {} {
      var x :| x in a;
      SubsetSize(a - {x}, b - {x});
    }
  }

  /** budgetByUser credits a user with exactly their own spending plus their filter_mode=mine rows. */
  lemma BudgetByUserIs(own: seq<Row>, linked: seq<LinkedRow>, u: Id)
    ensures u in Aggregate(own, linked).budgetByUser <==> u in Users(own) || u in Users(MineOnly(linked))
    ensures u in Aggregate(own, linked).budgetByUser ==>
            Aggregate(own, linked).budgetByUser[u] == Sum(own, OfUser(u)) + Sum(MineOnly(linked), OfUser(u))
  {
    hide Sum;
    var mine := MineOnly(linked);
    assert forall r :: r in own + mine <==> r in own || r in mine;
    SumConcat(own, mine, OfUser(u));
  }

  lemma {:induction false} SumConcat(a: seq<Row>, b: seq<Row>, sel: Sel)
    ensures Sum(a + b, sel) == Sum(a, sel) + Sum(b, sel) && Count(a + b, sel) == Count(a, sel) + Count(b, sel)
    decreases b
  {
    if b == [] {
      assert a + b == a;
    } else {
      assert a + b == a + b[..|b| - 1] + [b[|b| - 1]];
      SumConcat(a, b[..|b| - 1], sel);
      SumAppend(a + b[..|b| - 1], b[|b| - 1], sel);
    }
  }
}
