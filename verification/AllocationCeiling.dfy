/** One budget from CreateBudget through any sequence of category writes and budget updates: the
    allocations stay nonnegative, at most fifty, and within the stored income. */
module AllocationCeiling {
  import opened Wrappers
  import opened Models
  import opened SummaryTables
  import opened SummaryRequests
  import opened Allocation

  /** The budget's stored income and its category rows, in cents. */
  datatype Ledger = Ledger(budget: Id, income: int, categories: seq<Category>)

  datatype Op =
    | Create(category: Category, amount: real)
    | Update(id: Id, name: Option<string>, value: Option<real>, sortOrder: Option<int>)
    | Delete(id: Id)
    | SetIncome(income: real)

  function RemoveCategory(cs: seq<Category>, id: Id): seq<Category> {
    if cs == [] then [] else (if cs[0].id == id then [] else [cs[0]]) + RemoveCategory(cs[1..], id)
  }

  predicate CreateAllowed(l: Ledger, value: real) {
    && 0.0 <= value <= FromCents(l.income) && |l.categories| < MAX_CATEGORIES
    && FromCents(TotalAllocation(l.categories)) + value <= FromCents(l.income)
  }

  predicate UpdateAllowed(l: Ledger, id: Id, value: Option<real>) {
    && FindCategory(l.categories, id).Some?
    && (value.Some? ==> 0.0 <= value.value && FromCents(OtherAllocation(l.categories, id)) + value.value <= FromCents(l.income))
  }

  predicate IncomeAllowed(l: Ledger, income: real) {
    && income > 0.0
    && (income < FromCents(l.income) ==> FromCents(TotalAllocation(l.categories)) <= income)
  }

  function Cents(value: Option<real>): Option<int> { if value.None? then None else Some(ToCents(value.value)) }

  function Apply(l: Ledger, op: Op): Ledger {
    match op
    case Create(c, value) =>
      if CreateAllowed(l, value) && FindCategory(l.categories, c.id).None?
      then l.(categories := l.categories + [c.(budgetID := l.budget, allocation := ToCents(value))]) else l
    case Update(id, name, value, sortOrder) =>
      if UpdateAllowed(l, id, value)
      then l.(categories := PatchCategories(l.categories, id, l.budget, CategoryPatch(name, Cents(value), sortOrder))) else l
    case Delete(id) => l.(categories := RemoveCategory(l.categories, id))
    case SetIncome(income) => if IncomeAllowed(l, income) then l.(income := ToCents(income)) else l
  }

  function SeedRows(b: Id, ts: seq<Guided>, cents: seq<int>, ids: seq<Id>): seq<Category>
    requires |cents| == |ts| == |ids|
  {
    seq(|ts|, i requires 0 <= i < |ts| => Category(ids[i], b, ts[i].name, cents[i], ts[i].sortOrder))
  }

  // ---------- The invariant ----------

  ghost predicate Tidy(l: Ledger) {
    && (forall i, j :: 0 <= i < j < |l.categories| ==> l.categories[i].id != l.categories[j].id)
    && (forall i :: 0 <= i < |l.categories| ==> l.categories[i].budgetID == l.budget && l.categories[i].allocation >= 0)
  }

  ghost predicate Sound(l: Ledger) {
    Tidy(l) && |l.categories| <= MAX_CATEGORIES && TotalAllocation(l.categories) <= l.income
  }

  lemma {:induction false} TotalConcat(a: seq<Category>, b: seq<Category>)
    ensures TotalAllocation(a + b) == TotalAllocation(a) + TotalAllocation(b)
  {
    if a == [] {
      assert a + b == b;
    } else {
      TotalConcat(a[1..], b);
      assert (a + b)[1..] == a[1..] + b;
    }
  }

  lemma {:induction false} FindNone(cs: seq<Category>, id: Id)
    ensures FindCategory(cs, id).None? <==> forall i :: 0 <= i < |cs| ==> cs[i].id != id
  {
    if cs != [] {
      FindNone(cs[1..], id);
      assert forall i :: 0 <= i < |cs| - 1 ==> cs[1..][i] == cs[i + 1];
      if FindCategory(cs, id).None? {
        forall i | 0 <= i < |cs| ensures cs[i].id != id {
          assert i > 0 ==> cs[i] == cs[1..][i - 1];
        }
      }
    }
  }

  lemma {:induction false} OthersWithout(cs: seq<Category>, id: Id)
    requires forall i :: 0 <= i < |cs| ==> cs[i].id != id
    ensures OtherAllocation(cs, id) == TotalAllocation(cs)
  {
    if cs != [] {
      OthersWithout(cs[1..], id);
    }
  }

  /** A patch keeps ids, owners and signs, row by row. */
  lemma {:induction false} PatchRows(cs: seq<Category>, id: Id, b: Id, p: CategoryPatch)
    ensures |PatchCategories(cs, id, b, p)| == |cs|
    ensures forall i :: 0 <= i < |cs| ==>
              PatchCategories(cs, id, b, p)[i] == if cs[i].id == id && cs[i].budgetID == b then PatchedCategory(cs[i], p) else cs[i]
  {
    if cs != [] {
      PatchRows(cs[1..], id, b, p);
    }
  }

  lemma {:induction false} PatchAbsent(cs: seq<Category>, id: Id, b: Id, p: CategoryPatch)
    requires forall i :: 0 <= i < |cs| ==> cs[i].id != id
    ensures PatchCategories(cs, id, b, p) == cs
  {
    if cs != [] {
      PatchAbsent(cs[1..], id, b, p);
    }
  }

  lemma {:induction false} PatchTotal(cs: seq<Category>, id: Id, b: Id, p: CategoryPatch)
    requires forall i, j :: 0 <= i < j < |cs| ==> cs[i].id != cs[j].id
    requires forall i :: 0 <= i < |cs| ==> cs[i].budgetID == b
    requires FindCategory(cs, id).Some?
    ensures TotalAllocation(PatchCategories(cs, id, b, p)) ==
            if p.allocation.None? then TotalAllocation(cs) else OtherAllocation(cs, id) + p.allocation.value
  {
    var rest := cs[1..];
    assert forall i :: 0 <= i < |rest| ==> rest[i] == cs[i + 1];
    if cs[0].id == id {
      PatchAbsent(rest, id, b, p);
      OthersWithout(rest, id);
    } else {
      PatchTotal(rest, id, b, p);
    }
  }

  lemma {:induction false} RemoveRows(cs: seq<Category>, id: Id)
    requires forall i :: 0 <= i < |cs| ==> cs[i].allocation >= 0
    ensures var left := RemoveCategory(cs, id);
            && |left| <= |cs| && TotalAllocation(left) <= TotalAllocation(cs)
            && forall c :: c in left <==> c in cs && c.id != id
  {
    if cs != [] {
      RemoveRows(cs[1..], id);
      TotalConcat(if cs[0].id == id then [] else [cs[0]], RemoveCategory(cs[1..], id));
      assert cs == [cs[0]] + cs[1..];
    }
  }

  lemma {:induction false} RemoveDistinct(cs: seq<Category>, id: Id)
    requires forall i, j :: 0 <= i < j < |cs| ==> cs[i].id != cs[j].id
    requires forall i :: 0 <= i < |cs| ==> cs[i].allocation >= 0
    ensures var left := RemoveCategory(cs, id); forall i, j :: 0 <= i < j < |left| ==> left[i].id != left[j].id
  {
    if cs != [] {
      RemoveDistinct(cs[1..], id);
      RemoveRows(cs[1..], id);
      var rest := RemoveCategory(cs[1..], id);
      forall i | 0 <= i < |rest| ensures rest[i].id != cs[0].id {
        assert rest[i] in rest;
        var j :| 0 <= j < |cs[1..]| && cs[1..][j] == rest[i];
        assert cs[j + 1] == cs[1..][j];
      }
    }
  }

  /** Amounts that fit before rounding to cents still fit after it. */
  lemma RoundedFits(others: int, value: real, income: int)
    requires FromCents(others) + value <= FromCents(income)
    ensures others + ToCents(value) <= income
    ensures value >= 0.0 ==> ToCents(value) >= 0
  {
    assert FromCents(others) * 100.0 == others as real && FromCents(income) * 100.0 == income as real;
    RoundBelow(value * 100.0, income - others);
    RoundBelow(value * 100.0, 0);
  }

  /** An accepted income, rounded, is no lower than the allocations. */
  lemma RoundedIncome(total: int, income: real, stored: int)
    requires total <= stored && (income < FromCents(stored) ==> FromCents(total) <= income)
    ensures total <= ToCents(income)
  {
    assert FromCents(total) * 100.0 == total as real && FromCents(stored) * 100.0 == stored as real;
    RoundBelow(income * 100.0, total);
  }

  lemma CreateKeeps(l: Ledger, c: Category, value: real)
    requires Sound(l) && CreateAllowed(l, value) && FindCategory(l.categories, c.id).None?
    ensures Sound(l.(categories := l.categories + [c.(budgetID := l.budget, allocation := ToCents(value))]))
  {
    var row := c.(budgetID := l.budget, allocation := ToCents(value));
    FindNone(l.categories, c.id);
    RoundedFits(TotalAllocation(l.categories), value, l.income);
    TotalConcat(l.categories, [row]);
    assert TotalAllocation([row]) == row.allocation + TotalAllocation([row][1..]);
  }

  lemma UpdateKeeps(l: Ledger, id: Id, p: CategoryPatch, value: Option<real>)
    requires Sound(l) && UpdateAllowed(l, id, value) && p.allocation == Cents(value)
    ensures Sound(l.(categories := PatchCategories(l.categories, id, l.budget, p)))
  {
    hide PatchCategories, FindCategory, TotalAllocation, OtherAllocation, ToCents, FromCents;
    PatchRows(l.categories, id, l.budget, p);
    PatchTotal(l.categories, id, l.budget, p);
    if value.Some? {
      RoundedFits(OtherAllocation(l.categories, id), value.value, l.income);
    }
  }

  lemma ApplyKeepsCeiling(l: Ledger, op: Op)
    requires Sound(l)
    ensures Sound(Apply(l, op))
  {
    hide PatchCategories, FindCategory, TotalAllocation, OtherAllocation, ToCents, FromCents, RemoveCategory, CreateAllowed, UpdateAllowed;
    match op
    case Create(c, value) =>
      if CreateAllowed(l, value) && FindCategory(l.categories, c.id).None? {
        CreateKeeps(l, c, value);
      }
    case Update(id, name, value, sortOrder) =>
      if UpdateAllowed(l, id, value) {
        UpdateKeeps(l, id, CategoryPatch(name, Cents(value), sortOrder), value);
      }
    case Delete(id) =>
      RemoveRows(l.categories, id);
      RemoveDistinct(l.categories, id);
      var left := RemoveCategory(l.categories, id);
      assert forall i :: 0 <= i < |left| ==> left[i] in left;
    case SetIncome(income) =>
      if IncomeAllowed(l, income) {
        RoundedIncome(TotalAllocation(l.categories), income, l.income);
      }
  }

  // ---------- What each operation does, row by row ----------

  /** The amount rounded to its column, in cents. */
  predicate Rounds(cents: int, amount: real) { amount * 100.0 - 0.5 <= cents as real <= amount * 100.0 + 0.5 }

  predicate HasId(cs: seq<Category>, id: Id) { exists c :: c in cs && c.id == id }

  lemma HasIdFound(cs: seq<Category>, id: Id)
    ensures HasId(cs, id) <==> FindCategory(cs, id).Some?
  {
    FindNone(cs, id);
    if HasId(cs, id) {
      var c :| c in cs && c.id == id;
      var i :| 0 <= i < |cs| && cs[i] == c;
    }
  }

  /** What the other categories hold is the total without the one. */
  lemma {:induction false} OthersAreTheRest(cs: seq<Category>, id: Id)
    ensures OtherAllocation(cs, id) == TotalAllocation(RemoveCategory(cs, id))
  {
    if cs != [] {
      OthersAreTheRest(cs[1..], id);
      TotalConcat(if cs[0].id == id then [] else [cs[0]], RemoveCategory(cs[1..], id));
    }
  }

  /** A category is created exactly if it fits, as a row that holds the amount to the cent. */
  lemma CreateExactly(l: Ledger, c: Category, amount: real)
    ensures var t := Apply(l, Create(c, amount));
            var fits := 0.0 <= amount * 100.0 <= l.income as real && |l.categories| < 50 && !HasId(l.categories, c.id)
                        && TotalAllocation(l.categories) as real + amount * 100.0 <= l.income as real;
            && t.income == l.income && t.budget == l.budget
            && (!fits ==> t.categories == l.categories)
            && (fits ==> |t.categories| == |l.categories| + 1 && t.categories[..|l.categories|] == l.categories
                         && var row := t.categories[|l.categories|];
                            row.id == c.id && row.name == c.name && row.sortOrder == c.sortOrder && row.budgetID == l.budget
                            && Rounds(row.allocation, amount))
  {
    hide ToCents, FromCents, TotalAllocation, FindCategory, HasId;
    HasIdFound(l.categories, c.id);
    CentsAreNearest(amount, l.income);
    CentsAreNearest(amount, TotalAllocation(l.categories));
  }

  /** A category is updated exactly if it exists and the amount fits beside the others; the row named takes
      what was given and keeps the rest, and no other row changes. */
  lemma UpdateExactly(l: Ledger, id: Id, name: Option<string>, amount: Option<real>, sortOrder: Option<int>)
    requires Tidy(l)
    ensures var t := Apply(l, Update(id, name, amount, sortOrder));
            var fits := HasId(l.categories, id)
                        && (amount.Some? ==> amount.value >= 0.0 && TotalAllocation(RemoveCategory(l.categories, id)) as real
                                                                     + amount.value * 100.0 <= l.income as real);
            && t.income == l.income && t.budget == l.budget && |t.categories| == |l.categories|
            && forall i :: 0 <= i < |l.categories| ==>
                 var was, now := l.categories[i], t.categories[i];
                 if !fits || was.id != id then now == was
                 else && now.id == id && now.budgetID == was.budgetID
                      && (if name.Some? then now.name == name.value else now.name == was.name)
                      && (if sortOrder.Some? then now.sortOrder == sortOrder.value else now.sortOrder == was.sortOrder)
                      && (if amount.Some? then Rounds(now.allocation, amount.value) else now.allocation == was.allocation)
  {
    hide ToCents, FromCents, TotalAllocation, OtherAllocation, FindCategory, HasId, PatchCategories, RemoveCategory;
    HasIdFound(l.categories, id);
    OthersAreTheRest(l.categories, id);
    CentsAreNearest(if amount.Some? then amount.value else 0.0, l.income);
    CentsAreNearest(0.0, OtherAllocation(l.categories, id));
    PatchRows(l.categories, id, l.budget, CategoryPatch(name, Cents(amount), sortOrder));
  }

  /** An income is accepted exactly if it is positive and, when lowered, covers the allocations. */
  lemma IncomeExactly(l: Ledger, income: real)
    ensures var t := Apply(l, SetIncome(income));
            var fits := income > 0.0 && (income * 100.0 < l.income as real ==> TotalAllocation(l.categories) as real <= income * 100.0);
            && t.categories == l.categories && t.budget == l.budget
            && (if fits then Rounds(t.income, income) else t.income == l.income)
  {
    hide ToCents, FromCents, TotalAllocation;
    CentsAreNearest(income, l.income);
    CentsAreNearest(income, TotalAllocation(l.categories));
  }

  // ---------- From CreateBudget on ----------

  function Created(b: Id, mode: Mode, income: real, ids: seq<Id>): Ledger
    requires income > 0.0
    requires |ids| == |SeedFrom(CategoriesForMode(mode), 0, income, 0)| == |CategoriesForMode(mode)|
  {
    var ts := CategoriesForMode(mode);
    Ledger(b, ToCents(income), if mode.Manual? then [] else SeedRows(b, ts, SeedFrom(ts, 0, income, 0), ids))
  }

  lemma {:induction false} SeedTotal(b: Id, ts: seq<Guided>, cents: seq<int>, ids: seq<Id>)
    requires |cents| == |ts| == |ids|
    ensures TotalAllocation(SeedRows(b, ts, cents, ids)) == Sum(cents)
  {
    if ts != [] {
      SeedTotal(b, ts[1..], cents[1..], ids[1..]);
      assert SeedRows(b, ts, cents, ids)[1..] == SeedRows(b, ts[1..], cents[1..], ids[1..]);
    }
  }

  /** A guided budget starts with its whole stored income allocated, to the cent. */
  lemma CreatedIsSound(b: Id, mode: Mode, income: real, ids: seq<Id>)
    requires income > 0.0 && |ids| == |CategoriesForMode(mode)|
    requires forall i, j :: 0 <= i < j < |ids| ==> ids[i] != ids[j]
    ensures |SeedFrom(CategoriesForMode(mode), 0, income, 0)| == |CategoriesForMode(mode)|
    ensures Sound(Created(b, mode, income, ids))
    ensures !mode.Manual? ==> TotalAllocation(Created(b, mode, income, ids).categories) == Created(b, mode, income, ids).income
  {
    var ts := CategoriesForMode(mode);
    TemplatesAreFull(mode);
    hide CategoriesForMode, SeedFrom, Round, Sum;
    SeedAddsUp(ts, income);
    SeedTotal(b, ts, SeedFrom(ts, 0, income, 0), ids);
    RoundBelow(income * 100.0, 0);
  }

  /** Its rows are the template's entries, each but the last with its own percentage of the income. */
  lemma CreatedRows(b: Id, mode: Mode, income: real, ids: seq<Id>)
    requires income > 0.0 && |ids| == |CategoriesForMode(mode)|
    ensures |SeedFrom(CategoriesForMode(mode), 0, income, 0)| == |CategoriesForMode(mode)|
    ensures var l, ts := Created(b, mode, income, ids), CategoriesForMode(mode);
            && l.budget == b && Rounds(l.income, income) && |l.categories| == (if mode == Manual then 0 else |ts|)
            && forall i :: 0 <= i < |l.categories| ==>
                 var row := l.categories[i];
                 row.id == ids[i] && row.budgetID == b && row.name == ts[i].name && row.sortOrder == ts[i].sortOrder
                 && (i < |ts| - 1 ==> row.allocation as real <= ts[i].percent * income < row.allocation as real + 1.0)
  {
    TemplatesAreFull(mode);
    hide CategoriesForMode, SeedFrom, ToCents, Sum;
    SeedAddsUp(CategoriesForMode(mode), income);
    CentsAreNearest(income, 0);
  }

  function Run(l: Ledger, ops: seq<Op>): Ledger {
    if ops == [] then l else Apply(Run(l, ops[..|ops| - 1]), ops[|ops| - 1])
  }

  lemma {:induction false} RunKeepsCeiling(l: Ledger, ops: seq<Op>)
    requires Sound(l)
    ensures Sound(Run(l, ops))
  {
    if ops != [] {
      hide Apply;
      RunKeepsCeiling(l, ops[..|ops| - 1]);
      ApplyKeepsCeiling(Run(l, ops[..|ops| - 1]), ops[|ops| - 1]);
    }
  }

  /** Whatever is requested after CreateBudget, and however the amounts round, the allocations add up to
      at most the stored income and there are at most fifty categories. */
  lemma CeilingHolds(b: Id, mode: Mode, income: real, ids: seq<Id>, ops: seq<Op>)
    requires income > 0.0 && |ids| == |CategoriesForMode(mode)|
    requires forall i, j :: 0 <= i < j < |ids| ==> ids[i] != ids[j]
    ensures |SeedFrom(CategoriesForMode(mode), 0, income, 0)| == |ids|
    ensures var l := Run(Created(b, mode, income, ids), ops);
            && TotalAllocation(l.categories) <= l.income && |l.categories| <= MAX_CATEGORIES
            && forall c :: c in l.categories ==> c.allocation >= 0
  {
    CreatedIsSound(b, mode, income, ids);
    hide Run, Created, CategoriesForMode;
    RunKeepsCeiling(Created(b, mode, income, ids), ops);
  }

  // ---------- The handlers ----------

  class BudgetRows {
    const budget: Id
    var income: int
    var categories: seq<Category>

    ghost function Contents(): Ledger
      reads this
    {
      Ledger(budget, income, categories)
    }

    /** CreateBudget: the income is rounded by its column, the seeded values by theirs. */
    constructor (b: Id, mode: Mode, income: real, ids: seq<Id>)
      requires income > 0.0 && |ids| == |CategoriesForMode(mode)|
      ensures |SeedFrom(CategoriesForMode(mode), 0, income, 0)| == |ids|
      ensures Contents() == Created(b, mode, income, ids)
    {
      hide Round, SeedFrom;
      budget, this.income, categories := b, ToCents(income), [];
      new;
      var ts := CategoriesForMode(mode);
      var values := SeedGuidedCategories(ts, income);
      ghost var cents := SeedFrom(ts, 0, income, 0);
      if mode != Manual {
        for i := 0 to |ts|
          modifies this`categories
          invariant |categories| == i
          invariant forall j :: 0 <= j < i ==> categories[j] == Category(ids[j], b, ts[j].name, cents[j], ts[j].sortOrder)
        {
          StoredExactly(cents[i]);
          categories := categories + [Category(ids[i], b, ts[i].name, ToCents(values[i]), ts[i].sortOrder)];
        }
        assert categories == SeedRows(b, ts, cents, ids);
      }
    }

    method CreateCategory(c: Category, value: real) returns (ok: bool)
      modifies this`categories
      ensures Contents() == Apply(old(Contents()), Create(c, value))
      ensures ok == (CreateAllowed(old(Contents()), value) && FindCategory(old(categories), c.id).None?)
    {
      hide FromCents, ToCents, TotalAllocation;
      if value < 0.0 {
        return false;
      }
      if value > FromCents(income) {
        return false;
      }
      var count, total := |categories|, TotalAllocation(categories);
      if count >= MAX_CATEGORIES {
        return false;
      }
      if FromCents(total) + value > FromCents(income) {
        return false;
      }
      if FindCategory(categories, c.id).Some? {
        return false;
      }
      categories := categories + [c.(budgetID := budget, allocation := ToCents(value))];
      ok := true;
    }

    method UpdateCategory(id: Id, name: Option<string>, value: Option<real>, sortOrder: Option<int>) returns (ok: bool)
      modifies this`categories
      ensures Contents() == Apply(old(Contents()), Update(id, name, value, sortOrder))
      ensures ok == UpdateAllowed(old(Contents()), id, value)
    {
      hide FromCents, ToCents, OtherAllocation;
      if value.Some? {
        if value.value < 0.0 {
          return false;
        }
        var others := OtherAllocation(categories, id);
        if FromCents(others) + value.value > FromCents(income) {
          return false;
        }
      }
      if FindCategory(categories, id).None? {
        return false;
      }
      categories := PatchCategories(categories, id, budget, CategoryPatch(name, Cents(value), sortOrder));
      ok := true;
    }

    method DeleteCategory(id: Id) returns (ok: bool)
      modifies this`categories
      ensures Contents() == Apply(old(Contents()), Delete(id))
      ensures ok == FindCategory(old(categories), id).Some?
    {
      ok := FindCategory(categories, id).Some?;
      categories := RemoveCategory(categories, id);
    }

    method UpdateIncome(newIncome: real) returns (ok: bool)
      modifies this`income
      ensures Contents() == Apply(old(Contents()), SetIncome(newIncome))
      ensures ok == IncomeAllowed(old(Contents()), newIncome)
    {
      hide FromCents, ToCents, TotalAllocation;
      if newIncome <= 0.0 {
        return false;
      }
      if newIncome < FromCents(income) {
        var total := TotalAllocation(categories);
        if FromCents(total) > newIncome {
          return false;
        }
      }
      income := ToCents(newIncome);
      ok := true;
    }
  }

  /** A whole number of cents survives its column unchanged. */
  lemma StoredExactly(cents: int)
    ensures ToCents(FromCents(cents)) == cents
  {
    assert FromCents(cents) * 100.0 == cents as real;
    RoundBelow(cents as real, cents);
  }
}
