/** What every expense, category and link request keeps true of the tables, over any run of requests. */
module DataRules {
  import opened Wrappers
  import opened Models
  import opened SummaryTables
  import opened SummaryRequests
  import opened SummaryMeaning
  import opened Calendar

  /** No budget links itself, no two budgets link each other, and a target links a category once. */
  ghost predicate LinkRules(ls: seq<Link>) {
    && (forall l :: l in ls ==> l.source != l.target)
    && (forall l, m :: l in ls && m in ls ==> !(l.source == m.target && l.target == m.source))
    && (forall l, m :: l in ls && m in ls && l.target == m.target && l.categoryID == m.categoryID ==> l == m)
    && (forall t :: |LinksTo(ls, t)| <= 10)
  }

  /** The amount is positive and bounded, and the category belongs to the expense's own budget. */
  ghost predicate GoodExpense(db: Database, e: Expense) {
    0 < e.amount <= 100_000_000_000_000_000 && CategoryBelongs(db, e.categoryID, e.budgetID)
  }

  ghost predicate ExpenseRules(db: Database) {
    && (forall e :: e in db.expenses ==> GoodExpense(db, e))
    && (forall b :: |ExpensesOf(db.expenses, b)| <= 3000)
  }

  ghost predicate Rules(db: Database) {
    Integrity(db) && LinkRules(db.links) && ExpenseRules(db) && Keys(db)
  }

  ghost predicate DistinctBudgets(bs: seq<Budget>) { forall i, j :: 0 <= i < j < |bs| ==> bs[i].id != bs[j].id }

  ghost predicate DistinctExpenses(es: seq<Expense>) { forall i, j :: 0 <= i < j < |es| ==> es[i].id != es[j].id }

  /** The primary keys: no two rows of a table share an id. */
  ghost predicate Keys(db: Database) {
    DistinctBudgets(db.budgets) && DistinctCategories(db.categories) && DistinctExpenses(db.expenses) && DistinctIds(db.links)
  }

  // ---------- Expenses ----------

  lemma {:induction false} PatchedExpenses(es: seq<Expense>, id: Id, s: Id, p: ExpensePatch, b: Id)
    ensures |ExpensesOf(PatchExpenses(es, id, s, p), b)| == |ExpensesOf(es, b)|
    ensures |ExpensesOf(RemoveExpense(es, id, s), b)| <= |ExpensesOf(es, b)|
  {
    if es != [] {
      PatchedExpenses(es[1..], id, s, p, b);
      ExpensesConcat(if es[0].id == id && es[0].budgetID == s then [] else [es[0]], RemoveExpense(es[1..], id, s), b);
    }
  }

  /** The row after an update: what was given is taken over, everything else is as it was. */
  predicate Updates(was: Expense, p: ExpensePatch, now: Expense) {
    && now.id == was.id && now.budgetID == was.budgetID && now.createdBy == was.createdBy
    && (if p.categoryID.Some? then now.categoryID == p.categoryID.value else now.categoryID == was.categoryID)
    && (if p.amount.Some? then now.amount == p.amount.value else now.amount == was.amount)
    && (if p.date.Some? then now.date == p.date.value else now.date == was.date)
  }

  /** An update changes the named row only, a deletion removes the named row only. */
  lemma {:induction false} ExpenseOrigins(es: seq<Expense>, id: Id, s: Id, p: ExpensePatch)
    ensures |PatchExpenses(es, id, s, p)| == |es|
    ensures forall i :: 0 <= i < |es| ==>
              var now := PatchExpenses(es, id, s, p)[i];
              if es[i].id == id && es[i].budgetID == s then Updates(es[i], p, now) else now == es[i]
    ensures forall f :: f in RemoveExpense(es, id, s) <==> f in es && !(f.id == id && f.budgetID == s)
  {
    if es != [] {
      ExpenseOrigins(es[1..], id, s, p);
      assert es == [es[0]] + es[1..];
    }
  }

  lemma {:induction false} NoSuchExpense(es: seq<Expense>, id: Id)
    ensures FindExpense(es, id).None? <==> forall e :: e in es ==> e.id != id
  {
    if es != [] {
      NoSuchExpense(es[1..], id);
      assert es == [es[0]] + es[1..];
    }
  }

  lemma {:induction false} RemainDistinct(es: seq<Expense>, id: Id, s: Id)
    requires DistinctExpenses(es)
    ensures DistinctExpenses(RemoveExpense(es, id, s))
  {
    if es != [] {
      var rest := RemoveExpense(es[1..], id, s);
      RemainDistinct(es[1..], id, s);
      ExpenseOrigins(es[1..], id, s, ExpensePatch(None, None, None));
      forall i | 0 <= i < |rest| ensures rest[i].id != es[0].id {
        assert rest[i] in es[1..];
        var j :| 0 <= j < |es[1..]| && es[1..][j] == rest[i];
        assert es[j + 1] == rest[i];
      }
    }
  }

  lemma AddExpenseKeeps(db: Database, e: Expense)
    requires Rules(db) && GoodExpense(db, e) && |ExpensesOf(db.expenses, e.budgetID)| < MAX_EXPENSES
    requires FindExpense(db.expenses, e.id).None?
    ensures Rules(db.(expenses := db.expenses + [e]))
  {
    hide LinkRules, FindCategory, ExpensesOf, FindExpense;
    NoSuchExpense(db.expenses, e.id);
    forall b ensures |ExpensesOf(db.expenses + [e], b)| <= MAX_EXPENSES {
      ExpensesConcat(db.expenses, [e], b);
      OneExpense(e, b);
    }
  }

  lemma OneExpense(e: Expense, b: Id)
    ensures |ExpensesOf([e], b)| == if e.budgetID == b then 1 else 0
  {
    assert [e][1..] == [];
  }

  lemma ChangeExpenseKeeps(db: Database, id: Id, s: Id, p: ExpensePatch)
    requires Rules(db)
    requires p.amount.Some? ==> InRange(p.amount.value)
    requires p.categoryID.Some? ==> CategoryBelongs(db, p.categoryID.value, s)
    ensures Rules(db.(expenses := PatchExpenses(db.expenses, id, s, p)))
    ensures Rules(db.(expenses := RemoveExpense(db.expenses, id, s)))
  {
    hide LinkRules, FindCategory, ExpensesOf, PatchExpenses, RemoveExpense;
    ExpenseOrigins(db.expenses, id, s, p);
    RemainDistinct(db.expenses, id, s);
    var patched := PatchExpenses(db.expenses, id, s, p);
    forall f | f in patched ensures GoodExpense(db.(expenses := patched), f) {
      var i :| 0 <= i < |patched| && patched[i] == f;
      assert db.expenses[i] in db.expenses;
    }
    forall b ensures |ExpensesOf(PatchExpenses(db.expenses, id, s, p), b)| <= MAX_EXPENSES
             ensures |ExpensesOf(RemoveExpense(db.expenses, id, s), b)| <= MAX_EXPENSES {
      PatchedExpenses(db.expenses, id, s, p, b);
    }
  }

  // ---------- Categories ----------

  lemma {:induction false} NoSuchCategory(cs: seq<Category>, id: Id)
    ensures FindCategory(cs, id).None? <==> forall c :: c in cs ==> c.id != id
  {
    if cs != [] {
      NoSuchCategory(cs[1..], id);
      assert cs == [cs[0]] + cs[1..];
    }
  }

  lemma {:induction false} PatchedIdsKept(cs: seq<Category>, id: Id, s: Id, p: CategoryPatch)
    ensures |PatchCategories(cs, id, s, p)| == |cs|
    ensures forall i :: 0 <= i < |cs| ==> PatchCategories(cs, id, s, p)[i].id == cs[i].id
  {
    if cs != [] {
      PatchedIdsKept(cs[1..], id, s, p);
    }
  }

  lemma AddCategoryKeeps(db: Database, c: Category)
    requires Rules(db) && FindCategory(db.categories, c.id).None?
    ensures Rules(db.(categories := db.categories + [c]))
  {
    hide LinkRules, Integrity, FindCategory;
    AddCategoryIntegrity(db, c);
    NoSuchCategory(db.categories, c.id);
    assert Keys(db.(categories := db.categories + [c]));
    forall e | e in db.expenses ensures GoodExpense(db.(categories := db.categories + [c]), e) {
      CategoriesAppend(db.categories, c, 0, e.categoryID);
    }
  }

  lemma ChangeCategoryKeeps(db: Database, id: Id, s: Id, p: CategoryPatch)
    requires Rules(db)
    ensures Rules(db.(categories := PatchCategories(db.categories, id, s, p)))
  {
    hide LinkRules, Integrity, FindCategory, PatchCategories;
    PatchCategoryIntegrity(db, id, s, p);
    PatchedIdsKept(db.categories, id, s, p);
    forall e | e in db.expenses ensures GoodExpense(db.(categories := PatchCategories(db.categories, id, s, p)), e) {
      PatchedFind(db.categories, id, s, p, e.categoryID);
    }
  }

  // ---------- Links ----------

  lemma {:induction false} PatchedLinkCount(ls: seq<Link>, id: Id, t: Id, mode: FilterMode, x: Id)
    ensures |LinksTo(PatchLinks(ls, id, t, mode), x)| == |LinksTo(ls, x)|
    ensures |LinksTo(RemoveLink(ls, id, t), x)| <= |LinksTo(ls, x)|
  {
    if ls != [] {
      PatchedLinkCount(ls[1..], id, t, mode, x);
      LinksConcat(if ls[0].id == id && ls[0].target == t then [] else [ls[0]], RemoveLink(ls[1..], id, t), x);
    }
  }

  lemma {:induction false} NoSuchLink(ls: seq<Link>, id: Id)
    ensures FindLink(ls, id).None? <==> forall l :: l in ls ==> l.id != id
  {
    if ls != [] {
      NoSuchLink(ls[1..], id);
      assert ls == [ls[0]] + ls[1..];
    }
  }

  lemma {:induction false} LinksRemainDistinct(ls: seq<Link>, id: Id, t: Id)
    requires DistinctIds(ls)
    ensures DistinctIds(RemoveLink(ls, id, t))
  {
    if ls != [] {
      var rest := RemoveLink(ls[1..], id, t);
      LinksRemainDistinct(ls[1..], id, t);
      forall i | 0 <= i < |rest| ensures rest[i].id != ls[0].id {
        RemoveLinkMembers(ls[1..], id, t, rest[i]);
        var j :| 0 <= j < |ls[1..]| && ls[1..][j] == rest[i];
        assert ls[j + 1] == rest[i];
      }
    }
  }

  lemma AddLinkKeeps(db: Database, l: Link)
    requires FindLink(db.links, l.id).None?
    requires Rules(db) && Integrity(db.(links := db.links + [l]))
    requires l.source != l.target && |LinksTo(db.links, l.target)| < MAX_LINKS
    requires !exists m :: m in db.links && m.source == l.target && m.target == l.source
    requires !exists m :: m in db.links && m.target == l.target && m.categoryID == l.categoryID
    ensures Rules(db.(links := db.links + [l]))
  {
    hide Integrity, ExpensesOf, FindCategory, LinksTo;
    var ls := db.links + [l];
    NoSuchLink(db.links, l.id);
    assert forall m :: m in ls <==> m in db.links || m == l;
    forall t ensures |LinksTo(ls, t)| <= MAX_LINKS {
      LinksConcat(db.links, [l], t);
      OneLink(l, t);
    }
  }

  lemma OneLink(l: Link, t: Id)
    ensures |LinksTo([l], t)| == if l.target == t then 1 else 0
  {
    assert [l][1..] == [];
  }

  lemma ChangeLinkKeeps(db: Database, id: Id, t: Id, mode: FilterMode)
    requires Rules(db)
    ensures Rules(db.(links := PatchLinks(db.links, id, t, mode)))
    ensures Rules(db.(links := RemoveLink(db.links, id, t)))
  {
    hide Integrity, ExpensesOf, FindCategory, PatchLinks, RemoveLink, LinksTo;
    PatchLinkIntegrity(db, id, t, mode);
    PatchLinksMembers(db.links, id, t, mode);
    LinksRemainDistinct(db.links, id, t);
    DropLinkIntegrity(db, id, t);
    PatchedIds(db.links, id, t, mode);
    forall m: Link ensures m in RemoveLink(db.links, id, t) ==> m in db.links {
      RemoveLinkMembers(db.links, id, t, m);
    }
    forall x ensures |LinksTo(PatchLinks(db.links, id, t, mode), x)| <= MAX_LINKS
             ensures |LinksTo(RemoveLink(db.links, id, t), x)| <= MAX_LINKS {
      PatchedLinkCount(db.links, id, t, mode, x);
    }
  }

  // ---------- Runs ----------

  lemma StepKeepsRules(db: Database, r: Request)
    requires Rules(db)
    ensures Rules(PlainStep(db, r).db)
  {
    hide Rules, Integrity, ExpensesOf, LinksTo, CategoriesOf, FindCategory, FindBudget, HasAccess, FindExpense, FindLink,
         TotalAllocation, OtherAllocation, MaxSortOrder, PatchExpenses, RemoveExpense, PatchCategories, PatchLinks, RemoveLink;
    match r
    case ReadSummary(_, _, _) =>
    case AddExpense(user, b, id, category, amount, date) =>
      if PlainAddExpense(db, user, b, id, category, amount, date).reply == Done {
        AddExpenseKeeps(db, Expense(id, b, category, amount, date, Some(user)));
      }
    case ChangeExpense(user, b, id, p) =>
      if PlainChangeExpense(db, user, b, id, p).reply == Done {
        ChangeExpenseKeeps(db, id, b, p);
      }
    case DropExpense(_, b, id) => ChangeExpenseKeeps(db, id, b, ExpensePatch(None, None, None));
    case AddCategory(user, b, id, name, allocation, sortOrder) =>
      if PlainAddCategory(db, user, b, id, name, allocation, sortOrder).reply == Done {
        AddCategoryKeeps(db, NewCategory(db, b, id, name, allocation, sortOrder));
      }
    case ChangeCategory(_, b, id, p) => ChangeCategoryKeeps(db, id, b, p);
    case AddLink(user, t, id, source, category, mode) =>
      if PlainAddLink(db, user, t, id, source, category, mode).reply == Done {
        AddedLinkIntegrity(db, Link(id, source, t, category, mode));
        AddLinkKeeps(db, Link(id, source, t, category, mode));
      }
    case ChangeLink(_, t, id, mode) => ChangeLinkKeeps(db, id, t, mode);
    case DropLink(_, t, id) => ChangeLinkKeeps(db, id, t, All);
  }

  lemma AddedLinkIntegrity(db: Database, l: Link)
    requires Rules(db) && FindLink(db.links, l.id).None? && CategoryBelongs(db, l.categoryID, l.source)
    ensures Integrity(db.(links := db.links + [l]))
  {
    AddLinkIntegrity(db, l);
  }

  /** Whatever requests are served, the tables keep every rule they started with. */
  lemma {:induction false} RunKeepsRules(db: Database, rs: seq<Request>)
    requires Rules(db)
    ensures Rules(PlainRun(db, rs))
  {
    if rs != [] {
      hide Rules, PlainStep;
      RunKeepsRules(db, rs[..|rs| - 1]);
      StepKeepsRules(PlainRun(db, rs[..|rs| - 1]), rs[|rs| - 1]);
    }
  }

  /** Whatever requests were served before, a summary shows beside its categories and links exactly the
      amounts its total adds up. */
  lemma EveryTotalIsShown(db: Database, rs: seq<Request>, b: Id, viewer: Id, today: Date)
    requires Rules(db) && Valid(today) && ComputeSummary(PlainRun(db, rs), b, viewer, today).Some?
    ensures var s := ComputeSummary(PlainRun(db, rs), b, viewer, today).value;
            s.totalSpent == ShownSpent(s.categories) + ShownLinkSpent(s.linked)
  {
    hide PlainRun, ComputeSummary, FindCategory, DistinctCategories, Integrity, LinkRules, ExpensesOf;
    RunKeepsRules(db, rs);
    TotalIsShown(PlainRun(db, rs), b, viewer, today);
  }
}
