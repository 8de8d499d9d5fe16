/** The rows the handlers read and write. UUIDs are their 128-bit numbers, money is integer cents. */
module Models {
  import opened Wrappers
  import opened Calendar

  type Id = nat

  datatype FilterMode = All | Mine

  datatype Budget = Budget(id: Id, owner: Id, name: string, icon: string, currency: string, income: int,
                           periodMonths: int, cutoffDay: int, mode: string, updatedAt: int)

  datatype Category = Category(id: Id, budgetID: Id, name: string, allocation: int, sortOrder: int)

  datatype Expense = Expense(id: Id, budgetID: Id, categoryID: Id, amount: int, date: Date, createdBy: Option<Id>)

  datatype Link = Link(id: Id, source: Id, target: Id, categoryID: Id, mode: FilterMode)

  /** A link together with the source budget and source category rows the summary shows for it. */
  datatype LinkInfo = LinkInfo(link: Link, source: Budget, category: Category)
}
