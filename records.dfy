/** The database rows the ledger reads and writes. Amounts are integer
    cents. */
module Records {
  import opened Options

  /** A row of `subscriptions`: a recurring charge template. */
  datatype Subscription = Subscription(
    id: string, name: string, price: int, startDate: string, category: string, active: bool)

  /** A row of `expenses`, as the database returns it (with its id). */
  datatype Expense = Expense(
    id: string, name: string, amount: int, date: string, category: string, isRecurring: bool)

  /** An `expenses` row about to be inserted: no id yet, and the owner. */
  datatype NewExpense = NewExpense(
    userId: string, name: string, amount: int, category: string, date: string, isRecurring: bool)

  /** A row of `profiles`: either column may be null. */
  datatype Profile = Profile(income: Option<int>, savingsGoal: Option<int>)

  /** A row of `monthly_budgets`: the income recorded for a month. */
  datatype MonthlyBudget = MonthlyBudget(date: string, income: int)
}
