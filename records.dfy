/**
 * The records the pages keep in their lists. Every record has a string id;
 * dates are the `yyyy-mm-dd` fields read as calendar dates; amounts are the
 * parsed form amounts.
 */
module Records {
  import opened Wrappers
  import opened Dates

  datatype Expense = Expense(id: string, date: Date, category: string, description: string, amount: real)

  datatype IncomeTransaction = IncomeTransaction(
    id: string, date: Date, description: string, amount: real, source: Option<string>)

  /** Billing cycle: "Mensual", "Anual", "Trimestral". */
  datatype Cycle = Mensual | Anual | Trimestral

  /** Subscription state: "Activa", "Pausada", "Cancelada". */
  datatype Status = Activa | Pausada | Cancelada

  datatype Subscription = Subscription(
    id: string, name: string, amount: real, cycle: Cycle, nextDueDate: Date, status: Status)

  // Field projections, passed to the generic list operations of module Lists.

  function ExpenseId(e: Expense): string { e.id }
  function ExpenseDate(e: Expense): Date { e.date }
  function ExpenseAmount(e: Expense): real { e.amount }

  function IncomeId(t: IncomeTransaction): string { t.id }
  function IncomeDate(t: IncomeTransaction): Date { t.date }
  function IncomeAmount(t: IncomeTransaction): real { t.amount }

  function SubscriptionId(s: Subscription): string { s.id }
  function SubscriptionDueDate(s: Subscription): Date { s.nextDueDate }
}
