/**
 * The expenses page (src/app/expenses/page.tsx): expenses kept only in React
 * state, starting from four built-in records; the page never reads or writes
 * local storage.
 */
module Expenses {
  import opened Wrappers
  import opened Dates
  import opened Records
  import Lists

  const InitialExpenses: seq<Expense> := [
    Expense("1", Date(2024, 7, 20), "Food & Dining", "Groceries from SuperMart", 75.50),
    Expense("2", Date(2024, 7, 19), "Transportation", "Monthly metro pass", 55.00),
    Expense("3", Date(2024, 7, 18), "Shopping", "Movie tickets - Space Odyssey", 25.00),
    Expense("4", Date(2024, 7, 17), "Housing", "Electricity bill", 120.75)
  ]

  /** The fields of the expense dialog. */
  datatype ExpenseForm = ExpenseForm(date: Date, category: string, description: string, amount: real)

  /**
   * The dialog opened on `e` for editing: each field shows the record's value,
   * except that an empty category shows `firstCategory`, the first entry of
   * the category menu.
   */
  function EditForm(e: Expense, firstCategory: string): ExpenseForm {
    ExpenseForm(e.date, if e.category != "" then e.category else firstCategory, e.description, e.amount)
  }

  /**
   * The record `handleSaveExpense` builds from the dialog: it carries the given
   * id, and opening it for editing shows the submitted values whenever a
   * category was chosen.
   */
  function FromForm(id: string, form: ExpenseForm): (e: Expense)
    ensures e.id == id
    ensures e.date == form.date && e.category == form.category
    ensures e.description == form.description && e.amount == form.amount
    ensures forall firstCategory :: form.category != "" ==> EditForm(e, firstCategory) == form
  {
    Expense(id, form.date, form.category, form.description, form.amount)
  }

  /**
   * Saving the edit dialog untouched gives back the record being edited, except
   * that an empty category is replaced by the menu's first category.
   */
  lemma UntouchedEditKeepsRecord(e: Expense, firstCategory: string)
    ensures FromForm(e.id, EditForm(e, firstCategory))
         == (if e.category != "" then e else e.(category := firstCategory))
  {
  }

  /**
   * `handleSaveExpense`: with an expense being edited, every entry with its id
   * becomes the saved record; otherwise the new record is put in front and the
   * list sorted by date, newest first.
   */
  function SaveExpense(exps: seq<Expense>, editingId: Option<string>, form: ExpenseForm, freshId: string)
    : (r: seq<Expense>)
    ensures editingId.Some? ==> |r| == |exps|
    ensures editingId.Some? ==> forall i :: 0 <= i < |exps| ==>
      r[i] == (if exps[i].id == editingId.value then FromForm(OrElse(editingId, freshId), form) else exps[i])
    ensures editingId.Some? && editingId.value != "" ==> forall i :: 0 <= i < |r| ==> r[i].id == exps[i].id
    ensures editingId.None? ==> |r| == |exps| + 1
    ensures editingId.None? ==> multiset(r) == multiset(exps) + multiset{FromForm(freshId, form)}
    ensures editingId.None? ==> Lists.SortedDesc(r, ExpenseDate)
  {
    var saved := FromForm(OrElse(editingId, freshId), form);
    if editingId.Some? then Lists.ReplaceById(exps, ExpenseId, editingId.value, saved)
    else Lists.SortByDateDesc([saved] + exps, ExpenseDate)
  }

  /**
   * A new expense dated like some existing ones is placed before them: it was
   * put in front and the sort is stable (the income page does the opposite).
   */
  lemma AddedBeforeSameDate(exps: seq<Expense>, form: ExpenseForm, freshId: string)
    ensures Lists.OnDate(SaveExpense(exps, None, form, freshId), ExpenseDate, form.date)
         == [FromForm(freshId, form)] + Lists.OnDate(exps, ExpenseDate, form.date)
  {
    Lists.PrependThenSort(exps, FromForm(freshId, form), ExpenseDate);
  }

  /** `handleDeleteExpense`: drops the entries with that id, keeping the others in order. */
  function DeleteExpense(exps: seq<Expense>, id: string): (r: seq<Expense>)
    ensures forall i :: 0 <= i < |r| ==> r[i].id != id
    ensures forall i :: 0 <= i < |exps| && exps[i].id != id ==> exps[i] in r
    ensures forall i :: 0 <= i < |r| ==> r[i] in exps
    ensures multiset(r) <= multiset(exps)
    ensures forall x: Expense :: x.id != id ==> multiset(r)[x] == multiset(exps)[x]
  {
    var r := Lists.RemoveById(exps, ExpenseId, id);
    Lists.RemoveByIdKeeps(exps, ExpenseId, id);
    Lists.RemoveByIdCounts(exps, ExpenseId, id);
    r
  }

  /** The page's state: an in-memory list with no storage behind it. */
  class ExpensesPage {
    var expenses: seq<Expense>

    constructor ()
      ensures expenses == InitialExpenses
    {
      expenses := InitialExpenses;
    }

    method HandleSaveExpense(editingId: Option<string>, form: ExpenseForm, freshId: string)
      modifies this
      ensures expenses == SaveExpense(old(expenses), editingId, form, freshId)
    {
      expenses := SaveExpense(expenses, editingId, form, freshId);
    }

    method HandleDeleteExpense(id: string)
      modifies this
      ensures expenses == DeleteExpense(old(expenses), id)
    {
      expenses := DeleteExpense(expenses, id);
    }
  }
}
