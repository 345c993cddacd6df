/**
 * The income page (src/app/income/page.tsx): income transactions kept in
 * React state and written back to the key "remindme_income_transactions"
 * after every change.
 */
module Income {
  import opened Wrappers
  import opened Storage
  import opened Dates
  import opened Records
  import Lists
  import Dashboard

  /** The fields of the income dialog; an empty `source` means none was given. */
  datatype IncomeForm = IncomeForm(date: Date, description: string, amount: real, source: string)

  /**
   * The dialog opened on `t` for editing: each field shows the record's value;
   * an absent source shows as an empty field.
   */
  function EditForm(t: IncomeTransaction): IncomeForm {
    IncomeForm(t.date, t.description, t.amount, if t.source.Some? then t.source.value else "")
  }

  /**
   * The record `handleSaveTransaction` builds from the dialog: an empty source
   * is stored as absent, and opening the record for editing shows exactly the
   * submitted values.
   */
  function FromForm(id: string, form: IncomeForm): (t: IncomeTransaction)
    ensures t.id == id
    ensures t.source.None? <==> form.source == ""
    ensures t.source.Some? ==> t.source.value == form.source
    ensures EditForm(t) == form
  {
    IncomeTransaction(id, form.date, form.description, form.amount, EmptyAsAbsent(form.source))
  }

  /**
   * `handleSaveTransaction`: with a transaction being edited, every entry with
   * its id becomes the saved record; otherwise the new record is appended and
   * the list sorted by date, newest first.
   */
  function SaveTransaction(
    txns: seq<IncomeTransaction>, editingId: Option<string>, form: IncomeForm, freshId: string)
    : (r: seq<IncomeTransaction>)
    ensures editingId.Some? ==> |r| == |txns|
    ensures editingId.Some? ==> forall i :: 0 <= i < |txns| ==>
      r[i] == (if txns[i].id == editingId.value then FromForm(OrElse(editingId, freshId), form) else txns[i])
    ensures editingId.Some? && editingId.value != "" ==> forall i :: 0 <= i < |r| ==> r[i].id == txns[i].id
    ensures editingId.None? ==> |r| == |txns| + 1
    ensures editingId.None? ==> multiset(r) == multiset(txns) + multiset{FromForm(freshId, form)}
    ensures editingId.None? ==> Lists.SortedDesc(r, IncomeDate)
  {
    var saved := FromForm(OrElse(editingId, freshId), form);
    if editingId.Some? then Lists.ReplaceById(txns, IncomeId, editingId.value, saved)
    else Lists.SortByDateDesc(txns + [saved], IncomeDate)
  }

  /**
   * A new transaction dated like some existing ones is placed after them: it
   * was appended and the sort is stable.
   */
  lemma AddedAfterSameDate(txns: seq<IncomeTransaction>, form: IncomeForm, freshId: string)
    ensures Lists.OnDate(SaveTransaction(txns, None, form, freshId), IncomeDate, form.date)
         == Lists.OnDate(txns, IncomeDate, form.date) + [FromForm(freshId, form)]
  {
    Lists.AppendThenSort(txns, FromForm(freshId, form), IncomeDate);
  }

  /** Adding a transaction raises the dashboard's all-time income by its amount. */
  lemma AddRaisesTotalIncome(txns: seq<IncomeTransaction>, form: IncomeForm, freshId: string)
    ensures Dashboard.Total(SaveTransaction(txns, None, form, freshId), IncomeAmount)
         == Dashboard.Total(txns, IncomeAmount) + form.amount
  {
    var t := FromForm(freshId, form);
    Dashboard.TotalPermutation(SaveTransaction(txns, None, form, freshId), txns + [t], IncomeAmount);
    Dashboard.TotalAppend(txns, [t], IncomeAmount);
  }

  /** `handleDeleteTransaction`: drops the entries with that id, keeping the others in order. */
  function DeleteTransaction(txns: seq<IncomeTransaction>, id: string): (r: seq<IncomeTransaction>)
    ensures forall i :: 0 <= i < |r| ==> r[i].id != id
    ensures forall i :: 0 <= i < |txns| && txns[i].id != id ==> txns[i] in r
    ensures forall i :: 0 <= i < |r| ==> r[i] in txns
    ensures multiset(r) <= multiset(txns)
    ensures forall x: IncomeTransaction :: x.id != id ==> multiset(r)[x] == multiset(txns)[x]
  {
    var r := Lists.RemoveById(txns, IncomeId, id);
    Lists.RemoveByIdKeeps(txns, IncomeId, id);
    Lists.RemoveByIdCounts(txns, IncomeId, id);
    r
  }

  /** The page's state; `storage` is what the effect that saves `incomeTransactions` on every change last stored. */
  class IncomePage {
    var transactions: seq<IncomeTransaction>
    var storage: Stored<seq<IncomeTransaction>>

    ghost predicate Persisted()
      reads this
    {
      storage == Present(transactions)
    }

    /** Initial state, from the lazy `useState` initialiser: the stored list if it parses, else empty. */
    constructor (stored: Stored<seq<IncomeTransaction>>)
      ensures transactions == OrEmpty(stored)
      ensures Persisted()
    {
      transactions := OrEmpty(stored);
      storage := Present(transactions);
    }

    method HandleSaveTransaction(editingId: Option<string>, form: IncomeForm, freshId: string)
      modifies this
      ensures transactions == SaveTransaction(old(transactions), editingId, form, freshId)
      ensures Persisted()
    {
      transactions := SaveTransaction(transactions, editingId, form, freshId);
      storage := Present(transactions);
    }

    method HandleDeleteTransaction(id: string)
      modifies this
      ensures transactions == DeleteTransaction(old(transactions), id)
      ensures Persisted()
    {
      transactions := DeleteTransaction(transactions, id);
      storage := Present(transactions);
    }
  }
}
