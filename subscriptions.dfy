/**
 * The subscriptions page (src/app/subscriptions/page.tsx): a list of
 * subscriptions kept in React state and written back to the key
 * "remindme_subscriptions" after every change. The page edits, adds, deletes
 * and changes the status of subscriptions; nothing on it moves a due date
 * except an edit that types a new one.
 */
module Subscriptions {
  import opened Wrappers
  import opened Storage
  import opened Dates
  import opened Records
  import Lists

  const InitialSubscriptions: seq<Subscription> := [
    Subscription("1", "Netflix Premium", 19.99, Mensual, Date(2024, 8, 15), Activa),
    Subscription("2", "Spotify Family", 16.99, Mensual, Date(2024, 8, 20), Activa),
    Subscription("3", "Adobe Creative Cloud", 599.88, Anual, Date(2025, 1, 10), Activa),
    Subscription("4", "Membresía de Gimnasio", 45.00, Mensual, Date(2024, 8, 1), Pausada),
    Subscription("5", "Servicio Antiguo", 10.00, Mensual, Date(2024, 7, 1), Cancelada)
  ]

  /** The fields of the subscription dialog. */
  datatype SubscriptionForm = SubscriptionForm(
    name: string, amount: real, cycle: Cycle, nextDueDate: Date, status: Status)

  /** The dialog opened on `s` for editing: each field shows the record's value. */
  function EditForm(s: Subscription): SubscriptionForm {
    SubscriptionForm(s.name, s.amount, s.cycle, s.nextDueDate, s.status)
  }

  /**
   * The record `handleSaveSubscription` builds from the dialog: it carries the
   * given id, and opening it for editing shows exactly the submitted values.
   */
  function FromForm(id: string, form: SubscriptionForm): (s: Subscription)
    ensures s.id == id && EditForm(s) == form
  {
    Subscription(id, form.name, form.amount, form.cycle, form.nextDueDate, form.status)
  }

  /** Saving the edit dialog untouched gives back the record being edited. */
  lemma UntouchedEditKeepsRecord(s: Subscription)
    ensures FromForm(s.id, EditForm(s)) == s
  {
  }

  /**
   * `handleSaveSubscription`: with a subscription being edited, every entry
   * with its id becomes the saved record; otherwise the new record is appended
   * and the list sorted by due date, latest first.
   */
  function SaveSubscription(
    subs: seq<Subscription>, editingId: Option<string>, form: SubscriptionForm, freshId: string)
    : (r: seq<Subscription>)
    ensures editingId.Some? ==> |r| == |subs|
    ensures editingId.Some? ==> forall i :: 0 <= i < |subs| ==>
      r[i] == (if subs[i].id == editingId.value then FromForm(OrElse(editingId, freshId), form) else subs[i])
    ensures editingId.Some? && editingId.value != "" ==> forall i :: 0 <= i < |r| ==> r[i].id == subs[i].id
    ensures editingId.None? ==> |r| == |subs| + 1
    ensures editingId.None? ==> multiset(r) == multiset(subs) + multiset{FromForm(freshId, form)}
    ensures editingId.None? ==> Lists.SortedDesc(r, SubscriptionDueDate)
  {
    var saved := FromForm(OrElse(editingId, freshId), form);
    if editingId.Some? then Lists.ReplaceById(subs, SubscriptionId, editingId.value, saved)
    else Lists.SortByDateDesc(subs + [saved], SubscriptionDueDate)
  }

  /**
   * A new subscription whose due date some others share is placed after
   * them: the sort is stable and the new record was appended.
   */
  lemma AddedAfterSameDueDate(subs: seq<Subscription>, form: SubscriptionForm, freshId: string)
    ensures Lists.OnDate(SaveSubscription(subs, None, form, freshId), SubscriptionDueDate, form.nextDueDate)
         == Lists.OnDate(subs, SubscriptionDueDate, form.nextDueDate) + [FromForm(freshId, form)]
  {
    Lists.AppendThenSort(subs, FromForm(freshId, form), SubscriptionDueDate);
  }

  /** `handleDeleteSubscription`: drops the entries with that id, keeping the others in order. */
  function DeleteSubscription(subs: seq<Subscription>, id: string): (r: seq<Subscription>)
    ensures forall i :: 0 <= i < |r| ==> r[i].id != id
    ensures forall i :: 0 <= i < |subs| && subs[i].id != id ==> subs[i] in r
    ensures forall i :: 0 <= i < |r| ==> r[i] in subs
    ensures multiset(r) <= multiset(subs)
    ensures forall x: Subscription :: x.id != id ==> multiset(r)[x] == multiset(subs)[x]
  {
    var r := Lists.RemoveById(subs, SubscriptionId, id);
    Lists.RemoveByIdKeeps(subs, SubscriptionId, id);
    Lists.RemoveByIdCounts(subs, SubscriptionId, id);
    r
  }

  /**
   * `handleChangeStatus`: the entries with that id take the new status; every
   * other field of every entry, and the order, stay as they were.
   */
  function ChangeStatus(subs: seq<Subscription>, id: string, newStatus: Status): (r: seq<Subscription>)
    ensures |r| == |subs|
    ensures forall i :: 0 <= i < |subs| ==>
      r[i].id == subs[i].id && r[i].name == subs[i].name && r[i].amount == subs[i].amount &&
      r[i].cycle == subs[i].cycle && r[i].nextDueDate == subs[i].nextDueDate
    ensures forall i :: 0 <= i < |subs| ==> r[i].status == (if subs[i].id == id then newStatus else subs[i].status)
  {
    if subs == [] then []
    else [if subs[0].id == id then subs[0].(status := newStatus) else subs[0]]
         + ChangeStatus(subs[1..], id, newStatus)
  }

  /** The statuses the row menu offers: each of the three except the current one, as the row's dropdown menu lists them. */
  function StatusMenu(current: Status): (menu: seq<Status>)
    ensures |menu| == 2
    ensures current !in menu
    ensures forall s: Status :: s != current ==> s in menu
  {
    (if current != Activa then [Activa] else []) +
    (if current != Pausada then [Pausada] else []) +
    (if current != Cancelada then [Cancelada] else [])
  }

  /**
   * Any status can be reached from any other in one menu step, including
   * Cancelada back to Activa, and the step changes only that status.
   */
  lemma StatusReachable(subs: seq<Subscription>, i: int, target: Status)
    requires 0 <= i < |subs| && target != subs[i].status
    ensures target in StatusMenu(subs[i].status)
    ensures ChangeStatus(subs, subs[i].id, target)[i] == subs[i].(status := target)
  {
  }

  /**
   * Deleting and changing a status never change a due date: every due date
   * afterwards is one that was already in the list.
   */
  lemma DueDatesOnlyMovedByEdits(subs: seq<Subscription>, id: string, s: Status)
    ensures forall i :: 0 <= i < |DeleteSubscription(subs, id)| ==>
      exists j :: 0 <= j < |subs| && subs[j].nextDueDate == DeleteSubscription(subs, id)[i].nextDueDate
    ensures forall i :: 0 <= i < |subs| ==> ChangeStatus(subs, id, s)[i].nextDueDate == subs[i].nextDueDate
  {
    var r := DeleteSubscription(subs, id);
    forall i | 0 <= i < |r|
      ensures exists j :: 0 <= j < |subs| && subs[j].nextDueDate == r[i].nextDueDate
    {
      assert r[i] in subs;
      var j :| 0 <= j < |subs| && subs[j] == r[i];
    }
  }

  /** The page's state; `storage` is what the effect that saves `subscriptions` on every change last stored. */
  class SubscriptionsPage {
    var subscriptions: seq<Subscription>
    var storage: Stored<seq<Subscription>>

    ghost predicate Persisted()
      reads this
    {
      storage == Present(subscriptions)
    }

    /** Initial state, from the lazy `useState` initialiser: the stored list if it parses, else the five defaults. */
    constructor (stored: Stored<seq<Subscription>>)
      ensures subscriptions == (if stored.Present? then stored.value else InitialSubscriptions)
      ensures Persisted()
    {
      subscriptions := if stored.Present? then stored.value else InitialSubscriptions;
      storage := Present(subscriptions);
    }

    method HandleSaveSubscription(editingId: Option<string>, form: SubscriptionForm, freshId: string)
      modifies this
      ensures subscriptions == SaveSubscription(old(subscriptions), editingId, form, freshId)
      ensures Persisted()
    {
      subscriptions := SaveSubscription(subscriptions, editingId, form, freshId);
      storage := Present(subscriptions);
    }

    method HandleDeleteSubscription(id: string)
      modifies this
      ensures subscriptions == DeleteSubscription(old(subscriptions), id)
      ensures Persisted()
    {
      subscriptions := DeleteSubscription(subscriptions, id);
      storage := Present(subscriptions);
    }

    method HandleChangeStatus(id: string, newStatus: Status)
      modifies this
      ensures subscriptions == ChangeStatus(old(subscriptions), id, newStatus)
      ensures Persisted()
    {
      subscriptions := ChangeStatus(subscriptions, id, newStatus);
      storage := Present(subscriptions);
    }
  }
}
