/**
 * The list transforms the pages apply to their records: replace by id
 * (`list.map(r => r.id === id ? x : r)`), delete by id
 * (`list.filter(r => r.id !== id)`) and the stable sort by date, newest first
 * (`list.sort((a, b) => new Date(b.date).getTime() - new Date(a.date).getTime())`,
 * which JavaScript guarantees to be stable). They are generic in the record;
 * `idOf` and `dateOf` project the id and the date.
 */
module Lists {
  import opened Dates

  /** Every record with the given id becomes `x`; the others stay where they were. */
  function ReplaceById<T>(s: seq<T>, idOf: T -> string, id: string, x: T): (r: seq<T>)
    ensures |r| == |s|
    ensures forall i :: 0 <= i < |s| ==> r[i] == (if idOf(s[i]) == id then x else s[i])
  {
    if s == [] then []
    else [if idOf(s[0]) == id then x else s[0]] + ReplaceById(s[1..], idOf, id, x)
  }

  /** Replacing twice with the same record changes nothing more. */
  lemma ReplaceByIdIdempotent<T>(s: seq<T>, idOf: T -> string, id: string, x: T)
    ensures ReplaceById(ReplaceById(s, idOf, id, x), idOf, id, x) == ReplaceById(s, idOf, id, x)
  {
    var once := ReplaceById(s, idOf, id, x);
    var twice := ReplaceById(once, idOf, id, x);
    assert forall i :: 0 <= i < |s| ==> twice[i] == once[i];
  }

  /**
   * `Array.prototype.find`: the index of the first element that matches, or
   * -1 when none does.
   */
  function FirstIndex<T>(s: seq<T>, matches: T -> bool): (k: int)
    ensures -1 <= k < |s|
    ensures k >= 0 ==> matches(s[k])
    ensures forall j :: 0 <= j < |s| && (k < 0 || j < k) ==> !matches(s[j])
  {
    if s == [] then -1
    else if matches(s[0]) then 0
    else
      var k := FirstIndex(s[1..], matches);
      if k < 0 then -1 else k + 1
  }

  /** Number of occurrences of `x` in `s`. */
  function Count<T(==)>(s: seq<T>, x: T): nat {
    if s == [] then 0 else (if s[0] == x then 1 else 0) + Count(s[1..], x)
  }

  /** Drops the records with the given id. */
  function RemoveById<T>(s: seq<T>, idOf: T -> string, id: string): (r: seq<T>)
    ensures |r| <= |s|
    ensures forall i :: 0 <= i < |r| ==> idOf(r[i]) != id
  {
    if s == [] then []
    else (if idOf(s[0]) == id then [] else [s[0]]) + RemoveById(s[1..], idOf, id)
  }

  /**
   * Deleting keeps every record whose id differs, each as often as before,
   * and adds nothing.
   */
  lemma {:induction false} RemoveByIdCounts<T>(s: seq<T>, idOf: T -> string, id: string)
    ensures multiset(RemoveById(s, idOf, id)) <= multiset(s)
    ensures forall x :: idOf(x) != id ==> multiset(RemoveById(s, idOf, id))[x] == multiset(s)[x]
  {
    if s != [] {
      RemoveByIdCounts(s[1..], idOf, id);
      var head := if idOf(s[0]) == id then [] else [s[0]];
      assert RemoveById(s, idOf, id) == head + RemoveById(s[1..], idOf, id);
      assert s == [s[0]] + s[1..];
    }
  }

  /** Deleting keeps every record whose id differs, and every survivor comes from the list. */
  lemma {:induction false} RemoveByIdKeeps<T>(s: seq<T>, idOf: T -> string, id: string)
    ensures forall i :: 0 <= i < |s| && idOf(s[i]) != id ==> s[i] in RemoveById(s, idOf, id)
    ensures forall i :: 0 <= i < |RemoveById(s, idOf, id)| ==> RemoveById(s, idOf, id)[i] in s
  {
    if s != [] {
      RemoveByIdKeeps(s[1..], idOf, id);
      var head := if idOf(s[0]) == id then [] else [s[0]];
      var tail := RemoveById(s[1..], idOf, id);
      assert RemoveById(s, idOf, id) == head + tail;
      forall i | 0 <= i < |s| && idOf(s[i]) != id
        ensures s[i] in head + tail
      {
        if i > 0 {
          assert s[i] == s[1..][i - 1];
        }
      }
      forall i | 0 <= i < |head + tail|
        ensures (head + tail)[i] in s
      {
        if i >= |head| {
          assert (head + tail)[i] == tail[i - |head|];
        }
      }
    }
  }

  /** Deleting distributes over concatenation, so the survivors keep their order. */
  lemma {:induction false} RemoveByIdAppend<T>(a: seq<T>, b: seq<T>, idOf: T -> string, id: string)
    ensures RemoveById(a + b, idOf, id) == RemoveById(a, idOf, id) + RemoveById(b, idOf, id)
  {
    if a == [] {
      assert a + b == b;
    } else {
      var head := if idOf(a[0]) == id then [] else [a[0]];
      assert (a + b)[0] == a[0];
      assert (a + b)[1..] == a[1..] + b;
      RemoveByIdAppend(a[1..], b, idOf, id);
      calc {
        RemoveById(a + b, idOf, id);
        head + RemoveById(a[1..] + b, idOf, id);
        head + (RemoveById(a[1..], idOf, id) + RemoveById(b, idOf, id));
        (head + RemoveById(a[1..], idOf, id)) + RemoveById(b, idOf, id);
        RemoveById(a, idOf, id) + RemoveById(b, idOf, id);
      }
    }
  }

  /** A list without the id is left exactly as it was. */
  lemma {:induction false} RemoveByIdAbsent<T>(s: seq<T>, idOf: T -> string, id: string)
    requires forall i :: 0 <= i < |s| ==> idOf(s[i]) != id
    ensures RemoveById(s, idOf, id) == s
  {
    if s != [] {
      RemoveByIdAbsent(s[1..], idOf, id);
    }
  }

  /** Deleting the same id twice removes nothing more. */
  lemma RemoveByIdIdempotent<T>(s: seq<T>, idOf: T -> string, id: string)
    ensures RemoveById(RemoveById(s, idOf, id), idOf, id) == RemoveById(s, idOf, id)
  {
    RemoveByIdAbsent(RemoveById(s, idOf, id), idOf, id);
  }

  /** Newest first: no record is dated after one that precedes it. */
  predicate SortedDesc<T>(s: seq<T>, dateOf: T -> Date) {
    forall i, j :: 0 <= i < j < |s| ==> OnOrBefore(dateOf(s[j]), dateOf(s[i]))
  }

  /** The records dated `d`, in list order. */
  function OnDate<T>(s: seq<T>, dateOf: T -> Date, d: Date): seq<T> {
    if s == [] then []
    else (if dateOf(s[0]) == d then [s[0]] else []) + OnDate(s[1..], dateOf, d)
  }

  lemma {:induction false} OnDateAppend<T>(a: seq<T>, b: seq<T>, dateOf: T -> Date, d: Date)
    ensures OnDate(a + b, dateOf, d) == OnDate(a, dateOf, d) + OnDate(b, dateOf, d)
  {
    if a == [] {
      assert a + b == b;
    } else {
      assert (a + b)[0] == a[0];
      assert (a + b)[1..] == a[1..] + b;
      OnDateAppend(a[1..], b, dateOf, d);
    }
  }

  /** No record of a list dated strictly before `d` is dated `d`. */
  lemma {:induction false} OnDateAllEarlier<T>(s: seq<T>, dateOf: T -> Date, d: Date)
    requires forall i :: 0 <= i < |s| ==> !OnOrBefore(d, dateOf(s[i]))
    ensures OnDate(s, dateOf, d) == []
  {
    if s != [] {
      OnDateAllEarlier(s[1..], dateOf, d);
    }
  }

  /** No record is dated after `d`. */
  predicate NotAfter<T>(s: seq<T>, dateOf: T -> Date, d: Date) {
    forall i :: 0 <= i < |s| ==> OnOrBefore(dateOf(s[i]), d)
  }

  /** A record followed by a newest-first list of records not dated after it is newest first. */
  lemma SortedCons<T>(a: T, t: seq<T>, dateOf: T -> Date)
    requires SortedDesc(t, dateOf) && NotAfter(t, dateOf, dateOf(a))
    ensures SortedDesc([a] + t, dateOf)
  {
    var r := [a] + t;
    forall i, j | 0 <= i < j < |r|
      ensures OnOrBefore(dateOf(r[j]), dateOf(r[i]))
    {
      assert r[j] == t[j - 1];
      if i > 0 {
        assert r[i] == t[i - 1];
      }
    }
  }

  /**
   * Inserts `x` after every leading record dated on or after it: one step of
   * a stable insertion sort.
   */
  function Insert<T>(s: seq<T>, x: T, dateOf: T -> Date): (r: seq<T>)
    ensures |r| == |s| + 1
  {
    if s == [] then [x]
    else if OnOrBefore(dateOf(x), dateOf(s[0])) then
      [s[0]] + Insert(s[1..], x, dateOf)
    else
      [x] + s
  }

  /** Inserting adds one copy of `x` and keeps every record. */
  lemma {:induction false} InsertCounts<T>(s: seq<T>, x: T, dateOf: T -> Date)
    ensures multiset(Insert(s, x, dateOf)) == multiset(s) + multiset{x}
  {
    if s != [] && OnOrBefore(dateOf(x), dateOf(s[0])) {
      InsertCounts(s[1..], x, dateOf);
      assert s == [s[0]] + s[1..];
    }
  }

  lemma {:induction false} InsertNotAfter<T>(s: seq<T>, x: T, dateOf: T -> Date, d: Date)
    requires NotAfter(s, dateOf, d) && OnOrBefore(dateOf(x), d)
    ensures NotAfter(Insert(s, x, dateOf), dateOf, d)
  {
    if s != [] && OnOrBefore(dateOf(x), dateOf(s[0])) {
      assert NotAfter(s[1..], dateOf, d) by {
        forall i | 0 <= i < |s| - 1 ensures OnOrBefore(dateOf(s[1..][i]), d) {
          assert s[1..][i] == s[i + 1];
        }
      }
      InsertNotAfter(s[1..], x, dateOf, d);
      var r := Insert(s, x, dateOf);
      var rest := Insert(s[1..], x, dateOf);
      forall i | 0 <= i < |r| ensures OnOrBefore(dateOf(r[i]), d) {
        if i > 0 {
          assert r[i] == rest[i - 1];
        }
      }
    }
  }

  /** Inserting into a newest-first list keeps it newest first. */
  lemma {:induction false} InsertSorted<T>(s: seq<T>, x: T, dateOf: T -> Date)
    requires SortedDesc(s, dateOf)
    ensures SortedDesc(Insert(s, x, dateOf), dateOf)
  {
    if s == [] {
    } else if OnOrBefore(dateOf(x), dateOf(s[0])) {
      var rest := s[1..];
      SortedTail(s, dateOf);
      InsertSorted(rest, x, dateOf);
      InsertNotAfter(rest, x, dateOf, dateOf(s[0]));
      SortedCons(s[0], Insert(rest, x, dateOf), dateOf);
    } else {
      assert NotAfter(s, dateOf, dateOf(x)) by {
        forall i | 0 <= i < |s| ensures OnOrBefore(dateOf(s[i]), dateOf(x)) {
          if i > 0 {
            OnOrBeforeTransitive(dateOf(s[i]), dateOf(s[0]), dateOf(x));
          }
        }
      }
      SortedCons(x, s, dateOf);
    }
  }

  /** The tail of a newest-first list is newest first and not dated after its head. */
  lemma SortedTail<T>(s: seq<T>, dateOf: T -> Date)
    requires s != [] && SortedDesc(s, dateOf)
    ensures SortedDesc(s[1..], dateOf)
    ensures NotAfter(s[1..], dateOf, dateOf(s[0]))
  {
    var rest := s[1..];
    forall i, j | 0 <= i < j < |rest| ensures OnOrBefore(dateOf(rest[j]), dateOf(rest[i])) {
      assert rest[i] == s[i + 1] && rest[j] == s[j + 1];
    }
    forall i | 0 <= i < |rest| ensures OnOrBefore(dateOf(rest[i]), dateOf(s[0])) {
      assert rest[i] == s[i + 1];
    }
  }

  /** A newest-first list whose head is dated before `d` has no record dated `d`. */
  lemma NoneOnLaterDate<T>(s: seq<T>, dateOf: T -> Date, d: Date)
    requires s != [] && SortedDesc(s, dateOf) && !OnOrBefore(d, dateOf(s[0]))
    ensures OnDate(s, dateOf, d) == []
  {
    forall i | 0 <= i < |s| ensures !OnOrBefore(d, dateOf(s[i])) {
      if i > 0 && OnOrBefore(d, dateOf(s[i])) {
        OnOrBeforeTransitive(d, dateOf(s[i]), dateOf(s[0]));
      }
    }
    OnDateAllEarlier(s, dateOf, d);
  }

  lemma OnDateSingle<T>(x: T, dateOf: T -> Date, d: Date)
    ensures OnDate([x], dateOf, d) == (if dateOf(x) == d then [x] else [])
  {
    assert [x][0] == x && [x][1..] == [];
  }

  /** Inserting `x` adds it after the records already dated like it. */
  lemma {:induction false} InsertOnDate<T>(s: seq<T>, x: T, dateOf: T -> Date, d: Date)
    requires SortedDesc(s, dateOf)
    ensures OnDate(Insert(s, x, dateOf), dateOf, d) == OnDate(s, dateOf, d) + OnDate([x], dateOf, d)
    decreases |s|, 1
  {
    if s == [] {
      assert Insert(s, x, dateOf) == [x] == [] + [x];
    } else if OnOrBefore(dateOf(x), dateOf(s[0])) {
      SortedTail(s, dateOf);
      InsertBehindHead(s, x, dateOf, d);
    } else {
      InsertAtFront(s, x, dateOf, d);
    }
  }

  /** `x` goes behind the head: the head's date group is unaffected and the rest is by induction. */
  lemma {:induction false} InsertBehindHead<T>(s: seq<T>, x: T, dateOf: T -> Date, d: Date)
    requires s != [] && SortedDesc(s[1..], dateOf) && OnOrBefore(dateOf(x), dateOf(s[0]))
    ensures OnDate(Insert(s, x, dateOf), dateOf, d) == OnDate(s, dateOf, d) + OnDate([x], dateOf, d)
    decreases |s|, 0
  {
    InsertOnDate(s[1..], x, dateOf, d);
    OnDateBehindHead(s, x, dateOf, d);
  }

  /** The step of `InsertBehindHead`, given the claim for the tail. */
  lemma OnDateBehindHead<T>(s: seq<T>, x: T, dateOf: T -> Date, d: Date)
    requires s != [] && OnOrBefore(dateOf(x), dateOf(s[0]))
    requires OnDate(Insert(s[1..], x, dateOf), dateOf, d) == OnDate(s[1..], dateOf, d) + OnDate([x], dateOf, d)
    ensures OnDate(Insert(s, x, dateOf), dateOf, d) == OnDate(s, dateOf, d) + OnDate([x], dateOf, d)
  {
    var head := if dateOf(s[0]) == d then [s[0]] else [];
    InsertKeepsHead(s, x, dateOf);
    OnDateCons(Insert(s, x, dateOf), dateOf, d);
    OnDateCons(s, dateOf, d);
    ConcatAssoc(head, OnDate(s[1..], dateOf, d), OnDate([x], dateOf, d));
  }

  /** `x` goes behind the head: the head stays in front of the rest with `x` inserted. */
  lemma InsertKeepsHead<T>(s: seq<T>, x: T, dateOf: T -> Date)
    requires s != [] && OnOrBefore(dateOf(x), dateOf(s[0]))
    ensures Insert(s, x, dateOf)[0] == s[0]
    ensures Insert(s, x, dateOf)[1..] == Insert(s[1..], x, dateOf)
  {
    assert Insert(s, x, dateOf) == [s[0]] + Insert(s[1..], x, dateOf);
  }

  lemma OnDateCons<T>(s: seq<T>, dateOf: T -> Date, d: Date)
    requires s != []
    ensures OnDate(s, dateOf, d) == (if dateOf(s[0]) == d then [s[0]] else []) + OnDate(s[1..], dateOf, d)
  {
  }

  lemma ConcatAssoc<T>(a: seq<T>, b: seq<T>, c: seq<T>)
    ensures a + (b + c) == (a + b) + c
  {
  }

  /** `x` is newer than the head, hence than every record: no record shares its date. */
  lemma InsertAtFront<T>(s: seq<T>, x: T, dateOf: T -> Date, d: Date)
    requires s != [] && SortedDesc(s, dateOf) && !OnOrBefore(dateOf(x), dateOf(s[0]))
    ensures OnDate(Insert(s, x, dateOf), dateOf, d) == OnDate(s, dateOf, d) + OnDate([x], dateOf, d)
  {
    assert Insert(s, x, dateOf) == [x] + s;
    OnDateAppend([x], s, dateOf, d);
    OnDateSingle(x, dateOf, d);
    if dateOf(x) == d {
      NoneOnLaterDate(s, dateOf, d);
    }
  }

  /**
   * `Array.prototype.sort` with a newest-first date comparator: stable, so
   * records with equal dates keep their relative order.
   */
  function SortByDateDesc<T>(s: seq<T>, dateOf: T -> Date): (r: seq<T>)
    ensures SortedDesc(r, dateOf)
    ensures multiset(r) == multiset(s)
    ensures |r| == |s|
  {
    if s == [] then []
    else
      var init, last := s[..|s| - 1], s[|s| - 1];
      assert s == init + [last];
      var sorted := SortByDateDesc(init, dateOf);
      InsertSorted(sorted, last, dateOf);
      InsertCounts(sorted, last, dateOf);
      Insert(sorted, last, dateOf)
  }

  /** Stability: for every date, the records of that date come out in input order. */
  lemma {:induction false} SortStable<T>(s: seq<T>, dateOf: T -> Date, d: Date)
    ensures OnDate(SortByDateDesc(s, dateOf), dateOf, d) == OnDate(s, dateOf, d)
  {
    if s != [] {
      var init, last := s[..|s| - 1], s[|s| - 1];
      SortStable(init, dateOf, d);
      InsertOnDate(SortByDateDesc(init, dateOf), last, dateOf, d);
      assert s == init + [last];
      OnDateAppend(init, [last], dateOf, d);
    }
  }

  /** A record appended before sorting comes after the records that share its date. */
  lemma AppendThenSort<T>(s: seq<T>, x: T, dateOf: T -> Date)
    ensures OnDate(SortByDateDesc(s + [x], dateOf), dateOf, dateOf(x)) == OnDate(s, dateOf, dateOf(x)) + [x]
  {
    SortStable(s + [x], dateOf, dateOf(x));
    OnDateAppend(s, [x], dateOf, dateOf(x));
  }

  /** A record prepended before sorting comes before the records that share its date. */
  lemma PrependThenSort<T>(s: seq<T>, x: T, dateOf: T -> Date)
    ensures OnDate(SortByDateDesc([x] + s, dateOf), dateOf, dateOf(x)) == [x] + OnDate(s, dateOf, dateOf(x))
  {
    SortStable([x] + s, dateOf, dateOf(x));
    OnDateAppend([x], s, dateOf, dateOf(x));
  }
}
