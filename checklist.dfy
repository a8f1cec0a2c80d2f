/**
 * The daily checklist page: the patients of the day, each ticked off when
 * done. The list is loaded from the store or imported, shown in order
 * number order, and saved back by overwriting the stored list and writing a
 * reversible history entry.
 */
module Checklist {
  import opened Wrappers
  import opened Text
  import opened Models
  import opened Database
  import Collections

  /** ChecklistDisplayItem: a checklist item as the page shows it, with the
      status as a tick box. */
  datatype DisplayItem = DisplayItem(
    id: Id,
    orderNo: int,
    patient: string,
    hospital: string,
    phone: string,
    time: int,
    isDone: bool)

  // ---------------------------------------------------------------------------
  // FromModel / ToModel
  // ---------------------------------------------------------------------------

  function FromModel(item: ChecklistItem): DisplayItem
  {
    DisplayItem(item.id, item.orderNo, item.patient, item.hospital, item.phone, item.time, item.status == Done)
  }

  function ToModel(d: DisplayItem): ChecklistItem
  {
    ChecklistItem(d.id, d.orderNo, d.patient, d.hospital, d.phone, d.time, if d.isDone then Done else NotYet)
  }

  /** Showing an item and storing it back loses nothing; the box is ticked
      exactly when the status is Done. */
  lemma {:induction false} ToModelFromModel(item: ChecklistItem)
    ensures ToModel(FromModel(item)) == item
    ensures FromModel(item).isDone <==> item.status == Done
  {
  }

  lemma {:induction false} FromModelToModel(d: DisplayItem)
    ensures FromModel(ToModel(d)) == d
    ensures ToModel(d).status == Done <==> d.isDone
  {
  }

  // ---------------------------------------------------------------------------
  // Counting and the summary line
  // ---------------------------------------------------------------------------

  /** _items.Count(item => item.IsDone). */
  function DoneCount(items: seq<DisplayItem>): (r: nat)
    ensures r <= |items|
  {
    if items == [] then 0
    else DoneCount(items[..|items| - 1]) + (if items[|items| - 1].isDone then 1 else 0)
  }

  /** The done count is at most the total; it is the total exactly when every
      item is done and zero exactly when none is. */
  lemma {:induction false} DoneCountBounds(items: seq<DisplayItem>)
    ensures DoneCount(items) <= |items|
    ensures DoneCount(items) == |items| <==> forall i :: 0 <= i < |items| ==> items[i].isDone
    ensures DoneCount(items) == 0 <==> forall i :: 0 <= i < |items| ==> !items[i].isDone
  {
    if items != [] {
      var n := |items| - 1;
      DoneCountBounds(items[..n]);
      assert forall i :: 0 <= i < n ==> items[..n][i] == items[i];
    }
  }

  const NoChecklistText: string := "Henüz kontrol listesi yok"
  const CompletedPrefix: string := "Tamamlanan: "

  /** "done/total". */
  function Ratio(done: nat, total: nat): string
  {
    NatToString(done) + "/" + NatToString(total)
  }

  /** The two numbers can be read back from the ratio. */
  lemma {:induction false} RatioParts(done: nat, total: nat)
    ensures Split(Ratio(done, total), {'/'}) == [NatToString(done), NatToString(total)]
    ensures DigitsValue(NatToString(done)) == done && DigitsValue(NatToString(total)) == total
  {
    var parts := [NatToString(done), NatToString(total)];
    assert Join(parts, "/") == Ratio(done, total) by {
      assert parts[1..] == [NatToString(total)];
    }
    SplitJoin(parts, '/');
  }

  /** SummaryText. */
  function SummaryText(items: seq<DisplayItem>): string
  {
    if |items| == 0 then NoChecklistText
    else CompletedPrefix + Ratio(DoneCount(items), |items|)
  }

  /** The summary is the "no list" text exactly when the list is empty;
      otherwise it is the prefix followed by a ratio from which the done count
      and the total are read back. */
  lemma {:induction false} SummaryTextMeaning(items: seq<DisplayItem>)
    ensures SummaryText(items) == NoChecklistText <==> items == []
    ensures items != [] ==>
              CompletedPrefix <= SummaryText(items)
              && Split(SummaryText(items)[|CompletedPrefix|..], {'/'})
                 == [NatToString(DoneCount(items)), NatToString(|items|)]
  {
    if items != [] {
      var s := SummaryText(items);
      assert s[0] == 'T' != NoChecklistText[0];
      assert s[|CompletedPrefix|..] == Ratio(DoneCount(items), |items|);
      RatioParts(DoneCount(items), |items|);
    }
  }

  // ---------------------------------------------------------------------------
  // Ordering by OrderNo (a stable sort)
  // ---------------------------------------------------------------------------

  /** Places `x` after every item whose order number is not larger. */
  function Insert(x: ChecklistItem, s: seq<ChecklistItem>): (r: seq<ChecklistItem>)
    ensures |r| == |s| + 1
  {
    if s == [] then [x]
    else if x.orderNo < s[0].orderNo then [x] + s
    else [s[0]] + Insert(x, s[1..])
  }

  /** items.OrderBy(entry => entry.OrderNo). */
  function SortByOrder(s: seq<ChecklistItem>): (r: seq<ChecklistItem>)
    ensures |r| == |s|
  {
    if s == [] then [] else Insert(s[|s| - 1], SortByOrder(s[..|s| - 1]))
  }

  predicate OrderSorted(s: seq<ChecklistItem>)
  {
    forall i, j :: 0 <= i < j < |s| ==> s[i].orderNo <= s[j].orderNo
  }

  /** The items of `s` with order number `k`, in order. */
  function WithOrder(s: seq<ChecklistItem>, k: int): seq<ChecklistItem>
  {
    if s == [] then []
    else (if s[0].orderNo == k then [s[0]] else []) + WithOrder(s[1..], k)
  }

  lemma {:induction false} WithOrderAppend(a: seq<ChecklistItem>, b: seq<ChecklistItem>, k: int)
    ensures WithOrder(a + b, k) == WithOrder(a, k) + WithOrder(b, k)
  {
    if a == [] {
      assert a + b == b;
    } else {
      assert (a + b)[1..] == a[1..] + b;
      WithOrderAppend(a[1..], b, k);
    }
  }

  lemma {:induction false} WithOrderNone(s: seq<ChecklistItem>, k: int)
    requires forall i :: 0 <= i < |s| ==> s[i].orderNo > k
    ensures WithOrder(s, k) == []
  {
    if s != [] {
      WithOrderNone(s[1..], k);
    }
  }

  lemma {:induction false} InsertMembers(x: ChecklistItem, s: seq<ChecklistItem>)
    ensures multiset(Insert(x, s)) == multiset(s) + multiset{x}
  {
    if s != [] && x.orderNo >= s[0].orderNo {
      InsertMembers(x, s[1..]);
      assert s == [s[0]] + s[1..];
    }
  }

  /** Inserting keeps a lower bound on the order numbers. */
  lemma {:induction false} InsertBound(x: ChecklistItem, s: seq<ChecklistItem>, b: int)
    requires x.orderNo >= b
    requires forall i :: 0 <= i < |s| ==> s[i].orderNo >= b
    ensures forall i :: 0 <= i < |Insert(x, s)| ==> Insert(x, s)[i].orderNo >= b
  {
    if s != [] && x.orderNo >= s[0].orderNo {
      InsertBound(x, s[1..], b);
    }
  }

  lemma {:induction false} InsertSorted(x: ChecklistItem, s: seq<ChecklistItem>)
    requires OrderSorted(s)
    ensures OrderSorted(Insert(x, s))
  {
    if s != [] && x.orderNo >= s[0].orderNo {
      var t := Insert(x, s[1..]);
      InsertSorted(x, s[1..]);
      InsertBound(x, s[1..], s[0].orderNo);
      assert Insert(x, s) == [s[0]] + t;
    }
  }

  lemma {:induction false} InsertWithOrder(x: ChecklistItem, s: seq<ChecklistItem>, k: int)
    requires OrderSorted(s)
    ensures WithOrder(Insert(x, s), k) == WithOrder(s, k) + (if x.orderNo == k then [x] else [])
  {
    if s == [] {
    } else if x.orderNo < s[0].orderNo {
      WithOrderAppend([x], s, k);
      if x.orderNo == k {
        WithOrderNone(s, k);
      }
    } else {
      InsertWithOrder(x, s[1..], k);
      WithOrderAppend([s[0]], Insert(x, s[1..]), k);
      assert s == [s[0]] + s[1..];
      WithOrderAppend([s[0]], s[1..], k);
    }
  }

  /** The sort orders by order number. */
  lemma {:induction false} SortByOrderSorted(s: seq<ChecklistItem>)
    ensures OrderSorted(SortByOrder(s))
  {
    if s != [] {
      var n := |s| - 1;
      SortByOrderSorted(s[..n]);
      InsertSorted(s[n], SortByOrder(s[..n]));
    }
  }

  /** The sort keeps every item. */
  lemma {:induction false} SortByOrderPermutes(s: seq<ChecklistItem>)
    ensures multiset(SortByOrder(s)) == multiset(s)
  {
    if s != [] {
      var n := |s| - 1;
      SortByOrderPermutes(s[..n]);
      InsertMembers(s[n], SortByOrder(s[..n]));
      Collections.InitLast(s);
    }
  }

  /** The sort keeps items with equal order numbers in their original order. */
  lemma {:induction false} SortByOrderStable(s: seq<ChecklistItem>)
    ensures forall k :: WithOrder(SortByOrder(s), k) == WithOrder(s, k)
  {
    if s != [] {
      var n := |s| - 1;
      SortByOrderStable(s[..n]);
      SortByOrderSorted(s[..n]);
      Collections.InitLast(s);
      forall k ensures WithOrder(SortByOrder(s), k) == WithOrder(s, k) {
        InsertWithOrder(s[n], SortByOrder(s[..n]), k);
        WithOrderAppend(s[..n], [s[n]], k);
      }
    }
  }

  /** The sort orders by order number, keeps every item, and keeps items
      with equal order numbers in their original order. */
  lemma {:induction false} SortByOrderFacts(s: seq<ChecklistItem>)
    ensures OrderSorted(SortByOrder(s))
    ensures multiset(SortByOrder(s)) == multiset(s)
    ensures forall k :: WithOrder(SortByOrder(s), k) == WithOrder(s, k)
  {
    SortByOrderSorted(s);
    SortByOrderPermutes(s);
    SortByOrderStable(s);
  }

  // ---------------------------------------------------------------------------
  // What a save writes
  // ---------------------------------------------------------------------------

  /** The checklist table after every displayed item has been saved into an
      emptied table, one after the other. */
  function StoredItems(items: seq<DisplayItem>): map<Id, ChecklistItem>
  {
    if items == [] then map[]
    else
      var last := ToModel(items[|items| - 1]);
      StoredItems(items[..|items| - 1])[last.id := last]
  }

  /** The table has a row under each displayed item's identifier and under
      no other. */
  lemma {:induction false} StoredItemsKeys(items: seq<DisplayItem>)
    ensures forall i :: 0 <= i < |items| ==> items[i].id in StoredItems(items)
    ensures forall k :: k in StoredItems(items) ==> exists i :: 0 <= i < |items| && items[i].id == k
  {
    if items != [] {
      var n := |items| - 1;
      StoredItemsKeys(items[..n]);
      assert forall i :: 0 <= i < n ==> items[..n][i] == items[i];
    }
  }

  /** Every row of the table is one of the displayed items. */
  lemma {:induction false} StoredItemsRows(items: seq<DisplayItem>)
    ensures forall k :: k in StoredItems(items) ==> FromModel(StoredItems(items)[k]) in items
  {
    if items != [] {
      var n := |items| - 1;
      StoredItemsRows(items[..n]);
      forall k | k in StoredItems(items) ensures FromModel(StoredItems(items)[k]) in items {
        if k != items[n].id {
          var j :| 0 <= j < n && items[..n][j] == FromModel(StoredItems(items[..n])[k]);
          assert items[j] == items[..n][j];
        }
      }
    }
  }

  /** An item that no later item shares an identifier with is the row
      stored under its identifier. */
  lemma {:induction false} StoredItemsLast(items: seq<DisplayItem>, i: nat)
    requires i < |items|
    requires forall j :: i < j < |items| ==> items[j].id != items[i].id
    ensures items[i].id in StoredItems(items) && StoredItems(items)[items[i].id] == ToModel(items[i])
  {
    var n := |items| - 1;
    if i < n {
      StoredItemsLast(items[..n], i);
    }
  }

  predicate DistinctIds(items: seq<DisplayItem>)
  {
    forall i, j :: 0 <= i < j < |items| ==> items[i].id != items[j].id
  }

  /** With distinct identifiers the table is exactly the displayed list: one
      row per item, holding that item. */
  lemma {:induction false} StoredItemsDistinct(items: seq<DisplayItem>)
    requires DistinctIds(items)
    ensures |StoredItems(items)| == |items|
    ensures forall i :: 0 <= i < |items| ==> items[i].id in StoredItems(items)
                                             && StoredItems(items)[items[i].id] == ToModel(items[i])
  {
    StoredCount(items);
    forall i | 0 <= i < |items|
      ensures items[i].id in StoredItems(items) && StoredItems(items)[items[i].id] == ToModel(items[i])
    {
      StoredItemsLast(items, i);
    }
  }

  lemma {:induction false} StoredCount(items: seq<DisplayItem>)
    requires DistinctIds(items)
    ensures |StoredItems(items)| == |items|
  {
    if items != [] {
      var n := |items| - 1;
      var front := items[..n];
      assert DistinctIds(front) by {
        assert forall i :: 0 <= i < n ==> front[i] == items[i];
      }
      StoredCount(front);
      StoredItemsKeys(front);
      forall i | 0 <= i < n ensures front[i].id != items[n].id {
        assert front[i] == items[i];
      }
    }
  }

  /** "Hospital • Tel: phone", the line a history detail shows for a patient. */
  function PatientLine(d: DisplayItem): string
  {
    d.hospital + " \U{2022} Tel: " + d.phone
  }

  /** The history detail for one patient: quantity 1 when done, 0 otherwise. */
  function ChecklistDetail(d: DisplayItem): UsedMaterialRecord
  {
    UsedMaterialRecord(None, d.patient, Some(PatientLine(d)), None, None, None, if d.isDone then 1 else 0)
  }

  function ChecklistDetails(items: seq<DisplayItem>): (r: seq<UsedMaterialRecord>)
    ensures |r| == |items|
  {
    if items == [] then []
    else ChecklistDetails(items[..|items| - 1]) + [ChecklistDetail(items[|items| - 1])]
  }

  /** The sum of the detail quantities. */
  function DetailTotal(ds: seq<UsedMaterialRecord>): int
  {
    if ds == [] then 0 else DetailTotal(ds[..|ds| - 1]) + ds[|ds| - 1].quantity
  }

  const SavedSummaryPrefix: string := "Kontrol listesi tamamlandı - "

  /** The history entry a save writes. */
  function ChecklistEntry(items: seq<DisplayItem>, id: Id, now: Time, createdBy: string): HistoryItem
  {
    HistoryItem(id, Checklist, SavedSummaryPrefix + Ratio(DoneCount(items), |items|),
                ChecklistDetails(items), now, createdBy, true, None)
  }

  /** Detail i is patient i's. */
  lemma {:induction false} ChecklistDetailAt(items: seq<DisplayItem>, i: int)
    requires 0 <= i < |items|
    ensures ChecklistDetails(items)[i] == ChecklistDetail(items[i])
  {
    var n := |items| - 1;
    Collections.SnocParts(ChecklistDetails(items[..n]), ChecklistDetail(items[n]));
    if i < n {
      ChecklistDetailAt(items[..n], i);
      assert items[..n][i] == items[i];
    }
  }

  /** The detail quantities add up to the done count. */
  lemma {:induction false} ChecklistDetailsTotal(items: seq<DisplayItem>)
    ensures DetailTotal(ChecklistDetails(items)) == DoneCount(items)
  {
    if items != [] {
      var n := |items| - 1;
      ChecklistDetailsTotal(items[..n]);
      Collections.SnocParts(ChecklistDetails(items[..n]), ChecklistDetail(items[n]));
    }
  }

  /** One detail per patient, in list order, naming the patient; the detail
      quantities add up to the done count. */
  lemma {:induction false} ChecklistDetailsMeaning(items: seq<DisplayItem>)
    ensures |ChecklistDetails(items)| == |items|
    ensures forall i :: 0 <= i < |items| ==>
              ChecklistDetails(items)[i].name == items[i].patient
              && ChecklistDetails(items)[i].quantity == (if items[i].isDone then 1 else 0)
              && ChecklistDetails(items)[i].serialOrLot == Some(PatientLine(items[i]))
    ensures DetailTotal(ChecklistDetails(items)) == DoneCount(items)
  {
    forall i | 0 <= i < |items|
      ensures ChecklistDetails(items)[i] == ChecklistDetail(items[i])
    {
      ChecklistDetailAt(items, i);
    }
    ChecklistDetailsTotal(items);
  }

  /** The entry is a reversible Checklist entry whose summary reads back as
      done/total and whose details record who is done. */
  lemma {:induction false} ChecklistEntryMeaning(items: seq<DisplayItem>, id: Id, now: Time, createdBy: string)
    ensures ChecklistEntry(items, id, now, createdBy).kind == Checklist
    ensures ChecklistEntry(items, id, now, createdBy).reversible
    ensures ChecklistEntry(items, id, now, createdBy).referenceId.None?
    ensures SavedSummaryPrefix <= ChecklistEntry(items, id, now, createdBy).summary
    ensures Split(ChecklistEntry(items, id, now, createdBy).summary[|SavedSummaryPrefix|..], {'/'})
            == [NatToString(DoneCount(items)), NatToString(|items|)]
    ensures |ChecklistEntry(items, id, now, createdBy).details| == |items|
    ensures DetailTotal(ChecklistEntry(items, id, now, createdBy).details) == DoneCount(items)
  {
    var e := ChecklistEntry(items, id, now, createdBy);
    assert e.summary[|SavedSummaryPrefix|..] == Ratio(DoneCount(items), |items|);
    RatioParts(DoneCount(items), |items|);
    ChecklistDetailsMeaning(items);
  }

  datatype SaveOutcome = NothingToSave | Cancelled | Saved(entry: HistoryItem)

  /** Whether OnSaveChecklist goes ahead: a non-empty list and, when some
      patient is not done, the user's confirmation. */
  predicate SaveProceeds(items: seq<DisplayItem>, confirmIncomplete: bool)
  {
    items != [] && (DoneCount(items) == |items| || confirmIncomplete)
  }

  /** The list is saved exactly when it is non-empty and either confirmed or
      complete. */
  lemma {:induction false} SaveProceedsCases(items: seq<DisplayItem>, confirmIncomplete: bool)
    ensures SaveProceeds(items, confirmIncomplete)
            <==> items != [] && (confirmIncomplete || forall i :: 0 <= i < |items| ==> items[i].isDone)
  {
    DoneCountBounds(items);
  }

  /** Deleting the identifier of every listed row empties a table whose
      rows are all listed under their own identifiers. */
  lemma {:induction false} EmptiedByListing(before: map<Id, ChecklistItem>, existing: seq<ChecklistItem>, after: map<Id, ChecklistItem>)
    requires forall key :: key in before ==> before[key].id == key && before[key] in existing
    requires after.Keys <= before.Keys
    requires forall j :: 0 <= j < |existing| ==> existing[j].id !in after
    ensures after == map[]
  {
    forall key | key in before ensures key !in after {
      var j :| 0 <= j < |existing| && existing[j] == before[key];
    }
    assert after.Keys == {};
  }

  // ---------------------------------------------------------------------------
  // The page
  // ---------------------------------------------------------------------------

  class ChecklistPage {
    var items: seq<DisplayItem>

    constructor ()
      ensures items == []
    {
      items := [];
    }

    /** LoadAsync: the stored list in order number order. */
    method Load(stored: seq<ChecklistItem>)
      modifies this`items
      ensures |items| == |stored|
      ensures forall i :: 0 <= i < |items| ==> items[i] == FromModel(SortByOrder(stored)[i])
    {
      var sorted := SortByOrder(stored);
      SortByOrderFacts(stored);
      items := [];
      var i := 0;
      while i < |sorted|
        invariant 0 <= i <= |sorted|
        invariant |items| == i
        invariant forall j :: 0 <= j < i ==> items[j] == FromModel(sorted[j])
      {
        items := items + [FromModel(sorted[i])];
        i := i + 1;
      }
    }

    /** OnImportExcel: the imported items replace the list, in order number
        order, every one of them not yet done. */
    method Import(imported: seq<ChecklistItem>)
      modifies this`items
      ensures |items| == |imported|
      ensures forall i :: 0 <= i < |items| ==>
                items[i] == FromModel(SortByOrder(imported)[i].(status := NotYet)) && !items[i].isDone
    {
      var sorted := SortByOrder(imported);
      SortByOrderFacts(imported);
      items := [];
      var i := 0;
      while i < |sorted|
        invariant 0 <= i <= |sorted|
        invariant |items| == i
        invariant forall j :: 0 <= j < i ==> items[j] == FromModel(sorted[j].(status := NotYet))
      {
        var item := sorted[i].(status := NotYet);
        items := items + [FromModel(item)];
        i := i + 1;
      }
    }

    /** OnSelectAll: every item is ticked; nothing else changes. */
    method SelectAll()
      modifies this`items
      ensures |items| == |old(items)|
      ensures forall i :: 0 <= i < |items| ==> items[i] == old(items)[i].(isDone := true)
      ensures DoneCount(items) == |items|
    {
      var i := 0;
      while i < |items|
        invariant 0 <= i <= |items| && |items| == |old(items)|
        invariant forall j :: 0 <= j < i ==> items[j] == old(items)[j].(isDone := true)
        invariant forall j :: i <= j < |items| ==> items[j] == old(items)[j]
      {
        items := items[i := items[i].(isDone := true)];
        i := i + 1;
      }
      DoneCountBounds(items);
    }

    /** OnMarkCompleted: every item not yet done is ticked, which leaves the
        same list as OnSelectAll. */
    method MarkCompleted()
      modifies this`items
      ensures |items| == |old(items)|
      ensures forall i :: 0 <= i < |items| ==> items[i] == old(items)[i].(isDone := true)
      ensures DoneCount(items) == |items|
    {
      var i := 0;
      while i < |items|
        invariant 0 <= i <= |items| && |items| == |old(items)|
        invariant forall j :: 0 <= j < i ==> items[j] == old(items)[j].(isDone := true)
        invariant forall j :: i <= j < |items| ==> items[j] == old(items)[j]
      {
        if !items[i].isDone {
          items := items[i := items[i].(isDone := true)];
        }
        i := i + 1;
      }
      DoneCountBounds(items);
    }

    /** The first loop of OnSaveChecklist: each row of `existing`, the stored
        list as the store returned it, is deleted in turn. */
    method DeleteStoredItems(store: Store, existing: seq<ChecklistItem>)
      requires store.Valid()
      requires forall key :: key in store.checklist ==> store.checklist[key] in existing
      modifies store`checklist
      ensures store.Valid() && store.checklist == map[]
    {
      ghost var before := store.checklist;
      var k := 0;
      while k < |existing|
        invariant 0 <= k <= |existing|
        invariant store.Valid()
        invariant store.checklist.Keys <= before.Keys
        invariant forall j :: 0 <= j < k ==> existing[j].id !in store.checklist
      {
        ghost var prev := store.checklist;
        store.DeleteChecklistItem(existing[k]);
        assert store.checklist.Keys == prev.Keys - {existing[k].id};
        k := k + 1;
      }
      EmptiedByListing(before, existing, store.checklist);
    }

    /** The second loop of OnSaveChecklist: each displayed item is saved in
        turn into the emptied table. */
    method SaveItems(store: Store)
      requires store.Valid() && store.checklist == map[]
      modifies store`checklist, store`nextId
      ensures store.Valid() && store.checklist == StoredItems(items)
    {
      var i := 0;
      while i < |items|
        invariant 0 <= i <= |items|
        invariant store.Valid()
        invariant store.checklist == StoredItems(items[..i])
      {
        assert items[..i + 1][..i] == items[..i];
        store.SaveChecklistItem(ToModel(items[i]));
        i := i + 1;
      }
      assert items[..i] == items;
    }

    /** The history entry OnSaveChecklist writes, under a new identifier. */
    method SaveEntry(store: Store, createdBy: string, now: Time) returns (entry: HistoryItem)
      requires store.Valid()
      modifies store`history, store`nextId
      ensures store.Valid()
      ensures entry == ChecklistEntry(items, entry.id, now, createdBy)
      ensures entry.id !in old(store.history) && store.history == old(store.history)[entry.id := entry]
    {
      var id := store.NewId();
      entry := ChecklistEntry(items, id, now, createdBy);
      store.SaveHistory(entry);
    }

    /** OnSaveChecklist. `confirmIncomplete` is the user's answer to the
        warning shown when some patient is not done. On a save every stored
        checklist row is deleted, one row per displayed item is written, and a
        Checklist history entry is added; otherwise nothing is written. */
    method Save(store: Store, currentUser: Option<string>, confirmIncomplete: bool, now: Time)
      returns (outcome: SaveOutcome)
      requires store.Valid()
      modifies store`checklist, store`history, store`nextId
      ensures store.Valid()
      ensures outcome == NothingToSave <==> items == []
      ensures outcome.Saved? <==> SaveProceeds(items, confirmIncomplete)
      ensures !outcome.Saved? ==> store.checklist == old(store.checklist)
                                  && store.history == old(store.history) && store.nextId == old(store.nextId)
      ensures outcome.Saved? ==>
                store.checklist == StoredItems(items)
                && outcome.entry == ChecklistEntry(items, outcome.entry.id, now, currentUser.GetOr(Depot))
                && outcome.entry.id !in old(store.history)
                && store.history == old(store.history)[outcome.entry.id := outcome.entry]
    {
      if |items| == 0 {
        return NothingToSave;
      }
      var incomplete := |items| - DoneCount(items);
      if incomplete > 0 && !confirmIncomplete {
        return Cancelled;
      }

      DeleteStoredItems(store, ChecklistByOrder(store.checklist));
      SaveItems(store);
      var entry := SaveEntry(store, currentUser.GetOr(Depot), now);
      outcome := Saved(entry);
    }
  }
}
