// Saving a case and then undoing its history entry: the lines the save takes
// off the stock are put back by the Case branch of the undo, item by item,
// also when two lines took from the same item.

module CaseUndo {
  import opened Wrappers
  import opened Models
  import opened Database
  import Text
  import CaseEntry
  import History

  /** `after` is `before` but for its quantity and its update time. */
  predicate SameButCount(after: Material, before: Material)
  {
    after.(quantity := before.quantity, updatedAt := before.updatedAt) == before
  }

  /** `back` holds the rows of `before` under the same keys, each equal to
      its counterpart but for the update time. */
  predicate Restored(back: map<Id, Material>, before: map<Id, Material>)
  {
    back.Keys == before.Keys
    && forall id :: id in before ==> back[id].(updatedAt := before[id].updatedAt) == before[id]
  }

  /** No item of the listing has identifier `id`. */
  predicate Outside(inv: seq<Material>, id: Id)
  {
    forall k :: 0 <= k < |inv| ==> inv[k].id != id
  }

  /** What undoing the first lines of a case has done to the stock `start`
      whose listing is `inv`: keys, counter and every row outside the listing
      are as they were, and each listed item has its fields but the update
      time and has gained back what those lines took from it. */
  predicate RestoredSoFar(start: Stock, mid: Stock, inv: seq<Material>, lines: seq<CaseEntry.Line>, picks: seq<nat>)
    requires |picks| == |lines|
  {
    Keyed(mid) && mid.nextId == start.nextId && mid.materials.Keys == start.materials.Keys
    && (forall id :: id in start.materials && Outside(inv, id) ==> mid.materials[id] == start.materials[id])
    && forall k :: 0 <= k < |inv| ==>
         inv[k].id in mid.materials && SameButCount(mid.materials[inv[k].id], inv[k])
         && mid.materials[inv[k].id].quantity == inv[k].quantity + CaseEntry.Taken(lines, picks, k)
  }

  /** The consumption loop keeps each listed item's creation time: every
      item it saves is already in the table. */
  lemma {:induction false} ConsumedKeepsCreated(s: Stock, inventory: seq<Material>, lines: seq<CaseEntry.Line>, picks: seq<nat>, now: Time)
    requires Keyed(s) && CaseEntry.Listed(s.materials, inventory) && CaseEntry.Picked(picks, lines, inventory)
    ensures forall k :: 0 <= k < |inventory| ==>
              CaseEntry.Consumed(s, inventory, lines, picks, now).1[k].createdAt == inventory[k].createdAt
  {
    if picks != [] {
      var n := |picks| - 1;
      ConsumedKeepsCreated(s, inventory, lines[..n], picks[..n], now);
      CaseEntry.ConsumedTable(s, inventory, lines[..n], picks[..n], now);
      var prev := CaseEntry.Consumed(s, inventory, lines[..n], picks[..n], now);
      var k := picks[n];
      assert prev.1[k].id in prev.0.materials;
    }
  }

  /** The lines up to `i + 1` take from item `k` what the lines up to `i`
      take, and line `i`'s quantity when it matched `k`. */
  lemma {:induction false} TakenSnoc(lines: seq<CaseEntry.Line>, picks: seq<nat>, i: nat, k: nat)
    requires |picks| == |lines| && i < |lines|
    ensures CaseEntry.Taken(lines[..i + 1], picks[..i + 1], k)
            == CaseEntry.Taken(lines[..i], picks[..i], k) + (if picks[i] == k then lines[i].quantity else 0)
  {
    assert lines[..i + 1][..i] == lines[..i] && picks[..i + 1][..i] == picks[..i];
  }

  /** The Case rule on a detail whose identifier is the stored key `id`:
      the row under that key gains the detail's quantity and is stamped;
      nothing else changes. */
  lemma {:induction false} RestoreById(mid: Stock, d: UsedMaterialRecord, id: Id, owner: string, later: Time)
    requires Keyed(mid) && id in mid.materials && d.materialId == Some(id)
    ensures History.UndoLine(mid, d, History.Restore, owner, later)
            == Stock(mid.materials[id := mid.materials[id].(quantity := mid.materials[id].quantity + d.quantity, updatedAt := later)],
                     mid.nextId)
  {
  }

  /** Adding line `i`'s quantity to listed item `picks[i]` extends what the
      undo has restored by that line. */
  lemma {:induction false} RestoreStep(start: Stock, mid: Stock, next: Stock, inv: seq<Material>,
                                       lines: seq<CaseEntry.Line>, picks: seq<nat>, later: Time, i: nat)
    requires CaseEntry.Listed(start.materials, inv) && CaseEntry.Picked(picks, lines, inv) && i < |lines|
    requires RestoredSoFar(start, mid, inv, lines[..i], picks[..i])
    requires var id := inv[picks[i]].id;
             next == Stock(mid.materials[id := mid.materials[id].(quantity := mid.materials[id].quantity + lines[i].quantity, updatedAt := later)],
                           mid.nextId)
    ensures RestoredSoFar(start, next, inv, lines[..i + 1], picks[..i + 1])
  {
    forall k | 0 <= k < |inv|
      ensures CaseEntry.Taken(lines[..i + 1], picks[..i + 1], k)
              == CaseEntry.Taken(lines[..i], picks[..i], k) + (if picks[i] == k then lines[i].quantity else 0)
    {
      TakenSnoc(lines, picks, i, k);
    }
  }

  /** The Case rule on one more detail, naming listed item `picks[i]` by
      identifier and carrying line `i`'s quantity, extends what the undo has
      restored by that line. */
  lemma {:induction false} RestoreNext(start: Stock, mid: Stock, inv: seq<Material>, lines: seq<CaseEntry.Line>, picks: seq<nat>,
                                       d: UsedMaterialRecord, owner: string, later: Time, i: nat)
    requires CaseEntry.Listed(start.materials, inv) && CaseEntry.Picked(picks, lines, inv) && i < |lines|
    requires RestoredSoFar(start, mid, inv, lines[..i], picks[..i])
    requires d.materialId == Some(inv[picks[i]].id) && d.quantity == lines[i].quantity
    ensures RestoredSoFar(start, History.UndoLine(mid, d, History.Restore, owner, later), inv, lines[..i + 1], picks[..i + 1])
  {
    RestoreById(mid, d, inv[picks[i]].id, owner, later);
    RestoreStep(start, mid, History.UndoLine(mid, d, History.Restore, owner, later), inv, lines, picks, later, i);
  }

  /** Undoing, with the Case rule, details that name listed items by
      identifier: after the first `j` of them each item has gained back what
      the first `j` lines took from it. */
  lemma {:induction false} RestorePrefix(start: Stock, inv: seq<Material>, lines: seq<CaseEntry.Line>, picks: seq<nat>,
                                         ds: seq<UsedMaterialRecord>, owner: string, later: Time, j: nat)
    requires Keyed(start) && CaseEntry.Listed(start.materials, inv) && CaseEntry.Picked(picks, lines, inv)
    requires |ds| == |lines| && j <= |ds|
    requires forall i :: 0 <= i < |ds| ==> ds[i].materialId == Some(inv[picks[i]].id) && ds[i].quantity == lines[i].quantity
    ensures RestoredSoFar(start, History.UndoLines(start, ds[..j], History.Restore, owner, later), inv, lines[..j], picks[..j])
  {
    if j == 0 {
      assert ds[..0] == [] && lines[..0] == [] && picks[..0] == [];
    } else {
      var i := j - 1;
      RestorePrefix(start, inv, lines, picks, ds, owner, later, i);
      History.UndoLinesSnoc(start, ds, i, History.Restore, owner, later);
      var mid := History.UndoLines(start, ds[..i], History.Restore, owner, later);
      RestoreNext(start, mid, inv, lines, picks, ds[i], owner, later, i);
    }
  }

  /** All the details undone: each item has gained back what all the lines
      took from it. */
  lemma {:induction false} RestoreAll(start: Stock, inv: seq<Material>, lines: seq<CaseEntry.Line>, picks: seq<nat>,
                                      ds: seq<UsedMaterialRecord>, owner: string, later: Time)
    requires Keyed(start) && CaseEntry.Listed(start.materials, inv) && CaseEntry.Picked(picks, lines, inv) && |ds| == |lines|
    requires forall i :: 0 <= i < |ds| ==> ds[i].materialId == Some(inv[picks[i]].id) && ds[i].quantity == lines[i].quantity
    ensures RestoredSoFar(start, History.UndoLines(start, ds, History.Restore, owner, later), inv, lines, picks)
  {
    RestorePrefix(start, inv, lines, picks, ds, owner, later, |ds|);
    assert ds[..|ds|] == ds && lines[..|ds|] == lines && picks[..|ds|] == picks;
  }

  /** The undo ends where the save started: each listed item was lowered by
      what the lines took and has gained it back, and every other row was
      left alone by both. */
  lemma {:induction false} RestoredToStart(s: Stock, inventory: seq<Material>, after: seq<Material>, start: Stock, back: Stock,
                                           lines: seq<CaseEntry.Line>, picks: seq<nat>)
    requires CaseEntry.Listed(s.materials, inventory) && |after| == |inventory| && |picks| == |lines|
    requires forall k :: 0 <= k < |inventory| ==>
               after[k].id == inventory[k].id && after[k].createdAt == inventory[k].createdAt
               && after[k].quantity == inventory[k].quantity - CaseEntry.Taken(lines, picks, k)
               && after[k].(quantity := inventory[k].quantity, createdAt := inventory[k].createdAt, updatedAt := inventory[k].updatedAt) == inventory[k]
    requires start.materials.Keys == s.materials.Keys
    requires forall id :: id in s.materials && Outside(inventory, id) ==> start.materials[id] == s.materials[id]
    requires RestoredSoFar(start, back, after, lines, picks)
    ensures Restored(back.materials, s.materials)
  {
    forall id | id in s.materials
      ensures back.materials[id].(updatedAt := s.materials[id].updatedAt) == s.materials[id]
    {
      if k :| 0 <= k < |inventory| && inventory[k].id == id {
        assert after[k].id == id;
      } else {
        assert Outside(after, id);
      }
    }
  }

  /** A save's consumption followed by the undo of its details gives every
      row of the table back its quantity and every other field but the update
      time, whatever the counter stands at when the undo runs; an item two
      lines took from gets both quantities back. */
  lemma {:induction false} ConsumeThenRestore(s: Stock, inventory: seq<Material>, lines: seq<CaseEntry.Line>, picks: seq<nat>,
                                              now: Time, n: Id, owner: string, later: Time)
    requires Keyed(s) && CaseEntry.Listed(s.materials, inventory) && CaseEntry.Picked(picks, lines, inventory)
    requires n >= s.nextId
    ensures var c := CaseEntry.Consumed(s, inventory, lines, picks, now);
            var back := History.UndoLines(Stock(c.0.materials, n), CaseEntry.UsedRecords(inventory, lines, picks),
                                          History.Restore, owner, later);
            back.nextId == n && Restored(back.materials, s.materials)
  {
    var c := CaseEntry.Consumed(s, inventory, lines, picks, now);
    CaseEntry.ConsumedTable(s, inventory, lines, picks, now);
    CaseEntry.ConsumedIds(s, inventory, lines, picks, now);
    CaseEntry.ConsumedInventory(s, inventory, lines, picks, now);
    ConsumedKeepsCreated(s, inventory, lines, picks, now);
    var start := Stock(c.0.materials, n);
    var ds := CaseEntry.UsedRecords(inventory, lines, picks);
    RestoreAll(start, c.1, lines, picks, ds, owner, later);
    forall id | id in s.materials && Outside(inventory, id)
      ensures start.materials[id] == s.materials[id]
    {
      CaseEntry.ConsumedUntouched(s, inventory, lines, picks, now, id);
    }
    RestoredToStart(s, inventory, c.1, start, History.UndoLines(start, ds, History.Restore, owner, later), lines, picks);
  }

  /** Undoing the entry a checked save wrote reverses the save: the entry is
      reversible and its kind restores the lines; deleting the case it points
      at and the entry itself leaves the case and history tables as before the
      save; and its details, undone with the entry's author as owner, give
      every material back its quantity and every other field but the update
      time, with no material created. */
  lemma {:induction false} CaseUndoRoundTrip(input: CaseEntry.SaveInput, now: Time, later: Time)
    requires CaseEntry.TablesValid(input.tables) && CaseEntry.Picked(input.picks, input.lines, input.inventory)
    requires CaseEntry.Listed(input.tables.materials, input.inventory)
    requires input.draft.usedMaterials == CaseEntry.UsedRecords(input.inventory, input.lines, input.picks)
    ensures var t := input.tables;
            var r := CaseEntry.Committed(input, now);
            var e := r.entry;
            var back := History.UndoLines(Stock(r.tables.materials, r.tables.nextId), e.details,
                                          History.Restore, e.createdBy, later);
            History.RuleFor(e.kind) == Some(History.Restore) && e.reversible && e.referenceId.Some?
            && r.tables.cases - {e.referenceId.value} == t.cases
            && r.tables.history - {e.id} == t.history
            && back.nextId == r.tables.nextId && Restored(back.materials, t.materials)
  {
    var t := input.tables;
    CaseEntry.CommittedSpec(input, now);
    var r := CaseEntry.Committed(input, now);
    RemoveAdded(t.cases, r.record.id, r.record);
    RemoveAdded(t.history, r.entry.id, r.entry);
    CommittedRestock(input, now, later);
  }

  /** The stock half of `CaseUndoRoundTrip`. */
  lemma {:induction false} CommittedRestock(input: CaseEntry.SaveInput, now: Time, later: Time)
    requires CaseEntry.TablesValid(input.tables) && CaseEntry.Picked(input.picks, input.lines, input.inventory)
    requires CaseEntry.Listed(input.tables.materials, input.inventory)
    requires input.draft.usedMaterials == CaseEntry.UsedRecords(input.inventory, input.lines, input.picks)
    ensures var r := CaseEntry.Committed(input, now);
            var back := History.UndoLines(Stock(r.tables.materials, r.tables.nextId), r.entry.details,
                                          History.Restore, r.entry.createdBy, later);
            back.nextId == r.tables.nextId && Restored(back.materials, input.tables.materials)
  {
    var t := input.tables;
    CommittedStock(input, now);
    var r := CaseEntry.Committed(input, now);
    RestoreWritten(Stock(t.materials, t.nextId + 1), input.inventory, input.lines, input.picks, now,
                   r.tables.materials, r.tables.nextId, r.entry.details, r.entry.createdBy, later);
  }

  /** The facts of `CaseEntry.CommittedSpec` the stock half needs: the
      materials the save wrote, the details of its entry, and a counter past
      the one the stock loop started from. */
  lemma {:induction false} CommittedStock(input: CaseEntry.SaveInput, now: Time)
    requires CaseEntry.TablesValid(input.tables) && CaseEntry.Picked(input.picks, input.lines, input.inventory)
    ensures var t := input.tables;
            var r := CaseEntry.Committed(input, now);
            r.tables.materials == CaseEntry.Consumed(Stock(t.materials, t.nextId + 1), input.inventory, input.lines, input.picks, now).0.materials
            && r.entry.details == input.draft.usedMaterials && r.tables.nextId >= t.nextId + 1
  {
    CaseEntry.CommittedSpec(input, now);
    var r := CaseEntry.Committed(input, now);
    assert r.record.id in r.tables.cases;
  }

  /** `ConsumeThenRestore` for a table `mats` and details `ds` that are what
      the save wrote. */
  lemma {:induction false} RestoreWritten(s: Stock, inventory: seq<Material>, lines: seq<CaseEntry.Line>, picks: seq<nat>, now: Time,
                                          mats: map<Id, Material>, n: Id, ds: seq<UsedMaterialRecord>, owner: string, later: Time)
    requires Keyed(s) && CaseEntry.Listed(s.materials, inventory) && CaseEntry.Picked(picks, lines, inventory)
    requires n >= s.nextId
    requires mats == CaseEntry.Consumed(s, inventory, lines, picks, now).0.materials
    requires ds == CaseEntry.UsedRecords(inventory, lines, picks)
    ensures var back := History.UndoLines(Stock(mats, n), ds, History.Restore, owner, later);
            back.nextId == n && Restored(back.materials, s.materials)
  {
    ConsumeThenRestore(s, inventory, lines, picks, now, n, owner, later);
  }

  /** Deleting the key just added gives the map back. */
  lemma {:induction false} RemoveAdded<V>(m: map<Id, V>, k: Id, v: V)
    requires k !in m
    ensures m[k := v] - {k} == m
  {
  }

  /** A lead with serial S1 and 12 on hand: a case line of 5 on S1 passes
      validation, matched to the lead. */
  lemma {:induction false} LeadAChecks()
    ensures var m := Material(1, "Lead A", None, Some("S1"), None, None, 12, None, 0, 0, Depot);
            CaseEntry.CheckLines([m], [CaseEntry.Line("S1", 5)]) == CaseEntry.Passed([0])
  {
    var m := Material(1, "Lead A", None, Some("S1"), None, None, 12, None, 0, 0, Depot);
    var lines := [CaseEntry.Line("S1", 5)];
    assert CaseEntry.MatchesText(m, "S1");
    assert !Text.IsBlank("S1") by { assert !Text.IsWhite("S1"[0]); }
    assert lines[..0] == [];
    assert CaseEntry.CheckLine([m], lines[0]) == CaseEntry.Fits(0);
  }

  /** Saving that line leaves the lead at 7, in the table and on the page;
      undoing the entry brings it back to 12. */
  lemma {:induction false} LeadARoundTrip()
    ensures var m := Material(1, "Lead A", None, Some("S1"), None, None, 12, None, 0, 0, Depot);
            var s := Stock(map[1 := m], 2);
            var lines := [CaseEntry.Line("S1", 5)];
            var c := CaseEntry.Consumed(s, [m], lines, [0], 0);
            var ds := CaseEntry.UsedRecords([m], lines, [0]);
            c.1[0].quantity == 7 && 1 in c.0.materials && c.0.materials[1].quantity == 7
            && var back := History.UndoLines(c.0, ds, History.Restore, Depot, 1);
               1 in back.materials && back.materials[1].quantity == 12
  {
    var m := Material(1, "Lead A", None, Some("S1"), None, None, 12, None, 0, 0, Depot);
    var s := Stock(map[1 := m], 2);
    var lines := [CaseEntry.Line("S1", 5)];
    var picks: seq<nat> := [0];
    var c := CaseEntry.Consumed(s, [m], lines, picks, 0);
    CaseEntry.ConsumedInventory(s, [m], lines, picks, 0);
    CaseEntry.ConsumedTable(s, [m], lines, picks, 0);
    assert lines[..0] == [] && picks[..0] == [];
    assert CaseEntry.Taken(lines, picks, 0) == 5;
    ConsumeThenRestore(s, [m], lines, picks, 0, 2, Depot, 1);
    assert c.0 == Stock(c.0.materials, 2);
  }
}
