/**
 * The case entry page. A case names a hospital, a doctor and a patient and
 * lists the materials used, each line found in the inventory by its serial
 * or lot number. Saving checks every line against the inventory as it was
 * loaded, and only then stores the case, takes each line's quantity off the
 * material it matched and writes a reversible Case history entry. The
 * hospital and doctor fields offer the stored lookup values as suggestions.
 */
module CaseEntry {
  import opened Wrappers
  import opened Text
  import opened Collections
  import opened Models
  import opened Database

  /** The name shown when nobody is signed in. */
  const Guest: string := "Misafir"

  // ---------------------------------------------------------------------------
  // Finding a line's material
  // ---------------------------------------------------------------------------

  /** The inventory test of both the live match and the save: the text equals
      the serial or the lot (a missing one read as empty), ignoring case. */
  predicate MatchesText(m: Material, text: string)
  {
    EqIC(m.serial.GetOr(""), text) || EqIC(m.lot.GetOr(""), text)
  }

  /** FirstOrDefault: the position of the first matching inventory item. */
  function FirstMatch(inventory: seq<Material>, text: string): (r: Option<nat>)
    ensures r.Some? ==> r.value < |inventory|
  {
    if inventory == [] then None
    else if MatchesText(inventory[0], text) then Some(0)
    else match FirstMatch(inventory[1..], text)
      case None => None
      case Some(k) => Some(k + 1)
  }

  /** The position found matches and no earlier one does; none is found
      exactly when no item matches. */
  lemma {:induction false} FirstMatchSpec(inventory: seq<Material>, text: string)
    ensures var r := FirstMatch(inventory, text);
            (r.Some? ==> MatchesText(inventory[r.value], text) && forall i :: 0 <= i < r.value ==> !MatchesText(inventory[i], text))
            && (r.None? ==> forall i :: 0 <= i < |inventory| ==> !MatchesText(inventory[i], text))
  {
    if inventory != [] && !MatchesText(inventory[0], text) {
      FirstMatchSpec(inventory[1..], text);
      assert forall i :: 0 < i < |inventory| ==> inventory[i] == inventory[1..][i - 1];
    }
  }

  /** Where(...).ToList(): every matching item, in inventory order. */
  function Matches(inventory: seq<Material>, text: string): (r: seq<Material>)
    ensures |r| <= |inventory|
  {
    if inventory == [] then []
    else (if MatchesText(inventory[0], text) then [inventory[0]] else []) + Matches(inventory[1..], text)
  }

  /** The list holds exactly the matching items; it is empty exactly when no
      item matches, and its head is the first match. */
  lemma {:induction false} MatchesSpec(inventory: seq<Material>, text: string)
    ensures forall m :: m in Matches(inventory, text) <==> m in inventory && MatchesText(m, text)
    ensures Matches(inventory, text) == [] <==> FirstMatch(inventory, text).None?
    ensures Matches(inventory, text) != [] ==> Matches(inventory, text)[0] == inventory[FirstMatch(inventory, text).value]
  {
    if inventory != [] {
      MatchesSpec(inventory[1..], text);
      assert inventory == [inventory[0]] + inventory[1..];
    }
  }

  /** The list is empty exactly when no position matches. */
  lemma {:induction false} MatchesEmpty(inventory: seq<Material>, text: string)
    ensures Matches(inventory, text) == [] <==> forall j :: 0 <= j < |inventory| ==> !MatchesText(inventory[j], text)
  {
    if inventory != [] {
      MatchesEmpty(inventory[1..], text);
      assert forall j :: 0 < j < |inventory| ==> inventory[j] == inventory[1..][j - 1];
    }
  }

  /** One element in the list means exactly one matching position. */
  lemma {:induction false} MatchesOne(inventory: seq<Material>, text: string)
    requires |Matches(inventory, text)| == 1
    ensures exists k :: 0 <= k < |inventory| && Matches(inventory, text) == [inventory[k]]
              && forall j :: 0 <= j < |inventory| && j != k ==> !MatchesText(inventory[j], text)
  {
    var tail := inventory[1..];
    assert forall j :: 0 < j < |inventory| ==> inventory[j] == tail[j - 1];
    if MatchesText(inventory[0], text) {
      MatchesEmpty(tail, text);
      assert Matches(inventory, text) == [inventory[0]];
    } else {
      MatchesOne(tail, text);
      var k :| 0 <= k < |tail| && Matches(tail, text) == [tail[k]]
               && forall j :: 0 <= j < |tail| && j != k ==> !MatchesText(tail[j], text);
      assert Matches(inventory, text) == [inventory[k + 1]];
    }
  }

  /** Two or more elements in the list mean two matching positions. */
  lemma {:induction false} MatchesTwo(inventory: seq<Material>, text: string)
    requires |Matches(inventory, text)| >= 2
    ensures exists i, j :: 0 <= i < j < |inventory| && MatchesText(inventory[i], text) && MatchesText(inventory[j], text)
  {
    var tail := inventory[1..];
    if MatchesText(inventory[0], text) {
      MatchesEmpty(tail, text);
      var j :| 0 <= j < |tail| && MatchesText(tail[j], text);
      assert inventory[j + 1] == tail[j];
    } else {
      MatchesTwo(tail, text);
      var i, j :| 0 <= i < j < |tail| && MatchesText(tail[i], text) && MatchesText(tail[j], text);
      assert inventory[i + 1] == tail[i] && inventory[j + 1] == tail[j];
    }
  }

  // ---------------------------------------------------------------------------
  // One line of the form
  // ---------------------------------------------------------------------------

  /** What the save reads from a line: the serial/lot text and the quantity. */
  datatype Line = Line(text: string, quantity: int)

  class CaseMaterialEntry {
    var materialId: Option<Id>
    var name: string
    var serialOrLot: string
    var expiryDate: Option<Date>
    var ubb: Option<string>
    var serial: Option<string>
    var lot: Option<string>
    var quantity: int
    var availableQuantity: int

    /** A new line asks for one unit and has nothing resolved. */
    constructor ()
      ensures Cleared() && serialOrLot == "" && quantity == 1
    {
      materialId, name, serialOrLot, expiryDate := None, "", "", None;
      ubb, serial, lot := None, None, None;
      quantity, availableQuantity := 1, 0;
    }

    /** The line shows the given material. */
    predicate Shows(m: Material)
      reads this
    {
      materialId == Some(m.id) && name == m.name && expiryDate == m.expiryDate && ubb == m.ubb
      && serial == m.serial && lot == m.lot && availableQuantity == m.quantity
    }

    /** The line shows no material. */
    predicate Cleared()
      reads this
    {
      materialId.None? && name == "" && expiryDate.None? && ubb.None? && serial.None? && lot.None?
      && availableQuantity == 0
    }

    function Input(): Line
      reads this
    {
      Line(serialOrLot, quantity)
    }

    /** ApplyFrom: the line takes the material's identity, expiry, UBB,
        serial, lot and stock, and, only when its text is blank, the serial
        (or else the lot) as its text. The quantity asked for is kept. */
    method ApplyFrom(m: Material)
      modifies this
      ensures Shows(m) && quantity == old(quantity)
      ensures serialOrLot == if IsBlank(old(serialOrLot)) then FilledText(m) else old(serialOrLot)
    {
      materialId, name, expiryDate, ubb := Some(m.id), m.name, m.expiryDate, m.ubb;
      serial, lot, availableQuantity := m.serial, m.lot, m.quantity;
      if IsBlank(serialOrLot) {
        serialOrLot := FilledText(m);
      }
    }

    /** ClearResolved: everything resolved is forgotten; the text and the
        quantity stay. */
    method ClearResolved()
      modifies this
      ensures Cleared() && serialOrLot == old(serialOrLot) && quantity == old(quantity)
    {
      materialId, name, expiryDate, ubb := None, "", None, None;
      serial, lot, availableQuantity := None, None, 0;
    }
  }

  /** `Serial ?? Lot ?? ""`: a present serial wins even when it is blank. */
  function FilledText(m: Material): string
  {
    match m.serial
    case Some(s) => s
    case None => m.lot.GetOr("")
  }

  /** A line that shows a material is not cleared, and the other way round. */
  lemma {:induction false} ShowsExcludesCleared(e: CaseMaterialEntry, m: Material)
    ensures !(e.Shows(m) && e.Cleared())
  {
  }

  /** Filling in the text on ApplyFrom picks the serial when present and the
      lot otherwise; either way the filled text matches the material unless
      both are missing. */
  lemma {:induction false} FilledTextMatches(m: Material)
    requires m.serial.Some? || m.lot.Some?
    ensures MatchesText(m, FilledText(m))
  {
  }

  /** The lines the save reads, one per entry. */
  function LinesOf(entries: seq<CaseMaterialEntry>): (r: seq<Line>)
    reads set e | e in entries
    ensures |r| == |entries| && forall i :: 0 <= i < |entries| ==> r[i] == entries[i].Input()
  {
    seq(|entries|, i reads set e | e in entries requires 0 <= i < |entries| => entries[i].Input())
  }

  // ---------------------------------------------------------------------------
  // The live match while the serial/lot text is typed
  // ---------------------------------------------------------------------------

  datatype LiveMatch = ApplyMatch(m: Material) | ClearMatch | KeepAsIs

  /** OnMaterialSerialChanged's decision on the trimmed text: a blank text or
      no match clears the line, exactly one match applies it, and several
      leave the line as it is. */
  function LiveMatchFor(inventory: seq<Material>, text: string): LiveMatch
  {
    if IsBlank(text) then ClearMatch
    else
      var ms := Matches(inventory, text);
      if |ms| == 1 then ApplyMatch(ms[0])
      else if |ms| == 0 then ClearMatch
      else KeepAsIs
  }

  /** What each decision means in terms of the inventory positions. The three
      conditions exclude each other, so each holds exactly for its decision. */
  lemma {:induction false} LiveMatchMeaning(inventory: seq<Material>, text: string)
    ensures LiveMatchFor(inventory, text).ApplyMatch? ==>
              !IsBlank(text)
              && exists k :: 0 <= k < |inventory| && LiveMatchFor(inventory, text).m == inventory[k]
                   && MatchesText(inventory[k], text)
                   && forall j :: 0 <= j < |inventory| && j != k ==> !MatchesText(inventory[j], text)
    ensures LiveMatchFor(inventory, text).ClearMatch? ==>
              IsBlank(text) || forall j :: 0 <= j < |inventory| ==> !MatchesText(inventory[j], text)
    ensures LiveMatchFor(inventory, text).KeepAsIs? ==>
              !IsBlank(text)
              && exists i, j :: 0 <= i < j < |inventory| && MatchesText(inventory[i], text) && MatchesText(inventory[j], text)
  {
    MatchesEmpty(inventory, text);
    if !IsBlank(text) && |Matches(inventory, text)| >= 2 {
      MatchesTwo(inventory, text);
    }
    if !IsBlank(text) && |Matches(inventory, text)| == 1 {
      MatchesOne(inventory, text);
      var k :| 0 <= k < |inventory| && Matches(inventory, text) == [inventory[k]]
               && forall j :: 0 <= j < |inventory| && j != k ==> !MatchesText(inventory[j], text);
      assert inventory[k] in Matches(inventory, text);
    }
  }

  /** `e.NewTextValue?.Trim() ?? string.Empty`. */
  function TrimmedText(text: Option<string>): (r: string)
  {
    match text
    case Some(s) => Trim(s)
    case None => ""
  }

  /** A trimmed text is its own trim, and is empty exactly when blank. */
  lemma {:induction false} TrimmedTextSpec(text: Option<string>)
    ensures Trim(TrimmedText(text)) == TrimmedText(text)
    ensures IsBlank(TrimmedText(text)) <==> TrimmedText(text) == []
  {
    if text.Some? {
      TrimSpec(text.value);
      TrimFixed(Trim(text.value));
      TrimSpec(Trim(text.value));
    }
  }

  /** OnMaterialQuantityChanged: a non-negative integer is taken, a blank
      text sets zero, and anything else keeps the quantity. */
  function QuantityAfter(text: Option<string>, current: int): int
  {
    var parsed := ParseInt(text);
    if parsed.Some? && parsed.value >= 0 then parsed.value
    else if IsBlankOpt(text) then 0
    else current
  }

  /** Typing a quantity never makes it negative, and typing the digits of a
      count sets exactly that count. */
  lemma {:induction false} QuantityAfterSpec(text: Option<string>, current: int)
    ensures current >= 0 ==> QuantityAfter(text, current) >= 0
    ensures QuantityAfter(text, current) != current ==> QuantityAfter(text, current) >= 0
  {
  }

  lemma {:induction false} QuantityRoundTrip(q: int, current: int)
    requires 0 <= q <= Int32Max
    ensures QuantityAfter(Some(IntToString(q)), current) == q
  {
    ParseIntToString(q);
  }

  // ---------------------------------------------------------------------------
  // Validation
  // ---------------------------------------------------------------------------

  datatype Rejection =
    | MissingHeader
    | BlankSerial
    | NotInStock(text: string)
    | NonPositive
    | Insufficient(name: string, left: int)
    | NoLines

  /** The validation message each rejection shows. */
  function Message(r: Rejection): string
  {
    match r
    case MissingHeader => "Hastane, doktor ve hasta alanları boş bırakılamaz."
    case BlankSerial => "Seri/Lot bilgisi boş olamaz."
    case NotInStock(text) => text + " numaralı malzeme stokta bulunamadı."
    case NonPositive => "Miktar 0'dan büyük olmalıdır."
    case Insufficient(name, left) => name + " için yeterli stok yok. Kalan: " + IntToString(left) + "."
    case NoLines => "En az bir malzeme eklenmelidir."
  }

  datatype LineVerdict = Fits(stock: nat) | Refused(reason: Rejection)

  /** The checks on one line, in the order the save makes them, against the
      inventory as loaded. */
  function CheckLine(inventory: seq<Material>, line: Line): (r: LineVerdict)
    ensures r.Fits? ==> r.stock < |inventory|
  {
    if IsBlank(line.text) then Refused(BlankSerial)
    else match FirstMatch(inventory, line.text)
      case None => Refused(NotInStock(line.text))
      case Some(k) =>
        if line.quantity <= 0 then Refused(NonPositive)
        else if line.quantity > inventory[k].quantity then Refused(Insufficient(inventory[k].name, inventory[k].quantity))
        else Fits(k)
  }

  /** A line fits exactly when its text is not blank, some item matches it,
      and its quantity is positive and at most the first match's stock. */
  lemma {:induction false} CheckLineFits(inventory: seq<Material>, line: Line)
    ensures CheckLine(inventory, line).Fits? <==>
              !IsBlank(line.text) && FirstMatch(inventory, line.text).Some?
              && 0 < line.quantity <= inventory[FirstMatch(inventory, line.text).value].quantity
    ensures CheckLine(inventory, line).Fits? ==> CheckLine(inventory, line).stock == FirstMatch(inventory, line.text).value
  {
  }

  datatype LineCheck = Passed(picks: seq<nat>) | Failed(reason: Rejection)

  /** Each line's material position within the inventory. */
  predicate Picked(picks: seq<nat>, lines: seq<Line>, inventory: seq<Material>)
  {
    |picks| == |lines| && forall i :: 0 <= i < |picks| ==> picks[i] < |inventory|
  }

  /** The validation loop: the first refused line stops it with its reason;
      when every line fits, the matched positions in line order. */
  function CheckLines(inventory: seq<Material>, lines: seq<Line>): (r: LineCheck)
    ensures r.Passed? ==> Picked(r.picks, lines, inventory)
  {
    if lines == [] then Passed([])
    else
      var n := |lines| - 1;
      var prev := CheckLines(inventory, lines[..n]);
      if prev.Failed? then prev
      else match CheckLine(inventory, lines[n])
        case Refused(reason) => Failed(reason)
        case Fits(k) => Passed(prev.picks + [k])
  }

  /** Every line up to and including `i` fits. */
  predicate FitsThrough(inventory: seq<Material>, lines: seq<Line>, i: int)
    requires i < |lines|
  {
    forall j :: 0 <= j <= i ==> CheckLine(inventory, lines[j]).Fits?
  }

  /** The check passes exactly when every line fits, and then picks each
      line's first match. */
  lemma {:induction false} CheckLinesPassed(inventory: seq<Material>, lines: seq<Line>)
    ensures CheckLines(inventory, lines).Passed? <==> forall i :: 0 <= i < |lines| ==> CheckLine(inventory, lines[i]).Fits?
    ensures CheckLines(inventory, lines).Passed? ==>
              forall i :: 0 <= i < |lines| ==> CheckLines(inventory, lines).picks[i] == CheckLine(inventory, lines[i]).stock
  {
    if lines != [] {
      var n := |lines| - 1;
      var init := lines[..n];
      CheckLinesPassed(inventory, init);
      var prev := CheckLines(inventory, init);
      var last := CheckLine(inventory, lines[n]);
      if prev.Failed? {
        var i :| 0 <= i < n && !CheckLine(inventory, init[i]).Fits?;
        assert init[i] == lines[i];
      } else if last.Fits? {
        var r := CheckLines(inventory, lines);
        assert r == Passed(prev.picks + [last.stock]);
        forall i | 0 <= i < |lines|
          ensures CheckLine(inventory, lines[i]).Fits? && r.picks[i] == CheckLine(inventory, lines[i]).stock
        {
          if i < n {
            assert init[i] == lines[i];
          }
        }
      }
    }
  }

  /** A failed check names the reason of the first refused line, every line
      before it having fitted. */
  lemma {:induction false} CheckLinesFailed(inventory: seq<Material>, lines: seq<Line>)
    ensures CheckLines(inventory, lines).Failed? ==>
              exists i :: 0 <= i < |lines| && CheckLine(inventory, lines[i]) == Refused(CheckLines(inventory, lines).reason)
                && forall j :: 0 <= j < i ==> CheckLine(inventory, lines[j]).Fits?
  {
    if lines != [] {
      var n := |lines| - 1;
      var prev := CheckLines(inventory, lines[..n]);
      CheckLinesFailed(inventory, lines[..n]);
      assert forall i :: 0 <= i < n ==> lines[..n][i] == lines[i];
      if prev.Passed? {
        CheckLinesPassed(inventory, lines[..n]);
      }
    }
  }

  /** Once a prefix fails, the whole list fails the same way. */
  lemma {:induction false} CheckLinesFailurePersists(inventory: seq<Material>, lines: seq<Line>, k: nat)
    requires k <= |lines| && CheckLines(inventory, lines[..k]).Failed?
    ensures CheckLines(inventory, lines) == CheckLines(inventory, lines[..k])
    decreases |lines| - k
  {
    if k < |lines| {
      var n := |lines| - 1;
      assert lines[..n][..k] == lines[..k];
      CheckLinesFailurePersists(inventory, lines[..n], k);
      assert lines[..|lines|] == lines;
    } else {
      assert lines[..k] == lines;
    }
  }

  /** The whole check: the hospital, doctor and patient fields first, then
      the lines, and a form without lines is refused last. */
  function SaveCheck(hospital: string, doctor: string, patient: string, inventory: seq<Material>, lines: seq<Line>): LineCheck
  {
    if IsBlank(hospital) || IsBlank(doctor) || IsBlank(patient) then Failed(MissingHeader)
    else match CheckLines(inventory, lines)
      case Failed(reason) => Failed(reason)
      case Passed(picks) => if picks == [] then Failed(NoLines) else Passed(picks)
  }

  /** A save goes ahead exactly when the header fields are filled, there is
      at least one line, and every line has a non-blank text matched by the
      inventory and a positive quantity no larger than that match's stock. */
  lemma {:induction false} SaveCheckMeaning(hospital: string, doctor: string, patient: string, inventory: seq<Material>, lines: seq<Line>)
    ensures SaveCheck(hospital, doctor, patient, inventory, lines) == Failed(MissingHeader)
            <==> IsBlank(hospital) || IsBlank(doctor) || IsBlank(patient)
    ensures SaveCheck(hospital, doctor, patient, inventory, lines) == Failed(NoLines)
            <==> !IsBlank(hospital) && !IsBlank(doctor) && !IsBlank(patient) && lines == []
    ensures SaveCheck(hospital, doctor, patient, inventory, lines).Passed? <==>
              !IsBlank(hospital) && !IsBlank(doctor) && !IsBlank(patient) && lines != []
              && forall i :: 0 <= i < |lines| ==>
                   !IsBlank(lines[i].text) && FirstMatch(inventory, lines[i].text).Some?
                   && 0 < lines[i].quantity <= inventory[FirstMatch(inventory, lines[i].text).value].quantity
    ensures SaveCheck(hospital, doctor, patient, inventory, lines).Passed? ==>
              forall i :: 0 <= i < |lines| ==>
                Some(SaveCheck(hospital, doctor, patient, inventory, lines).picks[i]) == FirstMatch(inventory, lines[i].text)
  {
    CheckLinesPassed(inventory, lines);
    CheckLinesFailed(inventory, lines);
    forall i | 0 <= i < |lines| {
      CheckLineFits(inventory, lines[i]);
    }
    if lines != [] && CheckLines(inventory, lines).Passed? {
      assert CheckLines(inventory, lines).picks != [];
    }
  }

  // ---------------------------------------------------------------------------
  // What a saved case records
  // ---------------------------------------------------------------------------

  /** The snapshot of one line: the matched item's identity, name, serial,
      lot and expiry, with the line's own text and quantity. */
  function UsedRecord(m: Material, line: Line): UsedMaterialRecord
  {
    UsedMaterialRecord(Some(m.id), m.name, Some(line.text), m.serial, m.lot, m.expiryDate, line.quantity)
  }

  function UsedRecords(inventory: seq<Material>, lines: seq<Line>, picks: seq<nat>): (r: seq<UsedMaterialRecord>)
    requires Picked(picks, lines, inventory)
    ensures |r| == |lines|
    ensures forall i :: 0 <= i < |lines| ==> r[i] == UsedRecord(inventory[picks[i]], lines[i])
  {
    seq(|lines|, i requires 0 <= i < |lines| => UsedRecord(inventory[picks[i]], lines[i]))
  }

  /** "Vaka: {Patient} - {Hospital}". */
  function CaseSummary(patient: string, hospital: string): string
  {
    "Vaka: " + patient + " - " + hospital
  }

  /** The history entry a saved case writes. */
  function CaseHistory(id: Id, c: CaseRecord, now: Time): HistoryItem
  {
    HistoryItem(id, Case, CaseSummary(c.patient, c.hospital), c.usedMaterials, now, c.createdBy, true, Some(c.id))
  }

  // ---------------------------------------------------------------------------
  // Taking the stock
  // ---------------------------------------------------------------------------

  /** The consumption loop on the materials table and the page's inventory:
      each line takes its quantity off the item it matched, and the item,
      stamped, is saved. Two lines matching one item decrement one and the
      same object, so the second starts from the first's result. */
  function Consumed(s: Stock, inventory: seq<Material>, lines: seq<Line>, picks: seq<nat>, now: Time): (r: (Stock, seq<Material>))
    requires Picked(picks, lines, inventory)
    ensures |r.1| == |inventory|
  {
    if picks == [] then (s, inventory)
    else
      var n := |picks| - 1;
      var prev := Consumed(s, inventory, lines[..n], picks[..n], now);
      var k := picks[n];
      var m := prev.1[k].(quantity := prev.1[k].quantity - lines[n].quantity);
      (SaveIn(prev.0, m, now), prev.1[k := Stamped(prev.0.materials, m, now)])
  }

  /** The total quantity the lines take from inventory position `k`. */
  function Taken(lines: seq<Line>, picks: seq<nat>, k: nat): int
    requires |picks| == |lines|
  {
    if picks == [] then 0
    else
      var n := |picks| - 1;
      Taken(lines[..n], picks[..n], k) + (if picks[n] == k then lines[n].quantity else 0)
  }

  /** Every inventory item loses exactly what the lines matched to it take
      and keeps the rest of its fields but the time stamps; an item no line
      matched is untouched. */
  lemma {:induction false} ConsumedInventory(s: Stock, inventory: seq<Material>, lines: seq<Line>, picks: seq<nat>, now: Time)
    requires Picked(picks, lines, inventory)
    ensures forall k :: 0 <= k < |inventory| ==>
              var after := Consumed(s, inventory, lines, picks, now).1[k];
              after.quantity == inventory[k].quantity - Taken(lines, picks, k)
              && after.(quantity := inventory[k].quantity, createdAt := inventory[k].createdAt, updatedAt := inventory[k].updatedAt) == inventory[k]
    ensures forall k :: 0 <= k < |inventory| && k !in picks ==> Consumed(s, inventory, lines, picks, now).1[k] == inventory[k]
  {
    if picks != [] {
      var n := |picks| - 1;
      ConsumedInventory(s, inventory, lines[..n], picks[..n], now);
      forall k | 0 <= k < |inventory| && k !in picks
        ensures Consumed(s, inventory, lines, picks, now).1[k] == inventory[k]
      {
        assert k !in picks[..n];
      }
    }
  }

  /** The inventory is the store's listing: each item is the stored row of
      its identifier, and no two items share one. */
  predicate Listed(ms: map<Id, Material>, inventory: seq<Material>)
  {
    (forall k :: 0 <= k < |inventory| ==> inventory[k].id in ms && ms[inventory[k].id] == inventory[k])
    && forall i, j :: 0 <= i < j < |inventory| ==> inventory[i].id != inventory[j].id
  }

  /** The loop changes no item's identifier. */
  lemma {:induction false} ConsumedIds(s: Stock, inventory: seq<Material>, lines: seq<Line>, picks: seq<nat>, now: Time)
    requires Picked(picks, lines, inventory)
    ensures forall k :: 0 <= k < |inventory| ==> Consumed(s, inventory, lines, picks, now).1[k].id == inventory[k].id
  {
    if picks != [] {
      ConsumedIds(s, inventory, lines[..|picks| - 1], picks[..|picks| - 1], now);
    }
  }

  /** One save of an item of the listing keeps it the listing. */
  lemma {:induction false} SaveListed(s: Stock, inventory: seq<Material>, k: nat, m: Material, now: Time)
    requires Keyed(s) && Listed(s.materials, inventory) && k < |inventory| && m.id == inventory[k].id
    ensures var after := SaveIn(s, m, now);
            Keyed(after) && Listed(after.materials, inventory[k := Stamped(s.materials, m, now)])
            && after.materials.Keys == s.materials.Keys && after.nextId == s.nextId
            && forall id :: id in s.materials && id != m.id ==> after.materials[id] == s.materials[id]
  {
    var inv := inventory[k := Stamped(s.materials, m, now)];
    assert forall j :: 0 <= j < |inv| ==> inv[j].id == inventory[j].id;
  }

  /** When the inventory is the store's listing, the loop writes each item's
      new state back under its own key: the table keeps its keys and the
      counter, and the inventory stays the listing. */
  lemma {:induction false} ConsumedTable(s: Stock, inventory: seq<Material>, lines: seq<Line>, picks: seq<nat>, now: Time)
    requires Picked(picks, lines, inventory) && Keyed(s) && Listed(s.materials, inventory)
    ensures var r := Consumed(s, inventory, lines, picks, now);
            Keyed(r.0) && Listed(r.0.materials, r.1) && r.0.materials.Keys == s.materials.Keys && r.0.nextId == s.nextId
  {
    if picks != [] {
      var n := |picks| - 1;
      ConsumedTable(s, inventory, lines[..n], picks[..n], now);
      ConsumedIds(s, inventory, lines[..n], picks[..n], now);
      var prev := Consumed(s, inventory, lines[..n], picks[..n], now);
      var k := picks[n];
      var m := prev.1[k].(quantity := prev.1[k].quantity - lines[n].quantity);
      SaveListed(prev.0, prev.1, k, m, now);
    }
  }

  /** Rows of the table that are not in the inventory are left as they were. */
  lemma {:induction false} ConsumedUntouched(s: Stock, inventory: seq<Material>, lines: seq<Line>, picks: seq<nat>, now: Time, id: Id)
    requires Picked(picks, lines, inventory) && id in s.materials
    requires forall k :: 0 <= k < |inventory| ==> inventory[k].id != id
    ensures var r := Consumed(s, inventory, lines, picks, now).0;
            id in r.materials && r.materials[id] == s.materials[id]
  {
    if picks != [] {
      var n := |picks| - 1;
      ConsumedUntouched(s, inventory, lines[..n], picks[..n], now, id);
      ConsumedIds(s, inventory, lines[..n], picks[..n], now);
      var prev := Consumed(s, inventory, lines[..n], picks[..n], now);
      assert prev.1[picks[n]].id == inventory[picks[n]].id;
    }
  }

  /** With every item matched by at most one line, a line that passed
      validation leaves its item at a quantity of zero or more. */
  lemma {:induction false} DistinctPicksStayNonNegative(s: Stock, inventory: seq<Material>, lines: seq<Line>, now: Time)
    requires CheckLines(inventory, lines).Passed? && NoDuplicates(CheckLines(inventory, lines).picks)
    ensures var picks := CheckLines(inventory, lines).picks;
            forall i :: 0 <= i < |picks| ==> Consumed(s, inventory, lines, picks, now).1[picks[i]].quantity >= 0
  {
    var picks := CheckLines(inventory, lines).picks;
    CheckLinesPassed(inventory, lines);
    ConsumedInventory(s, inventory, lines, picks, now);
    forall i | 0 <= i < |picks| ensures Consumed(s, inventory, lines, picks, now).1[picks[i]].quantity >= 0 {
      TakenOnce(lines, picks, i);
      CheckLineFits(inventory, lines[i]);
    }
  }

  /** An item matched by exactly one line loses that line's quantity. */
  lemma {:induction false} TakenOnce(lines: seq<Line>, picks: seq<nat>, i: nat)
    requires |picks| == |lines| && i < |picks| && NoDuplicates(picks)
    ensures Taken(lines, picks, picks[i]) == lines[i].quantity
  {
    var n := |picks| - 1;
    if i < n {
      TakenOnce(lines[..n], picks[..n], i);
    } else {
      TakenNone(lines[..n], picks[..n], picks[i]);
    }
  }

  lemma {:induction false} TakenNone(lines: seq<Line>, picks: seq<nat>, k: nat)
    requires |picks| == |lines| && k !in picks
    ensures Taken(lines, picks, k) == 0
  {
    if picks != [] {
      var n := |picks| - 1;
      assert k !in picks[..n];
      TakenNone(lines[..n], picks[..n], k);
    }
  }

  /** Two lines of one unit each on an item with one unit on hand both pass
      validation, because each is checked against the stock as loaded; the
      item then ends at minus one. */
  lemma {:induction false} DoubleLineOverdraw()
    ensures var m := Material(0, "Lead", None, Some("S1"), None, None, 1, None, 0, 0, Depot);
            var lines := [Line("S1", 1), Line("S1", 1)];
            CheckLines([m], lines) == Passed([0, 0])
            && Consumed(Stock(map[0 := m], 1), [m], lines, [0, 0], 0).1[0].quantity == -1
  {
    var m := Material(0, "Lead", None, Some("S1"), None, None, 1, None, 0, 0, Depot);
    var lines := [Line("S1", 1), Line("S1", 1)];
    assert MatchesText(m, "S1");
    assert !IsBlank("S1") by { assert !IsWhite("S1"[0]); }
    assert lines[..1] == [Line("S1", 1)] && lines[..1][..0] == [];
    assert CheckLine([m], Line("S1", 1)) == Fits(0);
    assert CheckLines([m], lines[..1]) == Passed([0]);
    assert [0] + [0] == [0, 0];
    var picks: seq<nat> := [0, 0];
    ConsumedInventory(Stock(map[0 := m], 1), [m], lines, picks, 0);
    assert picks[..1] == [0] && picks[..1][..0] == [];
    assert Taken(lines, picks, 0) == 2;
  }

  // ---------------------------------------------------------------------------
  // Hospital and doctor suggestions
  // ---------------------------------------------------------------------------

  function Values(lookups: seq<LookupValue>): (r: seq<string>)
    ensures |r| == |lookups| && forall i :: 0 <= i < |lookups| ==> r[i] == lookups[i].value
  {
    seq(|lookups|, i requires 0 <= i < |lookups| => lookups[i].value)
  }

  /** The Where of Refresh*Suggestions: a blank filter keeps every value. */
  predicate Offered(value: string, filter: Option<string>)
  {
    IsBlankOpt(filter) || ContainsIC(value, filter.value)
  }

  /** The values the filter keeps, in order. */
  function Candidates(values: seq<string>, filter: Option<string>): seq<string>
  {
    if values == [] then []
    else
      var n := |values| - 1;
      Candidates(values[..n], filter) + (if Offered(values[n], filter) then [values[n]] else [])
  }

  lemma {:induction false} CandidatesSpec(values: seq<string>, filter: Option<string>)
    ensures forall x :: x in Candidates(values, filter) <==> x in values && Offered(x, filter)
  {
    if values != [] {
      var n := |values| - 1;
      CandidatesSpec(values[..n], filter);
      assert values == values[..n] + [values[n]];
    }
  }

  /** Refresh*Suggestions' list: the kept values, each spelling once ignoring
      case (the first spelling wins). */
  function Suggestions(lookups: seq<LookupValue>, filter: Option<string>): seq<string>
  {
    DedupIC([], Candidates(Values(lookups), filter))
  }

  /** No suggestion repeats another ignoring case; each is a cached value the
      filter keeps; and every cached value the filter keeps is offered in
      some spelling. */
  lemma {:induction false} SuggestionsSound(lookups: seq<LookupValue>, filter: Option<string>)
    ensures DistinctIC(Suggestions(lookups, filter))
    ensures forall i :: 0 <= i < |Suggestions(lookups, filter)| ==>
              Suggestions(lookups, filter)[i] in Values(lookups) && Offered(Suggestions(lookups, filter)[i], filter)
    ensures forall k :: 0 <= k < |lookups| && Offered(lookups[k].value, filter) ==>
              SeenIC(Suggestions(lookups, filter), lookups[k].value)
  {
    var c := Candidates(Values(lookups), filter);
    DedupICDistinct([], c);
    DedupICFrom([], c);
    DedupICCovers([], c);
    CandidatesSpec(Values(lookups), filter);
    forall k | 0 <= k < |lookups| && Offered(lookups[k].value, filter)
      ensures SeenIC(Suggestions(lookups, filter), lookups[k].value)
    {
      assert Values(lookups)[k] == lookups[k].value;
      assert lookups[k].value in c;
      var j :| 0 <= j < |c| && c[j] == lookups[k].value;
    }
  }

  /** The suggestion loop: each kept value not yet listed is added. */
  method BuildSuggestions(lookups: seq<LookupValue>, filter: Option<string>) returns (r: seq<string>)
    ensures r == Suggestions(lookups, filter)
  {
    ghost var values := Values(lookups);
    r := [];
    var i := 0;
    while i < |lookups|
      invariant 0 <= i <= |lookups|
      invariant r == DedupIC([], Candidates(values[..i], filter))
    {
      var v := lookups[i].value;
      SuggestionsStep(values, i, filter);
      if Offered(v, filter) {
        if !SeenIC(r, v) {
          r := r + [v];
        }
      }
      i := i + 1;
    }
    assert values[..i] == values;
  }

  /** One more cached value extends the suggestions of the values before it
      when the filter keeps it and no suggestion is it in another spelling. */
  lemma SuggestionsStep(values: seq<string>, i: int, filter: Option<string>)
    requires 0 <= i < |values|
    ensures var prev := DedupIC([], Candidates(values[..i], filter));
            var v := values[i];
            DedupIC([], Candidates(values[..i + 1], filter))
            == if Offered(v, filter) && !SeenIC(prev, v) then prev + [v] else prev
  {
    assert values[..i + 1][..i] == values[..i];
    var v := values[i];
    var c := Candidates(values[..i], filter);
    if Offered(v, filter) {
      assert Candidates(values[..i + 1], filter) == c + [v];
      assert (c + [v])[..|c|] == c;
      DedupICStep([], c + [v]);
    } else {
      assert Candidates(values[..i + 1], filter) == c;
    }
  }

  /** The first cached entry whose value equals `value` ignoring case. */
  function FirstIC(lookups: seq<LookupValue>, value: string): (r: Option<nat>)
    ensures r.Some? ==> r.value < |lookups|
  {
    if lookups == [] then None
    else if EqIC(lookups[0].value, value) then Some(0)
    else match FirstIC(lookups[1..], value)
      case None => None
      case Some(k) => Some(k + 1)
  }

  /** It finds the first entry equal ignoring case, and nothing exactly when
      no cached value is equal ignoring case. */
  lemma {:induction false} FirstICSpec(lookups: seq<LookupValue>, value: string)
    ensures var r := FirstIC(lookups, value);
            (r.Some? ==> EqIC(lookups[r.value].value, value)
                         && forall i :: 0 <= i < r.value ==> !EqIC(lookups[i].value, value))
            && (r.None? <==> !SeenIC(Values(lookups), value))
  {
    if lookups != [] {
      assert Values(lookups)[0] == lookups[0].value;
      if !EqIC(lookups[0].value, value) {
        FirstICSpec(lookups[1..], value);
        assert forall i :: 0 < i < |lookups| ==> Values(lookups)[i] == Values(lookups[1..])[i - 1];
      }
    }
  }

  /** SaveLookupValueAsync takes over the identifier of a stored row with the
      same type and value; the cached entry carries the same identifier. */
  function SavedAs(ls: map<Id, LookupValue>, e: LookupValue): LookupValue
    requires LookupPairsUnique(ls)
  {
    match FindLookup(ls, e.kind, e.value)
    case Some(k) => e.(id := k)
    case None => e
  }

  /** The value SaveLookupIfMissingAsync adds to the cache: nothing for a
      blank value or one cached already in any spelling, otherwise its
      trimmed form. */
  function Missing(values: seq<string>, value: string): seq<string>
  {
    if IsBlank(value) || SeenIC(values, value) then [] else [Trim(value)]
  }

  /** The cache ends up holding the value, so a second save of the same
      trimmed value adds nothing. */
  lemma {:induction false} MissingOnce(values: seq<string>, value: string)
    requires Trim(value) == value
    ensures SeenIC(values + Missing(values, value), value) || IsBlank(value)
    ensures Missing(values + Missing(values, value), value) == []
  {
    if !IsBlank(value) && !SeenIC(values, value) {
      assert (values + [value])[|values|] == value;
    } else if !IsBlank(value) {
      var i :| 0 <= i < |values| && EqIC(values[i], value);
      assert (values + Missing(values, value))[i] == values[i];
    }
  }

  // ---------------------------------------------------------------------------
  // A checked save on the store's tables
  // ---------------------------------------------------------------------------

  /** The tables a save writes to, with the identifier counter. */
  datatype Tables = Tables(
    materials: map<Id, Material>,
    cases: map<Id, CaseRecord>,
    history: map<Id, HistoryItem>,
    lookups: map<Id, LookupValue>,
    nextId: Id)

  function TablesOf(store: Store): Tables
    reads store
  {
    Tables(store.materials, store.cases, store.history, store.lookups, store.nextId)
  }

  /** The store's invariant on these tables. */
  predicate TablesValid(t: Tables)
  {
    Keyed(Stock(t.materials, t.nextId))
    && (forall k :: k in t.cases ==> k < t.nextId && t.cases[k].id == k)
    && (forall k :: k in t.history ==> k < t.nextId && t.history[k].id == k)
    && (forall k :: k in t.lookups ==> k < t.nextId && t.lookups[k].id == k)
    && LookupPairsUnique(t.lookups)
  }

  lemma {:induction false} StoreTables(store: Store)
    requires store.Valid()
    ensures TablesValid(TablesOf(store))
  {
  }

  /** One more fitting line extends a passed check by its match. */
  lemma {:induction false} CheckLinesSnoc(inventory: seq<Material>, lines: seq<Line>, i: nat, used: seq<nat>, k: nat)
    requires i < |lines| && CheckLines(inventory, lines[..i]) == Passed(used) && CheckLine(inventory, lines[i]) == Fits(k)
    ensures CheckLines(inventory, lines[..i + 1]) == Passed(used + [k])
  {
    assert lines[..i + 1][..i] == lines[..i];
  }

  /** One turn of the validation loop: a line that fits is shown resolved
      to its match, keeping what it asks for; a refused one is left alone. */
  method ResolveEntry(e: CaseMaterialEntry, inventory: seq<Material>) returns (verdict: LineVerdict)
    modifies e
    ensures verdict == CheckLine(inventory, old(e.Input())) && e.Input() == old(e.Input())
    ensures verdict.Fits? ==> e.Shows(inventory[verdict.stock])
    ensures verdict.Refused? ==> unchanged(e)
  {
    verdict := CheckLine(inventory, e.Input());
    if verdict.Fits? {
      e.ApplyFrom(inventory[verdict.stock]);
    }
  }

  /** SaveCaseRecordAsync of a new case, under the next identifier. */
  function WithCase(t: Tables, c: CaseRecord): Tables
  {
    t.(cases := t.cases[t.nextId := c.(id := t.nextId)], nextId := t.nextId + 1)
  }

  /** The consumption loop on the tables. */
  function WithConsumed(t: Tables, inventory: seq<Material>, lines: seq<Line>, picks: seq<nat>, now: Time): Tables
    requires Picked(picks, lines, inventory)
  {
    var s := Consumed(Stock(t.materials, t.nextId), inventory, lines, picks, now).0;
    t.(materials := s.materials, nextId := s.nextId)
  }

  /** SaveLookupIfMissingAsync on the tables and the field's cache. */
  function Remembered(t: Tables, cache: seq<LookupValue>, kind: LookupType, value: string): (r: (Tables, seq<LookupValue>))
    requires LookupPairsUnique(t.lookups)
    ensures LookupPairsUnique(r.0.lookups)
  {
    if IsBlank(value) || FirstIC(cache, value).Some? then (t, cache)
    else
      var e := LookupValue(t.nextId, kind, Trim(value));
      (t.(lookups := SaveLookupTo(t.lookups, e).1, nextId := t.nextId + 1), cache + [SavedAs(t.lookups, e)])
  }

  /** SaveHistoryItemAsync of the case's entry, under the next identifier. */
  function WithHistory(t: Tables, c: CaseRecord, now: Time): Tables
  {
    t.(history := t.history[t.nextId := CaseHistory(t.nextId, c, now)], nextId := t.nextId + 1)
  }

  datatype Written = Written(
    tables: Tables,
    hospitalCache: seq<LookupValue>,
    doctorCache: seq<LookupValue>,
    record: CaseRecord,
    entry: HistoryItem)

  /** What a checked save starts from: the tables, the case built from the
      form, the inventory as loaded, the lines and their matches, and each
      field's cache and text. */
  datatype SaveInput = SaveInput(
    tables: Tables,
    draft: CaseRecord,
    inventory: seq<Material>,
    lines: seq<Line>,
    picks: seq<nat>,
    hospitalCache: seq<LookupValue>,
    hospital: string,
    doctorCache: seq<LookupValue>,
    doctor: string)

  /** Everything a checked save writes, in the order the page writes it: the
      case, each line's stock, the hospital and doctor values, the history
      entry. */
  function Committed(input: SaveInput, now: Time): Written
    requires Picked(input.picks, input.lines, input.inventory) && LookupPairsUnique(input.tables.lookups)
  {
    var t := input.tables;
    var record := input.draft.(id := t.nextId);
    var t1 := WithConsumed(WithCase(t, input.draft), input.inventory, input.lines, input.picks, now);
    var (t2, hc) := Remembered(t1, input.hospitalCache, Hospital, input.hospital);
    var (t3, dc) := Remembered(t2, input.doctorCache, Doctor, input.doctor);
    Written(WithHistory(t3, record, now), hc, dc, record, CaseHistory(t3.nextId, record, now))
  }

  /** The loop stores every row under its own key and never lowers the
      counter. */
  lemma {:induction false} ConsumedKeyed(s: Stock, inventory: seq<Material>, lines: seq<Line>, picks: seq<nat>, now: Time)
    requires Picked(picks, lines, inventory) && Keyed(s)
    ensures var r := Consumed(s, inventory, lines, picks, now).0;
            Keyed(r) && r.nextId >= s.nextId
  {
    if picks != [] {
      var n := |picks| - 1;
      ConsumedKeyed(s, inventory, lines[..n], picks[..n], now);
    }
  }

  /** Remembering a value keeps the invariant, touches only the lookups and
      the counter, and adds to the cache exactly the missing value. */
  lemma {:induction false} RememberedSpec(t: Tables, cache: seq<LookupValue>, kind: LookupType, value: string)
    requires TablesValid(t)
    ensures var r := Remembered(t, cache, kind, value);
            TablesValid(r.0) && r.0.nextId >= t.nextId
            && r.0.materials == t.materials && r.0.cases == t.cases && r.0.history == t.history
            && Values(r.1) == Values(cache) + Missing(Values(cache), value)
  {
    FirstICSpec(cache, value);
    if !IsBlank(value) && FirstIC(cache, value).None? {
      var e := LookupValue(t.nextId, kind, Trim(value));
      var ls := SaveLookupTo(t.lookups, e).1;
      assert forall k :: k in ls ==> k < t.nextId + 1 && ls[k].id == k;
      assert Values(cache + [SavedAs(t.lookups, e)]) == Values(cache) + [Trim(value)];
    }
  }

  /** A checked save stores the case under a fresh identifier, takes the
      lines off the stock, adds each missing hospital or doctor value to its
      cache, and writes a reversible history entry, under a fresh identifier
      too, that points at the case and carries its lines; the store's
      invariant holds afterwards. */
  lemma {:induction false} CommittedSpec(input: SaveInput, now: Time)
    requires TablesValid(input.tables) && Picked(input.picks, input.lines, input.inventory)
    ensures var t := input.tables;
            var r := Committed(input, now);
            TablesValid(r.tables)
            && r.record == input.draft.(id := t.nextId) && r.record.id !in t.cases
            && r.tables.cases == t.cases[r.record.id := r.record]
            && r.tables.materials
               == Consumed(Stock(t.materials, t.nextId + 1), input.inventory, input.lines, input.picks, now).0.materials
            && r.entry.id !in t.history && r.entry.id != r.record.id
            && r.tables.history == t.history[r.entry.id := r.entry]
            && r.entry.kind == Case && r.entry.reversible && r.entry.referenceId == Some(r.record.id)
            && r.entry.details == r.record.usedMaterials && r.entry.createdBy == r.record.createdBy
            && Values(r.hospitalCache) == Values(input.hospitalCache) + Missing(Values(input.hospitalCache), input.hospital)
            && Values(r.doctorCache) == Values(input.doctorCache) + Missing(Values(input.doctorCache), input.doctor)
  {
    CommittedStages(input.tables, input.draft, input.inventory, input.lines, input.picks,
                    input.hospitalCache, input.hospital, input.doctorCache, input.doctor, now);
  }

  /** The tables between the steps of a checked save: each step keeps the
      invariant, and only the stock step and the history step touch the
      materials and the history. */
  lemma {:induction false} CommittedStages(t: Tables, draft: CaseRecord, inventory: seq<Material>, lines: seq<Line>, picks: seq<nat>,
                        hospitalCache: seq<LookupValue>, hospital: string, doctorCache: seq<LookupValue>, doctor: string,
                        now: Time)
    requires TablesValid(t) && Picked(picks, lines, inventory)
    ensures var t1 := WithConsumed(WithCase(t, draft), inventory, lines, picks, now);
            var r2 := Remembered(t1, hospitalCache, Hospital, hospital);
            var r3 := Remembered(r2.0, doctorCache, Doctor, doctor);
            TablesValid(r3.0) && r3.0.nextId > t.nextId
            && r3.0.cases == t.cases[t.nextId := draft.(id := t.nextId)] && r3.0.history == t.history
            && r3.0.materials == t1.materials
            && Values(r2.1) == Values(hospitalCache) + Missing(Values(hospitalCache), hospital)
            && Values(r3.1) == Values(doctorCache) + Missing(Values(doctorCache), doctor)
  {
    var t0 := WithCase(t, draft);
    assert TablesValid(t0);
    ConsumedKeyed(Stock(t0.materials, t0.nextId), inventory, lines, picks, now);
    var t1 := WithConsumed(t0, inventory, lines, picks, now);
    assert TablesValid(t1);
    RememberedSpec(t1, hospitalCache, Hospital, hospital);
    var t2 := Remembered(t1, hospitalCache, Hospital, hospital).0;
    RememberedSpec(t2, doctorCache, Doctor, doctor);
  }

  /** One autocompleted field: the hospital or the doctor. */
  class LookupField {
    const kind: LookupType
    /** Hospital / Doctor. */
    var text: string
    /** _hospitalLookups / _doctorLookups. */
    var lookups: seq<LookupValue>
    var suggestions: seq<string>
    var showSuggestions: bool

    constructor (kind: LookupType)
      ensures this.kind == kind && text == "" && lookups == [] && suggestions == [] && !showSuggestions
    {
      this.kind := kind;
      text, lookups, suggestions, showSuggestions := "", [], [], false;
    }

    /** Refresh*Suggestions: the list is rebuilt and shown only for a
        non-blank filter that leaves something to offer. */
    method Refresh(filter: Option<string>)
      modifies this`suggestions, this`showSuggestions
      ensures suggestions == Suggestions(lookups, filter)
      ensures showSuggestions <==> suggestions != [] && !IsBlankOpt(filter)
    {
      suggestions := BuildSuggestions(lookups, filter);
      showSuggestions := |suggestions| > 0 && !IsBlankOpt(filter);
    }

    /** LoadAsync's part: the stored values of this kind, by value. */
    method Load(store: Store)
      modifies this`lookups, this`suggestions, this`showSuggestions
      ensures lookups == LookupsByValue(store.lookups, kind)
      ensures suggestions == Suggestions(lookups, None) && !showSuggestions
    {
      lookups := LookupsByValue(store.lookups, kind);
      Refresh(None);
    }

    /** On*TextChanged: the trimmed text is kept and filters the list. */
    method TextChanged(newText: Option<string>)
      modifies this`text, this`suggestions, this`showSuggestions
      ensures text == TrimmedText(newText)
      ensures suggestions == Suggestions(lookups, Some(text))
      ensures showSuggestions <==> suggestions != [] && !IsBlank(text)
    {
      text := TrimmedText(newText);
      Refresh(Some(text));
    }

    /** On*SuggestionTapped: a tapped value is taken and the list hidden. */
    method SuggestionTapped(parameter: Option<string>)
      modifies this`text, this`showSuggestions
      ensures text == parameter.GetOr(old(text)) && !showSuggestions
    {
      if parameter.Some? {
        text := parameter.value;
      }
      showSuggestions := false;
    }

    /** OnRemove*Suggestion: the first cached entry equal to the value
        ignoring case is dropped from the cache and deleted from the store;
        without a value or a match nothing changes. */
    method RemoveSuggestion(store: Store, value: Option<string>)
      requires store.Valid()
      modifies this`lookups, this`suggestions, this`showSuggestions, store`lookups
      ensures store.Valid()
      ensures value.None? || FirstIC(old(lookups), value.value).None? ==>
                lookups == old(lookups) && store.lookups == old(store.lookups)
                && suggestions == old(suggestions) && showSuggestions == old(showSuggestions)
      ensures value.Some? && FirstIC(old(lookups), value.value).Some? ==>
                var k := FirstIC(old(lookups), value.value).value;
                lookups == old(lookups)[..k] + old(lookups)[k + 1..]
                && store.lookups == old(store.lookups) - {old(lookups)[k].id}
                && suggestions == Suggestions(lookups, Some(text))
                && (showSuggestions <==> suggestions != [] && !IsBlank(text))
    {
      if value.None? {
        return;
      }
      var found := FirstIC(lookups, value.value);
      if found.None? {
        return;
      }
      var k := found.value;
      var e := lookups[k];
      lookups := lookups[..k] + lookups[k + 1..];
      store.DeleteLookup(e);
      Refresh(Some(text));
    }

    /** SaveLookupIfMissingAsync: a blank value, or one cached in any
        spelling, changes nothing; otherwise the trimmed value is cached and
        saved under a new identifier (or the stored row of the same value's),
        and the list is refreshed. */
    method SaveIfMissing(store: Store, value: string)
      requires store.Valid()
      modifies this`lookups, this`suggestions, this`showSuggestions, store`lookups, store`nextId
      ensures store.Valid()
      ensures (TablesOf(store), lookups) == Remembered(old(TablesOf(store)), old(lookups), kind, value)
      ensures IsBlank(value) || FirstIC(old(lookups), value).Some? ==>
                suggestions == old(suggestions) && showSuggestions == old(showSuggestions)
      ensures !IsBlank(value) && FirstIC(old(lookups), value).None? ==>
                suggestions == Suggestions(lookups, Some(text))
                && (showSuggestions <==> suggestions != [] && !IsBlank(text))
    {
      if IsBlank(value) {
        return;
      }
      if FirstIC(lookups, value).Some? {
        return;
      }
      var cached := SaveNewLookup(store, kind, value);
      lookups := lookups + [cached];
      Refresh(Some(text));
    }
  }

  /** The store half of SaveLookupIfMissingAsync: the trimmed value is saved
      under a new identifier, and the cache receives the row as stored (the
      existing row's identifier when the value was already stored). */
  method SaveNewLookup(store: Store, kind: LookupType, value: string) returns (cached: LookupValue)
    requires store.Valid()
    modifies store`lookups, store`nextId
    ensures store.Valid()
    ensures var e := LookupValue(old(store.nextId), kind, Trim(value));
            TablesOf(store) == old(TablesOf(store)).(lookups := SaveLookupTo(old(store.lookups), e).1, nextId := old(store.nextId) + 1)
            && cached == SavedAs(old(store.lookups), e)
  {
    var id := store.NewId();
    var e := LookupValue(id, kind, Trim(value));
    cached := SavedAs(store.lookups, e);
    var _ := store.SaveLookup(e);
  }

  // ---------------------------------------------------------------------------
  // The page
  // ---------------------------------------------------------------------------

  datatype SaveOutcome = Rejected(reason: Rejection) | Saved(record: CaseRecord, entry: HistoryItem)

  class CaseEntryPage {
    const hospital: LookupField
    const doctor: LookupField
    /** _materials: the lines of the form. */
    var materials: seq<CaseMaterialEntry>
    /** _inventory: the materials as last loaded. */
    var inventory: seq<Material>
    /** CaseDate, as the first instant of the chosen day. */
    var caseDate: Time
    var patient: string
    var note: Option<string>
    var createdByDisplay: string
    var validationMessage: Option<string>
    var initialized: bool

    /** The two fields are distinct objects of their kinds, and no line is
        listed twice. */
    ghost predicate Valid()
      reads this
    {
      hospital != doctor && hospital.kind == Hospital && doctor.kind == Doctor && NoDuplicates(materials)
    }

    constructor (today: Time)
      ensures Valid() && fresh(hospital) && fresh(doctor)
      ensures hospital.text == "" && hospital.lookups == [] && doctor.text == "" && doctor.lookups == []
      ensures materials == [] && inventory == [] && caseDate == today && patient == "" && note.None?
      ensures createdByDisplay == "" && validationMessage.None? && !initialized
    {
      hospital := new LookupField(Hospital);
      doctor := new LookupField(Doctor);
      materials, inventory, caseDate, patient, note := [], [], today, "", None;
      createdByDisplay, validationMessage, initialized := "", None, false;
    }

    /** OnAppearing: the first appearance loads the page; later ones do
        nothing. */
    method Appearing(store: Store, currentUser: Option<string>)
      requires Valid()
      modifies this`createdByDisplay, this`inventory, this`materials, this`initialized,
               hospital`lookups, hospital`suggestions, hospital`showSuggestions,
               doctor`lookups, doctor`suggestions, doctor`showSuggestions
      ensures Valid() && initialized
      ensures old(initialized) ==> inventory == old(inventory) && materials == old(materials)
                                   && createdByDisplay == old(createdByDisplay)
                                   && hospital.lookups == old(hospital.lookups) && doctor.lookups == old(doctor.lookups)
      ensures !old(initialized) ==> inventory == MaterialsByName(store.materials)
                                    && hospital.lookups == LookupsByValue(store.lookups, Hospital)
                                    && doctor.lookups == LookupsByValue(store.lookups, Doctor)
    {
      if initialized {
        return;
      }
      Load(store, currentUser);
      initialized := true;
    }

    /** LoadAsync: the signed-in user (or "Misafir"), the inventory, both
        caches and their unfiltered lists, and one empty line on an empty
        form. */
    method Load(store: Store, currentUser: Option<string>)
      requires Valid()
      modifies this`createdByDisplay, this`inventory, this`materials,
               hospital`lookups, hospital`suggestions, hospital`showSuggestions,
               doctor`lookups, doctor`suggestions, doctor`showSuggestions
      ensures Valid()
      ensures createdByDisplay == currentUser.GetOr(Guest)
      ensures inventory == MaterialsByName(store.materials)
      ensures hospital.lookups == LookupsByValue(store.lookups, Hospital)
      ensures hospital.suggestions == Suggestions(hospital.lookups, None) && !hospital.showSuggestions
      ensures doctor.lookups == LookupsByValue(store.lookups, Doctor)
      ensures doctor.suggestions == Suggestions(doctor.lookups, None) && !doctor.showSuggestions
      ensures old(materials) != [] ==> materials == old(materials)
      ensures old(materials) == [] ==> |materials| == 1 && fresh(materials[0])
                                       && materials[0].Cleared() && materials[0].Input() == Line("", 1)
    {
      createdByDisplay := currentUser.GetOr(Guest);
      inventory := MaterialsByName(store.materials);
      hospital.Load(store);
      doctor.Load(store);
      if |materials| == 0 {
        var e := new CaseMaterialEntry();
        materials := [e];
      }
    }

    /** OnAddMaterial: a new empty line at the end. */
    method AddMaterial()
      requires Valid()
      modifies this`materials
      ensures Valid()
      ensures |materials| == |old(materials)| + 1 && materials[..|old(materials)|] == old(materials)
      ensures fresh(materials[|old(materials)|]) && materials[|old(materials)|].Cleared()
              && materials[|old(materials)|].Input() == Line("", 1)
    {
      var e := new CaseMaterialEntry();
      materials := materials + [e];
      assert materials[..|old(materials)|] == old(materials);
    }

    /** OnRemoveMaterial: the line goes; without a line nothing changes. */
    method RemoveMaterial(entry: Option<CaseMaterialEntry>)
      requires Valid()
      modifies this`materials
      ensures Valid()
      ensures materials == if entry.Some? then RemoveFirst(old(materials), entry.value) else old(materials)
    {
      if entry.Some? {
        RemoveFirstDistinct(materials, entry.value);
        materials := RemoveFirst(materials, entry.value);
      }
    }

    /** OnMaterialSerialChanged: the trimmed text is kept; then a blank text
        or no match clears the line, exactly one match applies it, and
        several leave what the line shows. */
    method SerialChanged(entry: CaseMaterialEntry, newText: Option<string>)
      modifies entry
      ensures entry.serialOrLot == TrimmedText(newText) && entry.quantity == old(entry.quantity)
      ensures LiveMatchFor(inventory, entry.serialOrLot).ApplyMatch? ==> entry.Shows(LiveMatchFor(inventory, entry.serialOrLot).m)
      ensures LiveMatchFor(inventory, entry.serialOrLot).ClearMatch? ==> entry.Cleared()
      ensures LiveMatchFor(inventory, entry.serialOrLot).KeepAsIs? ==>
                entry.materialId == old(entry.materialId) && entry.name == old(entry.name)
                && entry.expiryDate == old(entry.expiryDate) && entry.ubb == old(entry.ubb)
                && entry.serial == old(entry.serial) && entry.lot == old(entry.lot)
                && entry.availableQuantity == old(entry.availableQuantity)
    {
      entry.serialOrLot := TrimmedText(newText);
      if IsBlank(entry.serialOrLot) {
        entry.ClearResolved();
        return;
      }
      var matches := Matches(inventory, entry.serialOrLot);
      if |matches| == 1 {
        entry.ApplyFrom(matches[0]);
      } else if |matches| == 0 {
        entry.ClearResolved();
      }
    }

    /** OnMaterialQuantityChanged. */
    method QuantityChanged(entry: CaseMaterialEntry, newText: Option<string>)
      modifies entry`quantity
      ensures entry.quantity == QuantityAfter(newText, old(entry.quantity))
    {
      var parsed := ParseInt(newText);
      if parsed.Some? && parsed.value >= 0 {
        entry.quantity := parsed.value;
      } else if IsBlankOpt(newText) {
        entry.quantity := 0;
      }
    }

    /** OnSaveClicked's checks: the header fields, then each line in turn
        (resolving those that fit), then a form without lines. */
    method Validate(ghost store: Store) returns (check: LineCheck)
      requires Valid()
      modifies set e | e in materials
      ensures unchanged(this, store, hospital, doctor)
      ensures LinesOf(materials) == old(LinesOf(materials))
      ensures check == SaveCheck(hospital.text, doctor.text, patient, inventory, LinesOf(materials))
      ensures check.Passed? ==> forall j :: 0 <= j < |materials| ==> materials[j].Shows(inventory[check.picks[j]])
    {
      if IsBlank(hospital.text) || IsBlank(doctor.text) || IsBlank(patient) {
        return Failed(MissingHeader);
      }
      var used;
      check, used := CheckEntries(materials, inventory);
      if check.Passed? && |used| == 0 {
        check := Failed(NoLines);
      }
    }

    /** The store side of a checked save, in the source's order. */
    method Persist(store: Store, draft: CaseRecord, lines: seq<Line>, picks: seq<nat>, now: Time, ghost input: SaveInput)
      returns (record: CaseRecord, entry: HistoryItem, after: seq<Material>)
      requires Valid() && store.Valid() && Picked(picks, lines, inventory)
      requires input == SaveInput(TablesOf(store), draft, inventory, lines, picks,
                                  hospital.lookups, hospital.text, doctor.lookups, doctor.text)
      modifies store`cases, store`materials, store`nextId, store`lookups, store`history,
               hospital`lookups, hospital`suggestions, hospital`showSuggestions,
               doctor`lookups, doctor`suggestions, doctor`showSuggestions
      ensures Valid() && store.Valid()
      ensures Written(TablesOf(store), hospital.lookups, doctor.lookups, record, entry) == Committed(input, now)
    {
      record := StoreCase(store, draft);
      after := ConsumeLines(store, inventory, lines, picks, now);
      hospital.SaveIfMissing(store, hospital.text);
      doctor.SaveIfMissing(store, doctor.text);
      entry := WriteHistory(store, record, now);
    }

    /** ResetForm: today's date, blank patient and note, one empty line and
        no message. */
    method ResetForm(today: Time)
      requires Valid()
      modifies this`caseDate, this`patient, this`note, this`materials, this`validationMessage
      ensures Valid() && unchanged(hospital, doctor)
      ensures caseDate == today && patient == "" && note == Some("") && validationMessage.None?
      ensures |materials| == 1 && fresh(materials[0]) && materials[0].Cleared() && materials[0].Input() == Line("", 1)
    {
      caseDate, patient, note := today, "", Some("");
      var e := new CaseMaterialEntry();
      materials := [e];
      validationMessage := None;
    }

    /** ReloadInventoryAsync. */
    method ReloadInventory(store: Store)
      modifies this`inventory
      ensures inventory == MaterialsByName(store.materials)
    {
      inventory := MaterialsByName(store.materials);
    }

    /** Everything after the checks: the case built from the form and the
        matched items is written with the rest, and the form is reset. The
        ghost `input` names the state the save starts from. */
    method Commit(store: Store, draft: CaseRecord, lines: seq<Line>, picks: seq<nat>, today: Time, now: Time, ghost input: SaveInput)
      returns (record: CaseRecord, entry: HistoryItem)
      requires Valid() && store.Valid() && Picked(picks, lines, inventory)
      requires input == SaveInput(TablesOf(store), draft, inventory, lines, picks,
                                  hospital.lookups, hospital.text, doctor.lookups, doctor.text)
      modifies this`inventory, this`caseDate, this`patient, this`note, this`materials, this`validationMessage,
               store`cases, store`materials, store`nextId, store`lookups, store`history,
               hospital`lookups, hospital`suggestions, hospital`showSuggestions,
               doctor`lookups, doctor`suggestions, doctor`showSuggestions
      ensures Valid() && store.Valid()
      ensures Written(TablesOf(store), hospital.lookups, doctor.lookups, record, entry) == Committed(input, now)
      ensures caseDate == today && patient == "" && note == Some("") && validationMessage.None?
      ensures |materials| == 1 && fresh(materials[0]) && materials[0].Cleared()
      ensures inventory == MaterialsByName(store.materials)
    {
      var after;
      record, entry, after := Persist(store, draft, lines, picks, now, input);
      Finish(store, after, today);
    }

    /** The form after a save: the consumed inventory is dropped for the
        store's listing and the form is reset; nothing stored changes. */
    method Finish(store: Store, after: seq<Material>, today: Time)
      requires Valid()
      modifies this`inventory, this`caseDate, this`patient, this`note, this`materials, this`validationMessage
      ensures Valid() && unchanged(store, hospital, doctor)
      ensures caseDate == today && patient == "" && note == Some("") && validationMessage.None?
      ensures |materials| == 1 && fresh(materials[0]) && materials[0].Cleared()
      ensures inventory == MaterialsByName(store.materials)
    {
      inventory := after;
      ResetForm(today);
      ReloadInventory(store);
    }

    /** The checking half of OnSaveClicked: the message is cleared, the
        checks run, and a refusal's message is shown. */
    method Check(ghost store: Store) returns (check: LineCheck)
      requires Valid()
      modifies this`validationMessage, (set e | e in materials)
      ensures Valid() && unchanged(store, hospital, doctor)
      ensures unchanged(this`inventory, this`caseDate, this`patient, this`note, this`materials)
      ensures LinesOf(materials) == old(LinesOf(materials))
      ensures check == SaveCheck(hospital.text, doctor.text, patient, inventory, LinesOf(materials))
      ensures validationMessage == if check.Failed? then Some(Message(check.reason)) else None
    {
      validationMessage := None;
      check := Validate(store);
      if check.Failed? {
        validationMessage := Some(Message(check.reason));
      }
    }

    /** OnSaveClicked: a refused save shows its message and changes nothing
        stored; an accepted one is committed under the signed-in user's
        name, or "Depo" without one. */
    method Save(store: Store, currentUser: Option<string>, timeOfDay: Time, today: Time, now: Time) returns (outcome: SaveOutcome)
      requires Valid() && store.Valid()
      modifies this`inventory, this`caseDate, this`patient, this`note, this`materials, this`validationMessage,
               (set e | e in materials),
               store`cases, store`materials, store`nextId, store`lookups, store`history,
               hospital`lookups, hospital`suggestions, hospital`showSuggestions,
               doctor`lookups, doctor`suggestions, doctor`showSuggestions
      ensures Valid() && store.Valid()
      ensures var check := SaveCheck(old(hospital.text), old(doctor.text), old(patient), old(inventory), old(LinesOf(materials)));
              (outcome.Rejected? <==> check.Failed?)
              && (check.Failed? ==>
                    outcome.reason == check.reason && validationMessage == Some(Message(check.reason))
                    && TablesOf(store) == old(TablesOf(store)) && unchanged(hospital, doctor)
                    && inventory == old(inventory) && caseDate == old(caseDate) && patient == old(patient)
                    && note == old(note) && materials == old(materials) && LinesOf(materials) == old(LinesOf(materials)))
              && (check.Passed? ==>
                    Written(TablesOf(store), hospital.lookups, doctor.lookups, outcome.record, outcome.entry)
                    == Committed(SaveInput(old(TablesOf(store)),
                                           CaseRecord(0, old(hospital.text), old(doctor.text), old(patient), old(note),
                                                      UsedRecords(old(inventory), old(LinesOf(materials)), check.picks),
                                                      old(caseDate) + timeOfDay, currentUser.GetOr(Depot)),
                                           old(inventory), old(LinesOf(materials)), check.picks,
                                           old(hospital.lookups), old(hospital.text), old(doctor.lookups), old(doctor.text)),
                                 now)
                    && caseDate == today && patient == "" && note == Some("") && validationMessage.None?
                    && |materials| == 1 && materials[0].Cleared()
                    && inventory == MaterialsByName(store.materials))
    {
      var lines := LinesOf(materials);
      var check := Check(store);
      if check.Failed? {
        return Rejected(check.reason);
      }
      var draft := CaseRecord(0, hospital.text, doctor.text, patient, note,
                              UsedRecords(inventory, lines, check.picks), caseDate + timeOfDay, currentUser.GetOr(Depot));
      assert draft == CaseRecord(0, old(hospital.text), old(doctor.text), old(patient), old(note),
                                 UsedRecords(old(inventory), old(LinesOf(materials)), check.picks),
                                 old(caseDate) + timeOfDay, currentUser.GetOr(Depot));
      var record, entry := Commit(store, draft, lines, check.picks, today, now,
        SaveInput(old(TablesOf(store)),
                  CaseRecord(0, old(hospital.text), old(doctor.text), old(patient), old(note),
                             UsedRecords(old(inventory), old(LinesOf(materials)), check.picks),
                             old(caseDate) + timeOfDay, currentUser.GetOr(Depot)),
                  old(inventory), old(LinesOf(materials)), check.picks,
                  old(hospital.lookups), old(hospital.text), old(doctor.lookups), old(doctor.text)));
      outcome := Saved(record, entry);
    }
  }

  /** The validation loop of OnSaveClicked. Each line that fits is shown
      resolved to its match and recorded in `used` before the next is
      checked; the loop stops at the first refused line, leaving it and the
      rest as they were. */
  method CheckEntries(entries: seq<CaseMaterialEntry>, inventory: seq<Material>) returns (check: LineCheck, used: seq<nat>)
    requires NoDuplicates(entries)
    modifies set e | e in entries
    ensures LinesOf(entries) == old(LinesOf(entries))
    ensures check == CheckLines(inventory, old(LinesOf(entries)))
    ensures |used| <= |entries| && CheckLines(inventory, old(LinesOf(entries))[..|used|]) == Passed(used)
    ensures check.Passed? ==> used == check.picks && |used| == |entries|
    ensures check.Failed? ==> |used| < |entries| && CheckLine(inventory, old(LinesOf(entries))[|used|]) == Refused(check.reason)
    ensures forall j :: 0 <= j < |used| ==> entries[j].Shows(inventory[used[j]])
    ensures forall j :: |used| <= j < |entries| ==> unchanged(entries[j])
  {
    ghost var lines := LinesOf(entries);
    var refusal;
    used, refusal := ResolveEntries(entries, inventory, lines);
    assert LinesOf(entries) == lines;
    if refusal.Some? {
      var n := |used|;
      assert lines[..n + 1][..n] == lines[..n];
      CheckLinesFailurePersists(inventory, lines, n + 1);
      check := Failed(refusal.value);
    } else {
      assert lines[..|used|] == lines;
      check := Passed(used);
    }
  }

  /** The loop itself: it resolves lines in order and stops at the first
      refused one, which it reports. */
  method ResolveEntries(entries: seq<CaseMaterialEntry>, inventory: seq<Material>, ghost lines: seq<Line>)
    returns (used: seq<nat>, refusal: Option<Rejection>)
    requires NoDuplicates(entries) && |lines| == |entries|
    requires forall j :: 0 <= j < |entries| ==> entries[j].Input() == lines[j]
    modifies set e | e in entries
    ensures |used| <= |entries| && CheckLines(inventory, lines[..|used|]) == Passed(used)
    ensures refusal.None? ==> |used| == |entries|
    ensures refusal.Some? ==> |used| < |entries| && CheckLine(inventory, lines[|used|]) == Refused(refusal.value)
    ensures forall j :: 0 <= j < |entries| ==> entries[j].Input() == lines[j]
    ensures forall j :: 0 <= j < |used| ==> entries[j].Shows(inventory[used[j]])
    ensures forall j :: |used| <= j < |entries| ==> unchanged(entries[j])
  {
    used, refusal := [], None;
    var i := 0;
    while i < |entries|
      invariant 0 <= i <= |entries| && |used| == i
      invariant forall j :: 0 <= j < |entries| ==> entries[j].Input() == lines[j]
      invariant CheckLines(inventory, lines[..i]) == Passed(used)
      invariant forall j :: 0 <= j < i ==> entries[j].Shows(inventory[used[j]])
      invariant forall j :: i <= j < |entries| ==> unchanged(entries[j])
    {
      var e := entries[i];
      var verdict := ResolveEntry(e, inventory);
      if verdict.Refused? {
        return used, Some(verdict.reason);
      }
      CheckLinesSnoc(inventory, lines, i, used, verdict.stock);
      used := used + [verdict.stock];
      i := i + 1;
    }
  }

  /** SaveCaseRecordAsync of a new case: the record gets a fresh identifier. */
  method StoreCase(store: Store, c: CaseRecord) returns (stored: CaseRecord)
    requires store.Valid()
    modifies store`cases, store`nextId
    ensures store.Valid()
    ensures stored == c.(id := old(store.nextId)) && TablesOf(store) == WithCase(old(TablesOf(store)), c)
  {
    var id := store.NewId();
    stored := c.(id := id);
    store.SaveCase(stored);
  }

  /** The consumption loop of OnSaveClicked: each line's quantity comes off
      its matched item, which is then saved. */
  method ConsumeLines(store: Store, inventory: seq<Material>, lines: seq<Line>, picks: seq<nat>, now: Time)
    returns (after: seq<Material>)
    requires store.Valid() && Picked(picks, lines, inventory)
    modifies store`materials, store`nextId
    ensures store.Valid()
    ensures TablesOf(store) == WithConsumed(old(TablesOf(store)), inventory, lines, picks, now)
    ensures after == Consumed(old(Stock(store.materials, store.nextId)), inventory, lines, picks, now).1
  {
    ghost var start := Stock(store.materials, store.nextId);
    after := inventory;
    var i := 0;
    while i < |picks|
      invariant 0 <= i <= |picks| && store.Valid()
      invariant Picked(picks[..i], lines[..i], inventory)
      invariant (Stock(store.materials, store.nextId), after) == Consumed(start, inventory, lines[..i], picks[..i], now)
    {
      var k := picks[i];
      var m := after[k].(quantity := after[k].quantity - lines[i].quantity);
      var stored := store.SaveMaterial(m, now);
      after := after[k := stored];
      assert lines[..i + 1][..i] == lines[..i];
      assert picks[..i + 1][..i] == picks[..i];
      i := i + 1;
    }
    assert lines[..i] == lines;
    assert picks[..i] == picks;
  }

  /** SaveHistoryItemAsync of the case's entry under a fresh identifier. */
  method WriteHistory(store: Store, c: CaseRecord, now: Time) returns (entry: HistoryItem)
    requires store.Valid()
    modifies store`history, store`nextId
    ensures store.Valid()
    ensures entry == CaseHistory(old(store.nextId), c, now) && TablesOf(store) == WithHistory(old(TablesOf(store)), c, now)
  {
    var id := store.NewId();
    entry := CaseHistory(id, c, now);
    store.SaveHistory(entry);
  }
}
