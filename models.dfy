/**
 * The records of the inventory: materials on hand, the snapshots of used
 * materials that cases and history entries carry, case records, history
 * entries, checklist items, lookup values and users.
 */
module Models {
  import opened Wrappers
  import opened Text

  /** The central store: the owner and the user name used when nobody is
      signed in, and the first entry of the From / To pickers. */
  const Depot: string := "Depo"

  /** A record identifier (a Guid in the source). */
  type Id = nat

  /** A point in time (a DateTime), as a tick count. */
  type Time = int

  /** A calendar date without time of day. */
  datatype Date = Date(year: int, month: int, day: int)

  /** A stock row. `quantity` is what is on hand. */
  datatype Material = Material(
    id: Id,
    name: string,
    code: Option<string>,
    serial: Option<string>,
    lot: Option<string>,
    expiryDate: Option<Date>,
    quantity: int,
    ubb: Option<string>,
    createdAt: Time,
    updatedAt: Time,
    ownerUser: string)

  /** A snapshot of one material line, taken when a case or history entry is made. */
  datatype UsedMaterialRecord = UsedMaterialRecord(
    materialId: Option<Id>,
    name: string,
    serialOrLot: Option<string>,
    serial: Option<string>,
    lot: Option<string>,
    expiryDate: Option<Date>,
    quantity: int)

  datatype CaseRecord = CaseRecord(
    id: Id,
    hospital: string,
    doctor: string,
    patient: string,
    note: Option<string>,
    usedMaterials: seq<UsedMaterialRecord>,
    createdAt: Time,
    createdBy: string)

  datatype HistoryType = StockIn | StockOut | Delete | Case | Checklist

  datatype HistoryItem = HistoryItem(
    id: Id,
    kind: HistoryType,
    summary: string,
    details: seq<UsedMaterialRecord>,
    createdAt: Time,
    createdBy: string,
    reversible: bool,
    referenceId: Option<Id>)

  datatype ChecklistStatus = NotYet | Done

  /** One patient of the daily checklist; `time` is a time of day in minutes. */
  datatype ChecklistItem = ChecklistItem(
    id: Id,
    orderNo: int,
    patient: string,
    hospital: string,
    phone: string,
    time: int,
    status: ChecklistStatus)

  datatype LookupType = Hospital | Doctor

  /** An autocomplete value (a hospital or doctor name). */
  datatype LookupValue = LookupValue(id: Id, kind: LookupType, value: string)

  datatype User = User(id: Id, username: string, passwordHash: string, email: string)

  // ---------------------------------------------------------------------------
  // Date formatting ("dd.MM.yyyy")
  // ---------------------------------------------------------------------------

  /** A number written with at least `width` digits, zero-padded on the left. */
  function Padded(n: nat, width: nat): (r: string)
    ensures |r| >= width && AllDigits(r) && DigitsValue(r) == n
  {
    var digits := NatToString(n);
    if |digits| >= width then digits
    else
      var r := Zeros(width - |digits|) + digits;
      ZerosValue(width - |digits|, digits);
      r
  }

  function Zeros(k: nat): (z: string)
    ensures |z| == k && AllDigits(z)
  {
    if k == 0 then [] else "0" + Zeros(k - 1)
  }

  lemma {:induction false} ZerosValue(k: nat, d: string)
    requires AllDigits(d)
    ensures AllDigits(Zeros(k) + d) && DigitsValue(Zeros(k) + d) == DigitsValue(d)
  {
    if d != [] {
      var s := Zeros(k) + d;
      assert s[..|s| - 1] == Zeros(k) + d[..|d| - 1];
      ZerosValue(k, d[..|d| - 1]);
    } else {
      assert Zeros(k) + d == Zeros(k);
      ZerosOnly(k);
    }
  }

  lemma {:induction false} ZerosOnly(k: nat)
    ensures DigitsValue(Zeros(k)) == 0
  {
    if k > 0 {
      assert Zeros(k)[..k - 1] == Zeros(k - 1) by {
        ZerosAppend(k - 1);
      }
      ZerosOnly(k - 1);
    }
  }

  lemma {:induction false} ZerosAppend(k: nat)
    ensures Zeros(k + 1) == Zeros(k) + "0"
  {
    if k > 0 { ZerosAppend(k - 1); }
  }

  /** A date as "dd.MM.yyyy". */
  function FormatDate(d: Date): string
  {
    Padded(if d.day < 0 then 0 else d.day, 2) + "." + Padded(if d.month < 0 then 0 else d.month, 2)
      + "." + Padded(if d.year < 0 then 0 else d.year, 4)
  }

  // ---------------------------------------------------------------------------
  // Material.SerialOrLotDisplay
  // ---------------------------------------------------------------------------

  /** The separator Material.cs writes between parts: its file holds the bullet
      "•" mis-encoded as the three characters "â€¢". */
  const DisplaySeparator: string := " \U{00E2}\U{20AC}\U{00A2} "

  const NoDetailText: string := "Detay bulunmuyor"

  /** The parts shown for a material, in the fixed order Serial, Lot, SKT;
      a blank serial or lot and a missing expiry date contribute none. */
  function DisplayParts(m: Material): (r: seq<string>)
    ensures |r| == (if IsBlankOpt(m.serial) then 0 else 1) + (if IsBlankOpt(m.lot) then 0 else 1)
                   + (if m.expiryDate.None? then 0 else 1)
  {
    SerialDetail(m) + LotDetail(m) + ExpiryDetail(m)
  }

  function SerialDetail(m: Material): seq<string>
  {
    if IsBlankOpt(m.serial) then [] else [SerialLabel + m.serial.value]
  }

  function LotDetail(m: Material): seq<string>
  {
    if IsBlankOpt(m.lot) then [] else [LotLabel + m.lot.value]
  }

  function ExpiryDetail(m: Material): seq<string>
  {
    if m.expiryDate.None? then [] else [ExpiryLabel + FormatDate(m.expiryDate.value)]
  }

  const SerialLabel: string := "Seri: "
  const LotLabel: string := "Lot: "
  const ExpiryLabel: string := "SKT: "

  /** The serial comes first, the lot next, the expiry date last. */
  lemma {:induction false} DisplayPartsOrder(m: Material)
    ensures var r := DisplayParts(m);
            && (!IsBlankOpt(m.serial) ==> r[0] == SerialLabel + m.serial.value)
            && (IsBlankOpt(m.serial) && !IsBlankOpt(m.lot) ==> r[0] == LotLabel + m.lot.value)
            && (!IsBlankOpt(m.serial) && !IsBlankOpt(m.lot) ==> r[1] == LotLabel + m.lot.value)
            && (m.expiryDate.Some? ==> r[|r| - 1] == ExpiryLabel + FormatDate(m.expiryDate.value))
  {
    var a, b, c := SerialDetail(m), LotDetail(m), ExpiryDetail(m);
    assert DisplayParts(m) == a + b + c;
    if !IsBlankOpt(m.serial) { assert (a + b + c)[0] == a[0]; }
    if !IsBlankOpt(m.lot) { assert (a + b + c)[|a|] == b[0]; }
    if m.expiryDate.Some? { assert (a + b + c)[|a + b|] == c[0]; }
  }

  /** Every part opens with its label, so with 'S' or 'L'. */
  lemma {:induction false} DisplayPartsLead(m: Material)
    requires DisplayParts(m) != []
    ensures |DisplayParts(m)[0]| > 0 && DisplayParts(m)[0][0] in "SL"
  {
    var a, b, c := SerialDetail(m), LotDetail(m), ExpiryDetail(m);
    assert DisplayParts(m) == a + b + c;
    if a != [] {
      assert (a + b + c)[0] == SerialLabel + m.serial.value;
      assert SerialLabel[0] == 'S';
    } else if b != [] {
      assert (a + b + c)[0] == LotLabel + m.lot.value;
      assert LotLabel[0] == 'L';
    } else {
      assert (a + b + c)[0] == ExpiryLabel + FormatDate(m.expiryDate.value);
      assert ExpiryLabel[0] == 'S';
    }
  }

  /** Material.SerialOrLotDisplay: the parts joined by the separator, or the
      "no detail" text when there is none. */
  function SerialOrLotDisplay(m: Material): string
  {
    var parts := DisplayParts(m);
    if |parts| > 0 then Join(parts, DisplaySeparator) else NoDetailText
  }

  lemma {:induction false} JoinStartsWithFirst(parts: seq<string>, sep: string)
    requires |parts| > 0
    ensures parts[0] <= Join(parts, sep)
  {
  }

  /** The display is the "no detail" text exactly when the material has no
      serial, no lot (blank counts as absent) and no expiry date. */
  lemma {:induction false} SerialOrLotDisplayNoDetail(m: Material)
    ensures SerialOrLotDisplay(m) == NoDetailText
            <==> IsBlankOpt(m.serial) && IsBlankOpt(m.lot) && m.expiryDate.None?
  {
    var parts := DisplayParts(m);
    if |parts| > 0 {
      DisplayPartsLead(m);
      JoinStartsWithFirst(parts, DisplaySeparator);
      var j := Join(parts, DisplaySeparator);
      assert j[0] == parts[0][0];
      assert NoDetailText[0] == 'D';
    }
  }
}
