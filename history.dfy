/**
 * The history page: the list of history entries with its kind filter and
 * text search, and the undo engine that reverses an entry's effect on stock.
 *
 * Undo resolves each detail line of the entry to a stored material (by
 * identifier, then by the first serial match, then by the first lot match,
 * in the store's name order) and applies the inverse the entry's kind calls
 * for, then deletes the entry. The per-line rules are specification
 * functions over the materials table and the identifier counter; the page's
 * methods loop over the lines and are proved against them.
 */
module History {
  import opened Wrappers
  import opened Text
  import opened Models
  import opened Database
  import opened Collections

  // ---------------------------------------------------------------------------
  // The kind filter
  // ---------------------------------------------------------------------------

  datatype HistoryFilter = AllEntries | StockEntries | CaseEntries | ChecklistEntries

  /** OnFilterClicked: the button's command parameter names the filter;
      anything unknown means all entries. */
  function FilterFor(parameter: string): HistoryFilter
  {
    if parameter == "Stock" then StockEntries
    else if parameter == "Case" then CaseEntries
    else if parameter == "Checklist" then ChecklistEntries
    else AllEntries
  }

  /** The command parameter of each filter button. */
  function FilterName(f: HistoryFilter): string
  {
    match f
    case AllEntries => "All"
    case StockEntries => "Stock"
    case CaseEntries => "Case"
    case ChecklistEntries => "Checklist"
  }

  /** Each button selects its own filter. */
  lemma {:induction false} FilterNameRoundTrip(f: HistoryFilter)
    ensures FilterFor(FilterName(f)) == f
  {
    if f == AllEntries {
      assert FilterName(f)[0] == 'A';
    }
  }

  /** FilterMatches: the stock filter admits the three stock kinds, the case and
      checklist filters their own kind, and no filter admits everything. */
  predicate FilterMatches(f: HistoryFilter, kind: HistoryType)
  {
    match f
    case StockEntries => kind == StockIn || kind == StockOut || kind == Delete
    case CaseEntries => kind == Case
    case ChecklistEntries => kind == Checklist
    case AllEntries => true
  }

  /** The three kind filters split the kinds between them: every kind is
      admitted by exactly one of them, and by "all". */
  lemma {:induction false} FilterPartition(kind: HistoryType)
    ensures FilterMatches(AllEntries, kind)
    ensures (if FilterMatches(StockEntries, kind) then 1 else 0) + (if FilterMatches(CaseEntries, kind) then 1 else 0)
            + (if FilterMatches(ChecklistEntries, kind) then 1 else 0) == 1
    ensures FilterMatches(StockEntries, kind) <==> kind in {StockIn, StockOut, Delete}
  {
  }

  // ---------------------------------------------------------------------------
  // The display lines of an entry
  // ---------------------------------------------------------------------------

  /** The separator between the parts of a detail line, " • ". */
  const Bullet: string := " \U{2022} "

  const DoneText: string := "Tamamlandı"
  const PendingText: string := "Beklemede"
  const SystemText: string := "Sistem"
  const ActorPrefix: string := "İşlemi yapan: "
  const SerialPrefix: string := "Seri: "
  const LotPrefix: string := "Lot: "
  const ExpiryPrefix: string := "SKT: "
  const CountPrefix: string := "Adet: "

  /** A checklist detail line: the patient, its serial or lot text when not
      blank, and whether the visit is done. */
  function ChecklistLine(r: UsedMaterialRecord): string
  {
    var middle := if IsBlankOpt(r.serialOrLot) then [] else [r.serialOrLot.value];
    Join([r.name] + middle + [if r.quantity > 0 then DoneText else PendingText], Bullet)
  }

  /** The identifying part of a stock detail line: the serial, else the lot,
      else the combined serial or lot text, else nothing. */
  function IdentityPart(r: UsedMaterialRecord): seq<string>
  {
    if !IsBlankOpt(r.serial) then [SerialPrefix + r.serial.value]
    else if !IsBlankOpt(r.lot) then [LotPrefix + r.lot.value]
    else if !IsBlankOpt(r.serialOrLot) then [r.serialOrLot.value]
    else []
  }

  /** A stock or case detail line: name, identity, expiry date, quantity. */
  function StockLine(r: UsedMaterialRecord): string
  {
    var expiry := if r.expiryDate.Some? then [ExpiryPrefix + FormatDate(r.expiryDate.value)] else [];
    Join([r.name] + IdentityPart(r) + expiry + [CountPrefix + IntToString(r.quantity)], Bullet)
  }

  function DetailLine(kind: HistoryType, r: UsedMaterialRecord): string
  {
    if kind == Checklist then ChecklistLine(r) else StockLine(r)
  }

  /** HistoryDisplayItem: the entry with its detail lines and its author text. */
  datatype DisplayItem = DisplayItem(source: HistoryItem, details: seq<string>, createdByDisplay: string)

  /** BuildDisplayItem. */
  function BuildDisplayItem(h: HistoryItem): (r: DisplayItem)
    ensures r.source == h && |r.details| == |h.details|
  {
    DisplayItem(
      h,
      seq(|h.details|, i requires 0 <= i < |h.details| => DetailLine(h.kind, h.details[i])),
      if IsBlank(h.createdBy) then SystemText else ActorPrefix + h.createdBy)
  }

  /** Every detail line opens with the material's (or patient's) name. */
  lemma {:induction false} DetailLineStartsWithName(kind: HistoryType, r: UsedMaterialRecord)
    ensures r.name <= DetailLine(kind, r)
  {
    if kind == Checklist {
      var middle := if IsBlankOpt(r.serialOrLot) then [] else [r.serialOrLot.value];
      var parts := [r.name] + middle + [if r.quantity > 0 then DoneText else PendingText];
      assert parts[0] == r.name;
      JoinStartsWithFirst(parts, Bullet);
    } else {
      var expiry := if r.expiryDate.Some? then [ExpiryPrefix + FormatDate(r.expiryDate.value)] else [];
      var parts := [r.name] + IdentityPart(r) + expiry + [CountPrefix + IntToString(r.quantity)];
      assert parts[0] == r.name;
      JoinStartsWithFirst(parts, Bullet);
    }
  }

  /** The author line: "Sistem" exactly when the entry names nobody. */
  lemma {:induction false} AuthorText(h: HistoryItem)
    ensures BuildDisplayItem(h).createdByDisplay == SystemText <==> IsBlank(h.createdBy)
  {
    if !IsBlank(h.createdBy) {
      var t := ActorPrefix + h.createdBy;
      assert t[0] == 'İ' != SystemText[0];
    }
  }

  // ---------------------------------------------------------------------------
  // The text search and the visible list
  // ---------------------------------------------------------------------------

  /** SearchMatches: a blank search admits every entry; otherwise the summary
      or one of the detail lines must contain the text, ignoring case. */
  predicate SearchMatches(search: string, item: DisplayItem)
  {
    IsBlank(search)
    || ContainsIC(item.source.summary, search)
    || exists i :: 0 <= i < |item.details| && ContainsIC(item.details[i], search)
  }

  predicate Admits(f: HistoryFilter, search: string, item: DisplayItem)
  {
    FilterMatches(f, item.source.kind) && SearchMatches(search, item)
  }

  /** A piece of a text is found in it, whatever its case. */
  lemma {:induction false} ContainsPiece(s: string, i: int, j: int)
    requires 0 <= i <= j <= |s|
    ensures ContainsIC(s, s[i..j])
  {
    UpperStrSlice(s, i, j);
    ContainsAt(UpperStr(s), UpperStr(s[i..j]), i);
  }

  /** Searching for any piece of a material name finds every entry that has a
      detail line for that material. */
  lemma {:induction false} SearchFindsName(h: HistoryItem, k: int, i: int, j: int)
    requires 0 <= k < |h.details| && 0 <= i <= j <= |h.details[k].name|
    ensures SearchMatches(h.details[k].name[i..j], BuildDisplayItem(h))
  {
    var name := h.details[k].name;
    var line := BuildDisplayItem(h).details[k];
    DetailLineStartsWithName(h.kind, h.details[k]);
    assert line[i..j] == name[i..j];
    ContainsPiece(line, i, j);
  }

  /** Searching for any piece of the summary finds the entry. */
  lemma {:induction false} SearchFindsSummary(item: DisplayItem, i: int, j: int)
    requires 0 <= i <= j <= |item.source.summary|
    ensures SearchMatches(item.source.summary[i..j], item)
  {
    ContainsPiece(item.source.summary, i, j);
  }

  /** ApplyFilters: the entries both the kind filter and the search admit, in
      list order. */
  function Visible(items: seq<DisplayItem>, f: HistoryFilter, search: string): (r: seq<DisplayItem>)
    ensures |r| <= |items|
  {
    if items == [] then []
    else
      var last := items[|items| - 1];
      Visible(items[..|items| - 1], f, search) + (if Admits(f, search, last) then [last] else [])
  }

  /** An entry is shown exactly when it is listed and admitted. */
  lemma {:induction false} VisibleMembers(items: seq<DisplayItem>, f: HistoryFilter, search: string)
    ensures forall x :: x in Visible(items, f, search) <==> x in items && Admits(f, search, x)
  {
    if items != [] {
      var init, last := items[..|items| - 1], items[|items| - 1];
      VisibleMembers(init, f, search);
      assert items == init + [last];
    }
  }

  /** With no filter and a blank search the whole list is shown. */
  lemma {:induction false} VisibleAll(items: seq<DisplayItem>, search: string)
    requires IsBlank(search)
    ensures Visible(items, AllEntries, search) == items
  {
    if items != [] {
      VisibleAll(items[..|items| - 1], search);
      assert items == items[..|items| - 1] + [items[|items| - 1]];
    }
  }

  // ---------------------------------------------------------------------------
  // Resolving a detail line to a stored material
  // ---------------------------------------------------------------------------

  /** FirstOrDefault over a listing. */
  function FirstWhere(ms: seq<Material>, p: Material -> bool): (r: Option<Material>)
  {
    if ms == [] then None
    else if p(ms[0]) then Some(ms[0])
    else FirstWhere(ms[1..], p)
  }

  /** FirstWhere finds the first element the test accepts, and nothing when
      the test accepts none. */
  lemma {:induction false} FirstWhereSpec(ms: seq<Material>, p: Material -> bool)
    ensures FirstWhere(ms, p).None? <==> forall i :: 0 <= i < |ms| ==> !p(ms[i])
    ensures FirstWhere(ms, p).Some? ==>
              exists i :: 0 <= i < |ms| && ms[i] == FirstWhere(ms, p).value && p(ms[i])
                          && forall j :: 0 <= j < i ==> !p(ms[j])
  {
    if ms != [] && !p(ms[0]) {
      FirstWhereSpec(ms[1..], p);
      if FirstWhere(ms, p).Some? {
        var i :| 0 <= i < |ms[1..]| && ms[1..][i] == FirstWhere(ms, p).value && p(ms[1..][i])
                 && forall j :: 0 <= j < i ==> !p(ms[1..][j]);
        assert ms[i + 1] == ms[1..][i];
        assert forall j :: 1 <= j < i + 1 ==> ms[j] == ms[1..][j - 1];
      } else {
        assert forall i :: 1 <= i < |ms| ==> ms[i] == ms[1..][i - 1];
      }
    }
  }

  predicate SerialIs(m: Material, serial: string)
  {
    EqICOpt(m.serial, Some(serial))
  }

  predicate LotIs(m: Material, lot: string)
  {
    EqICOpt(m.lot, Some(lot))
  }

  /** FindMaterialBySerialAsync: the first material, in name order, whose
      serial equals the text ignoring case. */
  function BySerial(ms: map<Id, Material>, serial: string): Option<Material>
  {
    FirstWhere(MaterialsByName(ms), m => SerialIs(m, serial))
  }

  /** FindMaterialByLotAsync. */
  function ByLot(ms: map<Id, Material>, lot: string): Option<Material>
  {
    FirstWhere(MaterialsByName(ms), m => LotIs(m, lot))
  }

  predicate HasId(ms: map<Id, Material>, d: UsedMaterialRecord)
  {
    d.materialId.Some? && d.materialId.value in ms
  }

  /** The serial step of the chain: a blank serial is not searched for. */
  function SerialStep(ms: map<Id, Material>, d: UsedMaterialRecord): Option<Material>
  {
    if IsBlankOpt(d.serial) then None else BySerial(ms, d.serial.value)
  }

  /** The lot step of the chain: a blank lot is not searched for. */
  function LotStep(ms: map<Id, Material>, d: UsedMaterialRecord): Option<Material>
  {
    if IsBlankOpt(d.lot) then None else ByLot(ms, d.lot.value)
  }

  /** The lookup chain of the undo branches: by identifier, then by a
      non-blank serial, then by a non-blank lot. */
  function Resolve(ms: map<Id, Material>, d: UsedMaterialRecord): Option<Material>
  {
    if HasId(ms, d) then Some(ms[d.materialId.value])
    else if SerialStep(ms, d).Some? then SerialStep(ms, d)
    else LotStep(ms, d)
  }

  /** Searching a listing of the table: what is found is a stored material
      the test accepts, and nothing is found exactly when the test accepts no
      stored material. */
  lemma {:induction false} FirstWhereListing(list: seq<Material>, ms: map<Id, Material>, p: Material -> bool)
    requires forall k :: k in ms ==> ms[k] in list
    requires forall i :: 0 <= i < |list| ==> list[i] in ms.Values
    ensures FirstWhere(list, p).Some? ==> FirstWhere(list, p).value in ms.Values && p(FirstWhere(list, p).value)
    ensures FirstWhere(list, p).None? <==> forall k :: k in ms ==> !p(ms[k])
  {
    FirstWhereSpec(list, p);
    if FirstWhere(list, p).None? {
      forall k | k in ms ensures !p(ms[k]) {
        var i :| 0 <= i < |list| && list[i] == ms[k];
      }
    } else {
      var i :| 0 <= i < |list| && list[i] == FirstWhere(list, p).value && p(list[i]);
      assert list[i] in ms.Values;
    }
  }

  predicate NoSerialMatch(ms: map<Id, Material>, d: UsedMaterialRecord)
  {
    IsBlankOpt(d.serial) || forall k :: k in ms ==> !SerialIs(ms[k], d.serial.value)
  }

  predicate NoLotMatch(ms: map<Id, Material>, d: UsedMaterialRecord)
  {
    IsBlankOpt(d.lot) || forall k :: k in ms ==> !LotIs(ms[k], d.lot.value)
  }

  lemma {:induction false} SerialStepMeaning(ms: map<Id, Material>, d: UsedMaterialRecord)
    ensures SerialStep(ms, d).Some? ==> SerialStep(ms, d).value in ms.Values && SerialIs(SerialStep(ms, d).value, d.serial.value)
    ensures SerialStep(ms, d).None? <==> NoSerialMatch(ms, d)
  {
    if !IsBlankOpt(d.serial) {
      MaterialsByNameSpec(ms);
      FirstWhereListing(MaterialsByName(ms), ms, m => SerialIs(m, d.serial.value));
    }
  }

  lemma {:induction false} LotStepMeaning(ms: map<Id, Material>, d: UsedMaterialRecord)
    ensures LotStep(ms, d).Some? ==> LotStep(ms, d).value in ms.Values && LotIs(LotStep(ms, d).value, d.lot.value)
    ensures LotStep(ms, d).None? <==> NoLotMatch(ms, d)
  {
    if !IsBlankOpt(d.lot) {
      MaterialsByNameSpec(ms);
      FirstWhereListing(MaterialsByName(ms), ms, m => LotIs(m, d.lot.value));
    }
  }

  /** What resolution finds is a stored material, and it finds nothing exactly
      when the identifier is not stored and no stored material has the line's
      (non-blank) serial or lot. */
  lemma {:induction false} ResolveMeaning(ms: map<Id, Material>, d: UsedMaterialRecord)
    ensures Resolve(ms, d).Some? ==> Resolve(ms, d).value in ms.Values
    ensures Resolve(ms, d).None? <==> !HasId(ms, d) && NoSerialMatch(ms, d) && NoLotMatch(ms, d)
  {
    SerialStepMeaning(ms, d);
    LotStepMeaning(ms, d);
  }

  /** The identifier wins; failing it, a serial match wins over a lot match,
      and a lot match is used only when no material has the serial. */
  lemma {:induction false} ResolvePriority(ms: map<Id, Material>, d: UsedMaterialRecord)
    ensures HasId(ms, d) ==> Resolve(ms, d) == Some(ms[d.materialId.value])
    ensures !HasId(ms, d) && !NoSerialMatch(ms, d) ==>
              Resolve(ms, d).Some? && SerialIs(Resolve(ms, d).value, d.serial.value)
    ensures !HasId(ms, d) && NoSerialMatch(ms, d) && !NoLotMatch(ms, d) ==>
              Resolve(ms, d).Some? && LotIs(Resolve(ms, d).value, d.lot.value)
  {
    SerialStepMeaning(ms, d);
    LotStepMeaning(ms, d);
  }

  // ---------------------------------------------------------------------------
  // The inverse of one detail line
  // ---------------------------------------------------------------------------

  /** How a kind reverses a line: a Case restores the consumed quantity, a
      StockIn takes the received quantity back, a StockOut puts the issued
      quantity back, a Delete recreates the deleted material. */
  datatype LineRule = Restore | TakeBack | PutBack | Recreate

  function RuleFor(kind: HistoryType): Option<LineRule>
  {
    match kind
    case Case => Some(Restore)
    case StockIn => Some(TakeBack)
    case StockOut => Some(PutBack)
    case Delete => Some(Recreate)
    case Checklist => None
  }

  /** The stock branch's `if (material.Quantity < 0) material.Quantity = 0`. */
  function Floor(q: int): nat
  {
    if q < 0 then 0 else q
  }

  /** The new quantity of a material a line resolves to (or of the new
      material, starting from 0). */
  function Adjusted(q: int, delta: int, rule: LineRule): int
  {
    match rule
    case Restore => q + delta
    case TakeBack => Floor(q - delta)
    case PutBack => Floor(q + delta)
    case Recreate => delta
  }

  /** The material undo creates from a line's snapshot. */
  function Fabricated(d: UsedMaterialRecord, owner: string, id: Id, q: int, now: Time): Material
  {
    Material(id, d.name, None, d.serial, d.lot, d.expiryDate, q, None, now, now, owner)
  }

  /** The new identifier a fabricated material takes. */
  function Advanced(s: Stock): Stock
  {
    Stock(s.materials, s.nextId + 1)
  }

  /** One pass of an undo loop. A StockIn line that resolves to no material is
      skipped; a Case or StockOut line that resolves to none creates one from
      the snapshot; a Delete line always creates one. */
  function UndoLine(s: Stock, d: UsedMaterialRecord, rule: LineRule, owner: string, now: Time): Stock
  {
    if rule == Recreate then
      SaveIn(Advanced(s), Fabricated(d, owner, s.nextId, d.quantity, now), now)
    else
      match Resolve(s.materials, d)
      case Some(m) => SaveIn(s, m.(quantity := Adjusted(m.quantity, d.quantity, rule)), now)
      case None =>
        if rule == TakeBack then s
        else SaveIn(Advanced(s), Fabricated(d, owner, s.nextId, Adjusted(0, d.quantity, rule), now), now)
  }

  /** The undo loop: the lines in order. */
  function UndoLines(s: Stock, ds: seq<UsedMaterialRecord>, rule: LineRule, owner: string, now: Time): Stock
  {
    if ds == [] then s
    else UndoLine(UndoLines(s, ds[..|ds| - 1], rule, owner, now), ds[|ds| - 1], rule, owner, now)
  }

  /** One more detail line undone extends the fold by one step. */
  lemma {:induction false} UndoLinesSnoc(s: Stock, ds: seq<UsedMaterialRecord>, i: nat, rule: LineRule, owner: string, now: Time)
    requires i < |ds|
    ensures UndoLines(s, ds[..i + 1], rule, owner, now) == UndoLine(UndoLines(s, ds[..i], rule, owner, now), ds[i], rule, owner, now)
  {
    assert ds[..i + 1][..i] == ds[..i];
  }

  // ---------------------------------------------------------------------------
  // Total stock
  // ---------------------------------------------------------------------------

  ghost function PickKey(ms: map<Id, Material>): (k: Id)
    requires ms != map[]
    ensures k in ms
  {
    var k :| k in ms; k
  }

  /** The total quantity on hand. */
  ghost function Total(ms: map<Id, Material>): int
    decreases |ms|
  {
    if ms == map[] then 0
    else
      var k := PickKey(ms);
      DeleteCount(ms, k);
      ms[k].quantity + Total(ms - {k})
  }

  lemma {:induction false} TotalRemove(ms: map<Id, Material>, k: Id)
    requires k in ms
    ensures Total(ms) == ms[k].quantity + Total(ms - {k})
    decreases |ms|
  {
    var j := PickKey(ms);
    if j != k {
      DeleteCount(ms, j);
      DeleteCount(ms, k);
      TotalRemove(ms - {j}, k);
      TotalRemove(ms - {k}, j);
      assert ms - {j} - {k} == ms - {k} - {j};
    }
  }

  /** Replacing or adding one row changes the total by the row's difference. */
  lemma {:induction false} TotalUpdate(ms: map<Id, Material>, k: Id, m: Material)
    ensures Total(ms[k := m]) == Total(ms) - (if k in ms then ms[k].quantity else 0) + m.quantity
  {
    TotalRemove(ms[k := m], k);
    assert ms[k := m] - {k} == ms - {k};
    if k in ms {
      TotalRemove(ms, k);
    } else {
      assert ms - {k} == ms;
    }
  }

  predicate NonNegative(ms: map<Id, Material>)
  {
    forall k :: k in ms ==> ms[k].quantity >= 0
  }

  /** The sum of the lines' quantities. */
  function LinesTotal(ds: seq<UsedMaterialRecord>): int
  {
    if ds == [] then 0 else LinesTotal(ds[..|ds| - 1]) + ds[|ds| - 1].quantity
  }

  predicate LinesNonNegative(ds: seq<UsedMaterialRecord>)
  {
    forall i :: 0 <= i < |ds| ==> ds[i].quantity >= 0
  }

  // ---------------------------------------------------------------------------
  // What one line does
  // ---------------------------------------------------------------------------

  /** The material a line changes: the one it resolves to, or the new one;
      none for a StockIn line that resolves to nothing. */
  function Target(s: Stock, d: UsedMaterialRecord, rule: LineRule): Option<Id>
  {
    if rule == Recreate then Some(s.nextId)
    else
      match Resolve(s.materials, d)
      case Some(m) => Some(m.id)
      case None => if rule == TakeBack then None else Some(s.nextId)
  }

  /** The quantity stored under a key before the line, 0 for a new key. */
  function Prior(s: Stock, t: Id): int
  {
    if t in s.materials then s.materials[t].quantity else 0
  }

  /** A material resolution finds is stored under its own identifier. */
  lemma {:induction false} ResolvedKey(s: Stock, d: UsedMaterialRecord)
    requires Keyed(s) && Resolve(s.materials, d).Some?
    ensures Resolve(s.materials, d).value.id in s.materials
    ensures s.materials[Resolve(s.materials, d).value.id] == Resolve(s.materials, d).value
  {
    ResolveMeaning(s.materials, d);
    var k :| k in s.materials && s.materials[k] == Resolve(s.materials, d).value;
  }

  /** One line changes only its target: the target's quantity becomes the
      rule's adjustment of what was there, a new target carries the line's
      snapshot and the entry's author as owner, and every other material is as
      it was. Nothing is removed. */
  lemma {:induction false} LineEffect(s: Stock, d: UsedMaterialRecord, rule: LineRule, owner: string, now: Time)
    requires Keyed(s)
    ensures var a := UndoLine(s, d, rule, owner, now);
            && Keyed(a)
            && (Target(s, d, rule).None? ==> a == s)
            && (Target(s, d, rule).Some? ==>
                  var t := Target(s, d, rule).value;
                  && a.materials.Keys == s.materials.Keys + {t}
                  && (forall k :: k in s.materials && k != t ==> a.materials[k] == s.materials[k])
                  && a.materials[t].quantity == Adjusted(Prior(s, t), d.quantity, rule)
                  && (t !in s.materials ==>
                        a.materials[t] == Fabricated(d, owner, t, a.materials[t].quantity, now)))
  {
    if rule != Recreate && Resolve(s.materials, d).Some? {
      ResolvedKey(s, d);
    }
  }

  /** Undoing one line moves the total by the target's change. Case and Delete
      lines add exactly their quantity; a StockOut line adds at least its
      quantity, exactly when nothing is negative; a StockIn line takes at most
      its quantity away, and with nothing negative it never adds. The two
      stock kinds never leave a negative quantity behind. */
  lemma {:induction false} LineTotal(s: Stock, d: UsedMaterialRecord, rule: LineRule, owner: string, now: Time)
    requires Keyed(s)
    ensures var delta := Total(UndoLine(s, d, rule, owner, now).materials) - Total(s.materials);
            && (rule == Restore || rule == Recreate ==> delta == d.quantity)
            && (rule == PutBack ==> delta >= d.quantity)
            && (rule == PutBack && NonNegative(s.materials) && d.quantity >= 0 ==> delta == d.quantity)
            && (rule == TakeBack && d.quantity >= 0 ==> delta >= -d.quantity)
            && (rule == TakeBack && NonNegative(s.materials) && d.quantity >= 0 ==> delta <= 0)
  {
    LineEffect(s, d, rule, owner, now);
    var a := UndoLine(s, d, rule, owner, now);
    if Target(s, d, rule).Some? {
      var t := Target(s, d, rule).value;
      assert a.materials == s.materials[t := a.materials[t]];
      TotalUpdate(s.materials, t, a.materials[t]);
    }
  }

  /** The stock kinds' floor keeps quantities non-negative; Case and Delete
      lines do when their quantities are. */
  lemma {:induction false} LineNonNegative(s: Stock, d: UsedMaterialRecord, rule: LineRule, owner: string, now: Time)
    requires Keyed(s) && NonNegative(s.materials)
    requires rule == Restore || rule == Recreate ==> d.quantity >= 0
    ensures NonNegative(UndoLine(s, d, rule, owner, now).materials)
  {
    LineEffect(s, d, rule, owner, now);
  }

  /** The asymmetry between the stock kinds: a StockIn line that resolves to
      nothing is skipped, while a Case or StockOut line creates a material. */
  lemma {:induction false} UnresolvedLine(s: Stock, d: UsedMaterialRecord, owner: string, now: Time)
    requires Keyed(s) && Resolve(s.materials, d).None?
    ensures UndoLine(s, d, TakeBack, owner, now) == s
    ensures |UndoLine(s, d, Restore, owner, now).materials| == |s.materials| + 1
    ensures |UndoLine(s, d, PutBack, owner, now).materials| == |s.materials| + 1
    ensures UndoLine(s, d, Restore, owner, now).materials[s.nextId].quantity == d.quantity
    ensures UndoLine(s, d, PutBack, owner, now).materials[s.nextId].quantity == Floor(d.quantity)
  {
    LineEffect(s, d, Restore, owner, now);
    LineEffect(s, d, PutBack, owner, now);
    UpsertCount(s.materials, s.nextId, UndoLine(s, d, Restore, owner, now).materials[s.nextId]);
    UpsertCount(s.materials, s.nextId, UndoLine(s, d, PutBack, owner, now).materials[s.nextId]);
    assert UndoLine(s, d, Restore, owner, now).materials == s.materials[s.nextId := UndoLine(s, d, Restore, owner, now).materials[s.nextId]];
    assert UndoLine(s, d, PutBack, owner, now).materials == s.materials[s.nextId := UndoLine(s, d, PutBack, owner, now).materials[s.nextId]];
  }

  // ---------------------------------------------------------------------------
  // What the loop over the lines does
  // ---------------------------------------------------------------------------

  /** Undo keeps the table keyed, never removes a material, and the stock
      kinds never leave a negative quantity. */
  lemma {:induction false} LinesKeyed(s: Stock, ds: seq<UsedMaterialRecord>, rule: LineRule, owner: string, now: Time)
    requires Keyed(s)
    ensures Keyed(UndoLines(s, ds, rule, owner, now))
    ensures s.materials.Keys <= UndoLines(s, ds, rule, owner, now).materials.Keys
    ensures NonNegative(s.materials) && (rule == TakeBack || rule == PutBack || LinesNonNegative(ds)) ==>
              NonNegative(UndoLines(s, ds, rule, owner, now).materials)
  {
    if ds != [] {
      var init := ds[..|ds| - 1];
      LinesKeyed(s, init, rule, owner, now);
      var mid := UndoLines(s, init, rule, owner, now);
      LineEffect(mid, ds[|ds| - 1], rule, owner, now);
      if NonNegative(s.materials) && (rule == TakeBack || rule == PutBack || LinesNonNegative(ds)) {
        assert rule == Restore || rule == Recreate ==> ds[|ds| - 1].quantity >= 0;
        assert rule == Restore || rule == Recreate ==> LinesNonNegative(init) by {
          forall i | 0 <= i < |init| ensures init[i] == ds[i] { }
        }
        LineNonNegative(mid, ds[|ds| - 1], rule, owner, now);
      }
    }
  }

  /** Undoing a Case or a Delete entry adds exactly the entry's quantities to
      the total on hand. */
  lemma {:induction false} RestoredTotal(s: Stock, ds: seq<UsedMaterialRecord>, rule: LineRule, owner: string, now: Time)
    requires Keyed(s) && (rule == Restore || rule == Recreate)
    ensures Total(UndoLines(s, ds, rule, owner, now).materials) == Total(s.materials) + LinesTotal(ds)
  {
    if ds != [] {
      var init := ds[..|ds| - 1];
      RestoredTotal(s, init, rule, owner, now);
      LinesKeyed(s, init, rule, owner, now);
      LineTotal(UndoLines(s, init, rule, owner, now), ds[|ds| - 1], rule, owner, now);
    }
  }

  /** Undoing a StockOut entry adds at least its quantities to the total on
      hand. */
  lemma {:induction false} ClampedTotal(s: Stock, ds: seq<UsedMaterialRecord>, rule: LineRule, owner: string, now: Time)
    requires Keyed(s) && rule == PutBack
    ensures Total(UndoLines(s, ds, rule, owner, now).materials) >= Total(s.materials) + LinesTotal(ds)
  {
    if ds != [] {
      var init := ds[..|ds| - 1];
      ClampedTotal(s, init, rule, owner, now);
      LinesKeyed(s, init, rule, owner, now);
      LineTotal(UndoLines(s, init, rule, owner, now), ds[|ds| - 1], rule, owner, now);
    }
  }

  /** With no negative quantity anywhere, undoing a StockOut entry adds exactly
      its quantities, and undoing a StockIn entry takes away at most its
      quantities and never raises the total. */
  lemma {:induction false} ClampedTotalExact(s: Stock, ds: seq<UsedMaterialRecord>, rule: LineRule, owner: string, now: Time)
    requires Keyed(s) && NonNegative(s.materials) && LinesNonNegative(ds)
    ensures rule == PutBack ==> Total(UndoLines(s, ds, rule, owner, now).materials) == Total(s.materials) + LinesTotal(ds)
    ensures rule == TakeBack ==> Total(s.materials) - LinesTotal(ds) <= Total(UndoLines(s, ds, rule, owner, now).materials) <= Total(s.materials)
  {
    if ds != [] {
      var init := ds[..|ds| - 1];
      assert LinesNonNegative(init) by {
        forall i | 0 <= i < |init| ensures init[i] == ds[i] { }
      }
      ClampedTotalExact(s, init, rule, owner, now);
      LinesKeyed(s, init, rule, owner, now);
      LineTotal(UndoLines(s, init, rule, owner, now), ds[|ds| - 1], rule, owner, now);
    }
  }

  /** Undoing a Delete entry creates one new material per line and leaves every
      stored material as it was. */
  lemma {:induction false} RecreatedCount(s: Stock, ds: seq<UsedMaterialRecord>, owner: string, now: Time)
    requires Keyed(s)
    ensures var a := UndoLines(s, ds, Recreate, owner, now);
            && |a.materials| == |s.materials| + |ds|
            && (forall k :: k in s.materials ==> k in a.materials && a.materials[k] == s.materials[k])
  {
    if ds != [] {
      var init := ds[..|ds| - 1];
      RecreatedCount(s, init, owner, now);
      LinesKeyed(s, init, Recreate, owner, now);
      var mid := UndoLines(s, init, Recreate, owner, now);
      LineEffect(mid, ds[|ds| - 1], Recreate, owner, now);
      var a := UndoLine(mid, ds[|ds| - 1], Recreate, owner, now);
      assert a.materials == mid.materials[mid.nextId := a.materials[mid.nextId]];
      UpsertCount(mid.materials, mid.nextId, a.materials[mid.nextId]);
    }
  }

  // ---------------------------------------------------------------------------
  // The page
  // ---------------------------------------------------------------------------

  /** The display items of a listing, in its order. */
  function DisplayItems(hs: seq<HistoryItem>): (r: seq<DisplayItem>)
    ensures |r| == |hs| && forall i :: 0 <= i < |hs| ==> r[i] == BuildDisplayItem(hs[i])
  {
    seq(|hs|, i requires 0 <= i < |hs| => BuildDisplayItem(hs[i]))
  }

  /** The loop of LoadHistoryAsync that wraps each entry for display. */
  method BuildDisplayItems(items: seq<HistoryItem>) returns (r: seq<DisplayItem>)
    ensures r == DisplayItems(items)
  {
    r := [];
    var i := 0;
    while i < |items|
      invariant 0 <= i <= |items|
      invariant |r| == i && forall j :: 0 <= j < i ==> r[j] == BuildDisplayItem(items[j])
    {
      r := r + [BuildDisplayItem(items[i])];
      i := i + 1;
    }
  }

  class HistoryPage {
    /** `_allItems`: every loaded entry, newest first. */
    var allItems: seq<DisplayItem>
    /** `_historyItems`: the entries on screen. */
    var shown: seq<DisplayItem>
    var activeFilter: HistoryFilter
    var searchText: string

    constructor ()
      ensures allItems == [] && shown == [] && activeFilter == AllEntries && searchText == []
    {
      allItems, shown, activeFilter, searchText := [], [], AllEntries, [];
    }

    /** ApplyFilters: the screen shows the admitted entries. */
    method ApplyFilters()
      modifies this`shown
      ensures shown == Visible(allItems, activeFilter, searchText)
    {
      shown := Visible(allItems, activeFilter, searchText);
    }

    /** LoadHistoryAsync: every stored entry, newest first, then the filters. */
    method LoadHistory(store: Store)
      modifies this`allItems, this`shown
      ensures allItems == DisplayItems(HistoryNewestFirst(store.history))
      ensures shown == Visible(allItems, activeFilter, searchText)
    {
      allItems := BuildDisplayItems(HistoryNewestFirst(store.history));
      ApplyFilters();
    }

    /** OnSearchTextChanged: a missing text counts as empty. */
    method SearchTextChanged(text: Option<string>)
      modifies this`searchText, this`shown
      ensures searchText == text.GetOr([])
      ensures shown == Visible(allItems, activeFilter, searchText)
    {
      searchText := text.GetOr([]);
      ApplyFilters();
    }

    /** OnFilterClicked: a click without a text parameter does nothing. */
    method FilterClicked(parameter: Option<string>)
      modifies this`activeFilter, this`shown
      ensures parameter.None? ==> activeFilter == old(activeFilter) && shown == old(shown)
      ensures parameter.Some? ==> activeFilter == FilterFor(parameter.value)
                                  && shown == Visible(allItems, activeFilter, searchText)
    {
      if parameter.None? {
        return;
      }
      activeFilter := FilterFor(parameter.value);
      ApplyFilters();
    }

    /** The lookup chain of one detail line. */
    method ResolveLine(store: Store, d: UsedMaterialRecord) returns (m: Option<Material>)
      ensures m == Resolve(store.materials, d)
    {
      m := None;
      if d.materialId.Some? {
        m := store.GetMaterial(d.materialId.value);
      }
      if m.None? && !IsBlankOpt(d.serial) {
        m := BySerial(store.materials, d.serial.value);
      }
      if m.None? && !IsBlankOpt(d.lot) {
        m := ByLot(store.materials, d.lot.value);
      }
    }

    /** One pass of an undo loop. */
    method UndoLineIn(store: Store, d: UsedMaterialRecord, rule: LineRule, owner: string, now: Time)
      requires store.Valid()
      modifies store`materials, store`nextId
      ensures store.Valid()
      ensures Stock(store.materials, store.nextId) == UndoLine(old(Stock(store.materials, store.nextId)), d, rule, owner, now)
    {
      var found: Option<Material> := None;
      if rule != Recreate {
        found := ResolveLine(store, d);
      }
      if found.Some? {
        var m := found.value;
        var _ := store.SaveMaterial(m.(quantity := Adjusted(m.quantity, d.quantity, rule)), now);
      } else if rule != TakeBack {
        var id := store.NewId();
        var q := if rule == Recreate then d.quantity else Adjusted(0, d.quantity, rule);
        var _ := store.SaveMaterial(Fabricated(d, owner, id, q, now), now);
      }
    }

    /** The loop over an entry's detail lines. */
    method UndoLinesIn(store: Store, ds: seq<UsedMaterialRecord>, rule: LineRule, owner: string, now: Time)
      requires store.Valid()
      modifies store`materials, store`nextId
      ensures store.Valid()
      ensures Stock(store.materials, store.nextId) == UndoLines(old(Stock(store.materials, store.nextId)), ds, rule, owner, now)
    {
      ghost var start := Stock(store.materials, store.nextId);
      var i := 0;
      while i < |ds|
        invariant 0 <= i <= |ds|
        invariant store.Valid()
        invariant Stock(store.materials, store.nextId) == UndoLines(start, ds[..i], rule, owner, now)
      {
        UndoLinesSnoc(start, ds, i, rule, owner, now);
        UndoLineIn(store, ds[i], rule, owner, now);
        i := i + 1;
      }
      assert ds[..i] == ds;
    }

    /** The common tail of every undo branch: the entry is deleted from the
        store and from both lists, and the filters are applied again. */
    method RemoveEntry(store: Store, item: DisplayItem)
      requires store.Valid()
      modifies store`history, this`allItems, this`shown
      ensures store.Valid()
      ensures store.history == old(store.history) - {item.source.id}
      ensures allItems == RemoveFirst(old(allItems), item)
      ensures shown == Visible(allItems, activeFilter, searchText)
    {
      store.DeleteHistory(item.source);
      allItems := RemoveFirst(allItems, item);
      shown := RemoveFirst(shown, item);
      ApplyFilters();
    }

    /** UndoCaseAsync, first step: the case record the entry refers to is
        deleted when it still exists; a missing one is passed over. */
    method DeleteReferencedCase(store: Store, reference: Option<Id>)
      requires store.Valid()
      modifies store`cases
      ensures store.Valid()
      ensures store.cases == if reference.Some? then old(store.cases) - {reference.value} else old(store.cases)
    {
      if reference.Some? {
        var record := store.GetCase(reference.value);
        if record.Some? {
          store.DeleteCase(record.value);
        } else {
          assert store.cases - {reference.value} == store.cases;
        }
      }
    }

    /** OnUndoHistory. `confirmed` is the user's answer to the confirmation
        prompt. An entry that is not reversible, or an undo not confirmed,
        changes nothing. Otherwise the entry's kind picks the branch: a Case
        entry first deletes its case record; a Case, StockIn, StockOut or
        Delete entry reverses its lines on stock with the entry's author as
        owner of any material it creates; a Checklist entry changes no
        material. Every branch ends by removing the entry. */
    method Undo(store: Store, item: DisplayItem, confirmed: bool, now: Time) returns (undone: bool)
      requires store.Valid()
      modifies store`materials, store`nextId, store`cases, store`history, this`allItems, this`shown
      ensures store.Valid()
      ensures undone <==> item.source.reversible && confirmed
      ensures !undone ==> store.materials == old(store.materials) && store.nextId == old(store.nextId)
                          && store.cases == old(store.cases) && store.history == old(store.history)
                          && allItems == old(allItems) && shown == old(shown)
      ensures undone ==>
                store.history == old(store.history) - {item.source.id}
                && allItems == RemoveFirst(old(allItems), item)
                && shown == Visible(allItems, activeFilter, searchText)
      ensures undone ==>
                Stock(store.materials, store.nextId) ==
                  match RuleFor(item.source.kind)
                  case Some(rule) =>
                    UndoLines(old(Stock(store.materials, store.nextId)), item.source.details, rule, item.source.createdBy, now)
                  case None => old(Stock(store.materials, store.nextId))
      ensures undone ==>
                store.cases == if item.source.kind == Case && item.source.referenceId.Some?
                               then old(store.cases) - {item.source.referenceId.value}
                               else old(store.cases)
    {
      if !item.source.reversible || !confirmed {
        return false;
      }
      if item.source.kind == Case {
        DeleteReferencedCase(store, item.source.referenceId);
      }
      var rule := RuleFor(item.source.kind);
      if rule.Some? {
        UndoLinesIn(store, item.source.details, rule.value, item.source.createdBy, now);
      }
      RemoveEntry(store, item);
      undone := true;
    }
  }
}
