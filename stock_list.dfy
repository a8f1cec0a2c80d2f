/**
 * The stock page: the list of every material on hand, narrowed by a search
 * text and at most one keyword filter, sorted by expiry date, quantity and
 * name, grouped under the first letter of the name, with the total quantity
 * of what is shown. From here materials are imported from a workbook
 * (skipping those already in stock), edited and deleted.
 */
module StockList {
  import opened Wrappers
  import opened Text
  import opened Models
  import opened Database
  import opened Groups
  import opened Collections

  // ---------------------------------------------------------------------------
  // The duplicate rule
  // ---------------------------------------------------------------------------

  /** Name, serial and lot agree ignoring case, a missing serial or lot
      counting as the empty text. */
  predicate SameMaterial(a: Material, b: Material)
  {
    EqIC(a.name, b.name) && EqIC(a.serial.GetOr([]), b.serial.GetOr([])) && EqIC(a.lot.GetOr([]), b.lot.GetOr([]))
  }

  /** IsDuplicate: some listed material is the same as `m`. */
  function IsDuplicate(all: seq<Material>, m: Material): bool
  {
    if all == [] then false
    else IsDuplicate(all[..|all| - 1], m) || SameMaterial(all[|all| - 1], m)
  }

  /** The search agrees with its reference definition. */
  lemma {:induction false} IsDuplicateMeaning(all: seq<Material>, m: Material)
    ensures IsDuplicate(all, m) <==> exists i :: 0 <= i < |all| && SameMaterial(all[i], m)
  {
    if all != [] {
      var n := |all| - 1;
      IsDuplicateMeaning(all[..n], m);
      if IsDuplicate(all[..n], m) {
        var i :| 0 <= i < n && SameMaterial(all[..n][i], m);
        assert all[i] == all[..n][i];
      }
      if exists i :: 0 <= i < |all| && SameMaterial(all[i], m) {
        var i :| 0 <= i < |all| && SameMaterial(all[i], m);
        if i < n {
          assert all[..n][i] == all[i];
        }
      }
    }
  }

  /** Materials that agree on name, serial and lot are the same for the rule. */
  lemma {:induction false} SameMaterialFields(a: Material, b: Material, c: Material)
    requires a.name == b.name && a.serial == b.serial && a.lot == b.lot
    ensures SameMaterial(a, c) <==> SameMaterial(b, c)
    ensures SameMaterial(c, a) <==> SameMaterial(c, b)
    ensures SameMaterial(a, b)
  {
  }

  /** No two listed materials are the same for the rule. */
  predicate NoSameMaterials(s: seq<Material>)
  {
    forall i, j :: 0 <= i < j < |s| ==> !SameMaterial(s[i], s[j])
  }

  // ---------------------------------------------------------------------------
  // The import loop
  // ---------------------------------------------------------------------------

  /** What the import loop works on: the page's list, the store's materials
      table and the names reported as duplicates. */
  datatype ImportState = ImportState(all: seq<Material>, stored: map<Id, Material>, duplicates: seq<string>)

  /** A blank owner becomes the signed-in user, or "Depo" when nobody is. */
  function WithOwner(m: Material, currentUser: Option<string>): Material
  {
    if IsBlank(m.ownerUser) then m.(ownerUser := currentUser.GetOr(Depot)) else m
  }

  /** One imported material: reported when it duplicates a listed one,
      otherwise saved and listed. */
  function ImportStep(st: ImportState, m: Material, currentUser: Option<string>, now: Time): ImportState
  {
    var owned := WithOwner(m, currentUser);
    if IsDuplicate(st.all, owned) then st.(duplicates := st.duplicates + [owned.name])
    else
      var stored := Stamped(st.stored, owned, now);
      ImportState(st.all + [stored], st.stored[owned.id := stored], st.duplicates)
  }

  function ImportBatch(st: ImportState, imported: seq<Material>, currentUser: Option<string>, now: Time): ImportState
  {
    if imported == [] then st
    else
      var n := |imported| - 1;
      ImportStep(ImportBatch(st, imported[..n], currentUser, now), imported[n], currentUser, now)
  }

  /** Every imported material is either listed or reported, never both, and
      what was there before stays in front. */
  lemma {:induction false} ImportBatchCounts(st: ImportState, imported: seq<Material>, currentUser: Option<string>, now: Time)
    ensures st.all <= ImportBatch(st, imported, currentUser, now).all
    ensures st.duplicates <= ImportBatch(st, imported, currentUser, now).duplicates
    ensures |ImportBatch(st, imported, currentUser, now).all| + |ImportBatch(st, imported, currentUser, now).duplicates|
            == |st.all| + |st.duplicates| + |imported|
  {
    if imported != [] {
      ImportBatchCounts(st, imported[..|imported| - 1], currentUser, now);
    }
  }

  /** Importing never lists a material twice: a list without repeats stays so,
      whatever the batch holds. */
  lemma {:induction false} ImportBatchDistinct(st: ImportState, imported: seq<Material>, currentUser: Option<string>, now: Time)
    requires NoSameMaterials(st.all)
    ensures NoSameMaterials(ImportBatch(st, imported, currentUser, now).all)
  {
    if imported != [] {
      var n := |imported| - 1;
      var mid := ImportBatch(st, imported[..n], currentUser, now);
      ImportBatchDistinct(st, imported[..n], currentUser, now);
      var owned := WithOwner(imported[n], currentUser);
      if !IsDuplicate(mid.all, owned) {
        var stored := Stamped(mid.stored, owned, now);
        var all := mid.all + [stored];
        IsDuplicateMeaning(mid.all, owned);
        forall i, j | 0 <= i < j < |all| ensures !SameMaterial(all[i], all[j]) {
          if j == |mid.all| {
            SameMaterialFields(stored, owned, all[i]);
            assert all[i] == mid.all[i];
          } else {
            assert all[i] == mid.all[i] && all[j] == mid.all[j];
          }
        }
      }
    }
  }

  /** A row repeated within one batch is stored once and reported once. */
  lemma {:induction false} ImportRepeatedRow(st: ImportState, m: Material, currentUser: Option<string>, now: Time)
    requires !IsDuplicate(st.all, WithOwner(m, currentUser))
    ensures ImportBatch(st, [m, m], currentUser, now)
            == ImportState(st.all + [Stamped(st.stored, WithOwner(m, currentUser), now)],
                           st.stored[m.id := Stamped(st.stored, WithOwner(m, currentUser), now)],
                           st.duplicates + [m.name])
  {
    var owned := WithOwner(m, currentUser);
    var stored := Stamped(st.stored, owned, now);
    assert [m, m][..1] == [m];
    assert [m][..0] == [];
    assert ImportBatch(st, [m][..0], currentUser, now) == st;
    var once := ImportBatch(st, [m], currentUser, now);
    assert once == ImportState(st.all + [stored], st.stored[owned.id := stored], st.duplicates);
    SameMaterialFields(stored, owned, owned);
    assert once.all[..|once.all| - 1] == st.all;
    assert IsDuplicate(once.all, owned);
  }

  /** A listed material that came from the imported row `m`: the row as read,
      with the signed-in user's name (or "Depo") as owner when the row's owner
      is blank, and stamped now. */
  predicate ImportedFrom(r: Material, m: Material, currentUser: Option<string>, now: Time)
  {
    r.updatedAt == now
    && r.ownerUser == (if IsBlank(m.ownerUser) then currentUser.GetOr(Depot) else m.ownerUser)
    && r.(createdAt := m.createdAt, updatedAt := m.updatedAt, ownerUser := m.ownerUser) == m
  }

  /** Every material the import lists is one of the imported rows, owned by
      the signed-in user (or "Depo") when its owner was blank; so no listed
      import has a blank owner unless the signed-in name is blank. */
  lemma {:induction false} ImportedOwners(st: ImportState, imported: seq<Material>, currentUser: Option<string>, now: Time)
    ensures forall i :: |st.all| <= i < |ImportBatch(st, imported, currentUser, now).all| ==>
              exists j :: 0 <= j < |imported| && ImportedFrom(ImportBatch(st, imported, currentUser, now).all[i], imported[j], currentUser, now)
    ensures forall i :: |st.all| <= i < |ImportBatch(st, imported, currentUser, now).all| ==>
              !IsBlank(ImportBatch(st, imported, currentUser, now).all[i].ownerUser)
              || ImportBatch(st, imported, currentUser, now).all[i].ownerUser == currentUser.GetOr(Depot)
  {
    if imported != [] {
      var n := |imported| - 1;
      var mid := ImportBatch(st, imported[..n], currentUser, now);
      var all := ImportBatch(st, imported, currentUser, now).all;
      ImportedOwners(st, imported[..n], currentUser, now);
      ImportBatchCounts(st, imported[..n], currentUser, now);
      forall i | |st.all| <= i < |all|
        ensures exists j :: 0 <= j < |imported| && ImportedFrom(all[i], imported[j], currentUser, now)
      {
        if i < |mid.all| {
          var j :| 0 <= j < n && ImportedFrom(mid.all[i], imported[..n][j], currentUser, now);
          assert imported[..n][j] == imported[j] && all[i] == mid.all[i];
        } else {
          assert ImportedFrom(all[i], imported[n], currentUser, now);
        }
      }
      forall i | |st.all| <= i < |all|
        ensures !IsBlank(all[i].ownerUser) || all[i].ownerUser == currentUser.GetOr(Depot)
      {
        var j :| 0 <= j < |imported| && ImportedFrom(all[i], imported[j], currentUser, now);
      }
    } else {
      assert ImportBatch(st, imported, currentUser, now) == st;
    }
  }

  // ---------------------------------------------------------------------------
  // Search and keyword filter
  // ---------------------------------------------------------------------------

  /** The search box: a blank text matches everything, otherwise the name,
      serial or lot must contain it ignoring case. */
  predicate SearchMatches(m: Material, searchText: string)
  {
    IsBlank(searchText)
    || ContainsIC(m.name, searchText)
    || (m.serial.Some? && ContainsIC(m.serial.value, searchText))
    || (m.lot.Some? && ContainsIC(m.lot.value, searchText))
  }

  /** ContainsKeyword: the loop returns at the first keyword the name contains. */
  function ContainsKeyword(name: string, keywords: seq<string>): bool
  {
    if keywords == [] then false
    else ContainsIC(name, keywords[0]) || ContainsKeyword(name, keywords[1..])
  }

  lemma {:induction false} ContainsKeywordMeaning(name: string, keywords: seq<string>)
    ensures ContainsKeyword(name, keywords) <==> exists k :: 0 <= k < |keywords| && ContainsIC(name, keywords[k])
  {
    if keywords != [] {
      ContainsKeywordMeaning(name, keywords[1..]);
      if exists k :: 0 <= k < |keywords| && ContainsIC(name, keywords[k]) {
        var k :| 0 <= k < |keywords| && ContainsIC(name, keywords[k]);
        if k > 0 {
          assert keywords[1..][k - 1] == keywords[k];
        }
      }
      if ContainsKeyword(name, keywords[1..]) {
        var k :| 0 <= k < |keywords[1..]| && ContainsIC(name, keywords[1..][k]);
        assert keywords[k + 1] == keywords[1..][k];
      }
    }
  }

  predicate Shown(m: Material, searchText: string, active: Option<seq<string>>)
  {
    SearchMatches(m, searchText) && (active.None? || ContainsKeyword(m.name, active.value))
  }

  /** The two Where clauses of RefreshGroupedMaterials, in list order. */
  function Filtered(all: seq<Material>, searchText: string, active: Option<seq<string>>): seq<Material>
  {
    if all == [] then []
    else
      var n := |all| - 1;
      Filtered(all[..n], searchText, active) + (if Shown(all[n], searchText, active) then [all[n]] else [])
  }

  /** The filtered list holds each shown material as often as the full list
      does, and nothing else. */
  lemma {:induction false} FilteredMeaning(all: seq<Material>, searchText: string, active: Option<seq<string>>)
    ensures forall m :: multiset(Filtered(all, searchText, active))[m]
                        == (if Shown(m, searchText, active) then multiset(all)[m] else 0)
    ensures forall m :: m in Filtered(all, searchText, active) <==> m in all && Shown(m, searchText, active)
  {
    if all != [] {
      var n := |all| - 1;
      FilteredMeaning(all[..n], searchText, active);
      assert all == all[..n] + [all[n]];
      forall m ensures multiset(Filtered(all, searchText, active))[m]
                       == (if Shown(m, searchText, active) then multiset(all)[m] else 0) {
        assert multiset(all) == multiset(all[..n]) + multiset{all[n]};
      }
      forall m ensures m in Filtered(all, searchText, active) <==> m in all && Shown(m, searchText, active) {
        assert m in Filtered(all, searchText, active) <==> multiset(Filtered(all, searchText, active))[m] > 0;
      }
    }
  }

  // ---------------------------------------------------------------------------
  // Sorting
  // ---------------------------------------------------------------------------

  datatype SortState = Default | Ascending | Descending

  /** CycleSortState: each click on a sort button moves to the next state. */
  function CycleSortState(s: SortState): SortState
  {
    match s
    case Default => Ascending
    case Ascending => Descending
    case Descending => Default
  }

  /** Every click changes the state, and three clicks bring it back. */
  lemma {:induction false} CycleSortStateRestores(s: SortState)
    ensures CycleSortState(s) != s
    ensures CycleSortState(CycleSortState(CycleSortState(s))) == s
  {
  }

  /** A three-way comparison: negative, zero or positive. */
  function IntCmp(x: int, y: int): int
  {
    if x < y then -1 else if x > y then 1 else 0
  }

  /** What a three-way comparison must satisfy for a sort by it to be
      ordered: the comparisons of a with b, b with c and a with c agree. */
  predicate Consistent(x: int, y: int, z: int)
  {
    (x <= 0 && y <= 0 ==> z <= 0)
    && (x == 0 && y == 0 ==> z == 0)
    && (x < 0 && y <= 0 ==> z < 0)
    && (x <= 0 && y < 0 ==> z < 0)
  }

  /** Comparing by a first key and, on a tie, by a second key is consistent
      when both are. */
  lemma {:induction false} LexConsistent(x1: int, y1: int, z1: int, x2: int, y2: int, z2: int)
    requires Consistent(x1, y1, z1) && Consistent(x2, y2, z2)
    ensures Consistent(if x1 != 0 then x1 else x2, if y1 != 0 then y1 else y2, if z1 != 0 then z1 else z2)
  {
  }

  function DateCmp(a: Date, b: Date): int
  {
    var y := IntCmp(a.year, b.year);
    if y != 0 then y
    else
      var m := IntCmp(a.month, b.month);
      if m != 0 then m else IntCmp(a.day, b.day)
  }

  lemma {:induction false} DateCmpConsistent(a: Date, b: Date, c: Date)
    ensures Consistent(DateCmp(a, b), DateCmp(b, c), DateCmp(a, c))
    ensures DateCmp(a, b) == -DateCmp(b, a)
  {
    LexConsistent(IntCmp(a.month, b.month), IntCmp(b.month, c.month), IntCmp(a.month, c.month),
                  IntCmp(a.day, b.day), IntCmp(b.day, c.day), IntCmp(a.day, c.day));
    var m1 := if IntCmp(a.month, b.month) != 0 then IntCmp(a.month, b.month) else IntCmp(a.day, b.day);
    var m2 := if IntCmp(b.month, c.month) != 0 then IntCmp(b.month, c.month) else IntCmp(b.day, c.day);
    var m3 := if IntCmp(a.month, c.month) != 0 then IntCmp(a.month, c.month) else IntCmp(a.day, c.day);
    LexConsistent(IntCmp(a.year, b.year), IntCmp(b.year, c.year), IntCmp(a.year, c.year), m1, m2, m3);
  }

  /** The first day DateTime can hold, the key OrderByDescending gives a
      missing expiry date. */
  const MinDate: Date := Date(1, 1, 1)

  /** The expiry key. Ascending orders by ExpiryDate ?? DateTime.MaxValue, and
      MaxValue (the last tick of 31.12.9999) is later than every date, so a
      missing date comes after all others; descending orders by
      ExpiryDate ?? DateTime.MinValue, newest first, so a missing date also
      comes last, level with 01.01.0001. */
  function ExpiryCmp(a: Material, b: Material, s: SortState): int
  {
    match s
    case Default => 0
    case Ascending =>
      if a.expiryDate.None? && b.expiryDate.None? then 0
      else if a.expiryDate.None? then 1
      else if b.expiryDate.None? then -1
      else DateCmp(a.expiryDate.value, b.expiryDate.value)
    case Descending => DateCmp(b.expiryDate.GetOr(MinDate), a.expiryDate.GetOr(MinDate))
  }

  function QuantityCmp(a: Material, b: Material, s: SortState): int
  {
    match s
    case Default => 0
    case Ascending => IntCmp(a.quantity, b.quantity)
    case Descending => IntCmp(b.quantity, a.quantity)
  }

  /** The order of texts ignoring case (the culture's comparer stands for an
      order on the upper-cased texts by code point). */
  function TextCmp(a: string, b: string): int
  {
    var x, y := UpperStr(a), UpperStr(b);
    if StrLess(x, y) then -1 else if StrLess(y, x) then 1 else 0
  }

  /** The name order, ignoring case. */
  function NameCmp(a: Material, b: Material): int
  {
    TextCmp(a.name, b.name)
  }

  /** ApplySorting's order: by expiry when that sort is on, then by quantity
      when that sort is on, then by name. */
  function MaterialCmp(a: Material, b: Material, e: SortState, q: SortState): int
  {
    var c1 := ExpiryCmp(a, b, e);
    if c1 != 0 then c1
    else
      var c2 := QuantityCmp(a, b, q);
      if c2 != 0 then c2 else NameCmp(a, b)
  }

  lemma {:induction false} ExpiryCmpConsistent(a: Material, b: Material, c: Material, s: SortState)
    ensures Consistent(ExpiryCmp(a, b, s), ExpiryCmp(b, c, s), ExpiryCmp(a, c, s))
    ensures ExpiryCmp(a, b, s) == -ExpiryCmp(b, a, s)
  {
    var da, db, dc := a.expiryDate, b.expiryDate, c.expiryDate;
    if s == Ascending && da.Some? && db.Some? && dc.Some? {
      DateCmpConsistent(da.value, db.value, dc.value);
    } else if s == Ascending {
      if da.Some? && db.Some? { DateCmpConsistent(da.value, db.value, da.value); }
      if db.Some? && dc.Some? { DateCmpConsistent(db.value, dc.value, db.value); }
      if da.Some? && dc.Some? { DateCmpConsistent(da.value, dc.value, da.value); }
    } else if s == Descending {
      DateCmpConsistent(dc.GetOr(MinDate), db.GetOr(MinDate), da.GetOr(MinDate));
      DateCmpConsistent(db.GetOr(MinDate), da.GetOr(MinDate), db.GetOr(MinDate));
    }
  }

  lemma {:induction false} TextCmpConsistent(a: string, b: string, c: string)
    ensures Consistent(TextCmp(a, b), TextCmp(b, c), TextCmp(a, c))
    ensures TextCmp(a, b) == -TextCmp(b, a)
    ensures TextCmp(a, b) == 0 <==> EqIC(a, b)
  {
    var x, y, z := UpperStr(a), UpperStr(b), UpperStr(c);
    StrLessIrreflexive(x);
    if x != y { StrLessTotal(x, y); }
    if y != z { StrLessTotal(y, z); }
    if x != z { StrLessTotal(x, z); }
    if StrLess(x, y) { StrLessAsymmetric(x, y); }
    if StrLess(y, z) { StrLessAsymmetric(y, z); }
    if StrLess(x, z) { StrLessAsymmetric(x, z); }
    if StrLess(x, y) && StrLess(y, z) { StrLessTransitive(x, y, z); }
    if StrLess(z, y) && StrLess(y, x) { StrLessTransitive(z, y, x); }
  }

  /** The sort order is a total preorder: consistent and antisymmetric. */
  lemma {:induction false} MaterialCmpConsistent(a: Material, b: Material, c: Material, e: SortState, q: SortState)
    ensures Consistent(MaterialCmp(a, b, e, q), MaterialCmp(b, c, e, q), MaterialCmp(a, c, e, q))
    ensures MaterialCmp(a, b, e, q) == -MaterialCmp(b, a, e, q)
  {
    ExpiryCmpConsistent(a, b, c, e);
    TextCmpConsistent(a.name, b.name, c.name);
    assert Consistent(QuantityCmp(a, b, q), QuantityCmp(b, c, q), QuantityCmp(a, c, q));
    var t1 := if QuantityCmp(a, b, q) != 0 then QuantityCmp(a, b, q) else NameCmp(a, b);
    var t2 := if QuantityCmp(b, c, q) != 0 then QuantityCmp(b, c, q) else NameCmp(b, c);
    var t3 := if QuantityCmp(a, c, q) != 0 then QuantityCmp(a, c, q) else NameCmp(a, c);
    LexConsistent(QuantityCmp(a, b, q), QuantityCmp(b, c, q), QuantityCmp(a, c, q),
                  NameCmp(a, b), NameCmp(b, c), NameCmp(a, c));
    LexConsistent(ExpiryCmp(a, b, e), ExpiryCmp(b, c, e), ExpiryCmp(a, c, e), t1, t2, t3);
  }

  /** Places `x` before the first material that sorts strictly after it. */
  function InsertSorted(x: Material, s: seq<Material>, e: SortState, q: SortState): (r: seq<Material>)
    ensures |r| == |s| + 1
  {
    if s == [] then [x]
    else if MaterialCmp(x, s[0], e, q) < 0 then [x] + s
    else [s[0]] + InsertSorted(x, s[1..], e, q)
  }

  /** ApplySorting: a stable sort by MaterialCmp. */
  function SortMaterials(s: seq<Material>, e: SortState, q: SortState): (r: seq<Material>)
    ensures |r| == |s|
  {
    if s == [] then [] else InsertSorted(s[|s| - 1], SortMaterials(s[..|s| - 1], e, q), e, q)
  }

  predicate SortedBy(s: seq<Material>, e: SortState, q: SortState)
  {
    forall i, j :: 0 <= i < j < |s| ==> MaterialCmp(s[i], s[j], e, q) <= 0
  }

  lemma {:induction false} InsertSortedMembers(x: Material, s: seq<Material>, e: SortState, q: SortState)
    ensures multiset(InsertSorted(x, s, e, q)) == multiset(s) + multiset{x}
  {
    if s != [] && MaterialCmp(x, s[0], e, q) >= 0 {
      InsertSortedMembers(x, s[1..], e, q);
      HeadTail(s);
    }
  }

  /** Inserting keeps a material that sorts no later than everything. */
  lemma {:induction false} InsertSortedBound(b: Material, x: Material, s: seq<Material>, e: SortState, q: SortState)
    requires MaterialCmp(b, x, e, q) <= 0
    requires forall i :: 0 <= i < |s| ==> MaterialCmp(b, s[i], e, q) <= 0
    ensures forall i :: 0 <= i < |InsertSorted(x, s, e, q)| ==> MaterialCmp(b, InsertSorted(x, s, e, q)[i], e, q) <= 0
  {
    if s != [] && MaterialCmp(x, s[0], e, q) >= 0 {
      InsertSortedBound(b, x, s[1..], e, q);
    }
  }

  lemma {:induction false} InsertSortedOrdered(x: Material, s: seq<Material>, e: SortState, q: SortState)
    requires SortedBy(s, e, q)
    ensures SortedBy(InsertSorted(x, s, e, q), e, q)
  {
    if s == [] {
    } else if MaterialCmp(x, s[0], e, q) < 0 {
      forall j | 0 <= j < |s| ensures MaterialCmp(x, s[j], e, q) <= 0 {
        if j > 0 {
          MaterialCmpConsistent(x, s[0], s[j], e, q);
        }
      }
      assert InsertSorted(x, s, e, q) == [x] + s;
    } else {
      InsertSortedOrdered(x, s[1..], e, q);
      MaterialCmpConsistent(x, s[0], x, e, q);
      InsertSortedBound(s[0], x, s[1..], e, q);
      assert InsertSorted(x, s, e, q) == [s[0]] + InsertSorted(x, s[1..], e, q);
    }
  }

  /** The sorted list is ordered by MaterialCmp. */
  lemma {:induction false} SortMaterialsSorted(s: seq<Material>, e: SortState, q: SortState)
    ensures SortedBy(SortMaterials(s, e, q), e, q)
  {
    if s != [] {
      var n := |s| - 1;
      SortMaterialsSorted(s[..n], e, q);
      InsertSortedOrdered(s[n], SortMaterials(s[..n], e, q), e, q);
    }
  }

  /** The sorted list holds exactly the materials it was given. */
  lemma {:induction false} SortMaterialsPermutes(s: seq<Material>, e: SortState, q: SortState)
    ensures multiset(SortMaterials(s, e, q)) == multiset(s)
  {
    if s != [] {
      var n := |s| - 1;
      SortMaterialsPermutes(s[..n], e, q);
      InsertSortedMembers(s[n], SortMaterials(s[..n], e, q), e, q);
      InitLast(s);
    }
  }

  /** The sorted list is ordered by MaterialCmp and holds exactly the
      materials it was given. */
  lemma {:induction false} SortMaterialsFacts(s: seq<Material>, e: SortState, q: SortState)
    ensures SortedBy(SortMaterials(s, e, q), e, q)
    ensures multiset(SortMaterials(s, e, q)) == multiset(s)
  {
    SortMaterialsSorted(s, e, q);
    SortMaterialsPermutes(s, e, q);
  }

  /** With an expiry sort on, materials without an expiry date come after
      every material that has one, in either direction (for descending,
      leaving aside a date no later than 01.01.0001). */
  lemma {:induction false} MissingExpiryLast(s: seq<Material>, e: SortState, q: SortState, i: int, j: int)
    requires e != Default
    requires 0 <= i < j < |SortMaterials(s, e, q)|
    requires SortMaterials(s, e, q)[i].expiryDate.None?
    requires SortMaterials(s, e, q)[j].expiryDate.Some?
    ensures e == Descending && DateCmp(SortMaterials(s, e, q)[j].expiryDate.value, MinDate) <= 0
  {
    SortMaterialsFacts(s, e, q);
    var r := SortMaterials(s, e, q);
    assert MaterialCmp(r[i], r[j], e, q) <= 0;
  }

  /** Without a sort on, the list is in name order. */
  lemma {:induction false} DefaultSortByName(s: seq<Material>, i: int, j: int)
    requires 0 <= i < j < |SortMaterials(s, Default, Default)|
    ensures !StrLess(UpperStr(SortMaterials(s, Default, Default)[j].name), UpperStr(SortMaterials(s, Default, Default)[i].name))
  {
    SortMaterialsFacts(s, Default, Default);
    var r := SortMaterials(s, Default, Default);
    assert MaterialCmp(r[i], r[j], Default, Default) <= 0;
    if StrLess(UpperStr(r[i].name), UpperStr(r[j].name)) {
      StrLessAsymmetric(UpperStr(r[i].name), UpperStr(r[j].name));
    }
  }

  /** Sorting does not change the total. */
  lemma {:induction false} SortedTotal(s: seq<Material>, e: SortState, q: SortState)
    ensures SumQuantities(SortMaterials(s, e, q)) == SumQuantities(s)
  {
    SortMaterialsFacts(s, e, q);
    SumPermutation(SortMaterials(s, e, q), s);
  }

  // ---------------------------------------------------------------------------
  // Group keys
  // ---------------------------------------------------------------------------

  /** char.IsLetterOrDigit for the letters of the materials' names: the ASCII
      letters and digits and the Turkish letters. */
  predicate IsLetterOrDigit(c: char)
  {
    ('A' <= c <= 'Z') || ('a' <= c <= 'z') || ('0' <= c <= '9')
    || c in {'Ç', 'Ğ', 'İ', 'Ö', 'Ş', 'Ü', 'ç', 'ğ', 'ı', 'ö', 'ş', 'ü'}
  }

  const UnknownKey: string := "?"

  /** GetGroupKey. */
  function GroupKey(name: string): string
  {
    if IsBlank(name) then UnknownKey
    else
      var c := Upper(name[0]);
      if IsLetterOrDigit(c) then [c] else UnknownKey
  }

  /** The key is one character: the upper-cased first character when that is
      a letter or digit, "?" otherwise; a blank name gets "?". */
  lemma {:induction false} GroupKeyMeaning(name: string)
    ensures |GroupKey(name)| == 1
    ensures GroupKey(name) != UnknownKey <==> !IsBlank(name) && IsLetterOrDigit(Upper(name[0]))
    ensures GroupKey(name) != UnknownKey ==> GroupKey(name) == [Upper(name[0])]
    ensures forall other :: EqIC(name, other) ==> GroupKey(other) == GroupKey(name)
  {
    forall other | EqIC(name, other) ensures GroupKey(other) == GroupKey(name) {
      assert |other| == |name|;
      if !IsBlank(name) && IsBlank(other) {
        var i :| 0 <= i < |name| && !IsWhite(name[i]);
        assert UpperStr(name)[i] == UpperStr(other)[i];
      }
      if IsBlank(name) && !IsBlank(other) {
        var i :| 0 <= i < |other| && !IsWhite(other[i]);
        assert UpperStr(name)[i] == UpperStr(other)[i];
      }
      if |name| > 0 {
        assert UpperStr(name)[0] == UpperStr(other)[0];
      }
    }
  }

  // ---------------------------------------------------------------------------
  // Grouping
  // ---------------------------------------------------------------------------

  /** GroupBy's keys: each group key once, in order of first appearance. */
  function GroupKeys(ms: seq<Material>): seq<string>
  {
    if ms == [] then []
    else
      var n := |ms| - 1;
      var front := GroupKeys(ms[..n]);
      if GroupKey(ms[n].name) in front then front else front + [GroupKey(ms[n].name)]
  }

  /** Some listed material has the key. */
  predicate KeyOccurs(ms: seq<Material>, k: string)
  {
    exists i :: 0 <= i < |ms| && GroupKey(ms[i].name) == k
  }

  lemma {:induction false} KeyOccursSnoc(ms: seq<Material>, k: string)
    requires ms != []
    ensures KeyOccurs(ms, k) <==> KeyOccurs(ms[..|ms| - 1], k) || GroupKey(ms[|ms| - 1].name) == k
  {
    var n := |ms| - 1;
    if KeyOccurs(ms, k) {
      var i :| 0 <= i < |ms| && GroupKey(ms[i].name) == k;
      if i < n {
        assert ms[..n][i] == ms[i];
      }
    }
    if KeyOccurs(ms[..n], k) {
      var i :| 0 <= i < n && GroupKey(ms[..n][i].name) == k;
      assert ms[i] == ms[..n][i];
    }
  }

  /** Each key of a listed material occurs once, and there are no others. */
  lemma {:induction false} GroupKeysMeaning(ms: seq<Material>)
    ensures NoDuplicates(GroupKeys(ms))
    ensures forall k :: k in GroupKeys(ms) <==> KeyOccurs(ms, k)
  {
    if ms != [] {
      var n := |ms| - 1;
      GroupKeysMeaning(ms[..n]);
      var front, last := GroupKeys(ms[..n]), GroupKey(ms[n].name);
      assert GroupKeys(ms) == if last in front then front else front + [last];
      forall k ensures k in GroupKeys(ms) <==> KeyOccurs(ms, k) {
        KeyOccursSnoc(ms, k);
      }
    }
  }

  /** The members of one group, in list order. */
  function GroupOf(ms: seq<Material>, key: string): seq<Material>
  {
    if ms == [] then []
    else
      var n := |ms| - 1;
      GroupOf(ms[..n], key) + (if GroupKey(ms[n].name) == key then [ms[n]] else [])
  }

  /** A group holds each material of its key as often as the list does, and
      nothing else. */
  lemma {:induction false} GroupOfMembers(ms: seq<Material>, key: string)
    ensures forall m :: multiset(GroupOf(ms, key))[m] == (if GroupKey(m.name) == key then multiset(ms)[m] else 0)
  {
    if ms != [] {
      var n := |ms| - 1;
      GroupOfMembers(ms[..n], key);
      assert ms == ms[..n] + [ms[n]];
      assert multiset(ms) == multiset(ms[..n]) + multiset{ms[n]};
    }
  }

  /** Some group has the key. */
  predicate HasKey(gs: seq<MaterialGroup>, key: string)
  {
    exists i :: 0 <= i < |gs| && gs[i].key == key
  }

  predicate DistinctKeys(gs: seq<MaterialGroup>)
  {
    forall i, j :: 0 <= i < j < |gs| ==> gs[i].key != gs[j].key
  }

  /** GroupedMaterials.FirstOrDefault(g => g.Key == key), as a position. */
  function FindGroup(gs: seq<MaterialGroup>, key: string): (r: Option<nat>)
    ensures r.Some? ==> r.value < |gs| && gs[r.value].key == key
    ensures r.None? ==> forall i :: 0 <= i < |gs| ==> gs[i].key != key
  {
    if gs == [] then None
    else if gs[0].key == key then Some(0)
    else
      var r := FindGroup(gs[1..], key);
      assert forall i :: 0 < i < |gs| ==> gs[i] == gs[1..][i - 1];
      if r.Some? then Some(r.value + 1) else None
  }

  /** The groups whose key is still wanted, in their order. */
  function KeepGroups(gs: seq<MaterialGroup>, keys: seq<string>): seq<MaterialGroup>
  {
    if gs == [] then []
    else if gs[0].key in keys then [gs[0]] + KeepGroups(gs[1..], keys)
    else KeepGroups(gs[1..], keys)
  }

  /** The kept groups are those of the wanted keys; distinct keys stay so. */
  lemma {:induction false} KeepGroupsFacts(gs: seq<MaterialGroup>, keys: seq<string>)
    ensures forall i :: 0 <= i < |KeepGroups(gs, keys)| ==>
              KeepGroups(gs, keys)[i] in gs && KeepGroups(gs, keys)[i].key in keys
    ensures forall i :: 0 <= i < |gs| && gs[i].key in keys ==> gs[i] in KeepGroups(gs, keys)
    ensures DistinctKeys(gs) ==> DistinctKeys(KeepGroups(gs, keys))
  {
    if gs != [] {
      var t := KeepGroups(gs[1..], keys);
      KeepGroupsFacts(gs[1..], keys);
      var r := KeepGroups(gs, keys);
      assert forall i :: 0 < i < |gs| ==> gs[i] == gs[1..][i - 1];
      forall i | 0 <= i < |r| ensures r[i] in gs && r[i].key in keys {
        if gs[0].key in keys && i > 0 {
          assert r[i] == t[i - 1];
        }
      }
      if DistinctKeys(gs) {
        assert DistinctKeys(gs[1..]) by {
          forall i, j | 0 <= i < j < |gs[1..]| ensures gs[1..][i].key != gs[1..][j].key {
            assert gs[1..][i] == gs[i + 1] && gs[1..][j] == gs[j + 1];
          }
        }
        forall i | 0 <= i < |t| ensures t[i].key != gs[0].key {
          var p :| 0 <= p < |gs[1..]| && gs[1..][p] == t[i];
          assert gs[p + 1] == t[i];
        }
        if gs[0].key in keys {
          forall i, j | 0 <= i < j < |r| ensures r[i].key != r[j].key {
            assert r[j] == t[j - 1];
            if i > 0 {
              assert r[i] == t[i - 1];
            }
          }
        }
      }
    }
  }

  /** Groups ordered by key, ignoring case. */
  predicate GroupsOrdered(gs: seq<MaterialGroup>)
  {
    forall i, j :: 0 <= i < j < |gs| ==> TextCmp(gs[i].key, gs[j].key) <= 0
  }

  /** Places `g` after every group whose key does not sort after its own. */
  function InsertGroup(g: MaterialGroup, gs: seq<MaterialGroup>): (r: seq<MaterialGroup>)
    ensures |r| == |gs| + 1
    ensures multiset(r) == multiset(gs) + multiset{g}
  {
    if gs == [] then [g]
    else if TextCmp(g.key, gs[0].key) < 0 then [g] + gs
    else
      assert gs == [gs[0]] + gs[1..];
      [gs[0]] + InsertGroup(g, gs[1..])
  }

  /** OrderBy(g => g.Key, CurrentCultureIgnoreCase): a stable sort. */
  function SortGroups(gs: seq<MaterialGroup>): (r: seq<MaterialGroup>)
    ensures |r| == |gs| && multiset(r) == multiset(gs)
  {
    if gs == [] then []
    else
      var n := |gs| - 1;
      assert gs == gs[..n] + [gs[n]];
      InsertGroup(gs[n], SortGroups(gs[..n]))
  }

  lemma {:induction false} InsertGroupOrdered(g: MaterialGroup, gs: seq<MaterialGroup>)
    requires GroupsOrdered(gs)
    ensures GroupsOrdered(InsertGroup(g, gs))
  {
    var r := InsertGroup(g, gs);
    if gs == [] {
    } else if TextCmp(g.key, gs[0].key) < 0 {
      forall j | 0 < j < |r| ensures TextCmp(g.key, r[j].key) <= 0 {
        assert r[j] == gs[j - 1];
        if j > 1 {
          TextCmpConsistent(g.key, gs[0].key, gs[j - 1].key);
        }
      }
    } else {
      var t := InsertGroup(g, gs[1..]);
      InsertGroupOrdered(g, gs[1..]);
      assert r == [gs[0]] + t;
      TextCmpConsistent(g.key, gs[0].key, g.key);
      forall j | 0 < j < |r| ensures TextCmp(gs[0].key, r[j].key) <= 0 {
        assert r[j] == t[j - 1] && t[j - 1] in multiset(t);
        if t[j - 1] != g {
          assert t[j - 1] in gs[1..];
        }
      }
    }
  }

  lemma {:induction false} SortGroupsOrdered(gs: seq<MaterialGroup>)
    ensures GroupsOrdered(SortGroups(gs))
  {
    if gs != [] {
      var n := |gs| - 1;
      SortGroupsOrdered(gs[..n]);
      InsertGroupOrdered(gs[n], SortGroups(gs[..n]));
    }
  }

  /** The first position of `g`. */
  function IndexOf(gs: seq<MaterialGroup>, g: MaterialGroup): (r: nat)
    requires g in gs
    ensures r < |gs| && gs[r] == g
    ensures forall j :: 0 <= j < r ==> gs[j] != g
  {
    if gs[0] == g then 0
    else
      assert g in gs[1..];
      var r := IndexOf(gs[1..], g);
      assert forall j :: 0 < j <= r ==> gs[j] == gs[1..][j - 1];
      r + 1
  }

  /** ObservableCollection.Move to an earlier position: the element leaves
      position `from` and is inserted at position `to`. */
  function MoveBack(gs: seq<MaterialGroup>, from: nat, to: nat): (r: seq<MaterialGroup>)
    requires to <= from < |gs|
    ensures |r| == |gs| && multiset(r) == multiset(gs)
    ensures forall j :: 0 <= j < to ==> r[j] == gs[j]
    ensures r[to] == gs[from]
  {
    assert gs == gs[..to] + gs[to..from] + [gs[from]] + gs[from + 1..];
    gs[..to] + [gs[from]] + gs[to..from] + gs[from + 1..]
  }

  /** Groups with distinct keys are distinct groups. */
  lemma {:induction false} DistinctKeysDistinct(gs: seq<MaterialGroup>)
    requires DistinctKeys(gs)
    ensures NoDuplicates(gs)
  {
  }

  /** A permutation of groups with distinct keys has distinct keys. */
  lemma {:induction false} PermutedDistinctKeys(a: seq<MaterialGroup>, b: seq<MaterialGroup>)
    requires DistinctKeys(a) && multiset(a) == multiset(b)
    ensures DistinctKeys(b)
  {
    DistinctKeysDistinct(a);
    forall i, j | 0 <= i < j < |b| ensures b[i].key != b[j].key {
      assert b[i] in multiset(a) && b[j] in multiset(a);
      DistinctMultiplicity(a, b[j]);
      assert b == b[..j] + [b[j]] + b[j + 1..];
      assert multiset(b) == multiset(b[..j]) + multiset{b[j]} + multiset(b[j + 1..]);
      assert b[i] in b[..j];
      var p := IndexOf(a, b[i]);
      var r := IndexOf(a, b[j]);
      assert a[p] != a[r];
    }
  }

  // ---------------------------------------------------------------------------
  // Edit and delete
  // ---------------------------------------------------------------------------

  datatype EditOutcome = NotEdited | InvalidQuantity | Edited(material: Material)

  /** OnEditMaterial's checks and changes: a blank new name or a cancelled
      confirmation change nothing, a missing, unparsable or negative quantity
      is refused with a warning, and otherwise the trimmed name, the quantity
      and the owner (kept when the owner prompt is skipped) are set. */
  function EditOf(m: Material, newName: Option<string>, quantityText: Option<string>, owner: Option<string>,
                  confirm: bool, now: Time): EditOutcome
  {
    if IsBlankOpt(newName) then NotEdited
    else
      var q := ParseInt(quantityText);
      if q.None? || q.value < 0 then InvalidQuantity
      else if !confirm then NotEdited
      else Edited(m.(name := Trim(newName.value), quantity := q.value, ownerUser := owner.GetOr(m.ownerUser), updatedAt := now))
  }

  /** An edit leaves a non-blank trimmed name and a non-negative quantity,
      and touches no field but name, quantity, owner and update time. */
  lemma {:induction false} EditOfMeaning(m: Material, newName: Option<string>, quantityText: Option<string>, owner: Option<string>,
                      confirm: bool, now: Time)
    ensures EditOf(m, newName, quantityText, owner, confirm, now).Edited? ==>
              var r := EditOf(m, newName, quantityText, owner, confirm, now).material;
              r.name != [] && Trim(r.name) == r.name && r.quantity >= 0
              && Some(r.quantity) == ParseInt(quantityText)
              && r.id == m.id && r.serial == m.serial && r.lot == m.lot && r.expiryDate == m.expiryDate
              && (owner.None? ==> r.ownerUser == m.ownerUser)
    ensures EditOf(m, newName, quantityText, owner, confirm, now).Edited? <==>
              !IsBlankOpt(newName) && ParseInt(quantityText).Some? && ParseInt(quantityText).value >= 0 && confirm
  {
    if !IsBlankOpt(newName) {
      TrimSpec(newName.value);
      TrimFixed(Trim(newName.value));
    }
  }

  // ---------------------------------------------------------------------------
  // The page
  // ---------------------------------------------------------------------------

  const LeadKeywords: seq<string> := ["solia", "sentus", "plexa"]
  const SheathKeywords: seq<string> := ["safesheath", "adelante", "li-7", "li-8"]
  const PacemakerKeywords: seq<string> := ["amvia sky", "endicos", "enitra", "edora"]
  const IcdKeywords: seq<string> := ["vr-t", "dr-t"]
  const CrtKeywords: seq<string> := ["hf-t"]

  /** The keywords of the first active filter, if any is active. */
  function ActiveKeywords(options: seq<FilterOption>): Option<seq<string>>
    reads set f | f in options
  {
    if options == [] then None
    else if options[0].isActive then Some(options[0].keywords)
    else ActiveKeywords(options[1..])
  }

  /** No keywords exactly when no filter is active; otherwise those of an
      active filter. */
  lemma {:induction false} ActiveKeywordsMeaning(options: seq<FilterOption>)
    ensures ActiveKeywords(options).None? <==> forall i :: 0 <= i < |options| ==> !options[i].isActive
    ensures ActiveKeywords(options).Some? ==>
              exists i :: 0 <= i < |options| && options[i].isActive && ActiveKeywords(options).value == options[i].keywords
    decreases |options|
  {
    if options != [] && !options[0].isActive {
      ActiveKeywordsMeaning(options[1..]);
      assert forall i :: 0 < i < |options| ==> options[i] == options[1..][i - 1];
    }
  }

  /** After a refresh the groups show `ms`: one group per key of a listed
      material, no other, ordered by key, each holding exactly the listed
      materials of its key. */
  ghost predicate GroupsShow(groups: seq<MaterialGroup>, ms: seq<Material>)
    reads set g | g in groups
  {
    DistinctKeys(groups) && GroupsOrdered(groups)
    && (forall i :: 0 <= i < |groups| ==> groups[i].key in GroupKeys(ms))
    && (forall k :: k in GroupKeys(ms) ==> HasKey(groups, k))
    && (forall i, x :: 0 <= i < |groups| && x in groups[i].items ==> x in GroupOf(ms, groups[i].key))
    && (forall i, x :: 0 <= i < |groups| && x in GroupOf(ms, groups[i].key) ==> ObjectOf(x) in KeyList(groups[i].items, ObjectOf))
  }

  /** The items and the expansion state of each group, at one moment. */
  ghost function ItemsMap(gs: seq<MaterialGroup>): map<MaterialGroup, seq<Material>>
    reads set g | g in gs
  {
    map g | g in gs :: g.items
  }

  ghost function ExpandedMap(gs: seq<MaterialGroup>): map<MaterialGroup, bool>
    reads set g | g in gs
  {
    map g | g in gs :: g.isExpanded
  }

  /** What a group held before: nothing when it is new. */
  function PriorItems(items: map<MaterialGroup, seq<Material>>, g: MaterialGroup): seq<Material>
  {
    if g in items then items[g] else []
  }

  /** Every group's items were reconciled with the members of its key, and
      its expansion state kept, or set (expanded) when the group is new. */
  ghost predicate Regrouped(gs: seq<MaterialGroup>, ms: seq<Material>,
                            items: map<MaterialGroup, seq<Material>>, expanded: map<MaterialGroup, bool>)
    reads set g | g in gs
  {
    forall g :: g in gs ==>
      g.items == ReconciledBy(PriorItems(items, g), GroupOf(ms, g.key), ObjectOf)
      && g.isExpanded == (if g in expanded then expanded[g] else true)
  }

  /** The state of the loop over GroupBy's groups after the first `done`
      keys: groups are only appended, the new ones are not among the groups
      before, every done key has its group with its items reconciled, and the
      rest is as before. */
  ghost predicate Filling(gs: seq<MaterialGroup>, start: seq<MaterialGroup>, ms: seq<Material>, keys: seq<string>,
                          done: nat, items: map<MaterialGroup, seq<Material>>, expanded: map<MaterialGroup, bool>)
    reads set g | g in gs
  {
    done <= |keys| && FillingShape(gs, start, keys, items, expanded) && FillingContents(gs, ms, keys, done, items, expanded)
  }

  /** The groups of the loop's state: appended only, distinct keys, all
      keys of the list, the appended ones new. */
  predicate FillingShape(gs: seq<MaterialGroup>, start: seq<MaterialGroup>, keys: seq<string>,
                         items: map<MaterialGroup, seq<Material>>, expanded: map<MaterialGroup, bool>)
  {
    DistinctKeys(gs) && start <= gs
    && (forall j :: 0 <= j < |gs| ==> gs[j].key in keys)
    && (forall j :: |start| <= j < |gs| ==> gs[j] !in items && gs[j] !in expanded)
  }

  /** What the loop's groups hold: every done key has its group with its
      items reconciled, the rest is as before. */
  ghost predicate FillingContents(gs: seq<MaterialGroup>, ms: seq<Material>, keys: seq<string>, done: nat,
                                  items: map<MaterialGroup, seq<Material>>, expanded: map<MaterialGroup, bool>)
    requires done <= |keys|
    reads set g | g in gs
  {
    (forall k :: k in keys[..done] ==> HasKey(gs, k))
    && (forall g :: g in gs ==>
          g.items == (if g.key in keys[..done] then ReconciledBy(PriorItems(items, g), GroupOf(ms, g.key), ObjectOf) else PriorItems(items, g)))
    && (forall g :: g in gs ==> g.isExpanded == (if g in expanded then expanded[g] else true))
  }

  /** Appending a new, empty, expanded group for a key not yet present keeps
      the loop's state. */
  lemma {:induction false} FillingAppend(gs: seq<MaterialGroup>, g: MaterialGroup, start: seq<MaterialGroup>, ms: seq<Material>,
                      keys: seq<string>, done: nat, items: map<MaterialGroup, seq<Material>>, expanded: map<MaterialGroup, bool>)
    requires Filling(gs, start, ms, keys, done, items, expanded) && done < |keys|
    requires g.key == keys[done] && g.items == [] && g.isExpanded && g !in items && g !in expanded
    requires forall j :: 0 <= j < |gs| ==> gs[j].key != g.key
    requires NoDuplicates(keys)
    ensures Filling(gs + [g], start, ms, keys, done, items, expanded)
  {
    FillingAppendShape(gs, g, start, keys, items, expanded);
    FillingAppendContents(gs, g, ms, keys, done, items, expanded);
  }

  lemma {:induction false} FillingAppendShape(gs: seq<MaterialGroup>, g: MaterialGroup, start: seq<MaterialGroup>, keys: seq<string>,
                           items: map<MaterialGroup, seq<Material>>, expanded: map<MaterialGroup, bool>)
    requires FillingShape(gs, start, keys, items, expanded)
    requires g.key in keys && g !in items && g !in expanded
    requires forall j :: 0 <= j < |gs| ==> gs[j].key != g.key
    ensures FillingShape(gs + [g], start, keys, items, expanded)
  {
    var next := gs + [g];
    forall j | 0 <= j < |gs| ensures next[j] == gs[j] { }
  }

  lemma {:induction false} FillingAppendContents(gs: seq<MaterialGroup>, g: MaterialGroup, ms: seq<Material>, keys: seq<string>, done: nat,
                              items: map<MaterialGroup, seq<Material>>, expanded: map<MaterialGroup, bool>)
    requires done < |keys| && FillingContents(gs, ms, keys, done, items, expanded)
    requires g.key == keys[done] && g.items == [] && g.isExpanded && g !in items && g !in expanded
    requires NoDuplicates(keys)
    ensures FillingContents(gs + [g], ms, keys, done, items, expanded)
  {
    var next := gs + [g];
    assert keys[done] !in keys[..done];
    forall k | k in keys[..done] ensures HasKey(next, k) {
      var p :| 0 <= p < |gs| && gs[p].key == k;
      assert next[p] == gs[p];
    }
    forall h | h in next
      ensures h.items == (if h.key in keys[..done] then ReconciledBy(PriorItems(items, h), GroupOf(ms, h.key), ObjectOf) else PriorItems(items, h))
      ensures h.isExpanded == (if h in expanded then expanded[h] else true)
    {
      if h != g {
        assert h in gs;
      }
    }
  }

  /** GroupedMaterials.FirstOrDefault for the next key, or a new group
      appended when there is none. */
  method FindOrAddGroup(gs: seq<MaterialGroup>, ghost start: seq<MaterialGroup>, ms: seq<Material>, keys: seq<string>,
                        done: nat, ghost items: map<MaterialGroup, seq<Material>>, ghost expanded: map<MaterialGroup, bool>)
    returns (next: seq<MaterialGroup>, g: MaterialGroup)
    requires Filling(gs, start, ms, keys, done, items, expanded) && done < |keys| && NoDuplicates(keys)
    ensures Filling(next, start, ms, keys, done, items, expanded)
    ensures g in next && g.key == keys[done]
    ensures forall h :: h in next ==> h in gs || fresh(h)
  {
    var key := keys[done];
    var found := FindGroup(gs, key);
    if found.None? {
      g := new MaterialGroup(key);
      FillingAppend(gs, g, start, ms, keys, done, items, expanded);
      next := gs + [g];
    } else {
      g := gs[found.value];
      next := gs;
    }
  }

  /** ReplaceItems on the group of the next key. */
  method ReplaceGroupItems(gs: seq<MaterialGroup>, g: MaterialGroup, ghost start: seq<MaterialGroup>, ms: seq<Material>,
                           keys: seq<string>, done: nat,
                           ghost items: map<MaterialGroup, seq<Material>>, ghost expanded: map<MaterialGroup, bool>)
    requires Filling(gs, start, ms, keys, done, items, expanded) && done < |keys| && NoDuplicates(keys)
    requires g in gs && g.key == keys[done]
    modifies g`items
    ensures Filling(gs, start, ms, keys, done + 1, items, expanded)
  {
    var key := keys[done];
    assert key !in keys[..done];
    assert keys[..done + 1] == keys[..done] + [key];
    g.ReplaceItems(GroupOf(ms, key));
    forall h | h in gs
      ensures h.items == (if h.key in keys[..done + 1] then ReconciledBy(PriorItems(items, h), GroupOf(ms, h.key), ObjectOf)
                          else PriorItems(items, h))
    {
      if h != g {
        assert h.key != key;
      }
    }
    forall k | k in keys[..done + 1] ensures HasKey(gs, k) {
      if k == key {
        var p :| 0 <= p < |gs| && gs[p] == g;
      }
    }
  }

  class StockPage {
    var allMaterials: seq<Material>
    var currentFiltered: seq<Material>
    var searchText: string
    var expirySort: SortState
    var quantitySort: SortState
    var filteredTotal: int
    var groups: seq<MaterialGroup>
    const filterOptions: seq<FilterOption>

    ghost predicate Valid()
      reads this
    {
      DistinctKeys(groups)
    }

    /** The page starts empty with the five keyword filters, none active. */
    constructor ()
      ensures Valid()
      ensures allMaterials == [] && currentFiltered == [] && searchText == [] && filteredTotal == 0 && groups == []
      ensures expirySort == Default && quantitySort == Default
      ensures |filterOptions| == 5 && forall i :: 0 <= i < 5 ==> !filterOptions[i].isActive
      ensures filterOptions[0].keywords == LeadKeywords && filterOptions[1].keywords == SheathKeywords
      ensures filterOptions[2].keywords == PacemakerKeywords && filterOptions[3].keywords == IcdKeywords
      ensures filterOptions[4].keywords == CrtKeywords
    {
      allMaterials, currentFiltered, searchText, filteredTotal, groups := [], [], [], 0, [];
      expirySort, quantitySort := Default, Default;
      var lead := new FilterOption("Lead", LeadKeywords);
      var sheath := new FilterOption("Sheath", SheathKeywords);
      var pacemaker := new FilterOption("Pacemaker", PacemakerKeywords);
      var icd := new FilterOption("ICD", IcdKeywords);
      var crt := new FilterOption("CRT", CrtKeywords);
      filterOptions := [lead, sheath, pacemaker, icd, crt];
    }

    /** What RefreshGroupedMaterials shows: the filtered and sorted list. */
    function Displayed(): seq<Material>
      reads this`allMaterials, this`searchText, this`expirySort, this`quantitySort, set f | f in filterOptions
    {
      SortMaterials(Filtered(allMaterials, searchText, ActiveKeywords(filterOptions)), expirySort, quantitySort)
    }

    /** The backward loop removing every group whose key no longer occurs. */
    method PruneGroups(keys: seq<string>)
      modifies this`groups
      ensures groups == KeepGroups(old(groups), keys)
    {
      ghost var start := groups;
      var i := |groups|;
      while i > 0
        invariant 0 <= i <= |start|
        invariant groups == start[..i] + KeepGroups(start[i..], keys)
      {
        i := i - 1;
        assert start[i..][1..] == start[i + 1..];
        assert groups[i] == start[i];
        if groups[i].key !in keys {
          groups := groups[..i] + groups[i + 1..];
        }
        assert start[..i + 1] == start[..i] + [start[i]];
      }
    }

    /** The loop over GroupBy's groups: the group of each key is found, or
        created (expanded) and appended, and its items replaced. `items` and
        `expanded` are the state of the groups before the refresh. */
    method FillGroups(ms: seq<Material>, keys: seq<string>,
                      ghost items: map<MaterialGroup, seq<Material>>, ghost expanded: map<MaterialGroup, bool>)
      requires DistinctKeys(groups) && NoDuplicates(keys)
      requires forall j :: 0 <= j < |groups| ==> groups[j].key in keys
      requires forall g :: g in groups ==> g in items && g.items == items[g] && g in expanded && g.isExpanded == expanded[g]
      modifies this`groups, set g | g in groups
      ensures DistinctKeys(groups)
      ensures old(groups) <= groups
      ensures forall g :: g in groups ==> g in old(groups) || fresh(g)
      ensures forall j :: 0 <= j < |groups| ==> groups[j].key in keys
      ensures forall k :: k in keys ==> HasKey(groups, k)
      ensures Regrouped(groups, ms, items, expanded)
    {
      var gs := groups;
      ghost var start := groups;
      var i := 0;
      while i < |keys|
        invariant 0 <= i <= |keys|
        invariant Filling(gs, start, ms, keys, i, items, expanded)
        invariant forall g :: g in gs ==> g in start || fresh(g)
      {
        var g;
        gs, g := FindOrAddGroup(gs, start, ms, keys, i, items, expanded);
        ReplaceGroupItems(gs, g, start, ms, keys, i, items, expanded);
        i := i + 1;
      }
      assert keys[..i] == keys;
      groups := gs;
    }

    /** The Move loop over the page's groups. */
    method OrderGroups()
      requires DistinctKeys(groups)
      modifies this`groups
      ensures groups == SortGroups(old(groups))
    {
      groups := ArrangeGroups(groups);
    }

    /** The first two steps of the regrouping: groups whose key is gone are
        removed, then every key's group is found or added and refilled. */
    method PruneAndFill(ms: seq<Material>, keys: seq<string>,
                        ghost items: map<MaterialGroup, seq<Material>>, ghost expanded: map<MaterialGroup, bool>)
      requires DistinctKeys(groups) && keys == GroupKeys(ms) && NoDuplicates(keys)
      requires items == ItemsMap(groups) && expanded == ExpandedMap(groups)
      modifies this`groups, set g | g in groups
      ensures DistinctKeys(groups)
      ensures forall g :: g in groups ==> g in old(groups) || fresh(g)
      ensures forall g :: g in old(groups) ==> (g in groups <==> g.key in keys)
      ensures forall j :: 0 <= j < |groups| ==> groups[j].key in keys
      ensures forall k :: k in keys ==> HasKey(groups, k)
      ensures Regrouped(groups, ms, items, expanded)
    {
      KeepGroupsFacts(groups, keys);
      ghost var before := groups;
      PruneGroups(keys);
      PrunedState(groups, before, keys, items, expanded);
      ghost var pruned := groups;
      FillGroups(ms, keys, items, expanded);
      forall g | g in before && g.key in keys ensures g in groups {
        var p :| 0 <= p < |before| && before[p] == g;
        assert g in pruned;
      }
    }

    /** The grouping half of RefreshGroupedMaterials. */
    method Regroup(ms: seq<Material>)
      requires Valid()
      modifies this`groups, set g | g in groups
      ensures Valid() && GroupsShow(groups, ms)
      ensures forall g :: g in groups ==> g in old(groups) || fresh(g)
      ensures forall g :: g in old(groups) ==> (g in groups <==> g.key in GroupKeys(ms))
      ensures Regrouped(groups, ms, old(ItemsMap(groups)), old(ExpandedMap(groups)))
    {
      ghost var items, expanded := ItemsMap(groups), ExpandedMap(groups);
      var keys := GroupKeys(ms);
      GroupKeysMeaning(ms);
      PruneAndFill(ms, keys, items, expanded);
      ghost var filled := groups;
      OrderGroups();
      SortGroupsOrdered(filled);
      PermutedDistinctKeys(filled, groups);
      GroupsPermuted(filled, groups);
      GroupsAfterFill(filled, groups, ms, items, expanded);
    }

    /** RefreshGroupedMaterials: the list shown, its total and its groups. */
    method Refresh()
      requires Valid()
      modifies this`currentFiltered, this`filteredTotal, this`groups, set g | g in groups
      ensures Valid() && GroupsShow(groups, currentFiltered)
      ensures currentFiltered == Displayed()
      ensures filteredTotal == SumQuantities(currentFiltered)
      ensures forall g :: g in groups ==> g in old(groups) || fresh(g)
      ensures Regrouped(groups, currentFiltered, old(ItemsMap(groups)), old(ExpandedMap(groups)))
    {
      ghost var items, expanded := ItemsMap(groups), ExpandedMap(groups);
      ShowFiltered();
      assert ItemsMap(groups) == items && ExpandedMap(groups) == expanded;
      Regroup(currentFiltered);
    }

    /** The searched, filtered and sorted list and its total. */
    method ShowFiltered()
      modifies this`currentFiltered, this`filteredTotal
      ensures currentFiltered == Displayed()
      ensures filteredTotal == SumQuantities(currentFiltered)
    {
      var query := Filtered(allMaterials, searchText, ActiveKeywords(filterOptions));
      var shown := SortMaterials(query, expirySort, quantitySort);
      currentFiltered := shown;
      filteredTotal := SumQuantities(shown);
    }

    /** OnToggleGroupClicked. */
    method ToggleGroup(g: MaterialGroup)
      requires g in groups
      modifies g`isExpanded
      ensures g.isExpanded == !old(g.isExpanded)
    {
      g.SetExpanded(!g.isExpanded);
    }

    /** OnSearchTextChanged: a null text counts as empty. */
    method SetSearchText(text: Option<string>)
      requires Valid()
      modifies this`searchText, this`currentFiltered, this`filteredTotal, this`groups, set g | g in groups
      ensures Valid() && GroupsShow(groups, currentFiltered)
      ensures searchText == text.GetOr([])
      ensures currentFiltered == Displayed() && filteredTotal == SumQuantities(currentFiltered)
    {
      searchText := text.GetOr([]);
      Refresh();
    }

    /** OnFilterClicked: every filter is switched off, then the clicked one is
        switched on unless it was on already. */
    method ClickFilter(option: FilterOption)
      requires Valid() && option in filterOptions
      modifies set f | f in filterOptions, this`currentFiltered, this`filteredTotal, this`groups, set g | g in groups
      ensures Valid() && GroupsShow(groups, currentFiltered)
      ensures option.isActive == !old(option.isActive)
      ensures forall i :: 0 <= i < |filterOptions| && filterOptions[i] != option ==> !filterOptions[i].isActive
      ensures forall i, j :: 0 <= i < j < |filterOptions| && filterOptions[i].isActive && filterOptions[j].isActive
                             ==> filterOptions[i] == filterOptions[j]
      ensures currentFiltered == Displayed() && filteredTotal == SumQuantities(currentFiltered)
    {
      var activate := !option.isActive;
      var i := 0;
      while i < |filterOptions|
        invariant 0 <= i <= |filterOptions|
        invariant groups == old(groups)
        invariant forall j :: 0 <= j < i ==> !filterOptions[j].isActive
      {
        filterOptions[i].SetActive(false);
        i := i + 1;
      }
      option.SetActive(activate);
      Refresh();
    }

    method ClickExpirySort()
      requires Valid()
      modifies this`expirySort, this`currentFiltered, this`filteredTotal, this`groups, set g | g in groups
      ensures Valid() && GroupsShow(groups, currentFiltered)
      ensures expirySort == CycleSortState(old(expirySort))
      ensures currentFiltered == Displayed() && filteredTotal == SumQuantities(currentFiltered)
    {
      expirySort := CycleSortState(expirySort);
      Refresh();
    }

    method ClickQuantitySort()
      requires Valid()
      modifies this`quantitySort, this`currentFiltered, this`filteredTotal, this`groups, set g | g in groups
      ensures Valid() && GroupsShow(groups, currentFiltered)
      ensures quantitySort == CycleSortState(old(quantitySort))
      ensures currentFiltered == Displayed() && filteredTotal == SumQuantities(currentFiltered)
    {
      quantitySort := CycleSortState(quantitySort);
      Refresh();
    }

    /** OnDeleteMaterial, once confirmed: the row is deleted from the store
        (no history entry records it) and the first equal entry from the list. */
    method DeleteMaterial(store: Store, m: Material)
      requires Valid() && store.Valid()
      modifies store`materials, this`allMaterials, this`currentFiltered, this`filteredTotal, this`groups, set g | g in groups
      ensures Valid() && GroupsShow(groups, currentFiltered)
      ensures store.Valid() && store.materials == old(store.materials) - {m.id}
      ensures allMaterials == RemoveFirst(old(allMaterials), m)
      ensures currentFiltered == Displayed() && filteredTotal == SumQuantities(currentFiltered)
    {
      store.DeleteMaterial(m);
      allMaterials := RemoveFirst(allMaterials, m);
      Refresh();
    }

    /** OnEditMaterial on the listed material at position `k`, given the
        answers to its prompts (None for a cancelled prompt). */
    method EditMaterial(store: Store, k: nat, newName: Option<string>, quantityText: Option<string>,
                        owner: Option<string>, confirm: bool, now: Time) returns (outcome: EditOutcome)
      requires Valid() && store.Valid() && k < |allMaterials|
      modifies store`materials, store`nextId, this`allMaterials, this`currentFiltered, this`filteredTotal,
               this`groups, set g | g in groups
      ensures Valid() && store.Valid()
      ensures outcome.Edited? <==> EditOf(old(allMaterials)[k], newName, quantityText, owner, confirm, now).Edited?
      ensures !outcome.Edited? ==>
                outcome == EditOf(old(allMaterials)[k], newName, quantityText, owner, confirm, now)
                && allMaterials == old(allMaterials) && store.materials == old(store.materials)
                && store.nextId == old(store.nextId)
                && groups == old(groups) && ItemsMap(groups) == old(ItemsMap(groups))
      ensures outcome.Edited? ==>
                var edited := EditOf(old(allMaterials)[k], newName, quantityText, owner, confirm, now).material;
                outcome.material == Stamped(old(store.materials), edited, now)
                && store.materials == old(store.materials)[edited.id := outcome.material]
                && allMaterials == old(allMaterials)[k := outcome.material]
                && currentFiltered == Displayed() && filteredTotal == SumQuantities(currentFiltered)
                && GroupsShow(groups, currentFiltered)
                && Regrouped(groups, currentFiltered, old(ItemsMap(groups)), old(ExpandedMap(groups)))
    {
      var material := allMaterials[k];
      if IsBlankOpt(newName) {
        return NotEdited;
      }
      var newQuantity := ParseInt(quantityText);
      if newQuantity.None? || newQuantity.value < 0 {
        return InvalidQuantity;
      }
      var newOwner := owner.GetOr(material.ownerUser);
      if !confirm {
        return NotEdited;
      }
      material := material.(name := Trim(newName.value), quantity := newQuantity.value, ownerUser := newOwner, updatedAt := now);
      var stored := SaveEdit(store, k, material, now);
      outcome := Edited(stored);
    }

    /** The accepted half of OnEditMaterial: the edited material is saved,
        replaces the listed one and the page is refreshed. */
    method SaveEdit(store: Store, k: nat, material: Material, now: Time) returns (stored: Material)
      requires Valid() && store.Valid() && k < |allMaterials|
      modifies store`materials, store`nextId, this`allMaterials, this`currentFiltered, this`filteredTotal,
               this`groups, set g | g in groups
      ensures Valid() && store.Valid()
      ensures stored == Stamped(old(store.materials), material, now)
      ensures store.materials == old(store.materials)[material.id := stored]
      ensures allMaterials == old(allMaterials)[k := stored]
      ensures currentFiltered == Displayed() && filteredTotal == SumQuantities(currentFiltered)
      ensures GroupsShow(groups, currentFiltered)
      ensures Regrouped(groups, currentFiltered, old(ItemsMap(groups)), old(ExpandedMap(groups)))
    {
      ghost var items, expanded := ItemsMap(groups), ExpandedMap(groups);
      stored := store.SaveMaterial(material, now);
      allMaterials := allMaterials[k := stored];
      assert ItemsMap(groups) == items && ExpandedMap(groups) == expanded;
      Refresh();
    }

    /** OnImportExcel's loop over the imported materials; the names of those
        skipped as duplicates are returned for the message. */
    method ImportMaterials(store: Store, imported: seq<Material>, currentUser: Option<string>, now: Time)
      returns (duplicates: seq<string>)
      requires Valid() && store.Valid()
      modifies store`materials, store`nextId, this`allMaterials, this`currentFiltered, this`filteredTotal,
               this`groups, set g | g in groups
      ensures Valid() && store.Valid() && GroupsShow(groups, currentFiltered)
      ensures ImportState(allMaterials, store.materials, duplicates)
              == ImportBatch(ImportState(old(allMaterials), old(store.materials), []), imported, currentUser, now)
      ensures currentFiltered == Displayed() && filteredTotal == SumQuantities(currentFiltered)
    {
      duplicates := ImportAll(store, imported, currentUser, now);
      Refresh();
    }

    /** The loop over the imported materials. */
    method ImportAll(store: Store, imported: seq<Material>, currentUser: Option<string>, now: Time)
      returns (duplicates: seq<string>)
      requires store.Valid()
      modifies store`materials, store`nextId, this`allMaterials
      ensures store.Valid()
      ensures ImportState(allMaterials, store.materials, duplicates)
              == ImportBatch(ImportState(old(allMaterials), old(store.materials), []), imported, currentUser, now)
    {
      ghost var start := ImportState(allMaterials, store.materials, []);
      duplicates := [];
      var i := 0;
      while i < |imported|
        invariant 0 <= i <= |imported|
        invariant store.Valid()
        invariant ImportState(allMaterials, store.materials, duplicates) == ImportBatch(start, imported[..i], currentUser, now)
      {
        assert imported[..i + 1][..i] == imported[..i];
        duplicates := ImportOne(store, imported[i], currentUser, now, duplicates);
        i := i + 1;
      }
      assert imported[..i] == imported;
    }

    /** One pass of the import loop: a blank owner is filled in, then the
        material is reported as a duplicate or saved and listed. */
    method ImportOne(store: Store, material: Material, currentUser: Option<string>, now: Time, duplicates: seq<string>)
      returns (reported: seq<string>)
      requires store.Valid()
      modifies store`materials, store`nextId, this`allMaterials
      ensures store.Valid()
      ensures ImportState(allMaterials, store.materials, reported)
              == ImportStep(ImportState(old(allMaterials), old(store.materials), duplicates), material, currentUser, now)
    {
      var owned := if IsBlank(material.ownerUser) then material.(ownerUser := currentUser.GetOr(Depot)) else material;
      reported := duplicates;
      if IsDuplicate(allMaterials, owned) {
        reported := duplicates + [owned.name];
      } else {
        var stored := store.SaveMaterial(owned, now);
        allMaterials := allMaterials + [stored];
      }
    }
  }

  /** The Move loop: each group in turn is moved to its place in the
      ordered list. */
  method ArrangeGroups(groups: seq<MaterialGroup>) returns (arranged: seq<MaterialGroup>)
    requires DistinctKeys(groups)
    ensures arranged == SortGroups(groups)
  {
    var ordered := SortGroups(groups);
    PermutedDistinctKeys(groups, ordered);
    DistinctKeysDistinct(ordered);
    var gs := groups;
    var index := 0;
    while index < |ordered|
      invariant 0 <= index <= |ordered|
      invariant |gs| == |ordered| && multiset(gs) == multiset(ordered)
      invariant forall j :: 0 <= j < index ==> gs[j] == ordered[j]
    {
      var desired := ordered[index];
      assert desired in multiset(gs);
      var currentIndex := IndexOf(gs, desired);
      forall j | 0 <= j < index ensures gs[j] != desired {
        assert gs[j] == ordered[j];
      }
      ghost var prev := gs;
      if currentIndex != index {
        gs := MoveBack(gs, currentIndex, index);
      }
      assert gs[index] == ordered[index];
      forall j | 0 <= j < index ensures gs[j] == ordered[j] {
        assert gs[j] == prev[j];
      }
      index := index + 1;
    }
    arranged := gs;
  }

  /** After pruning, the groups are groups from before, with their items and
      expansion state as recorded. */
  lemma {:induction false} PrunedState(gs: seq<MaterialGroup>, before: seq<MaterialGroup>, keys: seq<string>,
                    items: map<MaterialGroup, seq<Material>>, expanded: map<MaterialGroup, bool>)
    requires gs == KeepGroups(before, keys)
    requires items == ItemsMap(before) && expanded == ExpandedMap(before)
    requires forall i :: 0 <= i < |gs| ==> gs[i] in before && gs[i].key in keys
    ensures forall j :: 0 <= j < |gs| ==> gs[j].key in keys
    ensures forall g :: g in gs ==> g in items && g.items == items[g] && g in expanded && g.isExpanded == expanded[g]
  {
    forall g | g in gs ensures g in items && g.items == items[g] && g in expanded && g.isExpanded == expanded[g] {
      var p :| 0 <= p < |gs| && gs[p] == g;
      assert g in before;
    }
  }

  /** The ordered groups show the list: one group per key, ordered, each
      with the members of its key. */
  lemma {:induction false} GroupsAfterFill(filled: seq<MaterialGroup>, gs: seq<MaterialGroup>, ms: seq<Material>,
                        items: map<MaterialGroup, seq<Material>>, expanded: map<MaterialGroup, bool>)
    requires forall g :: g in filled <==> g in gs
    requires GroupsOrdered(gs) && DistinctKeys(gs)
    requires forall j :: 0 <= j < |filled| ==> filled[j].key in GroupKeys(ms)
    requires forall k :: k in GroupKeys(ms) ==> HasKey(filled, k)
    requires Regrouped(filled, ms, items, expanded)
    ensures GroupsShow(gs, ms) && Regrouped(gs, ms, items, expanded)
  {
    forall k | k in GroupKeys(ms) ensures HasKey(gs, k) {
      var j :| 0 <= j < |filled| && filled[j].key == k;
      assert filled[j] in gs;
    }
    forall i | 0 <= i < |gs| ensures gs[i].key in GroupKeys(ms) {
      assert gs[i] in filled;
    }
    forall i, x | 0 <= i < |gs| && x in gs[i].items ensures x in GroupOf(ms, gs[i].key) {
      assert gs[i] in filled;
      ReconciledByMembers(PriorItems(items, gs[i]), GroupOf(ms, gs[i].key), ObjectOf);
    }
    forall i, x | 0 <= i < |gs| && x in GroupOf(ms, gs[i].key) ensures ObjectOf(x) in KeyList(gs[i].items, ObjectOf) {
      assert gs[i] in filled;
      KeyListIn(GroupOf(ms, gs[i].key), x, ObjectOf);
      ReconciledByKey(PriorItems(items, gs[i]), GroupOf(ms, gs[i].key), ObjectOf, ObjectOf(x));
    }
  }

  /** Permuted groups are the same groups. */
  lemma {:induction false} GroupsPermuted(a: seq<MaterialGroup>, b: seq<MaterialGroup>)
    requires multiset(a) == multiset(b)
    ensures forall g :: g in a <==> g in b
  {
    forall g ensures g in a <==> g in b {
      assert g in a <==> g in multiset(a);
      assert g in b <==> g in multiset(b);
    }
  }

  /** When every group shows each material at most once and the list holds
      no material twice, each group holds exactly the listed materials of its
      key. */
  lemma {:induction false} GroupsShowExactly(groups: seq<MaterialGroup>, ms: seq<Material>)
    requires GroupsShow(groups, ms) && NoDuplicates(KeyList(ms, ObjectOf))
    ensures forall i, x :: 0 <= i < |groups| ==> (x in groups[i].items <==> x in GroupOf(ms, groups[i].key))
  {
    forall i, x | 0 <= i < |groups| && x in GroupOf(ms, groups[i].key) ensures x in groups[i].items {
      var items, group := groups[i].items, GroupOf(ms, groups[i].key);
      assert ObjectOf(x) in KeyList(items, ObjectOf);
      var y := Lookup(items, ObjectOf(x), ObjectOf);
      assert y in group;
      InGroupInList(ms, groups[i].key, x);
      InGroupInList(ms, groups[i].key, y);
      KeyDetermines(ms, y, x, ObjectOf);
    }
  }

  lemma InGroupInList(ms: seq<Material>, key: string, x: Material)
    requires x in GroupOf(ms, key)
    ensures x in ms
  {
    GroupOfMembers(ms, key);
    assert multiset(GroupOf(ms, key))[x] > 0;
  }

  /** A refresh that lists exactly the objects a group already holds (after
      a sort click, or after an edit that keeps a material under its key)
      leaves the group's order as it was, each item showing its current
      record. */
  lemma {:induction false} RefreshKeepsGroupOrder(items: seq<Material>, desired: seq<Material>)
    requires forall k :: k in KeyList(desired, ObjectOf) ==> k in KeyList(items, ObjectOf)
    requires forall i :: 0 <= i < |items| ==> ObjectOf(items[i]) in KeyList(desired, ObjectOf)
    ensures |ReconciledBy(items, desired, ObjectOf)| == |items|
    ensures forall i :: 0 <= i < |items| ==>
              ReconciledBy(items, desired, ObjectOf)[i] == Lookup(desired, ObjectOf(items[i]), ObjectOf)
  {
    ReconciledByRefresh(items, desired, ObjectOf);
    KeptByAll(items, desired, ObjectOf);
  }

  /** The edit in the stock page's own terms: a group shows [m1, m2], the
      user edits m1, and the refresh lists the new record of m1 after m2;
      the group then shows the edited m1 first, where it was. */
  lemma {:induction false} EditKeepsPlace(m1: Material, m2: Material, edited: Material)
    requires m1.id != m2.id && edited.id == m1.id
    ensures ReconciledBy([m1, m2], [m2, edited], ObjectOf) == [edited, m2]
  {
    var items, desired := [m1, m2], [m2, edited];
    assert KeyList(desired, ObjectOf) == [m2.id, m1.id];
    assert KeyList(items, ObjectOf) == [m1.id, m2.id];
    RefreshKeepsGroupOrder(items, desired);
    var r := ReconciledBy(items, desired, ObjectOf);
    assert Lookup(desired, ObjectOf(m1), ObjectOf) == edited by {
      assert desired[1..] == [edited];
    }
    assert r == [r[0], r[1]];
  }

  /** A sort click does not reorder a group that stays: ReplaceItems keeps
      the materials already in it where they are. */
  lemma {:induction false} ResortKeepsGroupOrder(a: Material, b: Material, e: SortState, q: SortState)
    requires MaterialCmp(b, a, e, q) < 0 && a.id != b.id
    ensures SortMaterials([a, b], e, q) == [b, a]
    ensures ReconciledBy([a, b], SortMaterials([a, b], e, q), ObjectOf) == [a, b]
  {
    assert [a, b][..1] == [a];
    assert [a][..0] == [];
    MaterialCmpConsistent(a, b, a, e, q);
    assert InsertSorted(b, [a], e, q) == [b, a];
    EditKeepsPlace(a, b, a);
  }

  /** The total shown is the sum of the quantities of the materials that pass
      the search and the filter. */
  lemma {:induction false} DisplayedTotal(all: seq<Material>, searchText: string, active: Option<seq<string>>, e: SortState, q: SortState)
    ensures SumQuantities(SortMaterials(Filtered(all, searchText, active), e, q))
            == SumQuantities(Filtered(all, searchText, active))
  {
    SortedTotal(Filtered(all, searchText, active), e, q);
  }
}
