/**
 * The groups the stock and device-count pages display: a letter group of
 * materials, a filter chip, and the two-level device category / model
 * grouping. Each holds its members in a collection that is reconciled in
 * place when the page refreshes.
 */
module Groups {
  import opened Models
  import opened Collections

  // ---------------------------------------------------------------------------
  // Quantities
  // ---------------------------------------------------------------------------

  /** Items.Sum(m => m.Quantity). */
  function SumQuantities(ms: seq<Material>): int
  {
    if ms == [] then 0 else ms[0].quantity + SumQuantities(ms[1..])
  }

  lemma {:induction false} SumAppend(a: seq<Material>, b: seq<Material>)
    ensures SumQuantities(a + b) == SumQuantities(a) + SumQuantities(b)
  {
    if a != [] {
      assert (a + b)[1..] == a[1..] + b;
      SumAppend(a[1..], b);
    } else {
      assert a + b == b;
    }
  }

  /** Taking one material out of a sequence takes its quantity off the sum. */
  lemma {:induction false} SumRemoveAt(b: seq<Material>, p: nat)
    requires p < |b|
    ensures SumQuantities(b) == b[p].quantity + SumQuantities(b[..p] + b[p + 1..])
  {
    var tail := [b[p]] + b[p + 1..];
    assert b == b[..p] + tail;
    SumAppend(b[..p], tail);
    SumAppend(b[..p], b[p + 1..]);
    assert tail[1..] == b[p + 1..];
  }

  lemma {:induction false} MultisetRemoveAt<T>(b: seq<T>, p: nat)
    requires p < |b|
    ensures multiset(b[..p] + b[p + 1..]) == multiset(b) - multiset{b[p]}
  {
    assert b == b[..p] + [b[p]] + b[p + 1..];
  }

  /** The sum does not depend on the order of the materials. */
  lemma {:induction false} SumPermutation(a: seq<Material>, b: seq<Material>)
    requires multiset(a) == multiset(b)
    ensures SumQuantities(a) == SumQuantities(b)
    decreases |a|
  {
    if a != [] {
      assert a[0] in multiset(b);
      var p :| 0 <= p < |b| && b[p] == a[0];
      MultisetRemoveAt(b, p);
      assert a == [a[0]] + a[1..];
      assert multiset(a[1..]) == multiset(a) - multiset{a[0]};
      SumPermutation(a[1..], b[..p] + b[p + 1..]);
      SumRemoveAt(b, p);
    } else {
      assert |b| == |multiset(b)|;
    }
  }

  /** In a sequence without repetition each element occurs once. */
  lemma {:induction false} DistinctMultiplicity<T>(s: seq<T>, x: T)
    requires NoDuplicates(s)
    ensures multiset(s)[x] == if x in s then 1 else 0
  {
    if s != [] {
      assert s == [s[0]] + s[1..];
      assert NoDuplicates(s[1..]) by {
        forall i, j | 0 <= i < j < |s[1..]| ensures s[1..][i] != s[1..][j] {
          assert s[1..][i] == s[i + 1] && s[1..][j] == s[j + 1];
        }
      }
      DistinctMultiplicity(s[1..], x);
      assert s[0] !in s[1..] by {
        forall i | 0 <= i < |s[1..]| ensures s[1..][i] != s[0] { assert s[1..][i] == s[i + 1]; }
      }
    }
  }

  /** Two repetition-free sequences with the same members are permutations. */
  lemma {:induction false} SameMembersPermutation<T>(a: seq<T>, b: seq<T>)
    requires NoDuplicates(a) && NoDuplicates(b)
    requires forall x :: x in a <==> x in b
    ensures multiset(a) == multiset(b)
  {
    forall x ensures multiset(a)[x] == multiset(b)[x] {
      DistinctMultiplicity(a, x);
      DistinctMultiplicity(b, x);
    }
  }

  // ---------------------------------------------------------------------------
  // MaterialGroup and FilterOption
  // ---------------------------------------------------------------------------

  /** The materials under one group key on the stock page. */
  class MaterialGroup {
    const key: string
    var items: seq<Material>
    var isExpanded: bool

    constructor (key: string)
      ensures this.key == key && items == [] && isExpanded
    {
      this.key := key;
      items := [];
      isExpanded := true;
    }

    /** The items when expanded, none when collapsed. */
    function VisibleItems(): (r: seq<Material>)
      reads this
      ensures r == [] <==> !isExpanded || items == []
      ensures isExpanded ==> r == items
    {
      if isExpanded then items else []
    }

    function TotalQuantity(): int
      reads this
    {
      SumQuantities(items)
    }

    method SetExpanded(value: bool)
      modifies this`isExpanded
      ensures isExpanded == value
    {
      if isExpanded != value {
        isExpanded := value;
      }
    }

    /** ReplaceItems: the items are reconciled with the desired materials,
        objects compared by identity. */
    method ReplaceItems(desired: seq<Material>)
      modifies this`items
      ensures items == ReconciledBy(old(items), desired, ObjectOf)
    {
      items := ReconcileBy(items, desired, ObjectOf);
    }
  }

  /** The object a material record belongs to. The stock page reads its
      materials once and then changes them in place, and every material
      object has its own identifier, so the identifier stands for the object. */
  function ObjectOf(m: Material): Id
  {
    m.id
  }

  /** Elements with distinct identifiers are distinct. */
  lemma {:induction false} DistinctObjects(s: seq<Material>)
    requires NoDuplicates(KeyList(s, ObjectOf))
    ensures NoDuplicates(s)
  {
    forall i, j | 0 <= i < j < |s| ensures s[i] != s[j] {
      assert KeyList(s, ObjectOf)[i] != KeyList(s, ObjectOf)[j];
    }
  }

  /** After reconciling a group with a list, neither holding an object
      twice, the group total is the list's total. */
  lemma {:induction false} ReplacedTotal(items: seq<Material>, desired: seq<Material>)
    requires NoDuplicates(KeyList(items, ObjectOf)) && NoDuplicates(KeyList(desired, ObjectOf))
    ensures SumQuantities(ReconciledBy(items, desired, ObjectOf)) == SumQuantities(desired)
  {
    var r := ReconciledBy(items, desired, ObjectOf);
    ReconciledByExact(items, desired, ObjectOf);
    ReconciledByDistinct(items, desired, ObjectOf);
    DistinctObjects(r);
    DistinctObjects(desired);
    SameMembersPermutation(r, desired);
    SumPermutation(r, desired);
  }

  /** A filter chip: a title, the keywords it matches, and whether it is on. */
  class FilterOption {
    const title: string
    const keywords: seq<string>
    var isActive: bool

    constructor (title: string, keywords: seq<string>)
      ensures this.title == title && this.keywords == keywords && !isActive
    {
      this.title := title;
      this.keywords := keywords;
      isActive := false;
    }

    /** The IsActive setter: storing the current value leaves the chip as it was. */
    method SetActive(value: bool)
      modifies this`isActive
      ensures isActive == value
      ensures old(isActive) == value ==> unchanged(this)
    {
      if isActive != value {
        isActive := value;
      }
    }
  }

  // ---------------------------------------------------------------------------
  // Device categories and models
  // ---------------------------------------------------------------------------

  /** The materials of one device model (one name, compared case-insensitively). */
  class DeviceModelGroup {
    const modelName: string
    var items: seq<Material>
    var isExpanded: bool

    constructor (modelName: string)
      ensures this.modelName == modelName && items == [] && !isExpanded
    {
      this.modelName := modelName;
      items := [];
      isExpanded := false;
    }

    function VisibleItems(): (r: seq<Material>)
      reads this
      ensures r == [] <==> !isExpanded || items == []
      ensures isExpanded ==> r == items
    {
      if isExpanded then items else []
    }

    function TotalQuantity(): int
      reads this
    {
      SumQuantities(items)
    }

    method SetExpanded(value: bool)
      modifies this`isExpanded
      ensures isExpanded == value
    {
      if isExpanded != value {
        isExpanded := value;
      }
    }

    /** ReplaceItems, as the device-count page calls it: with rows of a
        listing it has just read. Those are new objects, so none of them is
        among the items and no two are the same object: the backward loop
        removes every item and the forward loop appends every row. */
    method ReplaceItems(desired: seq<Material>)
      modifies this`items
      ensures items == desired
    {
      var synced := ReconcileBy(LoadedRows(items, 0), LoadedRows(desired, 1), Identity);
      ReloadReplaces(items, desired);
      items := Records(synced);
    }
  }

  /** The sum of the models' totals. */
  function SumModelTotals(ms: seq<DeviceModelGroup>): int
    reads set m | m in ms
  {
    if ms == [] then 0 else ms[0].TotalQuantity() + SumModelTotals(ms[1..])
  }

  /** A device category (Pacemaker, ICD, CRT) and its models. */
  class DeviceCategoryGroup {
    const title: string
    var models: seq<DeviceModelGroup>
    var isExpanded: bool

    constructor (title: string)
      ensures this.title == title && models == [] && !isExpanded
    {
      this.title := title;
      models := [];
      isExpanded := false;
    }

    function VisibleModels(): (r: seq<DeviceModelGroup>)
      reads this
      ensures r == [] <==> !isExpanded || models == []
      ensures isExpanded ==> r == models
    {
      if isExpanded then models else []
    }

    function TotalQuantity(): int
      reads this, set m | m in models
    {
      SumModelTotals(models)
    }

    method SetExpanded(value: bool)
      modifies this`isExpanded
      ensures isExpanded == value
    {
      if isExpanded != value {
        isExpanded := value;
      }
    }

    method ReplaceModels(desired: seq<DeviceModelGroup>)
      modifies this`models
      ensures models == Reconciled(old(models), desired)
    {
      models := Reconcile(models, desired);
    }
  }
}
