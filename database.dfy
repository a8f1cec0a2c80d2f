/**
 * The local store (DatabaseService): one table per record type, each keyed by
 * the record's identifier, with find-then-insert-or-update saves, deletes by
 * key and the ordered listings the pages read.
 */
module Database {
  import opened Wrappers
  import opened Text
  import opened Models
  import opened Ordering

  // ---------------------------------------------------------------------------
  // Listings (the ORDER BY of each Get*Async)
  // ---------------------------------------------------------------------------

  /** The rows named by `ids`, in that order. */
  function Rows<T>(rows: map<Id, T>, ids: seq<Id>): (r: seq<T>)
    requires forall i :: 0 <= i < |ids| ==> ids[i] in rows
    ensures |r| == |ids|
    ensures forall i :: 0 <= i < |ids| ==> r[i] == rows[ids[i]]
  {
    seq(|ids|, i requires 0 <= i < |ids| => rows[ids[i]])
  }

  function KeysOf<T>(rows: map<Id, T>, key: T -> SortKey): map<Id, SortKey>
  {
    map k | k in rows :: key(rows[k])
  }

  /** The rows of a table listed by a sort key computed from each row. */
  function Listing<T>(rows: map<Id, T>, key: T -> SortKey): seq<T>
  {
    var ids := Ordered(KeysOf(rows, key));
    assert forall i :: 0 <= i < |ids| ==> ids[i] in rows by {
      forall i | 0 <= i < |ids| ensures ids[i] in rows { assert ids[i] in ids; }
    }
    Rows(rows, ids)
  }

  /** A listing holds every row of the table once, and nothing else. */
  lemma {:induction false} ListingRows<T>(rows: map<Id, T>, key: T -> SortKey)
    ensures |Listing(rows, key)| == |rows|
    ensures forall k :: k in rows ==> rows[k] in Listing(rows, key)
    ensures forall i :: 0 <= i < |Listing(rows, key)| ==> Listing(rows, key)[i] in rows.Values
  {
    var keys := KeysOf(rows, key);
    OrderedLength(keys);
    KeysOfSize(rows, key);
    ListingCovers(rows, key);
    ListingWithin(rows, key);
  }

  lemma {:induction false} KeysOfSize<T>(rows: map<Id, T>, key: T -> SortKey)
    ensures |KeysOf(rows, key)| == |rows|
  {
    var keys := KeysOf(rows, key);
    assert keys.Keys == rows.Keys;
    assert |keys| == |keys.Keys| && |rows| == |rows.Keys|;
  }

  lemma {:induction false} ListingCovers<T>(rows: map<Id, T>, key: T -> SortKey)
    ensures forall k :: k in rows ==> rows[k] in Listing(rows, key)
  {
    var ids := Ordered(KeysOf(rows, key));
    var r := Listing(rows, key);
    forall k | k in rows ensures rows[k] in r {
      assert k in ids;
      var i :| 0 <= i < |ids| && ids[i] == k;
      assert r[i] == rows[k];
    }
  }

  lemma {:induction false} ListingWithin<T>(rows: map<Id, T>, key: T -> SortKey)
    ensures forall i :: 0 <= i < |Listing(rows, key)| ==> Listing(rows, key)[i] in rows.Values
  {
    var ids := Ordered(KeysOf(rows, key));
    var r := Listing(rows, key);
    forall i | 0 <= i < |r| ensures r[i] in rows.Values {
      assert ids[i] in ids;
      assert r[i] == rows[ids[i]];
    }
  }

  /** In a listing the keys never decrease. */
  lemma {:induction false} ListingSorted<T>(rows: map<Id, T>, key: T -> SortKey)
    ensures forall i, j :: 0 <= i < j < |Listing(rows, key)| ==>
      !StrLess(key(Listing(rows, key)[j]).text, key(Listing(rows, key)[i]).text)
      && (key(Listing(rows, key)[i]).text == key(Listing(rows, key)[j]).text
          ==> key(Listing(rows, key)[i]).num <= key(Listing(rows, key)[j]).num)
  {
    var keys := KeysOf(rows, key);
    var ids := Ordered(keys);
    var r := Listing(rows, key);
    forall i, j | 0 <= i < j < |r|
      ensures !StrLess(key(r[j]).text, key(r[i]).text)
      ensures key(r[i]).text == key(r[j]).text ==> key(r[i]).num <= key(r[j]).num
    {
      assert ids[i] in ids && ids[j] in ids;
      assert key(r[i]) == keys[ids[i]] && key(r[j]) == keys[ids[j]];
      BeforeText(keys, ids[i], ids[j]);
    }
  }

  /** GetMaterialsAsync: every material once, ordered by name. */
  function MaterialsByName(ms: map<Id, Material>): seq<Material>
  {
    Listing(ms, (m: Material) => SortKey(m.name, 0))
  }

  lemma {:induction false} MaterialsByNameSpec(ms: map<Id, Material>)
    ensures var r := MaterialsByName(ms);
            |r| == |ms|
            && (forall k :: k in ms ==> ms[k] in r)
            && (forall i :: 0 <= i < |r| ==> r[i] in ms.Values)
            && (forall i, j :: 0 <= i < j < |r| ==> !StrLess(r[j].name, r[i].name))
  {
    var key := (m: Material) => SortKey(m.name, 0);
    ListingRows(ms, key);
    ListingSorted(ms, key);
  }

  /** GetCaseRecordsAsync: every case once, newest first. */
  function CasesNewestFirst(cs: map<Id, CaseRecord>): (r: seq<CaseRecord>)
    ensures |r| == |cs|
    ensures forall k :: k in cs ==> cs[k] in r
    ensures forall i :: 0 <= i < |r| ==> r[i] in cs.Values
    ensures forall i, j :: 0 <= i < j < |r| ==> r[i].createdAt >= r[j].createdAt
  {
    var key := (c: CaseRecord) => SortKey([], -c.createdAt);
    ListingRows(cs, key);
    ListingSorted(cs, key);
    Listing(cs, key)
  }

  /** GetHistoryAsync: every history entry once, newest first. */
  function HistoryNewestFirst(hs: map<Id, HistoryItem>): (r: seq<HistoryItem>)
    ensures |r| == |hs|
    ensures forall k :: k in hs ==> hs[k] in r
    ensures forall i :: 0 <= i < |r| ==> r[i] in hs.Values
    ensures forall i, j :: 0 <= i < j < |r| ==> r[i].createdAt >= r[j].createdAt
  {
    var key := (h: HistoryItem) => SortKey([], -h.createdAt);
    ListingRows(hs, key);
    ListingSorted(hs, key);
    Listing(hs, key)
  }

  /** GetUsersAsync: every user once, ordered by user name. */
  function UsersByName(us: map<Id, User>): (r: seq<User>)
    ensures |r| == |us|
    ensures forall k :: k in us ==> us[k] in r
    ensures forall i :: 0 <= i < |r| ==> r[i] in us.Values
    ensures forall i, j :: 0 <= i < j < |r| ==> !StrLess(r[j].username, r[i].username)
  {
    var key := (u: User) => SortKey(u.username, 0);
    ListingRows(us, key);
    ListingSorted(us, key);
    Listing(us, key)
  }

  /** GetChecklistItemsAsync: every checklist item once, by order number. */
  function ChecklistByOrder(cl: map<Id, ChecklistItem>): (r: seq<ChecklistItem>)
    ensures |r| == |cl|
    ensures forall k :: k in cl ==> cl[k] in r
    ensures forall i :: 0 <= i < |r| ==> r[i] in cl.Values
    ensures forall i, j :: 0 <= i < j < |r| ==> r[i].orderNo <= r[j].orderNo
  {
    var key := (c: ChecklistItem) => SortKey([], c.orderNo);
    ListingRows(cl, key);
    ListingSorted(cl, key);
    Listing(cl, key)
  }

  function LookupsOfType(ls: map<Id, LookupValue>, t: LookupType): map<Id, LookupValue>
  {
    map k | k in ls && ls[k].kind == t :: ls[k]
  }

  lemma {:induction false} LookupsOfTypeWithin(ls: map<Id, LookupValue>, t: LookupType)
    ensures forall v :: v in LookupsOfType(ls, t).Values ==> v in ls.Values && v.kind == t
    ensures forall k :: k in ls && ls[k].kind == t ==> k in LookupsOfType(ls, t) && LookupsOfType(ls, t)[k] == ls[k]
  {
    var sub := LookupsOfType(ls, t);
    forall v | v in sub.Values ensures v in ls.Values && v.kind == t {
      var k :| k in sub && sub[k] == v;
      assert ls[k] == v;
    }
  }

  /** GetLookupValuesAsync(type): the rows of that type, each once, by value. */
  function LookupsByValue(ls: map<Id, LookupValue>, t: LookupType): seq<LookupValue>
  {
    Listing(LookupsOfType(ls, t), (e: LookupValue) => SortKey(e.value, 0))
  }

  lemma {:induction false} LookupsByValueSpec(ls: map<Id, LookupValue>, t: LookupType)
    ensures var r := LookupsByValue(ls, t);
            (forall k :: k in ls && ls[k].kind == t ==> ls[k] in r)
            && (forall i :: 0 <= i < |r| ==> r[i] in ls.Values && r[i].kind == t)
            && (forall i, j :: 0 <= i < j < |r| ==> !StrLess(r[j].value, r[i].value))
  {
    var sub := LookupsOfType(ls, t);
    var key := (e: LookupValue) => SortKey(e.value, 0);
    ListingRows(sub, key);
    ListingSorted(sub, key);
    LookupsOfTypeWithin(ls, t);
  }

  // ---------------------------------------------------------------------------
  // Upsert and delete on one table
  // ---------------------------------------------------------------------------

  /** Insert-or-replace by key: the table gains a row only when the key is new,
      and every other row is kept. */
  lemma {:induction false} UpsertCount<T>(rows: map<Id, T>, id: Id, row: T)
    ensures id in rows ==> |rows[id := row]| == |rows|
    ensures id !in rows ==> |rows[id := row]| == |rows| + 1
    ensures forall k :: k in rows && k != id ==> k in rows[id := row] && rows[id := row][k] == rows[k]
  {
    if id in rows {
      assert rows[id := row].Keys == rows.Keys;
    } else {
      assert rows[id := row].Keys == rows.Keys + {id};
    }
  }

  /** Delete by key removes exactly that row. */
  lemma {:induction false} DeleteCount<T>(rows: map<Id, T>, id: Id)
    ensures id in rows ==> |rows - {id}| == |rows| - 1
    ensures id !in rows ==> rows - {id} == rows
    ensures forall k :: k in rows - {id} <==> k in rows && k != id
  {
    if id in rows {
      assert (rows - {id}).Keys + {id} == rows.Keys;
    } else {
      assert (rows - {id}).Keys == rows.Keys;
    }
  }

  /** The identifier counter after storing a row under `id`. */
  function Bump(next: Id, id: Id): (r: Id)
    ensures r >= next && r > id
  {
    if id < next then next else id + 1
  }

  /** SaveMaterialAsync's effect: UpdatedAt is always the save time, CreatedAt
      is set only when the row is new. */
  function Stamped(ms: map<Id, Material>, m: Material, now: Time): (r: Material)
    ensures r.updatedAt == now
    ensures r.createdAt == (if m.id in ms then m.createdAt else now)
    ensures r.(createdAt := m.createdAt, updatedAt := m.updatedAt) == m
  {
    if m.id in ms then m.(updatedAt := now) else m.(updatedAt := now, createdAt := now)
  }

  /** Two lookup rows with the same type and value are the same row. */
  predicate LookupPairsUnique(ls: map<Id, LookupValue>)
  {
    forall a, b :: a in ls && b in ls && ls[a].kind == ls[b].kind && ls[a].value == ls[b].value ==> a == b
  }

  /** FindLookupValueAsync: the row with exactly this type and value. */
  function FindLookup(ls: map<Id, LookupValue>, t: LookupType, v: string): (r: Option<Id>)
    requires LookupPairsUnique(ls)
    ensures r.Some? ==> r.value in ls && ls[r.value].kind == t && ls[r.value].value == v
  {
    if exists k :: k in ls && ls[k].kind == t && ls[k].value == v then
      var k :| k in ls && ls[k].kind == t && ls[k].value == v;
      Some(k)
    else None
  }

  /** Nothing is found exactly when no row holds the pair. */
  lemma {:induction false} FindLookupNone(ls: map<Id, LookupValue>, t: LookupType, v: string)
    requires LookupPairsUnique(ls)
    ensures FindLookup(ls, t, v).None? <==> forall k :: k in ls ==> !(ls[k].kind == t && ls[k].value == v)
  {
  }

  /** SaveLookupValueAsync on a table: reuse the row of the same pair, else
      insert; an insert whose key is taken fails and changes nothing. */
  function SaveLookupTo(ls: map<Id, LookupValue>, e: LookupValue): (r: (bool, map<Id, LookupValue>))
    requires LookupPairsUnique(ls)
    ensures LookupPairsUnique(r.1)
  {
    match FindLookup(ls, e.kind, e.value)
    case Some(k) => (true, ls[k := e.(id := k)])
    case None =>
      if e.id in ls then (false, ls)
      else
        FindLookupNone(ls, e.kind, e.value);
        (true, ls[e.id := e])
  }

  /** A save leaves one row with the pair and at most one more row than
      before, none more when the pair was stored; it fails only for a new
      pair whose key is taken, and then changes nothing. */
  lemma {:induction false} SaveLookupToSpec(ls: map<Id, LookupValue>, e: LookupValue)
    requires LookupPairsUnique(ls)
    ensures var r := SaveLookupTo(ls, e);
            (r.0 ==> exists k :: k in r.1 && r.1[k].kind == e.kind && r.1[k].value == e.value)
            && (r.0 ==> |r.1| <= |ls| + 1)
            && (!r.0 ==> r.1 == ls && FindLookup(ls, e.kind, e.value).None? && e.id in ls)
            && ((exists k :: k in ls && ls[k].kind == e.kind && ls[k].value == e.value) ==> r.0 && |r.1| == |ls|)
  {
    FindLookupNone(ls, e.kind, e.value);
    match FindLookup(ls, e.kind, e.value)
    case Some(k) =>
      var r := ls[k := e.(id := k)];
      UpsertCount(ls, k, e.(id := k));
      assert k in r && r[k].kind == e.kind && r[k].value == e.value;
    case None =>
      if e.id !in ls {
        var r := ls[e.id := e];
        UpsertCount(ls, e.id, e);
        assert e.id in r && r[e.id].kind == e.kind && r[e.id].value == e.value;
      }
  }

  // ---------------------------------------------------------------------------
  // The store
  // ---------------------------------------------------------------------------

  class Store {
    var materials: map<Id, Material>
    var cases: map<Id, CaseRecord>
    var history: map<Id, HistoryItem>
    var users: map<Id, User>
    var checklist: map<Id, ChecklistItem>
    var lookups: map<Id, LookupValue>
    /** Every identifier in use is below this; a stand-in for Guid.NewGuid. */
    var nextId: Id

    /** Each row is stored under its own identifier, below `nextId`, and no
        lookup pair is stored twice. */
    ghost predicate Valid()
      reads this
    {
      (forall k :: k in materials ==> k < nextId && materials[k].id == k)
      && (forall k :: k in cases ==> k < nextId && cases[k].id == k)
      && (forall k :: k in history ==> k < nextId && history[k].id == k)
      && (forall k :: k in users ==> k < nextId && users[k].id == k)
      && (forall k :: k in checklist ==> k < nextId && checklist[k].id == k)
      && (forall k :: k in lookups ==> k < nextId && lookups[k].id == k)
      && LookupPairsUnique(lookups)
    }

    constructor ()
      ensures Valid()
      ensures materials == map[] && cases == map[] && history == map[]
      ensures users == map[] && checklist == map[] && lookups == map[]
    {
      materials, cases, history := map[], map[], map[];
      users, checklist, lookups := map[], map[], map[];
      nextId := 0;
    }

    /** Guid.NewGuid: an identifier no table uses. */
    method NewId() returns (id: Id)
      requires Valid()
      modifies this`nextId
      ensures Valid() && nextId == id + 1 && id == old(nextId)
      ensures id !in materials && id !in cases && id !in history
      ensures id !in users && id !in checklist && id !in lookups
    {
      id := nextId;
      nextId := nextId + 1;
    }

    /** GetMaterialAsync / FindAsync by key. */
    function GetMaterial(id: Id): (r: Option<Material>)
      reads this
      ensures r.Some? <==> id in materials
      ensures r.Some? ==> r.value == materials[id]
    {
      if id in materials then Some(materials[id]) else None
    }

    /** GetCaseRecordAsync. */
    function GetCase(id: Id): (r: Option<CaseRecord>)
      reads this
      ensures r.Some? <==> id in cases
      ensures r.Some? ==> r.value == cases[id]
    {
      if id in cases then Some(cases[id]) else None
    }

    /** SaveMaterialAsync: stamps the row and inserts or replaces it. */
    method SaveMaterial(m: Material, now: Time) returns (stored: Material)
      requires Valid()
      modifies this`materials, this`nextId
      ensures Valid()
      ensures stored == Stamped(old(materials), m, now)
      ensures materials == old(materials)[m.id := stored]
      ensures nextId == Bump(old(nextId), m.id)
    {
      stored := Stamped(materials, m, now);
      materials := materials[m.id := stored];
      nextId := Bump(nextId, m.id);
    }

    /** DeleteMaterialAsync: removes the row with that key. */
    method DeleteMaterial(m: Material)
      requires Valid()
      modifies this`materials
      ensures Valid()
      ensures materials == old(materials) - {m.id}
    {
      materials := materials - {m.id};
    }

    /** SaveCaseRecordAsync. */
    method SaveCase(c: CaseRecord)
      requires Valid()
      modifies this`cases, this`nextId
      ensures Valid()
      ensures cases == old(cases)[c.id := c]
      ensures nextId == Bump(old(nextId), c.id)
    {
      cases := cases[c.id := c];
      nextId := Bump(nextId, c.id);
    }

    /** DeleteCaseRecordAsync. */
    method DeleteCase(c: CaseRecord)
      requires Valid()
      modifies this`cases
      ensures Valid()
      ensures cases == old(cases) - {c.id}
    {
      cases := cases - {c.id};
    }

    /** SaveHistoryItemAsync. */
    method SaveHistory(h: HistoryItem)
      requires Valid()
      modifies this`history, this`nextId
      ensures Valid()
      ensures history == old(history)[h.id := h]
      ensures nextId == Bump(old(nextId), h.id)
    {
      history := history[h.id := h];
      nextId := Bump(nextId, h.id);
    }

    /** DeleteHistoryItemAsync. */
    method DeleteHistory(h: HistoryItem)
      requires Valid()
      modifies this`history
      ensures Valid()
      ensures history == old(history) - {h.id}
    {
      history := history - {h.id};
    }

    /** SaveUserAsync. */
    method SaveUser(u: User)
      requires Valid()
      modifies this`users, this`nextId
      ensures Valid()
      ensures users == old(users)[u.id := u]
      ensures nextId == Bump(old(nextId), u.id)
    {
      users := users[u.id := u];
      nextId := Bump(nextId, u.id);
    }

    /** DeleteUserAsync. */
    method DeleteUser(u: User)
      requires Valid()
      modifies this`users
      ensures Valid()
      ensures users == old(users) - {u.id}
    {
      users := users - {u.id};
    }

    /** SaveChecklistItemAsync. */
    method SaveChecklistItem(c: ChecklistItem)
      requires Valid()
      modifies this`checklist, this`nextId
      ensures Valid()
      ensures checklist == old(checklist)[c.id := c]
      ensures nextId == Bump(old(nextId), c.id)
    {
      checklist := checklist[c.id := c];
      nextId := Bump(nextId, c.id);
    }

    /** DeleteChecklistItemAsync. */
    method DeleteChecklistItem(c: ChecklistItem)
      requires Valid()
      modifies this`checklist
      ensures Valid()
      ensures checklist == old(checklist) - {c.id}
    {
      checklist := checklist - {c.id};
    }

    /** SaveLookupValueAsync: updates the row of the same (type, value) under
        its existing key, or inserts; `ok` is false when the insert's key is
        already taken. */
    method SaveLookup(e: LookupValue) returns (ok: bool)
      requires Valid()
      modifies this`lookups, this`nextId
      ensures Valid()
      ensures (ok, lookups) == SaveLookupTo(old(lookups), e)
      ensures nextId == if ok && FindLookup(old(lookups), e.kind, e.value).None? then Bump(old(nextId), e.id) else old(nextId)
    {
      var found := FindLookup(lookups, e.kind, e.value);
      if found.Some? {
        lookups := lookups[found.value := e.(id := found.value)];
        ok := true;
      } else if e.id in lookups {
        ok := false;
      } else {
        lookups := lookups[e.id := e];
        nextId := Bump(nextId, e.id);
        ok := true;
      }
    }

    /** DeleteLookupValueAsync. */
    method DeleteLookup(e: LookupValue)
      requires Valid()
      modifies this`lookups
      ensures Valid()
      ensures lookups == old(lookups) - {e.id}
    {
      lookups := lookups - {e.id};
    }
  }

  // ---------------------------------------------------------------------------
  // The materials table and the counter as one value
  // ---------------------------------------------------------------------------

  /** The part of the store that stock movements change: the materials table
      and the identifier counter. */
  datatype Stock = Stock(materials: map<Id, Material>, nextId: Id)

  /** Each material is stored under its own identifier, below the counter. */
  predicate Keyed(s: Stock)
  {
    forall k :: k in s.materials ==> k < s.nextId && s.materials[k].id == k
  }

  /** SaveMaterialAsync on the state. */
  function SaveIn(s: Stock, m: Material, now: Time): Stock
  {
    Stock(s.materials[m.id := Stamped(s.materials, m, now)], Bump(s.nextId, m.id))
  }

  /** A store satisfying its invariant is keyed. */
  lemma {:induction false} StoreKeyed(store: Store)
    requires store.Valid()
    ensures Keyed(Stock(store.materials, store.nextId))
  {
  }
}
