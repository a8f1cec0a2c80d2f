/**
 * The stock adjustment page: one material is chosen, a quantity typed, and it
 * is moved into or out of stock according to who it comes from and goes to.
 * The page also keeps the material list in step with the store and builds
 * the list of people a transfer can name.
 */
module StockManagement {
  import opened Wrappers
  import opened Text
  import opened Models
  import opened Collections
  import opened Database

  datatype StockOperation = In | Out

  const OutText: string := "Out"

  // ---------------------------------------------------------------------------
  // The requested operation and the decision rule
  // ---------------------------------------------------------------------------

  /** The Operation query parameter's setter: nothing for a blank value, Out
      for "Out" in any case, In for anything else. */
  function RequestedOperation(value: Option<string>): Option<StockOperation>
  {
    if IsBlankOpt(value) then None
    else if EqIC(value.value, OutText) then Some(Out)
    else Some(In)
  }

  /** The Operation getter: the operation's name. */
  function OperationText(op: Option<StockOperation>): Option<string>
  {
    match op
    case None => None
    case Some(In) => Some("In")
    case Some(Out) => Some(OutText)
  }

  /** Reading the parameter back and setting it again changes nothing. */
  lemma {:induction false} RequestedOperationRoundTrip(op: Option<StockOperation>)
    ensures RequestedOperation(OperationText(op)) == op
  {
    if op == Some(In) {
      var t := OperationText(op).value;
      assert t[0] == 'I' && !IsWhite(t[0]);
      assert UpperStr(t)[0] == 'I' != UpperStr(OutText)[0];
    } else if op == Some(Out) {
      assert !IsWhite(OutText[0]);
    }
  }

  /** Only the text "out", whatever its case, asks for Out; a blank text asks
      for nothing and every other text for In. */
  lemma {:induction false} RequestedOperationCases(value: Option<string>)
    ensures RequestedOperation(value).None? <==> IsBlankOpt(value)
    ensures RequestedOperation(value) == Some(Out) <==> value.Some? && EqIC(value.value, OutText)
  {
    if value.Some? && EqIC(value.value, OutText) {
      assert UpperStr(value.value)[0] == UpperStr(OutText)[0] == 'O';
      assert !IsWhite(value.value[0]);
    }
  }

  /** `side` is a non-blank choice naming `who`, ignoring case. */
  predicate Names(side: Option<string>, who: string)
  {
    !IsBlankOpt(side) && EqIC(side.value, who)
  }

  /** DetermineOperation: giving from oneself is Out and receiving is In;
      then giving from the depot is Out and returning to it is In; otherwise
      the requested operation, In by default. */
  function DetermineOperation(currentUser: Option<string>, from: Option<string>, to: Option<string>,
                              requested: Option<StockOperation>): StockOperation
  {
    if !IsBlankOpt(currentUser) && Names(from, currentUser.value) then Out
    else if !IsBlankOpt(currentUser) && Names(to, currentUser.value) then In
    else if Names(from, Depot) then Out
    else if Names(to, Depot) then In
    else requested.GetOr(In)
  }

  /** The rules in priority order, each applying only when none before it does. */
  lemma {:induction false} DetermineOperationPriority(currentUser: Option<string>, from: Option<string>, to: Option<string>,
                                   requested: Option<StockOperation>)
    ensures var op := DetermineOperation(currentUser, from, to, requested);
            var user := !IsBlankOpt(currentUser);
            (user && Names(from, currentUser.value) ==> op == Out)
            && (user && !Names(from, currentUser.value) && Names(to, currentUser.value) ==> op == In)
            && ((!(user && (Names(from, currentUser.value) || Names(to, currentUser.value))))
                ==> op == (if Names(from, Depot) then Out else if Names(to, Depot) then In else requested.GetOr(In)))
  {
  }

  /** A transfer from the depot to the signed-in user is an In: the user
      rule comes before the depot rule. */
  lemma {:induction false} DepotToMeIsIn(user: string, from: Option<string>, to: Option<string>, requested: Option<StockOperation>)
    requires !IsBlank(user) && !EqIC(user, Depot)
    requires from == Some(Depot) && to == Some(user)
    ensures DetermineOperation(Some(user), from, to, requested) == In
  {
    assert !IsWhite(Depot[0]);
    assert !Names(from, user);
  }

  /** Without a blank-free match on either side the page does what it was asked. */
  lemma {:induction false} DetermineOperationDefault(currentUser: Option<string>, requested: Option<StockOperation>)
    ensures DetermineOperation(currentUser, None, None, requested) == requested.GetOr(In)
    ensures DetermineOperation(currentUser, None, None, None) == In
  {
  }

  /** ActionButtonText. */
  function ActionButtonText(op: StockOperation): string
  {
    if op == Out then "Stok Çıkar" else "Stok Ekle"
  }

  // ---------------------------------------------------------------------------
  // OnSubmit
  // ---------------------------------------------------------------------------

  datatype SubmitOutcome =
    | NoMaterial
    | InvalidQuantity
    | InsufficientStock
    | Moved(op: StockOperation, amount: int)

  /** The checks of OnSubmit, in order: a material is chosen, the quantity is
      a positive integer, and an Out does not exceed the stock. */
  function SubmitOutcomeOf(selected: Option<Material>, quantityText: string, op: StockOperation): SubmitOutcome
  {
    if selected.None? then NoMaterial
    else
      var q := ParseInt(Some(quantityText));
      if q.None? || q.value <= 0 then InvalidQuantity
      else if op == Out && selected.value.quantity < q.value then InsufficientStock
      else Moved(op, q.value)
  }

  /** The stock after moving `amount` in or out. */
  function Adjusted(quantity: int, op: StockOperation, amount: int): int
  {
    if op == Out then quantity - amount else quantity + amount
  }

  /** An accepted move changes the stock by exactly the amount, and an Out
      never takes it below zero. */
  lemma {:induction false} SubmitMoves(selected: Option<Material>, quantityText: string, op: StockOperation)
    requires SubmitOutcomeOf(selected, quantityText, op).Moved?
    ensures var o := SubmitOutcomeOf(selected, quantityText, op);
            var q := selected.value.quantity;
            o.amount > 0 && o.op == op
            && (op == Out ==> 0 <= Adjusted(q, op, o.amount) == q - o.amount)
            && (op == In ==> Adjusted(q, op, o.amount) == q + o.amount > q)
  {
  }

  /** For a chosen material and an amount typed as a number: an amount that
      is not positive is refused, an Out beyond the stock is refused, and
      every other amount, in or out, is moved as typed. */
  lemma {:induction false} SubmitAmounts(m: Material, amount: int, op: StockOperation)
    requires Int32Min <= amount <= Int32Max
    ensures SubmitOutcomeOf(Some(m), IntToString(amount), op)
            == if amount <= 0 then InvalidQuantity
               else if op == Out && m.quantity < amount then InsufficientStock
               else Moved(op, amount)
  {
    ParseIntToString(amount);
  }

  /** Whatever was moved into a stock that is not negative can be moved out
      again with the same text, and that restores the stock. (A negative
      stock, which a spreadsheet import can bring, refuses the Out.) */
  lemma {:induction false} InThenOut(m: Material, quantityText: string)
    requires 0 <= m.quantity && SubmitOutcomeOf(Some(m), quantityText, In).Moved?
    ensures var amount := SubmitOutcomeOf(Some(m), quantityText, In).amount;
            var added := m.(quantity := Adjusted(m.quantity, In, amount));
            SubmitOutcomeOf(Some(added), quantityText, Out) == Moved(Out, amount)
            && Adjusted(added.quantity, Out, amount) == m.quantity
  {
  }

  // ---------------------------------------------------------------------------
  // The user list
  // ---------------------------------------------------------------------------

  /** "Depo", then each stored username not seen before, in order. */
  function DedupNames(usernames: seq<string>): (r: seq<string>)
    ensures |r| >= 1 && r[0] == Depot
  {
    DedupIC([Depot], usernames)
  }

  function Usernames(users: seq<User>): (r: seq<string>)
    ensures |r| == |users| && forall i :: 0 <= i < |users| ==> r[i] == users[i].username
  {
    seq(|users|, i requires 0 <= i < |users| => users[i].username)
  }

  /** The user list LoadDataAsync builds: the deduplicated names, then the
      signed-in user when not yet listed. */
  function UserList(users: seq<User>, currentUser: Option<string>): seq<string>
  {
    var names := DedupNames(Usernames(users));
    if currentUser.Some? && !SeenIC(names, currentUser.value) then names + [currentUser.value] else names
  }

  /** No name is listed twice, ignoring case. */
  lemma {:induction false} DedupNamesDistinct(usernames: seq<string>)
    ensures DistinctIC(DedupNames(usernames))
  {
    DedupICDistinct([Depot], usernames);
  }

  /** Every stored name is listed, perhaps in another case. */
  lemma {:induction false} DedupNamesCovers(usernames: seq<string>)
    ensures forall k :: 0 <= k < |usernames| ==> SeenIC(DedupNames(usernames), usernames[k])
  {
    DedupICCovers([Depot], usernames);
  }

  /** After "Depo" the list holds only stored names. */
  lemma {:induction false} DedupNamesFrom(usernames: seq<string>)
    ensures forall i :: 1 <= i < |DedupNames(usernames)| ==> DedupNames(usernames)[i] in usernames
  {
    DedupICFrom([Depot], usernames);
  }

  /** The list starts with "Depo", lists no name twice (ignoring case), names
      every stored user, and holds nothing but "Depo", stored usernames and
      the signed-in user. */
  lemma {:induction false} UserListSound(users: seq<User>, currentUser: Option<string>)
    ensures var r := UserList(users, currentUser);
            |r| >= 1 && r[0] == Depot
            && DistinctIC(r)
            && (forall k :: 0 <= k < |users| ==> SeenIC(r, users[k].username))
            && (currentUser.Some? ==> SeenIC(r, currentUser.value))
            && (forall i :: 1 <= i < |r| ==> r[i] in Usernames(users) || Some(r[i]) == currentUser)
  {
    var names := DedupNames(Usernames(users));
    DedupNamesDistinct(Usernames(users));
    DedupNamesCovers(Usernames(users));
    DedupNamesFrom(Usernames(users));
    var r := UserList(users, currentUser);
    if currentUser.Some? && !SeenIC(names, currentUser.value) {
      DistinctSnoc(names, currentUser.value);
      assert r == names + [currentUser.value];
      forall k | 0 <= k < |users| ensures SeenIC(r, users[k].username) {
        assert SeenIC(names, Usernames(users)[k]);
        var i :| 0 <= i < |names| && EqIC(names[i], users[k].username);
        assert r[i] == names[i];
      }
      assert r[|names|] == currentUser.value;
    } else if currentUser.Some? {
      assert SeenIC(names, currentUser.value);
    }
    forall k | 0 <= k < |users| ensures SeenIC(r, users[k].username) {
      assert SeenIC(names, Usernames(users)[k]);
      var i :| 0 <= i < |names| && EqIC(names[i], users[k].username);
      assert r[i] == names[i];
    }
    forall i | 1 <= i < |r| ensures r[i] in Usernames(users) || Some(r[i]) == currentUser {
      if i < |names| {
        assert r[i] == names[i] && names[i] == DedupNames(Usernames(users))[i];
      } else {
        assert r == names + [currentUser.value];
      }
    }
  }

  // ---------------------------------------------------------------------------
  // The page
  // ---------------------------------------------------------------------------

  /** First material with the given identifier (FirstOrDefault by Id). */
  function FindById(ms: seq<Material>, id: Id): (r: Option<Material>)
    ensures r.None? <==> forall i :: 0 <= i < |ms| ==> ms[i].id != id
    ensures r.Some? ==> r.value in ms && r.value.id == id
  {
    if ms == [] then None
    else if ms[0].id == id then Some(ms[0])
    else FindById(ms[1..], id)
  }

  class StockManagementPage {
    var materials: seq<Material>
    var users: seq<string>
    var selectedMaterial: Option<Material>
    var selectedFrom: Option<string>
    var selectedTo: Option<string>
    var quantityText: string
    var requestedOperation: Option<StockOperation>
    /** The MaterialId query parameter once Guid.TryParse has read it. */
    var pendingMaterialId: Option<Id>

    constructor ()
      ensures materials == [] && users == [] && selectedMaterial.None?
      ensures selectedFrom.None? && selectedTo.None? && requestedOperation.None?
      ensures quantityText == "1" && pendingMaterialId.None?
    {
      materials, users := [], [];
      selectedMaterial, selectedFrom, selectedTo := None, None, None;
      quantityText := "1";
      requestedOperation, pendingMaterialId := None, None;
    }

    /** The Operation property's setter. */
    method SetOperation(value: Option<string>)
      modifies this`requestedOperation
      ensures requestedOperation == RequestedOperation(value)
    {
      if IsBlankOpt(value) {
        requestedOperation := None;
      } else {
        requestedOperation := if EqIC(value.value, OutText) then Some(Out) else Some(In);
      }
    }

    function Operation(currentUser: Option<string>): StockOperation
      reads this
    {
      DetermineOperation(currentUser, selectedFrom, selectedTo, requestedOperation)
    }

    /** OnSubmit: when every check passes the chosen material's stock moves
        by the amount and the material is saved; otherwise nothing changes. */
    method Submit(store: Store, currentUser: Option<string>, now: Time) returns (outcome: SubmitOutcome)
      requires store.Valid()
      modifies this`selectedMaterial, store`materials, store`nextId
      ensures store.Valid()
      ensures outcome == SubmitOutcomeOf(old(selectedMaterial), quantityText, Operation(currentUser))
      ensures !outcome.Moved? ==> selectedMaterial == old(selectedMaterial)
                                  && store.materials == old(store.materials) && store.nextId == old(store.nextId)
      ensures outcome.Moved? ==>
                var m := old(selectedMaterial).value;
                var changed := m.(quantity := Adjusted(m.quantity, outcome.op, outcome.amount));
                selectedMaterial == Some(Stamped(old(store.materials), changed, now))
                && store.materials == old(store.materials)[m.id := selectedMaterial.value]
    {
      var op := DetermineOperation(currentUser, selectedFrom, selectedTo, requestedOperation);
      if selectedMaterial.None? {
        return NoMaterial;
      }
      var parsed := ParseInt(Some(quantityText));
      if parsed.None? || parsed.value <= 0 {
        return InvalidQuantity;
      }
      var quantity := parsed.value;
      var m := selectedMaterial.value;
      if op == Out && m.quantity < quantity {
        return InsufficientStock;
      }
      if op == Out {
        m := m.(quantity := m.quantity - quantity);
      } else {
        m := m.(quantity := m.quantity + quantity);
      }
      m := m.(updatedAt := now);
      var stored := store.SaveMaterial(m, now);
      selectedMaterial := Some(stored);
      outcome := Moved(op, quantity);
    }

    /** LoadDataAsync's material part: the list is synchronized with the
        store's listing, and a selected material is replaced by its refreshed
        copy. The listing's rows are objects just read, none of them in the
        list (each is tagged with the read it came from), so the backward loop
        removes every old element and the forward loop appends every row: the
        list becomes the listing. */
    method LoadMaterials(listing: seq<Material>)
      modifies this`materials, this`selectedMaterial
      ensures materials == listing
      ensures old(selectedMaterial).None? ==> selectedMaterial.None?
      ensures old(selectedMaterial).Some? ==>
                selectedMaterial == (match FindById(materials, old(selectedMaterial).value.id)
                                     case Some(x) => Some(x)
                                     case None => old(selectedMaterial))
    {
      var synced := ReconcileBy(LoadedRows(materials, 0), LoadedRows(listing, 1), Identity);
      ReloadReplaces(materials, listing);
      materials := Records(synced);
      if selectedMaterial.Some? {
        var refreshed := FindById(materials, selectedMaterial.value.id);
        if refreshed.Some? && refreshed != selectedMaterial {
          selectedMaterial := refreshed;
        }
      }
    }

    /** LoadDataAsync's user part. */
    method LoadUsers(stored: seq<User>, currentUser: Option<string>)
      modifies this`users
      ensures users == UserList(stored, currentUser)
    {
      var names := [Depot];
      var i := 0;
      while i < |stored|
        invariant 0 <= i <= |stored|
        invariant names == DedupNames(Usernames(stored)[..i])
      {
        assert Usernames(stored)[..i + 1][..i] == Usernames(stored)[..i];
        var name := stored[i].username;
        if !SeenIC(names, name) {
          names := names + [name];
        }
        i := i + 1;
      }
      assert Usernames(stored)[..i] == Usernames(stored);
      if currentUser.Some? && !SeenIC(names, currentUser.value) {
        names := names + [currentUser.value];
      }
      users := names;
    }

    /** ApplyPendingSelection: the material named by the query parameter is
        selected when the list holds it. */
    method ApplyPendingSelection()
      modifies this`selectedMaterial
      ensures pendingMaterialId.Some? && FindById(materials, pendingMaterialId.value).Some? ==>
                selectedMaterial == FindById(materials, pendingMaterialId.value)
      ensures pendingMaterialId.None? || FindById(materials, pendingMaterialId.value).None? ==>
                selectedMaterial == old(selectedMaterial)
    {
      if pendingMaterialId.Some? {
        var found := FindById(materials, pendingMaterialId.value);
        if found.Some? {
          selectedMaterial := found;
        }
      }
    }
  }
}
