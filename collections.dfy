/**
 * The in-place reconciliation of a displayed collection with a desired list,
 * as MaterialGroup.ReplaceItems, DeviceCategoryGroup.ReplaceModels,
 * DeviceModelGroup.ReplaceItems and StockManagementPage.SynchronizeCollection
 * all write it: walk the collection from the back removing what is no longer
 * wanted, then append each wanted element that is not yet there.
 */
module Collections {

  predicate NoDuplicates<T(==)>(s: seq<T>)
  {
    forall i, j :: 0 <= i < j < |s| ==> s[i] != s[j]
  }

  lemma {:induction false} HeadTail<T>(s: seq<T>)
    requires s != []
    ensures s == [s[0]] + s[1..]
  {
  }

  lemma {:induction false} InitLast<T>(s: seq<T>)
    requires s != []
    ensures s == s[..|s| - 1] + [s[|s| - 1]]
    ensures multiset(s) == multiset(s[..|s| - 1]) + multiset{s[|s| - 1]}
  {
    assert s == s[..|s| - 1] + [s[|s| - 1]];
  }

  lemma {:induction false} SnocParts<T>(a: seq<T>, x: T)
    ensures (a + [x])[..|a|] == a && (a + [x])[|a|] == x
  {
    assert (a + [x])[..|a|] == a;
  }

  /** The elements of `s` that occur in `keep`, in their order in `s`. */
  function Kept<T(==)>(s: seq<T>, keep: seq<T>): (r: seq<T>)
    ensures |r| <= |s|
  {
    if s == [] then []
    else if s[0] in keep then [s[0]] + Kept(s[1..], keep)
    else Kept(s[1..], keep)
  }

  /** Kept holds exactly the elements of `s` that occur in `keep`. */
  lemma {:induction false} KeptMembers<T>(s: seq<T>, keep: seq<T>)
    ensures forall x :: x in Kept(s, keep) <==> x in s && x in keep
  {
    if s != [] {
      KeptMembers(s[1..], keep);
      assert s == [s[0]] + s[1..];
    }
  }

  /** Appending, in order, each element of `src` not yet present. */
  function AppendMissing<T(==)>(acc: seq<T>, src: seq<T>): (r: seq<T>)
    decreases |src|
  {
    if src == [] then acc
    else AppendMissing(if src[0] in acc then acc else acc + [src[0]], src[1..])
  }

  /** What a collection holding `target` holds after reconciling with `desired`. */
  function Reconciled<T(==)>(target: seq<T>, desired: seq<T>): seq<T>
  {
    AppendMissing(Kept(target, desired), desired)
  }

  /** Kept splits over a concatenation. */
  lemma {:induction false} KeptAppend<T>(a: seq<T>, b: seq<T>, keep: seq<T>)
    ensures Kept(a + b, keep) == Kept(a, keep) + Kept(b, keep)
  {
    if a == [] {
      assert a + b == b;
    } else {
      assert (a + b)[1..] == a[1..] + b;
      KeptAppend(a[1..], b, keep);
    }
  }

  /** The backward removal loop: every element no longer desired is removed,
      the others keep their relative order. */
  method RemoveUndesired<T(==)>(target: seq<T>, desired: seq<T>) returns (s: seq<T>)
    ensures s == Kept(target, desired)
  {
    s := target;
    var i := |target| - 1;
    while i >= 0
      invariant -1 <= i < |target|
      invariant s == target[..i + 1] + Kept(target[i + 1..], desired)
    {
      ghost var rest := Kept(target[i + 1..], desired);
      KeptStep(target, i, desired);
      assert s[i] == target[i] && s[..i] == target[..i] && s[i + 1..] == rest;
      if !(s[i] in desired) {
        s := s[..i] + s[i + 1..];
      } else {
        assert s == target[..i] + [target[i]] + rest;
      }
      i := i - 1;
    }
    assert target[..0] == [];
    assert target[0..] == target;
  }

  lemma {:induction false} KeptStep<T>(t: seq<T>, i: int, keep: seq<T>)
    requires 0 <= i < |t|
    ensures Kept(t[i..], keep) == (if t[i] in keep then [t[i]] else []) + Kept(t[i + 1..], keep)
    ensures t[..i + 1] == t[..i] + [t[i]]
  {
    var u := t[i..];
    assert u != [] && u[0] == t[i] && u[1..] == t[i + 1..];
  }

  /** One step of the backward loop: dropping or refreshing element i extends
      the kept suffix by one position. */
  lemma RemoveUndesiredStep<T, K>(target: seq<T>, i: int, desired: seq<T>, key: T -> K, s: seq<T>)
    requires 0 <= i < |target| && s == target[..i + 1] + KeptBy(target[i + 1..], desired, key)
    ensures s[i] == target[i]
    ensures key(target[i]) in KeyList(desired, key) ==>
              s[..i] + [Lookup(desired, key(s[i]), key)] + s[i + 1..] == target[..i] + KeptBy(target[i..], desired, key)
    ensures key(target[i]) !in KeyList(desired, key) ==>
              s[..i] + s[i + 1..] == target[..i] + KeptBy(target[i..], desired, key)
  {
    var rest := KeptBy(target[i + 1..], desired, key);
    KeptByStep(target, i, desired, key);
    assert s[i] == target[i] && s[..i] == target[..i] && s[i + 1..] == rest;
  }

  /** The forward append loop. */
  method AddMissing<T(==)>(start: seq<T>, desired: seq<T>) returns (s: seq<T>)
    ensures s == AppendMissing(start, desired)
  {
    s := start;
    var j := 0;
    while j < |desired|
      invariant 0 <= j <= |desired|
      invariant AppendMissing(s, desired[j..]) == AppendMissing(start, desired)
    {
      assert desired[j..][1..] == desired[j + 1..];
      if !(desired[j] in s) {
        s := s + [desired[j]];
      }
      j := j + 1;
    }
  }

  /** The two loops together: the reconciled collection. */
  method Reconcile<T(==)>(target: seq<T>, desired: seq<T>) returns (r: seq<T>)
    ensures r == Reconciled(target, desired)
  {
    var kept := RemoveUndesired(target, desired);
    r := AddMissing(kept, desired);
  }

  // ---------------------------------------------------------------------------
  // Properties of the reconciled collection
  // ---------------------------------------------------------------------------

  /** Appending keeps what was there, and adds only elements of `src`. */
  lemma {:induction false} AppendMissingPrefix<T>(acc: seq<T>, src: seq<T>)
    ensures |AppendMissing(acc, src)| >= |acc|
    ensures AppendMissing(acc, src)[..|acc|] == acc
    ensures forall x :: x in AppendMissing(acc, src) <==> x in acc || x in src
    decreases |src|
  {
    if src != [] {
      var next := if src[0] in acc then acc else acc + [src[0]];
      AppendMissingPrefix(next, src[1..]);
      assert next[..|acc|] == acc;
      assert src == [src[0]] + src[1..];
    }
  }

  /** The appended part holds each element once and nothing already present. */
  lemma {:induction false} AppendMissingDistinct<T>(acc: seq<T>, src: seq<T>)
    requires NoDuplicates(acc)
    ensures NoDuplicates(AppendMissing(acc, src))
    decreases |src|
  {
    if src != [] {
      var next := if src[0] in acc then acc else acc + [src[0]];
      AppendMissingDistinct(next, src[1..]);
    }
  }

  /** The appended elements come in the order of `src`: the tail after `acc`
      is the sub-sequence of `src` of first occurrences missing from `acc`. */
  lemma {:induction false} AppendMissingTail<T>(acc: seq<T>, src: seq<T>)
    ensures AppendMissing(acc, src) == acc + Fresh(acc, src)
    decreases |src|
  {
    if src != [] {
      var next := if src[0] in acc then acc else acc + [src[0]];
      AppendMissingTail(next, src[1..]);
      if src[0] !in acc {
        FreshShift(acc, src[0], src[1..]);
      }
    }
  }

  /** The elements of `src` missing from `acc`, first occurrences, in `src` order. */
  function Fresh<T(==)>(acc: seq<T>, src: seq<T>): seq<T>
    decreases |src|
  {
    if src == [] then []
    else if src[0] in acc then Fresh(acc, src[1..])
    else [src[0]] + Fresh(acc + [src[0]], src[1..])
  }

  lemma {:induction false} FreshShift<T>(acc: seq<T>, x: T, rest: seq<T>)
    requires x !in acc
    ensures acc + [x] + Fresh(acc + [x], rest) == acc + Fresh(acc, [x] + rest)
  {
    assert ([x] + rest)[1..] == rest;
  }

  /** After reconciling, the collection holds exactly the desired elements. */
  lemma {:induction false} ReconciledMembers<T>(target: seq<T>, desired: seq<T>)
    ensures forall x :: x in Reconciled(target, desired) <==> x in desired
  {
    KeptMembers(target, desired);
    AppendMissingPrefix(Kept(target, desired), desired);
  }

  /** Retained elements come first, in their old relative order, followed by
      the new ones in desired order. */
  lemma {:induction false} ReconciledOrder<T>(target: seq<T>, desired: seq<T>)
    ensures Reconciled(target, desired) == Kept(target, desired) + Fresh(Kept(target, desired), desired)
  {
    AppendMissingTail(Kept(target, desired), desired);
  }

  /** Without duplicates before, none after. */
  lemma {:induction false} ReconciledDistinct<T>(target: seq<T>, desired: seq<T>)
    requires NoDuplicates(target)
    ensures NoDuplicates(Reconciled(target, desired))
  {
    KeptDistinct(target, desired);
    AppendMissingDistinct(Kept(target, desired), desired);
  }

  lemma {:induction false} KeptDistinct<T>(s: seq<T>, keep: seq<T>)
    requires NoDuplicates(s)
    ensures NoDuplicates(Kept(s, keep))
  {
    if s != [] {
      assert NoDuplicates(s[1..]) by {
        forall i, j | 0 <= i < j < |s[1..]| ensures s[1..][i] != s[1..][j] {
          assert s[1..][i] == s[i + 1] && s[1..][j] == s[j + 1];
        }
      }
      KeptDistinct(s[1..], keep);
      KeptMembers(s[1..], keep);
      assert s[0] !in s[1..] by {
        forall i | 0 <= i < |s[1..]| ensures s[1..][i] != s[0] { assert s[1..][i] == s[i + 1]; }
      }
    }
  }

  /** Appending elements none of which is present, without repeats, appends
      them all in order. */
  lemma {:induction false} AppendMissingAll<T>(acc: seq<T>, src: seq<T>)
    requires NoDuplicates(src)
    requires forall i :: 0 <= i < |src| ==> src[i] !in acc
    ensures AppendMissing(acc, src) == acc + src
    decreases |src|
  {
    if src != [] {
      var next := acc + [src[0]];
      assert forall i :: 0 <= i < |src[1..]| ==> src[1..][i] == src[i + 1];
      AppendMissingAll(next, src[1..]);
      assert src == [src[0]] + src[1..];
    }
  }

  /** Filling an empty collection gives the desired list itself, when that
      has no repeats. */
  lemma {:induction false} ReconciledFromEmpty<T>(desired: seq<T>)
    requires NoDuplicates(desired)
    ensures Reconciled([], desired) == desired
  {
    AppendMissingAll([], desired);
  }

  // ---------------------------------------------------------------------------
  // Reconciling records by object identity
  // ---------------------------------------------------------------------------

  // The collections hold references to objects. In records, `key` gives the
  // identity of the object a record belongs to: `Contains` finds an object
  // exactly when some element has its key, and an object that stays in the
  // collection shows the record it has now, which is the desired one.

  /** The identity keys of `s`, in order. */
  function KeyList<T, K>(s: seq<T>, key: T -> K): (r: seq<K>)
    ensures |r| == |s| && forall i :: 0 <= i < |s| ==> r[i] == key(s[i])
  {
    if s == [] then [] else [key(s[0])] + KeyList(s[1..], key)
  }

  lemma {:induction false} KeyListAppend<T, K>(a: seq<T>, b: seq<T>, key: T -> K)
    ensures KeyList(a + b, key) == KeyList(a, key) + KeyList(b, key)
  {
  }

  lemma {:induction false} KeyListIn<T, K>(s: seq<T>, x: T, key: T -> K)
    requires x in s
    ensures key(x) in KeyList(s, key)
  {
    var i :| 0 <= i < |s| && s[i] == x;
    assert KeyList(s, key)[i] == key(x);
  }

  /** The first element of `s` with key `k`: that object's record. */
  function Lookup<T, K(==)>(s: seq<T>, k: K, key: T -> K): (r: T)
    requires k in KeyList(s, key)
    ensures r in s && key(r) == k
  {
    if key(s[0]) == k then s[0]
    else
      assert KeyList(s, key) == [key(s[0])] + KeyList(s[1..], key);
      Lookup(s[1..], k, key)
  }

  /** The objects of `s` that are also in `keep`, in their order in `s`, each
      showing its record in `keep`. */
  function KeptBy<T, K(==)>(s: seq<T>, keep: seq<T>, key: T -> K): (r: seq<T>)
    ensures |r| <= |s|
  {
    if s == [] then []
    else if key(s[0]) in KeyList(keep, key) then [Lookup(keep, key(s[0]), key)] + KeptBy(s[1..], keep, key)
    else KeptBy(s[1..], keep, key)
  }

  /** Appending, in order, each element of `src` whose object is not yet present. */
  function AppendMissingBy<T, K(==)>(acc: seq<T>, src: seq<T>, key: T -> K): seq<T>
    decreases |src|
  {
    if src == [] then acc
    else AppendMissingBy(if key(src[0]) in KeyList(acc, key) then acc else acc + [src[0]], src[1..], key)
  }

  /** What a collection holding `target` holds after reconciling with `desired`,
      objects being compared by their keys. */
  function ReconciledBy<T, K(==)>(target: seq<T>, desired: seq<T>, key: T -> K): seq<T>
  {
    AppendMissingBy(KeptBy(target, desired, key), desired, key)
  }

  lemma {:induction false} KeptByStep<T, K>(t: seq<T>, i: int, keep: seq<T>, key: T -> K)
    requires 0 <= i < |t|
    ensures KeptBy(t[i..], keep, key)
            == (if key(t[i]) in KeyList(keep, key) then [Lookup(keep, key(t[i]), key)] else []) + KeptBy(t[i + 1..], keep, key)
    ensures t[..i + 1] == t[..i] + [t[i]]
  {
    var u := t[i..];
    assert u != [] && u[0] == t[i] && u[1..] == t[i + 1..];
  }

  /** The backward removal loop: every object no longer desired is removed;
      the others keep their relative order and show their current record. */
  method RemoveUndesiredBy<T, K(==)>(target: seq<T>, desired: seq<T>, key: T -> K) returns (s: seq<T>)
    ensures s == KeptBy(target, desired, key)
  {
    s := target;
    var i := |target| - 1;
    while i >= 0
      invariant -1 <= i < |target|
      invariant s == target[..i + 1] + KeptBy(target[i + 1..], desired, key)
    {
      RemoveUndesiredStep(target, i, desired, key, s);
      if !(key(s[i]) in KeyList(desired, key)) {
        s := s[..i] + s[i + 1..];
      } else {
        // The element is the desired object itself, changed or not.
        s := s[..i] + [Lookup(desired, key(s[i]), key)] + s[i + 1..];
      }
      i := i - 1;
    }
    assert target[..0] == [];
    assert target[0..] == target;
  }

  /** The forward append loop. */
  method AddMissingBy<T, K(==)>(start: seq<T>, desired: seq<T>, key: T -> K) returns (s: seq<T>)
    ensures s == AppendMissingBy(start, desired, key)
  {
    s := start;
    var j := 0;
    while j < |desired|
      invariant 0 <= j <= |desired|
      invariant AppendMissingBy(s, desired[j..], key) == AppendMissingBy(start, desired, key)
    {
      assert desired[j..][1..] == desired[j + 1..];
      if !(key(desired[j]) in KeyList(s, key)) {
        s := s + [desired[j]];
      }
      j := j + 1;
    }
  }

  /** The two loops together. */
  method ReconcileBy<T, K(==)>(target: seq<T>, desired: seq<T>, key: T -> K) returns (r: seq<T>)
    ensures r == ReconciledBy(target, desired, key)
  {
    var kept := RemoveUndesiredBy(target, desired, key);
    r := AddMissingBy(kept, desired, key);
  }

  /** Kept elements come from `keep`. */
  lemma {:induction false} KeptByMembers<T, K>(s: seq<T>, keep: seq<T>, key: T -> K)
    ensures forall x :: x in KeptBy(s, keep, key) ==> x in keep
  {
    if s != [] {
      KeptByMembers(s[1..], keep, key);
    }
  }

  /** The objects kept are those of `s` also in `keep`. */
  lemma {:induction false} KeptByKey<T, K>(s: seq<T>, keep: seq<T>, key: T -> K, k: K)
    ensures k in KeyList(KeptBy(s, keep, key), key) <==> k in KeyList(s, key) && k in KeyList(keep, key)
  {
    if s != [] {
      KeptByKey(s[1..], keep, key, k);
      var rest := KeptBy(s[1..], keep, key);
      assert KeyList(s, key) == [key(s[0])] + KeyList(s[1..], key);
      if key(s[0]) in KeyList(keep, key) {
        KeyListAppend([Lookup(keep, key(s[0]), key)], rest, key);
      }
    }
  }

  /** Appending keeps what was there and adds only elements of `src`. */
  lemma {:induction false} AppendMissingByFacts<T, K>(acc: seq<T>, src: seq<T>, key: T -> K)
    ensures |acc| <= |AppendMissingBy(acc, src, key)| && AppendMissingBy(acc, src, key)[..|acc|] == acc
    ensures forall x :: x in AppendMissingBy(acc, src, key) ==> x in acc || x in src
    decreases |src|
  {
    if src != [] {
      var next := if key(src[0]) in KeyList(acc, key) then acc else acc + [src[0]];
      AppendMissingByFacts(next, src[1..], key);
      assert next[..|acc|] == acc;
      assert src == [src[0]] + src[1..];
    }
  }

  /** The objects present after appending are those of `acc` and of `src`. */
  lemma {:induction false} AppendMissingByKey<T, K>(acc: seq<T>, src: seq<T>, key: T -> K, k: K)
    ensures k in KeyList(AppendMissingBy(acc, src, key), key) <==> k in KeyList(acc, key) || k in KeyList(src, key)
    decreases |src|
  {
    if src != [] {
      var next := if key(src[0]) in KeyList(acc, key) then acc else acc + [src[0]];
      AppendMissingByKey(next, src[1..], key, k);
      KeyListAppend(acc, [src[0]], key);
      assert KeyList(src, key) == [key(src[0])] + KeyList(src[1..], key);
    }
  }

  /** After reconciling, every element is a desired one. */
  lemma {:induction false} ReconciledByMembers<T, K>(target: seq<T>, desired: seq<T>, key: T -> K)
    ensures forall x :: x in ReconciledBy(target, desired, key) ==> x in desired
  {
    KeptByMembers(target, desired, key);
    AppendMissingByFacts(KeptBy(target, desired, key), desired, key);
  }

  /** After reconciling, exactly the desired objects are present. */
  lemma {:induction false} ReconciledByKey<T, K>(target: seq<T>, desired: seq<T>, key: T -> K, k: K)
    ensures k in KeyList(ReconciledBy(target, desired, key), key) <==> k in KeyList(desired, key)
  {
    KeptByKey(target, desired, key, k);
    AppendMissingByKey(KeptBy(target, desired, key), desired, key, k);
  }

  /** In a sequence whose keys do not repeat, the key determines the element. */
  lemma {:induction false} KeyDetermines<T, K>(s: seq<T>, x: T, y: T, key: T -> K)
    requires NoDuplicates(KeyList(s, key)) && x in s && y in s && key(x) == key(y)
    ensures x == y
  {
    var i :| 0 <= i < |s| && s[i] == x;
    var j :| 0 <= j < |s| && s[j] == y;
    assert KeyList(s, key)[i] == KeyList(s, key)[j];
  }

  /** When no two desired elements are the same object, the collection then
      holds exactly the desired elements. */
  lemma {:induction false} ReconciledByExact<T, K>(target: seq<T>, desired: seq<T>, key: T -> K)
    requires NoDuplicates(KeyList(desired, key))
    ensures forall x :: x in ReconciledBy(target, desired, key) <==> x in desired
  {
    ReconciledByMembers(target, desired, key);
    var r := ReconciledBy(target, desired, key);
    forall x | x in desired ensures x in r {
      KeyListIn(desired, x, key);
      ReconciledByKey(target, desired, key, key(x));
      var i :| 0 <= i < |KeyList(r, key)| && KeyList(r, key)[i] == key(x);
      KeyDetermines(desired, r[i], x, key);
    }
  }

  /** A collection without two elements for one object keeps that property. */
  lemma {:induction false} ReconciledByDistinct<T, K>(target: seq<T>, desired: seq<T>, key: T -> K)
    requires NoDuplicates(KeyList(target, key))
    ensures NoDuplicates(KeyList(ReconciledBy(target, desired, key), key))
  {
    KeptByDistinct(target, desired, key);
    AppendMissingByDistinct(KeptBy(target, desired, key), desired, key);
  }

  lemma {:induction false} KeptByDistinct<T, K>(s: seq<T>, keep: seq<T>, key: T -> K)
    requires NoDuplicates(KeyList(s, key))
    ensures NoDuplicates(KeyList(KeptBy(s, keep, key), key))
  {
    if s != [] {
      var ks := KeyList(s, key);
      assert ks == [key(s[0])] + KeyList(s[1..], key);
      assert NoDuplicates(KeyList(s[1..], key)) by {
        forall i, j | 0 <= i < j < |s[1..]| ensures KeyList(s[1..], key)[i] != KeyList(s[1..], key)[j] {
          assert KeyList(s[1..], key)[i] == ks[i + 1] && KeyList(s[1..], key)[j] == ks[j + 1];
        }
      }
      KeptByDistinct(s[1..], keep, key);
      var rest := KeptBy(s[1..], keep, key);
      if key(s[0]) in KeyList(keep, key) {
        assert key(s[0]) !in KeyList(s[1..], key) by {
          forall i | 0 <= i < |s[1..]| ensures KeyList(s[1..], key)[i] != key(s[0]) {
            assert KeyList(s[1..], key)[i] == ks[i + 1];
          }
        }
        KeptByKey(s[1..], keep, key, key(s[0]));
        var x := Lookup(keep, key(s[0]), key);
        KeyListAppend([x], rest, key);
        var kr := KeyList([x] + rest, key);
        forall i, j | 0 <= i < j < |kr| ensures kr[i] != kr[j] {
          if i == 0 {
            assert kr[j] == KeyList(rest, key)[j - 1];
          } else {
            assert kr[i] == KeyList(rest, key)[i - 1] && kr[j] == KeyList(rest, key)[j - 1];
          }
        }
      }
    }
  }

  lemma {:induction false} AppendMissingByDistinct<T, K>(acc: seq<T>, src: seq<T>, key: T -> K)
    requires NoDuplicates(KeyList(acc, key))
    ensures NoDuplicates(KeyList(AppendMissingBy(acc, src, key), key))
    decreases |src|
  {
    if src != [] {
      var next := if key(src[0]) in KeyList(acc, key) then acc else acc + [src[0]];
      KeyListAppend(acc, [src[0]], key);
      AppendMissingByDistinct(next, src[1..], key);
    }
  }

  /** No element of `src` is among the objects of `acc`, and no two are the
      same object: all of them are appended, in order. */
  lemma {:induction false} AppendMissingByAll<T, K>(acc: seq<T>, src: seq<T>, key: T -> K)
    requires NoDuplicates(KeyList(src, key))
    requires forall i :: 0 <= i < |src| ==> key(src[i]) !in KeyList(acc, key)
    ensures AppendMissingBy(acc, src, key) == acc + src
    decreases |src|
  {
    if src != [] {
      AppendMissingByAllStep(acc, src, key);
      AppendMissingByAll(acc + [src[0]], src[1..], key);
      ConsSplit(acc, src);
    }
  }

  lemma ConsSplit<T>(acc: seq<T>, src: seq<T>)
    requires src != []
    ensures acc + [src[0]] + src[1..] == acc + src
  {
    assert src == [src[0]] + src[1..];
  }

  lemma {:induction false} AppendMissingByAllStep<T, K>(acc: seq<T>, src: seq<T>, key: T -> K)
    requires src != [] && NoDuplicates(KeyList(src, key))
    requires forall i :: 0 <= i < |src| ==> key(src[i]) !in KeyList(acc, key)
    ensures NoDuplicates(KeyList(src[1..], key))
    ensures forall i :: 0 <= i < |src[1..]| ==> key(src[1..][i]) !in KeyList(acc + [src[0]], key)
    ensures AppendMissingBy(acc, src, key) == AppendMissingBy(acc + [src[0]], src[1..], key)
  {
    assert key(src[0]) !in KeyList(acc, key);
    var ks, rest := KeyList(src, key), KeyList(src[1..], key);
    forall i | 0 <= i < |rest| ensures rest[i] == ks[i + 1] { }
    KeyListAppend(acc, [src[0]], key);
    forall i | 0 <= i < |src[1..]| ensures key(src[1..][i]) !in KeyList(acc + [src[0]], key) {
      assert key(src[1..][i]) == ks[i + 1] && ks[i + 1] != ks[0];
    }
  }

  /** Reconciling with objects none of which is in the collection replaces
      its contents by them. */
  lemma {:induction false} ReconciledByFresh<T, K>(target: seq<T>, desired: seq<T>, key: T -> K)
    requires NoDuplicates(KeyList(desired, key))
    requires forall i :: 0 <= i < |desired| ==> key(desired[i]) !in KeyList(target, key)
    ensures ReconciledBy(target, desired, key) == desired
  {
    var kept := KeptBy(target, desired, key);
    if kept != [] {
      KeptByKey(target, desired, key, KeyList(kept, key)[0]);
      assert false;
    }
    AppendMissingByAll([], desired, key);
  }

  /** Reconciling with objects all of which are present already keeps the
      collection's order: each remaining object stays where it was, showing
      its current record. */
  lemma {:induction false} ReconciledByRefresh<T, K>(target: seq<T>, desired: seq<T>, key: T -> K)
    requires forall k :: k in KeyList(desired, key) ==> k in KeyList(target, key)
    ensures ReconciledBy(target, desired, key) == KeptBy(target, desired, key)
  {
    var kept := KeptBy(target, desired, key);
    forall k | k in KeyList(desired, key) ensures k in KeyList(kept, key) {
      KeptByKey(target, desired, key, k);
    }
    AppendMissingByPresent(kept, desired, key);
  }

  lemma {:induction false} AppendMissingByPresent<T, K>(acc: seq<T>, src: seq<T>, key: T -> K)
    requires forall k :: k in KeyList(src, key) ==> k in KeyList(acc, key)
    ensures AppendMissingBy(acc, src, key) == acc
    decreases |src|
  {
    if src != [] {
      assert KeyList(src, key) == [key(src[0])] + KeyList(src[1..], key);
      AppendMissingByPresent(acc, src[1..], key);
    }
  }

  /** When every object stays, each stays at its place. */
  lemma {:induction false} KeptByAll<T, K>(s: seq<T>, keep: seq<T>, key: T -> K)
    requires forall i :: 0 <= i < |s| ==> key(s[i]) in KeyList(keep, key)
    ensures |KeptBy(s, keep, key)| == |s|
    ensures forall i :: 0 <= i < |s| ==> KeptBy(s, keep, key)[i] == Lookup(keep, key(s[i]), key)
  {
    if s != [] {
      KeptByAll(s[1..], keep, key);
      var r := KeptBy(s, keep, key);
      forall i | 0 <= i < |s| ensures r[i] == Lookup(keep, key(s[i]), key) {
        if i > 0 { assert s[1..][i - 1] == s[i]; }
      }
    }
  }

  // ---------------------------------------------------------------------------
  // Rows read from the database
  // ---------------------------------------------------------------------------

  /** An object materialised from one row of a listing: the listing it was
      read in, its row there, and its record. Two such objects are the same
      object exactly when they come from the same row of the same listing. */
  datatype Loaded<T> = Loaded(listing: nat, row: nat, record: T)

  function Identity<T>(o: Loaded<T>): (nat, nat)
  {
    (o.listing, o.row)
  }

  /** The objects read from the rows `s` in listing `n`. */
  function LoadedRows<T>(s: seq<T>, n: nat): (r: seq<Loaded<T>>)
    ensures |r| == |s| && forall i :: 0 <= i < |s| ==> r[i] == Loaded(n, i, s[i])
  {
    seq(|s|, i requires 0 <= i < |s| => Loaded(n, i, s[i]))
  }

  function Records<T>(s: seq<Loaded<T>>): (r: seq<T>)
    ensures |r| == |s| && forall i :: 0 <= i < |s| ==> r[i] == s[i].record
  {
    seq(|s|, i requires 0 <= i < |s| => s[i].record)
  }

  /** A collection of objects from an earlier listing, reconciled with the
      objects of a new listing, holds the new listing's records, in order. */
  lemma {:induction false} ReloadReplaces<T>(before: seq<T>, rows: seq<T>)
    ensures Records(ReconciledBy(LoadedRows(before, 0), LoadedRows(rows, 1), Identity)) == rows
  {
    var t, d := LoadedRows(before, 0), LoadedRows(rows, 1);
    forall i, j | 0 <= i < j < |d| ensures KeyList(d, Identity)[i] != KeyList(d, Identity)[j] { }
    forall i | 0 <= i < |d| ensures Identity(d[i]) !in KeyList(t, Identity) {
      assert forall j :: 0 <= j < |t| ==> KeyList(t, Identity)[j] != Identity(d[i]);
    }
    ReconciledByFresh(t, d, Identity);
  }

  /** List.Remove / ObservableCollection.Remove: the first occurrence goes,
      the rest stays in order. */
  function RemoveFirst<T(==)>(s: seq<T>, x: T): (r: seq<T>)
    ensures x in s ==> |r| == |s| - 1 && multiset(r) == multiset(s) - multiset{x}
    ensures x !in s ==> r == s
  {
    if s == [] then []
    else if s[0] == x then
      assert s == [s[0]] + s[1..];
      s[1..]
    else
      var t := RemoveFirst(s[1..], x);
      assert s == [s[0]] + s[1..];
      [s[0]] + t
  }

  /** Removing an element keeps a list free of repeats. */
  lemma {:induction false} RemoveFirstDistinct<T>(s: seq<T>, x: T)
    requires NoDuplicates(s)
    ensures NoDuplicates(RemoveFirst(s, x))
  {
    if s != [] && s[0] != x {
      var t := RemoveFirst(s[1..], x);
      assert NoDuplicates(s[1..]) by {
        forall i, j | 0 <= i < j < |s[1..]| ensures s[1..][i] != s[1..][j] {
          assert s[1..][i] == s[i + 1] && s[1..][j] == s[j + 1];
        }
      }
      RemoveFirstDistinct(s[1..], x);
      assert s[0] !in s[1..] by {
        forall j | 0 <= j < |s[1..]| ensures s[1..][j] != s[0] {
          assert s[1..][j] == s[j + 1];
        }
      }
      assert s[0] !in multiset(s[1..]);
      assert multiset(t)[s[0]] == 0;
      assert s[0] !in t;
      var r := [s[0]] + t;
      forall i, j | 0 <= i < j < |r| ensures r[i] != r[j] {
        if i == 0 {
          assert r[j] == t[j - 1];
        } else {
          assert r[i] == t[i - 1] && r[j] == t[j - 1];
        }
      }
    }
  }
}
