/**
 * The order in which the store lists a table (an `ORDER BY` on one column).
 * Each row gets a sort key; rows are listed by key, and rows with equal keys
 * by identifier, so a listing is determined by the table alone.
 */
module Ordering {
  import opened Text
  import opened Models
  import Collections

  /** A text column compared by code point, then a numeric column. */
  datatype SortKey = SortKey(text: string, num: int)

  /** The position of a row in a listing: its key, then its identifier. */
  datatype Rank = Rank(key: SortKey, id: Id)

  predicate RankLess(a: Rank, b: Rank)
  {
    StrLess(a.key.text, b.key.text)
    || (a.key.text == b.key.text && a.key.num < b.key.num)
    || (a.key == b.key && a.id < b.id)
  }

  lemma {:induction false} RankIrreflexive(a: Rank)
    ensures !RankLess(a, a)
  {
    StrLessIrreflexive(a.key.text);
  }

  lemma {:induction false} RankTotal(a: Rank, b: Rank)
    requires a != b
    ensures RankLess(a, b) || RankLess(b, a)
  {
    if a.key.text != b.key.text {
      StrLessTotal(a.key.text, b.key.text);
    }
  }

  lemma {:induction false} RankTransitive(a: Rank, b: Rank, c: Rank)
    requires RankLess(a, b) && RankLess(b, c)
    ensures RankLess(a, c)
  {
    if StrLess(a.key.text, b.key.text) && StrLess(b.key.text, c.key.text) {
      StrLessTransitive(a.key.text, b.key.text, c.key.text);
    }
  }

  lemma {:induction false} RankAsymmetric(a: Rank, b: Rank)
    requires RankLess(a, b)
    ensures !RankLess(b, a)
  {
    if RankLess(b, a) {
      RankTransitive(a, b, a);
      RankIrreflexive(a);
    }
  }

  /** Row `i` is listed before row `j`. */
  predicate Before(keys: map<Id, SortKey>, i: Id, j: Id)
    requires i in keys && j in keys
  {
    RankLess(Rank(keys[i], i), Rank(keys[j], j))
  }

  /** Every row is listed before every later row. */
  predicate SortedBy(keys: map<Id, SortKey>, s: seq<Id>)
  {
    (forall i :: 0 <= i < |s| ==> s[i] in keys)
    && (forall i, j :: 0 <= i < j < |s| ==> Before(keys, s[i], s[j]))
  }

  predicate Distinct<T(==)>(s: seq<T>)
  {
    forall i, j :: 0 <= i < j < |s| ==> s[i] != s[j]
  }

  /** A sorted listing names no row twice. */
  lemma {:induction false} SortedDistinct(keys: map<Id, SortKey>, s: seq<Id>)
    requires SortedBy(keys, s)
    ensures Distinct(s)
  {
    forall i, j | 0 <= i < j < |s| ensures s[i] != s[j] {
      if s[i] == s[j] {
        assert Before(keys, s[i], s[j]);
        RankIrreflexive(Rank(keys[s[i]], s[i]));
      }
    }
  }

  /** The row listed first: it comes before every other row. */
  predicate IsFirst(keys: map<Id, SortKey>, k: Id)
  {
    k in keys && forall j :: j in keys && j != k ==> Before(keys, k, j)
  }

  lemma {:induction false} FirstExists(keys: map<Id, SortKey>)
    requires |keys| > 0
    ensures exists k :: IsFirst(keys, k)
    decreases |keys|
  {
    var k :| k in keys;
    var rest := keys - {k};
    if |rest| == 0 {
      assert keys.Keys == {k};
      assert IsFirst(keys, k);
    } else {
      FirstExists(rest);
      var m :| IsFirst(rest, m);
      var rk, rm := Rank(keys[k], k), Rank(keys[m], m);
      RankTotal(rk, rm);
      if RankLess(rk, rm) {
        forall j | j in keys && j != k ensures Before(keys, k, j) {
          if j != m {
            assert Before(rest, m, j);
            RankTransitive(rk, rm, Rank(keys[j], j));
          }
        }
        assert IsFirst(keys, k);
      } else {
        forall j | j in keys && j != m ensures Before(keys, m, j) {
          if j != k { assert Before(rest, m, j); }
        }
        assert IsFirst(keys, m);
      }
    }
  }

  lemma {:induction false} FirstUnique(keys: map<Id, SortKey>, a: Id, b: Id)
    requires IsFirst(keys, a) && IsFirst(keys, b)
    ensures a == b
  {
    if a != b {
      assert Before(keys, a, b);
      RankAsymmetric(Rank(keys[a], a), Rank(keys[b], b));
    }
  }

  /** Putting the first row in front of a listing of the others lists them all. */
  lemma {:induction false} ConsFirst(keys: map<Id, SortKey>, k: Id, rest: seq<Id>)
    requires IsFirst(keys, k)
    requires SortedBy(keys - {k}, rest) && (forall j :: j in rest <==> j in keys - {k})
    ensures SortedBy(keys, [k] + rest) && (forall j :: j in [k] + rest <==> j in keys)
  {
    var r := [k] + rest;
    forall i, j | 0 <= i < j < |r| ensures Before(keys, r[i], r[j]) {
      if i > 0 {
        assert Before(keys - {k}, rest[i - 1], rest[j - 1]);
      } else {
        assert r[j] == rest[j - 1] && r[j] in rest;
      }
    }
  }

  /** The rows of a table in listing order: each row exactly once, sorted. */
  function Ordered(keys: map<Id, SortKey>): (r: seq<Id>)
    ensures SortedBy(keys, r)
    ensures forall k :: k in r <==> k in keys
    decreases |keys|
  {
    if |keys| == 0 then []
    else
      FirstExists(keys);
      assert forall a, b :: IsFirst(keys, a) && IsFirst(keys, b) ==> a == b by {
        forall a, b | IsFirst(keys, a) && IsFirst(keys, b) ensures a == b { FirstUnique(keys, a, b); }
      }
      var k :| IsFirst(keys, k);
      assert |keys - {k}| < |keys| by { assert (keys - {k}).Keys < keys.Keys; }
      var rest := Ordered(keys - {k});
      ConsFirst(keys, k, rest);
      [k] + rest
  }

  /** The listing starts with the first row, then lists the others. */
  lemma {:induction false} PeelFirst(keys: map<Id, SortKey>, k: Id)
    requires IsFirst(keys, k)
    ensures Ordered(keys) == [k] + Ordered(keys - {k})
  {
    var o := Ordered(keys);
    assert o != [] by { assert k in o; }
    assert IsFirst(keys, o[0]) by {
      forall j | j in keys && j != o[0] ensures Before(keys, o[0], j) {
        var p :| 0 <= p < |o| && o[p] == j;
        assert p > 0;
      }
    }
    FirstUnique(keys, k, o[0]);
  }

  /** The head of a sorted listing of all rows is the first row, and its tail
      lists the others. */
  lemma {:induction false} SortedSplit(keys: map<Id, SortKey>, s: seq<Id>)
    requires SortedBy(keys, s) && (forall k :: k in s <==> k in keys) && s != []
    ensures IsFirst(keys, s[0])
    ensures SortedBy(keys - {s[0]}, s[1..])
    ensures forall j :: j in s[1..] <==> j in keys - {s[0]}
  {
    var k := s[0];
    SortedDistinct(keys, s);
    forall j | j in keys && j != k ensures Before(keys, k, j) {
      var p :| 0 <= p < |s| && s[p] == j;
    }
    forall j | j in keys - {k} ensures j in s[1..] {
      var p :| 0 <= p < |s| && s[p] == j;
      assert s[1..][p - 1] == j;
    }
    forall j | j in s[1..] ensures j != k {
      var p :| 0 <= p < |s[1..]| && s[1..][p] == j;
      assert s[p + 1] == j;
    }
  }

  /** A sorted listing of the rows is the listing: Ordered is the only one. */
  lemma {:induction false} OrderedUnique(keys: map<Id, SortKey>, s: seq<Id>)
    requires SortedBy(keys, s) && (forall k :: k in s <==> k in keys)
    ensures s == Ordered(keys)
    decreases |keys|
  {
    if s != [] {
      var k := s[0];
      SortedSplit(keys, s);
      var rest := keys - {k};
      assert |rest| < |keys| by { assert rest.Keys < keys.Keys; }
      OrderedUnique(rest, s[1..]);
      PeelFirst(keys, k);
      Collections.HeadTail(s);
    }
  }

  /** A row listed before another has a text that is not greater. */
  lemma {:induction false} BeforeText(keys: map<Id, SortKey>, a: Id, b: Id)
    requires a in keys && b in keys && Before(keys, a, b)
    ensures !StrLess(keys[b].text, keys[a].text)
    ensures keys[a].text == keys[b].text ==> keys[a].num <= keys[b].num
  {
    StrLessIrreflexive(keys[a].text);
    if StrLess(keys[a].text, keys[b].text) {
      StrLessAsymmetric(keys[a].text, keys[b].text);
    }
  }

  function Elements(s: seq<Id>): set<Id>
  {
    set x | x in s
  }

  /** A sequence with no repetition has as many distinct elements as positions. */
  lemma {:induction false} DistinctCard(s: seq<Id>)
    requires Distinct(s)
    ensures |Elements(s)| == |s|
  {
    if s != [] {
      DistinctCard(s[1..]);
      var t := Elements(s[1..]);
      assert Elements(s) == t + {s[0]};
      assert s[0] !in t by {
        forall p | 0 <= p < |s[1..]| ensures s[1..][p] != s[0] { assert s[1..][p] == s[p + 1]; }
      }
    } else {
      assert Elements(s) == {};
    }
  }

  /** The listing has one position per row. */
  lemma {:induction false} OrderedLength(keys: map<Id, SortKey>)
    ensures |Ordered(keys)| == |keys|
  {
    var o := Ordered(keys);
    SortedDistinct(keys, o);
    DistinctCard(o);
    assert Elements(o) == keys.Keys;
  }
}
