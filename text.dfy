/**
 * The string operations of the .NET base library that the core relies on,
 * written out: white space and trimming, ordinal case-insensitive comparison,
 * substring search, splitting and joining, and integer formatting and parsing.
 */
module Text {
  import opened Wrappers

  // ---------------------------------------------------------------------------
  // White space and trimming
  // ---------------------------------------------------------------------------

  /** char.IsWhiteSpace: the Unicode White_Space characters. */
  predicate IsWhite(c: char)
  {
    c == ' ' || ('\t' <= c <= '\r') || c == '\U{0085}' || c == '\U{00A0}' || c == '\U{1680}'
    || ('\U{2000}' <= c <= '\U{200A}') || c == '\U{2028}' || c == '\U{2029}'
    || c == '\U{202F}' || c == '\U{205F}' || c == '\U{3000}'
  }

  /** string.IsNullOrWhiteSpace on a string that is present. */
  predicate IsBlank(s: string)
  {
    forall i :: 0 <= i < |s| ==> IsWhite(s[i])
  }

  /** string.IsNullOrWhiteSpace on a nullable string. */
  predicate IsBlankOpt(s: Option<string>)
  {
    s.None? || IsBlank(s.value)
  }

  /** Drops the leading white space. */
  function TrimStart(s: string): (r: string)
    ensures |r| <= |s|
  {
    if |s| > 0 && IsWhite(s[0]) then TrimStart(s[1..]) else s
  }

  /** What TrimStart keeps is a suffix of `s` not starting with white space,
      and what it drops is blank. */
  lemma {:induction false} TrimStartSpec(s: string)
    ensures var r := TrimStart(s);
            r == s[|s| - |r|..] && IsBlank(s[..|s| - |r|]) && (r == [] || !IsWhite(r[0]))
    decreases |s|
  {
    if |s| > 0 && IsWhite(s[0]) {
      TrimStartSpec(s[1..]);
      var r := TrimStart(s[1..]);
      assert s[1..][..|s| - 1 - |r|] == s[1..|s| - |r|];
      assert s[..|s| - |r|] == [s[0]] + s[1..|s| - |r|];
    }
  }

  /** Drops the trailing white space. */
  function TrimEnd(s: string): (r: string)
    ensures |r| <= |s|
  {
    if |s| > 0 && IsWhite(s[|s| - 1]) then TrimEnd(s[..|s| - 1]) else s
  }

  /** What TrimEnd keeps is a prefix of `s` not ending in white space, and
      what it drops is blank. */
  lemma {:induction false} TrimEndSpec(s: string)
    ensures var r := TrimEnd(s);
            r == s[..|r|] && IsBlank(s[|r|..]) && (r == [] || !IsWhite(r[|r| - 1]))
    decreases |s|
  {
    if |s| > 0 && IsWhite(s[|s| - 1]) {
      TrimEndSpec(s[..|s| - 1]);
      var r := TrimEnd(s[..|s| - 1]);
      assert s[..|s| - 1][|r|..] == s[|r|..|s| - 1];
      assert s[|r|..] == s[|r|..|s| - 1] + [s[|s| - 1]];
    }
  }

  /** string.Trim. */
  function Trim(s: string): (r: string)
    ensures |r| <= |s|
  {
    TrimEnd(TrimStart(s))
  }

  /** Neither end of a trimmed string is white, and it is empty exactly for
      blank input. */
  lemma {:induction false} TrimSpec(s: string)
    ensures var r := Trim(s);
            (r == [] || (!IsWhite(r[0]) && !IsWhite(r[|r| - 1]))) && (r == [] <==> IsBlank(s))
  {
    var t := TrimStart(s);
    var r := TrimEnd(t);
    TrimStartSpec(s);
    TrimEndSpec(t);
    assert r != [] ==> r[0] == t[0];
    BlankJoin(s, |s| - |t|, r, t);
    if r == [] {
      assert Trim(s) == [];
    } else {
      assert !IsBlank(s) by {
        assert s[|s| - |t|] == t[0] == r[0];
      }
    }
  }

  /** A string whose ends are not white is its own trim. */
  lemma {:induction false} TrimFixed(s: string)
    requires s == [] || (!IsWhite(s[0]) && !IsWhite(s[|s| - 1]))
    ensures Trim(s) == s
  {
    if s != [] {
      assert TrimStart(s) == s;
    }
  }

  lemma {:induction false} BlankJoin(s: string, a: int, r: string, t: string)
    requires 0 <= a <= |s| && t == s[a..] && IsBlank(s[..a])
    requires |r| <= |t| && r == t[..|r|] && IsBlank(t[|r|..])
    ensures r == [] ==> IsBlank(s)
  {
    if r == [] {
      forall i | 0 <= i < |s| ensures IsWhite(s[i]) {
        if i >= a { assert s[i] == t[i - a]; assert t[|r|..][i - a] == t[i - a]; }
        else { assert s[i] == s[..a][i]; }
      }
    }
  }

  // ---------------------------------------------------------------------------
  // Ordinal case-insensitive comparison
  // ---------------------------------------------------------------------------

  /** The simple upper-case mapping of ordinal case-insensitive comparison,
      for the ASCII letters and the Turkish letters ç ğ ö ş ü. */
  function Upper(c: char): char
  {
    if 'a' <= c <= 'z' then (c as int - 32) as char
    else if c == 'ç' then 'Ç'
    else if c == 'ğ' then 'Ğ'
    else if c == 'ö' then 'Ö'
    else if c == 'ş' then 'Ş'
    else if c == 'ü' then 'Ü'
    else c
  }

  /** ToLowerInvariant on one character, for the same letters. */
  function Lower(c: char): char
  {
    if 'A' <= c <= 'Z' then (c as int + 32) as char
    else if c == 'Ç' then 'ç'
    else if c == 'Ğ' then 'ğ'
    else if c == 'Ö' then 'ö'
    else if c == 'Ş' then 'ş'
    else if c == 'Ü' then 'ü'
    else c
  }

  function UpperStr(s: string): (r: string)
    ensures |r| == |s|
  {
    seq(|s|, i requires 0 <= i < |s| => Upper(s[i]))
  }

  function LowerStr(s: string): (r: string)
    ensures |r| == |s|
  {
    seq(|s|, i requires 0 <= i < |s| => Lower(s[i]))
  }

  /** string.Equals(a, b, StringComparison.OrdinalIgnoreCase). */
  predicate EqIC(a: string, b: string)
  {
    UpperStr(a) == UpperStr(b)
  }

  /** string.Equals(a, b, OrdinalIgnoreCase) where either side may be null:
      two nulls are equal, a null and a string are not. */
  predicate EqICOpt(a: Option<string>, b: Option<string>)
  {
    (a.None? && b.None?) || (a.Some? && b.Some? && EqIC(a.value, b.value))
  }

  /** Folding distributes over slicing, so case-insensitive matching can look at parts. */
  lemma {:induction false} UpperStrSlice(s: string, i: int, j: int)
    requires 0 <= i <= j <= |s|
    ensures UpperStr(s[i..j]) == UpperStr(s)[i..j]
  {
  }

  /** s.StartsWith(p, OrdinalIgnoreCase). */
  predicate StartsWithIC(s: string, p: string)
  {
    UpperStr(p) <= UpperStr(s)
  }

  /** Ordinal s.Contains(t): `t` occurs in `s` at some offset. */
  predicate Contains(s: string, t: string)
  {
    exists i :: 0 <= i <= |s| && t <= s[i..]
  }

  /** s.Contains(t, OrdinalIgnoreCase). */
  predicate ContainsIC(s: string, t: string)
  {
    Contains(UpperStr(s), UpperStr(t))
  }

  /** A match found at some offset is a witness of Contains. */
  lemma {:induction false} ContainsAt(s: string, t: string, i: int)
    requires 0 <= i <= |s| && t <= s[i..]
    ensures Contains(s, t)
  {
  }

  /** An occurrence in a suffix is an occurrence in the whole string. */
  lemma {:induction false} ContainsICSuffix(s: string, t: string, k: int)
    requires 0 <= k <= |s|
    requires ContainsIC(s[k..], t)
    ensures ContainsIC(s, t)
  {
    var u := UpperStr(s[k..]);
    var i :| 0 <= i <= |u| && UpperStr(t) <= u[i..];
    UpperStrSlice(s, k, |s|);
    assert u[i..] == UpperStr(s)[k + i..];
    ContainsAt(UpperStr(s), UpperStr(t), k + i);
  }

  // ---------------------------------------------------------------------------
  // Ordinal order of strings (SQLite's BINARY collation, by code point)
  // ---------------------------------------------------------------------------

  /** Lexicographic order on code points: a proper prefix comes first. */
  predicate StrLess(a: string, b: string)
  {
    if |a| == 0 then |b| > 0
    else if |b| == 0 then false
    else a[0] < b[0] || (a[0] == b[0] && StrLess(a[1..], b[1..]))
  }

  lemma {:induction false} StrLessIrreflexive(a: string)
    ensures !StrLess(a, a)
  {
    if |a| > 0 { StrLessIrreflexive(a[1..]); }
  }

  lemma {:induction false} StrLessTransitive(a: string, b: string, c: string)
    requires StrLess(a, b) && StrLess(b, c)
    ensures StrLess(a, c)
  {
    if |a| > 0 && |b| > 0 && |c| > 0 && a[0] == b[0] && b[0] == c[0] {
      StrLessTransitive(a[1..], b[1..], c[1..]);
    }
  }

  /** Any two different strings are ordered one way or the other. */
  lemma {:induction false} StrLessTotal(a: string, b: string)
    requires a != b
    ensures StrLess(a, b) || StrLess(b, a)
  {
    if |a| > 0 && |b| > 0 && a[0] == b[0] {
      assert a == [a[0]] + a[1..] && b == [b[0]] + b[1..];
      StrLessTotal(a[1..], b[1..]);
    }
  }

  lemma {:induction false} StrLessAsymmetric(a: string, b: string)
    requires StrLess(a, b)
    ensures !StrLess(b, a)
  {
    if |a| > 0 && |b| > 0 && a[0] == b[0] {
      StrLessAsymmetric(a[1..], b[1..]);
    }
  }

  // ---------------------------------------------------------------------------
  // Splitting and joining
  // ---------------------------------------------------------------------------

  /** string.Split(seps): the pieces between separators, empty ones included. */
  function Split(s: string, seps: set<char>): (r: seq<string>)
    ensures |r| >= 1
    ensures forall i, j :: 0 <= i < |r| && 0 <= j < |r[i]| ==> r[i][j] !in seps
    ensures |r| == 1 ==> r[0] == s
  {
    if s == [] then [[]]
    else
      var rest := Split(s[1..], seps);
      if s[0] in seps then [[]] + rest
      else
        assert |rest| == 1 ==> rest[0] == s[1..];
        [[s[0]] + rest[0]] + rest[1..]
  }

  /** StringSplitOptions.RemoveEmptyEntries: keeps the non-empty pieces in order. */
  function RemoveEmpty(ps: seq<string>): (r: seq<string>)
    ensures forall i :: 0 <= i < |r| ==> r[i] != []
    ensures forall x :: x in r <==> x in ps && x != []
  {
    if ps == [] then []
    else if ps[0] == [] then RemoveEmpty(ps[1..])
    else [ps[0]] + RemoveEmpty(ps[1..])
  }

  /** string.Join(sep, parts). */
  function Join(parts: seq<string>, sep: string): string
  {
    if |parts| == 0 then []
    else if |parts| == 1 then parts[0]
    else parts[0] + sep + Join(parts[1..], sep)
  }

  /** Splitting peels off whatever precedes the first separator. */
  lemma {:induction false} SplitConcat(p: string, c: char, rest: string, seps: set<char>)
    requires c in seps
    requires forall j :: 0 <= j < |p| ==> p[j] !in seps
    ensures Split(p + [c] + rest, seps) == [p] + Split(rest, seps)
  {
    if p == [] {
      assert p + [c] + rest == [c] + rest;
      assert ([c] + rest)[1..] == rest;
    } else {
      SplitConcat(p[1..], c, rest, seps);
      assert (p + [c] + rest)[1..] == p[1..] + [c] + rest;
      assert [p[0]] + p[1..] == p;
    }
  }

  /** A separator-free string splits into itself. */
  lemma {:induction false} SplitNoSeparator(p: string, seps: set<char>)
    requires forall j :: 0 <= j < |p| ==> p[j] !in seps
    ensures Split(p, seps) == [p]
  {
    if p != [] {
      SplitNoSeparator(p[1..], seps);
      assert [p[0]] + p[1..] == p;
    }
  }

  /** Three separator-free parts joined by a separator split back into them. */
  lemma {:induction false} SplitThree(a: string, b: string, c: string, sep: char)
    requires forall j :: 0 <= j < |a| ==> a[j] != sep
    requires forall j :: 0 <= j < |b| ==> b[j] != sep
    requires forall j :: 0 <= j < |c| ==> c[j] != sep
    ensures Split(a + [sep] + b + [sep] + c, {sep}) == [a, b, c]
  {
    assert a + [sep] + b + [sep] + c == a + [sep] + (b + [sep] + c);
    SplitConcat(a, sep, b + [sep] + c, {sep});
    SplitConcat(b, sep, c, {sep});
    SplitNoSeparator(c, {sep});
  }

  /** Splitting a join on a character no part contains gives the parts back. */
  lemma {:induction false} SplitJoin(parts: seq<string>, c: char)
    requires |parts| >= 1
    requires forall i, j :: 0 <= i < |parts| && 0 <= j < |parts[i]| ==> parts[i][j] != c
    ensures Split(Join(parts, [c]), {c}) == parts
  {
    if |parts| == 1 {
      SplitNoSeparator(parts[0], {c});
    } else {
      SplitJoin(parts[1..], c);
      SplitConcat(parts[0], c, Join(parts[1..], [c]), {c});
      assert [parts[0]] + parts[1..] == parts;
    }
  }

  // ---------------------------------------------------------------------------
  // Digits and integers
  // ---------------------------------------------------------------------------

  /** ASCII decimal digits (char.IsDigit restricted to '0'..'9'). */
  predicate IsDigit(c: char)
  {
    '0' <= c <= '9'
  }

  predicate AllDigits(s: string)
  {
    forall i :: 0 <= i < |s| ==> IsDigit(s[i])
  }

  function DigitChar(d: nat): (c: char)
    requires d < 10
    ensures IsDigit(c) && c as int - '0' as int == d
  {
    ('0' as int + d) as char
  }

  /** The value of a string of decimal digits. */
  function DigitsValue(s: string): nat
    requires AllDigits(s)
  {
    if s == [] then 0 else DigitsValue(s[..|s| - 1]) * 10 + (s[|s| - 1] as int - '0' as int)
  }

  /** Int32.ToString() for a non-negative value: the digits whose value is `n`. */
  function NatToString(n: nat): (r: string)
    ensures |r| >= 1 && AllDigits(r)
    ensures DigitsValue(r) == n
    ensures n >= 10 ==> r[0] != '0'
  {
    if n < 10 then [DigitChar(n)]
    else
      var r := NatToString(n / 10) + [DigitChar(n % 10)];
      assert r[..|r| - 1] == NatToString(n / 10);
      r
  }

  function Pow10(k: nat): nat
  {
    if k == 0 then 1 else 10 * Pow10(k - 1)
  }

  /** A number below 10^k takes at most k digits. */
  lemma {:induction false} NatToStringShort(n: nat, k: nat)
    requires k >= 1 && n < Pow10(k)
    ensures |NatToString(n)| <= k
  {
    if n >= 10 {
      NatToStringShort(n / 10, k - 1);
    }
  }

  /** Int32.ToString(): a minus sign before the digits of a negative value. */
  function IntToString(i: int): string
  {
    if i < 0 then "-" + NatToString(-i) else NatToString(i)
  }

  const Int32Min: int := -0x8000_0000
  const Int32Max: int := 0x7FFF_FFFF

  /** The white space int.TryParse accepts around a number. */
  predicate IsNumberWhite(c: char)
  {
    c == ' ' || ('\t' <= c <= '\r')
  }

  function DropLeadingNumberWhite(s: string): string
  {
    if |s| > 0 && IsNumberWhite(s[0]) then DropLeadingNumberWhite(s[1..]) else s
  }

  function DropTrailingNumberWhite(s: string): string
  {
    if |s| > 0 && IsNumberWhite(s[|s| - 1]) then DropTrailingNumberWhite(s[..|s| - 1]) else s
  }

  /** int.TryParse(s, NumberStyles.Integer): optional surrounding white space,
      an optional sign, at least one digit, and a value that fits in 32 bits;
      a null string does not parse. */
  function ParseInt(s: Option<string>): (r: Option<int>)
    ensures r.Some? ==> Int32Min <= r.value <= Int32Max
  {
    if s.None? then None
    else
      var t := DropTrailingNumberWhite(DropLeadingNumberWhite(s.value));
      if |t| == 0 then None
      else
        var neg := t[0] == '-';
        var ds := if t[0] == '-' || t[0] == '+' then t[1..] else t;
        if |ds| == 0 || !AllDigits(ds) then None
        else
          var v: int := if neg then 0 - DigitsValue(ds) as int else DigitsValue(ds);
          if Int32Min <= v <= Int32Max then Some(v) else None
  }

  /** Formatting a 32-bit integer and parsing it back gives the integer. */
  lemma {:induction false} ParseIntToString(i: int)
    requires Int32Min <= i <= Int32Max
    ensures ParseInt(Some(IntToString(i))) == Some(i)
  {
    var s := IntToString(i);
    assert DropLeadingNumberWhite(s) == s;
    if i < 0 {
      var d := NatToString(-i);
      assert s[1..] == d;
      assert s[|s| - 1] == d[|d| - 1];
    } else {
      assert s[0] != '-' && s[0] != '+';
    }
    assert DropTrailingNumberWhite(s) == s;
  }

  // ---------------------------------------------------------------------------
  // Replacement
  // ---------------------------------------------------------------------------

  /** s.Replace(pat, rep, OrdinalIgnoreCase): every occurrence, scanning left to
      right without overlap, is replaced; with no occurrence `s` is unchanged. */
  function ReplaceIC(s: string, pat: string, rep: string): string
    requires |pat| > 0
    decreases |s|
  {
    if |s| < |pat| then s
    else if EqIC(s[..|pat|], pat) then rep + ReplaceIC(s[|pat|..], pat, rep)
    else [s[0]] + ReplaceIC(s[1..], pat, rep)
  }

  /** Text with no match of the pattern is left as it is. */
  lemma {:induction false} ReplaceICUnchanged(s: string, pat: string, rep: string)
    requires |pat| > 0 && !ContainsIC(s, pat)
    ensures ReplaceIC(s, pat, rep) == s
    decreases |s|
  {
    if |s| >= |pat| {
      if EqIC(s[..|pat|], pat) {
        UpperStrSlice(s, 0, |pat|);
        ContainsAt(UpperStr(s), UpperStr(pat), 0);
      } else {
        if ContainsIC(s[1..], pat) { ContainsICSuffix(s, pat, 1); }
        ReplaceICUnchanged(s[1..], pat, rep);
        assert [s[0]] + s[1..] == s;
      }
    }
  }

  /** A match of the pattern, ignoring case, starts at position `i`. */
  predicate MatchAt(s: string, pat: string, i: int)
  {
    0 <= i && i + |pat| <= |s| && EqIC(s[i..i + |pat|], pat)
  }

  /** No match of the pattern starts before position `n`. */
  predicate NoMatchBefore(s: string, pat: string, n: nat)
  {
    forall i :: 0 <= i < n ==> !MatchAt(s, pat, i)
  }

  /** The scan copies a prefix in which no match starts as it is. */
  lemma {:induction false} ReplaceICSkip(s: string, pat: string, rep: string, n: nat)
    requires |pat| > 0 && n <= |s| && NoMatchBefore(s, pat, n)
    ensures ReplaceIC(s, pat, rep) == s[..n] + ReplaceIC(s[n..], pat, rep)
    decreases n
  {
    if n > 0 {
      if |s| < |pat| {
        assert s[..n] + s[n..] == s;
      } else {
        assert !MatchAt(s, pat, 0);
        assert s[..|pat|] == s[0..0 + |pat|];
        var t := s[1..];
        forall i | 0 <= i < n - 1 ensures !MatchAt(t, pat, i) {
          assert !MatchAt(s, pat, i + 1);
          if i + |pat| <= |t| {
            assert t[i..i + |pat|] == s[i + 1..i + 1 + |pat|];
          }
        }
        ReplaceICSkip(t, pat, rep, n - 1);
        assert t[..n - 1] == s[1..n] && t[n - 1..] == s[n..];
        assert [s[0]] + s[1..n] == s[..n];
      }
    }
  }

  /** The first match, after a prefix with none, is replaced and the scan
      goes on after it: a + pat + b becomes a + rep + (b with its matches
      replaced). */
  lemma {:induction false} ReplaceICAfterMatch(a: string, pat: string, b: string, rep: string)
    requires |pat| > 0 && NoMatchBefore(a + pat + b, pat, |a|)
    ensures ReplaceIC(a + pat + b, pat, rep) == a + rep + ReplaceIC(b, pat, rep)
  {
    var s := a + pat + b;
    ReplaceICSkip(s, pat, rep, |a|);
    assert s[..|a|] == a && s[|a|..] == pat + b;
    assert (pat + b)[..|pat|] == pat && (pat + b)[|pat|..] == b;
  }

  /** HashSet.Contains / Any with an ordinal case-insensitive comparer. */
  predicate SeenIC(names: seq<string>, name: string)
  {
    exists i :: 0 <= i < |names| && EqIC(names[i], name)
  }

  /** No two entries are equal ignoring case. */
  predicate DistinctIC(names: seq<string>)
  {
    forall i, j :: 0 <= i < j < |names| ==> !EqIC(names[i], names[j])
  }

  /** `seed`, then each name of `names` not seen before, in order: the first
      spelling of a name wins (HashSet with an ignore-case comparer, Distinct
      with StringComparer.OrdinalIgnoreCase). */
  function DedupIC(seed: seq<string>, names: seq<string>): (r: seq<string>)
    ensures seed <= r
  {
    if names == [] then seed
    else
      var n := |names| - 1;
      var prev := DedupIC(seed, names[..n]);
      if SeenIC(prev, names[n]) then prev else prev + [names[n]]
  }

  /** Appending a name nobody listed keeps the list free of repeats. */
  lemma {:induction false} DistinctSnoc(names: seq<string>, x: string)
    requires DistinctIC(names) && !SeenIC(names, x)
    ensures DistinctIC(names + [x])
  {
    forall i, j | 0 <= i < j < |names + [x]| ensures !EqIC((names + [x])[i], (names + [x])[j]) {
      if j == |names| {
        assert (names + [x])[i] == names[i];
      }
    }
  }

  lemma {:induction false} DedupICStep(seed: seq<string>, names: seq<string>)
    requires names != []
    ensures var n := |names| - 1;
            var prev := DedupIC(seed, names[..n]);
            DedupIC(seed, names) == if SeenIC(prev, names[n]) then prev else prev + [names[n]]
  {
  }

  /** Starting from a repeat-free seed, no name is listed twice. */
  lemma {:induction false} DedupICDistinct(seed: seq<string>, names: seq<string>)
    requires DistinctIC(seed)
    ensures DistinctIC(DedupIC(seed, names))
  {
    if names != [] {
      var n := |names| - 1;
      DedupICDistinct(seed, names[..n]);
      if !SeenIC(DedupIC(seed, names[..n]), names[n]) {
        DistinctSnoc(DedupIC(seed, names[..n]), names[n]);
      }
    }
  }

  /** Every input name is listed, perhaps in another case. */
  lemma {:induction false} DedupICCovers(seed: seq<string>, names: seq<string>)
    ensures forall k :: 0 <= k < |names| ==> SeenIC(DedupIC(seed, names), names[k])
  {
    if names != [] {
      var n := |names| - 1;
      var prev := DedupIC(seed, names[..n]);
      var r := DedupIC(seed, names);
      DedupICCovers(seed, names[..n]);
      DedupICStep(seed, names);
      assert prev <= r;
      forall k | 0 <= k < |names| ensures SeenIC(r, names[k]) {
        if k < n {
          assert names[..n][k] == names[k];
          var i :| 0 <= i < |prev| && EqIC(prev[i], names[k]);
          assert r[i] == prev[i];
        } else if !SeenIC(prev, names[n]) {
          assert r[|prev|] == names[n];
        }
      }
    }
  }

  /** After the seed the list holds only input names. */
  lemma {:induction false} DedupICFrom(seed: seq<string>, names: seq<string>)
    ensures forall i :: |seed| <= i < |DedupIC(seed, names)| ==> DedupIC(seed, names)[i] in names
  {
    if names != [] {
      var n := |names| - 1;
      var prev := DedupIC(seed, names[..n]);
      var r := DedupIC(seed, names);
      DedupICFrom(seed, names[..n]);
      DedupICStep(seed, names);
      forall i | |seed| <= i < |r| ensures r[i] in names {
        if i < |prev| {
          assert r[i] == prev[i] && prev[i] in names[..n];
        } else {
          assert r[i] == names[n];
        }
      }
    }
  }
}
