/**
 * The spreadsheet import and export helpers of ExcelService: finding a column
 * by one of its header synonyms, reading numbers, times and dates, pulling the
 * serial, lot and expiry date out of a free-text description, normalising
 * hospital names and phone numbers, formatting used-material lines, and the
 * per-row loops of the material and checklist imports.
 *
 * A worksheet is given as its header row (the used cells' text and column
 * number, in column order), from which BuildHeaderMap makes the header map,
 * and its data rows (cell text by column number; an empty cell reads as "").
 */
module Excel {
  import opened Wrappers
  import opened Text
  import opened Models

  /** The used cells of the first row: text and column number. */
  type HeaderCells = seq<(string, int)>
  /** The header map: a dictionary with ignore-case keys, as its entries in
      the order the keys were first added. */
  type Headers = seq<(string, int)>
  type Row = map<int, string>

  /** row.Cell(col).GetString(): a cell never written reads as "". */
  function CellText(row: Row, col: int): string
  {
    if col in row then row[col] else ""
  }

  // ---------------------------------------------------------------------------
  // ReadCell
  // ---------------------------------------------------------------------------

  // ---------------------------------------------------------------------------
  // BuildHeaderMap
  // ---------------------------------------------------------------------------

  /** headerMap[header] = column, the keys compared ignoring case: a key
      already there keeps its spelling and takes the new column; a new one is
      added last. */
  function SetHeader(headers: Headers, header: string, col: int): (r: Headers)
    ensures |r| == |headers| || |r| == |headers| + 1
  {
    if headers == [] then [(header, col)]
    else if EqIC(headers[0].0, header) then [(headers[0].0, col)] + headers[1..]
    else [headers[0]] + SetHeader(headers[1..], header, col)
  }

  /** The header map of a first row: each cell's trimmed text, blank ones
      skipped, set in column order. */
  function HeaderMapOf(cells: HeaderCells): Headers
  {
    if cells == [] then []
    else
      var n := |cells| - 1;
      var header := Trim(cells[n].0);
      if IsBlank(header) then HeaderMapOf(cells[..n]) else SetHeader(HeaderMapOf(cells[..n]), header, cells[n].1)
  }

  /** BuildHeaderMap: the loop over the first row's used cells. */
  method BuildHeaderMap(cells: HeaderCells) returns (headers: Headers)
    ensures headers == HeaderMapOf(cells)
  {
    headers := [];
    var i := 0;
    while i < |cells|
      invariant 0 <= i <= |cells|
      invariant headers == HeaderMapOf(cells[..i])
    {
      assert cells[..i + 1][..i] == cells[..i];
      var header := Trim(cells[i].0);
      if !IsBlank(header) {
        headers := SetHeader(headers, header, cells[i].1);
      }
      i := i + 1;
    }
    assert cells[..i] == cells;
  }

  /** The reference reading of a first row: the column of the last cell
      whose trimmed, non-blank text equals `key` ignoring case. */
  function LastHeaderColumn(cells: HeaderCells, key: string): Option<int>
  {
    if cells == [] then None
    else
      var n := |cells| - 1;
      var header := Trim(cells[n].0);
      if !IsBlank(header) && EqIC(header, key) then Some(cells[n].1) else LastHeaderColumn(cells[..n], key)
  }

  /** After headerMap[header] = col, a key matching the header finds col
      and any other finds what it found before. */
  lemma {:induction false} SetHeaderLookup(headers: Headers, header: string, col: int, key: string)
    ensures HeaderColumn(SetHeader(headers, header, col), key)
            == if EqIC(header, key) then Some(col) else HeaderColumn(headers, key)
  {
    if headers != [] && !EqIC(headers[0].0, header) {
      SetHeaderLookup(headers[1..], header, col, key);
    }
  }

  /** headerMap[header] = col adds the header as a key exactly when no key
      equals it ignoring case. */
  lemma {:induction false} SetHeaderKeys(headers: Headers, header: string, col: int)
    ensures KeysOfHeaders(SetHeader(headers, header, col))
            == if SeenIC(KeysOfHeaders(headers), header) then KeysOfHeaders(headers) else KeysOfHeaders(headers) + [header]
  {
    var ks := KeysOfHeaders(headers);
    var r := SetHeader(headers, header, col);
    if headers == [] {
      assert KeysOfHeaders(r) == [header];
    } else if EqIC(headers[0].0, header) {
      assert SeenIC(ks, header) by { assert EqIC(ks[0], header); }
      assert KeysOfHeaders(r) == ks;
    } else {
      var rest := headers[1..];
      SetHeaderKeys(rest, header, col);
      assert KeysOfHeaders(rest) == ks[1..];
      SeenICTail(ks, header);
      assert r == [headers[0]] + SetHeader(rest, header, col);
      assert KeysOfHeaders(r) == [ks[0]] + KeysOfHeaders(SetHeader(rest, header, col));
      assert ks == [ks[0]] + ks[1..];
    }
  }

  /** A name not equal to the first one is seen in a list exactly when it is
      seen in the rest. */
  lemma SeenICTail(names: seq<string>, name: string)
    requires names != [] && !EqIC(names[0], name)
    ensures SeenIC(names, name) <==> SeenIC(names[1..], name)
  {
    if SeenIC(names, name) {
      var i :| 0 <= i < |names| && EqIC(names[i], name);
      assert i > 0 && names[1..][i - 1] == names[i];
    }
    if SeenIC(names[1..], name) {
      var i :| 0 <= i < |names[1..]| && EqIC(names[1..][i], name);
      assert names[i + 1] == names[1..][i];
    }
  }

  /** A name unseen so far keeps a list free of repeats ignoring case. */
  lemma {:induction false} DistinctICSnoc(names: seq<string>, name: string)
    requires DistinctIC(names) && !SeenIC(names, name)
    ensures DistinctIC(names + [name])
  {
    var r := names + [name];
    forall a, b | 0 <= a < b < |r| ensures !EqIC(r[a], r[b]) {
      if b == |names| {
        assert r[a] == names[a];
      } else {
        assert r[a] == names[a] && r[b] == names[b];
      }
    }
  }

  /** The keys of a header map, in order. */
  function KeysOfHeaders(headers: Headers): (r: seq<string>)
    ensures |r| == |headers| && forall i :: 0 <= i < |headers| ==> r[i] == headers[i].0
  {
    seq(|headers|, i requires 0 <= i < |headers| => headers[i].0)
  }

  /** What ReadCell finds for a key in the map BuildHeaderMap makes is the
      column of the last trimmed header equal to it, and the map holds each
      header once, ignoring case. */
  lemma {:induction false} HeaderMapLookup(cells: HeaderCells, key: string)
    ensures HeaderColumn(HeaderMapOf(cells), key) == LastHeaderColumn(cells, key)
    ensures DistinctIC(KeysOfHeaders(HeaderMapOf(cells)))
  {
    if cells != [] {
      var n := |cells| - 1;
      HeaderMapLookup(cells[..n], key);
      var header := Trim(cells[n].0);
      if !IsBlank(header) {
        SetHeaderLookup(HeaderMapOf(cells[..n]), header, cells[n].1, key);
        SetHeaderKeys(HeaderMapOf(cells[..n]), header, cells[n].1);
        if !SeenIC(KeysOfHeaders(HeaderMapOf(cells[..n])), header) {
          DistinctICSnoc(KeysOfHeaders(HeaderMapOf(cells[..n])), header);
        }
      }
    }
  }

  /** Two spellings of one header: the later column wins. */
  lemma {:induction false} HeaderMapLaterWins()
    ensures HeaderColumn(HeaderMapOf([("Ad", 1), ("AD", 3)]), "ad") == Some(3)
  {
    HeaderMapLookup([("Ad", 1), ("AD", 3)], "ad");
    assert !IsWhite('A') && !IsWhite('D') && !IsWhite('d');
    assert Trim("AD") == "AD" by { assert TrimStart("AD") == "AD"; assert TrimEnd("AD") == "AD"; }
    assert EqIC("AD", "ad") by { assert UpperStr("ad") == "AD" && UpperStr("AD") == "AD"; }
  }

  /** A header is found without the spaces around it. */
  lemma {:induction false} HeaderMapTrims()
    ensures HeaderColumn(HeaderMapOf([(" Ad ", 1)]), "Ad") == Some(1)
  {
    HeaderMapLookup([(" Ad ", 1)], "Ad");
    assert !IsWhite('A') && !IsWhite('d');
    assert Trim(" Ad ") == "Ad" by {
      assert TrimStart(" Ad ") == TrimStart("Ad ") == "Ad ";
      assert TrimEnd("Ad ") == TrimEnd("Ad") == "Ad";
    }
    assert EqIC("Ad", "Ad");
  }

  // ---------------------------------------------------------------------------
  // ReadCell's lookup
  // ---------------------------------------------------------------------------

  /** The column of the first key of the header map equal to `key`,
      ignoring case; BuildHeaderMap leaves at most one. */
  function HeaderColumn(headers: Headers, key: string): Option<int>
  {
    if headers == [] then None
    else if EqIC(headers[0].0, key) then Some(headers[0].1)
    else HeaderColumn(headers[1..], key)
  }

  /** No column is found exactly when no header matches; a column found is
      that of the first matching header. */
  lemma {:induction false} HeaderColumnSpec(headers: Headers, key: string)
    ensures HeaderColumn(headers, key).None? <==> forall i :: 0 <= i < |headers| ==> !EqIC(headers[i].0, key)
    ensures HeaderColumn(headers, key).Some? ==>
              exists i :: 0 <= i < |headers| && EqIC(headers[i].0, key) && headers[i].1 == HeaderColumn(headers, key).value
                && forall j :: 0 <= j < i ==> !EqIC(headers[j].0, key)
  {
    if headers != [] && !EqIC(headers[0].0, key) {
      HeaderColumnSpec(headers[1..], key);
      assert forall i :: 1 <= i < |headers| ==> headers[1..][i - 1] == headers[i];
      if HeaderColumn(headers, key).Some? {
        var i :| 0 <= i < |headers[1..]| && EqIC(headers[1..][i].0, key) && headers[1..][i].1 == HeaderColumn(headers, key).value
                 && forall j :: 0 <= j < i ==> !EqIC(headers[1..][j].0, key);
        assert EqIC(headers[i + 1].0, key) && headers[i + 1].1 == HeaderColumn(headers, key).value;
        assert forall j :: 0 <= j < i + 1 ==> !EqIC(headers[j].0, key) by {
          forall j | 0 <= j < i + 1 ensures !EqIC(headers[j].0, key) {
            if j > 0 { assert headers[j] == headers[1..][j - 1]; }
          }
        }
      }
    }
  }

  /** The column ReadCell reads for a list of synonyms: that of the first
      synonym naming a column, or nothing when none of them does. It depends
      on the header row only, not on the data row. */
  function ColumnFor(headers: Headers, keys: seq<string>): Option<int>
  {
    if keys == [] then None
    else
      match HeaderColumn(headers, keys[0])
      case Some(col) => Some(col)
      case None => ColumnFor(headers, keys[1..])
  }

  /** What ReadCell answers: the row's cell in that column, if there is one. */
  function CellFor(headers: Headers, row: Row, keys: seq<string>): Option<string>
  {
    match ColumnFor(headers, keys)
    case Some(col) => Some(CellText(row, col))
    case None => None
  }

  /** Nothing is read exactly when no synonym names a column. */
  lemma {:induction false} CellForNone(headers: Headers, row: Row, keys: seq<string>)
    ensures CellFor(headers, row, keys).None? <==> forall k :: 0 <= k < |keys| ==> HeaderColumn(headers, keys[k]).None?
  {
    if keys != [] && HeaderColumn(headers, keys[0]).None? {
      CellForNone(headers, row, keys[1..]);
      assert forall k :: 1 <= k < |keys| ==> keys[1..][k - 1] == keys[k];
    }
  }

  /** When synonym `k` is the first that names a column, its cell is the answer. */
  lemma {:induction false} CellForFirst(headers: Headers, row: Row, keys: seq<string>, k: int)
    requires 0 <= k < |keys| && HeaderColumn(headers, keys[k]).Some?
    requires forall j :: 0 <= j < k ==> HeaderColumn(headers, keys[j]).None?
    ensures CellFor(headers, row, keys) == Some(CellText(row, HeaderColumn(headers, keys[k]).value))
  {
    if k > 0 {
      CellForFirst(headers, row, keys[1..], k - 1);
    }
  }

  /** ReadCell: tries the synonyms in turn and returns the first cell found. */
  method ReadCell(headers: Headers, row: Row, keys: seq<string>) returns (r: Option<string>)
    ensures r == CellFor(headers, row, keys)
  {
    var i := 0;
    while i < |keys|
      invariant 0 <= i <= |keys|
      invariant ColumnFor(headers, keys[i..]) == ColumnFor(headers, keys)
    {
      assert keys[i..][1..] == keys[i + 1..];
      var column := HeaderColumn(headers, keys[i]);
      if column.Some? {
        return Some(CellText(row, column.value));
      }
      i := i + 1;
    }
    return None;
  }

  // ---------------------------------------------------------------------------
  // Numbers
  // ---------------------------------------------------------------------------

  /** ParseQuantity: the integer the text holds, or 0 when it holds none. */
  function ParseQuantity(value: Option<string>): (r: int)
    ensures Int32Min <= r <= Int32Max
    ensures ParseInt(value).None? ==> r == 0
  {
    match ParseInt(value)
    case Some(q) => q
    case None => 0
  }

  /** A 32-bit quantity written out reads back as itself; a missing cell reads as 0. */
  lemma {:induction false} ParseQuantityRoundTrip(q: int)
    requires Int32Min <= q <= Int32Max
    ensures ParseQuantity(Some(IntToString(q))) == q
    ensures ParseQuantity(None) == 0
  {
    ParseIntToString(q);
  }

  // ---------------------------------------------------------------------------
  // ExtractValue
  // ---------------------------------------------------------------------------

  /** text.IndexOf(c): the first position holding `c`. */
  function IndexOf(s: string, c: char): (r: Option<nat>)
    ensures r.Some? ==> r.value < |s| && s[r.value] == c && forall j :: 0 <= j < r.value ==> s[j] != c
    ensures r.None? <==> forall j :: 0 <= j < |s| ==> s[j] != c
  {
    if s == [] then None
    else if s[0] == c then Some(0)
    else
      match IndexOf(s[1..], c)
      case Some(i) => Some(i + 1)
      case None => None
  }

  /** ExtractValue: the trimmed text after the first ':' when something follows
      it, else after the first '=' on the same condition, else the whole text trimmed. */
  function ExtractValue(text: string): string
  {
    var colon := IndexOf(text, ':');
    if colon.Some? && colon.value + 1 < |text| then Trim(text[colon.value + 1..])
    else
      var equals := IndexOf(text, '=');
      if equals.Some? && equals.value + 1 < |text| then Trim(text[equals.value + 1..])
      else Trim(text)
  }

  /** "LABEL:value" yields the value trimmed, whatever the value holds. */
  lemma {:induction false} ExtractValueAfterColon(tag: string, v: string)
    requires forall j :: 0 <= j < |tag| ==> tag[j] != ':'
    requires v != []
    ensures ExtractValue(tag + ":" + v) == Trim(v)
  {
    var t := tag + ":" + v;
    assert t[|tag|] == ':';
    assert forall j :: 0 <= j < |tag| ==> t[j] == tag[j];
    assert IndexOf(t, ':') == Some(|tag|);
    assert t[|tag| + 1..] == v;
  }

  /** "LABEL=value" with no colon anywhere yields the value trimmed. */
  lemma {:induction false} ExtractValueAfterEquals(tag: string, v: string)
    requires forall j :: 0 <= j < |tag| ==> tag[j] != '=' && tag[j] != ':'
    requires forall j :: 0 <= j < |v| ==> v[j] != ':'
    requires v != []
    ensures ExtractValue(tag + "=" + v) == Trim(v)
  {
    var t := tag + "=" + v;
    assert t[|tag|] == '=';
    assert forall j :: 0 <= j < |tag| ==> t[j] == tag[j];
    assert forall j :: |tag| < j < |t| ==> t[j] == v[j - |tag| - 1];
    assert IndexOf(t, ':') == None;
    assert IndexOf(t, '=') == Some(|tag|);
    assert t[|tag| + 1..] == v;
  }

  /** A text with neither separator, or with one only at its very end, yields
      itself trimmed. */
  lemma {:induction false} ExtractValueWhole(text: string)
    requires forall j :: 0 <= j < |text| - 1 ==> text[j] != ':' && text[j] != '='
    ensures ExtractValue(text) == Trim(text)
  {
  }

  // ---------------------------------------------------------------------------
  // Dates: DateTime.TryParseExact(value, {"dd.MM.yyyy", "d.M.yyyy"})
  // ---------------------------------------------------------------------------

  predicate IsLeapYear(y: int)
  {
    y % 4 == 0 && (y % 100 != 0 || y % 400 == 0)
  }

  function DaysInMonth(y: int, m: int): int
  {
    if m == 2 then (if IsLeapYear(y) then 29 else 28)
    else if m == 4 || m == 6 || m == 9 || m == 11 then 30
    else 31
  }

  /** A date the DateTime type can hold. */
  predicate ValidDate(d: Date)
  {
    1 <= d.year <= 9999 && 1 <= d.month <= 12 && 1 <= d.day <= DaysInMonth(d.year, d.month)
  }

  /** One or two digits, as the "d" and "M" specifiers read them ("dd" and
      "MM" read exactly two, which "d.M.yyyy" accepts as well). */
  predicate ShortField(s: string)
  {
    1 <= |s| <= 2 && AllDigits(s)
  }

  /** Day, month and four-digit year separated by dots, forming a real date. */
  function ParseDate(s: string): (r: Option<Date>)
    ensures r.Some? ==> ValidDate(r.value)
  {
    var fields := Split(s, {'.'});
    if |fields| != 3 then None
    else if !(ShortField(fields[0]) && ShortField(fields[1]) && |fields[2]| == 4 && AllDigits(fields[2])) then None
    else
      var d := Date(DigitsValue(fields[2]), DigitsValue(fields[1]), DigitsValue(fields[0]));
      if ValidDate(d) then Some(d) else None
  }

  lemma {:induction false} PaddedExact(n: nat, width: nat)
    requires width >= 1 && n < Pow10(width)
    ensures |Padded(n, width)| == width
  {
    NatToStringShort(n, width);
  }

  /** The three fields of a formatted date with a non-negative day, month and year. */
  lemma {:induction false} FormatDateFields(d: Date)
    requires 0 <= d.day < 100 && 0 <= d.month < 100 && 0 <= d.year < 10000
    ensures Split(FormatDate(d), {'.'}) == [Padded(d.day, 2), Padded(d.month, 2), Padded(d.year, 4)]
  {
    var a, b, c := Padded(d.day, 2), Padded(d.month, 2), Padded(d.year, 4);
    assert FormatDate(d) == a + ['.'] + b + ['.'] + c;
    assert forall j :: 0 <= j < |a| ==> a[j] != '.' by { assert AllDigits(a); }
    assert forall j :: 0 <= j < |b| ==> b[j] != '.' by { assert AllDigits(b); }
    assert forall j :: 0 <= j < |c| ==> c[j] != '.' by { assert AllDigits(c); }
    SplitThree(a, b, c, '.');
  }

  /** A valid date written as "dd.MM.yyyy" parses back to itself. */
  lemma {:induction false} ParseFormattedDate(d: Date)
    requires ValidDate(d)
    ensures ParseDate(FormatDate(d)) == Some(d)
  {
    assert Pow10(2) == 100 && Pow10(4) == 10000;
    PaddedExact(d.day, 2);
    PaddedExact(d.month, 2);
    PaddedExact(d.year, 4);
    FormatDateFields(d);
  }

  // ---------------------------------------------------------------------------
  // PopulateMaterialFromDescription
  // ---------------------------------------------------------------------------

  const DescriptionSeparators: set<char> := {'\\', '/', '\n', ';'}

  /** The description split on the separators, empty segments dropped. */
  function Segments(description: string): seq<string>
  {
    RemoveEmpty(Split(description, DescriptionSeparators))
  }

  /** Which field a trimmed segment addresses, by its prefix (ignoring case),
      checked in this order. */
  datatype SegmentKind = SerialSegment | LotSegment | ExpirySegment | OtherSegment

  const SerialTag: string := "SERİ"
  const LotTag: string := "LOT"
  const ExpiryTag: string := "SKT"
  const ExpiryTagEnglish: string := "EXP"

  function KindOf(text: string): SegmentKind
  {
    if StartsWithIC(text, SerialTag) then SerialSegment
    else if StartsWithIC(text, LotTag) then LotSegment
    else if StartsWithIC(text, ExpiryTag) || StartsWithIC(text, ExpiryTagEnglish) then ExpirySegment
    else OtherSegment
  }

  /** What one segment does to the material: a "SERİ" segment sets the serial,
      a "LOT" segment the lot, an "SKT" or "EXP" segment the expiry date when
      its value is a date, and any other segment nothing. */
  function ApplySegment(m: Material, segment: string): Material
  {
    var text := Trim(segment);
    match KindOf(text)
    case SerialSegment => m.(serial := Some(ExtractValue(text)))
    case LotSegment => m.(lot := Some(ExtractValue(text)))
    case ExpirySegment => WithExpiry(m, ExtractValue(text))
    case OtherSegment => m
  }

  /** The expiry date set from a value that parses as a date; otherwise no change. */
  function WithExpiry(m: Material, value: string): Material
  {
    match ParseDate(value)
    case Some(date) => m.(expiryDate := Some(date))
    case None => m
  }

  /** The segments applied in order. */
  function ApplySegments(m: Material, segments: seq<string>): Material
    decreases |segments|
  {
    if segments == [] then m else ApplySegments(ApplySegment(m, segments[0]), segments[1..])
  }

  /** The material after its description is read; a blank description leaves it as it was. */
  function Populated(m: Material, description: Option<string>): Material
  {
    if IsBlankOpt(description) then m else ApplySegments(m, Segments(description.value))
  }

  /** PopulateMaterialFromDescription, on the material as a value. */
  method PopulateMaterialFromDescription(m: Material, description: Option<string>) returns (r: Material)
    ensures r == Populated(m, description)
  {
    r := m;
    if IsBlankOpt(description) {
      return;
    }
    var segments := Segments(description.value);
    var i := 0;
    while i < |segments|
      invariant 0 <= i <= |segments|
      invariant ApplySegments(r, segments[i..]) == Populated(m, description)
    {
      assert segments[i..][1..] == segments[i + 1..];
      r := ApplySegment(r, segments[i]);
      i := i + 1;
    }
  }

  /** Reading the segments of a concatenation is reading one part after the other. */
  lemma {:induction false} ApplySegmentsAppend(m: Material, a: seq<string>, b: seq<string>)
    ensures ApplySegments(m, a + b) == ApplySegments(ApplySegments(m, a), b)
    decreases |a|
  {
    if a == [] {
      assert a + b == b;
    } else {
      assert (a + b)[1..] == a[1..] + b;
      ApplySegmentsAppend(ApplySegment(m, a[0]), a[1..], b);
    }
  }

  /** Only the serial, the lot and the expiry date can change. */
  lemma {:induction false} ApplySegmentsOtherFields(m: Material, segments: seq<string>)
    ensures ApplySegments(m, segments).(serial := m.serial, lot := m.lot, expiryDate := m.expiryDate) == m
    decreases |segments|
  {
    if segments != [] {
      ApplySegmentsOtherFields(ApplySegment(m, segments[0]), segments[1..]);
    }
  }

  lemma {:induction false} PopulatedOtherFields(m: Material, description: Option<string>)
    ensures Populated(m, description).(serial := m.serial, lot := m.lot, expiryDate := m.expiryDate) == m
  {
    if !IsBlankOpt(description) {
      ApplySegmentsOtherFields(m, Segments(description.value));
    }
  }

  /** A later serial segment overwrites whatever the earlier ones set. */
  lemma {:induction false} LastSerialWins(m: Material, earlier: seq<string>, segment: string)
    requires StartsWithIC(Trim(segment), "SERİ")
    ensures ApplySegments(m, earlier + [segment]).serial == Some(ExtractValue(Trim(segment)))
  {
    ApplySegmentsAppend(m, earlier, [segment]);
  }

  /** The same for a later lot segment. */
  lemma {:induction false} LastLotWins(m: Material, earlier: seq<string>, segment: string)
    requires StartsWithIC(Trim(segment), "LOT") && !StartsWithIC(Trim(segment), "SERİ")
    ensures ApplySegments(m, earlier + [segment]).lot == Some(ExtractValue(Trim(segment)))
  {
    ApplySegmentsAppend(m, earlier, [segment]);
  }

  /** A description "SERİ:a/LOT:b/SKT:c" sets the serial to a, the lot to b and,
      when c is a date, the expiry date to it; nothing else changes. */
  lemma {:induction false} PopulateLabelled(m: Material, a: string, b: string, c: string)
    requires CleanValue(a) && CleanValue(b) && CleanValue(c)
    requires NoSeparator(a) && NoSeparator(b) && NoSeparator(c)
    ensures Populated(m, Some("SERİ:" + a + "/LOT:" + b + "/SKT:" + c))
            == WithExpiry(m.(serial := Some(a), lot := Some(b)), c)
  {
    var s1, s2, s3 := "SERİ:" + a, "LOT:" + b, "SKT:" + c;
    var d := "SERİ:" + a + "/LOT:" + b + "/SKT:" + c;
    NoSeparatorConcat("SERİ:", a);
    NoSeparatorConcat("LOT:", b);
    NoSeparatorConcat("SKT:", c);
    assert d == s1 + ['/'] + (s2 + ['/'] + s3);
    LabelledSegments(s1, s2, s3);
    assert !IsBlank(d) by { assert d[0] == 'S'; }
    var m1 := ApplySegment(m, s1);
    var m2 := ApplySegment(m1, s2);
    SerialSegmentSets(m, a);
    LotSegmentSets(m1, b);
    ExpirySegmentSets(m2, c);
    ApplyThree(m, s1, s2, s3);
  }

  lemma {:induction false} ApplyThree(m: Material, s1: string, s2: string, s3: string)
    ensures ApplySegments(m, [s1, s2, s3]) == ApplySegment(ApplySegment(ApplySegment(m, s1), s2), s3)
  {
    var m1 := ApplySegment(m, s1);
    var m2 := ApplySegment(m1, s2);
    ApplySegmentsCons(m, s1, [s2, s3]);
    ApplySegmentsCons(m1, s2, [s3]);
    ApplySegmentsCons(m2, s3, []);
    assert [s1] + [s2, s3] == [s1, s2, s3];
    assert [s2] + [s3] == [s2, s3];
    assert [s3] + [] == [s3];
  }

  lemma {:induction false} ApplySegmentsCons(m: Material, segment: string, rest: seq<string>)
    ensures ApplySegments(m, [segment] + rest) == ApplySegments(ApplySegment(m, segment), rest)
  {
    assert ([segment] + rest)[1..] == rest;
  }

  lemma {:induction false} NoSeparatorConcat(x: string, y: string)
    requires NoSeparator(x) && NoSeparator(y)
    ensures NoSeparator(x + y)
  {
    assert forall j :: |x| <= j < |x + y| ==> (x + y)[j] == y[j - |x|];
  }

  predicate NoSeparator(s: string)
  {
    forall j :: 0 <= j < |s| ==> s[j] !in DescriptionSeparators
  }

  lemma {:induction false} LabelledSegments(s1: string, s2: string, s3: string)
    requires s1 != [] && s2 != [] && s3 != []
    requires NoSeparator(s1) && NoSeparator(s2) && NoSeparator(s3)
    ensures Segments(s1 + ['/'] + (s2 + ['/'] + s3)) == [s1, s2, s3]
  {
    SplitConcat(s1, '/', s2 + ['/'] + s3, DescriptionSeparators);
    SplitConcat(s2, '/', s3, DescriptionSeparators);
    SplitNoSeparator(s3, DescriptionSeparators);
    var ps := [s1, s2, s3];
    assert RemoveEmpty([s3]) == [s3] by { assert [s3][1..] == []; }
    assert RemoveEmpty([s2, s3]) == [s2, s3] by { assert [s2, s3][1..] == [s3]; }
    assert RemoveEmpty(ps) == ps by { assert ps[1..] == [s2, s3]; }
  }

  /** The worked example "SERİ:AB-12/LOT:LT-7/SKT:31.07.2026". (The values are
      parameters fixed by the precondition, so that the verifier reasons from
      the lemmas above instead of evaluating the whole text.) */
  lemma {:induction false} PopulateExample(m: Material, a: string, b: string, c: string)
    requires a == "AB-12" && b == "LT-7" && c == "31.07.2026"
    ensures Populated(m, Some("SERİ:" + a + "/LOT:" + b + "/SKT:" + c))
            == m.(serial := Some("AB-12"), lot := Some("LT-7"), expiryDate := Some(Date(2026, 7, 31)))
  {
    PopulateLabelled(m, a, b, c);
    ExampleDate(c);
  }

  lemma {:induction false} StartsWithICConcat(p: string, rest: string)
    ensures StartsWithIC(p + rest, p)
  {
    UpperStrSlice(p + rest, 0, |p|);
    assert (p + rest)[..|p|] == p;
  }

  /** A non-empty value with no white space at either end. */
  predicate CleanValue(v: string)
  {
    v != [] && !IsWhite(v[0]) && !IsWhite(v[|v| - 1])
  }

  /** "TAG:v" is already trimmed and has the value v. */
  lemma {:induction false} LabelledParts(tag: string, v: string)
    requires CleanValue(v) && tag != [] && !IsWhite(tag[0])
    requires forall j :: 0 <= j < |tag| ==> tag[j] != ':'
    ensures Trim(tag + ":" + v) == tag + ":" + v
    ensures ExtractValue(tag + ":" + v) == v
  {
    LabelledTrimmed(tag, v);
    ExtractValueAfterColon(tag, v);
    TrimFixed(v);
  }

  lemma {:induction false} LabelledTrimmed(tag: string, v: string)
    requires CleanValue(v) && tag != [] && !IsWhite(tag[0])
    ensures Trim(tag + ":" + v) == tag + ":" + v
  {
    var s := tag + ":" + v;
    assert s[0] == tag[0] && s[|s| - 1] == v[|v| - 1];
    TrimFixed(s);
  }

  /** What a segment does follows from its kind and its value alone. */
  lemma {:induction false} ApplySegmentBy(m: Material, segment: string, kind: SegmentKind, value: string)
    requires KindOf(Trim(segment)) == kind && ExtractValue(Trim(segment)) == value
    ensures ApplySegment(m, segment) == match kind
      case SerialSegment => m.(serial := Some(value))
      case LotSegment => m.(lot := Some(value))
      case ExpirySegment => WithExpiry(m, value)
      case OtherSegment => m
  {
  }

  /** A text differing from a prefix at some position (after folding) does not start with it. */
  lemma {:induction false} DiffersAt(s: string, p: string, i: int)
    requires 0 <= i < |p| && i < |s| && Upper(p[i]) != Upper(s[i])
    ensures !StartsWithIC(s, p)
  {
    assert UpperStr(p)[i] != UpperStr(s)[i];
  }

  lemma {:induction false} SerialKind(v: string)
    ensures KindOf("SERİ:" + v) == SerialSegment
  {
    assert "SERİ:" + v == "SERİ" + (":" + v);
    StartsWithICConcat("SERİ", ":" + v);
  }

  lemma {:induction false} LotKind(v: string)
    ensures KindOf("LOT:" + v) == LotSegment
  {
    var s := "LOT:" + v;
    assert s[0] == 'L' && "SERİ"[0] == 'S';
    DiffersAt(s, "SERİ", 0);
    assert s == "LOT" + (":" + v);
    StartsWithICConcat("LOT", ":" + v);
  }

  lemma {:induction false} ExpiryKind(v: string)
    ensures KindOf("SKT:" + v) == ExpirySegment
  {
    var s := "SKT:" + v;
    assert s[1] == 'K' && "SERİ"[1] == 'E';
    DiffersAt(s, "SERİ", 1);
    assert s[0] == 'S' && "LOT"[0] == 'L';
    DiffersAt(s, "LOT", 0);
    assert s == "SKT" + (":" + v);
    StartsWithICConcat("SKT", ":" + v);
  }

  /** "SERİ:v" sets the serial to v. */
  lemma {:induction false} SerialSegmentSets(m: Material, v: string)
    requires CleanValue(v)
    ensures ApplySegment(m, "SERİ:" + v) == m.(serial := Some(v))
  {
    var s := "SERİ:" + v;
    assert s == "SERİ" + ":" + v;
    LabelledParts("SERİ", v);
    SerialKind(v);
    ApplySegmentBy(m, s, SerialSegment, v);
  }

  /** "LOT:v" sets the lot to v. */
  lemma {:induction false} LotSegmentSets(m: Material, v: string)
    requires CleanValue(v)
    ensures ApplySegment(m, "LOT:" + v) == m.(lot := Some(v))
  {
    var s := "LOT:" + v;
    assert s == "LOT" + ":" + v;
    LabelledParts("LOT", v);
    LotKind(v);
    ApplySegmentBy(m, s, LotSegment, v);
  }

  /** "SKT:v" sets the expiry date when v is a date, and does nothing otherwise. */
  lemma {:induction false} ExpirySegmentSets(m: Material, v: string)
    requires CleanValue(v)
    ensures ApplySegment(m, "SKT:" + v) == WithExpiry(m, v)
  {
    var s := "SKT:" + v;
    assert s == "SKT" + ":" + v;
    LabelledParts("SKT", v);
    ExpiryKind(v);
    ApplySegmentBy(m, s, ExpirySegment, v);
  }

  lemma {:induction false} ExampleDate(s: string)
    requires s == "31.07.2026"
    ensures ParseDate(s) == Some(Date(2026, 7, 31))
  {
    var d := Date(2026, 7, 31);
    assert ValidDate(d);
    ParseFormattedDate(d);
    assert FormatDate(d) == s;
  }

  // ---------------------------------------------------------------------------
  // NormalizeHospital
  // ---------------------------------------------------------------------------

  const LongPhrase: string := "Eğitim ve Araştırma Hastanesi"
  const LongPhraseAscii: string := "Egitim ve Arastirma Hastanesi"
  const ShortPhrase: string := "EAH"
  const TrainingWord: string := "eğitim"
  const TrainingWordAscii: string := "egitim"
  const ResearchWord: string := "araştırma"
  const ResearchWordAscii: string := "arastirma"
  const HospitalWord: string := "hast"

  /** The three guards, on the lower-cased text: a word for "training", a word
      for "research", and "hast". */
  predicate MentionsTeachingHospital(text: string)
  {
    var lower := LowerStr(text);
    (Contains(lower, TrainingWord) || Contains(lower, TrainingWordAscii))
    && (Contains(lower, ResearchWord) || Contains(lower, ResearchWordAscii))
    && Contains(lower, HospitalWord)
  }

  /** NormalizeHospital: blank gives ""; otherwise the trimmed text, with the
      long phrase in either spelling shortened to "EAH" when the guards hold. */
  function NormalizeHospital(value: string): string
  {
    if IsBlank(value) then []
    else
      var text := Trim(value);
      if MentionsTeachingHospital(text) then
        ReplaceIC(ReplaceIC(text, LongPhrase, ShortPhrase), LongPhraseAscii, ShortPhrase)
      else text
  }

  /** A blank name is dropped; one the guards do not accept is only trimmed. */
  lemma {:induction false} NormalizeHospitalSpec(value: string)
    ensures IsBlank(value) ==> NormalizeHospital(value) == []
    ensures !MentionsTeachingHospital(Trim(value)) ==> NormalizeHospital(value) == Trim(value)
  {
    TrimSpec(value);
  }

  /** A name that does not contain the long phrase in either spelling is only trimmed. */
  lemma {:induction false} NormalizeHospitalWithoutPhrase(value: string)
    requires !ContainsIC(Trim(value), LongPhrase) && !ContainsIC(Trim(value), LongPhraseAscii)
    ensures NormalizeHospital(value) == Trim(value)
  {
    TrimSpec(value);
    ReplaceICUnchanged(Trim(value), LongPhrase, ShortPhrase);
    ReplaceICUnchanged(Trim(value), LongPhraseAscii, ShortPhrase);
  }

  /** The shortening itself: "Ankara Eğitim ve Araştırma Hastanesi" is read
      as "Ankara EAH". */
  lemma {:induction false} NormalizeHospitalShortens()
    ensures NormalizeHospital("Ankara " + LongPhrase) == "Ankara EAH"
  {
    var a := "Ankara ";
    var s := a + LongPhrase;
    AnkaraTrimmed();
    AnkaraMentions();
    AnkaraNoEarlierMatch();
    ReplaceICAfterMatch(a, LongPhrase, [], ShortPhrase);
    assert s + [] == s;
    var short := a + ShortPhrase + ReplaceIC([], LongPhrase, ShortPhrase);
    assert short == "Ankara EAH";
  }

  lemma AnkaraTrimmed()
    ensures !IsBlank("Ankara " + LongPhrase) && Trim("Ankara " + LongPhrase) == "Ankara " + LongPhrase
  {
    var s := "Ankara " + LongPhrase;
    assert !IsWhite(s[0]) && !IsWhite(s[|s| - 1]);
    assert TrimStart(s) == s && TrimEnd(s) == s;
  }

  lemma AnkaraMentions()
    ensures MentionsTeachingHospital("Ankara " + LongPhrase)
  {
    var s := "Ankara " + LongPhrase;
    var lower := LowerStr(s);
    assert lower[7] == Lower(s[7]) == 'e';
    assert TrainingWord <= lower[7..];
    assert ResearchWord <= lower[17..];
    assert HospitalWord <= lower[27..];
  }

  lemma AnkaraNoEarlierMatch()
    ensures NoMatchBefore("Ankara " + LongPhrase + [], LongPhrase, 7)
  {
    var s := "Ankara " + LongPhrase + [];
    forall i | 0 <= i < 7 ensures !MatchAt(s, LongPhrase, i) {
      assert UpperStr(s[i..i + |LongPhrase|])[0] != UpperStr(LongPhrase)[0];
    }
  }

  // ---------------------------------------------------------------------------
  // NormalizePhone
  // ---------------------------------------------------------------------------

  /** value.Where(char.IsDigit): the digits, in order. */
  function DigitsOf(s: string): (r: string)
    ensures AllDigits(r) && |r| <= |s|
    ensures AllDigits(s) ==> r == s
  {
    if s == [] then []
    else if IsDigit(s[0]) then [s[0]] + DigitsOf(s[1..])
    else DigitsOf(s[1..])
  }

  const PhoneLength: nat := 11

  /** NormalizePhone: blank gives ""; otherwise the digits with a leading '0'
      added when missing, cut to eleven characters. */
  function NormalizePhone(value: string): string
  {
    if IsBlank(value) then []
    else
      var digits := DigitsOf(value);
      var prefixed := if |digits| > 0 && digits[0] == '0' then digits else "0" + digits;
      if |prefixed| > PhoneLength then prefixed[..PhoneLength] else prefixed
  }

  /** A blank number is dropped; any other becomes one to eleven digits
      starting with the trunk prefix '0'. */
  lemma {:induction false} NormalizePhoneSpec(value: string)
    ensures IsBlank(value) ==> NormalizePhone(value) == []
    ensures !IsBlank(value) ==>
              var r := NormalizePhone(value);
              AllDigits(r) && 1 <= |r| <= PhoneLength && r[0] == '0'
  {
  }

  /** Normalising a normalised number changes nothing. */
  lemma {:induction false} NormalizePhoneIdempotent(value: string)
    ensures NormalizePhone(NormalizePhone(value)) == NormalizePhone(value)
  {
    var r := NormalizePhone(value);
    if r != [] {
      assert !IsWhite(r[0]);
    }
  }

  /** A ten-digit mobile number without its trunk prefix gets the '0' in front. */
  lemma {:induction false} NormalizePhoneAddsPrefix(value: string)
    requires |value| == 10 && AllDigits(value) && value[0] != '0'
    ensures NormalizePhone(value) == "0" + value
  {
    assert !IsWhite(value[0]);
  }

  // ---------------------------------------------------------------------------
  // ParseTime: TimeSpan.TryParseExact(value, {"hh\:mm", "h\:mm"}), in minutes
  // ---------------------------------------------------------------------------

  const MinutesPerDay: int := 24 * 60

  /** An hour of one or two digits, a colon and two digits of minutes, within
      a day; anything else, and a missing cell, gives midnight. */
  function ParseTime(value: Option<string>): (r: int)
    ensures 0 <= r < MinutesPerDay
  {
    if value.None? then 0
    else
      var fields := Split(value.value, {':'});
      if |fields| != 2 || !ShortField(fields[0]) || |fields[1]| != 2 || !AllDigits(fields[1]) then 0
      else
        var h, m := DigitsValue(fields[0]), DigitsValue(fields[1]);
        if h <= 23 && m <= 59 then h * 60 + m else 0
  }

  /** A time of day as "hh:mm". */
  function TimeText(minutes: nat): string
  {
    Padded(minutes / 60, 2) + ":" + Padded(minutes % 60, 2)
  }

  /** Every time of day written as "hh:mm" reads back as itself. */
  lemma {:induction false} ParseTimeText(minutes: nat)
    requires minutes < MinutesPerDay
    ensures ParseTime(Some(TimeText(minutes))) == minutes
  {
    var a, b := Padded(minutes / 60, 2), Padded(minutes % 60, 2);
    assert Pow10(2) == 100;
    PaddedExact(minutes / 60, 2);
    PaddedExact(minutes % 60, 2);
    assert TimeText(minutes) == a + [':'] + b;
    SplitConcat(a, ':', b, {':'});
    SplitNoSeparator(b, {':'});
  }

  // ---------------------------------------------------------------------------
  // FormatUsedMaterials
  // ---------------------------------------------------------------------------

  /** Environment.NewLine as Android, iOS and Mac Catalyst have it; on
      Windows it is the two characters "\r\n", which this model does not
      cover. */
  const LineBreak: char := '\n'

  /** One used material: its name, the serial or lot in parentheses when
      there is one, the expiry date when known, then the quantity. */
  function UsedMaterialLine(u: UsedMaterialRecord): (r: string)
    ensures u.name <= r && |r| > |u.name|
  {
    u.name + SerialOrLotPart(u) + ExpiryPart(u) + " Qty:" + IntToString(u.quantity)
  }

  function SerialOrLotPart(u: UsedMaterialRecord): string
  {
    if IsBlankOpt(u.serialOrLot) then "" else " (" + u.serialOrLot.value + ")"
  }

  function ExpiryPart(u: UsedMaterialRecord): string
  {
    if u.expiryDate.Some? then " SKT:" + FormatDate(u.expiryDate.value) else ""
  }

  function UsedMaterialLines(us: seq<UsedMaterialRecord>): (r: seq<string>)
    ensures |r| == |us| && forall i :: 0 <= i < |us| ==> r[i] == UsedMaterialLine(us[i])
  {
    seq(|us|, i requires 0 <= i < |us| => UsedMaterialLine(us[i]))
  }

  lemma {:induction false} JoinSnoc(parts: seq<string>, x: string, sep: string)
    requires parts != []
    ensures Join(parts + [x], sep) == Join(parts, sep) + sep + x
    decreases |parts|
  {
    if |parts| == 1 {
      assert (parts + [x])[1..] == [x];
    } else {
      assert (parts + [x])[1..] == parts[1..] + [x];
      JoinSnoc(parts[1..], x, sep);
    }
  }

  lemma {:induction false} LinesSnoc(us: seq<UsedMaterialRecord>, i: int)
    requires 0 <= i < |us|
    ensures UsedMaterialLines(us[..i + 1]) == UsedMaterialLines(us[..i]) + [UsedMaterialLine(us[i])]
    ensures i == 0 ==> UsedMaterialLines(us[..i + 1]) == [UsedMaterialLine(us[i])]
  {
    assert us[..i + 1] == us[..i] + [us[i]];
  }

  /** FormatUsedMaterials: the lines of the materials, one per line. */
  method FormatUsedMaterials(us: seq<UsedMaterialRecord>) returns (text: string)
    ensures text == Join(UsedMaterialLines(us), [LineBreak])
  {
    text := "";
    var i := 0;
    while i < |us|
      invariant 0 <= i <= |us|
      invariant text == Join(UsedMaterialLines(us[..i]), [LineBreak])
      invariant i > 0 ==> text != []
    {
      var line := UsedMaterialLine(us[i]);
      LinesSnoc(us, i);
      if |text| > 0 {
        JoinSnoc(UsedMaterialLines(us[..i]), line, [LineBreak]);
        text := text + [LineBreak];
      } else {
        assert i == 0;
      }
      text := text + line;
      i := i + 1;
    }
    assert us[..i] == us;
  }

  predicate NoLineBreak(s: string)
  {
    forall j :: 0 <= j < |s| ==> s[j] != LineBreak
  }

  lemma {:induction false} NoLineBreakConcat(x: string, y: string)
    requires NoLineBreak(x) && NoLineBreak(y)
    ensures NoLineBreak(x + y)
  {
    assert forall j :: |x| <= j < |x + y| ==> (x + y)[j] == y[j - |x|];
  }

  /** A label made of letters, blanks and punctuation holds no line break. */
  lemma {:induction false} LabelNoLineBreak(s: string)
    requires forall j :: 0 <= j < |s| ==> s[j] in " SKTQty:()-"
    ensures NoLineBreak(s)
  {
  }

  lemma {:induction false} DigitsNoLineBreak(s: string)
    requires AllDigits(s)
    ensures NoLineBreak(s)
  {
    assert forall j :: 0 <= j < |s| ==> IsDigit(s[j]);
  }

  lemma {:induction false} DateNoLineBreak(d: Date)
    ensures NoLineBreak(FormatDate(d))
  {
    var x := Padded(if d.day < 0 then 0 else d.day, 2);
    var y := Padded(if d.month < 0 then 0 else d.month, 2);
    var z := Padded(if d.year < 0 then 0 else d.year, 4);
    DigitsNoLineBreak(x);
    DigitsNoLineBreak(y);
    DigitsNoLineBreak(z);
    NoLineBreakConcat(x, ".");
    NoLineBreakConcat(x + ".", y);
    NoLineBreakConcat(x + "." + y, ".");
    NoLineBreakConcat(x + "." + y + ".", z);
  }

  lemma {:induction false} IntNoLineBreak(q: int)
    ensures NoLineBreak(IntToString(q))
  {
    var t := NatToString(if q < 0 then -q else q);
    DigitsNoLineBreak(t);
    LabelNoLineBreak("-");
    NoLineBreakConcat("-", t);
  }

  lemma {:induction false} LineNoBreak(u: UsedMaterialRecord)
    requires NoLineBreak(u.name)
    requires u.serialOrLot.Some? ==> NoLineBreak(u.serialOrLot.value)
    ensures NoLineBreak(UsedMaterialLine(u))
  {
    var a, b, q := SerialOrLotPart(u), ExpiryPart(u), IntToString(u.quantity);
    SerialOrLotPartNoBreak(u);
    ExpiryPartNoBreak(u);
    IntNoLineBreak(u.quantity);
    NoLineBreakConcat(u.name, a);
    NoLineBreakConcat(u.name + a, b);
    LabelNoLineBreak(" Qty:");
    NoLineBreakConcat(u.name + a + b, " Qty:");
    NoLineBreakConcat(u.name + a + b + " Qty:", q);
  }

  lemma {:induction false} SerialOrLotPartNoBreak(u: UsedMaterialRecord)
    requires u.serialOrLot.Some? ==> NoLineBreak(u.serialOrLot.value)
    ensures NoLineBreak(SerialOrLotPart(u))
  {
    if !IsBlankOpt(u.serialOrLot) {
      LabelNoLineBreak(" (");
      LabelNoLineBreak(")");
      NoLineBreakConcat(" (", u.serialOrLot.value);
      NoLineBreakConcat(" (" + u.serialOrLot.value, ")");
    }
  }

  lemma {:induction false} ExpiryPartNoBreak(u: UsedMaterialRecord)
    ensures NoLineBreak(ExpiryPart(u))
  {
    if u.expiryDate.Some? {
      DateNoLineBreak(u.expiryDate.value);
      LabelNoLineBreak(" SKT:");
      NoLineBreakConcat(" SKT:", FormatDate(u.expiryDate.value));
    }
  }

  /** When names and serial or lot texts hold no line break, splitting the
      text at line breaks gives back one line per material, in order. */
  lemma {:induction false} FormattedLines(us: seq<UsedMaterialRecord>)
    requires us != []
    requires forall i :: 0 <= i < |us| ==> NoLineBreak(us[i].name)
    requires forall i :: 0 <= i < |us| ==> us[i].serialOrLot.Some? ==> NoLineBreak(us[i].serialOrLot.value)
    ensures Split(Join(UsedMaterialLines(us), [LineBreak]), {LineBreak}) == UsedMaterialLines(us)
  {
    var lines := UsedMaterialLines(us);
    forall i | 0 <= i < |lines| ensures NoLineBreak(lines[i]) {
      LineNoBreak(us[i]);
    }
    SplitJoin(lines, LineBreak);
  }

  // ---------------------------------------------------------------------------
  // The import loops
  // ---------------------------------------------------------------------------

  /** `trailing.Trim()` needs no second trim. */
  lemma {:induction false} TrimTwice(s: string)
    ensures Trim(Trim(s)) == Trim(s)
  {
    TrimSpec(s);
    TrimFixed(Trim(s));
  }

  // ---------------------------------------------------------------------------
  // The import loops: one record per data row, some rows skipped
  // ---------------------------------------------------------------------------

  function OptionList<T>(o: Option<T>): (r: seq<T>)
    ensures |r| <= 1
  {
    if o.Some? then [o.value] else []
  }

  /** The records a per-row loop keeps: row i yields make(rows[i], i), and
      None means the row is skipped. Defined from the last row so that it
      follows the loop that builds it. */
  function Harvest<R, T>(rows: seq<R>, make: (R, nat) -> Option<T>): (r: seq<T>)
    ensures |r| <= |rows|
  {
    if rows == [] then []
    else
      var n := |rows| - 1;
      Harvest(rows[..n], make) + OptionList(make(rows[n], n))
  }

  /** The row number each kept record comes from, in the same order. */
  function HarvestedRows<R, T>(rows: seq<R>, make: (R, nat) -> Option<T>): (r: seq<nat>)
    ensures |r| == |Harvest(rows, make)|
  {
    if rows == [] then []
    else
      var n := |rows| - 1;
      HarvestedRows(rows[..n], make) + (if make(rows[n], n).Some? then [n] else [])
  }

  /** The loop: one pass per row, appending what the row yields. */
  method HarvestLoop<R, T>(rows: seq<R>, make: (R, nat) -> Option<T>) returns (kept: seq<T>)
    ensures kept == Harvest(rows, make)
  {
    kept := [];
    var i := 0;
    while i < |rows|
      invariant 0 <= i <= |rows|
      invariant kept == Harvest(rows[..i], make)
    {
      assert rows[..i + 1][..i] == rows[..i];
      kept := kept + OptionList(make(rows[i], i));
      i := i + 1;
    }
    assert rows[..i] == rows;
  }

  /** Kept record i is what its row yields. */
  lemma {:induction false} HarvestedAt<R, T>(rows: seq<R>, make: (R, nat) -> Option<T>, i: int)
    requires 0 <= i < |Harvest(rows, make)|
    ensures HarvestedRows(rows, make)[i] < |rows|
    ensures make(rows[HarvestedRows(rows, make)[i]], HarvestedRows(rows, make)[i]) == Some(Harvest(rows, make)[i])
  {
    var n := |rows| - 1;
    var prefix := Harvest(rows[..n], make);
    var ks := HarvestedRows(rows[..n], make);
    assert Harvest(rows, make) == prefix + OptionList(make(rows[n], n));
    assert HarvestedRows(rows, make) == ks + (if make(rows[n], n).Some? then [n] else []);
    if i < |prefix| {
      HarvestedAt(rows[..n], make, i);
      assert Harvest(rows, make)[i] == prefix[i];
      assert HarvestedRows(rows, make)[i] == ks[i];
      assert rows[..n][ks[i]] == rows[ks[i]];
    } else {
      assert make(rows[n], n).Some?;
      assert Harvest(rows, make)[i] == make(rows[n], n).value;
      assert HarvestedRows(rows, make)[i] == n;
    }
  }

  /** Kept records come from strictly later rows as the list goes on. */
  lemma {:induction false} HarvestedRowsIncreasing<R, T>(rows: seq<R>, make: (R, nat) -> Option<T>)
    ensures forall i :: 0 <= i < |HarvestedRows(rows, make)| ==> HarvestedRows(rows, make)[i] < |rows|
    ensures forall i, j :: 0 <= i < j < |HarvestedRows(rows, make)| ==> HarvestedRows(rows, make)[i] < HarvestedRows(rows, make)[j]
  {
    if rows != [] {
      var n := |rows| - 1;
      HarvestedRowsIncreasing(rows[..n], make);
      var ks, prefix := HarvestedRows(rows, make), HarvestedRows(rows[..n], make);
      assert ks == prefix + (if make(rows[n], n).Some? then [n] else []);
      assert |rows[..n]| == n;
      forall i | 0 <= i < |prefix| ensures ks[i] < n {
        assert ks[i] == prefix[i];
      }
    }
  }

  /** A row that yields a record has it kept. */
  lemma {:induction false} HarvestComplete<R, T>(rows: seq<R>, make: (R, nat) -> Option<T>, j: int)
    requires 0 <= j < |rows| && make(rows[j], j).Some?
    ensures make(rows[j], j).value in Harvest(rows, make)
  {
    var n := |rows| - 1;
    if j < n {
      assert rows[..n][j] == rows[j];
      HarvestComplete(rows[..n], make, j);
    }
  }

  /** A property every yielded record has, every kept record has. */
  lemma {:induction false} HarvestAll<R, T>(rows: seq<R>, make: (R, nat) -> Option<T>, p: T -> bool)
    requires forall row, i :: make(row, i).Some? ==> p(make(row, i).value)
    ensures forall i :: 0 <= i < |Harvest(rows, make)| ==> p(Harvest(rows, make)[i])
  {
    forall i | 0 <= i < |Harvest(rows, make)| ensures p(Harvest(rows, make)[i]) {
      HarvestedAt(rows, make, i);
    }
  }

  /** When row i's record gets the key base + i, the kept records' keys
      increase along the list. */
  lemma {:induction false} HarvestKeysIncrease<R, T>(rows: seq<R>, make: (R, nat) -> Option<T>, key: T -> int, base: int)
    requires forall row, i :: make(row, i).Some? ==> key(make(row, i).value) == base + i
    ensures forall i, j :: 0 <= i < j < |Harvest(rows, make)| ==> key(Harvest(rows, make)[i]) < key(Harvest(rows, make)[j])
  {
    HarvestedRowsIncreasing(rows, make);
    forall i | 0 <= i < |Harvest(rows, make)| ensures key(Harvest(rows, make)[i]) == base + HarvestedRows(rows, make)[i] {
      HarvestedAt(rows, make, i);
    }
  }

  const NameKeys: seq<string> := ["name", "malzeme açıklaması", "material"]
  const CodeKeys: seq<string> := ["code", "malzeme"]
  const QuantityKeys: seq<string> := ["quantity", "miktar", "qty"]
  const OwnerKeys: seq<string> := ["owner", "owneruser", "kullanıcı"]
  const DescriptionKeys: seq<string> := ["açıklama", "description"]

  /** `new Material()`: an empty name and owner, no quantity, created now. */
  function NewMaterial(id: Id, now: Time): Material
  {
    Material(id, "", None, None, None, None, 0, None, now, now, "")
  }

  /** The material one data row describes, before the blank-name check. */
  function MaterialFromRow(headers: Headers, row: Row, id: Id, now: Time): (r: Material)
    ensures r.id == id && r.name == CellFor(headers, row, NameKeys).GetOr("")
    ensures r.ownerUser == CellFor(headers, row, OwnerKeys).GetOr("")
    ensures r.quantity == ParseQuantity(CellFor(headers, row, QuantityKeys))
  {
    var m := NewMaterial(id, now).(
      name := CellFor(headers, row, NameKeys).GetOr(""),
      code := CellFor(headers, row, CodeKeys),
      quantity := ParseQuantity(CellFor(headers, row, QuantityKeys)),
      ownerUser := CellFor(headers, row, OwnerKeys).GetOr(""));
    PopulatedOtherFields(m, CellFor(headers, row, DescriptionKeys));
    Populated(m, CellFor(headers, row, DescriptionKeys))
  }

  /** The material a row yields: none when its name is blank. */
  function MaterialCandidate(headers: Headers, row: Row, id: Id, now: Time): Option<Material>
  {
    var m := MaterialFromRow(headers, row, id, now);
    if IsBlank(m.name) then None else Some(m)
  }

  /** Data row i gets the identifier firstId + i. */
  function MaterialMaker(headers: Headers, firstId: Id, now: Time): (Row, nat) -> Option<Material>
  {
    (row: Row, i: nat) => MaterialCandidate(headers, row, firstId + i, now)
  }

  /** A material a row yields is that row's material, with a name. */
  lemma {:induction false} MaterialCandidateSome(headers: Headers, row: Row, id: Id, now: Time, m: Material)
    requires MaterialCandidate(headers, row, id, now) == Some(m)
    ensures m.id == id
    ensures !IsBlank(m.name)
    ensures m == MaterialFromRow(headers, row, id, now)
  {
  }

  /** ImportMaterialsAsync's result for the rows after the header row: data
      row i, whose material gets the identifier firstId + i, is dropped when
      that material's name is blank. */
  function ImportedMaterials(headers: Headers, rows: seq<Row>, firstId: Id, now: Time): (r: seq<Material>)
    ensures |r| <= |rows|
  {
    Harvest(rows, MaterialMaker(headers, firstId, now))
  }

  /** Imported material i is what data row k yields, k being the row it was
      read from. */
  lemma {:induction false} ImportedMaterialSound(headers: Headers, rows: seq<Row>, firstId: Id, now: Time, i: int)
    requires 0 <= i < |ImportedMaterials(headers, rows, firstId, now)|
    ensures HarvestedRows(rows, MaterialMaker(headers, firstId, now))[i] < |rows|
    ensures MaterialCandidate(headers, rows[HarvestedRows(rows, MaterialMaker(headers, firstId, now))[i]],
                              firstId + HarvestedRows(rows, MaterialMaker(headers, firstId, now))[i], now)
            == Some(ImportedMaterials(headers, rows, firstId, now)[i])
  {
    HarvestedAt(rows, MaterialMaker(headers, firstId, now), i);
  }

  /** The materials come in row order, so their identifiers are distinct. */
  lemma {:induction false} ImportedMaterialsOrdered(headers: Headers, rows: seq<Row>, firstId: Id, now: Time)
    ensures var r := ImportedMaterials(headers, rows, firstId, now);
            forall i, j :: 0 <= i < j < |r| ==> r[i].id < r[j].id
  {
    var make := MaterialMaker(headers, firstId, now);
    forall row, i | make(row, i).Some? ensures make(row, i).value.id == firstId + i {
      MaterialCandidateSome(headers, row, firstId + i, now, make(row, i).value);
    }
    HarvestKeysIncrease(rows, make, (m: Material) => m.id, firstId);
  }

  /** Every imported material has a name. */
  lemma {:induction false} ImportedMaterialsNamed(headers: Headers, rows: seq<Row>, firstId: Id, now: Time)
    ensures var r := ImportedMaterials(headers, rows, firstId, now);
            forall i :: 0 <= i < |r| ==> !IsBlank(r[i].name)
  {
    var make := MaterialMaker(headers, firstId, now);
    forall row, i | make(row, i).Some? ensures !IsBlank(make(row, i).value.name) {
      MaterialCandidateSome(headers, row, firstId + i, now, make(row, i).value);
    }
    HarvestAll(rows, make, (m: Material) => !IsBlank(m.name));
  }

  /** Every row whose material has a name is imported. */
  lemma {:induction false} ImportedMaterialsComplete(headers: Headers, rows: seq<Row>, firstId: Id, now: Time, j: int)
    requires 0 <= j < |rows| && !IsBlank(MaterialFromRow(headers, rows[j], firstId + j, now).name)
    ensures MaterialFromRow(headers, rows[j], firstId + j, now) in ImportedMaterials(headers, rows, firstId, now)
  {
    var make := MaterialMaker(headers, firstId, now);
    assert MaterialCandidate(headers, rows[j], firstId + j, now).Some?;
    assert make(rows[j], j) == MaterialCandidate(headers, rows[j], firstId + j, now);
    HarvestComplete(rows, make, j);
  }

  /** ImportMaterialsAsync: the loop over the data rows, each pass being
      ReadMaterialCandidate. */
  method ImportMaterials(headers: Headers, rows: seq<Row>, firstId: Id, now: Time) returns (materials: seq<Material>)
    ensures materials == ImportedMaterials(headers, rows, firstId, now)
  {
    materials := HarvestLoop(rows, MaterialMaker(headers, firstId, now));
  }

  /** One pass of the import loop: the five cells are read, the description
      applied, and the material kept when its name is not blank. */
  method ReadMaterialCandidate(headers: Headers, row: Row, id: Id, now: Time) returns (kept: Option<Material>)
    ensures kept == MaterialCandidate(headers, row, id, now)
  {
    var material := ReadMaterialRow(headers, row, id, now);
    kept := if IsBlank(material.name) then None else Some(material);
  }

  /** The material of one row, read cell by cell. */
  method ReadMaterialRow(headers: Headers, row: Row, id: Id, now: Time) returns (material: Material)
    ensures material == MaterialFromRow(headers, row, id, now)
  {
    var name := ReadCell(headers, row, NameKeys);
    var code := ReadCell(headers, row, CodeKeys);
    var quantity := ReadCell(headers, row, QuantityKeys);
    var owner := ReadCell(headers, row, OwnerKeys);
    var description := ReadCell(headers, row, DescriptionKeys);
    material := NewMaterial(id, now).(
      name := name.GetOr(""), code := code, quantity := ParseQuantity(quantity), ownerUser := owner.GetOr(""));
    material := PopulateMaterialFromDescription(material, description);
  }

  const OrderKeys: seq<string> := ["order", "sıra", "no", "index"]
  const PatientKeys: seq<string> := ["patient", "hasta"]
  const HospitalKeys: seq<string> := ["hospital", "hastane"]
  const PhoneKeys: seq<string> := ["phone", "telefon"]
  const TimeKeys: seq<string> := ["time", "saat"]

  /** The row's patient cell, empty when missing. */
  function PatientCell(headers: Headers, row: Row): string
  {
    CellFor(headers, row, PatientKeys).GetOr("")
  }

  /** The checklist item one data row describes. */
  function ChecklistItemFromRow(headers: Headers, row: Row, id: Id): ChecklistItem
  {
    ChecklistItem(
      id,
      ParseQuantity(CellFor(headers, row, OrderKeys)),
      Trim(PatientCell(headers, row)),
      NormalizeHospital(CellFor(headers, row, HospitalKeys).GetOr("")),
      NormalizePhone(CellFor(headers, row, PhoneKeys).GetOr("")),
      ParseTime(CellFor(headers, row, TimeKeys)),
      NotYet)
  }

  /** The item gets the row's identifier, is not yet done, has a time within
      the day, and holds the trimmed patient cell. */
  lemma {:induction false} ChecklistItemFacts(headers: Headers, row: Row, id: Id)
    ensures var r := ChecklistItemFromRow(headers, row, id);
            r.id == id && r.status == NotYet && 0 <= r.time < MinutesPerDay
            && r.patient == Trim(PatientCell(headers, row))
            && r.hospital == NormalizeHospital(CellFor(headers, row, HospitalKeys).GetOr(""))
            && r.phone == NormalizePhone(CellFor(headers, row, PhoneKeys).GetOr(""))
  {
    var t := ParseTime(CellFor(headers, row, TimeKeys));
    assert 0 <= t < MinutesPerDay;
  }

  /** The item a row yields: none when its patient cell is blank. */
  function ChecklistCandidate(headers: Headers, row: Row, id: Id): Option<ChecklistItem>
  {
    if IsBlank(PatientCell(headers, row)) then None else Some(ChecklistItemFromRow(headers, row, id))
  }

  /** Data row i gets the identifier firstId + i. */
  function ChecklistMaker(headers: Headers, firstId: Id): (Row, nat) -> Option<ChecklistItem>
  {
    (row: Row, i: nat) => ChecklistCandidate(headers, row, firstId + i)
  }

  /** An item a row yields is that row's item, and the row names a patient. */
  lemma {:induction false} ChecklistCandidateSome(headers: Headers, firstId: Id, row: Row, i: nat)
    requires ChecklistMaker(headers, firstId)(row, i).Some?
    ensures var c := ChecklistMaker(headers, firstId)(row, i).value;
            c.id == firstId + i && !IsBlank(PatientCell(headers, row))
            && c == ChecklistItemFromRow(headers, row, firstId + i)
  {
    assert ChecklistMaker(headers, firstId)(row, i) == ChecklistCandidate(headers, row, firstId + i);
    ChecklistItemFacts(headers, row, firstId + i);
  }

  /** ImportChecklistAsync's result for the rows after the header row: data
      row i, whose item gets the identifier firstId + i, is dropped when its
      patient cell is blank. */
  function ImportedChecklist(headers: Headers, rows: seq<Row>, firstId: Id): (r: seq<ChecklistItem>)
    ensures |r| <= |rows|
  {
    Harvest(rows, ChecklistMaker(headers, firstId))
  }

  /** Imported item i comes from data row k: that row names a patient, and
      the item is the row's, with the identifier firstId + k. */
  lemma {:induction false} ImportedItemSound(headers: Headers, rows: seq<Row>, firstId: Id, i: int)
    requires 0 <= i < |ImportedChecklist(headers, rows, firstId)|
    ensures var k := HarvestedRows(rows, ChecklistMaker(headers, firstId))[i];
            var c := ImportedChecklist(headers, rows, firstId)[i];
            k < |rows| && c.id == firstId + k && !IsBlank(PatientCell(headers, rows[k]))
            && c == ChecklistItemFromRow(headers, rows[k], firstId + k)
  {
    var make := ChecklistMaker(headers, firstId);
    HarvestedAt(rows, make, i);
    var k := HarvestedRows(rows, make)[i];
    ChecklistRowItem(headers, firstId, rows, k, ImportedChecklist(headers, rows, firstId)[i]);
  }

  /** An item the maker yields for data row k is that row's item. */
  lemma ChecklistRowItem(headers: Headers, firstId: Id, rows: seq<Row>, k: nat, c: ChecklistItem)
    requires k < |rows| && ChecklistMaker(headers, firstId)(rows[k], k) == Some(c)
    ensures c.id == firstId + k && !IsBlank(PatientCell(headers, rows[k]))
            && c == ChecklistItemFromRow(headers, rows[k], firstId + k)
  {
    ChecklistCandidateSome(headers, firstId, rows[k], k);
  }

  /** What every imported item looks like: not yet done, a time within the
      day, a trimmed, non-empty patient. */
  predicate ImportedShape(c: ChecklistItem)
  {
    c.status == NotYet && 0 <= c.time < MinutesPerDay && c.patient != [] && Trim(c.patient) == c.patient
  }

  /** The item of a row naming a patient is not yet done, has a time within
      the day and a trimmed, non-empty patient. */
  lemma {:induction false} ChecklistItemShape(headers: Headers, row: Row, id: Id)
    requires !IsBlank(PatientCell(headers, row))
    ensures var r := ChecklistItemFromRow(headers, row, id);
            ImportedShape(r)
  {
    ChecklistItemFacts(headers, row, id);
    TrimSpec(PatientCell(headers, row));
    TrimTwice(PatientCell(headers, row));
  }

  /** Every imported item is not yet done, has a time within the day and a
      trimmed, non-empty patient. */
  lemma {:induction false} ImportedItemsShape(headers: Headers, rows: seq<Row>, firstId: Id)
    ensures var r := ImportedChecklist(headers, rows, firstId);
            forall i :: 0 <= i < |r| ==> ImportedShape(r[i])
  {
    var make := ChecklistMaker(headers, firstId);
    forall row, i | make(row, i).Some? ensures ImportedShape(make(row, i).value) {
      ChecklistCandidateSome(headers, firstId, row, i);
      ChecklistItemShape(headers, row, firstId + i);
    }
    HarvestAll(rows, make, ImportedShape);
  }

  /** The items come in row order. */
  lemma {:induction false} ImportedChecklistOrdered(headers: Headers, rows: seq<Row>, firstId: Id)
    ensures var r := ImportedChecklist(headers, rows, firstId);
            forall i, j :: 0 <= i < j < |r| ==> r[i].id < r[j].id
  {
    var make := ChecklistMaker(headers, firstId);
    forall row, i | make(row, i).Some? ensures make(row, i).value.id == firstId + i {
      ChecklistCandidateSome(headers, firstId, row, i);
    }
    HarvestKeysIncrease(rows, make, (c: ChecklistItem) => c.id, firstId);
  }

  /** Every row naming a patient yields its item. */
  lemma {:induction false} ImportedChecklistComplete(headers: Headers, rows: seq<Row>, firstId: Id, j: int)
    requires 0 <= j < |rows| && !IsBlank(PatientCell(headers, rows[j]))
    ensures ChecklistItemFromRow(headers, rows[j], firstId + j) in ImportedChecklist(headers, rows, firstId)
  {
    var make := ChecklistMaker(headers, firstId);
    assert ChecklistCandidate(headers, rows[j], firstId + j).Some?;
    assert make(rows[j], j) == ChecklistCandidate(headers, rows[j], firstId + j);
    HarvestComplete(rows, make, j);
  }

  /** ImportChecklistAsync: the loop over the data rows, each pass being
      ReadChecklistCandidate. */
  method ImportChecklist(headers: Headers, rows: seq<Row>, firstId: Id) returns (items: seq<ChecklistItem>)
    ensures items == ImportedChecklist(headers, rows, firstId)
  {
    items := HarvestLoop(rows, ChecklistMaker(headers, firstId));
  }

  /** One pass of the import loop: a row whose patient cell is blank is
      skipped before the other cells are read. */
  method ReadChecklistCandidate(headers: Headers, row: Row, id: Id) returns (kept: Option<ChecklistItem>)
    ensures kept == ChecklistCandidate(headers, row, id)
  {
    var patient := ReadCell(headers, row, PatientKeys);
    if IsBlank(patient.GetOr("")) {
      kept := None;
    } else {
      var item := ReadChecklistRow(headers, row, id);
      kept := Some(item);
    }
  }

  /** The cells of one row made into an item. */
  method ReadChecklistRow(headers: Headers, row: Row, id: Id) returns (item: ChecklistItem)
    ensures item == ChecklistItemFromRow(headers, row, id)
  {
    var orderText := ReadCell(headers, row, OrderKeys);
    var patient := ReadCell(headers, row, PatientKeys);
    var hospital := ReadCell(headers, row, HospitalKeys);
    var phone := ReadCell(headers, row, PhoneKeys);
    var timeText := ReadCell(headers, row, TimeKeys);
    item := ChecklistItem(id, ParseQuantity(orderText), Trim(patient.GetOr("")),
      NormalizeHospital(hospital.GetOr("")), NormalizePhone(phone.GetOr("")), ParseTime(timeText), NotYet);
  }
}
