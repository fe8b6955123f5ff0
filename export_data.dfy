/** The export contents: the CSV text, the JSON record, and the date stamp
    of the export file name. The quoting of the name field follows rule 7
    of section 2 of RFC 4180 (a quote inside a quoted field is doubled);
    records are separated by a line feed rather than the CRLF of rule 2. */
module ExportData {
  import opened Wrappers
  import opened Types
  import opened Text
  import Decimal

  const CsvHeaders: seq<string> := ["ID", "Name", "Type", "Expiration Date", "Status", "Barcode", "Created At"]

  /** The name with every double quote doubled. */
  function EscapeQuotes(s: string): (r: string)
    ensures |r| >= |s|
  {
    if |s| == 0 then "" else EscapeChar(s[0]) + EscapeQuotes(s[1..])
  }

  /** How one character of a name is written inside the quotes. */
  function EscapeChar(c: char): string {
    if c == '"' then "\"\"" else [c]
  }

  /** Escaping adds no line break. */
  lemma {:induction false} EscapeSingleLine(s: string)
    requires '\n' !in s
    ensures '\n' !in EscapeQuotes(s)
  {
    if |s| > 0 {
      assert s[0] in s;
      assert forall i :: 0 <= i < |s| - 1 ==> s[1..][i] == s[i + 1];
      EscapeSingleLine(s[1..]);
    }
  }

  function QuoteName(name: string): string {
    "\"" + EscapeQuotes(name) + "\""
  }

  /** The seven fields of an item's row; a missing or empty barcode is an
      empty field. */
  function CsvFields(item: InventoryItem): seq<string> {
    [item.id, QuoteName(item.name), TypeName(item.itemType), item.expirationDate,
     StatusName(item.status), if Truthy(item.barcode) then item.barcode.value else "", item.createdAt]
  }

  function CsvRow(item: InventoryItem): string {
    JoinWith(CsvFields(item), ',')
  }

  function CsvRows(items: seq<InventoryItem>): (rows: seq<string>)
    ensures |rows| == |items|
    ensures forall i :: 0 <= i < |items| ==> rows[i] == CsvRow(items[i])
  {
    seq(|items|, i requires 0 <= i < |items| => CsvRow(items[i]))
  }

  /** The CSV text of `exportAsCSV`; none for an empty list. */
  function CsvContent(items: seq<InventoryItem>): (r: Option<string>)
    ensures r.None? <==> |items| == 0
  {
    if |items| == 0 then None
    else Some(JoinWith([JoinWith(CsvHeaders, ',')] + CsvRows(items), '\n'))
  }

  // ---------------------------------------------------------------------
  // Reading a record back

  /** Reads the rest of a quoted field (after its opening quote): a doubled
      quote stands for one quote, a single quote ends the field. Gives the
      value and how many characters were consumed, closing quote included. */
  function ParseQuoted(s: string): (r: Option<(string, nat)>)
    ensures r.Some? ==> 1 <= r.value.1 <= |s|
  {
    if |s| == 0 then None
    else if s[0] == '"' then
      if |s| > 1 && s[1] == '"' then
        match ParseQuoted(s[2..])
        case None => None
        case Some((v, n)) => Some(("\"" + v, n + 2))
      else Some(("", 1))
    else
      match ParseQuoted(s[1..])
      case None => None
      case Some((v, n)) => Some(([s[0]] + v, n + 1))
  }

  /** Splits one record into its fields, reading quoted and plain fields. */
  function ParseFields(s: string): Option<seq<string>>
    decreases |s|
  {
    if |s| > 0 && s[0] == '"' then
      match ParseQuoted(s[1..])
      case None => None
      case Some((v, n)) =>
        var rest := s[1 + n..];
        if |rest| == 0 then Some([v])
        else if rest[0] != ',' then None
        else match ParseFields(rest[1..])
          case None => None
          case Some(fs) => Some([v] + fs)
    else
      var k := IndexOf(s, ',');
      if k == |s| then Some([s])
      else match ParseFields(s[k + 1..])
        case None => None
        case Some(fs) => Some([s[..k]] + fs)
  }

  /** A field that needs no quoting. */
  predicate PlainField(f: string) {
    ',' !in f && '"' !in f
  }

  lemma DoubledQuoteStep(tail: string, v: string, n: nat)
    requires ParseQuoted(tail) == Some((v, n))
    ensures ParseQuoted("\"\"" + tail) == Some(("\"" + v, n + 2))
  {
    assert ("\"\"" + tail)[2..] == tail;
  }

  lemma OrdinaryCharStep(c: char, tail: string, v: string, n: nat)
    requires c != '"' && ParseQuoted(tail) == Some((v, n))
    ensures ParseQuoted([c] + tail) == Some(([c] + v, n + 1))
  {
    assert ([c] + tail)[1..] == tail;
  }

  lemma Regroup(p: string, e: string, q: string, rest: string)
    ensures p + e + q + rest == p + (e + q + rest)
  {
  }

  lemma EscapeHead(x: string)
    requires |x| > 0
    ensures EscapeQuotes(x) == EscapeChar(x[0]) + EscapeQuotes(x[1..])
  {
  }

  /** One more escaped character in front adds that character to the value
      read. */
  lemma QuotedStep(c: char, e: string, rest: string, v: string)
    requires ParseQuoted(e + "\"" + rest) == Some((v, |e| + 1))
    ensures ParseQuoted(EscapeChar(c) + e + "\"" + rest) == Some(([c] + v, |EscapeChar(c)| + |e| + 1))
  {
    var tail := e + "\"" + rest;
    Regroup(EscapeChar(c), e, "\"", rest);
    if c == '"' {
      DoubledQuoteStep(tail, v, |e| + 1);
    } else {
      OrdinaryCharStep(c, tail, v, |e| + 1);
    }
  }

  /** Un-doubling recovers the name from its escaped form. */
  lemma {:induction false} QuotedRoundTrip(x: string, rest: string)
    requires |rest| == 0 || rest[0] != '"'
    ensures ParseQuoted(EscapeQuotes(x) + "\"" + rest) == Some((x, |EscapeQuotes(x)| + 1))
  {
    if |x| > 0 {
      var e := EscapeQuotes(x[1..]);
      QuotedRoundTrip(x[1..], rest);
      QuotedStep(x[0], e, rest, x[1..]);
      EscapeHead(x);
      assert EscapeQuotes(x) + "\"" + rest == EscapeChar(x[0]) + e + "\"" + rest;
      assert [x[0]] + x[1..] == x;
    } else {
      assert EscapeQuotes(x) + "\"" + rest == "\"" + rest;
      ClosingQuote(rest);
    }
  }

  lemma ClosingQuote(rest: string)
    requires |rest| == 0 || rest[0] != '"'
    ensures ParseQuoted("\"" + rest) == Some(("", 1))
  {
    var s := "\"" + rest;
    assert s[0] == '"';
    assert |s| > 1 ==> s[1] == rest[0];
  }

  /** A last plain field is read as itself. */
  lemma ParsePlainLast(f: string)
    requires PlainField(f)
    ensures ParseFields(f) == Some([f])
  {
    if |f| > 0 {
      assert f[0] in f;
    }
    assert IndexOf(f, ',') == |f|;
  }

  lemma {:induction false} PlainRoundTrip(fields: seq<string>)
    requires |fields| >= 1
    requires forall i :: 0 <= i < |fields| ==> PlainField(fields[i])
    ensures ParseFields(JoinWith(fields, ',')) == Some(fields)
  {
    if |fields| == 1 {
      assert JoinWith(fields, ',') == fields[0];
      ParsePlainLast(fields[0]);
      assert fields == [fields[0]];
    } else {
      var f := fields[0];
      var tail := fields[1..];
      var rest := JoinWith(tail, ',');
      PlainRoundTrip(tail);
      ParsePlainThen(f, rest, tail);
      assert JoinWith(fields, ',') == f + [','] + rest;
      assert fields == [f] + tail;
    }
  }

  /** The fields of an item as a reader of its row gets them back. */
  function RowValues(item: InventoryItem): seq<string> {
    [item.id, item.name, TypeName(item.itemType), item.expirationDate,
     StatusName(item.status), if Truthy(item.barcode) then item.barcode.value else "", item.createdAt]
  }

  /** A plain field followed by a comma is read as itself, then the
      remaining fields. */
  lemma ParsePlainThen(f: string, rest: string, fs: seq<string>)
    requires PlainField(f) && ParseFields(rest) == Some(fs)
    ensures ParseFields(f + [','] + rest) == Some([f] + fs)
  {
    var s := f + [','] + rest;
    IndexOfAfterPrefix(f, ',', rest);
    assert s[..|f|] == f;
    assert s[|f| + 1..] == rest;
    if |f| > 0 {
      assert s[0] == f[0];
      assert s[0] in f;
    }
  }

  /** A quoted name followed by a comma is read back as the name, then the
      remaining fields. */
  lemma ParseQuotedThen(name: string, rest: string, fs: seq<string>)
    requires ParseFields(rest) == Some(fs)
    ensures ParseFields(QuoteName(name) + [','] + rest) == Some([name] + fs)
  {
    var e := EscapeQuotes(name);
    var after := [','] + rest;
    var s := QuoteName(name) + [','] + rest;
    QuotedRoundTrip(name, after);
    assert s == "\"" + (e + "\"" + after);
    assert s[1..] == e + "\"" + after;
    assert s[1 + |e| + 1..] == after;
    assert after[1..] == rest;
  }

  /** A record whose second field is a quoted name and whose other fields
      are plain is read back with the name un-quoted. */
  lemma QuotedSecondRoundTrip(fs: seq<string>, name: string)
    requires |fs| >= 3 && fs[1] == QuoteName(name)
    requires forall i :: 0 <= i < |fs| && i != 1 ==> PlainField(fs[i])
    ensures ParseFields(JoinWith(fs, ',')) == Some([fs[0], name] + fs[2..])
  {
    var later := fs[2..];
    var tail := JoinWith(later, ',');
    assert JoinWith(fs[1..], ',') == QuoteName(name) + [','] + tail by {
      assert fs[1..][1..] == later;
    }
    assert forall i :: 0 <= i < |later| ==> PlainField(later[i]) by {
      assert forall i :: 0 <= i < |later| ==> later[i] == fs[i + 2];
    }
    PlainRoundTrip(later);
    ParseQuotedThen(name, tail, later);
    ParsePlainThen(fs[0], QuoteName(name) + [','] + tail, [name] + later);
    ConsTwo(fs[0], name, later);
  }

  lemma ConsTwo<T>(a: T, b: T, rest: seq<T>)
    ensures [a] + ([b] + rest) == [a, b] + rest
  {
  }

  /** Reading a row back gives seven fields, the name among them exactly as
      it was, provided the unquoted fields hold no comma or quote. */
  lemma RowRoundTrip(item: InventoryItem)
    requires forall k :: 0 <= k < 7 && k != 1 ==> PlainField(RowValues(item)[k])
    ensures ParseFields(CsvRow(item)) == Some(RowValues(item))
  {
    var f := CsvFields(item);
    var v := RowValues(item);
    assert forall i :: 0 <= i < 7 && i != 1 ==> f[i] == v[i];
    QuotedSecondRoundTrip(f, item.name);
    assert [f[0], item.name] + f[2..] == v;
  }

  /** Reading the header line back gives the seven column names in order. */
  lemma HeaderFields()
    ensures SplitOn(JoinWith(CsvHeaders, ','), ',') == CsvHeaders
    ensures '\n' !in JoinWith(CsvHeaders, ',')
  {
    assert forall i :: 0 <= i < |CsvHeaders| ==> ',' !in CsvHeaders[i] && '\n' !in CsvHeaders[i];
    SplitJoin(CsvHeaders, ',');
    JoinKeepsSingleLine(CsvHeaders, ',');
  }

  lemma FirstLine(h: string, rest: string)
    requires '\n' !in h
    ensures SplitOn(h + ['\n'] + rest, '\n')[0] == h
  {
    var c := h + ['\n'] + rest;
    IndexOfAfterPrefix(h, '\n', rest);
    assert c[..|h|] == h;
  }

  /** The CSV text's first line is the header line, whatever the items
      hold. */
  lemma CsvHeaderLine(items: seq<InventoryItem>)
    requires |items| > 0
    ensures SplitOn(CsvContent(items).value, '\n')[0] == JoinWith(CsvHeaders, ',')
  {
    var h := JoinWith(CsvHeaders, ',');
    var rows := CsvRows(items);
    HeaderFields();
    var lines := [h] + rows;
    assert lines[1..] == rows;
    assert CsvContent(items).value == h + ['\n'] + JoinWith(rows, '\n');
    FirstLine(h, JoinWith(rows, '\n'));
  }

  /** No line break in any field of an item. */
  predicate SingleLine(item: InventoryItem) {
    forall k :: 0 <= k < 7 ==> '\n' !in RowValues(item)[k]
  }

  lemma {:induction false} JoinKeepsSingleLine(parts: seq<string>, sep: char)
    requires sep != '\n'
    requires forall i :: 0 <= i < |parts| ==> '\n' !in parts[i]
    ensures '\n' !in JoinWith(parts, sep)
  {
    if |parts| > 1 {
      JoinKeepsSingleLine(parts[1..], sep);
    }
  }

  /** A row of single-line fields is a single line. */
  lemma RowSingleLine(item: InventoryItem)
    requires SingleLine(item)
    ensures '\n' !in CsvRow(item)
  {
    var f := CsvFields(item);
    var v := RowValues(item);
    assert '\n' !in v[1];
    EscapeSingleLine(item.name);
    assert '\n' !in f[1];
    assert forall k :: 0 <= k < 7 && k != 1 ==> f[k] == v[k];
    JoinKeepsSingleLine(f, ',');
  }

  lemma SplitLines(h: string, rows: seq<string>)
    requires '\n' !in h
    requires forall i :: 0 <= i < |rows| ==> '\n' !in rows[i]
    ensures SplitOn(JoinWith([h] + rows, '\n'), '\n') == [h] + rows
  {
    var lines := [h] + rows;
    forall i | 0 <= i < |lines|
      ensures '\n' !in lines[i]
    {
      if i > 0 {
        assert lines[i] == rows[i - 1];
      }
    }
    SplitJoin(lines, '\n');
  }

  /** With no line break in any field, the CSV text splits into the header
      line followed by one row per item, in list order. */
  lemma CsvLines(items: seq<InventoryItem>)
    requires |items| > 0
    requires forall i :: 0 <= i < |items| ==> SingleLine(items[i])
    ensures SplitOn(CsvContent(items).value, '\n') == [JoinWith(CsvHeaders, ',')] + CsvRows(items)
    ensures |SplitOn(CsvContent(items).value, '\n')| == 1 + |items|
  {
    var rows := CsvRows(items);
    HeaderFields();
    forall i | 0 <= i < |rows|
      ensures '\n' !in rows[i]
    {
      RowSingleLine(items[i]);
    }
    SplitLines(JoinWith(CsvHeaders, ','), rows);
  }

  // ---------------------------------------------------------------------
  // JSON

  /** One entry of the JSON export; `None` is JSON `null`. */
  datatype JsonItem = JsonItem(
    id: string,
    name: string,
    itemType: string,
    expirationDate: string,
    status: string,
    barcode: Option<string>,
    imageUri: Option<string>,
    createdAt: string)

  datatype JsonExport = JsonExport(exportDate: string, itemCount: nat, items: seq<JsonItem>)

  /** The value when present and non-empty, otherwise null. */
  function OrNull(s: Option<string>): (r: Option<string>)
    ensures r.None? <==> !Truthy(s)
    ensures r.Some? ==> r == s
  {
    if Truthy(s) then s else None
  }

  function JsonRecord(item: InventoryItem): JsonItem {
    JsonItem(item.id, item.name, TypeName(item.itemType), item.expirationDate, StatusName(item.status),
             OrNull(item.barcode), OrNull(item.imageUri), item.createdAt)
  }

  /** The record of `exportAsJSON`, with the export timestamp as a
      parameter; none for an empty list. */
  function JsonContent(items: seq<InventoryItem>, exportDate: string): (r: Option<JsonExport>)
    ensures r.None? <==> |items| == 0
    ensures r.Some? ==> r.value.itemCount == |items| == |r.value.items|
  {
    if |items| == 0 then None
    else Some(JsonExport(exportDate, |items|, seq(|items|, i requires 0 <= i < |items| => JsonRecord(items[i]))))
  }

  /** Each JSON entry carries its item's fields, in list order, and a
      missing or empty barcode or image reference becomes null. */
  lemma JsonEntries(items: seq<InventoryItem>, exportDate: string, i: int)
    requires 0 <= i < |items|
    ensures var e := JsonContent(items, exportDate).value.items[i];
      && e.id == items[i].id && e.name == items[i].name && e.expirationDate == items[i].expirationDate
      && e.itemType == TypeName(items[i].itemType) && e.status == StatusName(items[i].status)
      && e.createdAt == items[i].createdAt
      && (e.barcode.None? <==> !Truthy(items[i].barcode))
      && (e.imageUri.None? <==> !Truthy(items[i].imageUri))
      && (Truthy(items[i].barcode) ==> e.barcode == items[i].barcode)
      && (Truthy(items[i].imageUri) ==> e.imageUri == items[i].imageUri)
  {
  }

  // ---------------------------------------------------------------------
  // The file-name date stamp

  /** `s` padded on the left with `c` up to length `n`; unchanged when already that long. */
  function PadStart(s: string, n: nat, c: char): (r: string)
    ensures |r| == if |s| >= n then |s| else n
    ensures r[|r| - |s|..] == s
    ensures forall i :: 0 <= i < |r| - |s| ==> r[i] == c
  {
    if |s| >= n then s else seq(n - |s|, _ => c) + s
  }

  /** `formatDate` for a date with that year, zero-based month and day. */
  function FormatDate(year: int, monthIndex: int, day: int): string {
    Decimal.IntToString(year) + "-" + PadStart(Decimal.IntToString(monthIndex + 1), 2, '0')
      + "-" + PadStart(Decimal.IntToString(day), 2, '0')
  }

  /** A one- or two-digit number padded to two digits reads back as that number. */
  lemma TwoDigits(v: nat)
    requires v < 100
    ensures var p := PadStart(Decimal.IntToString(v), 2, '0');
      && |p| == 2 && Decimal.ParseNat(p) == Some(v)
  {
    var s := Decimal.NatToString(v);
    var p := PadStart(s, 2, '0');
    if v < 10 {
      assert s == [Decimal.DigitChar(v)];
      assert p == ['0'] + s;
      assert p[..1] == ['0'];
    } else {
      Decimal.ParseNatToString(v);
      assert Decimal.NatToString(v / 10) == [Decimal.DigitChar(v / 10)];
      assert |s| == 2;
    }
  }

  lemma DashedParts(y: string, mm: string, dd: string)
    requires |mm| == 2 && |dd| == 2
    ensures var r := y + "-" + mm + "-" + dd;
      && |r| == |y| + 6 && r[..|y|] == y && r[|y|] == '-' && r[|y| + 3] == '-'
      && r[|y|..][1..3] == mm && r[|y| + 4..] == dd
  {
    var r := y + "-" + mm + "-" + dd;
    assert r == y + ("-" + mm + "-" + dd);
    assert r[|y|..] == "-" + mm + "-" + dd;
  }

  /** The stamp is `YYYY-MM-DD`: the year, a dash, the month index plus one
      in two digits, a dash and the day in two digits. */
  lemma FormatDateLayout(year: nat, monthIndex: nat, day: nat)
    requires monthIndex < 12 && 1 <= day <= 31
    ensures var y := Decimal.NatToString(year);
      var r := FormatDate(year, monthIndex, day);
      && |r| == |y| + 6 && r[..|y|] == y && r[|y|] == '-' && r[|y| + 3] == '-'
      && Decimal.ParseNat(r[|y|..][1..3]) == Some(monthIndex + 1)
      && Decimal.ParseNat(r[|y| + 4..]) == Some(day)
      && Decimal.ParseNat(y) == Some(year)
  {
    var y := Decimal.NatToString(year);
    var mm := PadStart(Decimal.IntToString(monthIndex + 1), 2, '0');
    var dd := PadStart(Decimal.IntToString(day), 2, '0');
    TwoDigits(monthIndex + 1);
    TwoDigits(day);
    Decimal.ParseNatToString(year);
    assert FormatDate(year, monthIndex, day) == y + "-" + mm + "-" + dd;
    DashedParts(y, mm, dd);
  }
}
