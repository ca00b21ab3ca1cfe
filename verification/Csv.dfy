/** The product CSV parser (services/app/src/modules/catalog/csv-parser.ts). */
module Csv {
  import opened Prelude
  import opened Text

  datatype Row = Row(sku: Option<string>, name: string, categoryId: Option<string>, unitOfMeasure: string,
                     barcode: Option<string>, supplierId: Option<string>, isPerishable: Option<bool>,
                     minStockGlobal: Option<int>, costPriceCents: Option<int>, salePriceCents: Option<int>)

  datatype Problem = EmptyFile | MissingColumns(columns: seq<string>) | MissingFields

  datatype CsvError = CsvError(line: nat, problem: Problem)

  datatype Parsed = Parsed(rows: seq<Row>, errors: seq<CsvError>)

  /** The columns the parser knows. */
  predicate Known(column: string) {
    column == "sku" || column == "name" || column == "categoryId" || column == "unitOfMeasure" || column == "barcode" ||
    column == "supplierId" || column == "isPerishable" || column == "minStockGlobal" || column == "costPriceCents" ||
    column == "salePriceCents"
  }

  // ---------------------------------------------------------------- fields

  /** A value a field can carry: nothing to trim and no line break. */
  predicate Clean(s: string) { Trimmed(s) && '\n' !in s }

  // ---------------------------------------------------------------- one line

  function Scan(line: string, current: string, inQuotes: bool): seq<string>
    decreases |line|
  {
    if line == "" then [current]
    else if inQuotes then
      if line[0] != '"' then Scan(line[1..], current + [line[0]], true)
      else if |line| > 1 && line[1] == '"' then Scan(line[2..], current + ['"'], true)
      else Scan(line[1..], current, false)
    else if line[0] == '"' then Scan(line[1..], current, true)
    else if line[0] == ',' then [current] + Scan(line[1..], "", false)
    else Scan(line[1..], current + [line[0]], false)
  }

  function TrimAll(fields: seq<string>): (r: seq<string>)
    ensures |r| == |fields|
    ensures forall k :: 0 <= k < |fields| ==> r[k] == Trim(fields[k])
  {
    if fields == [] then [] else [Trim(fields[0])] + TrimAll(fields[1..])
  }

  function Fields(line: string): seq<string> { TrimAll(Scan(line, "", false)) }

  method ParseCsvLine(line: string) returns (r: seq<string>)
    ensures r == Fields(line)
  {
    var fields: seq<string> := [];
    var current := "";
    var inQuotes := false;
    var i := 0;
    while i < |line|
      invariant 0 <= i <= |line|
      invariant fields + Scan(line[i..], current, inQuotes) == Scan(line, "", false)
    {
      var ch := line[i];
      ghost var rest := line[i..];
      assert rest[0] == ch && rest[1..] == line[i + 1..];
      if inQuotes {
        if ch == '"' {
          if i + 1 < |line| && line[i + 1] == '"' {
            assert rest[1] == '"' && rest[2..] == line[i + 2..];
            current := current + ['"'];
            i := i + 1;
          } else {
            inQuotes := false;
          }
        } else {
          current := current + [ch];
        }
      } else if ch == '"' {
        inQuotes := true;
      } else if ch == ',' {
        fields := fields + [current];
        current := "";
      } else {
        current := current + [ch];
      }
      i := i + 1;
    }
    fields := fields + [current];
    r := TrimAll(fields);
  }

  // ---------------------------------------------------------------- the file

  /** Splits at each `\n`, taking one `\r` before it along. */
  function SplitLines(text: string, current: string): seq<string>
    decreases |text|
  {
    if text == "" then [current]
    else if text[0] == '\n' then [DropReturn(current)] + SplitLines(text[1..], "")
    else SplitLines(text[1..], current + [text[0]])
  }

  function DropReturn(s: string): string {
    if s != "" && s[|s| - 1] == '\r' then s[..|s| - 1] else s
  }

  function NonEmpty(lines: seq<string>): seq<string> {
    if lines == [] then []
    else if lines[0] == "" then NonEmpty(lines[1..])
    else [lines[0]] + NonEmpty(lines[1..])
  }

  function Missing(header: seq<string>): seq<string> {
    (if "name" in header then [] else ["name"]) + (if "unitOfMeasure" in header then [] else ["unitOfMeasure"])
  }

  /** Column name to value, over the first n columns; a repeated column keeps its last value. */
  function Record(header: seq<string>, values: seq<string>, n: nat): map<string, string>
    requires n <= |header|
  {
    if n == 0 then map[]
    else Record(header, values, n - 1)[header[n - 1] := if n - 1 < |values| then values[n - 1] else ""]
  }

  function Get(record: map<string, string>, column: string): string {
    if column in record then record[column] else ""
  }

  function TextOf(s: string): Option<string> { if s == "" then None else Some(s) }

  function BoolOf(s: string): Option<bool> { if s == "" then None else Some(IsTrue(s)) }

  /** toLowerCase() === "true": no other character has a lower case among these four. */
  predicate IsTrue(s: string) {
    |s| == 4 && s[0] in "tT" && s[1] in "rR" && s[2] in "uU" && s[3] in "eE"
  }

  function NumberOf(s: string): Option<int> { if s == "" then None else Some(ParseInt(s)) }

  /** Number.parseInt(s, 10) || 0. */
  function ParseInt(s: string): int {
    var t := TrimStart(s);
    if t != "" && t[0] == '-' then 0 - Leading(t[1..], 0)
    else if t != "" && t[0] == '+' then Leading(t[1..], 0)
    else Leading(t, 0)
  }

  /** The digits s starts with, read after acc. */
  function Leading(s: string, acc: nat): nat {
    if s != "" && '0' <= s[0] <= '9' then Leading(s[1..], 10 * acc + (s[0] as int - '0' as int)) else acc
  }

  function RowOf(record: map<string, string>): Option<Row> {
    if Get(record, "name") == "" || Get(record, "unitOfMeasure") == "" then None
    else Some(Row(TextOf(Get(record, "sku")), Get(record, "name"), TextOf(Get(record, "categoryId")),
                  Get(record, "unitOfMeasure"), TextOf(Get(record, "barcode")), TextOf(Get(record, "supplierId")),
                  BoolOf(Get(record, "isPerishable")), NumberOf(Get(record, "minStockGlobal")),
                  NumberOf(Get(record, "costPriceCents")), NumberOf(Get(record, "salePriceCents"))))
  }

  function ParseRow(header: seq<string>, line: string): Option<Row> {
    RowOf(Record(header, Fields(line), |header|))
  }

  /** Lines 1 to n - 1, in order; the error of index i names line i + 1. */
  function ParseRows(header: seq<string>, lines: seq<string>, n: nat): Parsed
    requires n <= |lines|
  {
    if n <= 1 then Parsed([], [])
    else
      var before := ParseRows(header, lines, n - 1);
      match ParseRow(header, lines[n - 1])
      case Some(row) => before.(rows := before.rows + [row])
      case None => before.(errors := before.errors + [CsvError(n, MissingFields)])
  }

  function Parse(text: string): Parsed {
    var lines := NonEmpty(SplitLines(text, ""));
    if lines == [] then Parsed([], [CsvError(0, EmptyFile)])
    else
      var header := Fields(lines[0]);
      if Missing(header) != [] then Parsed([], [CsvError(1, MissingColumns(Missing(header)))])
      else ParseRows(header, lines, |lines|)
  }

  method FillRecord(header: seq<string>, values: seq<string>) returns (record: map<string, string>)
    ensures record == Record(header, values, |header|)
  {
    record := map[];
    var idx := 0;
    while idx < |header|
      invariant 0 <= idx <= |header|
      invariant record == Record(header, values, idx)
    {
      record := record[header[idx] := if idx < |values| then values[idx] else ""];
      idx := idx + 1;
    }
  }

  method ParseProductsCsv(csvText: string) returns (r: Parsed)
    ensures r == Parse(csvText)
    ensures var lines := NonEmpty(SplitLines(csvText, ""));
      && (lines == [] ==> r == Parsed([], [CsvError(0, EmptyFile)]))
      && (lines != [] && ("name" !in Fields(lines[0]) || "unitOfMeasure" !in Fields(lines[0])) ==>
            && r.rows == [] && |r.errors| == 1 && r.errors[0].line == 1 && r.errors[0].problem.MissingColumns?
            && r.errors[0].problem.columns ==
               if "name" in Fields(lines[0]) then ["unitOfMeasure"]
               else if "unitOfMeasure" in Fields(lines[0]) then ["name"]
               else ["name", "unitOfMeasure"])
  {
    var lines := NonEmpty(SplitLines(csvText, ""));
    if |lines| == 0 {
      return Parsed([], [CsvError(0, EmptyFile)]);
    }
    var header := ParseCsvLine(lines[0]);
    var missing := Missing(header);
    if |missing| > 0 {
      return Parsed([], [CsvError(1, MissingColumns(missing))]);
    }
    var rows: seq<Row> := [];
    var errors: seq<CsvError> := [];
    var i := 1;
    while i < |lines|
      invariant 1 <= i <= |lines|
      invariant Parsed(rows, errors) == ParseRows(header, lines, i)
    {
      var values := ParseCsvLine(lines[i]);
      var record := FillRecord(header, values);
      match RowOf(record) {
        case None => errors := errors + [CsvError(i + 1, MissingFields)];
        case Some(row) => rows := rows + [row];
      }
      i := i + 1;
    }
    r := Parsed(rows, errors);
  }

  // ---------------------------------------------------------------- printing (section 2 of RFC 4180)

  function Escape(s: string): string {
    if s == "" then "" else (if s[0] == '"' then ['"', '"'] else [s[0]]) + Escape(s[1..])
  }

  function Quoted(s: string): string { ['"'] + Escape(s) + ['"'] }

  /** A field is quoted when it must be, or always. */
  function Encode(s: string, always: bool): string {
    if always || ',' in s || '"' in s then Quoted(s) else s
  }

  function Join(fields: seq<string>, always: bool): string
    requires fields != []
  {
    if |fields| == 1 then Encode(fields[0], always)
    else Encode(fields[0], always) + [','] + Join(fields[1..], always)
  }

  function Digits(n: nat): string {
    (if n < 10 then "" else Digits(n / 10)) + [('0' as int + n % 10) as char]
  }

  function Decimal(n: int): string { if n < 0 then "-" + Digits(-n) else Digits(n) }

  function TextField(o: Option<string>): string { o.GetOr("") }

  function BoolField(o: Option<bool>): string {
    match o case None => "" case Some(b) => if b then "true" else "false"
  }

  function NumberField(o: Option<int>): string { match o case None => "" case Some(n) => Decimal(n) }

  /** What the row has for a column; `other` is what stands under a column that the parser does not know. */
  function Cell(row: Row, column: string, other: string): string {
    if column == "sku" then TextField(row.sku)
    else if column == "name" then row.name
    else if column == "categoryId" then TextField(row.categoryId)
    else if column == "unitOfMeasure" then row.unitOfMeasure
    else if column == "barcode" then TextField(row.barcode)
    else if column == "supplierId" then TextField(row.supplierId)
    else if column == "isPerishable" then BoolField(row.isPerishable)
    else if column == "minStockGlobal" then NumberField(row.minStockGlobal)
    else if column == "costPriceCents" then NumberField(row.costPriceCents)
    else if column == "salePriceCents" then NumberField(row.salePriceCents)
    else other
  }

  function Cells(header: seq<string>, row: Row, others: seq<string>): (r: seq<string>)
    requires |others| == |header|
    ensures |r| == |header|
  {
    seq(|header|, k requires 0 <= k < |header| => Cell(row, header[k], others[k]))
  }

  /** One text for each row and column, written where the column is unknown. */
  predicate Fills(header: seq<string>, rows: seq<Row>, others: seq<seq<string>>) {
    |others| == |rows| && forall i :: 0 <= i < |others| ==> |others[i]| == |header|
  }

  function PrintRows(header: seq<string>, rows: seq<Row>, others: seq<seq<string>>, always: bool): seq<string>
    requires header != [] && Fills(header, rows, others)
  {
    seq(|rows|, i requires 0 <= i < |rows| => Join(Cells(header, rows[i], others[i]), always))
  }

  function Terminate(lines: seq<string>, eol: string): string {
    if lines == [] then "" else lines[0] + eol + Terminate(lines[1..], eol)
  }

  /** The file with this header, every line ended by `\n` or, with crlf, by `\r\n`. */
  function Print(header: seq<string>, rows: seq<Row>, others: seq<seq<string>>, always: bool, crlf: bool): string
    requires header != [] && Fills(header, rows, others)
  {
    Terminate([Join(header, always)] + PrintRows(header, rows, others, always), if crlf then "\r\n" else "\n")
  }

  /** Different names, the two mandatory ones among them, in any order and among any others. */
  predicate Usable(header: seq<string>) {
    "name" in header && "unitOfMeasure" in header &&
    (forall k :: 0 <= k < |header| ==> Clean(header[k])) &&
    (forall j, k :: 0 <= j < k < |header| ==> header[j] != header[k])
  }

  /** What remains of a row when only these columns are written. */
  function Under(header: seq<string>, row: Row): Row {
    Row(if "sku" in header then row.sku else None, row.name,
        if "categoryId" in header then row.categoryId else None, row.unitOfMeasure,
        if "barcode" in header then row.barcode else None,
        if "supplierId" in header then row.supplierId else None,
        if "isPerishable" in header then row.isPerishable else None,
        if "minStockGlobal" in header then row.minStockGlobal else None,
        if "costPriceCents" in header then row.costPriceCents else None,
        if "salePriceCents" in header then row.salePriceCents else None)
  }

  function AllUnder(header: seq<string>, rows: seq<Row>): seq<Row> {
    seq(|rows|, i requires 0 <= i < |rows| => Under(header, rows[i]))
  }

  predicate PrintableText(o: Option<string>) { o.Some? ==> Clean(o.value) && o.value != "" }

  /** What a row must satisfy to survive the file: mandatory fields present, values clean. */
  predicate Printable(row: Row) {
    Clean(row.name) && row.name != "" && Clean(row.unitOfMeasure) && row.unitOfMeasure != "" &&
    PrintableText(row.sku) && PrintableText(row.categoryId) && PrintableText(row.barcode) &&
    PrintableText(row.supplierId)
  }

  // ---------------------------------------------------------------- scanning what was printed

  lemma {:induction false} ScanEscaped(s: string, rest: string, current: string)
    requires rest == "" || rest[0] != '"'
    ensures Scan(Escape(s) + ['"'] + rest, current, true) == Scan(rest, current + s, false)
    decreases |s|
  {
    var line := Escape(s) + ['"'] + rest;
    if s == "" {
      assert line == ['"'] + rest && line[1..] == rest && current + s == current;
    } else {
      var tail := Escape(s[1..]) + ['"'] + rest;
      ScanEscaped(s[1..], rest, current + [s[0]]);
      assert current + [s[0]] + s[1..] == current + s;
      if s[0] == '"' {
        assert line == ['"', '"'] + tail && line[2..] == tail;
      } else {
        assert line == [s[0]] + tail && line[1..] == tail;
      }
    }
  }

  lemma {:induction false} ScanBare(s: string, rest: string, current: string)
    requires ',' !in s && '"' !in s
    ensures Scan(s + rest, current, false) == Scan(rest, current + s, false)
    decreases |s|
  {
    if s == "" {
      assert s + rest == rest && current + s == current;
    } else {
      assert (s + rest)[0] == s[0] && (s + rest)[1..] == s[1..] + rest;
      assert s[0] in s;
      ScanBare(s[1..], rest, current + [s[0]]);
      assert current + [s[0]] + s[1..] == current + s;
    }
  }

  lemma {:induction false} ScanEncoded(s: string, always: bool, rest: string)
    requires rest == "" || rest[0] == ','
    ensures Scan(Encode(s, always) + rest, "", false) == Scan(rest, s, false)
  {
    if always || ',' in s || '"' in s {
      var tail := Escape(s) + ['"'] + rest;
      assert Encode(s, always) + rest == ['"'] + tail;
      assert (['"'] + tail)[1..] == tail;
      ScanEscaped(s, rest, "");
      assert "" + s == s;
    } else {
      ScanBare(s, rest, "");
      assert "" + s == s;
    }
  }

  lemma {:induction false} ScanJoined(fields: seq<string>, always: bool)
    requires fields != []
    ensures Scan(Join(fields, always), "", false) == fields
    decreases |fields|
  {
    var first := Encode(fields[0], always);
    if |fields| == 1 {
      assert first + "" == first;
      ScanEncoded(fields[0], always, "");
      assert fields == [fields[0]];
    } else {
      var rest := [','] + Join(fields[1..], always);
      assert Join(fields, always) == first + rest;
      ScanEncoded(fields[0], always, rest);
      assert rest[1..] == Join(fields[1..], always);
      ScanJoined(fields[1..], always);
      assert fields == [fields[0]] + fields[1..];
    }
  }

  /** A printed line scans and trims back to its fields. */
  lemma {:induction false} FieldsOfJoined(fields: seq<string>, always: bool)
    requires fields != []
    requires forall k :: 0 <= k < |fields| ==> Trimmed(fields[k])
    ensures Fields(Join(fields, always)) == fields
  {
    ScanJoined(fields, always);
    forall k | 0 <= k < |fields| ensures Trim(fields[k]) == fields[k] {
      TrimKeeps(fields[k]);
    }
    assert TrimAll(fields) == fields;
  }

  // ---------------------------------------------------------------- numbers

  predicate AllDigits(s: string) { forall k :: 0 <= k < |s| ==> '0' <= s[k] <= '9' }

  lemma {:induction false} LeadingAppend(s: string, d: char, acc: nat)
    requires AllDigits(s) && '0' <= d <= '9'
    ensures Leading(s + [d], acc) == 10 * Leading(s, acc) + (d as int - '0' as int)
    decreases |s|
  {
    if s == "" {
      assert s + [d] == [d] && [d][1..] == "";
      assert Leading("", 10 * acc + (d as int - '0' as int)) == 10 * acc + (d as int - '0' as int);
    } else {
      assert (s + [d])[0] == s[0] && (s + [d])[1..] == s[1..] + [d];
      LeadingAppend(s[1..], d, 10 * acc + (s[0] as int - '0' as int));
    }
  }

  lemma {:induction false} DigitsRead(n: nat)
    ensures Digits(n) != "" && AllDigits(Digits(n))
    ensures Leading(Digits(n), 0) == n
    decreases n
  {
    var d := ('0' as int + n % 10) as char;
    if n < 10 {
      assert Digits(n) == "" + [d] == [d];
      LeadingAppend("", d, 0);
    } else {
      DigitsRead(n / 10);
      LeadingAppend(Digits(n / 10), d, 0);
    }
  }

  /** Every integer printed in decimal is read back, negative ones included. */
  lemma {:induction false} DecimalRead(n: int)
    ensures Decimal(n) != "" && Clean(Decimal(n))
    ensures ParseInt(Decimal(n)) == n
  {
    if n < 0 {
      DigitsRead(-n);
      assert Decimal(n)[1..] == Digits(-n);
    } else {
      DigitsRead(n);
    }
  }

  /** The number that a sequence of digits denotes. */
  function Value(s: string): nat
    requires AllDigits(s)
  {
    if s == "" then 0 else 10 * Value(s[..|s| - 1]) + (s[|s| - 1] as int - '0' as int)
  }

  lemma {:induction false} LeadingStops(s: string, rest: string, acc: nat)
    requires AllDigits(s) && (rest == "" || !('0' <= rest[0] <= '9'))
    ensures Leading(s + rest, acc) == Leading(s, acc)
    decreases |s|
  {
    if s == "" {
      assert s + rest == rest;
    } else {
      assert (s + rest)[0] == s[0] && (s + rest)[1..] == s[1..] + rest;
      LeadingStops(s[1..], rest, 10 * acc + (s[0] as int - '0' as int));
    }
  }

  lemma {:induction false} LeadingIsValue(s: string)
    requires AllDigits(s)
    ensures Leading(s, 0) == Value(s)
  {
    if s != "" {
      var n := |s| - 1;
      LeadingIsValue(s[..n]);
      LeadingAppend(s[..n], s[n], 0);
      assert s == s[..n] + [s[n]];
    }
  }

  /** A field counts as its sign and the digits it starts with, whatever follows them; without digits as 0. */
  lemma {:induction false} NumberOfPrefix(sign: string, digits: string, rest: string)
    requires sign == "" || sign == "+" || sign == "-"
    requires AllDigits(digits) && (rest == "" || !('0' <= rest[0] <= '9')) && sign + digits + rest != ""
    requires sign + digits == "" ==> rest[0] != '+' && rest[0] != '-' && !IsSpace(rest[0])
    ensures var n: int := Value(digits); NumberOf(sign + digits + rest) == Some(if sign == "-" then -n else n)
  {
    var s, body := sign + digits + rest, digits + rest;
    LeadingStops(digits, rest, 0);
    LeadingIsValue(digits);
    if sign == "" {
      assert s == body;
      if digits != "" { assert s[0] == digits[0]; }
    } else {
      assert s[0] == sign[0] && s[1..] == body;
    }
    assert TrimStart(s) == s;
  }

  /** What toLowerCase does to the letters of English. */
  function Lower(s: string): string {
    seq(|s|, k requires 0 <= k < |s| => if 'A' <= s[k] <= 'Z' then (s[k] as int + 32) as char else s[k])
  }

  /** A field that is not empty is true exactly if it spells the word in any mix of cases, and false otherwise. */
  lemma {:induction false} TrueInAnyCase(s: string)
    ensures BoolOf(s) == if s == "" then None else Some(Lower(s) == "true")
  {
    var low := Lower(s);
    if low == "true" {
      assert low[0] == 't' && low[1] == 'r' && low[2] == 'u' && low[3] == 'e';
    }
    if IsTrue(s) {
      assert low[0] == 't' && low[1] == 'r' && low[2] == 'u' && low[3] == 'e';
    }
  }

  // ---------------------------------------------------------------- records

  lemma {:induction false} RecordAt(header: seq<string>, values: seq<string>, n: nat, k: nat)
    requires k < n <= |header| && k < |values|
    requires forall j :: k < j < n ==> header[j] != header[k]
    ensures Get(Record(header, values, n), header[k]) == values[k]
  {
    if k < n - 1 {
      RecordAt(header, values, n - 1, k);
    }
  }

  lemma {:induction false} FieldsReadBack(row: Row)
    requires Printable(row)
    ensures TextOf(TextField(row.sku)) == row.sku && TextOf(TextField(row.categoryId)) == row.categoryId
    ensures TextOf(TextField(row.barcode)) == row.barcode && TextOf(TextField(row.supplierId)) == row.supplierId
    ensures BoolOf(BoolField(row.isPerishable)) == row.isPerishable
    ensures NumberOf(NumberField(row.minStockGlobal)) == row.minStockGlobal
    ensures NumberOf(NumberField(row.costPriceCents)) == row.costPriceCents
    ensures NumberOf(NumberField(row.salePriceCents)) == row.salePriceCents
  {
    hide Decimal, ParseInt;
    NumberRead(row.minStockGlobal);
    NumberRead(row.costPriceCents);
    NumberRead(row.salePriceCents);
  }

  lemma {:induction false} NumberRead(o: Option<int>)
    ensures NumberOf(NumberField(o)) == o
  {
    hide Decimal, ParseInt;
    if o.Some? { DecimalRead(o.value); }
  }

  lemma {:induction false} NumberFieldClean(o: Option<int>)
    ensures Clean(NumberField(o))
  {
    if o.Some? { DecimalRead(o.value); }
  }

  /** A column that the header does not have reads as empty. */
  lemma {:induction false} RecordAbsent(header: seq<string>, values: seq<string>, n: nat, column: string)
    requires n <= |header| && column !in header
    ensures Get(Record(header, values, n), column) == ""
  {
    if n > 0 {
      RecordAbsent(header, values, n - 1, column);
      assert header[n - 1] in header;
    }
  }

  predicate CleanAll(values: seq<string>) { forall k :: 0 <= k < |values| ==> Clean(values[k]) }

  lemma {:induction false} CellClean(row: Row, column: string, other: string)
    requires Printable(row) && Clean(other)
    ensures Clean(Cell(row, column, other))
  {
    NumberFieldClean(row.minStockGlobal);
    NumberFieldClean(row.costPriceCents);
    NumberFieldClean(row.salePriceCents);
    assert Clean(BoolField(row.isPerishable));
    hide NumberField, BoolField;
  }

  lemma {:induction false} CellsClean(header: seq<string>, row: Row, others: seq<string>)
    requires Printable(row) && |others| == |header| && CleanAll(others)
    ensures CleanAll(Cells(header, row, others))
  {
    hide Cell, Printable, Clean;
    forall k | 0 <= k < |header| ensures Clean(Cell(row, header[k], others[k])) {
      CellClean(row, header[k], others[k]);
    }
  }

  /** The parser finds each column of the header under its own name, wherever it stands. */
  lemma {:induction false} CellRead(header: seq<string>, row: Row, others: seq<string>, column: string)
    requires Usable(header) && |others| == |header| && Known(column)
    ensures Get(Record(header, Cells(header, row, others), |header|), column) ==
            if column in header then Cell(row, column, "") else ""
  {
    hide Clean, Get, Record;
    if column in header {
      var k :| 0 <= k < |header| && header[k] == column;
      RecordAt(header, Cells(header, row, others), |header|, k);
    } else {
      hide Cell;
      RecordAbsent(header, Cells(header, row, others), |header|, column);
    }
  }

  lemma {:induction false} CellsRead(header: seq<string>, row: Row, others: seq<string>)
    requires Usable(header) && |others| == |header|
    ensures var record := Record(header, Cells(header, row, others), |header|);
      forall column :: Known(column) ==> Get(record, column) == if column in header then Cell(row, column, "") else ""
  {
    hide Get, Record, Cells, Cell, Usable, Known;
    forall column | Known(column)
      ensures Get(Record(header, Cells(header, row, others), |header|), column) ==
              if column in header then Cell(row, column, "") else ""
    {
      CellRead(header, row, others, column);
    }
  }

  lemma {:induction false} RowRead(header: seq<string>, row: Row, others: seq<string>)
    requires Usable(header) && Printable(row) && |others| == |header|
    ensures RowOf(Record(header, Cells(header, row, others), |header|)) == Some(Under(header, row))
  {
    hide Get, Record, Cells, Cell, TextOf, TextField, BoolOf, BoolField, NumberOf, NumberField;
    hide Printable, Usable, Known;
    AllKnown();
    CellIs(row);
    CellsRead(header, row, others);
    EmptyRead();
    MandatoryThere(header, row);
    FieldsReadBack(row);
  }

  lemma {:induction false} AllKnown()
    ensures Known("sku") && Known("name") && Known("categoryId") && Known("unitOfMeasure") && Known("barcode")
    ensures Known("supplierId") && Known("isPerishable") && Known("minStockGlobal") && Known("costPriceCents")
    ensures Known("salePriceCents")
  {
  }

  lemma {:induction false} CellIs(row: Row)
    ensures Cell(row, "sku", "") == TextField(row.sku) && Cell(row, "name", "") == row.name
    ensures Cell(row, "categoryId", "") == TextField(row.categoryId)
    ensures Cell(row, "unitOfMeasure", "") == row.unitOfMeasure
    ensures Cell(row, "barcode", "") == TextField(row.barcode)
    ensures Cell(row, "supplierId", "") == TextField(row.supplierId)
    ensures Cell(row, "isPerishable", "") == BoolField(row.isPerishable)
    ensures Cell(row, "minStockGlobal", "") == NumberField(row.minStockGlobal)
    ensures Cell(row, "costPriceCents", "") == NumberField(row.costPriceCents)
    ensures Cell(row, "salePriceCents", "") == NumberField(row.salePriceCents)
  {
    hide NumberField, TextField, BoolField;
  }

  lemma {:induction false} EmptyRead()
    ensures TextOf("") == None && BoolOf("") == None && NumberOf("") == None
  {
  }

  lemma {:induction false} MandatoryThere(header: seq<string>, row: Row)
    requires Usable(header) && Printable(row)
    ensures "name" in header && "unitOfMeasure" in header && row.name != "" && row.unitOfMeasure != ""
  {
  }

  lemma {:induction false} LineRead(header: seq<string>, row: Row, others: seq<string>, always: bool)
    requires Usable(header) && Printable(row) && |others| == |header| && CleanAll(others)
    ensures ParseRow(header, Join(Cells(header, row, others), always)) == Some(Under(header, row))
  {
    hide Printable, Cells, RowOf, Record;
    CellsClean(header, row, others);
    FieldsOfJoined(Cells(header, row, others), always);
    RowRead(header, row, others);
  }

  // ---------------------------------------------------------------- lines

  /** A line that splitting gives back unchanged. */
  predicate Whole(line: string) { line != "" && '\n' !in line && line[|line| - 1] != '\r' }

  lemma {:induction false} EscapeKeepsClean(s: string)
    requires '\n' !in s
    ensures '\n' !in Escape(s)
    decreases |s|
  {
    if s != "" {
      assert s[0] in s;
      EscapeKeepsClean(s[1..]);
    }
  }

  lemma {:induction false} EncodeWhole(s: string, always: bool)
    requires Clean(s)
    ensures '\n' !in Encode(s, always)
    ensures Encode(s, always) != "" ==> Encode(s, always)[|Encode(s, always)| - 1] != '\r'
  {
    EscapeKeepsClean(s);
  }

  lemma {:induction false} JoinWhole(fields: seq<string>, always: bool)
    requires |fields| > 1 || (|fields| == 1 && fields[0] != "")
    requires forall k :: 0 <= k < |fields| ==> Clean(fields[k])
    ensures Whole(Join(fields, always))
    decreases |fields|
  {
    EncodeWhole(fields[0], always);
    if |fields| == 2 && fields[1] == "" {
      EncodeWhole("", always);
      assert Join(fields[1..], always) == Encode("", always);
    } else if |fields| > 1 {
      JoinWhole(fields[1..], always);
    }
  }

  lemma {:induction false} SplitFirst(line: string, eol: string, rest: string, current: string)
    requires '\n' !in line && Whole(current + line)
    requires eol == "\n" || eol == "\r\n"
    ensures SplitLines(line + eol + rest, current) == [current + line] + SplitLines(rest, "")
    decreases |line|
  {
    var text := line + eol + rest;
    if line == "" {
      assert current + line == current;
      if eol == "\n" {
        assert text[1..] == rest;
      } else {
        assert text[0] == '\r' && text[1..][0] == '\n' && text[1..][1..] == rest;
        assert (current + ['\r'])[..|current|] == current;
      }
    } else {
      assert text[1..] == line[1..] + eol + rest && line[0] in line;
      assert current + [line[0]] + line[1..] == current + line;
      SplitFirst(line[1..], eol, rest, current + [line[0]]);
    }
  }

  lemma {:induction false} SplitTerminated(lines: seq<string>, eol: string)
    requires forall k :: 0 <= k < |lines| ==> Whole(lines[k])
    requires eol == "\n" || eol == "\r\n"
    ensures NonEmpty(SplitLines(Terminate(lines, eol), "")) == lines
    decreases |lines|
  {
    if lines != [] {
      SplitTerminated(lines[1..], eol);
      var rest := Terminate(lines[1..], eol);
      assert Terminate(lines, eol) == lines[0] + eol + rest;
      assert "" + lines[0] == lines[0];
      SplitFirst(lines[0], eol, rest, "");
      var split := SplitLines(rest, "");
      assert ([lines[0]] + split)[1..] == split;
      assert lines == [lines[0]] + lines[1..];
    }
  }

  // ---------------------------------------------------------------- round trip

  lemma {:induction false} RowsRead(header: seq<string>, rows: seq<Row>, others: seq<seq<string>>, lines: seq<string>,
      always: bool, n: nat)
    requires Usable(header) && Fills(header, rows, others) && |lines| == 1 + |rows| && n <= |lines|
    requires forall k :: 0 <= k < |rows| ==> Printable(rows[k]) && CleanAll(others[k])
    requires forall k :: 0 <= k < |rows| ==> lines[k + 1] == Join(Cells(header, rows[k], others[k]), always)
    ensures ParseRows(header, lines, n) == Parsed(AllUnder(header, rows)[..if n == 0 then 0 else n - 1], [])
  {
    hide Join, ParseRow, Printable, Usable, Under, CleanAll;
    TwoColumns(header);
    if n > 1 {
      RowsRead(header, rows, others, lines, always, n - 1);
      assert lines[n - 1] == Join(Cells(header, rows[n - 2], others[n - 2]), always);
      LineRead(header, rows[n - 2], others[n - 2], always);
      var all := AllUnder(header, rows);
      assert all[..n - 1] == all[..n - 2] + [all[n - 2]];
    }
  }

  lemma {:induction false} CleanFieldsRead(fields: seq<string>, always: bool)
    requires |fields| > 1 && CleanAll(fields)
    ensures Whole(Join(fields, always)) && Fields(Join(fields, always)) == fields
  {
    JoinWhole(fields, always);
    FieldsOfJoined(fields, always);
  }

  lemma {:induction false} TwoColumns(header: seq<string>)
    requires Usable(header)
    ensures |header| > 1 && CleanAll(header) && Missing(header) == []
  {
    var i :| 0 <= i < |header| && header[i] == "name";
    var j :| 0 <= j < |header| && header[j] == "unitOfMeasure";
    assert header[i] != header[j];
  }

  lemma {:induction false} LinesRead(lines: seq<string>, eol: string)
    requires lines != [] && forall k :: 0 <= k < |lines| ==> Whole(lines[k])
    requires eol == "\n" || eol == "\r\n"
    requires Missing(Fields(lines[0])) == []
    ensures Parse(Terminate(lines, eol)) == ParseRows(Fields(lines[0]), lines, |lines|)
  {
    SplitTerminated(lines, eol);
  }

  /**
   * Printing then parsing, for every usable header, quoting style and line ending: each row comes back with what
   * its columns can carry, whatever stands under columns that the parser does not know.
   */
  lemma {:induction false} PrintThenParse(header: seq<string>, rows: seq<Row>, others: seq<seq<string>>, always: bool,
      crlf: bool)
    requires Usable(header) && Fills(header, rows, others)
    requires forall k :: 0 <= k < |rows| ==> Printable(rows[k]) && CleanAll(others[k])
    ensures Parse(Print(header, rows, others, always, crlf)) == Parsed(AllUnder(header, rows), [])
  {
    hide Join, Fields, ParseRows, Parse, Terminate, Whole, Printable, Usable, CleanAll, Cells;
    TwoColumns(header);
    var lines := [Join(header, always)] + PrintRows(header, rows, others, always);
    CleanFieldsRead(header, always);
    forall k | 0 <= k < |lines| ensures Whole(lines[k]) {
      if k > 0 {
        CellsClean(header, rows[k - 1], others[k - 1]);
        CellsWhole(header, rows[k - 1], others[k - 1], always);
      }
    }
    LinesRead(lines, if crlf then "\r\n" else "\n");
    RowsRead(header, rows, others, lines, always, |lines|);
    assert AllUnder(header, rows)[..|rows|] == AllUnder(header, rows);
  }

  lemma {:induction false} CellsWhole(header: seq<string>, row: Row, others: seq<string>, always: bool)
    requires |header| > 1 && |others| == |header| && CleanAll(Cells(header, row, others))
    ensures Whole(Join(Cells(header, row, others), always))
  {
    hide Cell;
    CleanFieldsRead(Cells(header, row, others), always);
  }

  /** A header with all ten columns, in whatever order, loses nothing. */
  lemma {:induction false} FullHeaderKeepsAll(header: seq<string>, rows: seq<Row>)
    requires forall column :: Known(column) ==> column in header
    ensures AllUnder(header, rows) == rows
  {
    hide Known;
    AllKnown();
  }

  // ---------------------------------------------------------------- every file, not only printed ones

  lemma {:induction false} ScanKeepsClean(line: string, current: string, inQuotes: bool)
    requires '\n' !in line && '\n' !in current
    ensures forall k :: 0 <= k < |Scan(line, current, inQuotes)| ==> '\n' !in Scan(line, current, inQuotes)[k]
    decreases |line|
  {
    if line != "" {
      assert line[0] in line;
      var c := line[0];
      if inQuotes {
        if c != '"' {
          ScanKeepsClean(line[1..], current + [c], true);
        } else if |line| > 1 && line[1] == '"' {
          ScanKeepsClean(line[2..], current + ['"'], true);
        } else {
          ScanKeepsClean(line[1..], current, false);
        }
      } else if c == '"' {
        ScanKeepsClean(line[1..], current, true);
      } else if c == ',' {
        ScanKeepsClean(line[1..], "", false);
      } else {
        ScanKeepsClean(line[1..], current + [c], false);
      }
    }
  }

  lemma {:induction false} SplitKeepsClean(text: string, current: string)
    requires '\n' !in current
    ensures forall k :: 0 <= k < |SplitLines(text, current)| ==> '\n' !in SplitLines(text, current)[k]
    decreases |text|
  {
    if text != "" {
      if text[0] == '\n' {
        SplitKeepsClean(text[1..], "");
      } else {
        SplitKeepsClean(text[1..], current + [text[0]]);
      }
    }
  }

  lemma {:induction false} NonEmptyKeepsClean(lines: seq<string>)
    requires forall k :: 0 <= k < |lines| ==> '\n' !in lines[k]
    ensures forall k :: 0 <= k < |NonEmpty(lines)| ==> '\n' !in NonEmpty(lines)[k]
    decreases |lines|
  {
    if lines != [] {
      assert '\n' !in lines[0];
      NonEmptyKeepsClean(lines[1..]);
    }
  }

  lemma {:induction false} FieldsClean(line: string)
    requires '\n' !in line
    ensures forall k :: 0 <= k < |Fields(line)| ==> Clean(Fields(line)[k])
  {
    var raw := Scan(line, "", false);
    ScanKeepsClean(line, "", false);
    forall k | 0 <= k < |raw| ensures Clean(TrimAll(raw)[k]) {
      TrimStartTrims(raw[k]);
      TrimEndTrims(TrimStart(raw[k]));
    }
  }

  lemma {:induction false} RecordClean(header: seq<string>, values: seq<string>, n: nat, column: string)
    requires n <= |header|
    requires forall k :: 0 <= k < |values| ==> Clean(values[k])
    ensures Clean(Get(Record(header, values, n), column))
  {
    if n > 0 {
      RecordClean(header, values, n - 1, column);
    }
  }

  lemma {:induction false} ParsedRowPrintable(header: seq<string>, line: string)
    requires '\n' !in line && ParseRow(header, line).Some?
    ensures Printable(ParseRow(header, line).value)
  {
    var values := Fields(line);
    FieldsClean(line);
    RecordClean(header, values, |header|, "name");
    RecordClean(header, values, |header|, "unitOfMeasure");
    RecordClean(header, values, |header|, "sku");
    RecordClean(header, values, |header|, "categoryId");
    RecordClean(header, values, |header|, "barcode");
    RecordClean(header, values, |header|, "supplierId");
  }

  lemma {:induction false} ParsedRowsPrintable(header: seq<string>, lines: seq<string>, n: nat)
    requires n <= |lines|
    requires forall k :: 0 <= k < |lines| ==> '\n' !in lines[k]
    ensures forall k :: 0 <= k < |ParseRows(header, lines, n).rows| ==> Printable(ParseRows(header, lines, n).rows[k])
    ensures n > 0 ==> |ParseRows(header, lines, n).rows| + |ParseRows(header, lines, n).errors| == n - 1
  {
    hide ParseRow, Printable;
    if n > 1 {
      ParsedRowsPrintable(header, lines, n - 1);
      if ParseRow(header, lines[n - 1]).Some? {
        ParsedRowPrintable(header, lines[n - 1]);
      }
    }
  }

  /**
   * For every text whatsoever: the rows read from it survive being printed under any usable header and read again,
   * so the printable rows are exactly those the parser can return.
   */
  lemma {:induction false} ParseNormalizes(text: string, header: seq<string>, others: seq<seq<string>>, always: bool,
      crlf: bool)
    requires Usable(header) && Fills(header, Parse(text).rows, others)
    requires forall k :: 0 <= k < |others| ==> CleanAll(others[k])
    ensures forall k :: 0 <= k < |Parse(text).rows| ==> Printable(Parse(text).rows[k])
    ensures Parse(Print(header, Parse(text).rows, others, always, crlf)) ==
            Parsed(AllUnder(header, Parse(text).rows), [])
  {
    hide Usable, Print, AllUnder, CleanAll, Printable;
    var split := SplitLines(text, "");
    SplitKeepsClean(text, "");
    NonEmptyKeepsClean(split);
    var lines := NonEmpty(split);
    if lines != [] {
      ParsedRowsPrintable(Fields(lines[0]), lines, |lines|);
    }
    PrintThenParse(header, Parse(text).rows, others, always, crlf);
  }

  /** With a usable header, every non-empty line after it becomes one row or one error. */
  lemma {:induction false} EveryLineAnswered(text: string)
    requires var lines := NonEmpty(SplitLines(text, "")); lines != [] && Missing(Fields(lines[0])) == []
    ensures |Parse(text).rows| + |Parse(text).errors| == |NonEmpty(SplitLines(text, ""))| - 1
  {
    var split := SplitLines(text, "");
    SplitKeepsClean(text, "");
    NonEmptyKeepsClean(split);
    ParsedRowsPrintable(Fields(NonEmpty(split)[0]), NonEmpty(split), |NonEmpty(split)|);
  }

  // ---------------------------------------------------------------- each line for itself

  /** Column j is the last one with this name; its value is what the parser keeps. */
  predicate LastOf(header: seq<string>, column: string, j: nat) {
    j < |header| && header[j] == column && forall k :: j < k < |header| ==> header[k] != column
  }

  /** The j-th value of a line, empty if the line is shorter. */
  function ValueAt(values: seq<string>, j: nat): string { if j < |values| then values[j] else "" }

  lemma {:induction false} RecordLast(header: seq<string>, values: seq<string>, n: nat, column: string, j: nat)
    requires j < n <= |header| && LastOf(header, column, j)
    ensures Get(Record(header, values, n), column) == ValueAt(values, j)
  {
    if j < n - 1 {
      RecordLast(header, values, n - 1, column, j);
    }
  }

  lemma {:induction false} ErrorLines(header: seq<string>, lines: seq<string>, n: nat, e: CsvError)
    requires n <= |lines|
    ensures e in ParseRows(header, lines, n).errors <==>
            e.problem.MissingFields? && 2 <= e.line <= n && ParseRow(header, lines[e.line - 1]).None?
  {
    hide ParseRow;
    if n > 1 { ErrorLines(header, lines, n - 1, e); }
  }

  /** Which lines are rejected: those whose last `name` or last `unitOfMeasure` is empty, counted from 1 with the
      header, for every usable or repeated set of columns. */
  lemma {:induction false} RejectedLines(text: string, name: nat, unit: nat, e: CsvError)
    requires var lines := NonEmpty(SplitLines(text, ""));
      lines != [] && LastOf(Fields(lines[0]), "name", name) && LastOf(Fields(lines[0]), "unitOfMeasure", unit)
    ensures var lines := NonEmpty(SplitLines(text, ""));
      e in Parse(text).errors <==>
      && e.problem.MissingFields? && 2 <= e.line <= |lines|
      && (ValueAt(Fields(lines[e.line - 1]), name) == "" || ValueAt(Fields(lines[e.line - 1]), unit) == "")
  {
    hide Fields, SplitLines, NonEmpty, ParseRows;
    var lines := NonEmpty(SplitLines(text, ""));
    var header := Fields(lines[0]);
    assert header[name] in header && header[unit] in header;
    ErrorLines(header, lines, |lines|, e);
    if e.problem.MissingFields? && 2 <= e.line <= |lines| {
      var values := Fields(lines[e.line - 1]);
      RecordLast(header, values, |header|, "name", name);
      RecordLast(header, values, |header|, "unitOfMeasure", unit);
    }
  }
}
