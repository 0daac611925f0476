/** parseImportFile: from file text to row objects, and what it makes of an exported file. */
module CsvImport {
  import opened Text
  import opened Wrappers
  import opened CsvReader
  import opened CsvExport
  import opened CsvPrinted

  type Row = map<string, string>

  /** What the caller hands over: nothing, rows some other parser made, or text. */
  datatype FileContent = Missing | Parsed(rows: seq<Row>) | Decoded(text: string)

  datatype ParseError = EmptyFile

  predicate IsQuoteMark(c: char) {
    c == '"' || c == '\''
  }

  function WithoutByteOrderMark(s: string): string {
    if s != "" && s[0] == '\U{FEFF}' then s[1..] else s
  }

  function WithoutQuoteMarks(s: string): string {
    if s == "" then "" else (if IsQuoteMark(s[0]) then "" else [s[0]]) + WithoutQuoteMarks(s[1..])
  }

  /** One quote mark off the front, then one off the back. */
  function Stripped(s: string): string {
    var front := if s != "" && IsQuoteMark(s[0]) then s[1..] else s;
    if front != "" && IsQuoteMark(front[|front| - 1]) then front[..|front| - 1] else front
  }

  /** `lower` stands for String.prototype.toLowerCase, whatever it does. */
  function HeaderKey(lower: string -> string, header: string): string {
    Trim(WithoutQuoteMarks(lower(header)))
  }

  function CellValue(values: seq<string>, k: nat): string {
    if k < |values| then Trim(Stripped(values[k])) else ""
  }

  /** The cells built by assigning the first `n` columns in order. */
  function RowObject(headers: seq<string>, values: seq<string>, n: nat): Row
    requires n <= |headers|
  {
    if n == 0 then map[] else RowObject(headers, values, n - 1)[headers[n - 1] := CellValue(values, n - 1)]
  }

  function HeaderKeys(lower: string -> string, header: seq<string>): (keys: seq<string>)
    ensures |keys| == |header|
    ensures forall k :: 0 <= k < |header| ==> keys[k] == HeaderKey(lower, header[k])
  {
    seq(|header|, k requires 0 <= k < |header| => HeaderKey(lower, header[k]))
  }

  function RowObjects(headers: seq<string>, lines: seq<string>): (rows: seq<Row>)
    ensures |rows| == |lines|
    ensures forall k :: 0 <= k < |lines| ==> rows[k] == RowObject(headers, FieldsOf(lines[k]), |headers|)
  {
    if |lines| == 0 then []
    else RowObjects(headers, lines[..|lines| - 1]) + [RowObject(headers, FieldsOf(lines[|lines| - 1]), |headers|)]
  }

  function Parse(lower: string -> string, content: FileContent): Result<seq<Row>, ParseError> {
    match content
    case Missing => Err(EmptyFile)
    case Parsed(rows) => if |rows| == 0 then Err(EmptyFile) else Ok(rows)
    case Decoded(text) =>
      var lines := LinesOf(Trim(WithoutByteOrderMark(text)));
      if |lines| <= 1 then Err(EmptyFile)
      else Ok(RowObjects(HeaderKeys(lower, FieldsOf(lines[0])), lines[1..]))
  }

  method BuildRow(headers: seq<string>, values: seq<string>) returns (row: Row)
    ensures row == RowObject(headers, values, |headers|)
  {
    row := map[];
    for index := 0 to |headers|
      invariant row == RowObject(headers, values, index)
    {
      row := row[headers[index] := if index < |values| then Trim(Stripped(values[index])) else ""];
    }
  }

  method ReadRows(headers: seq<string>, lines: seq<string>) returns (rows: seq<Row>)
    requires |lines| > 0
    ensures rows == RowObjects(headers, lines[1..])
  {
    rows := [];
    for i := 1 to |lines|
      invariant |rows| == i - 1
      invariant forall k :: 0 <= k < |rows| ==> rows[k] == RowObject(headers, FieldsOf(lines[1 + k]), |headers|)
    {
      var values := SplitCsvLine(lines[i]);
      var row := BuildRow(headers, values);
      rows := rows + [row];
    }
  }

  method ParseImportFile(lower: string -> string, content: FileContent) returns (r: Result<seq<Row>, ParseError>)
    ensures r == Parse(lower, content)
    ensures r.Ok? <==> match content
                       case Missing => false
                       case Parsed(rows) => rows != []
                       case Decoded(text) => |LinesOf(Trim(WithoutByteOrderMark(text)))| >= 2
    ensures content.Parsed? && r.Ok? ==> r.value == content.rows
    ensures content.Decoded? && r.Ok? ==> |r.value| == |LinesOf(Trim(WithoutByteOrderMark(content.text)))| - 1
  {
    if content.Missing? {
      return Err(EmptyFile);
    }
    if content.Parsed? {
      if |content.rows| == 0 {
        return Err(EmptyFile);
      }
      return Ok(content.rows);
    }
    var cleaned := Trim(WithoutByteOrderMark(content.text));
    if cleaned == "" {
      return Err(EmptyFile);
    }
    var lines := SplitCsvLines(cleaned);
    if |lines| <= 1 {
      return Err(EmptyFile);
    }
    var rawHeaders := SplitCsvLine(lines[0]);
    var rows := ReadRows(HeaderKeys(lower, rawHeaders), lines);
    r := Ok(rows);
  }

  /** A column whose key differs from every later one keeps its own cell. */
  lemma {:induction false} RowObjectAt(headers: seq<string>, values: seq<string>, n: nat, k: nat)
    requires k < n <= |headers|
    requires forall j :: k < j < n ==> headers[j] != headers[k]
    ensures headers[k] in RowObject(headers, values, n)
    ensures RowObject(headers, values, n)[headers[k]] == CellValue(values, k)
  {
    if k < n - 1 {
      RowObjectAt(headers, values, n - 1, k);
    }
  }

  // ----- the round trip

  /** What becomes of an exported cell on import. */
  function Recovered(v: string): string {
    Trim(Stripped(Trim(Guarded(v))))
  }

  /** The key an exported header gets on import. */
  function ExportedKey(lower: string -> string, header: string): string {
    HeaderKey(lower, Trim(Guarded(header)))
  }

  predicate MarkedEnds(s: string) {
    s != "" && (IsQuoteMark(s[0]) || IsQuoteMark(s[|s| - 1]))
  }

  lemma {:induction false} FormulaStart(s: string)
    requires StartsFormula(s)
    ensures TrimLeft(s) != "" && TrimLeft(s)[0] in FORMULA_CHARS
  {
    if s[0] !in FORMULA_CHARS {
      FormulaStart(s[1..]);
    }
  }

  lemma TrimKeepsFormulaStart(s: string)
    requires StartsFormula(s)
    ensures Trim(s) != "" && Trim(s)[0] in FORMULA_CHARS
  {
    FormulaStart(s);
    TrimRightShape(TrimLeft(s));
  }

  lemma TrimShorter(s: string)
    ensures |Trim(s)| <= |s|
  {
    TrimLeftShape(s);
    TrimRightShape(TrimLeft(s));
  }

  /** Dropping the guard's apostrophe and the blanks behind it leaves the trimmed cell. */
  lemma UnguardedTrim(v: string)
    requires StartsFormula(v)
    ensures Trim(Guarded(v)) == ['\''] + TrimRight(v)
    ensures Trim(TrimRight(v)) == Trim(v)
    ensures Trim(v) != "" && TrimRight(v) != "" && TrimRight(v)[|TrimRight(v)| - 1] == Trim(v)[|Trim(v)| - 1]
  {
    TrimPrefixed('\'', v);
    TrimOfTrimRight(v);
    TrimKeepsFormulaStart(v);
    SameLastCharacter(v);
  }

  lemma SameLastCharacter(v: string)
    requires Trim(v) != ""
    ensures TrimRight(v) != "" && TrimRight(v)[|TrimRight(v)| - 1] == Trim(v)[|Trim(v)| - 1]
  {
    TrimLeftShape(v);
    var n := |v| - |TrimLeft(v)|;
    assert v == v[..n] + TrimLeft(v);
    TrimSplit(v[..n], TrimLeft(v));
  }

  /** An exported cell comes back trimmed exactly when the trimmed cell carries no quote mark at either
      end: the import cleanup takes one mark off each end, and the formula guard's apostrophe is the
      mark it takes off the front of a guarded cell. */
  lemma CellSurvivesIff(v: string)
    ensures Recovered(v) == Trim(v) <==> !MarkedEnds(Trim(v))
  {
    var t := Trim(v);
    TrimMeaning(v);
    if StartsFormula(v) {
      GuardedSurvivesIff(v);
    } else {
      TrimShorter(Stripped(t));
      TrimOfTight(t);
    }
  }

  lemma GuardedSurvivesIff(v: string)
    requires StartsFormula(v)
    ensures Recovered(v) == Trim(v) <==> !MarkedEnds(Trim(v))
  {
    TrimKeepsFormulaStart(v);
    if IsQuoteMark(Trim(v)[|Trim(v)| - 1]) {
      GuardedCellLosesItsLastMark(v);
    } else {
      GuardedCellSurvives(v);
    }
  }

  lemma GuardedCellSurvives(v: string)
    requires StartsFormula(v) && Trim(v) != "" && !IsQuoteMark(Trim(v)[|Trim(v)| - 1])
    ensures Recovered(v) == Trim(v)
  {
    UnguardedTrim(v);
    StrippedGuard(TrimRight(v));
  }

  lemma StrippedGuard(r: string)
    requires r != ""
    ensures Stripped(['\''] + r) == if IsQuoteMark(r[|r| - 1]) then r[..|r| - 1] else r
  {
    assert (['\''] + r)[1..] == r;
  }

  /** A trimmed right end that loses its last character trims to something shorter. */
  lemma CutTrimsShorter(v: string)
    requires Trim(v) != ""
    ensures TrimRight(v) != "" && |Trim(TrimRight(v)[..|TrimRight(v)| - 1])| < |Trim(v)|
  {
    SameLastCharacter(v);
    TrimLeftShape(v);
    var blank, t := v[..|v| - |TrimLeft(v)|], Trim(v);
    CutRightEnd(v, blank);
    if |t| == 1 {
      assert blank + t[..0] == blank;
      AllSpaceTrims(blank);
    } else {
      TrimSplit(blank, t[..|t| - 1]);
      TrimRightShape(t[..|t| - 1]);
    }
  }

  lemma CutRightEnd(v: string, blank: string)
    requires Trim(v) != "" && |TrimLeft(v)| <= |v| && blank == v[..|v| - |TrimLeft(v)|] && TrimRight(v) != ""
    ensures TrimRight(v)[..|TrimRight(v)| - 1] == blank + Trim(v)[..|Trim(v)| - 1]
    ensures !IsSpace(Trim(v)[0]) && forall k :: 0 <= k < |blank| ==> IsSpace(blank[k])
  {
    TrimLeftShape(v);
    var body := TrimLeft(v);
    TrimRightShape(body);
    TrimSplit(blank, body);
    assert v == blank + body;
    CutOfSum(blank, TrimRight(body));
  }

  lemma CutOfSum(a: string, b: string)
    requires b != ""
    ensures (a + b)[..|a + b| - 1] == a + b[..|b| - 1]
  {
  }

  lemma GuardedCellLosesItsLastMark(v: string)
    requires StartsFormula(v) && Trim(v) != "" && IsQuoteMark(Trim(v)[|Trim(v)| - 1])
    ensures Recovered(v) != Trim(v)
  {
    UnguardedTrim(v);
    CutTrimsShorter(v);
    StrippedGuard(TrimRight(v));
  }

  lemma {:induction false} PrintedCell(row: seq<string>, k: nat)
    requires 0 < |row|
    ensures CellValue(FieldsOf(CsvRow(row)), k) == if k < |row| then Recovered(row[k]) else ""
  {
    PrintedRow(row);
    assert FieldsOf(CsvRow(row)) == TrimAll(GuardAll(row));
  }

  lemma PrintedHeaderKeys(lower: string -> string, headers: seq<string>)
    requires 0 < |headers|
    ensures var keys := HeaderKeys(lower, FieldsOf(CsvRow(headers)));
            |keys| == |headers| && forall k :: 0 <= k < |headers| ==> keys[k] == ExportedKey(lower, headers[k])
  {
    PrintedRow(headers);
    assert FieldsOf(CsvRow(headers)) == TrimAll(GuardAll(headers));
  }

  lemma ImportedCell(keys: seq<string>, row: seq<string>, k: nat)
    requires |row| > 0 && k < |keys| && forall j :: k < j < |keys| ==> keys[j] != keys[k]
    ensures var cells := RowObject(keys, FieldsOf(CsvRow(row)), |keys|);
            keys[k] in cells && cells[keys[k]] == if k < |row| then Recovered(row[k]) else ""
  {
    PrintedCell(row, k);
    RowObjectAt(keys, FieldsOf(CsvRow(row)), |keys|, k);
  }

  lemma {:induction false} OnlyHeaderKeys(headers: seq<string>, values: seq<string>, n: nat, key: string)
    requires n <= |headers|
    ensures key in RowObject(headers, values, n) ==> key in headers
  {
    if n > 0 { OnlyHeaderKeys(headers, values, n - 1, key); }
  }

  /** The object an exported row becomes: no other keys than the headers', each with its recovered cell. */
  ghost predicate ImportedAs(cells: Row, lower: string -> string, headers: seq<string>, row: seq<string>) {
    && (forall key :: key in cells ==> exists k :: 0 <= k < |headers| && key == ExportedKey(lower, headers[k]))
    && (forall k :: 0 <= k < |headers| ==>
          && ExportedKey(lower, headers[k]) in cells
          && cells[ExportedKey(lower, headers[k])] == if k < |row| then Recovered(row[k]) else "")
  }

  lemma RowImported(lower: string -> string, headers: seq<string>, keys: seq<string>, row: seq<string>)
    requires |row| > 0 && |keys| == |headers| && forall k :: 0 <= k < |headers| ==> keys[k] == ExportedKey(lower, headers[k])
    requires forall j, k :: 0 <= j < k < |keys| ==> keys[j] != keys[k]
    ensures ImportedAs(RowObject(keys, FieldsOf(CsvRow(row)), |keys|), lower, headers, row)
  {
    var cells := RowObject(keys, FieldsOf(CsvRow(row)), |keys|);
    forall key | key in cells ensures exists k :: 0 <= k < |headers| && key == ExportedKey(lower, headers[k]) {
      OnlyHeaderKeys(keys, FieldsOf(CsvRow(row)), |keys|, key);
      var k :| 0 <= k < |keys| && keys[k] == key;
    }
    forall k | 0 <= k < |headers|
      ensures ExportedKey(lower, headers[k]) in cells
      ensures cells[ExportedKey(lower, headers[k])] == if k < |row| then Recovered(row[k]) else ""
    {
      ImportedCell(keys, row, k);
    }
  }

  /** The exported text, parsed, up to the contents of the cells. */
  lemma ExportParses(lower: string -> string, headers: seq<string>, rows: seq<seq<string>>)
    requires |headers| > 0 && forall i :: 0 <= i < |rows| ==> |rows[i]| > 0
    ensures Parse(lower, Decoded(ToCsv(headers, rows))) ==
            if |rows| == 0 then Err(EmptyFile)
            else Ok(RowObjects(HeaderKeys(lower, FieldsOf(CsvRow(headers))), CsvLines(headers, rows)[1..]))
  {
    PrintedText(headers, rows);
  }

  /** An exported file with at least one row is imported as one object per row, in order, with no other
      keys than the headers'; with distinct header keys every column holds its recovered cell, whatever
      commas, quotes and line breaks the cells contain. With no rows it is refused. */
  lemma ExportThenImport(lower: string -> string, headers: seq<string>, rows: seq<seq<string>>)
    requires |headers| > 0 && forall i :: 0 <= i < |rows| ==> |rows[i]| > 0
    requires forall j, k :: 0 <= j < k < |headers| ==> ExportedKey(lower, headers[j]) != ExportedKey(lower, headers[k])
    ensures var r := Parse(lower, Decoded(ToCsv(headers, rows)));
            && (r.Ok? <==> |rows| > 0)
            && (r.Ok? ==> |r.value| == |rows| && forall i :: 0 <= i < |rows| ==> ImportedAs(r.value[i], lower, headers, rows[i]))
  {
    var lines := CsvLines(headers, rows)[1..];
    ExportParses(lower, headers, rows);
    PrintedHeaderKeys(lower, headers);
    var keys := HeaderKeys(lower, FieldsOf(CsvRow(headers)));
    forall i | 0 <= i < |rows| ensures ImportedAs(RowObjects(keys, lines)[i], lower, headers, rows[i]) {
      assert lines[i] == CsvRow(rows[i]);
      RowImported(lower, headers, keys, rows[i]);
    }
  }

  /** A cell that begins with an apostrophe of its own loses it. */
  lemma ApostropheIsLost()
    ensures Trim("'a") == "'a" && Recovered("'a") == "a"
  {
    assert TrimLeft("'a") == "'a" && TrimRight("'a") == "'a";
    assert Stripped("'a") == "a";
    assert TrimLeft("a") == "a" && TrimRight("a") == "a";
  }
}
