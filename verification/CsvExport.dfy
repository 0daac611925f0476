/** The exporter's printer: every cell quoted, quotes doubled, formula-like cells prefixed with an apostrophe. */
module CsvExport {
  import opened Text

  const FORMULA_CHARS := {'=', '+', '-', '@'}

  /** The guard's regular expression: blanks of four kinds, then a formula character. */
  predicate StartsFormula(s: string) {
    s != "" && (s[0] in FORMULA_CHARS || (s[0] in {'\t', '\r', '\n', ' '} && StartsFormula(s[1..])))
  }

  function Guarded(s: string): string {
    if StartsFormula(s) then ['\''] + s else s
  }

  /** The cell reads as a formula from position `k` on, blanks before it. */
  predicate FormulaAt(s: string, k: nat) {
    && k < |s| && (s[k] == '=' || s[k] == '+' || s[k] == '-' || s[k] == '@')
    && forall j :: 0 <= j < k ==> s[j] == '\t' || s[j] == '\r' || s[j] == '\n' || s[j] == ' '
  }

  /** A cell gets an apostrophe exactly when its first character that is no tab, line break or space is one of
      the four that start a formula. */
  lemma {:induction false} GuardedIff(s: string)
    ensures Guarded(s) == if exists k: nat :: FormulaAt(s, k) then "'" + s else s
  {
    FormulaStarts(s);
  }

  lemma {:induction false} FormulaStarts(s: string)
    ensures StartsFormula(s) <==> exists k: nat :: FormulaAt(s, k)
  {
    if s != "" && s[0] in FORMULA_CHARS {
      assert FormulaAt(s, 0);
    } else if s != "" && s[0] in {'\t', '\r', '\n', ' '} {
      FormulaStarts(s[1..]);
      if StartsFormula(s[1..]) {
        var k: nat :| FormulaAt(s[1..], k);
        assert FormulaAt(s, k + 1) by {
          forall j | 0 < j < k + 1 ensures s[j] == s[1..][j - 1] {}
        }
      }
      if k: nat :| FormulaAt(s, k) {
        assert k > 0 && s[1..][k - 1] == s[k];
        assert FormulaAt(s[1..], k - 1);
      }
    }
  }

  function Doubled(s: string): string {
    if s == "" then "" else (if s[0] == '"' then ['"', '"'] else [s[0]]) + Doubled(s[1..])
  }

  function EscapeCsv(value: string): string {
    ['"'] + Doubled(Guarded(value)) + ['"']
  }

  function Join(parts: seq<string>, separator: char): string {
    if |parts| == 0 then ""
    else if |parts| == 1 then parts[0]
    else parts[0] + [separator] + Join(parts[1..], separator)
  }

  function CsvRow(row: seq<string>): string {
    Join(seq(|row|, k requires 0 <= k < |row| => EscapeCsv(row[k])), ',')
  }

  /** The header row and the data rows, printed. */
  function CsvLines(headers: seq<string>, rows: seq<seq<string>>): (lines: seq<string>)
    ensures |lines| == 1 + |rows| && lines[0] == CsvRow(headers)
    ensures forall k :: 0 <= k < |rows| ==> lines[1 + k] == CsvRow(rows[k])
  {
    [CsvRow(headers)] + seq(|rows|, k requires 0 <= k < |rows| => CsvRow(rows[k]))
  }

  function ToCsv(headers: seq<string>, rows: seq<seq<string>>): string {
    Join(CsvLines(headers, rows), '\n')
  }
}

/** Reading printed CSV text with the importer's scanners. */
module CsvPrinted {
  import opened Text
  import opened CsvReader
  import opened CsvExport

  lemma {:induction false} FieldRunConcat(st: FieldState, a: string, b: string)
    ensures FieldRun(st, a + b) == FieldRun(FieldRun(st, a), b)
    decreases |a|
  {
    if a == "" {
      assert a + b == b;
    } else {
      assert (a + b)[1..] == a[1..] + b;
      FieldRunConcat(FieldStep(st, a[0]), a[1..], b);
    }
  }

  lemma {:induction false} LineRunConcat(st: LineState, a: string, b: string)
    ensures LineRun(st, a + b) == LineRun(LineRun(st, a), b)
    decreases |a|
  {
    if a == "" {
      assert a + b == b;
    } else {
      assert (a + b)[1..] == a[1..] + b;
      LineRunConcat(LineStep(st, a[0]), a[1..], b);
    }
  }

  /** `text`, met outside quotes, is read as one piece of a field whose content is `content`, and no
      record ends within it. */
  ghost predicate ReadsAs(text: string, content: string) {
    && (forall done: seq<string> {:trigger FieldState(done, "", Outside)} ::
          var st := FieldRun(FieldState(done, "", Outside), text);
          st.done == done && st.current == content && st.mode != Inside)
    && (forall rows: seq<string>, current: string {:trigger LineState(rows, current, Outside)} ::
          var st := LineRun(LineState(rows, current, Outside), text);
          st.rows == rows && st.current == current + text && st.mode != Inside)
  }

  lemma FieldRunAround(st: FieldState, a: string, c: char, b: string)
    ensures FieldRun(st, a + [c] + b) == FieldRun(FieldStep(FieldRun(st, a), c), b)
  {
    FieldRunConcat(st, a + [c], b);
    FieldRunSnoc(st, a, c);
  }

  lemma LineRunAround(st: LineState, a: string, c: char, b: string)
    ensures LineRun(st, a + [c] + b) == LineRun(LineStep(LineRun(st, a), c), b)
  {
    LineRunConcat(st, a + [c], b);
    LineRunConcat(st, a, [c]);
    assert LineRun(LineRun(st, a), [c]) == LineStep(LineRun(st, a), c);
  }

  lemma AppendAssociates(a: string, b: string, c: string)
    ensures a + b + c == a + (b + c)
  {
  }

  lemma {:induction false} InsideDoubledField(done: seq<string>, current: string, s: string)
    ensures FieldRun(FieldState(done, current, Inside), Doubled(s)) == FieldState(done, current + s, Inside)
    decreases |s|
  {
    var st := FieldState(done, current, Inside);
    if s == "" {
      assert current + s == current;
    } else {
      var rest := Doubled(s[1..]);
      AppendAssociates(current, [s[0]], s[1..]);
      assert [s[0]] + s[1..] == s;
      if s[0] == QUOTE {
        assert Doubled(s) == [QUOTE] + [QUOTE] + rest;
        FieldRunAround(st, [QUOTE], QUOTE, rest);
        assert FieldRun(st, [QUOTE]) == FieldStep(st, QUOTE);
      } else {
        assert Doubled(s) == "" + [s[0]] + rest;
        FieldRunAround(st, "", s[0], rest);
      }
      InsideDoubledField(done, current + [s[0]], s[1..]);
    }
  }

  lemma {:induction false} InsideDoubledLine(rows: seq<string>, raw: string, s: string)
    ensures LineRun(LineState(rows, raw, Inside), Doubled(s)) == LineState(rows, raw + Doubled(s), Inside)
    decreases |s|
  {
    var st := LineState(rows, raw, Inside);
    if s == "" {
      assert raw + Doubled(s) == raw;
    } else {
      var rest := Doubled(s[1..]);
      if s[0] == QUOTE {
        assert Doubled(s) == [QUOTE] + [QUOTE] + rest;
        LineRunAround(st, [QUOTE], QUOTE, rest);
        assert LineRun(st, [QUOTE]) == LineStep(st, QUOTE);
        InsideDoubledLine(rows, raw + [QUOTE] + [QUOTE], s[1..]);
        AppendAssociates(raw, [QUOTE], [QUOTE]);
        AppendAssociates(raw, [QUOTE] + [QUOTE], rest);
      } else {
        assert Doubled(s) == "" + [s[0]] + rest;
        LineRunAround(st, "", s[0], rest);
        InsideDoubledLine(rows, raw + [s[0]], s[1..]);
        AppendAssociates(raw, [s[0]], rest);
        assert [s[0]] + rest == Doubled(s);
      }
    }
  }

  lemma QuotedField(done: seq<string>, s: string)
    ensures FieldRun(FieldState(done, "", Outside), [QUOTE] + (Doubled(s) + [QUOTE])) == FieldState(done, s, Closing)
  {
    FieldRunConcat(FieldState(done, "", Outside), [QUOTE], Doubled(s) + [QUOTE]);
    FieldRunConcat(FieldState(done, "", Inside), Doubled(s), [QUOTE]);
    InsideDoubledField(done, "", s);
    assert "" + s == s;
  }

  lemma QuotedLine(rows: seq<string>, current: string, s: string)
    ensures LineRun(LineState(rows, current, Outside), [QUOTE] + (Doubled(s) + [QUOTE]))
         == LineState(rows, current + [QUOTE] + Doubled(s) + [QUOTE], Closing)
  {
    LineRunConcat(LineState(rows, current, Outside), [QUOTE], Doubled(s) + [QUOTE]);
    LineRunConcat(LineState(rows, current + [QUOTE], Inside), Doubled(s), [QUOTE]);
    InsideDoubledLine(rows, current + [QUOTE], s);
  }

  /** A quoted, doubled string reads as that string, whatever it holds. */
  lemma QuotedReads(s: string)
    ensures ReadsAs([QUOTE] + Doubled(s) + [QUOTE], s)
  {
    var text := [QUOTE] + Doubled(s) + [QUOTE];
    assert text == [QUOTE] + (Doubled(s) + [QUOTE]);
    forall done: seq<string>
      ensures FieldRun(FieldState(done, "", Outside), text) == FieldState(done, s, Closing)
    {
      QuotedField(done, s);
    }
    forall rows: seq<string>, current: string
      ensures LineRun(LineState(rows, current, Outside), text) == LineState(rows, current + text, Closing)
    {
      QuotedLine(rows, current, s);
      assert current + [QUOTE] + Doubled(s) + [QUOTE] == current + text;
    }
  }

  /** A string free of separators and quotes reads as itself. */
  predicate Plain(s: string) {
    forall k :: 0 <= k < |s| ==> s[k] != ',' && s[k] != QUOTE && !IsBreak(s[k])
  }

  lemma {:induction false} PlainRun(done: seq<string>, current: string, rows: seq<string>, raw: string, s: string)
    requires Plain(s)
    ensures FieldRun(FieldState(done, current, Outside), s) == FieldState(done, current + s, Outside)
    ensures LineRun(LineState(rows, raw, Outside), s) == LineState(rows, raw + s, Outside)
    decreases |s|
  {
    if s == "" {
      assert current + s == current && raw + s == raw;
    } else {
      assert s[0] != ',' && s[0] != QUOTE && !IsBreak(s[0]);
      PlainRun(done, current + [s[0]], rows, raw + [s[0]], s[1..]);
      assert current + [s[0]] + s[1..] == current + s;
      assert raw + [s[0]] + s[1..] == raw + s;
    }
  }

  lemma PlainReads(s: string)
    requires Plain(s)
    ensures ReadsAs(s, s)
  {
    forall done: seq<string>
      ensures FieldRun(FieldState(done, "", Outside), s) == FieldState(done, s, Outside)
    {
      PlainRun(done, "", [], "", s);
      assert "" + s == s;
    }
    forall rows: seq<string>, current: string
      ensures LineRun(LineState(rows, current, Outside), s) == LineState(rows, current + s, Outside)
    {
      PlainRun([], "", rows, current, s);
    }
  }

  ghost predicate AllRead(parts: seq<string>, contents: seq<string>) {
    && |parts| == |contents|
    && forall k :: 0 <= k < |parts| ==> ReadsAs(parts[k], contents[k])
  }

  function TrimAll(s: seq<string>): (t: seq<string>)
    ensures |t| == |s|
    ensures forall k :: 0 <= k < |s| ==> t[k] == Trim(s[k])
  {
    seq(|s|, k requires 0 <= k < |s| => Trim(s[k]))
  }

  lemma TrimAllCons(done: seq<string>, contents: seq<string>)
    requires |contents| > 0
    ensures done + [Trim(contents[0])] + TrimAll(contents[1..]) == done + TrimAll(contents)
  {
  }

  /** Printed fields joined by commas come back one by one, trimmed. */
  lemma {:induction false} JoinedFields(done: seq<string>, parts: seq<string>, contents: seq<string>)
    requires |parts| > 0 && AllRead(parts, contents)
    ensures FieldsDone(FieldRun(FieldState(done, "", Outside), Join(parts, ','))) == done + TrimAll(contents)
    decreases |parts|
  {
    var start := FieldState(done, "", Outside);
    var mid := FieldRun(start, parts[0]);
    assert ReadsAs(parts[0], contents[0]);
    assert mid.done == done && mid.current == contents[0] && mid.mode != Inside;
    if |parts| == 1 {
      assert TrimAll(contents) == [Trim(contents[0])];
    } else {
      FieldRunAround(start, parts[0], ',', Join(parts[1..], ','));
      JoinedFields(done + [Trim(contents[0])], parts[1..], contents[1..]);
      TrimAllCons(done, contents);
    }
  }

  /** No record ends within a joined row. */
  lemma {:induction false} JoinedRow(rows: seq<string>, current: string, parts: seq<string>, contents: seq<string>)
    requires |parts| > 0 && AllRead(parts, contents)
    ensures var st := LineRun(LineState(rows, current, Outside), Join(parts, ','));
            st.rows == rows && st.current == current + Join(parts, ',') && st.mode != Inside
    decreases |parts|
  {
    var start := LineState(rows, current, Outside);
    var mid := LineRun(start, parts[0]);
    assert ReadsAs(parts[0], contents[0]);
    assert mid.rows == rows && mid.current == current + parts[0] && mid.mode != Inside;
    if |parts| > 1 {
      var rest := Join(parts[1..], ',');
      LineRunAround(start, parts[0], ',', rest);
      JoinedRow(rows, mid.current + [','], parts[1..], contents[1..]);
      AppendAssociates(current, parts[0], [',']);
      AppendAssociates(current, parts[0] + [','], rest);
    }
  }

  ghost function AfterRow(rows: seq<string>, row: string): LineState {
    LineRun(LineState(rows, "", Outside), row)
  }

  /** Met at the start of a record, `row` stays in that record to its end, and the record is not blank. */
  ghost predicate StaysWhole(row: string) {
    && Trim(row) != ""
    && forall rows: seq<string> {:trigger AfterRow(rows, row)} ::
         var st := AfterRow(rows, row);
         st.rows == rows && st.current == row && st.mode != Inside
  }

  /** A row the scanners read back: it stays one record and splits into `contents`, trimmed. */
  ghost predicate RowReads(row: string, contents: seq<string>) {
    FieldsOf(row) == TrimAll(contents) && StaysWhole(row)
  }

  lemma JoinedRowReads(parts: seq<string>, contents: seq<string>)
    requires |parts| > 0 && AllRead(parts, contents)
    requires Trim(Join(parts, ',')) != ""
    ensures RowReads(Join(parts, ','), contents)
  {
    var row := Join(parts, ',');
    JoinedFields([], parts, contents);
    assert [] + TrimAll(contents) == TrimAll(contents);
    forall rows: seq<string>
      ensures var st := AfterRow(rows, row);
              st.rows == rows && st.current == row && st.mode != Inside
    {
      JoinedRow(rows, "", parts, contents);
      assert "" + row == row;
    }
  }

  /** The records a text gives after those already read. */
  ghost function Records(rows: seq<string>, text: string): seq<string> {
    LinesDone(LineRun(LineState(rows, "", Outside), text))
  }

  /** One printed row, met at the start of a record and ended by a line feed. */
  lemma RecordRead(rows: seq<string>, line: string, rest: string)
    requires StaysWhole(line)
    ensures Records(rows, line + ['\n'] + rest) == Records(rows + [line], rest)
  {
    var mid := AfterRow(rows, line);
    assert mid.rows == rows && mid.current == line && mid.mode != Inside;
    assert LineStep(mid, '\n') == LineState(rows + [line], "", Outside);
    LineRunAround(LineState(rows, "", Outside), line, '\n', rest);
  }

  lemma LastRecordRead(rows: seq<string>, line: string)
    requires StaysWhole(line)
    ensures Records(rows, line) == rows + [line]
  {
    var mid := AfterRow(rows, line);
    assert mid.rows == rows && mid.current == line && mid.mode != Inside;
  }

  lemma HeadMoves(rows: seq<string>, lines: seq<string>)
    requires |lines| > 0
    ensures (rows + [lines[0]]) + lines[1..] == rows + lines
  {
  }

  ghost predicate AllWhole(lines: seq<string>) {
    forall k :: 0 <= k < |lines| ==> StaysWhole(lines[k])
  }

  lemma WholeTail(lines: seq<string>)
    requires |lines| > 0 && AllWhole(lines)
    ensures StaysWhole(lines[0]) && AllWhole(lines[1..])
  {
  }

  /** Records joined by line feeds come back as exactly those records, in order. */
  lemma {:induction false} JoinedRecords(rows: seq<string>, lines: seq<string>)
    requires |lines| > 0
    requires AllWhole(lines)
    ensures Records(rows, Join(lines, '\n')) == rows + lines
    decreases |lines|
  {
    WholeTail(lines);
    if |lines| == 1 {
      LastRecordRead(rows, lines[0]);
      assert [lines[0]] == lines;
    } else {
      var rest := Join(lines[1..], '\n');
      assert Join(lines, '\n') == lines[0] + ['\n'] + rest;
      RecordRead(rows, lines[0], rest);
      JoinedRecords(rows + [lines[0]], lines[1..]);
      HeadMoves(rows, lines);
    }
  }

  // ----- line ends and blank lines of other writers

  predicate IsLineEnd(s: string) {
    s == "\n" || s == "\r" || s == "\r\n"
  }

  predicate Blank(line: string) {
    forall k :: 0 <= k < |line| ==> IsSpace(line[k]) && !IsBreak(line[k])
  }

  /** Each line followed by its own line end. */
  function Ended(lines: seq<string>, ends: seq<string>): string
    requires |lines| == |ends|
  {
    if |lines| == 0 then "" else lines[0] + ends[0] + Ended(lines[1..], ends[1..])
  }

  ghost function NotBlank(lines: seq<string>): seq<string> {
    if |lines| == 0 then [] else (if Blank(lines[0]) then [] else [lines[0]]) + NotBlank(lines[1..])
  }

  lemma {:induction false} BlankLine(rows: seq<string>, raw: string, line: string)
    requires Blank(line)
    ensures LineRun(LineState(rows, raw, Outside), line) == LineState(rows, raw + line, Outside)
    decreases |line|
  {
    if line == "" {
      assert raw + line == raw;
    } else {
      assert IsSpace(line[0]) && !IsBreak(line[0]);
      BlankLine(rows, raw + [line[0]], line[1..]);
      assert raw + [line[0]] + line[1..] == raw + line;
    }
  }

  lemma BlankDropped(rows: seq<string>, line: string, c: char, rest: string)
    requires Blank(line) && IsBreak(c)
    ensures Records(rows, line + [c] + rest) == Records(rows, rest)
  {
    BlankLine(rows, "", line);
    assert "" + line == line;
    AllSpaceTrims(line);
    LineRunAround(LineState(rows, "", Outside), line, c, rest);
  }

  lemma RecordKept(rows: seq<string>, line: string, c: char, rest: string)
    requires StaysWhole(line) && IsBreak(c)
    ensures Records(rows, line + [c] + rest) == Records(rows + [line], rest)
  {
    var mid := AfterRow(rows, line);
    assert mid.rows == rows && mid.current == line && mid.mode != Inside;
    assert LineStep(mid, c) == LineState(rows + [line], "", Outside);
    LineRunAround(LineState(rows, "", Outside), line, c, rest);
  }

  lemma LineKept(rows: seq<string>, line: string, end: string, rest: string)
    requires IsLineEnd(end) && (Blank(line) || StaysWhole(line))
    ensures Records(rows, line + end + rest) == Records(rows + if Blank(line) then [] else [line], rest)
  {
    var after := rows + if Blank(line) then [] else [line];
    assert rows + [] == rows;
    var tail := end[1..] + rest;
    assert line + end + rest == line + [end[0]] + tail;
    if Blank(line) { BlankDropped(rows, line, end[0], tail); } else { RecordKept(rows, line, end[0], tail); }
    if |end| == 2 {
      assert tail == "" + ['\n'] + rest;
      BlankDropped(after, "", '\n', rest);
    } else {
      assert tail == rest;
    }
  }

  lemma RowsAssociate(a: seq<string>, b: seq<string>, c: seq<string>)
    ensures (a + b) + c == a + (b + c)
  {
  }

  ghost predicate WellEnded(lines: seq<string>, ends: seq<string>) {
    && |lines| == |ends|
    && forall k :: 0 <= k < |lines| ==> IsLineEnd(ends[k]) && (Blank(lines[k]) || StaysWhole(lines[k]))
  }

  lemma WellEndedTail(lines: seq<string>, ends: seq<string>)
    requires |lines| > 0 && WellEnded(lines, ends)
    ensures IsLineEnd(ends[0]) && (Blank(lines[0]) || StaysWhole(lines[0])) && WellEnded(lines[1..], ends[1..])
  {
  }

  /** Lines ended by line feeds, carriage returns or both, in any mixture, come back in order without the blank
      ones. */
  lemma {:induction false} EndedRecords(rows: seq<string>, lines: seq<string>, ends: seq<string>)
    requires WellEnded(lines, ends)
    ensures Records(rows, Ended(lines, ends)) == rows + NotBlank(lines)
    decreases |lines|
  {
    if |lines| == 0 {
      assert rows + [] == rows;
    } else {
      WellEndedTail(lines, ends);
      var kept, more := if Blank(lines[0]) then [] else [lines[0]], NotBlank(lines[1..]);
      LineKept(rows, lines[0], ends[0], Ended(lines[1..], ends[1..]));
      EndedRecords(rows + kept, lines[1..], ends[1..]);
      RowsAssociate(rows, kept, more);
    }
  }

  // ----- what the exporter prints

  lemma {:induction false} JoinEnds(parts: seq<string>, separator: char)
    requires |parts| > 0
    requires forall k :: 0 <= k < |parts| ==> |parts[k]| > 0 && parts[k][0] == QUOTE && parts[k][|parts[k]| - 1] == QUOTE
    ensures var s := Join(parts, separator); s != "" && s[0] == QUOTE && s[|s| - 1] == QUOTE
    decreases |parts|
  {
    if |parts| > 1 {
      JoinEnds(parts[1..], separator);
    }
  }

  function GuardAll(row: seq<string>): (g: seq<string>)
    ensures |g| == |row|
    ensures forall k :: 0 <= k < |row| ==> g[k] == Guarded(row[k])
  {
    seq(|row|, k requires 0 <= k < |row| => Guarded(row[k]))
  }

  lemma PrintedRow(row: seq<string>)
    requires |row| > 0
    ensures RowReads(CsvRow(row), GuardAll(row))
    ensures var s := CsvRow(row); s != "" && s[0] == QUOTE && s[|s| - 1] == QUOTE
  {
    var parts := seq(|row|, k requires 0 <= k < |row| => EscapeCsv(row[k]));
    forall k | 0 <= k < |parts| ensures ReadsAs(parts[k], GuardAll(row)[k]) {
      QuotedReads(Guarded(row[k]));
    }
    JoinEnds(parts, ',');
    TrimOfTight(CsvRow(row));
    JoinedRowReads(parts, GuardAll(row));
  }

  /** Every printed line is one record between quotes. */
  lemma PrintedLines(headers: seq<string>, rows: seq<seq<string>>, k: nat)
    requires |headers| > 0 && k <= |rows| && forall i :: 0 <= i < |rows| ==> |rows[i]| > 0
    ensures var line := CsvLines(headers, rows)[k];
            StaysWhole(line) && |line| > 0 && line[0] == QUOTE && line[|line| - 1] == QUOTE
  {
    var row := if k == 0 then headers else rows[k - 1];
    PrintedRow(row);
    assert CsvLines(headers, rows)[k] == CsvRow(row) by {
      if k > 0 { assert CsvLines(headers, rows)[1 + (k - 1)] == CsvRow(rows[k - 1]); }
    }
  }

  /** The printed text splits into its printed rows, header first, and needs no trimming. */
  lemma PrintedText(headers: seq<string>, rows: seq<seq<string>>)
    requires |headers| > 0 && forall k :: 0 <= k < |rows| ==> |rows[k]| > 0
    ensures var text := ToCsv(headers, rows);
            && text != "" && text[0] == QUOTE && Trim(text) == text
            && LinesOf(text) == CsvLines(headers, rows)
  {
    var lines := CsvLines(headers, rows);
    forall k | 0 <= k < |lines|
      ensures StaysWhole(lines[k])
      ensures |lines[k]| > 0 && lines[k][0] == QUOTE && lines[k][|lines[k]| - 1] == QUOTE
    {
      PrintedLines(headers, rows, k);
    }
    JoinEnds(lines, '\n');
    TrimOfTight(ToCsv(headers, rows));
    RecordsAreLines(lines);
  }

  lemma RecordsAreLines(lines: seq<string>)
    requires |lines| > 0 && AllWhole(lines)
    ensures LinesOf(Join(lines, '\n')) == lines
  {
    JoinedRecords([], lines);
    assert [] + lines == lines;
  }
}
