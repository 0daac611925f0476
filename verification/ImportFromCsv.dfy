/** From the text of a file to what the importer reads in it: columns are found by their names, whatever
    capitals and quote marks the header has. */
module ImportFromCsv {
  import opened Text
  import opened Wrappers
  import opened CsvReader
  import opened CsvExport
  import opened CsvPrinted
  import opened CsvImport
  import ImportRules

  // ----- header names

  function LowerChar(c: char): char {
    if 'A' <= c <= 'Z' then (c as int + 32) as char else c
  }

  function AsciiLower(s: string): (t: string)
    ensures |t| == |s| && forall k :: 0 <= k < |s| ==> t[k] == LowerChar(s[k])
  {
    if s == "" then "" else [LowerChar(s[0])] + AsciiLower(s[1..])
  }

  predicate IsAscii(s: string) {
    forall k :: 0 <= k < |s| ==> s[k] < '\U{0080}'
  }

  /** What is asked of toLowerCase: on ASCII text it only turns capital letters into small ones. */
  ghost predicate LowersAscii(lower: string -> string) {
    forall s: string :: IsAscii(s) ==> lower(s) == AsciiLower(s)
  }

  /** `h` is `word` with any capitals and any quote marks put in. */
  predicate SpelledAs(h: string, word: string) {
    if h == "" then word == ""
    else if IsQuoteMark(h[0]) then SpelledAs(h[1..], word)
    else word != "" && LowerChar(h[0]) == word[0] && SpelledAs(h[1..], word[1..])
  }

  lemma {:induction false} SpelledAscii(h: string, word: string)
    requires SpelledAs(h, word) && IsAscii(word)
    ensures IsAscii(h)
    decreases |h|
  {
    if h != "" {
      if IsQuoteMark(h[0]) {
        SpelledAscii(h[1..], word);
      } else {
        assert LowerChar(h[0]) == word[0] && word[0] < '\U{0080}';
        SpelledAscii(h[1..], word[1..]);
      }
      assert h == [h[0]] + h[1..];
    }
  }

  lemma {:induction false} SpelledLower(h: string, word: string)
    requires SpelledAs(h, word)
    ensures WithoutQuoteMarks(AsciiLower(h)) == word
    decreases |h|
  {
    if h != "" {
      assert AsciiLower(h)[1..] == AsciiLower(h[1..]);
      assert IsQuoteMark(LowerChar(h[0])) <==> IsQuoteMark(h[0]);
      if IsQuoteMark(h[0]) {
        SpelledLower(h[1..], word);
      } else {
        SpelledLower(h[1..], word[1..]);
        assert word == [word[0]] + word[1..];
      }
    }
  }

  /** However a header spells a word, its key is that word. */
  lemma KeyOfSpelled(lower: string -> string, h: string, word: string)
    requires LowersAscii(lower) && SpelledAs(h, word) && IsAscii(word)
    ensures HeaderKey(lower, h) == Trim(word)
  {
    SpelledAscii(h, word);
    SpelledLower(h, word);
  }

  predicate Unquoted(s: string) {
    forall k :: 0 <= k < |s| ==> !IsQuoteMark(s[k])
  }

  lemma {:induction false} UnquotedStays(s: string)
    ensures Unquoted(WithoutQuoteMarks(s))
    ensures Unquoted(s) ==> WithoutQuoteMarks(s) == s
  {
    if s != "" {
      UnquotedStays(s[1..]);
      assert s == [s[0]] + s[1..];
    }
  }

  lemma UnquotedTrim(s: string)
    requires Unquoted(s)
    ensures Unquoted(Trim(s))
  {
    TrimLeftShape(s);
    TrimRightShape(TrimLeft(s));
  }

  /** A key carries no quote mark and no blank at its ends, and a header without quote marks has its trimmed
      lower case for a key. */
  lemma KeysAreClean(lower: string -> string, h: string)
    ensures Unquoted(HeaderKey(lower, h)) && Tight(HeaderKey(lower, h))
    ensures Unquoted(lower(h)) ==> HeaderKey(lower, h) == Trim(lower(h))
  {
    UnquotedStays(lower(h));
    UnquotedTrim(WithoutQuoteMarks(lower(h)));
    TrimMeaning(WithoutQuoteMarks(lower(h)));
  }

  // ----- the text

  /** Whether a byte-order mark precedes a text makes no difference. */
  lemma ByteOrderMarkIsIgnored(lower: string -> string, text: string)
    ensures Parse(lower, Decoded(['\U{FEFF}'] + text)) == Parse(lower, Decoded(text))
  {
    assert (['\U{FEFF}'] + text)[1..] == text;
    assert Trim(WithoutByteOrderMark(text)) == Trim(text);
  }

  /** The records of a text, as parseImportFile sees them. */
  function RecordsIn(text: string): seq<string> {
    LinesOf(Trim(WithoutByteOrderMark(text)))
  }

  // ----- columns by name

  /** The header record names the columns `words`, each in its own way. */
  ghost predicate Header(record: string, words: seq<string>) {
    && |FieldsOf(record)| == |words|
    && (forall k :: 0 <= k < |words| ==> SpelledAs(FieldsOf(record)[k], words[k]) && IsAscii(words[k]) && Tight(words[k]))
    && forall j, k :: 0 <= j < k < |words| ==> words[j] != words[k]
  }

  /** What a row's record holds in column `k`. */
  function CellIn(record: string, k: nat): string {
    if k < |FieldsOf(record)| then Trim(Stripped(FieldsOf(record)[k])) else ""
  }

  /** The object has the columns named and no others, each with its cell. */
  ghost predicate HoldsColumns(row: Row, words: seq<string>, record: string) {
    && (forall key :: key in row ==> key in words)
    && forall k :: 0 <= k < |words| ==> words[k] in row && row[words[k]] == CellIn(record, k)
  }

  lemma KeysAreWords(lower: string -> string, record: string, words: seq<string>)
    requires LowersAscii(lower) && Header(record, words)
    ensures HeaderKeys(lower, FieldsOf(record)) == words
  {
    forall k | 0 <= k < |words| ensures HeaderKey(lower, FieldsOf(record)[k]) == words[k] {
      KeyOfSpelled(lower, FieldsOf(record)[k], words[k]);
      TrimOfTight(words[k]);
    }
  }

  lemma ObjectHoldsColumns(words: seq<string>, record: string)
    requires forall j, k :: 0 <= j < k < |words| ==> words[j] != words[k]
    ensures HoldsColumns(RowObject(words, FieldsOf(record), |words|), words, record)
  {
    var values := FieldsOf(record);
    forall key | key in RowObject(words, values, |words|) ensures key in words {
      OnlyHeaderKeys(words, values, |words|, key);
    }
    forall k | 0 <= k < |words|
      ensures words[k] in RowObject(words, values, |words|) && RowObject(words, values, |words|)[words[k]] == CellIn(record, k)
    {
      RowObjectAt(words, values, |words|, k);
    }
  }

  /** A file with a header and at least one more record gives one object per further record, in order, with
      exactly the columns the header names, however it spells them; any other file is refused. */
  lemma FileGivesColumns(lower: string -> string, text: string, words: seq<string>)
    requires LowersAscii(lower)
    requires RecordsIn(text) != [] ==> Header(RecordsIn(text)[0], words)
    ensures var records, r := RecordsIn(text), Parse(lower, Decoded(text));
            && (r.Ok? <==> |records| >= 2)
            && (r.Ok? ==> && |r.value| == |records| - 1
                          && forall i :: 0 <= i < |r.value| ==> HoldsColumns(r.value[i], words, records[1 + i]))
  {
    var records := RecordsIn(text);
    if |records| >= 2 {
      KeysAreWords(lower, records[0], words);
      forall i | 0 <= i < |records| - 1 ensures HoldsColumns(RowObjects(words, records[1..])[i], words, records[1 + i]) {
        assert records[1..][i] == records[1 + i];
        ObjectHoldsColumns(words, records[1 + i]);
      }
    }
  }

  lemma TrimTwice(s: string)
    ensures Trim(Trim(s)) == Trim(s)
  {
    TrimMeaning(s);
    TrimOfTight(Trim(s));
  }

  lemma ColumnIsThere(row: Row, words: seq<string>, record: string, k: nat)
    requires HoldsColumns(row, words, record) && k < |words|
    ensures ImportRules.Cell(row, words[k]) == CellIn(record, k) && Trim(CellIn(record, k)) == CellIn(record, k)
  {
    if k < |FieldsOf(record)| { TrimTwice(Stripped(FieldsOf(record)[k])); }
  }

  lemma ColumnIsMissing(row: Row, words: seq<string>, record: string, key: string)
    requires HoldsColumns(row, words, record) && key !in words
    ensures ImportRules.Cell(row, key) == ""
  {
  }

  /** The importer reads the email in the column named "email" and the name in the one named "name". */
  lemma EmailAndNameAreRead(lower: string -> string, row: Row, words: seq<string>, record: string, e: nat, n: nat)
    requires HoldsColumns(row, words, record)
    requires e < |words| && n < |words| && words[e] == "email" && words[n] == "name"
    requires "attendeeEmail" !in words && "attendeeemail" !in words && "attendeeName" !in words && "attendeename" !in words
    ensures ImportRules.EmailIn(lower, row) == lower(CellIn(record, e))
    ensures ImportRules.NameIn(row) == CellIn(record, n)
  {
    ColumnIsThere(row, words, record, e);
    ColumnIsThere(row, words, record, n);
    ColumnIsMissing(row, words, record, "attendeeEmail");
    ColumnIsMissing(row, words, record, "attendeeemail");
    ColumnIsMissing(row, words, record, "attendeeName");
    ColumnIsMissing(row, words, record, "attendeename");
  }

  /** The ticket type is read in the column named "tickettype", which is what a header TicketType becomes. */
  lemma TypeIsRead(row: Row, words: seq<string>, record: string, t: nat)
    requires HoldsColumns(row, words, record)
    requires t < |words| && words[t] == "tickettype"
    requires "ticketTypeId" !in words && "ticketType" !in words && "tickettypeid" !in words
    ensures ImportRules.TypeIn(row) == CellIn(record, t)
  {
    ColumnIsThere(row, words, record, t);
    ColumnIsMissing(row, words, record, "ticketTypeId");
    ColumnIsMissing(row, words, record, "ticketType");
    ColumnIsMissing(row, words, record, "tickettypeid");
  }

  /** A file whose header names an email and a name column, in any capitals and quote marks and at any place,
      gives rows whose emails and names are those of the records, cleaned and, the emails, lower-cased. */
  lemma FileGivesEmailsAndNames(lower: string -> string, text: string, words: seq<string>, e: nat, n: nat)
    requires LowersAscii(lower) && |RecordsIn(text)| >= 2 && Header(RecordsIn(text)[0], words)
    requires e < |words| && n < |words| && words[e] == "email" && words[n] == "name"
    requires "attendeeEmail" !in words && "attendeeemail" !in words && "attendeeName" !in words && "attendeename" !in words
    ensures var records, r := RecordsIn(text), Parse(lower, Decoded(text));
            && r.Ok? && |r.value| == |records| - 1
            && forall i :: 0 <= i < |r.value| ==>
                 && ImportRules.EmailIn(lower, r.value[i]) == lower(CellIn(records[1 + i], e))
                 && ImportRules.NameIn(r.value[i]) == CellIn(records[1 + i], n)
  {
    FileGivesColumns(lower, text, words);
    var records, rows := RecordsIn(text), Parse(lower, Decoded(text)).value;
    forall i | 0 <= i < |rows|
      ensures ImportRules.EmailIn(lower, rows[i]) == lower(CellIn(records[1 + i], e))
      ensures ImportRules.NameIn(rows[i]) == CellIn(records[1 + i], n)
    {
      EmailAndNameAreRead(lower, rows[i], words, records[1 + i], e, n);
    }
  }

  // ----- a file

  lemma PlainRow(cells: seq<string>)
    requires |cells| > 1 && forall k :: 0 <= k < |cells| ==> Plain(cells[k])
    ensures RowReads(Join(cells, ','), cells)
  {
    forall k | 0 <= k < |cells| ensures ReadsAs(cells[k], cells[k]) { PlainReads(cells[k]); }
    TrimMeaning(Join(cells, ','));
    assert Join(cells, ',')[|cells[0]|] == ',';
    JoinedRowReads(cells, cells);
  }

  /** A cell that printing and reading leave alone. */
  predicate Simple(cell: string) {
    Plain(cell) && Tight(cell) && (cell != "" ==> !IsQuoteMark(cell[0]) && !IsQuoteMark(cell[|cell| - 1]))
  }

  lemma SimpleCell(record: string, cells: seq<string>, k: nat)
    requires FieldsOf(record) == cells && k < |cells| && Simple(cells[k])
    ensures CellIn(record, k) == cells[k]
  {
    TrimOfTight(cells[k]);
  }

  lemma PairRead(a: string, b: string)
    requires Simple(a) && Simple(b)
    ensures StaysWhole(a + [','] + b) && FieldsOf(a + [','] + b) == [a, b]
  {
    PlainRow([a, b]);
    TrimOfTight(a);
    TrimOfTight(b);
    assert TrimAll([a, b]) == [a, b];
    assert Join([a, b], ',') == a + [','] + b;
  }

  lemma TwoRecords(text: string, first: string, second: string)
    requires text == first + ['\n'] + second && StaysWhole(first) && StaysWhole(second) && Tight(text)
    ensures RecordsIn(text) == [first, second]
  {
    var lines := [first, second];
    assert Join(lines, '\n') == text;
    RecordsAreLines(lines);
    TrimOfTight(text);
    assert text != "" && text[0] != '\U{FEFF}';
  }

  lemma PairHeader(record: string, h0: string, h1: string, w0: string, w1: string)
    requires FieldsOf(record) == [h0, h1] && SpelledAs(h0, w0) && SpelledAs(h1, w1)
    requires IsAscii(w0) && IsAscii(w1) && Tight(w0) && Tight(w1) && w0 != w1
    ensures Header(record, [w0, w1])
  {
  }

  lemma PairObject(row: Row, words: seq<string>, w0: string, w1: string, c0: string, c1: string)
    requires words == [w0, w1] && w0 != w1
    requires w0 in row && row[w0] == c0 && w1 in row && row[w1] == c1 && forall key :: key in row ==> key in words
    ensures row == map[w0 := c0, w1 := c1]
  {
    assert forall key :: key in words ==> key == w0 || key == w1;
  }

  lemma TwoRecordsGive(lower: string -> string, text: string, words: seq<string>, first: string, second: string, c0: string, c1: string)
    requires LowersAscii(lower) && RecordsIn(text) == [first, second] && Header(first, words) && |words| == 2
    requires CellIn(second, 0) == c0 && CellIn(second, 1) == c1
    ensures Parse(lower, Decoded(text)) == Ok([map[words[0] := c0, words[1] := c1]])
  {
    FileGivesColumns(lower, text, words);
    var rows := Parse(lower, Decoded(text)).value;
    assert HoldsColumns(rows[0], words, second);
    PairObject(rows[0], words, words[0], words[1], c0, c1);
    assert rows == [rows[0]];
  }

  /** A file of two lines of two plain cells each becomes one object with the second line's cells under the
      words that the first line spells. */
  lemma TwoLineFileIsRead(lower: string -> string, text: string, h0: string, h1: string, c0: string, c1: string, w0: string, w1: string)
    requires LowersAscii(lower) && SpelledAs(h0, w0) && SpelledAs(h1, w1)
    requires IsAscii(w0) && IsAscii(w1) && Tight(w0) && Tight(w1) && w0 != w1
    requires Simple(h0) && Simple(h1) && Simple(c0) && Simple(c1) && h0 != "" && c1 != ""
    requires text == h0 + [','] + h1 + ['\n'] + (c0 + [','] + c1)
    ensures Parse(lower, Decoded(text)) == Ok([map[w0 := c0, w1 := c1]])
  {
    var first, second := h0 + [','] + h1, c0 + [','] + c1;
    PairRead(h0, h1);
    PairRead(c0, c1);
    assert text[0] == h0[0] && text[|text| - 1] == c1[|c1| - 1];
    TwoRecords(text, first, second);
    PairHeader(first, h0, h1, w0, w1);
    SimpleCell(second, [c0, c1], 0);
    SimpleCell(second, [c0, c1], 1);
    TwoRecordsGive(lower, text, [w0, w1], first, second, c0, c1);
  }

  lemma SmallHeader()
    ensures SpelledAs("Email", "email") && SpelledAs("Name", "name")
  {
  }

  lemma SmallCells()
    ensures Simple("Email") && Simple("Name") && Simple("a@b.co") && Simple("Ann")
  {
  }

  lemma SmallFileText(text: string)
    requires text == "Email,Name\na@b.co,Ann"
    ensures text == "Email" + [','] + "Name" + ['\n'] + ("a@b.co" + [','] + "Ann")
  {
  }

  /** Capitals in a header do not matter to a file. */
  lemma SmallFileIsRead(lower: string -> string, text: string)
    requires LowersAscii(lower) && text == "Email,Name\na@b.co,Ann"
    ensures Parse(lower, Decoded(text)) == Ok([map["email" := "a@b.co", "name" := "Ann"]])
  {
    SmallHeader();
    SmallCells();
    SmallFileText(text);
    TwoLineFileIsRead(lower, text, "Email", "Name", "a@b.co", "Ann", "email", "name");
  }
}
