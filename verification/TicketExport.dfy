/** The registration CSV stream: fields quoted only when they must be, rows fetched 500 at a time. */
module TicketExport {
  import opened Text
  import opened Wrappers
  import opened CsvReader
  import opened CsvExport
  import opened CsvPrinted
  import opened CsvStreaming

  const CSV_HEADERS := ["Name", "Email", "Phone", "Ticket Type", "Status", "Confirmation Code", "QR Issued", "Checked In", "Registration Date"]

  /** A registration row as fetched; `createdAt` is already in ISO form. */
  datatype ExportedRegistration = ExportedRegistration(
    attendeeName: Option<string>,
    attendeeEmail: Option<string>,
    phone: Option<string>,
    ticketTypeName: Option<string>,
    status: Option<string>,
    confirmationCode: Option<string>,
    qrIssued: bool,
    checkedInFlag: Option<bool>,
    checkIns: nat,
    createdAt: Option<string>)

  /** The stream's guard looks at the first character only. */
  function GuardedField(value: Option<string>): string {
    match value
    case None => ""
    case Some(s) => if s != "" && s[0] in FORMULA_CHARS + {'\t', '\r'} then ['\''] + s else s
  }

  predicate NeedsQuotes(s: string) {
    exists k :: 0 <= k < |s| && (s[k] == ',' || s[k] == '"' || s[k] == '\n' || s[k] == '\r')
  }

  function EscapeCsvField(value: Option<string>): string {
    var s := GuardedField(value);
    if NeedsQuotes(s) then ['"'] + Doubled(s) + ['"'] else s
  }

  function OrElse(value: Option<string>, otherwise: string): string {
    if value.None? || value.value == "" then otherwise else value.value
  }

  function YesNo(b: bool): string {
    if b then "Yes" else "No"
  }

  function CheckedIn(reg: ExportedRegistration): bool {
    if reg.checkedInFlag.Some? then reg.checkedInFlag.value else reg.checkIns > 0
  }

  function Columns(reg: ExportedRegistration): seq<Option<string>> {
    [reg.attendeeName, reg.attendeeEmail, reg.phone, Some(OrElse(reg.ticketTypeName, "General")), reg.status,
     Some(OrElse(reg.confirmationCode, "")), Some(YesNo(reg.qrIssued)), Some(YesNo(CheckedIn(reg))),
     Some(OrElse(reg.createdAt, ""))]
  }

  /** The two yes/no columns bypass the escaping, which would leave them as they are. */
  function FormatCsvRow(reg: ExportedRegistration): string {
    var c := Columns(reg);
    Join([EscapeCsvField(c[0]), EscapeCsvField(c[1]), EscapeCsvField(c[2]), EscapeCsvField(c[3]), EscapeCsvField(c[4]),
          EscapeCsvField(c[5]), c[6].value, c[7].value, EscapeCsvField(c[8])], ',')
  }

  function GuardedColumns(reg: ExportedRegistration): (g: seq<string>)
    ensures |g| == |Columns(reg)|
    ensures forall k :: 0 <= k < |g| ==> g[k] == GuardedField(Columns(reg)[k])
  {
    seq(|Columns(reg)|, k requires 0 <= k < |Columns(reg)| => GuardedField(Columns(reg)[k]))
  }

  lemma FieldReads(value: Option<string>)
    ensures ReadsAs(EscapeCsvField(value), GuardedField(value))
  {
    var s := GuardedField(value);
    if NeedsQuotes(s) {
      QuotedReads(s);
    } else {
      PlainReads(s);
    }
  }

  lemma YesNoReads(b: bool)
    ensures EscapeCsvField(Some(YesNo(b))) == YesNo(b)
  {
  }

  lemma JoinedIsNotBlank(parts: seq<string>)
    requires |parts| > 1
    ensures Trim(Join(parts, ',')) != ""
  {
    var s := Join(parts, ',');
    TrimMeaning(s);
    assert s[|parts[0]|] == ',';
  }

  /** The printed columns: the two yes/no columns are printed bare, which is what escaping them would give. */
  lemma ColumnsArePrinted(reg: ExportedRegistration)
    ensures FormatCsvRow(reg) == Join(PrintedColumns(reg), ',')
  {
    YesNoReads(reg.qrIssued);
    YesNoReads(CheckedIn(reg));
    var c := Columns(reg);
    NineParts(PrintedColumns(reg), [EscapeCsvField(c[0]), EscapeCsvField(c[1]), EscapeCsvField(c[2]), EscapeCsvField(c[3]),
                                    EscapeCsvField(c[4]), EscapeCsvField(c[5]), c[6].value, c[7].value, EscapeCsvField(c[8])]);
  }

  lemma NineParts(p: seq<string>, q: seq<string>)
    requires |p| == |q| == 9 && p[0] == q[0] && p[1] == q[1] && p[2] == q[2] && p[3] == q[3] && p[4] == q[4]
    requires p[5] == q[5] && p[6] == q[6] && p[7] == q[7] && p[8] == q[8]
    ensures p == q
  {
  }

  function PrintedColumns(reg: ExportedRegistration): (parts: seq<string>)
    ensures |parts| == |Columns(reg)|
    ensures forall k :: 0 <= k < |parts| ==> parts[k] == EscapeCsvField(Columns(reg)[k])
  {
    seq(|Columns(reg)|, k requires 0 <= k < |Columns(reg)| => EscapeCsvField(Columns(reg)[k]))
  }

  /** Every printed registration is one record, and its fields come back under the headers they belong to. */
  lemma RowReadsBack(reg: ExportedRegistration)
    ensures RowReads(FormatCsvRow(reg), GuardedColumns(reg))
    ensures Lists(CSV_HEADERS, FieldsOf(FormatCsvRow(reg)), reg)
  {
    ColumnsArePrinted(reg);
    var parts := PrintedColumns(reg);
    forall k | 0 <= k < 9 ensures ReadsAs(parts[k], GuardedColumns(reg)[k]) {
      FieldReads(Columns(reg)[k]);
    }
    JoinedIsNotBlank(parts);
    JoinedRowReads(parts, GuardedColumns(reg));
    RecordLists(CSV_HEADERS, FieldsOf(FormatCsvRow(reg)), reg);
  }

  lemma HeadersArePlain(k: nat)
    requires k < |CSV_HEADERS|
    ensures Plain(CSV_HEADERS[k])
  {
  }

  lemma HeaderReadsBack()
    ensures RowReads(Join(CSV_HEADERS, ','), CSV_HEADERS)
  {
    forall k | 0 <= k < |CSV_HEADERS| ensures ReadsAs(CSV_HEADERS[k], CSV_HEADERS[k]) {
      HeadersArePlain(k);
      PlainReads(CSV_HEADERS[k]);
    }
    JoinedIsNotBlank(CSV_HEADERS);
    JoinedRowReads(CSV_HEADERS, CSV_HEADERS);
  }

  // ----- what stands under each header

  /** A text as a spreadsheet may safely show it, without blanks around it. */
  function Shown(text: string): string {
    Trim(if text != "" && (text[0] == '=' || text[0] == '+' || text[0] == '-' || text[0] == '@' || text[0] == '\t' || text[0] == '\r')
         then "'" + text else text)
  }

  function TextOf(value: Option<string>): string {
    match value case None => "" case Some(s) => s
  }

  /** The record has `value` where the header record has `name`. */
  predicate Under(header: seq<string>, record: seq<string>, name: string, value: string) {
    exists k: nat :: k < |header| && k < |record| && header[k] == name && record[k] == value
  }

  /** A registration's record, column by column. */
  predicate Lists(header: seq<string>, record: seq<string>, reg: ExportedRegistration) {
    && |record| == |header|
    && Under(header, record, "Name", Shown(TextOf(reg.attendeeName)))
    && Under(header, record, "Email", Shown(TextOf(reg.attendeeEmail)))
    && Under(header, record, "Phone", Shown(TextOf(reg.phone)))
    && Under(header, record, "Ticket Type", if TextOf(reg.ticketTypeName) == "" then "General" else Shown(TextOf(reg.ticketTypeName)))
    && Under(header, record, "Status", Shown(TextOf(reg.status)))
    && Under(header, record, "Confirmation Code", Shown(TextOf(reg.confirmationCode)))
    && Under(header, record, "QR Issued", if reg.qrIssued then "Yes" else "No")
    && Under(header, record, "Checked In",
             if reg.checkedInFlag == Some(true) || (reg.checkedInFlag.None? && reg.checkIns > 0) then "Yes" else "No")
    && Under(header, record, "Registration Date", Shown(TextOf(reg.createdAt)))
  }

  lemma HeadersAreTight()
    ensures TrimAll(CSV_HEADERS) == CSV_HEADERS
  {
    forall k | 0 <= k < |CSV_HEADERS| ensures Trim(CSV_HEADERS[k]) == CSV_HEADERS[k] { TrimOfTight(CSV_HEADERS[k]); }
  }

  lemma FieldIsShown(value: Option<string>)
    ensures Trim(GuardedField(value)) == Shown(TextOf(value))
  {
  }

  lemma WordsAreShown()
    ensures Shown("General") == "General" && Shown("Yes") == "Yes" && Shown("No") == "No"
  {
    TrimOfTight("General");
    TrimOfTight("Yes");
    TrimOfTight("No");
  }

  /** The fields of a record, by position. */
  lemma RecordFields(record: seq<string>, reg: ExportedRegistration)
    requires record == TrimAll(GuardedColumns(reg))
    ensures |record| == 9
    ensures record[0] == Shown(TextOf(reg.attendeeName)) && record[1] == Shown(TextOf(reg.attendeeEmail))
    ensures record[2] == Shown(TextOf(reg.phone)) && record[4] == Shown(TextOf(reg.status))
    ensures record[3] == Shown(OrElse(reg.ticketTypeName, "General")) && record[5] == Shown(TextOf(reg.confirmationCode))
    ensures record[6] == Shown(YesNo(reg.qrIssued)) && record[7] == Shown(YesNo(CheckedIn(reg)))
    ensures record[8] == Shown(TextOf(reg.createdAt))
  {
    var c := Columns(reg);
    forall k | 0 <= k < 9 ensures record[k] == Shown(TextOf(c[k])) { FieldIsShown(c[k]); }
    assert TextOf(c[0]) == TextOf(reg.attendeeName) && TextOf(c[1]) == TextOf(reg.attendeeEmail);
    assert TextOf(c[5]) == TextOf(reg.confirmationCode) && TextOf(c[8]) == TextOf(reg.createdAt);
  }

  lemma UnderAt(header: seq<string>, record: seq<string>, k: nat)
    requires k < |header| && k < |record|
    ensures Under(header, record, header[k], record[k])
  {
  }

  lemma RecordLists(header: seq<string>, record: seq<string>, reg: ExportedRegistration)
    requires header == CSV_HEADERS && record == TrimAll(GuardedColumns(reg))
    ensures Lists(header, record, reg)
  {
    WordsAreShown();
    RecordFields(record, reg);
    UnderAt(header, record, 0);
    UnderAt(header, record, 1);
    UnderAt(header, record, 2);
    UnderAt(header, record, 3);
    UnderAt(header, record, 4);
    UnderAt(header, record, 5);
    UnderAt(header, record, 6);
    UnderAt(header, record, 7);
    UnderAt(header, record, 8);
  }

  // ----- the whole text

  function Terminated(lines: seq<string>): string {
    if |lines| == 0 then "" else lines[0] + ['\n'] + Terminated(lines[1..])
  }

  lemma {:induction false} TerminatedRecords(rows: seq<string>, lines: seq<string>)
    requires AllWhole(lines)
    ensures Records(rows, Terminated(lines)) == rows + lines
    decreases |lines|
  {
    if |lines| == 0 {
      assert rows + lines == rows;
    } else {
      WholeTail(lines);
      RecordRead(rows, lines[0], Terminated(lines[1..]));
      TerminatedRecords(rows + [lines[0]], lines[1..]);
      HeadMoves(rows, lines);
    }
  }

  /** The exporter's stream over `table`, after `n` reads. */
  function Exported(table: seq<ExportedRegistration>, n: nat): StreamState {
    AfterReads(Join(CSV_HEADERS, ','), FormatCsvRow, table, n)
  }

  lemma LinesStayWhole(lines: seq<string>, table: seq<ExportedRegistration>)
    requires lines == [Join(CSV_HEADERS, ',')] + RowLines(FormatCsvRow, table)
    ensures AllWhole(lines)
  {
    HeaderReadsBack();
    forall k | 0 <= k < |lines| ensures StaysWhole(lines[k]) {
      if k > 0 {
        RowReadsBack(table[k - 1]);
        assert lines[k] == FormatCsvRow(table[k - 1]);
      }
    }
  }

  /** The lines of a finished stream. */
  lemma FinishedStreamLines(table: seq<ExportedRegistration>, n: nat)
    requires n >= ReadsNeeded(table)
    ensures LinesOf(Terminated(Exported(table, n).pushed)) == [Join(CSV_HEADERS, ',')] + RowLines(FormatCsvRow, table)
  {
    StreamProgress(Join(CSV_HEADERS, ','), FormatCsvRow, table, n);
    assert Covered(table, n) == |table| && table[..|table|] == table;
    var pushed := [Join(CSV_HEADERS, ',')] + RowLines(FormatCsvRow, table);
    LinesStayWhole(pushed, table);
    TerminatedRecords([], pushed);
    assert [] + pushed == pushed;
  }

  /** A finished stream, read with the importer's two scanners, gives the header and then every
      registration of the table exactly once, in order, each of its attributes under its own header. */
  lemma FinishedStreamReadsBack(table: seq<ExportedRegistration>, n: nat)
    requires n >= ReadsNeeded(table)
    ensures var lines := LinesOf(Terminated(Exported(table, n).pushed));
            && |lines| == 1 + |table|
            && FieldsOf(lines[0]) == CSV_HEADERS
            && forall k :: 0 <= k < |table| ==> Lists(FieldsOf(lines[0]), FieldsOf(lines[1 + k]), table[k])
  {
    FinishedStreamLines(table, n);
    HeaderReadsBack();
    HeadersAreTight();
    var rows := RowLines(FormatCsvRow, table);
    forall k | 0 <= k < |table| ensures Lists(CSV_HEADERS, FieldsOf(rows[k]), table[k]) {
      RowReadsBack(table[k]);
      assert rows[k] == FormatCsvRow(table[k]);
    }
  }
}
