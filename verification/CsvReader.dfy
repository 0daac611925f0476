/**
 The importer's two-stage CSV reader: text is first split into records, each record then into fields.
 Both stages are loops over an index with one character of look-ahead; here each is proved against a
 character-by-character machine, and the pair against a reader that passes over the text once.
 */
module CsvReader {
  import opened Text

  const QUOTE := '"'

  /** Where a scanner stands relative to double quotes. `Closing` has just seen a quote that ends a
      quoted stretch unless the next character is a quote too. */
  datatype Mode = Outside | Inside | Closing

  function NextMode(m: Mode, c: char): Mode {
    if c == QUOTE then (if m == Inside then Closing else Inside)
    else if m == Inside then Inside else Outside
  }

  // ----- fields of one record

  datatype FieldState = FieldState(done: seq<string>, current: string, mode: Mode)

  const NO_FIELDS := FieldState([], "", Outside)

  function FieldStep(st: FieldState, c: char): FieldState {
    var mode := NextMode(st.mode, c);
    if c == QUOTE then
      FieldState(st.done, if st.mode == Closing then st.current + [QUOTE] else st.current, mode)
    else if c == ',' && st.mode != Inside then
      FieldState(st.done + [Trim(st.current)], "", mode)
    else
      FieldState(st.done, st.current + [c], mode)
  }

  function FieldRun(st: FieldState, s: string): FieldState
    decreases |s|
  {
    if s == "" then st else FieldRun(FieldStep(st, s[0]), s[1..])
  }

  function FieldsDone(st: FieldState): seq<string> {
    st.done + [Trim(st.current)]
  }

  function FieldsOf(line: string): seq<string> {
    FieldsDone(FieldRun(NO_FIELDS, line))
  }

  // ----- records of a text

  datatype LineState = LineState(rows: seq<string>, current: string, mode: Mode)

  const NO_LINES := LineState([], "", Outside)

  predicate IsBreak(c: char) {
    c == '\r' || c == '\n'
  }

  function KeepRow(rows: seq<string>, current: string): seq<string> {
    if Trim(current) == "" then rows else rows + [current]
  }

  function LineStep(st: LineState, c: char): LineState {
    var mode := NextMode(st.mode, c);
    if IsBreak(c) && st.mode != Inside then
      LineState(KeepRow(st.rows, st.current), "", mode)
    else
      LineState(st.rows, st.current + [c], mode)
  }

  function LineRun(st: LineState, s: string): LineState
    decreases |s|
  {
    if s == "" then st else LineRun(LineStep(st, s[0]), s[1..])
  }

  function LinesDone(st: LineState): seq<string> {
    KeepRow(st.rows, st.current)
  }

  function LinesOf(text: string): seq<string> {
    LinesDone(LineRun(NO_LINES, text))
  }

  // ----- the loops

  /** The look-ahead loop is in `Inside` exactly when its flag is set; it never rests in front of a quote
      that would reopen a stretch it has just closed. */
  ghost predicate FlagStands(mode: Mode, inQuotes: bool, rest: string) {
    && (inQuotes <==> mode == Inside)
    && (mode == Closing ==> rest == "" || rest[0] != QUOTE)
  }

  method SplitCsvLine(line: string) returns (result: seq<string>)
    ensures result == FieldsOf(line)
  {
    result := [];
    var current := "";
    var inQuotes := false;
    ghost var mode := Outside;
    var i := 0;
    while i < |line|
      invariant 0 <= i <= |line|
      invariant FlagStands(mode, inQuotes, line[i..])
      invariant FieldRun(NO_FIELDS, line) == FieldRun(FieldState(result, current, mode), line[i..])
    {
      var c := line[i];
      if c == QUOTE {
        if inQuotes && i + 1 < |line| && line[i + 1] == QUOTE {
          assert line[i..][1..] == line[i + 1..];
          assert line[i + 1..][1..] == line[i + 2..];
          current := current + [QUOTE];
          i := i + 1;
        } else {
          assert line[i..][1..] == line[i + 1..];
          mode := NextMode(mode, c);
          inQuotes := !inQuotes;
        }
      } else if c == ',' && !inQuotes {
        assert line[i..][1..] == line[i + 1..];
        result := result + [Trim(current)];
        current := "";
        mode := NextMode(mode, c);
      } else {
        assert line[i..][1..] == line[i + 1..];
        current := current + [c];
        mode := NextMode(mode, c);
      }
      i := i + 1;
    }
    result := result + [Trim(current)];
  }

  method SplitCsvLines(text: string) returns (rows: seq<string>)
    ensures rows == LinesOf(text)
  {
    rows := [];
    var current := "";
    var inQuotes := false;
    ghost var mode := Outside;
    var i := 0;
    while i < |text|
      invariant 0 <= i <= |text|
      invariant FlagStands(mode, inQuotes, text[i..])
      invariant LineRun(NO_LINES, text) == LineRun(LineState(rows, current, mode), text[i..])
    {
      var c := text[i];
      assert text[i..][1..] == text[i + 1..];
      if c == QUOTE {
        if inQuotes && i + 1 < |text| && text[i + 1] == QUOTE {
          assert text[i + 1..][1..] == text[i + 2..];
          assert current + [QUOTE] + [QUOTE] == current + [QUOTE, QUOTE];
          current := current + [QUOTE, QUOTE];
          i := i + 1;
        } else {
          inQuotes := !inQuotes;
          current := current + [QUOTE];
          mode := NextMode(mode, c);
        }
      } else if (c == '\r' || c == '\n') && !inQuotes {
        if Trim(current) != "" {
          rows := rows + [current];
        }
        current := "";
        mode := NextMode(mode, c);
        if c == '\r' && i + 1 < |text| && text[i + 1] == '\n' {
          // the line feed of a CRLF would only close an empty record
          assert text[i + 1..][1..] == text[i + 2..];
          i := i + 1;
        }
      } else {
        current := current + [c];
        mode := NextMode(mode, c);
      }
      i := i + 1;
    }
    if Trim(current) != "" {
      rows := rows + [current];
    }
  }

  // ----- the two quote flags

  function QuoteCount(s: string): nat {
    if s == "" then 0 else (if s[0] == QUOTE then 1 else 0) + QuoteCount(s[1..])
  }

  /** At every prefix of any text both scanners are inside quotes exactly when the number of double
      quotes read so far is odd, so their flags agree everywhere. */
  lemma QuoteFlagsAreParity(text: string)
    ensures FieldRun(NO_FIELDS, text).mode == LineRun(NO_LINES, text).mode
    ensures FieldRun(NO_FIELDS, text).mode == Inside <==> QuoteCount(text) % 2 == 1
  {
    QuoteFlagsFrom(NO_FIELDS, NO_LINES, text);
  }

  lemma {:induction false} QuoteFlagsFrom(f: FieldState, l: LineState, s: string)
    requires f.mode == l.mode
    ensures FieldRun(f, s).mode == LineRun(l, s).mode
    ensures FieldRun(f, s).mode == Inside <==> (QuoteCount(s) % 2 == 1) != (f.mode == Inside)
    decreases |s|
  {
    if s != "" {
      QuoteFlagsFrom(FieldStep(f, s[0]), LineStep(l, s[0]), s[1..]);
    }
  }

  // ----- one pass

  /** The reference reader: fields end at unquoted commas, records at unquoted CR, LF or CRLF, and a
      record whose raw text is blank is dropped. `raw` is the text of the open record. */
  datatype Reader = Reader(records: seq<seq<string>>, fields: seq<string>, current: string, raw: string, inside: bool)

  const NOTHING_READ := Reader([], [], "", "", false)

  function EndRecord(r: Reader): seq<seq<string>> {
    if Trim(r.raw) == "" then r.records else r.records + [r.fields + [Trim(r.current)]]
  }

  function ReadOnePass(r: Reader, s: string): seq<seq<string>>
    decreases |s|
  {
    if s == "" then EndRecord(r)
    else
      var c := s[0];
      if r.inside then
        if c == QUOTE && |s| > 1 && s[1] == QUOTE then
          ReadOnePass(r.(current := r.current + [QUOTE], raw := r.raw + [QUOTE, QUOTE]), s[2..])
        else if c == QUOTE then
          ReadOnePass(r.(raw := r.raw + [QUOTE], inside := false), s[1..])
        else
          ReadOnePass(r.(current := r.current + [c], raw := r.raw + [c]), s[1..])
      else if c == QUOTE then
        ReadOnePass(r.(raw := r.raw + [QUOTE], inside := true), s[1..])
      else if c == ',' then
        ReadOnePass(Reader(r.records, r.fields + [Trim(r.current)], "", r.raw + [','], false), s[1..])
      else if c == '\r' && |s| > 1 && s[1] == '\n' then
        ReadOnePass(Reader(EndRecord(r), [], "", "", false), s[2..])
      else if IsBreak(c) then
        ReadOnePass(Reader(EndRecord(r), [], "", "", false), s[1..])
      else
        ReadOnePass(r.(current := r.current + [c], raw := r.raw + [c]), s[1..])
  }

  function FieldsOfAll(lines: seq<string>): (all: seq<seq<string>>)
    ensures |all| == |lines|
    ensures forall k :: 0 <= k < |lines| ==> all[k] == FieldsOf(lines[k])
  {
    seq(|lines|, k requires 0 <= k < |lines| => FieldsOf(lines[k]))
  }

  /** The one-pass reader and the two-stage one stand at the same place of the same text. */
  ghost predicate InStep(r: Reader, l: LineState, rest: string) {
    && r.records == FieldsOfAll(l.rows)
    && r.raw == l.current
    && FieldRun(NO_FIELDS, l.current) == FieldState(r.fields, r.current, l.mode)
    && FlagStands(l.mode, r.inside, rest)
  }

  lemma {:induction false} FieldRunSnoc(st: FieldState, s: string, c: char)
    ensures FieldRun(st, s + [c]) == FieldStep(FieldRun(st, s), c)
    decreases |s|
  {
    if s == "" {
      assert s + [c] == [c];
    } else {
      assert (s + [c])[1..] == s[1..] + [c];
      FieldRunSnoc(FieldStep(st, s[0]), s[1..], c);
    }
  }

  lemma EndRecordInStep(r: Reader, l: LineState, rest: string)
    requires InStep(r, l, rest)
    ensures EndRecord(r) == FieldsOfAll(LinesDone(l))
  {
  }

  /** One character that is not the first of an escaped pair. */
  lemma StepInStep(r: Reader, l: LineState, c: char)
    requires r.raw == l.current && FieldRun(NO_FIELDS, l.current) == FieldState(r.fields, r.current, l.mode)
    requires !(IsBreak(c) && l.mode != Inside)
    ensures var st := FieldStep(FieldState(r.fields, r.current, l.mode), c);
            FieldRun(NO_FIELDS, LineStep(l, c).current) == st && st.mode == LineStep(l, c).mode
  {
    FieldRunSnoc(NO_FIELDS, l.current, c);
  }

  lemma {:induction false} OnePassFrom(r: Reader, l: LineState, s: string)
    requires InStep(r, l, s)
    ensures ReadOnePass(r, s) == FieldsOfAll(LinesDone(LineRun(l, s)))
    decreases |s|
  {
    EndRecordInStep(r, l, s);
    if s != "" {
      var c := s[0];
      var l1 := LineStep(l, c);
      if IsBreak(c) && !r.inside {
        var r1 := Reader(EndRecord(r), [], "", "", false);
        if c == '\r' && |s| > 1 && s[1] == '\n' {
          assert s[1..][1..] == s[2..];
          assert LineStep(l1, '\n') == l1;
          OnePassFrom(r1, l1, s[2..]);
        } else {
          OnePassFrom(r1, l1, s[1..]);
        }
      } else {
        StepInStep(r, l, c);
        if r.inside && c == QUOTE && |s| > 1 && s[1] == QUOTE {
          var mid := Reader(r.records, r.fields, r.current, l1.current, false);
          StepInStep(mid, l1, QUOTE);
          assert s[1..][1..] == s[2..];
          assert l.current + [QUOTE] + [QUOTE] == l.current + [QUOTE, QUOTE];
          OnePassFrom(r.(current := r.current + [QUOTE], raw := r.raw + [QUOTE, QUOTE]), LineStep(l1, QUOTE), s[2..]);
        } else {
          StepOnePass(r, l, s);
          OnePassFrom(Advance(r, c), l1, s[1..]);
        }
      }
    }
  }

  /** What the reference reader does with one unescaped character that does not end a record. */
  ghost function Advance(r: Reader, c: char): Reader {
    if r.inside then
      if c == QUOTE then r.(raw := r.raw + [QUOTE], inside := false)
      else r.(current := r.current + [c], raw := r.raw + [c])
    else if c == QUOTE then r.(raw := r.raw + [QUOTE], inside := true)
    else if c == ',' then Reader(r.records, r.fields + [Trim(r.current)], "", r.raw + [','], false)
    else r.(current := r.current + [c], raw := r.raw + [c])
  }

  lemma StepOnePass(r: Reader, l: LineState, s: string)
    requires InStep(r, l, s) && s != ""
    requires !(IsBreak(s[0]) && !r.inside)
    requires !(r.inside && s[0] == QUOTE && |s| > 1 && s[1] == QUOTE)
    ensures ReadOnePass(r, s) == ReadOnePass(Advance(r, s[0]), s[1..])
    ensures InStep(Advance(r, s[0]), LineStep(l, s[0]), s[1..])
  {
    StepInStep(r, l, s[0]);
  }

  /** Splitting into records and each record into fields reads exactly what one pass over the text reads. */
  lemma TwoStagesAreOnePass(text: string)
    ensures FieldsOfAll(LinesOf(text)) == ReadOnePass(NOTHING_READ, text)
  {
    OnePassFrom(NOTHING_READ, NO_LINES, text);
  }
}
