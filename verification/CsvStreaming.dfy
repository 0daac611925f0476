/** A CSV stream that fetches its rows a batch at a time. `format` prints a row, `header` is the first line. */
module CsvStreaming {

  const BATCH_SIZE := 500

  datatype StreamState = StreamState(skip: nat, hasMore: bool, headerWritten: bool, reading: bool, ended: bool, pushed: seq<string>)

  const OPENED := StreamState(0, true, false, false, false, [])

  /** The page the query returns: the rows after `skip` in creation order, at most a batch of them. */
  function Page<R>(table: seq<R>, skip: nat): (page: seq<R>)
    ensures |page| <= BATCH_SIZE
  {
    if skip >= |table| then []
    else if |table| - skip <= BATCH_SIZE then table[skip..]
    else table[skip..skip + BATCH_SIZE]
  }

  function RowLines<R>(format: R -> string, rows: seq<R>): (lines: seq<string>)
    ensures |lines| == |rows|
    ensures forall k :: 0 <= k < |rows| ==> lines[k] == format(rows[k])
  {
    if |rows| == 0 then [] else RowLines(format, rows[..|rows| - 1]) + [format(rows[|rows| - 1])]
  }

  function ReadStep<R>(header: string, format: R -> string, table: seq<R>, st: StreamState): StreamState {
    if st.reading then st
    else
      var pushed := if st.headerWritten then st.pushed else st.pushed + [header];
      if !st.hasMore then st.(headerWritten := true, reading := true, ended := true, pushed := pushed)
      else
        var page := Page(table, st.skip);
        if |page| == 0 then st.(headerWritten := true, ended := true, pushed := pushed)
        else st.(headerWritten := true, skip := st.skip + |page|, hasMore := |page| == BATCH_SIZE,
                 pushed := pushed + RowLines(format, page))
  }

  /** The variables the stream's read() closes over; `table` stands for the unchanging query result. */
  class CsvStream<R> {
    const header: string
    const format: R -> string
    const table: seq<R>
    var skip: nat
    var hasMore: bool
    var headerWritten: bool
    var reading: bool
    var ended: bool
    var pushed: seq<string>

    ghost function State(): StreamState
      reads this
    {
      StreamState(skip, hasMore, headerWritten, reading, ended, pushed)
    }

    constructor (header: string, format: R -> string, table: seq<R>)
      ensures State() == OPENED && this.header == header && this.format == format && this.table == table
    {
      this.header, this.format, this.table := header, format, table;
      skip, hasMore, headerWritten, reading, ended, pushed := 0, true, false, false, false, [];
    }

    method Read()
      modifies this
      ensures State() == ReadStep(header, format, table, old(State()))
    {
      if reading {
        return;
      }
      reading := true;
      if !headerWritten {
        pushed := pushed + [header];
        headerWritten := true;
      }
      if !hasMore {
        ended := true;
        return;
      }
      var registrations := Page(table, skip);
      if |registrations| == 0 {
        reading := false;
        ended := true;
        return;
      }
      skip := skip + |registrations|;
      if |registrations| < BATCH_SIZE {
        hasMore := false;
      }
      PushAll(registrations);
      reading := false;
    }

    method PushAll(registrations: seq<R>)
      modifies this`pushed
      ensures pushed == old(pushed) + RowLines(format, registrations)
    {
      for k := 0 to |registrations|
        invariant pushed == old(pushed) + RowLines(format, registrations[..k])
      {
        assert registrations[..k + 1][..k] == registrations[..k];
        pushed := pushed + [format(registrations[k])];
      }
      assert registrations[..|registrations|] == registrations;
    }
  }

  /** The consumer reads until the stream has ended. */
  function AfterReads<R>(header: string, format: R -> string, table: seq<R>, n: nat): StreamState {
    if n == 0 then OPENED
    else
      var st := AfterReads(header, format, table, n - 1);
      if st.ended then st else ReadStep(header, format, table, st)
  }

  function ReadsNeeded<R>(table: seq<R>): nat {
    |table| / 500 + if |table| % 500 == 0 then 1 else 2
  }

  /** How many rows `n` reads cover. */
  function Covered<R>(table: seq<R>, n: nat): nat {
    if n * 500 <= |table| then n * 500 else |table|
  }

  lemma RowLinesSplit<R>(format: R -> string, a: seq<R>, b: seq<R>)
    ensures RowLines(format, a + b) == RowLines(format, a) + RowLines(format, b)
  {
  }

  /** The counters after `n` reads: they are past the rows covered, and the stream has ended when it should. */
  predicate CountersAt<R>(table: seq<R>, st: StreamState, n: nat) {
    && (st.ended <==> n >= ReadsNeeded(table))
    && (!st.ended ==> st.skip == Covered(table, n) && !st.reading && st.headerWritten == (n > 0))
    && (!st.ended ==> st.hasMore == (n * BATCH_SIZE <= |table|))
  }

  lemma StepCounters<R>(header: string, format: R -> string, table: seq<R>, st: StreamState, n: nat)
    requires CountersAt(table, st, n) && !st.ended
    ensures CountersAt(table, ReadStep(header, format, table, st), n + 1)
  {
  }

  lemma PageExtends<R>(format: R -> string, table: seq<R>, n: nat)
    requires n * BATCH_SIZE <= |table|
    ensures RowLines(format, table[..Covered(table, n)]) + RowLines(format, Page(table, Covered(table, n))) ==
            RowLines(format, table[..Covered(table, n + 1)])
  {
    var skip := Covered(table, n);
    assert table[..skip] + Page(table, skip) == table[..Covered(table, n + 1)];
    RowLinesSplit(format, table[..skip], Page(table, skip));
  }

  /** A read that has more to fetch pushes the next page, after the header if it is the first. */
  lemma PageIsPushed<R>(header: string, format: R -> string, table: seq<R>, st: StreamState, body: seq<string>)
    requires st.hasMore && !st.reading
    requires if st.headerWritten then st.pushed == [header] + body else st.pushed == [] && body == []
    ensures ReadStep(header, format, table, st).pushed == [header] + (body + RowLines(format, Page(table, st.skip)))
  {
    var lines := RowLines(format, Page(table, st.skip));
    assert [header] + (body + lines) == ([header] + body) + lines;
    if |Page(table, st.skip)| == 0 { assert lines == []; }
  }

  /** What has gone out after `n` reads. */
  predicate PushedAt<R>(header: string, format: R -> string, table: seq<R>, st: StreamState, n: nat) {
    st.pushed == if n == 0 then [] else [header] + RowLines(format, table[..Covered(table, n)])
  }

  lemma StepPushes<R>(header: string, format: R -> string, table: seq<R>, st: StreamState, n: nat)
    requires CountersAt(table, st, n) && !st.ended && PushedAt(header, format, table, st, n)
    ensures PushedAt(header, format, table, ReadStep(header, format, table, st), n + 1)
  {
    if st.hasMore {
      var covered := table[..Covered(table, n)];
      assert n == 0 ==> covered == [];
      PageIsPushed(header, format, table, st, RowLines(format, covered));
      PageExtends(format, table, n);
    } else {
      assert Covered(table, n + 1) == Covered(table, n);
    }
  }

  /** Once ended, the stream covers nothing more. */
  lemma EndedStays<R>(header: string, format: R -> string, table: seq<R>, st: StreamState, n: nat)
    requires CountersAt(table, st, n) && st.ended && PushedAt(header, format, table, st, n)
    ensures CountersAt(table, st, n + 1) && PushedAt(header, format, table, st, n + 1)
  {
    assert n > 0 && Covered(table, n + 1) == Covered(table, n);
  }

  lemma {:induction false} StreamAt<R>(header: string, format: R -> string, table: seq<R>, n: nat)
    ensures CountersAt(table, AfterReads(header, format, table, n), n) && PushedAt(header, format, table, AfterReads(header, format, table, n), n)
  {
    if n > 0 {
      StreamAt(header, format, table, n - 1);
      var st := AfterReads(header, format, table, n - 1);
      if st.ended {
        EndedStays(header, format, table, st, n - 1);
      } else {
        StepCounters(header, format, table, st, n - 1);
        StepPushes(header, format, table, st, n - 1);
      }
    }
  }

  /** After any number of reads the header and a prefix of the table, a batch per read, have gone out
      once and in order; the stream ends with the read that finds no more rows and not before. */
  lemma StreamProgress<R>(header: string, format: R -> string, table: seq<R>, n: nat)
    ensures AfterReads(header, format, table, n).ended <==> n >= ReadsNeeded(table)
    ensures AfterReads(header, format, table, n).pushed ==
            if n == 0 then [] else [header] + RowLines(format, table[..Covered(table, n)])
  {
    StreamAt(header, format, table, n);
  }
}
