/** processImportFile itself: plan, commit batch by batch, report. */
module ImportService {
  import opened Wrappers
  import opened Allocation
  import opened ImportPlan
  import opened ImportPlanner
  import opened ImportCommit

  datatype JobStatus = Processing | Completed | FailedImport

  class ImportJob {
    var db: Db
    var successRows: nat
    var failedRows: nat
    var allErrors: seq<RowError>
    var status: JobStatus

    constructor (db: Db)
      ensures this.db == db && successRows == 0 && failedRows == 0 && allErrors == [] && status == Processing
    {
      this.db, successRows, failedRows, allErrors, status := db, 0, 0, [], Processing;
    }

    /** Up to three codes, going on only after a collision. */
    method InsertTicketCode(event: EventId, draws: seq<CodeDraw>) returns (code: Option<nat>)
      modifies this`db
      ensures code == TakeCode(old(db.codes), event, draws, 0)
      ensures db == if code.Some? then old(db).(codes := old(db.codes) + {(event, code.value)}) else old(db)
    {
      code := None;
      var attempt := 0;
      while attempt < MAX_TICKET_CODE_ATTEMPTS
        invariant 0 <= attempt <= MAX_TICKET_CODE_ATTEMPTS && db == old(db)
        invariant TakeCode(db.codes, event, draws, 0) == TakeCode(db.codes, event, draws, attempt)
      {
        if attempt >= |draws| || draws[attempt].DrawFails? { return None; }
        if (event, draws[attempt].code) !in db.codes {
          code := Some(draws[attempt].code);
          db := db.(codes := db.codes + {(event, draws[attempt].code)});
          return;
        }
        attempt := attempt + 1;
      }
    }

    /** What a failed row undoes; an undo that fails itself is ignored. */
    method Compensate(event: EventId, claimed: Option<TypeId>, code: Option<nat>, registered: bool, f: RowFaults)
      modifies this`db
      ensures Compensated(old(db), event, claimed, code, registered, f).db == db
    {
      if claimed.Some? && claimed.value in db.types && !f.undoClaimFails {
        db := db.(types := WithSold(db.types, claimed.value, -1));
      }
      if code.Some? && !registered && !f.undoCodeFails {
        db := db.(codes := db.codes - {(event, code.value)});
      }
    }

    /** One row of a batch; `thrown` when the failure is not the row's own to catch. */
    method CommitRow(event: EventId, entry: Entry, claimable: set<TypeId>, f: RowFaults) returns (thrown: bool, ok: bool)
      modifies this`db
      ensures match Allocation.CommitRow(old(db), event, entry, claimable, f)
              case BatchThrows => thrown && db == old(db)
              case RowDone(after, done, _) => !thrown && ok == done && db == after
    {
      thrown, ok := false, false;
      var found := false;
      if entry.ticketType.Some? && entry.ticketType.value in claimable {
        if f.readFails { return true, false; }
        found := entry.ticketType.value in db.types;
      }
      var claimed: Option<TypeId> := None;
      if found {
        var t := entry.ticketType.value;
        if f.claimFails || !HasRoom(db.types[t].capacity, db.types[t].sold) { return; }
        db := db.(types := WithSold(db.types, t, 1));
        claimed := Some(t);
      }
      var code := InsertTicketCode(event, f.draws);
      if code.None? {
        Compensate(event, claimed, None, false, f);
        return;
      }
      if f.regFails || EmailTaken(db.regs, event, entry.email) || (entry.ticketType.Some? && entry.ticketType.value !in db.types) {
        Compensate(event, claimed, code, false, f);
        return;
      }
      var id := |db.regs|;
      db := db.(regs := db.regs + [ImportedRegistration(event, entry, code.value)]);
      if f.tokenFails {
        Compensate(event, claimed, code, true, f);
        return;
      }
      db := db.(tokens := db.tokens + {id});
      ok := true;
    }

    /** A row and its entry in the report; `p` is what the batch has done before it. */
    method CommitAndReport(event: EventId, entry: Entry, claimable: set<TypeId>, f: RowFaults, ghost p: Progress, created: nat)
      returns (thrown: bool, createdAfter: nat)
      requires !p.thrown && db == p.db && created == |p.ok|
      modifies this`db, this`failedRows, this`allErrors
      ensures var q := RowStep(p, event, entry, claimable, f);
              && thrown == q.thrown && (!thrown ==> db == q.db)
              && createdAfter == |q.ok|
              && (q.failed == p.failed || q.failed == p.failed + [entry])
              && failedRows == old(failedRows) + |q.failed| - |p.failed|
              && allErrors == old(allErrors) + if q.failed == p.failed then [] else [RowError(entry.rowNumber, Some(entry.email), NotCommitted)]
    {
      createdAfter := created;
      var ok;
      thrown, ok := CommitRow(event, entry, claimable, f);
      if !thrown && ok {
        createdAfter := created + 1;
      } else if !thrown {
        failedRows := failedRows + 1;
        allErrors := allErrors + [RowError(entry.rowNumber, Some(entry.email), NotCommitted)];
      }
    }

    method CommitRows(event: EventId, batch: seq<Entry>, claimable: set<TypeId>, faults: seq<RowFaults>) returns (thrown: bool, created: nat)
      modifies this`db, this`failedRows, this`allErrors
      ensures var p := BatchProgress(old(db), event, batch, claimable, faults);
              && thrown == p.thrown && (!thrown ==> db == p.db)
              && created == |p.ok|
              && failedRows == old(failedRows) + |p.failed|
              && allErrors == old(allErrors) + ErrorsFor(p.failed)
    {
      thrown, created := false, 0;
      var i := 0;
      ghost var p := BatchProgress(db, event, [], claimable, faults);
      assert batch[..0] == [];
      while i < |batch| && !thrown
        invariant i <= |batch|
        invariant p == BatchProgress(old(db), event, batch[..i], claimable, faults)
        invariant thrown == p.thrown && (!thrown ==> db == p.db) && created == |p.ok|
        invariant failedRows == old(failedRows) + |p.failed| && allErrors == old(allErrors) + ErrorsFor(p.failed)
      {
        ProgressGrows(old(db), event, batch, claimable, faults, i);
        thrown, created := CommitAndReport(event, batch[i], claimable, FaultsAt(faults, i), p, created);
        ErrorsForAll(p.failed, [batch[i]]);
        p := RowStep(p, event, batch[i], claimable, FaultsAt(faults, i));
        i := i + 1;
      }
      ThrownForGood(old(db), event, batch, claimable, faults, i);
      assert batch[..|batch|] == batch;
    }

    /** One batch in one transaction: a rejected one is rolled back, and all its rows are reported failed. */
    method CommitBatch(event: EventId, batch: seq<Entry>, claimable: set<TypeId>, f: BatchFaults)
      modifies this`db, this`successRows, this`failedRows, this`allErrors
      ensures var b := RunBatch(old(db), event, batch, claimable, f);
              && db == b.db
              && successRows == old(successRows) + |b.ok|
              && failedRows == old(failedRows) + |b.failed|
              && allErrors == old(allErrors) + ErrorsFor(b.failed)
    {
      var before := db;
      var thrown, created := CommitRows(event, batch, claimable, f.rows);
      if !thrown && !f.rejected {
        successRows := successRows + created;
      } else {
        db := before;
        ReportBatch(batch);
        ErrorsForAll(BatchProgress(before, event, batch, claimable, f.rows).failed, batch);
      }
    }

    /** A batch on top of those already reported on, whose outcome so far is `r`. */
    method CommitNext(event: EventId, batch: seq<Entry>, claimable: set<TypeId>, f: BatchFaults, ghost r: BatchResult, ghost errors: seq<RowError>)
      returns (ghost q: BatchResult)
      requires db == r.db && allErrors == errors + ErrorsFor(r.failed)
      modifies this`db, this`successRows, this`failedRows, this`allErrors
      ensures q == After(r, RunBatch(r.db, event, batch, claimable, f))
      ensures db == q.db && allErrors == errors + ErrorsFor(q.failed)
      ensures successRows - old(successRows) == |q.ok| - |r.ok|
      ensures failedRows - old(failedRows) == |q.failed| - |r.failed|
    {
      ghost var b := RunBatch(r.db, event, batch, claimable, f);
      CommitBatch(event, batch, claimable, f);
      q := After(r, b);
      ErrorsForAll(r.failed, b.failed);
    }

    /** All batches, in order. */
    method CommitAll(event: EventId, toCreate: seq<Entry>, claimable: set<TypeId>, script: seq<BatchFaults>)
      modifies this`db, this`successRows, this`failedRows, this`allErrors
      ensures var r := ImportFirst(old(db), event, toCreate, claimable, script, BatchCount(|toCreate|));
              && db == r.db
              && successRows == old(successRows) + |r.ok|
              && failedRows == old(failedRows) + |r.failed|
              && allErrors == old(allErrors) + ErrorsFor(r.failed)
    {
      var i, k := 0, 0;
      ghost var before, errors := db, allErrors;
      ghost var r := ImportFirst(before, event, toCreate, claimable, script, 0);
      while i < |toCreate|
        invariant i == BATCH_SIZE * k && (k > 0 ==> i - BATCH_SIZE < |toCreate|)
        invariant r == ImportFirst(before, event, toCreate, claimable, script, k) && db == r.db
        invariant successRows == old(successRows) + |r.ok| && failedRows == old(failedRows) + |r.failed|
        invariant allErrors == errors + ErrorsFor(r.failed)
        decreases |toCreate| - i
      {
        var currentBatch := toCreate[i..Min(i + BATCH_SIZE, |toCreate|)];
        ImportGrows(before, event, toCreate, claimable, script, k, currentBatch);
        r := CommitNext(event, currentBatch, claimable, BatchFaultsAt(script, k), r, errors);
        i, k := i + BATCH_SIZE, k + 1;
      }
      BatchCountIs(|toCreate|, k);
    }

    method ReportBatch(batch: seq<Entry>)
      modifies this`failedRows, this`allErrors
      ensures failedRows == old(failedRows) + |batch|
      ensures allErrors == old(allErrors) + ErrorsFor(batch)
    {
      for i := 0 to |batch|
        invariant failedRows == old(failedRows) + i
        invariant allErrors == old(allErrors) + ErrorsFor(batch[..i])
      {
        assert batch[..i + 1][..i] == batch[..i];
        failedRows := failedRows + 1;
        allErrors := allErrors + [RowError(batch[i].rowNumber, Some(batch[i].email), NotCommitted)];
      }
      assert batch[..|batch|] == batch;
    }

    /** The import of a parsed file. `listing` is the order in which the database returns the active ticket
        types. The report has one entry per failed row; successes and failures add up to the rows of the file
        plus the failures recorded in batches that were rejected later. */
    method ProcessImportFile(event: EventId, lower: string -> string, rows: seq<ParsedRow>, parseErrors: seq<RowError>,
                             listing: seq<TypeId>, script: seq<BatchFaults>)
      requires Listing(listing, db.types, event)
      modifies this
      ensures var f := FileFor(old(db), event, lower, rows, listing);
              var entries := AcceptedRows(f);
              var r := ImportFirst(old(db), event, entries, ClaimedTypes(entries), script, BatchCount(|entries|));
              && db == r.db
              && |allErrors| == failedRows
              && successRows == |r.ok|
              && successRows + failedRows == |rows| + |parseErrors| + |r.doubled|
              && multiset(allErrors) == multiset(parseErrors) + multiset(RejectedRows(f)) + multiset(ErrorsFor(r.failed))
      ensures status == if successRows == 0 then FailedImport else Completed
    {
      successRows, failedRows, allErrors, status := 0, 0, [], Processing;
      var types := TypeRows(listing, db.types);
      var toCreate, claims, planErrors := Plan(lower, rows, ExistingEmails(db.regs, event), types);
      failedRows := |parseErrors| + |planErrors|;
      allErrors := parseErrors + planErrors;
      ClaimsAreTypes(claims, toCreate);
      ImportAccounts(db, event, toCreate, claims.Keys, script);
      CommitPlan(event, toCreate, claims.Keys, script);
    }

    /** The batches, on top of the errors found so far, and the final status. */
    method CommitPlan(event: EventId, toCreate: seq<Entry>, claimable: set<TypeId>, script: seq<BatchFaults>)
      requires |allErrors| == failedRows && successRows == 0
      modifies this
      ensures var r := ImportFirst(old(db), event, toCreate, claimable, script, BatchCount(|toCreate|));
              && db == r.db && successRows == |r.ok|
              && failedRows == old(failedRows) + |r.failed| && |allErrors| == failedRows
              && multiset(allErrors) == multiset(old(allErrors)) + multiset(ErrorsFor(r.failed))
      ensures status == if successRows == 0 then FailedImport else Completed
    {
      ghost var failed := ImportFirst(db, event, toCreate, claimable, script, BatchCount(|toCreate|)).failed;
      ErrorsForAll([], failed);
      CommitAll(event, toCreate, claimable, script);
      status := if successRows == 0 then FailedImport else Completed;
    }
  }

  /** The rows of a findMany on an event's active ticket types. */
  predicate Listing(listing: seq<TypeId>, types: map<TypeId, TicketType>, event: EventId) {
    && (forall t :: t in listing ==> t in types && types[t].event == event && types[t].active)
    && (forall t :: t in types && types[t].event == event && types[t].active ==> t in listing)
  }

  function TypeRows(listing: seq<TypeId>, types: map<TypeId, TicketType>): (rows: seq<TypeRow>)
    requires forall t :: t in listing ==> t in types
    ensures forall r :: r in rows ==> r.id in types && r.capacity == types[r.id].capacity && r.sold == types[r.id].sold && r.id in listing
  {
    if |listing| == 0 then []
    else
      var t := listing[|listing| - 1];
      TypeRows(listing[..|listing| - 1], types) + [TypeRow(t, types[t].name, types[t].capacity, types[t].sold)]
  }

  function ExistingEmails(regs: seq<Registration>, event: EventId): set<string> {
    set r | r in regs && r.event == event :: r.email
  }

  /** What the planner reads of the database. */
  function FileFor(db: Db, event: EventId, lower: string -> string, rows: seq<ParsedRow>, listing: seq<TypeId>): File
    requires Listing(listing, db.types, event)
  {
    File(lower, ChecksOf(lower, rows), ExistingEmails(db.regs, event), TypeRows(listing, db.types))
  }

  function AcceptedRows(f: File): seq<Entry> {
    Accepted(f, |f.checks|)
  }

  function RejectedRows(f: File): seq<RowError> {
    Rejected(f, |f.checks|)
  }

  function ClaimedTypes(entries: seq<Entry>): set<TypeId> {
    set e | e in entries && e.ticketType.Some? :: e.ticketType.value
  }

  lemma {:induction false} CountedTypesOccur(entries: seq<Entry>, t: TypeId)
    ensures CountType(entries, t) > 0 <==> t in ClaimedTypes(entries)
  {
    if |entries| > 0 {
      var n := |entries| - 1;
      CountedTypesOccur(entries[..n], t);
      assert entries == entries[..n] + [entries[n]];
    }
  }

  lemma ClaimsAreTypes(claims: map<TypeId, nat>, entries: seq<Entry>)
    requires ClaimsMatch(claims, entries) && ClaimsPositive(claims)
    ensures claims.Keys == ClaimedTypes(entries)
  {
    forall t ensures t in claims.Keys <==> t in ClaimedTypes(entries) { CountedTypesOccur(entries, t); }
  }

  lemma ProgressGrows(db: Db, event: EventId, batch: seq<Entry>, claimable: set<TypeId>, faults: seq<RowFaults>, i: nat)
    requires i < |batch|
    ensures BatchProgress(db, event, batch[..i + 1], claimable, faults)
         == RowStep(BatchProgress(db, event, batch[..i], claimable, faults), event, batch[i], claimable, FaultsAt(faults, i))
  {
    assert batch[..i + 1] == batch[..i] + [batch[i]];
    ProgressAppends(db, event, batch[..i], batch[i], claimable, faults);
  }

  lemma ImportGrows(db: Db, event: EventId, entries: seq<Entry>, claimable: set<TypeId>, script: seq<BatchFaults>, k: nat, batch: seq<Entry>)
    requires BATCH_SIZE * k < |entries| && batch == entries[BATCH_SIZE * k..Min(BATCH_SIZE * k + BATCH_SIZE, |entries|)]
    ensures var r := ImportFirst(db, event, entries, claimable, script, k);
            ImportFirst(db, event, entries, claimable, script, k + 1)
            == After(r, RunBatch(r.db, event, batch, claimable, BatchFaultsAt(script, k)))
  {
    assert batch == BatchOf(entries, k);
  }

  lemma BatchCountIs(n: nat, k: nat)
    requires BATCH_SIZE * k >= n && (k > 0 ==> BATCH_SIZE * (k - 1) < n)
    ensures k == BatchCount(n)
  {
  }

  /** Once a row has thrown, the rows after it change nothing. */
  lemma {:induction false} ThrownForGood(db: Db, event: EventId, batch: seq<Entry>, claimable: set<TypeId>, faults: seq<RowFaults>, i: nat)
    requires i <= |batch|
    ensures var p := BatchProgress(db, event, batch[..i], claimable, faults);
            p.thrown ==> BatchProgress(db, event, batch, claimable, faults) == p
  {
    if i == |batch| {
      assert batch[..i] == batch;
    } else {
      var n := |batch| - 1;
      ThrownForGood(db, event, batch[..n], claimable, faults, i);
      assert batch[..n][..i] == batch[..i];
    }
  }
}
