/** The committing half of an import: batches of fifty, each in one transaction, and the report on them. */
module ImportCommit {
  import opened Wrappers
  import opened Allocation
  import opened ImportPlan
  import opened ImportPlanner
  import opened Induction

  function BatchCount(n: nat): nat {
    (n + BATCH_SIZE - 1) / BATCH_SIZE
  }

  function Min(a: nat, b: nat): nat {
    if a <= b then a else b
  }

  function BatchOf(entries: seq<Entry>, k: nat): seq<Entry> {
    var from, to := Min(BATCH_SIZE * k, |entries|), Min(BATCH_SIZE * (k + 1), |entries|);
    entries[from..to]
  }

  const NO_BATCH_FAULTS := BatchFaults([], false)

  function BatchFaultsAt(script: seq<BatchFaults>, k: nat): BatchFaults {
    if k < |script| then script[k] else NO_BATCH_FAULTS
  }

  function After(p: BatchResult, b: BatchResult): BatchResult {
    BatchResult(b.db, p.ok + b.ok, p.failed + b.failed, p.leaked + b.leaked, p.doubled + b.doubled)
  }

  /** The import after `k` batches; each batch starts from whatever the one before left. */
  function ImportFirst(db: Db, event: EventId, entries: seq<Entry>, claimable: set<TypeId>, script: seq<BatchFaults>, k: nat): BatchResult {
    if k == 0 then BatchResult(db, [], [], [], [])
    else
      var p := ImportFirst(db, event, entries, claimable, script, k - 1);
      var b := RunBatch(p.db, event, BatchOf(entries, k - 1), claimable, BatchFaultsAt(script, k - 1));
      After(p, b)
  }

  function ErrorsFor(failed: seq<Entry>): seq<RowError> {
    if |failed| == 0 then []
    else ErrorsFor(failed[..|failed| - 1]) + [RowError(failed[|failed| - 1].rowNumber, Some(failed[|failed| - 1].email), NotCommitted)]
  }

  lemma {:induction false} ErrorsForAll(a: seq<Entry>, b: seq<Entry>)
    ensures ErrorsFor(a + b) == ErrorsFor(a) + ErrorsFor(b)
    ensures |ErrorsFor(b)| == |b|
  {
    if |b| == 0 {
      assert a + b == a;
    } else {
      ErrorsForAll(a, b[..|b| - 1]);
      assert (a + b)[..|a + b| - 1] == a + b[..|b| - 1];
    }
  }

  /** The report names each failed row by its number and its email. */
  lemma {:induction false} ErrorsName(failed: seq<Entry>, j: nat)
    requires j < |failed|
    ensures |ErrorsFor(failed)| == |failed|
    ensures ErrorsFor(failed)[j] == RowError(failed[j].rowNumber, Some(failed[j].email), NotCommitted)
  {
    ErrorsForAll([], failed[..|failed| - 1]);
    if j < |failed| - 1 { ErrorsName(failed[..|failed| - 1], j); }
  }

  /** A batch grows by one row. */
  lemma ProgressAppends(db: Db, event: EventId, front: seq<Entry>, last: Entry, claimable: set<TypeId>, faults: seq<RowFaults>)
    ensures BatchProgress(db, event, front + [last], claimable, faults)
         == RowStep(BatchProgress(db, event, front, claimable, faults), event, last, claimable, FaultsAt(faults, |front|))
  {
    assert (front + [last])[..|front|] == front;
  }

  // ----- accounting

  lemma StepAccounts(p: Progress, event: EventId, entry: Entry, claimable: set<TypeId>, f: RowFaults)
    ensures var q := RowStep(p, event, entry, claimable, f);
            !q.thrown ==> !p.thrown && multiset(q.ok) + multiset(q.failed) == multiset(p.ok) + multiset(p.failed) + multiset{entry}
  {
  }

  lemma {:induction false} ProgressAccounts(db: Db, event: EventId, entries: seq<Entry>, claimable: set<TypeId>, faults: seq<RowFaults>)
    ensures var p := BatchProgress(db, event, entries, claimable, faults);
            !p.thrown ==> multiset(p.ok) + multiset(p.failed) == multiset(entries)
  {
    if |entries| > 0 {
      var n := |entries| - 1;
      ProgressAccounts(db, event, entries[..n], claimable, faults);
      StepAccounts(BatchProgress(db, event, entries[..n], claimable, faults), event, entries[n], claimable, FaultsAt(faults, n));
      assert entries == entries[..n] + [entries[n]];
    }
  }

  /** Every row of a batch is reported once, as a success or as a failure, except that the failures recorded
      inside a batch that is rejected afterwards are reported twice. */
  lemma BatchAccounts(db: Db, event: EventId, entries: seq<Entry>, claimable: set<TypeId>, f: BatchFaults)
    ensures var b := RunBatch(db, event, entries, claimable, f);
            multiset(b.ok) + multiset(b.failed) == multiset(entries) + multiset(b.doubled)
  {
    ProgressAccounts(db, event, entries, claimable, f.rows);
  }

  lemma BatchesTile(entries: seq<Entry>, k: nat)
    ensures entries[..Min(BATCH_SIZE * k, |entries|)] + BatchOf(entries, k) == entries[..Min(BATCH_SIZE * (k + 1), |entries|)]
  {
  }

  /** Every batch but the last has fifty rows, the last at least one, and row 50 * k + j of the plan is row j of
      batch k. */
  lemma BatchesOfFifty(entries: seq<Entry>, k: nat)
    requires k < BatchCount(|entries|)
    ensures k + 1 < BatchCount(|entries|) ==> |BatchOf(entries, k)| == 50
    ensures 0 < |BatchOf(entries, k)| <= 50 && |BatchOf(entries, BatchCount(|entries|))| == 0
    ensures forall j :: 0 <= j < |BatchOf(entries, k)| ==> 50 * k + j < |entries| && BatchOf(entries, k)[j] == entries[50 * k + j]
  {
  }

  lemma AllBatches(n: nat)
    ensures BATCH_SIZE * BatchCount(n) >= n
    ensures BatchCount(n) > 0 ==> BATCH_SIZE * (BatchCount(n) - 1) < n
  {
  }

  lemma PilesAdd(p: BatchResult, b: BatchResult, done: seq<Entry>, batch: seq<Entry>)
    requires multiset(p.ok) + multiset(p.failed) == multiset(done) + multiset(p.doubled)
    requires multiset(b.ok) + multiset(b.failed) == multiset(batch) + multiset(b.doubled)
    ensures var r := After(p, b);
            multiset(r.ok) + multiset(r.failed) == multiset(done + batch) + multiset(r.doubled)
  {
    calc {
      multiset(p.ok + b.ok) + multiset(p.failed + b.failed);
      (multiset(p.ok) + multiset(p.failed)) + (multiset(b.ok) + multiset(b.failed));
      (multiset(done) + multiset(p.doubled)) + (multiset(batch) + multiset(b.doubled));
      multiset(done + batch) + multiset(p.doubled + b.doubled);
    }
  }

  /** Of the first `m` rows every one is reported once, and the doubled ones once more. */
  ghost predicate Accounted(r: BatchResult, entries: seq<Entry>, m: nat)
    requires m <= |entries|
  {
    multiset(r.ok) + multiset(r.failed) == multiset(entries[..m]) + multiset(r.doubled)
  }

  lemma NextAccounts(db: Db, event: EventId, entries: seq<Entry>, claimable: set<TypeId>, script: seq<BatchFaults>, k: nat, p: BatchResult)
    returns (r: BatchResult)
    requires p == ImportFirst(db, event, entries, claimable, script, k)
    requires Accounted(p, entries, Min(BATCH_SIZE * k, |entries|))
    ensures r == ImportFirst(db, event, entries, claimable, script, k + 1)
    ensures Accounted(r, entries, Min(BATCH_SIZE * (k + 1), |entries|))
  {
    var f := BatchFaultsAt(script, k);
    BatchAccounts(p.db, event, BatchOf(entries, k), claimable, f);
    BatchesTile(entries, k);
    var b := RunBatch(p.db, event, BatchOf(entries, k), claimable, f);
    PilesAdd(p, b, entries[..Min(BATCH_SIZE * k, |entries|)], BatchOf(entries, k));
    r := After(p, b);
  }

  lemma ImportAccountsTo(db: Db, event: EventId, entries: seq<Entry>, claimable: set<TypeId>, script: seq<BatchFaults>, n: nat)
    returns (r: BatchResult)
    ensures r == ImportFirst(db, event, entries, claimable, script, n)
    ensures Accounted(r, entries, Min(BATCH_SIZE * n, |entries|))
  {
    ghost var accounted := (k: nat) => Accounted(ImportFirst(db, event, entries, claimable, script, k), entries, Min(BATCH_SIZE * k, |entries|));
    assert accounted(0);
    forall k: nat ensures accounted(k) ==> accounted(k + 1) {
      if accounted(k) {
        var next := NextAccounts(db, event, entries, claimable, script, k, ImportFirst(db, event, entries, claimable, script, k));
      }
    }
    UpTo(accounted, n);
    r := ImportFirst(db, event, entries, claimable, script, n);
  }

  /** Over all batches: every planned row lies in exactly one batch and is reported once, plus once more if its
      own failure was recorded in a batch that was then rejected. */
  lemma ImportAccounts(db: Db, event: EventId, entries: seq<Entry>, claimable: set<TypeId>, script: seq<BatchFaults>)
    ensures var r := ImportFirst(db, event, entries, claimable, script, BatchCount(|entries|));
            && multiset(r.ok) + multiset(r.failed) == multiset(entries) + multiset(r.doubled)
            && |r.ok| + |r.failed| == |entries| + |r.doubled|
  {
    var r := ImportAccountsTo(db, event, entries, claimable, script, BatchCount(|entries|));
    AllBatches(|entries|);
    assert entries[..Min(BATCH_SIZE * BatchCount(|entries|), |entries|)] == entries;
    assert |multiset(r.ok) + multiset(r.failed)| == |multiset(entries) + multiset(r.doubled)|;
  }
}
