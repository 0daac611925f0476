/** Plan and commit agree: with no other writer and no database failure, what the planner promised is what the
    guarded updates grant, over all batches. */
module ImportAgreement {
  import opened Wrappers
  import opened Allocation
  import opened ImportPlan
  import opened ImportCommit
  import opened ImportService
  import opened Induction

  /** The script of planned row `g`, wherever its batch puts it. */
  function FaultsOf(script: seq<BatchFaults>, g: nat): RowFaults {
    FaultsAt(BatchFaultsAt(script, g / BATCH_SIZE).rows, g % BATCH_SIZE)
  }

  predicate Sound(f: RowFaults) {
    !f.readFails && !f.claimFails && !f.regFails && !f.tokenFails && forall a :: 0 <= a < |f.draws| ==> f.draws[a].Drawn?
  }

  /** `c` is among the row's three codes and among no other row's. */
  predicate OwnCode(script: seq<BatchFaults>, n: nat, g: nat, c: nat) {
    && (exists a :: 0 <= a < MAX_TICKET_CODE_ATTEMPTS && a < |FaultsOf(script, g).draws| && FaultsOf(script, g).draws[a] == Drawn(c))
    && (forall h: nat :: h < n && h != g ==> Drawn(c) !in FaultsOf(script, h).draws)
  }

  ghost predicate HasOwnCode(codes: set<(EventId, nat)>, event: EventId, script: seq<BatchFaults>, n: nat, g: nat) {
    exists c: nat :: (event, c) !in codes && OwnCode(script, n, g, c)
  }

  /** No statement fails and no row runs out of ticket codes. */
  ghost predicate Undisturbed(db: Db, event: EventId, script: seq<BatchFaults>, n: nat) {
    && (forall k :: 0 <= k < |script| ==> !script[k].rejected)
    && (forall g: nat :: g < n ==> Sound(FaultsOf(script, g)))
    && (forall g: nat :: g < n ==> HasOwnCode(db.codes, event, script, n, g))
  }

  // ----- what a plan promises

  ghost predicate Fits(db: Db, event: EventId, entries: seq<Entry>, i: nat)
    requires i < |entries|
  {
    && !EmailTaken(db.regs, event, entries[i].email)
    && (forall j: nat :: j < i ==> entries[j].email != entries[i].email)
    && (entries[i].ticketType.Some? ==>
          var t := entries[i].ticketType.value;
          t in db.types && HasRoom(db.types[t].capacity, db.types[t].sold + CountType(entries[..i], t)))
  }

  ghost predicate PlanFits(db: Db, event: EventId, entries: seq<Entry>) {
    forall i: nat :: i < |entries| ==> Fits(db, event, entries, i)
  }

  lemma EmailsListed(regs: seq<Registration>, event: EventId, email: string)
    ensures email in ExistingEmails(regs, event) <==> EmailTaken(regs, event, email)
  {
    if EmailTaken(regs, event, email) {
      var i :| 0 <= i < |regs| && regs[i].event == event && regs[i].email == email;
      assert regs[i] in regs;
    }
  }

  lemma {:induction false} AcceptedComeFromRows(f: File, n: nat, i: nat)
    requires n <= |f.checks| && i < |Accepted(f, n)|
    ensures HasEarlier(f.checks, n, Accepted(f, n)[i].email)
  {
    if i < |Accepted(f, n - 1)| {
      AcceptedComeFromRows(f, n - 1, i);
    } else {
      assert f.checks[n - 1].Ok?;
    }
  }

  lemma {:induction false} PlanKeepsPromises(db: Db, event: EventId, f: File, n: nat)
    requires n <= |f.checks|
    requires f.existing == ExistingEmails(db.regs, event)
    requires forall r :: r in f.types ==> r.id in db.types && r.capacity == db.types[r.id].capacity && r.sold == db.types[r.id].sold
    ensures PlanFits(db, event, Accepted(f, n))
  {
    if n > 0 {
      PlanKeepsPromises(db, event, f, n - 1);
      var before, all := Accepted(f, n - 1), Accepted(f, n);
      forall i: nat | i < |all| ensures Fits(db, event, all, i) {
        if i < |before| {
          assert Fits(db, event, before, i);
          assert all[..i] == before[..i];
        } else {
          LastFits(db, event, f, n);
        }
      }
    }
  }

  lemma LastFits(db: Db, event: EventId, f: File, n: nat)
    requires 0 < n <= |f.checks| && Judge(f, n - 1).Ok?
    requires f.existing == ExistingEmails(db.regs, event)
    requires forall r :: r in f.types ==> r.id in db.types && r.capacity == db.types[r.id].capacity && r.sold == db.types[r.id].sold
    ensures Fits(db, event, Accepted(f, n), |Accepted(f, n - 1)|)
  {
    var before, entry := Accepted(f, n - 1), Judge(f, n - 1).value;
    var i := |before|;
    assert Accepted(f, n) == before + [entry];
    assert (before + [entry])[..i] == before;
    EmailsListed(db.regs, event, entry.email);
    forall j: nat | j < i ensures before[j].email != entry.email {
      AcceptedComeFromRows(f, n - 1, j);
    }
    if entry.ticketType.Some? { AcceptedCounts(f, n - 1, entry.ticketType.value); }
  }

  // ----- what the commit has done after `m` rows

  ghost predicate TypesAfter(types: map<TypeId, TicketType>, start: map<TypeId, TicketType>, done: seq<Entry>) {
    && types.Keys == start.Keys
    && forall t :: t in types ==> types[t] == start[t].(sold := start[t].sold + CountType(done, t))
  }

  ghost predicate EmailsAfter(regs: seq<Registration>, start: seq<Registration>, event: EventId, done: seq<Entry>) {
    forall email: string :: EmailTaken(regs, event, email) ==> EmailTaken(start, event, email) || Among(done, email)
  }

  predicate Among(done: seq<Entry>, email: string) {
    exists i :: 0 <= i < |done| && done[i].email == email
  }

  /** The codes among a row's draws. */
  function CodesIn(draws: seq<CodeDraw>): set<nat> {
    set d | d in draws && d.Drawn? :: d.code
  }

  /** The codes drawn for the first `m` rows. */
  function DrawnBefore(script: seq<BatchFaults>, m: nat): set<nat> {
    if m == 0 then {} else DrawnBefore(script, m - 1) + CodesIn(FaultsOf(script, m - 1).draws)
  }

  lemma {:induction false} DrawnByARow(script: seq<BatchFaults>, m: nat, c: nat)
    ensures c in DrawnBefore(script, m) ==> exists g: nat :: g < m && Drawn(c) in FaultsOf(script, g).draws
  {
    if m > 0 {
      DrawnByARow(script, m - 1, c);
      if c in CodesIn(FaultsOf(script, m - 1).draws) { assert Drawn(c) in FaultsOf(script, m - 1).draws; }
    }
  }

  ghost predicate CodesAfter(codes: set<(EventId, nat)>, start: set<(EventId, nat)>, event: EventId, drawn: set<nat>) {
    forall c: nat :: (event, c) in codes ==> (event, c) in start || c in drawn
  }

  ghost predicate Granted(db: Db, start: Db, event: EventId, entries: seq<Entry>, script: seq<BatchFaults>, m: nat)
    requires m <= |entries|
  {
    && Active(db.regs, event) == Active(start.regs, event) + m
    && TypesAfter(db.types, start.types, entries[..m])
    && EmailsAfter(db.regs, start.regs, event, entries[..m])
    && CodesAfter(db.codes, start.codes, event, DrawnBefore(script, m))
  }

  lemma {:induction false} CodeIsFound(codes: set<(EventId, nat)>, event: EventId, draws: seq<CodeDraw>, a: nat, k: nat)
    requires k <= a < MAX_TICKET_CODE_ATTEMPTS && a < |draws|
    requires forall b :: 0 <= b < |draws| ==> draws[b].Drawn?
    requires (event, draws[a].code) !in codes
    ensures TakeCode(codes, event, draws, k).Some?
    decreases a - k
  {
    if k < a { CodeIsFound(codes, event, draws, a, k + 1); }
  }

  lemma FindsCode(db: Db, start: Db, event: EventId, entries: seq<Entry>, script: seq<BatchFaults>, m: nat)
    requires m < |entries| && Undisturbed(start, event, script, |entries|)
    requires CodesAfter(db.codes, start.codes, event, DrawnBefore(script, m))
    ensures TakeCode(db.codes, event, FaultsOf(script, m).draws, 0).Some?
  {
    assert HasOwnCode(start.codes, event, script, |entries|, m);
    var c: nat :| (event, c) !in start.codes && OwnCode(script, |entries|, m, c);
    var draws := FaultsOf(script, m).draws;
    var a :| 0 <= a < MAX_TICKET_CODE_ATTEMPTS && a < |draws| && draws[a] == Drawn(c);
    DrawnByARow(script, m, c);
    CodeIsFound(db.codes, event, draws, a, 0);
  }

  /** The next planned row finds its seat, its email and a code. */
  lemma RowIsGranted(db: Db, start: Db, event: EventId, entries: seq<Entry>, script: seq<BatchFaults>, m: nat)
    requires m < |entries| && Undisturbed(start, event, script, |entries|) && Fits(start, event, entries, m)
    requires Granted(db, start, event, entries, script, m)
    ensures var r := CommitRow(db, event, entries[m], ClaimedTypes(entries), FaultsOf(script, m));
            r.RowDone? && r.ok && r.leaked.None?
  {
    FindsCode(db, start, event, entries, script, m);
    assert Sound(FaultsOf(script, m));
    assert !EmailTaken(db.regs, event, entries[m].email);
    assert entries[m].ticketType.Some? ==> entries[m].ticketType.value in db.types;
  }

  lemma TypesGrow(types: map<TypeId, TicketType>, start: map<TypeId, TicketType>, done: seq<Entry>, entry: Entry)
    requires TypesAfter(types, start, done) && (entry.ticketType.Some? ==> entry.ticketType.value in types)
    ensures TypesAfter(if entry.ticketType.Some? then WithSold(types, entry.ticketType.value, 1) else types, start, done + [entry])
  {
    forall t: TypeId ensures CountType(done + [entry], t) == CountType(done, t) + if entry.ticketType == Some(t) then 1 else 0 {
      CountTypeAppends(done, [entry], t);
    }
  }

  lemma CodesGrow(codes: set<(EventId, nat)>, start: set<(EventId, nat)>, event: EventId, script: seq<BatchFaults>, m: nat, code: nat)
    requires CodesAfter(codes, start, event, DrawnBefore(script, m)) && Drawn(code) in FaultsOf(script, m).draws
    ensures CodesAfter(codes + {(event, code)}, start, event, DrawnBefore(script, m + 1))
  {
    assert code in CodesIn(FaultsOf(script, m).draws);
  }

  /** What a granted row changed. */
  lemma GrantedRow(db: Db, event: EventId, entry: Entry, claimable: set<TypeId>, f: RowFaults, after: Db) returns (code: nat)
    requires CommitRow(db, event, entry, claimable, f) == RowDone(after, true, None)
    requires entry.ticketType.Some? ==> entry.ticketType.value in db.types && entry.ticketType.value in claimable
    ensures Drawn(code) in f.draws && after.codes == db.codes + {(event, code)}
    ensures after.regs == db.regs + [ImportedRegistration(event, entry, code)]
    ensures after.types == if entry.ticketType.Some? then WithSold(db.types, entry.ticketType.value, 1) else db.types
  {
    code := TakeCode(db.codes, event, f.draws, 0).value;
  }

  lemma RowKeepsGranted(db: Db, start: Db, event: EventId, entries: seq<Entry>, script: seq<BatchFaults>, m: nat, after: Db)
    requires m < |entries| && Granted(db, start, event, entries, script, m)
    requires CommitRow(db, event, entries[m], ClaimedTypes(entries), FaultsOf(script, m)) == RowDone(after, true, None)
    requires entries[m].ticketType.Some? ==> entries[m].ticketType.value in db.types
    ensures Granted(after, start, event, entries, script, m + 1)
  {
    var entry := entries[m];
    assert entries[..m + 1] == entries[..m] + [entry];
    assert entry in entries;
    var code := GrantedRow(db, event, entry, ClaimedTypes(entries), FaultsOf(script, m), after);
    TypesGrow(db.types, start.types, entries[..m], entry);
    CodesGrow(db.codes, start.codes, event, script, m, code);
    EmailsGrow(db.regs, start.regs, event, entries[..m], entry, code);
    ActiveAppends(db.regs, ImportedRegistration(event, entry, code), event);
  }

  lemma EmailsGrow(regs: seq<Registration>, start: seq<Registration>, event: EventId, done: seq<Entry>, entry: Entry, code: nat)
    requires EmailsAfter(regs, start, event, done)
    ensures EmailsAfter(regs + [ImportedRegistration(event, entry, code)], start, event, done + [entry])
  {
    var more := regs + [ImportedRegistration(event, entry, code)];
    forall email: string | EmailTaken(more, event, email)
      ensures EmailTaken(start, event, email) || Among(done + [entry], email)
    {
      var k :| 0 <= k < |more| && more[k].event == event && more[k].email == email;
      if k < |regs| {
        assert EmailTaken(regs, event, email);
        if !EmailTaken(start, event, email) {
          var i :| 0 <= i < |done| && done[i].email == email;
          assert (done + [entry])[i].email == email;
        }
      } else {
        assert (done + [entry])[|done|].email == email;
      }
    }
  }

  lemma StepIsGranted(p: Progress, start: Db, event: EventId, entries: seq<Entry>, script: seq<BatchFaults>, m: nat)
    requires m < |entries| && Undisturbed(start, event, script, |entries|) && PlanFits(start, event, entries)
    requires !p.thrown && p.failed == [] && p.leaked == [] && Granted(p.db, start, event, entries, script, m)
    ensures var q := RowStep(p, event, entries[m], ClaimedTypes(entries), FaultsOf(script, m));
            && !q.thrown && q.failed == [] && q.leaked == [] && q.ok == p.ok + [entries[m]]
            && Granted(q.db, start, event, entries, script, m + 1)
  {
    assert Fits(start, event, entries, m);
    RowIsGranted(p.db, start, event, entries, script, m);
    var r := CommitRow(p.db, event, entries[m], ClaimedTypes(entries), FaultsOf(script, m));
    RowKeepsGranted(p.db, start, event, entries, script, m, r.db);
  }

  ghost predicate AllGranted(p: Progress, start: Db, event: EventId, entries: seq<Entry>, script: seq<BatchFaults>, base: nat, m: nat)
    requires base <= m <= |entries|
  {
    !p.thrown && p.ok == entries[base..m] && p.failed == [] && p.leaked == [] && Granted(p.db, start, event, entries, script, m)
  }

  lemma AllGrantedNext(p: Progress, start: Db, event: EventId, entries: seq<Entry>, script: seq<BatchFaults>, base: nat, m: nat)
    requires base <= m < |entries| && Undisturbed(start, event, script, |entries|) && PlanFits(start, event, entries)
    requires AllGranted(p, start, event, entries, script, base, m)
    ensures AllGranted(RowStep(p, event, entries[m], ClaimedTypes(entries), FaultsOf(script, m)), start, event, entries, script, base, m + 1)
  {
    StepIsGranted(p, start, event, entries, script, m);
    assert entries[base..m] + [entries[m]] == entries[base..m + 1];
  }

  lemma ProgressByRow(db: Db, event: EventId, entries: seq<Entry>, claimable: set<TypeId>, rows: seq<RowFaults>, base: nat, m: nat)
    requires base <= m < |entries|
    ensures BatchProgress(db, event, entries[base..m + 1], claimable, rows)
         == RowStep(BatchProgress(db, event, entries[base..m], claimable, rows), event, entries[m], claimable, FaultsAt(rows, m - base))
  {
    assert entries[base..m + 1] == entries[base..m] + [entries[m]];
    ProgressAppends(db, event, entries[base..m], entries[m], claimable, rows);
  }

  /** The batch starting at `base` runs by the script `rows`. */
  ghost predicate RunsBy(script: seq<BatchFaults>, rows: seq<RowFaults>, base: nat, to: nat) {
    forall i: nat :: base <= i < to ==> FaultsOf(script, i) == FaultsAt(rows, i - base)
  }

  /** The plan fits and nothing disturbs its commit. */
  ghost predicate Promised(start: Db, event: EventId, entries: seq<Entry>, script: seq<BatchFaults>) {
    Undisturbed(start, event, script, |entries|) && PlanFits(start, event, entries)
  }

  /** One row further in the batch that starts at `base`. */
  lemma NextRowIsGranted(q: Progress, db: Db, start: Db, event: EventId, entries: seq<Entry>, claimable: set<TypeId>, script: seq<BatchFaults>, rows: seq<RowFaults>, base: nat, m: nat)
    returns (p: Progress)
    requires base <= m < |entries| && claimable == ClaimedTypes(entries) && Promised(start, event, entries, script)
    requires FaultsOf(script, m) == FaultsAt(rows, m - base)
    requires q == BatchProgress(db, event, entries[base..m], claimable, rows) && AllGranted(q, start, event, entries, script, base, m)
    ensures p == BatchProgress(db, event, entries[base..m + 1], claimable, rows) && AllGranted(p, start, event, entries, script, base, m + 1)
  {
    AllGrantedNext(q, start, event, entries, script, base, m);
    ProgressByRow(db, event, entries, claimable, rows, base, m);
    p := RowStep(q, event, entries[m], claimable, FaultsOf(script, m));
  }

  lemma {:induction false} BatchIsGranted(db: Db, start: Db, event: EventId, entries: seq<Entry>, claimable: set<TypeId>, script: seq<BatchFaults>, rows: seq<RowFaults>, base: nat, m: nat)
    returns (p: Progress)
    requires base <= m <= |entries| && claimable == ClaimedTypes(entries) && Promised(start, event, entries, script)
    requires RunsBy(script, rows, base, m) && Granted(db, start, event, entries, script, base)
    ensures p == BatchProgress(db, event, entries[base..m], claimable, rows)
    ensures AllGranted(p, start, event, entries, script, base, m)
    decreases m
  {
    if m == base {
      assert entries[base..base] == [];
      p := Progress(db, [], [], [], false);
    } else {
      var q := BatchIsGranted(db, start, event, entries, claimable, script, rows, base, m - 1);
      p := NextRowIsGranted(q, db, start, event, entries, claimable, script, rows, base, m - 1);
    }
  }

  lemma BatchRunsBy(script: seq<BatchFaults>, k: nat, to: nat)
    requires to <= BATCH_SIZE * (k + 1)
    ensures RunsBy(script, BatchFaultsAt(script, k).rows, BATCH_SIZE * k, to)
  {
    forall i: nat | BATCH_SIZE * k <= i < to
      ensures FaultsOf(script, i) == FaultsAt(BatchFaultsAt(script, k).rows, i - BATCH_SIZE * k)
    {
      assert i / BATCH_SIZE == k && i % BATCH_SIZE == i - BATCH_SIZE * k;
    }
  }

  lemma NextBatchIsGranted(db: Db, start: Db, event: EventId, entries: seq<Entry>, script: seq<BatchFaults>, k: nat)
    requires Undisturbed(start, event, script, |entries|) && PlanFits(start, event, entries)
    requires Granted(db, start, event, entries, script, Min(BATCH_SIZE * k, |entries|))
    ensures var b := RunBatch(db, event, BatchOf(entries, k), ClaimedTypes(entries), BatchFaultsAt(script, k));
            && b.ok == BatchOf(entries, k) && b.failed == [] && b.leaked == []
            && Granted(b.db, start, event, entries, script, Min(BATCH_SIZE * (k + 1), |entries|))
  {
    if BATCH_SIZE * k < |entries| {
      var to := Min(BATCH_SIZE * (k + 1), |entries|);
      BatchRunsBy(script, k, to);
      var p := BatchIsGranted(db, start, event, entries, ClaimedTypes(entries), script, BatchFaultsAt(script, k).rows, BATCH_SIZE * k, to);
      assert BatchOf(entries, k) == entries[BATCH_SIZE * k..to];
    } else {
      assert BatchOf(entries, k) == [];
    }
  }

  ghost predicate Through(r: BatchResult, start: Db, event: EventId, entries: seq<Entry>, script: seq<BatchFaults>, m: nat)
    requires m <= |entries|
  {
    r.ok == entries[..m] && r.failed == [] && r.leaked == [] && Granted(r.db, start, event, entries, script, m)
  }

  lemma ThroughNone(start: Db, event: EventId, entries: seq<Entry>, script: seq<BatchFaults>)
    ensures Through(BatchResult(start, [], [], [], []), start, event, entries, script, 0)
  {
  }

  lemma ThroughNext(p: BatchResult, b: BatchResult, start: Db, event: EventId, entries: seq<Entry>, script: seq<BatchFaults>, k: nat)
    requires Through(p, start, event, entries, script, Min(BATCH_SIZE * k, |entries|))
    requires b.ok == BatchOf(entries, k) && b.failed == [] && b.leaked == []
    requires Granted(b.db, start, event, entries, script, Min(BATCH_SIZE * (k + 1), |entries|))
    ensures Through(After(p, b), start, event, entries, script, Min(BATCH_SIZE * (k + 1), |entries|))
  {
    BatchesTile(entries, k);
  }

  /** The next batch, and how it continues the import. */
  lemma NextBatch(p: BatchResult, start: Db, event: EventId, entries: seq<Entry>, script: seq<BatchFaults>, k: nat, claimable: set<TypeId>)
    returns (b: BatchResult)
    requires Promised(start, event, entries, script) && claimable == ClaimedTypes(entries)
    requires p == ImportFirst(start, event, entries, claimable, script, k)
    requires Granted(p.db, start, event, entries, script, Min(BATCH_SIZE * k, |entries|))
    ensures After(p, b) == ImportFirst(start, event, entries, claimable, script, k + 1)
    ensures b.ok == BatchOf(entries, k) && b.failed == [] && b.leaked == []
    ensures Granted(b.db, start, event, entries, script, Min(BATCH_SIZE * (k + 1), |entries|))
  {
    b := RunBatch(p.db, event, BatchOf(entries, k), claimable, BatchFaultsAt(script, k));
    NextBatchIsGranted(p.db, start, event, entries, script, k);
  }

  ghost predicate ThroughAfter(start: Db, event: EventId, entries: seq<Entry>, script: seq<BatchFaults>, k: nat) {
    Through(ImportFirst(start, event, entries, ClaimedTypes(entries), script, k), start, event, entries, script, Min(BATCH_SIZE * k, |entries|))
  }

  lemma OneBatchFurther(start: Db, event: EventId, entries: seq<Entry>, script: seq<BatchFaults>, k: nat)
    requires Promised(start, event, entries, script) && ThroughAfter(start, event, entries, script, k)
    ensures ThroughAfter(start, event, entries, script, k + 1)
  {
    var p := ImportFirst(start, event, entries, ClaimedTypes(entries), script, k);
    var b := NextBatch(p, start, event, entries, script, k, ClaimedTypes(entries));
    ThroughNext(p, b, start, event, entries, script, k);
  }

  lemma BatchesAreGranted(start: Db, event: EventId, entries: seq<Entry>, script: seq<BatchFaults>, n: nat)
    requires Promised(start, event, entries, script)
    ensures ThroughAfter(start, event, entries, script, n)
  {
    var through := (k: nat) => ThroughAfter(start, event, entries, script, k);
    assert through(0) by { ThroughNone(start, event, entries, script); }
    forall k: nat | through(k) ensures through(k + 1) { OneBatchFurther(start, event, entries, script, k); }
    UpTo(through, n);
    assert through(n);
  }

  /** Every row the planner accepts is committed: the in-memory claims never promise a seat that the guarded
      update then refuses, nor an email that is taken. */
  lemma PlanAndCommitAgree(db: Db, event: EventId, lower: string -> string, rows: seq<ParsedRow>, listing: seq<TypeId>, script: seq<BatchFaults>)
    requires Listing(listing, db.types, event)
    requires Undisturbed(db, event, script, |AcceptedRows(FileFor(db, event, lower, rows, listing))|)
    ensures var entries := AcceptedRows(FileFor(db, event, lower, rows, listing));
            var r := ImportFirst(db, event, entries, ClaimedTypes(entries), script, BatchCount(|entries|));
            && r.ok == entries && r.failed == [] && TypesAfter(r.db.types, db.types, entries)
            && Active(r.db.regs, event) == Active(db.regs, event) + |entries|
  {
    var f := FileFor(db, event, lower, rows, listing);
    var entries := AcceptedRows(f);
    PlanKeepsPromises(db, event, f, |f.checks|);
    BatchesAreGranted(db, event, entries, script, BatchCount(|entries|));
    AllBatches(|entries|);
    assert entries[..Min(BATCH_SIZE * BatchCount(|entries|), |entries|)] == entries;
  }

  /** An undisturbed import keeps its event within capacity exactly when the plan accepts no more rows than the
      event has seats left, which can be told before anything is committed. */
  lemma ImportFitsIff(db: Db, event: EventId, lower: string -> string, rows: seq<ParsedRow>, listing: seq<TypeId>, script: seq<BatchFaults>,
                      capacity: nat)
    requires Listing(listing, db.types, event)
    requires Undisturbed(db, event, script, |AcceptedRows(FileFor(db, event, lower, rows, listing))|)
    ensures var entries := AcceptedRows(FileFor(db, event, lower, rows, listing));
            var after := ImportFirst(db, event, entries, ClaimedTypes(entries), script, BatchCount(|entries|)).db;
            Active(after.regs, event) <= capacity <==> |entries| <= capacity - Active(db.regs, event)
  {
    PlanAndCommitAgree(db, event, lower, rows, listing, script);
  }
}
