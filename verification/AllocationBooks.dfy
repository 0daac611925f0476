/** When the counters of the ticket types match what was registered and reported, told from the rows and the
    statements that fail. */
module AllocationBooks {
  import opened Wrappers
  import opened Allocation
  import opened ImportPlan
  import opened ImportCommit
  import opened ImportService
  import opened AllocationRuns
  import opened AllocationSafety

  /** The row claims a seat of `t`, then fails, and the reversal of its claim fails as well. */
  predicate RowLeaks(db: Db, event: EventId, entry: Entry, claimable: set<TypeId>, f: RowFaults, t: TypeId) {
    && entry.ticketType == Some(t) && t in claimable && t in db.types
    && !f.claimFails && HasRoom(db.types[t].capacity, db.types[t].sold)
    && (TakeCode(db.codes, event, f.draws, 0).None? || f.regFails || EmailTaken(db.regs, event, entry.email) || f.tokenFails)
    && f.undoClaimFails
  }

  lemma RowLeaksIff(db: Db, event: EventId, entry: Entry, claimable: set<TypeId>, f: RowFaults, t: TypeId)
    ensures var r := CommitRow(db, event, entry, claimable, f);
            r.RowDone? ==> (r.leaked == Some(t) <==> RowLeaks(db, event, entry, claimable, f, t))
  {
  }

  /** A row's type cannot be read, which takes the whole batch down. */
  predicate ReadFails(entry: Entry, claimable: set<TypeId>, f: RowFaults) {
    entry.ticketType.Some? && entry.ticketType.value in claimable && f.readFails
  }

  lemma RowThrowsIff(db: Db, event: EventId, entry: Entry, claimable: set<TypeId>, f: RowFaults)
    ensures CommitRow(db, event, entry, claimable, f).BatchThrows? <==> ReadFails(entry, claimable, f)
  {
  }

  /** Row `k` of a batch leaks, in the state the rows before it leave. */
  predicate LeaksAt(db: Db, event: EventId, entries: seq<Entry>, claimable: set<TypeId>, faults: seq<RowFaults>, t: TypeId, k: nat)
    requires k < |entries|
  {
    RowLeaks(BatchProgress(db, event, entries[..k], claimable, faults).db, event, entries[k], claimable, FaultsAt(faults, k), t)
  }

  predicate NoneThrows(entries: seq<Entry>, claimable: set<TypeId>, faults: seq<RowFaults>) {
    forall k :: 0 <= k < |entries| ==> !ReadFails(entries[k], claimable, FaultsAt(faults, k))
  }

  predicate SomeLeaks(db: Db, event: EventId, entries: seq<Entry>, claimable: set<TypeId>, faults: seq<RowFaults>, t: TypeId) {
    exists k: nat :: k < |entries| && LeaksAt(db, event, entries, claimable, faults, t, k)
  }

  /** What the last row adds to the claims leaked. */
  lemma LastLeak(p: Progress, event: EventId, entry: Entry, claimable: set<TypeId>, f: RowFaults, t: TypeId)
    requires !p.thrown
    ensures var q := RowStep(p, event, entry, claimable, f);
            && (q.thrown <==> ReadFails(entry, claimable, f))
            && (!q.thrown ==> (t in q.leaked <==> t in p.leaked || RowLeaks(p.db, event, entry, claimable, f, t)))
  {
    RowLeaksIff(p.db, event, entry, claimable, f, t);
    RowThrowsIff(p.db, event, entry, claimable, f);
  }

  lemma NoneThrowsAppends(front: seq<Entry>, last: Entry, claimable: set<TypeId>, faults: seq<RowFaults>)
    ensures NoneThrows(front + [last], claimable, faults) <==> NoneThrows(front, claimable, faults) && !ReadFails(last, claimable, FaultsAt(faults, |front|))
  {
    var entries := front + [last];
    assert entries[|front|] == last && forall k :: 0 <= k < |front| ==> entries[k] == front[k];
  }

  lemma SomeLeaksAppends(db: Db, event: EventId, front: seq<Entry>, last: Entry, claimable: set<TypeId>, faults: seq<RowFaults>, t: TypeId)
    ensures SomeLeaks(db, event, front + [last], claimable, faults, t) <==>
              || SomeLeaks(db, event, front, claimable, faults, t)
              || RowLeaks(BatchProgress(db, event, front, claimable, faults).db, event, last, claimable, FaultsAt(faults, |front|), t)
  {
    var entries := front + [last];
    forall k: nat | k < |front|
      ensures LeaksAt(db, event, entries, claimable, faults, t, k) == LeaksAt(db, event, front, claimable, faults, t, k)
    {
      assert entries[..k] == front[..k];
    }
    assert entries[..|front|] == front;
    assert LeaksAt(db, event, entries, claimable, faults, t, |front|)
        == RowLeaks(BatchProgress(db, event, front, claimable, faults).db, event, last, claimable, FaultsAt(faults, |front|), t);
  }

  ghost predicate LeaksTold(p: Progress, db: Db, event: EventId, entries: seq<Entry>, claimable: set<TypeId>, faults: seq<RowFaults>, t: TypeId) {
    && (p.thrown <==> !NoneThrows(entries, claimable, faults))
    && (!p.thrown ==> (t in p.leaked <==> SomeLeaks(db, event, entries, claimable, faults, t)))
  }

  lemma LeaksToldNext(p: Progress, db: Db, event: EventId, front: seq<Entry>, last: Entry, claimable: set<TypeId>, faults: seq<RowFaults>, t: TypeId)
    requires p == BatchProgress(db, event, front, claimable, faults) && LeaksTold(p, db, event, front, claimable, faults, t)
    ensures LeaksTold(RowStep(p, event, last, claimable, FaultsAt(faults, |front|)), db, event, front + [last], claimable, faults, t)
  {
    NoneThrowsAppends(front, last, claimable, faults);
    SomeLeaksAppends(db, event, front, last, claimable, faults, t);
    if !p.thrown { LastLeak(p, event, last, claimable, FaultsAt(faults, |front|), t); }
  }

  lemma {:induction false} ProgressLeaks(db: Db, event: EventId, entries: seq<Entry>, claimable: set<TypeId>, faults: seq<RowFaults>, t: TypeId)
    ensures LeaksTold(BatchProgress(db, event, entries, claimable, faults), db, event, entries, claimable, faults, t)
  {
    if |entries| > 0 {
      var front, last := entries[..|entries| - 1], entries[|entries| - 1];
      assert entries == front + [last];
      ProgressLeaks(db, event, front, claimable, faults, t);
      LeaksToldNext(BatchProgress(db, event, front, claimable, faults), db, event, front, last, claimable, faults, t);
      ProgressAppends(db, event, front, last, claimable, faults);
    }
  }

  /** The batch commits, and one of its rows leaks a claim on `t`. */
  predicate BatchLeaks(db: Db, event: EventId, entries: seq<Entry>, claimable: set<TypeId>, f: BatchFaults, t: TypeId) {
    !f.rejected && NoneThrows(entries, claimable, f.rows) && SomeLeaks(db, event, entries, claimable, f.rows, t)
  }

  lemma BatchLeaksIff(db: Db, event: EventId, entries: seq<Entry>, claimable: set<TypeId>, f: BatchFaults, t: TypeId)
    ensures t in RunBatch(db, event, entries, claimable, f).leaked <==> BatchLeaks(db, event, entries, claimable, f, t)
  {
    ProgressLeaks(db, event, entries, claimable, f.rows, t);
  }

  predicate StepLeaks(s: State, a: Action, t: TypeId) {
    && a.CommitNextBatch? && a.call in s.calls && s.calls[a.call].Importing?
    && BatchLeaks(s.db, s.calls[a.call].event, BatchOf(s.calls[a.call].entries, s.calls[a.call].next), ClaimedTypes(s.calls[a.call].entries), a.faults, t)
  }

  lemma StepLeaksIff(s: State, a: Action, t: TypeId)
    ensures t in Apply(s, a).leaked <==> t in s.leaked || StepLeaks(s, a, t)
  {
    if a.CommitNextBatch? && a.call in s.calls && s.calls[a.call].Importing? {
      var c := s.calls[a.call];
      BatchLeaksIff(s.db, c.event, BatchOf(c.entries, c.next), ClaimedTypes(c.entries), a.faults, t);
    }
  }

  ghost predicate LeaksDuring(start: Db, actions: seq<Action>, t: TypeId, k: nat)
    requires k < |actions|
  {
    StepLeaks(Run(start, actions[..k]), actions[k], t)
  }

  ghost predicate SomeStepLeaks(start: Db, actions: seq<Action>, t: TypeId) {
    exists k: nat :: k < |actions| && LeaksDuring(start, actions, t, k)
  }

  lemma LeaksDuringPrefix(start: Db, actions: seq<Action>, front: seq<Action>, t: TypeId, k: nat)
    requires k < |front| <= |actions| && front == actions[..|front|]
    ensures LeaksDuring(start, front, t, k) <==> LeaksDuring(start, actions, t, k)
  {
    assert front[..k] == actions[..k];
  }

  lemma SomeStepLeaksSnoc(start: Db, actions: seq<Action>, front: seq<Action>, t: TypeId)
    requires |actions| > 0 && front == actions[..|actions| - 1]
    ensures SomeStepLeaks(start, actions, t) <==> SomeStepLeaks(start, front, t) || LeaksDuring(start, actions, t, |front|)
  {
    forall k: nat | k < |front| ensures LeaksDuring(start, front, t, k) <==> LeaksDuring(start, actions, t, k) {
      LeaksDuringPrefix(start, actions, front, t, k);
    }
  }

  lemma {:induction false} RunLeaksIff(start: Db, actions: seq<Action>, t: TypeId) returns (s: State)
    ensures s == Run(start, actions)
    ensures t in s.leaked <==> SomeStepLeaks(start, actions, t)
  {
    if |actions| == 0 {
      s := State(start, map[], [], []);
    } else {
      var front, last := actions[..|actions| - 1], actions[|actions| - 1];
      var p := RunLeaksIff(start, front, t);
      StepLeaksIff(p, last, t);
      SomeStepLeaksSnoc(start, actions, front, t);
      s := Apply(p, last);
    }
  }

  lemma {:induction false} LeakedIff(leaked: seq<TypeId>, t: TypeId)
    ensures CountOf(leaked, t) == 0 <==> t !in leaked
  {
    if |leaked| > 0 {
      LeakedIff(leaked[..|leaked| - 1], t);
      assert leaked == leaked[..|leaked| - 1] + [leaked[|leaked| - 1]];
    }
  }

  /** A type's counter is what its public registrations and reported rows make it. */
  ghost predicate Balanced(s: State, start: Db, t: TypeId)
    requires t in start.types && t in s.db.types
  {
    s.db.types[t].sold - start.types[t].sold == PublicOfType(s.db.regs, t) - PublicOfType(start.regs, t) + CountType(s.reported, t)
  }

  /** In every run the books of a type balance exactly when no batch that commits has a row that claims a seat of
      the type, then fails, and cannot give the seat back. */
  lemma BooksBalanceIff(start: Db, actions: seq<Action>, t: TypeId)
    requires StartWell(start) && t in start.types
    ensures t in Run(start, actions).db.types
    ensures Balanced(Run(start, actions), start, t) <==> !SomeStepLeaks(start, actions, t)
  {
    CountersAreExact(start, actions, t);
    var s := RunLeaksIff(start, actions, t);
    LeakedIff(s.leaked, t);
  }
}
