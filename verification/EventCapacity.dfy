/** The capacity of an event in runs of free registrations and imports. */
module EventCapacity {
  import opened Wrappers
  import opened Allocation
  import opened ImportCommit
  import opened ImportService
  import opened AllocationRuns
  import opened ImportCapacity

  function Max(a: int, b: int): int {
    if a >= b then a else b
  }

  /** Registrations of an event made by imports. */
  function ImportedInto(regs: seq<Registration>, e: EventId): nat {
    if |regs| == 0 then 0
    else
      var last := regs[|regs| - 1];
      ImportedInto(regs[..|regs| - 1], e) + if last.event == e && last.source == Import then 1 else 0
  }

  lemma ImportedAppends(regs: seq<Registration>, r: Registration, e: EventId)
    ensures ImportedInto(regs + [r], e) == ImportedInto(regs, e) + if r.event == e && r.source == Import then 1 else 0
  {
    assert (regs + [r])[..|regs|] == regs;
  }

  /** The two counts of an event grow together. */
  lemma {:induction false} BatchCounts(regs: seq<Registration>, before: seq<Registration>, event: EventId, e: EventId)
    requires OnlyImported(regs, before, event)
    ensures Active(regs, e) - Active(before, e) == ImportedInto(regs, e) - ImportedInto(before, e)
         == if e == event then |regs| - |before| else 0
  {
    if |regs| == |before| {
      assert regs == before;
    } else {
      var n := |regs| - 1;
      assert regs[..n][..|before|] == before;
      BatchCounts(regs[..n], before, event, e);
    }
  }

  // ----- the general bound

  /** Beyond its capacity an event holds at most what it held before and what was imported into it. */
  ghost predicate Bounded(s: State, start: Db, e: EventId) {
    && s.db.events == start.events
    && (CapacityOf(start, e).Some? ==>
          Active(s.db.regs, e) <= Max(CapacityOf(start, e).value, Active(start.regs, e)) + ImportedInto(s.db.regs, e) - ImportedInto(start.regs, e)
          && ImportedInto(s.db.regs, e) >= ImportedInto(start.regs, e))
  }

  /** The count that lets an attempt through is the count its registration is added to. */
  lemma AttemptKeepsBound(s: State, call: CallId, code: nat, confirmation: nat, fails: bool, start: Db, e: EventId)
    requires Bounded(s, start, e)
    ensures Bounded(DoAttempt(s, call, code, confirmation, fails), start, e)
  {
    if call in s.calls && s.calls[call].Attempting? {
      var reg := FreeRegistration(s.calls[call].req, code, confirmation);
      ActiveAppends(s.db.regs, reg, e);
      ImportedAppends(s.db.regs, reg, e);
    }
  }

  lemma BatchKeepsBound(s: State, call: CallId, faults: BatchFaults, start: Db, e: EventId)
    requires Bounded(s, start, e)
    ensures Bounded(DoCommitNextBatch(s, call, faults), start, e)
  {
    if call in s.calls && s.calls[call].Importing? {
      var c := s.calls[call];
      BatchKeeps(s.db, c.event, c.entries, c.next, faults);
      BatchCounts(DoCommitNextBatch(s, call, faults).db.regs, s.db.regs, c.event, e);
    }
  }

  lemma QuietStepKeepsDb(s: State, a: Action)
    requires !a.Attempt? && !a.CommitNextBatch?
    ensures Apply(s, a).db == s.db
  {
  }

  lemma StepKeepsBound(s: State, a: Action, start: Db, e: EventId)
    requires Bounded(s, start, e)
    ensures Bounded(Apply(s, a), start, e)
  {
    if a.Attempt? {
      AttemptKeepsBound(s, a.call, a.code, a.confirmation, a.fails, start, e);
    } else if a.CommitNextBatch? {
      BatchKeepsBound(s, a.call, a.faults, start, e);
    } else {
      QuietStepKeepsDb(s, a);
    }
  }

  /** In every run of registrations and imports, imports are all that can take an event over its capacity: the
      excess is at most the rows imported into it. */
  lemma {:induction false} ExcessIsImported(start: Db, actions: seq<Action>, e: EventId)
    ensures Bounded(Run(start, actions), start, e)
  {
    if |actions| > 0 {
      ExcessIsImported(start, actions[..|actions| - 1], e);
      StepKeepsBound(Run(start, actions[..|actions| - 1]), actions[|actions| - 1], start, e);
    }
  }

  // ----- events into which nothing is imported

  predicate ImportsElsewhere(actions: seq<Action>, e: EventId) {
    forall i :: 0 <= i < |actions| ==> !(actions[i].BeginImport? && actions[i].event == e)
  }

  ghost predicate NoImporter(calls: map<CallId, Call>, e: EventId) {
    forall c :: c in calls && calls[c].Importing? ==> calls[c].event != e
  }

  lemma StepImportsNothing(s: State, a: Action, e: EventId)
    requires NoImporter(s.calls, e) && !(a.BeginImport? && a.event == e)
    ensures NoImporter(Apply(s, a).calls, e) && ImportedInto(Apply(s, a).db.regs, e) == ImportedInto(s.db.regs, e)
  {
    if a.Attempt? {
      if a.call in s.calls && s.calls[a.call].Attempting? {
        ImportedAppends(s.db.regs, FreeRegistration(s.calls[a.call].req, a.code, a.confirmation), e);
      }
    } else if a.CommitNextBatch? {
      if a.call in s.calls && s.calls[a.call].Importing? {
        var c := s.calls[a.call];
        BatchKeeps(s.db, c.event, c.entries, c.next, a.faults);
        BatchCounts(Apply(s, a).db.regs, s.db.regs, c.event, e);
      }
    } else {
      QuietStepKeepsDb(s, a);
    }
  }

  lemma {:induction false} NothingImported(start: Db, actions: seq<Action>, e: EventId)
    requires ImportsElsewhere(actions, e)
    ensures var s := Run(start, actions); NoImporter(s.calls, e) && ImportedInto(s.db.regs, e) == ImportedInto(start.regs, e)
  {
    if |actions| > 0 {
      var n := |actions| - 1;
      forall i | 0 <= i < n ensures !(actions[..n][i].BeginImport? && actions[..n][i].event == e) {
        assert actions[..n][i] == actions[i];
      }
      NothingImported(start, actions[..n], e);
      StepImportsNothing(Run(start, actions[..n]), actions[n], e);
    }
  }

  /** However many free registrations interleave, and whatever is imported into other events, an event that
      starts within its capacity stays within it. */
  lemma EventNeverOverbooked(start: Db, actions: seq<Action>, e: EventId)
    requires ImportsElsewhere(actions, e)
    requires CapacityOf(start, e).Some? && Active(start.regs, e) <= CapacityOf(start, e).value
    ensures CapacityOf(Run(start, actions).db, e) == CapacityOf(start, e)
    ensures Active(Run(start, actions).db.regs, e) <= CapacityOf(start, e).value
  {
    ExcessIsImported(start, actions, e);
    NothingImported(start, actions, e);
  }

  // ----- events into which something is imported

  /** Before a batch into `e` commits there is a seat left for every email it can register. */
  predicate SeatsForBatch(s: State, a: Action, e: EventId, capacity: nat) {
    a.CommitNextBatch? && a.call in s.calls && s.calls[a.call].Importing? && s.calls[a.call].event == e ==>
      var c := s.calls[a.call];
      |EligibleEmails(s.db, e, BatchOf(c.entries, c.next), ClaimedTypes(c.entries))| <= capacity - Active(s.db.regs, e)
  }

  lemma BatchIsWellTyped(entries: seq<Entry>, k: nat)
    ensures forall x :: x in BatchOf(entries, k) ==> WellTyped(x, ClaimedTypes(entries))
  {
    forall x | x in BatchOf(entries, k) ensures WellTyped(x, ClaimedTypes(entries)) { assert x in entries; }
  }

  lemma StepStaysWithin(s: State, a: Action, e: EventId, capacity: nat)
    requires CapacityOf(s.db, e) == Some(capacity) && Active(s.db.regs, e) <= capacity && SeatsForBatch(s, a, e, capacity)
    ensures Active(Apply(s, a).db.regs, e) <= capacity
  {
    if a.Attempt? {
      if a.call in s.calls && s.calls[a.call].Attempting? {
        ActiveAppends(s.db.regs, FreeRegistration(s.calls[a.call].req, a.code, a.confirmation), e);
      }
    } else if a.CommitNextBatch? {
      if a.call in s.calls && s.calls[a.call].Importing? {
        var c := s.calls[a.call];
        BatchKeeps(s.db, c.event, c.entries, c.next, a.faults);
        BatchCounts(Apply(s, a).db.regs, s.db.regs, c.event, e);
        BatchIsWellTyped(c.entries, c.next);
        BatchTakesAtMost(s.db, c.event, BatchOf(c.entries, c.next), ClaimedTypes(c.entries), a.faults);
      }
    } else {
      QuietStepKeepsDb(s, a);
    }
  }

  lemma SomeFaultsOverbook(s: State, a: Action, e: EventId, capacity: nat) returns (faults: BatchFaults)
    requires !SeatsForBatch(s, a, e, capacity)
    ensures Active(Apply(s, CommitNextBatch(a.call, faults)).db.regs, e) > capacity
  {
    var c := s.calls[a.call];
    BatchIsWellTyped(c.entries, c.next);
    faults := BatchMayTake(s.db, c.event, BatchOf(c.entries, c.next), ClaimedTypes(c.entries));
  }

  /** Two runs that differ in nothing but which statements of their import batches fail and which codes those draw. */
  predicate SameButFaults(a: seq<Action>, b: seq<Action>) {
    |a| == |b| && forall k :: 0 <= k < |a| ==> SameStep(a[k], b[k])
  }

  predicate SameStep(a: Action, b: Action) {
    a == b || (a.CommitNextBatch? && b.CommitNextBatch? && a.call == b.call)
  }

  ghost predicate WithinAt(start: Db, actions: seq<Action>, k: nat, e: EventId, capacity: nat)
    requires k <= |actions|
  {
    Active(Run(start, actions[..k]).db.regs, e) <= capacity
  }

  ghost predicate SeatsAt(start: Db, actions: seq<Action>, k: nat, e: EventId, capacity: nat)
    requires k < |actions|
  {
    SeatsForBatch(Run(start, actions[..k]), actions[k], e, capacity)
  }

  ghost predicate WithinThroughout(start: Db, actions: seq<Action>, e: EventId, capacity: nat) {
    forall k: nat :: k <= |actions| ==> WithinAt(start, actions, k, e, capacity)
  }

  ghost predicate SeatsThroughout(start: Db, actions: seq<Action>, e: EventId, capacity: nat) {
    forall k: nat :: k < |actions| ==> SeatsAt(start, actions, k, e, capacity)
  }

  lemma RunStep(start: Db, actions: seq<Action>, k: nat)
    requires k < |actions|
    ensures Run(start, actions[..k + 1]) == Apply(Run(start, actions[..k]), actions[k])
  {
    assert actions[..k + 1][..k] == actions[..k];
  }

  /** With a seat for every email a batch can register, an event within its capacity stays within it. */
  lemma {:induction false} SeatsKeepWithin(start: Db, actions: seq<Action>, k: nat, e: EventId, capacity: nat)
    requires CapacityOf(start, e) == Some(capacity) && Active(start.regs, e) <= capacity
    requires SeatsThroughout(start, actions, e, capacity) && k <= |actions|
    ensures WithinAt(start, actions, k, e, capacity)
    decreases k
  {
    if k == 0 {
      assert actions[..0] == [];
    } else {
      SeatsKeepWithin(start, actions, k - 1, e, capacity);
      ExcessIsImported(start, actions[..k - 1], e);
      assert SeatsAt(start, actions, k - 1, e, capacity);
      StepStaysWithin(Run(start, actions[..k - 1]), actions[k - 1], e, capacity);
      RunStep(start, actions, k - 1);
    }
  }

  /** Without one, the same run with other faults overbooks the event. */
  lemma MissingSeatOverbooks(start: Db, actions: seq<Action>, k: nat, e: EventId, capacity: nat) returns (other: seq<Action>)
    requires k < |actions| && !SeatsAt(start, actions, k, e, capacity)
    ensures SameButFaults(actions, other) && !WithinAt(start, other, k + 1, e, capacity)
  {
    var s := Run(start, actions[..k]);
    var faults := SomeFaultsOverbook(s, actions[k], e, capacity);
    other := actions[k := CommitNextBatch(actions[k].call, faults)];
    assert other[..k] == actions[..k];
    RunStep(start, other, k);
  }

  /** An event that starts within its capacity stays within it at every point, whatever statements of import
      batches fail and whatever codes they draw, exactly when before every batch into it, under any such
      faults, there is a seat left for every email the batch can register. Free registrations never matter. */
  lemma WithinCapacityIff(start: Db, schedule: seq<Action>, e: EventId, capacity: nat)
    requires CapacityOf(start, e) == Some(capacity) && Active(start.regs, e) <= capacity
    ensures (forall actions :: SameButFaults(schedule, actions) ==> WithinThroughout(start, actions, e, capacity))
       <==> (forall actions :: SameButFaults(schedule, actions) ==> SeatsThroughout(start, actions, e, capacity))
  {
    if forall actions :: SameButFaults(schedule, actions) ==> SeatsThroughout(start, actions, e, capacity) {
      forall actions | SameButFaults(schedule, actions) ensures WithinThroughout(start, actions, e, capacity) {
        forall k: nat | k <= |actions| ensures WithinAt(start, actions, k, e, capacity) {
          SeatsKeepWithin(start, actions, k, e, capacity);
        }
      }
    } else {
      var actions :| SameButFaults(schedule, actions) && !SeatsThroughout(start, actions, e, capacity);
      var k: nat :| k < |actions| && !SeatsAt(start, actions, k, e, capacity);
      var other := MissingSeatOverbooks(start, actions, k, e, capacity);
      FaultsCompose(schedule, actions, other);
      assert !WithinThroughout(start, other, e, capacity);
    }
  }

  lemma FaultsCompose(a: seq<Action>, b: seq<Action>, c: seq<Action>)
    requires SameButFaults(a, b) && SameButFaults(b, c)
    ensures SameButFaults(a, c)
  {
    forall k | 0 <= k < |a| ensures SameStep(a[k], c[k]) {
      assert SameStep(a[k], b[k]) && SameStep(b[k], c[k]);
    }
  }
}
