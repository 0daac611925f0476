/** Ticket codes in runs of free registrations and imports. */
module AllocationCodes {
  import opened Wrappers
  import opened Allocation
  import opened ImportCommit
  import opened ImportService
  import opened AllocationRuns
  import opened EventCapacity

  /** The registrations since the first `base` have codes of their own: stored, not stored at the start, and no
      two of an event alike. */
  ghost predicate OwnCodes(regs: seq<Registration>, base: nat, codes: set<(EventId, nat)>, start: set<(EventId, nat)>) {
    && (forall i :: base <= i < |regs| ==> (regs[i].event, regs[i].code) in codes && (regs[i].event, regs[i].code) !in start)
    && (forall i, j :: base <= i < j < |regs| ==> (regs[i].event, regs[i].code) != (regs[j].event, regs[j].code))
  }

  /** At most one registration more, with a code that was not stored; no code is lost, and new ones are of `event`. */
  ghost predicate OneCodeMore(after: Db, before: Db, event: EventId) {
    && before.codes <= after.codes
    && (forall c :: c in after.codes && c !in before.codes ==> c.0 == event)
    && (|| after.regs == before.regs
        || (&& |after.regs| == |before.regs| + 1
            && var r := after.regs[|before.regs|];
               && after.regs == before.regs + [r] && r.event == event
               && (event, r.code) !in before.codes && (event, r.code) in after.codes))
  }

  lemma OwnCodesNext(after: Db, before: Db, event: EventId, base: nat, start: set<(EventId, nat)>)
    requires OneCodeMore(after, before, event) && start <= before.codes
    requires OwnCodes(before.regs, base, before.codes, start)
    ensures OwnCodes(after.regs, base, after.codes, start)
  {
  }

  lemma SettledCodes(db: Db, event: EventId, entry: Entry, claimed: Option<TypeId>, f: RowFaults)
    ensures OneCodeMore(Settled(db, event, entry, claimed, f).db, db, event)
  {
  }

  lemma RowCodes(db: Db, event: EventId, entry: Entry, claimable: set<TypeId>, f: RowFaults)
    ensures var r := CommitRow(db, event, entry, claimable, f);
            r.RowDone? ==> OneCodeMore(r.db, db, event)
  {
    var claims := entry.ticketType.Some? && entry.ticketType.value in claimable && entry.ticketType.value in db.types;
    SettledCodes(if claims then db.(types := WithSold(db.types, entry.ticketType.value, 1)) else db,
                 event, entry, if claims then entry.ticketType else None, f);
  }

  /** Over a batch: no code is lost, new ones are of its event, and its registrations have their own. */
  lemma {:induction false} ProgressCodes(db: Db, event: EventId, entries: seq<Entry>, claimable: set<TypeId>, faults: seq<RowFaults>,
                                         base: nat, start: set<(EventId, nat)>) returns (p: Progress)
    requires start <= db.codes && OwnCodes(db.regs, base, db.codes, start)
    ensures p == BatchProgress(db, event, entries, claimable, faults)
    ensures db.codes <= p.db.codes && forall c :: c in p.db.codes && c !in db.codes ==> c.0 == event
    ensures OwnCodes(p.db.regs, base, p.db.codes, start)
  {
    if |entries| == 0 {
      p := Progress(db, [], [], [], false);
    } else {
      var n := |entries| - 1;
      var q := ProgressCodes(db, event, entries[..n], claimable, faults, base, start);
      p := RowStep(q, event, entries[n], claimable, FaultsAt(faults, n));
      StepCodes(q, event, entries[n], claimable, FaultsAt(faults, n), base, start);
    }
  }

  lemma StepCodes(q: Progress, event: EventId, entry: Entry, claimable: set<TypeId>, f: RowFaults, base: nat, start: set<(EventId, nat)>)
    requires start <= q.db.codes && OwnCodes(q.db.regs, base, q.db.codes, start)
    ensures var p := RowStep(q, event, entry, claimable, f);
            && q.db.codes <= p.db.codes && (forall c :: c in p.db.codes && c !in q.db.codes ==> c.0 == event)
            && OwnCodes(p.db.regs, base, p.db.codes, start)
  {
    if !q.thrown {
      var r := CommitRow(q.db, event, entry, claimable, f);
      RowCodes(q.db, event, entry, claimable, f);
      if r.RowDone? { OwnCodesNext(r.db, q.db, event, base, start); }
    }
  }

  ghost predicate CodesWell(s: State, start: Db) {
    start.codes <= s.db.codes && OwnCodes(s.db.regs, |start.regs|, s.db.codes, start.codes)
  }

  /** Every new code of the event is the code of a new registration. */
  ghost predicate CodesMatch(s: State, start: Db, e: EventId) {
    forall c: nat :: (e, c) in s.db.codes && (e, c) !in start.codes ==> HasCode(s.db.regs, |start.regs|, e, c)
  }

  predicate HasCode(regs: seq<Registration>, base: nat, e: EventId, c: nat) {
    exists i :: base <= i < |regs| && regs[i].event == e && regs[i].code == c
  }

  lemma AttemptCodes(s: State, call: CallId, code: nat, confirmation: nat, fails: bool, start: Db)
    requires CodesWell(s, start)
    ensures CodesWell(DoAttempt(s, call, code, confirmation, fails), start)
  {
    var n := DoAttempt(s, call, code, confirmation, fails);
    if n.db != s.db { OwnCodesNext(n.db, s.db, s.calls[call].req.event, |start.regs|, start.codes); }
  }

  lemma AttemptMatches(s: State, call: CallId, code: nat, confirmation: nat, fails: bool, start: Db, e: EventId)
    requires CodesMatch(s, start, e) && |start.regs| <= |s.db.regs|
    ensures CodesMatch(DoAttempt(s, call, code, confirmation, fails), start, e)
    ensures |start.regs| <= |DoAttempt(s, call, code, confirmation, fails).db.regs|
  {
    var n := DoAttempt(s, call, code, confirmation, fails);
    if n.db != s.db {
      forall c: nat | (e, c) in n.db.codes && (e, c) !in start.codes ensures HasCode(n.db.regs, |start.regs|, e, c) {
        if (e, c) in s.db.codes {
          assert HasCode(s.db.regs, |start.regs|, e, c);
          var i :| |start.regs| <= i < |s.db.regs| && s.db.regs[i].event == e && s.db.regs[i].code == c;
          assert n.db.regs[i] == s.db.regs[i];
        } else {
          assert n.db.regs[|s.db.regs|].event == e && n.db.regs[|s.db.regs|].code == c;
        }
      }
    }
  }

  lemma BatchCodes(s: State, call: CallId, faults: BatchFaults, start: Db)
    requires CodesWell(s, start)
    ensures var n := DoCommitNextBatch(s, call, faults);
            && CodesWell(n, start)
            && forall c :: c in n.db.codes && c !in s.db.codes ==> call in s.calls && s.calls[call].Importing? && c.0 == s.calls[call].event
  {
    if call in s.calls && s.calls[call].Importing? {
      var c := s.calls[call];
      var p := ProgressCodes(s.db, c.event, BatchOf(c.entries, c.next), ClaimedTypes(c.entries), faults.rows, |start.regs|, start.codes);
    }
  }

  lemma BatchMatches(s: State, call: CallId, faults: BatchFaults, start: Db, e: EventId)
    requires CodesWell(s, start) && CodesMatch(s, start, e) && |start.regs| <= |s.db.regs| && NoImporter(s.calls, e)
    ensures CodesMatch(DoCommitNextBatch(s, call, faults), start, e) && |start.regs| <= |DoCommitNextBatch(s, call, faults).db.regs|
  {
    BatchCodes(s, call, faults, start);
    var n := DoCommitNextBatch(s, call, faults);
    if call in s.calls && s.calls[call].Importing? {
      BatchKeeps(s.db, s.calls[call].event, s.calls[call].entries, s.calls[call].next, faults);
      forall c: nat | (e, c) in n.db.codes && (e, c) !in start.codes ensures HasCode(n.db.regs, |start.regs|, e, c) {
        assert HasCode(s.db.regs, |start.regs|, e, c);
        var i :| |start.regs| <= i < |s.db.regs| && s.db.regs[i].event == e && s.db.regs[i].code == c;
        assert n.db.regs[..|s.db.regs|][i] == n.db.regs[i];
      }
    }
  }

  lemma StepCodesWell(s: State, a: Action, start: Db)
    requires CodesWell(s, start)
    ensures CodesWell(Apply(s, a), start)
  {
    if a.Attempt? {
      AttemptCodes(s, a.call, a.code, a.confirmation, a.fails, start);
    } else if a.CommitNextBatch? {
      BatchCodes(s, a.call, a.faults, start);
    } else {
      QuietStepKeepsDb(s, a);
    }
  }

  /** In every run, every registration made, free or imported, has a ticket code of its own that was not there
      before, and no stored code disappears. */
  lemma {:induction false} EveryRegistrationHasItsCode(start: Db, actions: seq<Action>)
    ensures var s := Run(start, actions);
            start.codes <= s.db.codes && OwnCodes(s.db.regs, |start.regs|, s.db.codes, start.codes)
  {
    if |actions| > 0 {
      EveryRegistrationHasItsCode(start, actions[..|actions| - 1]);
      StepCodesWell(Run(start, actions[..|actions| - 1]), actions[|actions| - 1], start);
    }
  }

  /** For an event into which nothing is imported the new codes are exactly those of the new registrations: a
      free call that registers leaves one code, a call that fails leaves none. */
  lemma {:induction false} FreeCallsMakeOneCodeOrNone(start: Db, actions: seq<Action>, e: EventId)
    requires ImportsElsewhere(actions, e)
    ensures var s := Run(start, actions);
            && CodesMatch(s, start, e) && |start.regs| <= |s.db.regs| && NoImporter(s.calls, e)
  {
    if |actions| > 0 {
      var n := |actions| - 1;
      var front := actions[..n];
      assert forall i :: 0 <= i < n ==> front[i] == actions[i];
      FreeCallsMakeOneCodeOrNone(start, front, e);
      EveryRegistrationHasItsCode(start, front);
      var s := Run(start, front);
      var a := actions[n];
      StepImportsNothing(s, a, e);
      if a.Attempt? {
        AttemptMatches(s, a.call, a.code, a.confirmation, a.fails, start, e);
      } else if a.CommitNextBatch? {
        BatchMatches(s, a.call, a.faults, start, e);
      } else {
        QuietStepKeepsDb(s, a);
      }
    }
  }
}
