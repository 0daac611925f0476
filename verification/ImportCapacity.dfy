/** How many rows a batch can register at most, told before it runs: the seats an event needs for it. */
module ImportCapacity {
  import opened Wrappers
  import opened Allocation
  import opened ImportCommit
  import opened ImportService
  import opened AllocationRuns

  /** The row can be registered if its statements work: its email is free, its type exists, and if the row has
      to claim a seat of that type there is one. */
  predicate Eligible(db: Db, event: EventId, entry: Entry, claimable: set<TypeId>) {
    && !EmailTaken(db.regs, event, entry.email)
    && (entry.ticketType.Some? ==> entry.ticketType.value in db.types)
    && (entry.ticketType.Some? && entry.ticketType.value in claimable && entry.ticketType.value in db.types ==>
          HasRoom(db.types[entry.ticketType.value].capacity, db.types[entry.ticketType.value].sold))
  }

  /** Each email counts once, since the first row registered under it takes it. */
  function EligibleEmails(db: Db, event: EventId, entries: seq<Entry>, claimable: set<TypeId>): set<string> {
    if |entries| == 0 then {}
    else
      var last := entries[|entries| - 1];
      EligibleEmails(db, event, entries[..|entries| - 1], claimable) + if Eligible(db, event, last, claimable) then {last.email} else {}
  }

  /** The emails registered since the first `base` registrations. */
  function NewEmails(regs: seq<Registration>, base: nat): set<string> {
    set i | base <= i < |regs| :: regs[i].email
  }

  // ----- no faults can register more

  lemma RegisteredWasEligible(db: Db, event: EventId, entry: Entry, claimable: set<TypeId>, f: RowFaults)
    ensures var r := CommitRow(db, event, entry, claimable, f);
            r.RowDone? && r.db.regs != db.regs ==> Eligible(db, event, entry, claimable)
  {
  }

  /** Later in the batch nothing becomes eligible: emails stay taken and counters do not fall below the start. */
  lemma EligibleBefore(db: Db, before: Db, event: EventId, entry: Entry, claimable: set<TypeId>)
    requires |before.regs| <= |db.regs| && db.regs[..|before.regs|] == before.regs
    requires db.types.Keys == before.types.Keys
    requires forall t :: t in db.types ==> db.types[t].capacity == before.types[t].capacity && db.types[t].sold >= before.types[t].sold
    ensures Eligible(db, event, entry, claimable) ==> Eligible(before, event, entry, claimable)
  {
    if EmailTaken(before.regs, event, entry.email) {
      var i :| 0 <= i < |before.regs| && before.regs[i].event == event && before.regs[i].email == entry.email;
      assert db.regs[i] == before.regs[i];
      assert EmailTaken(db.regs, event, entry.email);
    }
  }

  /** As many emails as registrations are new, and all of them were eligible at the start. */
  ghost predicate WithinEligible(regs: seq<Registration>, base: nat, event: EventId, emails: set<string>) {
    && base <= |regs| && |NewEmails(regs, base)| == |regs| - base
    && NewEmails(regs, base) <= emails
    && forall i :: base <= i < |regs| ==> regs[i].event == event
  }

  lemma OneMoreEmail(regs: seq<Registration>, base: nat, event: EventId, reg: Registration, emails: set<string>)
    requires WithinEligible(regs, base, event, emails) && reg.event == event && !EmailTaken(regs, event, reg.email) && reg.email in emails
    ensures WithinEligible(regs + [reg], base, event, emails)
    ensures NewEmails(regs + [reg], base) == NewEmails(regs, base) + {reg.email}
  {
    var more := regs + [reg];
    forall email ensures email in NewEmails(more, base) <==> email in NewEmails(regs, base) + {reg.email} {
      if email in NewEmails(regs, base) {
        var i :| base <= i < |regs| && regs[i].email == email;
        assert more[i].email == email;
      }
      if email == reg.email { assert more[|regs|].email == email; }
    }
    assert NewEmails(more, base) == NewEmails(regs, base) + {reg.email};
    assert reg.email !in NewEmails(regs, base);
  }

  lemma {:induction false} NoMoreThanEligible(db: Db, event: EventId, entries: seq<Entry>, claimable: set<TypeId>, faults: seq<RowFaults>)
    requires forall e :: e in entries ==> WellTyped(e, claimable)
    ensures WithinEligible(BatchProgress(db, event, entries, claimable, faults).db.regs, |db.regs|, event,
                           EligibleEmails(db, event, entries, claimable))
  {
    if |entries| == 0 {
      assert NewEmails(db.regs, |db.regs|) == {};
    } else {
      var n := |entries| - 1;
      NoMoreThanEligible(db, event, entries[..n], claimable, faults);
      var p := BatchProgress(db, event, entries[..n], claimable, faults);
      ProgressKeeps(db, event, entries[..n], claimable, faults);
      RowWithinEligible(p, db, event, entries[n], claimable, FaultsAt(faults, n),
                        EligibleEmails(db, event, entries[..n], claimable), EligibleEmails(db, event, entries, claimable));
    }
  }

  lemma RowWithinEligible(p: Progress, db: Db, event: EventId, entry: Entry, claimable: set<TypeId>, f: RowFaults, emails: set<string>, more: set<string>)
    requires WithinEligible(p.db.regs, |db.regs|, event, emails) && Kept(p.db, db, event, p.ok, p.leaked)
    requires more == emails + if Eligible(db, event, entry, claimable) then {entry.email} else {}
    ensures WithinEligible(RowStep(p, event, entry, claimable, f).db.regs, |db.regs|, event, more)
  {
    if !p.thrown {
      var r := CommitRow(p.db, event, entry, claimable, f);
      if r.RowDone? {
        RowRegs(p.db, event, entry, claimable, f);
        RegisteredWasEligible(p.db, event, entry, claimable, f);
        EligibleBefore(p.db, db, event, entry, claimable);
        if r.db.regs != p.db.regs {
          OneMoreEmail(p.db.regs, |db.regs|, event, r.db.regs[|p.db.regs|], more);
        }
      }
    }
  }

  // ----- and some faults register as many

  /** Every row draws a new code and fails at its token, which leaves its registration and gives its seat back. */
  function WorstRow(code: nat): RowFaults {
    RowFaults(false, false, [Drawn(code)], false, true, false, false)
  }

  function WorstRows(base: nat, n: nat): (rows: seq<RowFaults>)
    ensures |rows| == n && forall k :: 0 <= k < n ==> rows[k] == WorstRow(base + k)
  {
    if n == 0 then [] else WorstRows(base, n - 1) + [WorstRow(base + n - 1)]
  }

  ghost predicate CodesBelow(codes: set<(EventId, nat)>, bound: nat) {
    forall c :: c in codes ==> c.1 < bound
  }

  lemma {:induction false} FreeCode(codes: set<(EventId, nat)>) returns (base: nat)
    ensures CodesBelow(codes, base)
    decreases |codes|
  {
    if codes == {} {
      base := 0;
    } else {
      var c :| c in codes;
      var rest := FreeCode(codes - {c});
      base := if c.1 < rest then rest else c.1 + 1;
      assert forall d :: d in codes ==> d == c || d in codes - {c};
    }
  }

  /** What a row of the worst batch does. */
  lemma WorstRowRuns(db: Db, event: EventId, entry: Entry, claimable: set<TypeId>, code: nat)
    requires CodesBelow(db.codes, code)
    ensures var r := CommitRow(db, event, entry, claimable, WorstRow(code));
            && r.RowDone? && !r.ok && r.db.types == db.types && CodesBelow(r.db.codes, code + 1)
            && r.db.regs == if Eligible(db, event, entry, claimable) then db.regs + [ImportedRegistration(event, entry, code)] else db.regs
  {
    var f := WorstRow(code);
    assert TakeCode(db.codes, event, f.draws, 0) == Some(code);
    var claims := entry.ticketType.Some? && entry.ticketType.value in claimable && entry.ticketType.value in db.types;
    if claims {
      var t := entry.ticketType.value;
      assert WithSold(WithSold(db.types, t, 1), t, -1) == db.types;
    }
  }

  /** With the same types and these emails new, a row is eligible exactly when it was and its email is not among them. */
  lemma EligibleNow(db: Db, before: Db, event: EventId, entry: Entry, claimable: set<TypeId>)
    requires |before.regs| <= |db.regs| && db.regs[..|before.regs|] == before.regs && db.types == before.types
    requires forall i :: |before.regs| <= i < |db.regs| ==> db.regs[i].event == event
    ensures Eligible(db, event, entry, claimable) <==>
              Eligible(before, event, entry, claimable) && entry.email !in NewEmails(db.regs, |before.regs|)
  {
    EligibleBefore(db, before, event, entry, claimable);
    if EmailTaken(db.regs, event, entry.email) {
      var i :| 0 <= i < |db.regs| && db.regs[i].event == event && db.regs[i].email == entry.email;
      if i < |before.regs| { assert before.regs[i] == db.regs[i]; }
    }
    if entry.email in NewEmails(db.regs, |before.regs|) {
      var i :| |before.regs| <= i < |db.regs| && db.regs[i].email == entry.email;
      assert EmailTaken(db.regs, event, entry.email);
    }
  }

  ghost predicate Worst(p: Progress, db: Db, event: EventId, emails: set<string>, code: nat) {
    && !p.thrown && p.db.types == db.types && CodesBelow(p.db.codes, code)
    && |db.regs| <= |p.db.regs| && p.db.regs[..|db.regs|] == db.regs
    && WithinEligible(p.db.regs, |db.regs|, event, emails) && NewEmails(p.db.regs, |db.regs|) == emails
  }

  lemma WorstStep(p: Progress, db: Db, event: EventId, entry: Entry, claimable: set<TypeId>, emails: set<string>, code: nat, f: RowFaults)
    requires Worst(p, db, event, emails, code) && f == WorstRow(code)
    ensures Worst(RowStep(p, event, entry, claimable, f), db, event,
                  emails + if Eligible(db, event, entry, claimable) then {entry.email} else {}, code + 1)
  {
    WorstRowRuns(p.db, event, entry, claimable, code);
    EligibleNow(p.db, db, event, entry, claimable);
    if Eligible(p.db, event, entry, claimable) {
      OneMoreEmail(p.db.regs, |db.regs|, event, ImportedRegistration(event, entry, code), emails + {entry.email});
    } else if Eligible(db, event, entry, claimable) {
      assert emails + {entry.email} == emails;
    }
  }

  ghost predicate WorstScript(rows: seq<RowFaults>, base: nat) {
    forall k: nat :: k < |rows| ==> rows[k] == WorstRow(base + k)
  }

  ghost predicate WorstAfter(db: Db, event: EventId, entries: seq<Entry>, claimable: set<TypeId>, rows: seq<RowFaults>, base: nat) {
    Worst(BatchProgress(db, event, entries, claimable, rows), db, event, EligibleEmails(db, event, entries, claimable), base + |entries|)
  }

  lemma WorstBegins(db: Db, event: EventId, claimable: set<TypeId>, rows: seq<RowFaults>, base: nat)
    requires CodesBelow(db.codes, base)
    ensures WorstAfter(db, event, [], claimable, rows, base)
  {
    assert NewEmails(db.regs, |db.regs|) == {};
  }

  lemma WorstGoesOn(db: Db, event: EventId, front: seq<Entry>, last: Entry, claimable: set<TypeId>, rows: seq<RowFaults>, base: nat)
    requires |front| < |rows| && WorstScript(rows, base) && WorstAfter(db, event, front, claimable, rows, base)
    ensures WorstAfter(db, event, front + [last], claimable, rows, base)
  {
    var p := BatchProgress(db, event, front, claimable, rows);
    WorstStep(p, db, event, last, claimable, EligibleEmails(db, event, front, claimable), base + |front|, FaultsAt(rows, |front|));
    ProgressAppends(db, event, front, last, claimable, rows);
    EligibleAppends(db, event, front, last, claimable);
  }

  lemma EligibleAppends(db: Db, event: EventId, front: seq<Entry>, last: Entry, claimable: set<TypeId>)
    ensures EligibleEmails(db, event, front + [last], claimable)
         == EligibleEmails(db, event, front, claimable) + if Eligible(db, event, last, claimable) then {last.email} else {}
  {
    assert (front + [last])[..|front|] == front;
  }

  lemma {:induction false} WorstBatch(db: Db, event: EventId, entries: seq<Entry>, claimable: set<TypeId>, rows: seq<RowFaults>, base: nat)
    requires CodesBelow(db.codes, base) && |rows| >= |entries| && WorstScript(rows, base)
    ensures WorstAfter(db, event, entries, claimable, rows, base)
  {
    if |entries| == 0 {
      WorstBegins(db, event, claimable, rows, base);
      assert entries == [];
    } else {
      var front, last := entries[..|entries| - 1], entries[|entries| - 1];
      WorstBatch(db, event, front, claimable, rows, base);
      WorstGoesOn(db, event, front, last, claimable, rows, base);
      assert entries == front + [last];
    }
  }

  // ----- the batch as a whole

  lemma ActiveGrows(regs: seq<Registration>, before: seq<Registration>, event: EventId)
    requires OnlyImported(regs, before, event)
    ensures Active(regs, event) == Active(before, event) + |regs| - |before|
  {
    ImportedCounts(regs, before, event, "", event);
  }

  lemma BatchTakesAtMost(db: Db, event: EventId, entries: seq<Entry>, claimable: set<TypeId>, f: BatchFaults)
    requires forall e :: e in entries ==> WellTyped(e, claimable)
    ensures Active(RunBatch(db, event, entries, claimable, f).db.regs, event)
         <= Active(db.regs, event) + |EligibleEmails(db, event, entries, claimable)|
  {
    NoMoreThanEligible(db, event, entries, claimable, f.rows);
    ProgressKeeps(db, event, entries, claimable, f.rows);
    var regs := BatchProgress(db, event, entries, claimable, f.rows).db.regs;
    ActiveGrows(regs, db.regs, event);
    Fewer(NewEmails(regs, |db.regs|), EligibleEmails(db, event, entries, claimable));
  }

  lemma {:induction false} Fewer(a: set<string>, b: set<string>)
    requires a <= b
    ensures |a| <= |b|
    decreases |a|
  {
    if a != {} {
      var x :| x in a;
      Fewer(a - {x}, b - {x});
    }
  }

  lemma BatchMayTake(db: Db, event: EventId, entries: seq<Entry>, claimable: set<TypeId>) returns (f: BatchFaults)
    requires forall e :: e in entries ==> WellTyped(e, claimable)
    ensures Active(RunBatch(db, event, entries, claimable, f).db.regs, event)
         == Active(db.regs, event) + |EligibleEmails(db, event, entries, claimable)|
  {
    var base := FreeCode(db.codes);
    f := BatchFaults(WorstRows(base, |entries|), false);
    WorstBatch(db, event, entries, claimable, f.rows, base);
    ProgressKeeps(db, event, entries, claimable, f.rows);
    ActiveGrows(BatchProgress(db, event, entries, claimable, f.rows).db.regs, db.regs, event);
  }

  /** Whatever fails, a batch keeps its event within capacity exactly when the event has a seat left for every
      email the batch can register. */
  lemma BatchFitsIff(db: Db, event: EventId, entries: seq<Entry>, claimable: set<TypeId>, capacity: int)
    requires forall e :: e in entries ==> WellTyped(e, claimable)
    ensures (forall f: BatchFaults :: Active(RunBatch(db, event, entries, claimable, f).db.regs, event) <= capacity)
            <==> |EligibleEmails(db, event, entries, claimable)| <= capacity - Active(db.regs, event)
  {
    var worst := BatchMayTake(db, event, entries, claimable);
    forall f: BatchFaults
      ensures Active(RunBatch(db, event, entries, claimable, f).db.regs, event)
           <= Active(db.regs, event) + |EligibleEmails(db, event, entries, claimable)|
    {
      BatchTakesAtMost(db, event, entries, claimable, f);
    }
  }
}
