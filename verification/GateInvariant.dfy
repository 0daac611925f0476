/** What every step of every interleaving keeps at the gate, locks or no locks. */
module GateInvariant {
  import opened Wrappers
  import opened GateModel

  ghost predicate RowsWell(regs: seq<Attendee>, checkIns: seq<CheckIn>) {
    forall i :: 0 <= i < |checkIns| ==> RowWell(regs, checkIns[i])
  }

  predicate RowWell(regs: seq<Attendee>, row: CheckIn) {
    && row.reg < |regs| && row.event == regs[row.reg].event && row.result == Valid
    && (row.live ==> regs[row.reg].status == Confirmed)
  }

  /** At most one check-in row per registration, hence per (event, registration). */
  ghost predicate RowsUnique(checkIns: seq<CheckIn>) {
    forall i, j :: 0 <= i < j < |checkIns| ==> checkIns[i].reg != checkIns[j].reg
  }

  ghost predicate TokensWell(regs: seq<Attendee>, tokens: map<RegId, QrToken>) {
    forall r :: r in tokens ==> r < |regs|
  }

  ghost predicate HasLive(checkIns: seq<CheckIn>, reg: RegId) {
    exists i :: 0 <= i < |checkIns| && checkIns[i].reg == reg && checkIns[i].live
  }

  ghost predicate RevokedIsLive(checkIns: seq<CheckIn>, tokens: map<RegId, QrToken>) {
    forall r :: r in tokens && tokens[r].revoked ==> HasLive(checkIns, r)
  }

  ghost predicate LogWell(checkIns: seq<CheckIn>, log: seq<LogEntry>) {
    forall k :: 0 <= k < |log| ==> log[k].id < |checkIns|
  }

  predicate ConfirmedAt(regs: seq<Attendee>, event: EventId, reg: RegId) {
    reg < |regs| && regs[reg].event == event && regs[reg].status == Confirmed
  }

  /** What a call has read stays true of the rows it named. */
  predicate CallWell(regs: seq<Attendee>, tokens: map<RegId, QrToken>, checkIns: seq<CheckIn>, c: Call) {
    match c
    case Resolving(event, token, reg, viaQr) => ConfirmedAt(regs, event, reg) && (if viaQr then reg in tokens else token == Uuid(reg))
    case Committing(event, token, reg, viaQr, existing) =>
      && ConfirmedAt(regs, event, reg) && (if viaQr then reg in tokens else token == Uuid(reg))
      && (existing.Some? ==> existing.value < |checkIns| && checkIns[existing.value].reg == reg)
    case Undoing(id) => id < |checkIns|
    case Rotating(reg, _) => reg in tokens
    case Reloading(reg) => reg in tokens
    case Recovered(reg, _) => reg in tokens
    case _ => true
  }

  ghost predicate CallsWell(regs: seq<Attendee>, tokens: map<RegId, QrToken>, checkIns: seq<CheckIn>, calls: map<CallId, Call>) {
    forall c :: c in calls ==> CallWell(regs, tokens, checkIns, calls[c])
  }

  ghost predicate DbInv(db: Db) {
    && RowsWell(db.regs, db.checkIns) && RowsUnique(db.checkIns)
    && TokensWell(db.regs, db.tokens) && RevokedIsLive(db.checkIns, db.tokens) && LogWell(db.checkIns, db.log)
  }

  ghost predicate Inv(s: State) {
    DbInv(s.db) && CallsWell(s.db.regs, s.db.tokens, s.db.checkIns, s.calls)
  }

  // ----- the transactions

  /** A later database: nothing is deleted, events never change, a confirmed registration stays confirmed. */
  ghost predicate Grows(a: Db, b: Db) {
    && |a.regs| <= |b.regs| && |a.checkIns| <= |b.checkIns| && a.tokens.Keys <= b.tokens.Keys
    && (forall r :: 0 <= r < |a.regs| ==> RegGrows(a.regs[r], b.regs[r]))
    && (forall i :: 0 <= i < |a.checkIns| ==> b.checkIns[i].reg == a.checkIns[i].reg && b.checkIns[i].event == a.checkIns[i].event)
  }

  predicate RegGrows(a: Attendee, b: Attendee) {
    b.event == a.event && b.ticketType == a.ticketType && (a.status == Confirmed ==> b.status == Confirmed)
  }

  lemma CallsSurvive(a: Db, b: Db, calls: map<CallId, Call>)
    requires Grows(a, b) && CallsWell(a.regs, a.tokens, a.checkIns, calls)
    ensures CallsWell(b.regs, b.tokens, b.checkIns, calls)
  {
    forall c | c in calls ensures CallWell(b.regs, b.tokens, b.checkIns, calls[c]) {
      assert CallWell(a.regs, a.tokens, a.checkIns, calls[c]);
      if calls[c].Resolving? || calls[c].Committing? {
        assert RegGrows(a.regs[calls[c].reg], b.regs[calls[c].reg]);
      }
    }
  }

  lemma CreateKeepsDbInv(db: Db, event: EventId, reg: RegId, viaQr: bool)
    requires DbInv(db) && ConfirmedAt(db.regs, event, reg)
    ensures var r := TxCreate(db, event, reg, viaQr);
            r.Some? ==> DbInv(r.value) && Grows(db, r.value)
  {
    var r := TxCreate(db, event, reg, viaQr);
    if r.Some? {
      forall i | 0 <= i < |db.checkIns| ensures db.checkIns[i].reg != reg {
        assert RowWell(db.regs, db.checkIns[i]);
      }
      RevokedStaysLive(db.checkIns, r.value.checkIns, db.tokens, r.value.tokens, reg, |db.checkIns|);
    }
  }

  /** Adding or setting live the row at `id` covers a token newly revoked for its registration. */
  lemma RevokedStaysLive(a: seq<CheckIn>, b: seq<CheckIn>, before: map<RegId, QrToken>, after: map<RegId, QrToken>, reg: RegId, id: nat)
    requires RevokedIsLive(a, before)
    requires |a| <= |b| && id < |b| && b[id].reg == reg && b[id].live
    requires forall i :: 0 <= i < |a| && a[i].live ==> b[i].live && b[i].reg == a[i].reg
    requires forall r :: r in after && r != reg ==> r in before && after[r].revoked == before[r].revoked
    ensures RevokedIsLive(b, after)
  {
    forall r | r in after && after[r].revoked ensures HasLive(b, r) {
      if r != reg {
        assert HasLive(a, r);
        var i :| 0 <= i < |a| && a[i].reg == r && a[i].live;
        assert b[i].reg == r && b[i].live;
      }
    }
  }

  lemma RestoreKeepsDbInv(db: Db, id: CheckInId, viaQr: bool)
    requires DbInv(db) && id < |db.checkIns|
    requires db.checkIns[id].reg < |db.regs| ==> db.regs[db.checkIns[id].reg].status == Confirmed
    ensures DbInv(TxRestore(db, id, viaQr)) && Grows(db, TxRestore(db, id, viaQr))
  {
    var db' := TxRestore(db, id, viaQr);
    assert RowWell(db.regs, db.checkIns[id]);
    RevokedStaysLive(db.checkIns, db'.checkIns, db.tokens, db'.tokens, db.checkIns[id].reg, id);
  }

  lemma UndoKeepsDbInv(db: Db, id: CheckInId)
    requires DbInv(db)
    ensures var r := TxUndo(db, id);
            r.Some? ==> DbInv(r.value) && Grows(db, r.value)
  {
    var r := TxUndo(db, id);
    if r.Some? {
      var reg := db.checkIns[id].reg;
      forall i | 0 <= i < |db.checkIns| ensures RowWell(r.value.regs, r.value.checkIns[i]) {
        assert RowWell(db.regs, db.checkIns[i]);
      }
      forall t | t in r.value.tokens && r.value.tokens[t].revoked ensures HasLive(r.value.checkIns, t) {
        assert t != reg && HasLive(db.checkIns, t);
        var i :| 0 <= i < |db.checkIns| && db.checkIns[i].reg == t && db.checkIns[i].live;
        assert r.value.checkIns[i].reg == t && r.value.checkIns[i].live;
      }
    }
  }

  // ----- the steps

  /** One call moves on while the rest of the state only grows. */
  lemma MovedKeepsInv(s: State, db: Db, call: CallId, next: Call, s': State)
    requires Inv(s) && DbInv(db) && Grows(s.db, db)
    requires s'.db == db && s'.calls == s.calls[call := next]
    requires CallWell(db.regs, db.tokens, db.checkIns, next)
    ensures Inv(s')
  {
    CallsSurvive(s.db, db, s.calls);
  }

  lemma GrowsSelf(db: Db)
    ensures Grows(db, db)
  {
  }

  lemma RegisterKeepsInv(s: State, event: EventId, status: Status, ticketType: Option<nat>)
    requires Inv(s)
    ensures Inv(DoRegister(s, event, status, ticketType))
  {
    var s' := DoRegister(s, event, status, ticketType);
    forall i | 0 <= i < |s.db.checkIns| ensures RowWell(s'.db.regs, s'.db.checkIns[i]) {
      assert RowWell(s.db.regs, s.db.checkIns[i]);
    }
    CallsSurvive(s.db, s'.db, s.calls);
  }

  lemma IssueKeepsInv(s: State, reg: RegId, stored: Stored, expiresAt: int)
    requires Inv(s)
    ensures Inv(DoIssueToken(s, reg, stored, expiresAt))
  {
    CallsSurvive(s.db, DoIssueToken(s, reg, stored, expiresAt).db, s.calls);
  }

  lemma ReadsKeepInv(s: State, a: Action)
    requires Inv(s)
    requires a.ReadToken? || a.ReadRegistration?
    ensures Inv(Apply(s, a))
  {
    GrowsSelf(s.db);
    if Apply(s, a) != s {
      MovedKeepsInv(s, s.db, a.call, Apply(s, a).calls[a.call], Apply(s, a));
    }
  }

  lemma ReadCheckInKeepsInv(s: State, call: CallId)
    requires Inv(s)
    ensures Inv(DoReadCheckIn(s, call))
  {
    var s' := DoReadCheckIn(s, call);
    if call in s.calls && s.calls[call].Resolving? {
      assert CallWell(s.db.regs, s.db.tokens, s.db.checkIns, s.calls[call]);
      MovedKeepsInv(s, s'.db, call, s'.calls[call], s');
    }
  }

  lemma CommitKeepsInv(s: State, call: CallId)
    requires Inv(s)
    ensures Inv(DoCommit(s, call))
  {
    var s' := DoCommit(s, call);
    if call in s.calls && s.calls[call].Committing? {
      var c := s.calls[call];
      assert CallWell(s.db.regs, s.db.tokens, s.db.checkIns, c);
      GrowsSelf(s.db);
      if c.existing.Some? {
        RestoreKeepsDbInv(s.db, c.existing.value, c.viaQr);
      } else {
        CreateKeepsDbInv(s.db, c.event, c.reg, c.viaQr);
      }
      MovedKeepsInv(s, s'.db, call, s'.calls[call], s');
    }
  }

  lemma CommitUndoKeepsInv(s: State, call: CallId)
    requires Inv(s)
    ensures Inv(DoCommitUndo(s, call))
  {
    if call in s.calls && s.calls[call].Undoing? {
      UndoKeepsDbInv(s.db, s.calls[call].id);
      GrowsSelf(s.db);
      CallsSurvive(s.db, DoCommitUndo(s, call).db, s.calls);
    }
  }

  /** Only the hash, cipher and expiry of a token row change in a rotation. */
  lemma RotateKeepsInv(s: State, call: CallId, iv: nat, expiresAt: int)
    requires Inv(s)
    ensures Inv(DoRotate(s, call, iv, expiresAt))
  {
    var s' := DoRotate(s, call, iv, expiresAt);
    if call in s.calls && s.calls[call].Rotating? && s.calls[call].reg in s.db.tokens {
      forall r | r in s'.db.tokens && s'.db.tokens[r].revoked ensures HasLive(s'.db.checkIns, r) {
        assert r in s.db.tokens && s.db.tokens[r].revoked;
      }
      MovedKeepsInv(s, s'.db, call, s'.calls[call], s');
    }
  }

  /** Steps that leave the database alone. */
  lemma QuietStepKeepsInv(s: State, a: Action)
    requires Inv(s)
    requires || a.BeginScan? || a.AcquireLock? || a.Abort? || a.ReleaseLock? || a.ExpireLock? || a.BeginUndo? || a.BeginRecover?
             || a.Reload?
    ensures Inv(Apply(s, a)) && Apply(s, a).db == s.db
  {
    forall c | c in Apply(s, a).calls
      ensures CallWell(s.db.regs, s.db.tokens, s.db.checkIns, Apply(s, a).calls[c])
    {
      if c in s.calls { assert CallWell(s.db.regs, s.db.tokens, s.db.checkIns, s.calls[c]); }
    }
  }

  lemma StepKeepsInv(s: State, a: Action)
    requires Inv(s)
    ensures Inv(Apply(s, a))
  {
    match a
    case Register(event, status, ticketType) => RegisterKeepsInv(s, event, status, ticketType);
    case IssueToken(reg, stored, expiresAt) => IssueKeepsInv(s, reg, stored, expiresAt);
    case ReadToken(_, _) => ReadsKeepInv(s, a);
    case ReadRegistration(_) => ReadsKeepInv(s, a);
    case ReadCheckIn(call) => ReadCheckInKeepsInv(s, call);
    case Commit(call) => CommitKeepsInv(s, call);
    case CommitUndo(call) => CommitUndoKeepsInv(s, call);
    case Rotate(call, iv, expiresAt) => RotateKeepsInv(s, call, iv, expiresAt);
    case _ => QuietStepKeepsInv(s, a);
  }

  lemma {:induction false} RunKeepsInv(s: State, actions: seq<Action>)
    requires Inv(s)
    ensures Inv(Run(s, actions))
  {
    if |actions| > 0 {
      RunKeepsInv(s, actions[..|actions| - 1]);
      StepKeepsInv(Run(s, actions[..|actions| - 1]), actions[|actions| - 1]);
    }
  }

  /** In every interleaving whatsoever, lost and expired locks, rotations and manual check-ins included:
      at most one check-in row per registration, a revoked token only with a live check-in, a live
      check-in only of a confirmed registration and at its own event. */
  lemma GateIsAlwaysConsistent(actions: seq<Action>)
    ensures var db := Run(EMPTY, actions).db;
            && (forall i, j :: 0 <= i < j < |db.checkIns| ==>
                  db.checkIns[i].reg != db.checkIns[j].reg)
            && (forall r :: r in db.tokens && db.tokens[r].revoked ==> HasLive(db.checkIns, r))
            && (forall i :: 0 <= i < |db.checkIns| && db.checkIns[i].live ==> ConfirmedAt(db.regs, db.checkIns[i].event, db.checkIns[i].reg))
  {
    RunKeepsInv(EMPTY, actions);
    var db := Run(EMPTY, actions).db;
    forall i | 0 <= i < |db.checkIns| && db.checkIns[i].live ensures ConfirmedAt(db.regs, db.checkIns[i].event, db.checkIns[i].reg) {
      assert RowWell(db.regs, db.checkIns[i]);
    }
  }
}
