/** When scan counts stay exact and when the audit log balances: the exact conditions over every run, the
    scheduling that guarantees them, and runs that break them. */
module GateAudit {
  import opened Wrappers
  import opened GateModel
  import opened GateInvariant
  import opened GateLock

  /** VALID check-ins minus successful undos of a check-in row, read off the audit log. */
  function Net(log: seq<LogEntry>, id: CheckInId): int {
    multiset(log)[CheckedIn(id)] as int - multiset(log)[Undone(id)] as int
  }

  /** That difference is 1 while the check-in is live and 0 otherwise. */
  ghost predicate Balanced(db: Db) {
    forall i :: 0 <= i < |db.checkIns| ==> Net(db.log, i) == if db.checkIns[i].live then 1 else 0
  }

  lemma NetSnoc(log: seq<LogEntry>, e: LogEntry, id: CheckInId)
    ensures Net(log + [e], id) == Net(log, id) + (if e == CheckedIn(id) then 1 else if e == Undone(id) then -1 else 0)
  {
  }

  lemma NetOfUnused(checkIns: seq<CheckIn>, log: seq<LogEntry>, id: CheckInId)
    requires LogWell(checkIns, log) && id >= |checkIns|
    ensures Net(log, id) == 0
  {
    forall e | e in log ensures e.id < |checkIns| {
      var k :| 0 <= k < |log| && log[k] == e;
    }
    assert CheckedIn(id) !in log && Undone(id) !in log;
    assert CheckedIn(id) !in multiset(log) && Undone(id) !in multiset(log);
  }

  // ----- exact conditions, step by step

  /** The commit that would restore a check-in already live. */
  predicate RestoresLive(s: State, a: Action) {
    a.Commit? && a.call in s.calls && s.calls[a.call].Committing? && s.calls[a.call].existing.Some?
    && s.calls[a.call].existing.value < |s.db.checkIns| && s.db.checkIns[s.calls[a.call].existing.value].live
  }

  /** The commit that would mark a token already revoked. */
  predicate ScansRevoked(s: State, a: Action) {
    a.Commit? && a.call in s.calls && s.calls[a.call].Committing? && s.calls[a.call].viaQr
    && s.calls[a.call].reg in s.db.tokens && s.db.tokens[s.calls[a.call].reg].revoked
    && (s.calls[a.call].existing.Some? || TxCreate(s.db, s.calls[a.call].event, s.calls[a.call].reg, true).Some?)
  }

  predicate RestoresOnlyDead(s: State, a: Action) {
    !RestoresLive(s, a)
  }

  predicate ScansOnlyUnrevoked(s: State, a: Action) {
    !ScansRevoked(s, a)
  }

  ghost predicate AuditBalanced(s: State) {
    Balanced(s.db)
  }

  ghost predicate ScanCountsExact(s: State) {
    CountsExact(s.db.tokens)
  }

  lemma RestoreBalance(db: Db, id: CheckInId, viaQr: bool)
    requires id < |db.checkIns| && Balanced(db)
    ensures Balanced(TxRestore(db, id, viaQr)) <==> !db.checkIns[id].live
  {
    var db' := TxRestore(db, id, viaQr);
    forall i ensures Net(db'.log, i) == Net(db.log, i) + if i == id then 1 else 0 {
      NetSnoc(db.log, CheckedIn(id), i);
    }
    assert Net(db.log, id) == if db.checkIns[id].live then 1 else 0;
  }

  lemma CreateBalance(db: Db, event: EventId, reg: RegId, viaQr: bool)
    requires DbInv(db) && Balanced(db)
    ensures var r := TxCreate(db, event, reg, viaQr); r.Some? ==> Balanced(r.value)
  {
    var r := TxCreate(db, event, reg, viaQr);
    if r.Some? {
      NetOfUnused(db.checkIns, db.log, |db.checkIns|);
      forall i | 0 <= i < |r.value.checkIns| ensures Net(r.value.log, i) == if r.value.checkIns[i].live then 1 else 0 {
        NetSnoc(db.log, CheckedIn(|db.checkIns|), i);
      }
    }
  }

  lemma UndoBalance(db: Db, id: CheckInId)
    requires Balanced(db)
    ensures var r := TxUndo(db, id); r.Some? ==> Balanced(r.value)
  {
    var r := TxUndo(db, id);
    if r.Some? {
      forall i | 0 <= i < |r.value.checkIns| ensures Net(r.value.log, i) == if r.value.checkIns[i].live then 1 else 0 {
        NetSnoc(db.log, Undone(id), i);
      }
    }
  }

  lemma ReadCheckInBalance(s: State, call: CallId)
    requires Balanced(s.db)
    ensures Balanced(DoReadCheckIn(s, call).db)
  {
    var db' := DoReadCheckIn(s, call).db;
    if db' != s.db {
      var e := db'.log[|db'.log| - 1];
      forall i | 0 <= i < |db'.checkIns| ensures Net(db'.log, i) == Net(s.db.log, i) {
        NetSnoc(s.db.log, e, i);
      }
    }
  }

  /** One step keeps the audit log balanced exactly when it does not restore a live check-in. */
  lemma StepBalanceIff(s: State, a: Action)
    requires Inv(s) && Balanced(s.db)
    ensures Balanced(Apply(s, a).db) <==> !RestoresLive(s, a)
  {
    match a
    case Commit(call) =>
      if call in s.calls && s.calls[call].Committing? {
        var c := s.calls[call];
        assert CallWell(s.db.regs, s.db.tokens, s.db.checkIns, c);
        if c.existing.Some? {
          RestoreBalance(s.db, c.existing.value, c.viaQr);
        } else {
          CreateBalance(s.db, c.event, c.reg, c.viaQr);
        }
      }
    case CommitUndo(call) => if call in s.calls && s.calls[call].Undoing? { UndoBalance(s.db, s.calls[call].id); }
    case ReadCheckIn(call) => ReadCheckInBalance(s, call);
    case Register(_, _, _) =>
    case IssueToken(_, _, _) =>
    case Rotate(_, _, _) =>
    case ReadToken(call, now) => assert DoReadToken(s, call, now).db == s.db;
    case ReadRegistration(call) => assert DoReadRegistration(s, call).db == s.db;
    case _ => assert Apply(s, a).db == s.db;
  }

  /** One step keeps the scan counts exact exactly when it does not mark a token that is revoked already. */
  lemma StepCountIff(s: State, a: Action)
    requires Inv(s) && CountsExact(s.db.tokens)
    ensures CountsExact(Apply(s, a).db.tokens) <==> !ScansRevoked(s, a)
  {
    match a
    case Commit(call) => CommitCountIff(s, call);
    case CommitUndo(_) => WriteKeepsCounts(s, a);
    case Rotate(_, _, _) => WriteKeepsCounts(s, a);
    case IssueToken(_, _, _) => WriteKeepsCounts(s, a);
    case ReadToken(call, now) => assert DoReadToken(s, call, now).db == s.db;
    case ReadRegistration(call) => assert DoReadRegistration(s, call).db == s.db;
    case ReadCheckIn(call) => assert DoReadCheckIn(s, call).db.tokens == s.db.tokens;
    case Register(_, _, _) =>
    case _ => assert Apply(s, a).db == s.db;
  }

  lemma CommitCountIff(s: State, call: CallId)
    requires Inv(s) && CountsExact(s.db.tokens)
    ensures CountsExact(DoCommit(s, call).db.tokens) <==> !ScansRevoked(s, Commit(call))
  {
    if call in s.calls && s.calls[call].Committing? {
      var c := s.calls[call];
      assert CallWell(s.db.regs, s.db.tokens, s.db.checkIns, c);
      var tokens' := DoCommit(s, call).db.tokens;
      assert tokens' == s.db.tokens || tokens' == MarkScanned(s.db.tokens, c.reg, c.viaQr);
      if ScansRevoked(s, Commit(call)) {
        assert tokens'[c.reg].scanCount == 2;
      }
    }
  }

  lemma WriteKeepsCounts(s: State, a: Action)
    requires CountsExact(s.db.tokens) && (a.CommitUndo? || a.Rotate? || a.IssueToken?)
    ensures CountsExact(Apply(s, a).db.tokens)
  {
  }

  // ----- exact conditions, over every run

  ghost predicate AtEveryPoint(actions: seq<Action>, property: State -> bool) {
    forall k :: 0 <= k <= |actions| ==> property(Run(EMPTY, actions[..k]))
  }

  lemma EveryPointPrefix(actions: seq<Action>, property: State -> bool)
    requires |actions| > 0
    ensures AtEveryPoint(actions, property) <==> AtEveryPoint(actions[..|actions| - 1], property) && property(Run(EMPTY, actions))
  {
    var front := actions[..|actions| - 1];
    assert actions[..|actions|] == actions;
    if AtEveryPoint(actions, property) {
      forall k | 0 <= k <= |front| ensures property(Run(EMPTY, front[..k])) {
        assert front[..k] == actions[..k];
      }
    }
    if AtEveryPoint(front, property) && property(Run(EMPTY, actions)) {
      forall k | 0 <= k <= |actions| ensures property(Run(EMPTY, actions[..k])) {
        if k < |actions| { assert front[..k] == actions[..k]; }
      }
    }
  }

  lemma ThroughoutSnoc(actions: seq<Action>, condition: (State, Action) -> bool)
    requires |actions| > 0
    ensures Throughout(EMPTY, actions, condition) <==>
              Throughout(EMPTY, actions[..|actions| - 1], condition) && condition(Run(EMPTY, actions[..|actions| - 1]), actions[|actions| - 1])
  {
    var front := actions[..|actions| - 1];
    assert forall k :: 0 <= k <= |front| ==> front[..k] == actions[..k];
  }

  /** Whatever locks, rotations and manual check-ins do, the audit log balances at every point of a run
      exactly when no commit of the run restores a check-in that is live by then. */
  lemma {:induction false} AuditBalancesIff(actions: seq<Action>)
    ensures AtEveryPoint(actions, AuditBalanced) <==> Throughout(EMPTY, actions, RestoresOnlyDead)
  {
    if |actions| == 0 {
      assert actions[..0] == [];
    } else {
      var front := actions[..|actions| - 1];
      AuditBalancesIff(front);
      EveryPointPrefix(actions, AuditBalanced);
      ThroughoutSnoc(actions, RestoresOnlyDead);
      RunKeepsInv(EMPTY, front);
      assert front[..|front|] == front;
      if AtEveryPoint(front, AuditBalanced) {
        StepBalanceIff(Run(EMPTY, front), actions[|actions| - 1]);
      }
    }
  }

  /** Likewise scan counts are exact at every point of a run exactly when no commit marks a revoked token. */
  lemma {:induction false} ScanCountsExactIff(actions: seq<Action>)
    ensures AtEveryPoint(actions, ScanCountsExact) <==> Throughout(EMPTY, actions, ScansOnlyUnrevoked)
  {
    if |actions| == 0 {
      assert actions[..0] == [];
    } else {
      var front := actions[..|actions| - 1];
      ScanCountsExactIff(front);
      EveryPointPrefix(actions, ScanCountsExact);
      ThroughoutSnoc(actions, ScansOnlyUnrevoked);
      RunKeepsInv(EMPTY, front);
      assert front[..|front|] == front;
      if AtEveryPoint(front, ScanCountsExact) {
        StepCountIff(Run(EMPTY, front), actions[|actions| - 1]);
      }
    }
  }

  // ----- the scheduling that meets the condition

  ghost predicate OneCommitter(calls: map<CallId, Call>) {
    forall c, d :: c in calls && d in calls && calls[c].Committing? && calls[d].Committing? && calls[c].reg == calls[d].reg ==> c == d
  }

  ghost predicate CommitterSeesDead(checkIns: seq<CheckIn>, calls: map<CallId, Call>) {
    forall c :: c in calls && calls[c].Committing? && calls[c].existing.Some? ==>
      calls[c].existing.value < |checkIns| && !checkIns[calls[c].existing.value].live
  }

  /** A QR scan and a manual check-in of one registration do not overlap between reading the check-in row
      and committing. */
  ghost predicate NoMixedOverlap(s: State, a: Action) {
    a.ReadCheckIn? && a.call in s.calls && s.calls[a.call].Resolving? ==>
      forall d :: d in s.calls && s.calls[d].Committing? && s.calls[d].reg == s.calls[a.call].reg ==> s.calls[d].viaQr == s.calls[a.call].viaQr
  }

  ghost predicate OrderlyUnmixed(s: State, a: Action) {
    Orderly(s, a) && NoMixedOverlap(s, a)
  }

  ghost predicate AuditInv(s: State) {
    CountInv(s) && OneCommitter(s.calls) && CommitterSeesDead(s.db.checkIns, s.calls)
  }

  lemma NoCommitterYet(s: State, call: CallId)
    requires AuditInv(s) && NoMixedOverlap(s, ReadCheckIn(call))
    requires call in s.calls && s.calls[call].Resolving?
    ensures forall d :: d in s.calls && s.calls[d].Committing? ==> s.calls[d].reg != s.calls[call].reg
  {
    forall d | d in s.calls && s.calls[d].Committing? ensures s.calls[d].reg != s.calls[call].reg {
      if s.calls[d].reg == s.calls[call].reg {
        OneCallPerKind(s, call, d);
      }
    }
  }

  lemma ReadCheckInKeepsAudit(s: State, call: CallId)
    requires AuditInv(s) && NoMixedOverlap(s, ReadCheckIn(call))
    ensures AuditInv(DoReadCheckIn(s, call))
  {
    ReadCheckInKeepsCount(s, call);
    if call in s.calls && s.calls[call].Resolving? {
      NoCommitterYet(s, call);
    }
  }

  lemma CommitKeepsAudit(s: State, call: CallId)
    requires AuditInv(s)
    ensures AuditInv(DoCommit(s, call))
    ensures !RestoresLive(s, Commit(call))
  {
    CommitKeepsCount(s, call);
    CommittersSeeDead(s, call);
  }

  lemma CommittersSeeDead(s: State, call: CallId)
    requires AuditInv(s)
    ensures var s' := DoCommit(s, call); CommitterSeesDead(s'.db.checkIns, s'.calls) && OneCommitter(s'.calls)
    ensures !RestoresLive(s, Commit(call))
  {
    var s' := DoCommit(s, call);
    forall d | d in s'.calls && s'.calls[d].Committing? && s'.calls[d].existing.Some?
      ensures s'.calls[d].existing.value < |s'.db.checkIns| && !s'.db.checkIns[s'.calls[d].existing.value].live
    {
      assert d in s.calls && s.calls[d] == s'.calls[d];
      assert CallWell(s.db.regs, s.db.tokens, s.db.checkIns, s.calls[d]);
      if call in s.calls && s.calls[call].Committing? {
        assert CallWell(s.db.regs, s.db.tokens, s.db.checkIns, s.calls[call]);
      }
    }
  }

  /** Steps that commit no check-in and start no commit leave the committers as they are. */
  lemma OtherStepKeepsCommitters(s: State, a: Action)
    requires AuditInv(s) && !a.Commit? && !a.ReadCheckIn?
    ensures OneCommitter(Apply(s, a).calls) && CommitterSeesDead(Apply(s, a).db.checkIns, Apply(s, a).calls)
  {
    CommittersRemain(s, a);
    CheckInsOnlyDie(s, a);
  }

  lemma CommittersRemain(s: State, a: Action)
    requires !a.ReadCheckIn?
    ensures forall c :: c in Apply(s, a).calls && Apply(s, a).calls[c].Committing? ==> c in s.calls && s.calls[c] == Apply(s, a).calls[c]
  {
    match a
    case ReadToken(call, now) =>
    case ReadRegistration(call) =>
    case Commit(call) =>
    case CommitUndo(call) =>
    case Rotate(call, iv, expiresAt) =>
    case _ =>
  }

  lemma CheckInsOnlyDie(s: State, a: Action)
    requires !a.Commit?
    ensures |Apply(s, a).db.checkIns| == |s.db.checkIns|
    ensures forall i :: 0 <= i < |s.db.checkIns| && Apply(s, a).db.checkIns[i].live ==> s.db.checkIns[i].live
  {
    match a
    case ReadToken(call, now) => assert DoReadToken(s, call, now).db == s.db;
    case ReadRegistration(call) => assert DoReadRegistration(s, call).db == s.db;
    case CommitUndo(call) =>
    case Rotate(call, iv, expiresAt) =>
    case ReadCheckIn(call) =>
    case _ =>
  }

  lemma StepKeepsAudit(s: State, a: Action)
    requires AuditInv(s) && OrderlyUnmixed(s, a)
    ensures AuditInv(Apply(s, a)) && !RestoresLive(s, a)
  {
    if a.Commit? {
      CommitKeepsAudit(s, a.call);
    } else if a.ReadCheckIn? {
      ReadCheckInKeepsAudit(s, a.call);
    } else {
      StepKeepsCount(s, a);
      OtherStepKeepsCommitters(s, a);
    }
  }

  lemma {:induction false} RunKeepsAudit(actions: seq<Action>)
    requires Throughout(EMPTY, actions, OrderlyUnmixed)
    ensures AuditInv(Run(EMPTY, actions))
    ensures Throughout(EMPTY, actions, RestoresOnlyDead)
  {
    if |actions| > 0 {
      ThroughoutPrefix(EMPTY, actions, OrderlyUnmixed);
      RunKeepsAudit(actions[..|actions| - 1]);
      StepKeepsAudit(Run(EMPTY, actions[..|actions| - 1]), actions[|actions| - 1]);
      ThroughoutSnoc(actions, RestoresOnlyDead);
    }
  }

  /** While locks outlive their scans, no token is rotated under a scan and no manual check-in overlaps a
      QR scan of the same registration, VALID results minus successful undos of a check-in are 0 or 1 at
      every point of the run, and 1 exactly while the check-in is live. */
  lemma CheckInsAlternate(actions: seq<Action>)
    requires Throughout(EMPTY, actions, OrderlyUnmixed)
    ensures AtEveryPoint(actions, AuditBalanced)
  {
    RunKeepsAudit(actions);
    AuditBalancesIff(actions);
  }
}
