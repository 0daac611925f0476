/** What the scan lock buys: exact scan counts, and an audit log in which check-ins and undos alternate. */
module GateLock {
  import opened Wrappers
  import opened GateModel
  import opened GateInvariant

  // ----- mutual exclusion

  ghost predicate LocksHeld(locks: set<LockKey>, calls: map<CallId, Call>) {
    forall c :: c in calls && Held(calls[c]) ==> KeyOf(calls[c]) in locks
  }

  ghost predicate OneHolder(calls: map<CallId, Call>) {
    forall c, d :: c in calls && d in calls && Held(calls[c]) && Held(calls[d]) && KeyOf(calls[c]) == KeyOf(calls[d]) ==> c == d
  }

  /** The lock outlives the scan: no key expires under a scan that holds it. */
  ghost predicate LockOutlives(s: State, a: Action) {
    a.ExpireLock? ==> forall c :: c in s.calls && Held(s.calls[c]) ==> KeyOf(s.calls[c]) != a.key
  }

  ghost predicate LockInv(s: State) {
    LocksHeld(s.locks, s.calls) && OneHolder(s.calls)
  }

  /** The calls of a later state hold locks only where the earlier ones did, except one call that moved on
      with the same key. */
  lemma MovedKeepsLock(s: State, s': State, call: CallId)
    requires LockInv(s)
    requires s'.locks == s.locks
    requires forall c :: c in s'.calls && c != call ==> c in s.calls && s'.calls[c] == s.calls[c]
    requires call in s'.calls && Held(s'.calls[call]) ==> call in s.calls && Held(s.calls[call]) && KeyOf(s'.calls[call]) == KeyOf(s.calls[call])
    ensures LockInv(s')
  {
  }

  lemma ReleaseKeepsLock(s: State, call: CallId, reached: bool)
    requires LockInv(s)
    ensures LockInv(DoReleaseLock(s, call, reached))
  {
  }

  lemma AcquireKeepsLock(s: State, call: CallId, answered: bool)
    requires LockInv(s)
    ensures LockInv(DoAcquireLock(s, call, answered))
  {
  }

  lemma ScanStepKeepsLock(s: State, a: Action)
    requires LockInv(s)
    requires a.ReadToken? || a.ReadRegistration? || a.ReadCheckIn? || a.Commit?
    ensures LockInv(Apply(s, a))
  {
    match a
    case ReadToken(call, now) => MovedKeepsLock(s, DoReadToken(s, call, now), call);
    case ReadRegistration(call) => MovedKeepsLock(s, DoReadRegistration(s, call), call);
    case ReadCheckIn(call) => MovedKeepsLock(s, DoReadCheckIn(s, call), call);
    case Commit(call) => MovedKeepsLock(s, DoCommit(s, call), call);
  }

  lemma OtherStepKeepsLock(s: State, a: Action)
    requires LockInv(s)
    requires || a.BeginScan? || a.Abort? || a.BeginUndo? || a.CommitUndo? || a.BeginRecover? || a.Rotate? || a.Reload?
    ensures LockInv(Apply(s, a))
  {
    MovedKeepsLock(s, Apply(s, a), a.call);
  }

  lemma StepKeepsLock(s: State, a: Action)
    requires LockInv(s) && LockOutlives(s, a)
    ensures LockInv(Apply(s, a))
  {
    match a
    case Register(_, _, _) =>
    case IssueToken(_, _, _) =>
    case ExpireLock(_) =>
    case AcquireLock(call, answered) => AcquireKeepsLock(s, call, answered);
    case ReleaseLock(call, reached) => ReleaseKeepsLock(s, call, reached);
    case ReadToken(_, _) => ScanStepKeepsLock(s, a);
    case ReadRegistration(_) => ScanStepKeepsLock(s, a);
    case ReadCheckIn(_) => ScanStepKeepsLock(s, a);
    case Commit(_) => ScanStepKeepsLock(s, a);
    case _ => OtherStepKeepsLock(s, a);
  }

  // ----- exact scan counts

  /** A QR scan between reading its token and committing. */
  predicate QrInFlight(c: Call) {
    (c.Resolving? || c.Committing?) && c.viaQr
  }

  ghost predicate CountsExact(tokens: map<RegId, QrToken>) {
    forall r :: r in tokens ==> tokens[r].scanCount == if tokens[r].revoked then 1 else 0
  }

  /** The token a QR scan has read is still the one it presented, and still unrevoked. */
  ghost predicate ReadsCurrent(tokens: map<RegId, QrToken>, calls: map<CallId, Call>) {
    forall c :: c in calls && QrInFlight(calls[c]) ==>
      calls[c].reg in tokens && tokens[calls[c].reg].hash == HashOf(calls[c].token) && !tokens[calls[c].reg].revoked
  }

  ghost predicate CountInv(s: State) {
    Inv(s) && LockInv(s) && CountsExact(s.db.tokens) && ReadsCurrent(s.db.tokens, s.calls)
  }

  /** No token is rotated while a QR scan of its registration is in flight. */
  ghost predicate NoRotationMidScan(s: State, a: Action) {
    a.Rotate? && a.call in s.calls && s.calls[a.call].Rotating? ==>
      forall c :: c in s.calls && QrInFlight(s.calls[c]) ==> s.calls[c].reg != s.calls[a.call].reg
  }

  ghost predicate Orderly(s: State, a: Action) {
    LockOutlives(s, a) && NoRotationMidScan(s, a)
  }

  /** Two calls of the same kind and registration past their lookup hold the same lock, so they are one. */
  lemma OneCallPerKind(s: State, c: CallId, d: CallId)
    requires CountInv(s) && c in s.calls && d in s.calls
    requires (s.calls[c].Resolving? || s.calls[c].Committing?) && (s.calls[d].Resolving? || s.calls[d].Committing?)
    requires s.calls[c].reg == s.calls[d].reg && s.calls[c].viaQr == s.calls[d].viaQr
    ensures c == d
  {
    assert CallWell(s.db.regs, s.db.tokens, s.db.checkIns, s.calls[c]) && CallWell(s.db.regs, s.db.tokens, s.db.checkIns, s.calls[d]);
    assert KeyOf(s.calls[c]) == KeyOf(s.calls[d]);
  }

  /** Token rows agree on hash and revocation, and calls agree, except for one call that moved. */
  lemma CountInvByFrame(s: State, s': State, call: CallId)
    requires CountInv(s) && Inv(s') && LockInv(s')
    requires forall r :: r in s.db.tokens ==> r in s'.db.tokens && s'.db.tokens[r] == s.db.tokens[r]
    requires forall r :: r in s'.db.tokens && r !in s.db.tokens ==> !s'.db.tokens[r].revoked && s'.db.tokens[r].scanCount == 0
    requires forall c :: c in s'.calls && c != call ==> c in s.calls && s'.calls[c] == s.calls[c]
    requires call in s'.calls && QrInFlight(s'.calls[call]) ==>
               || (call in s.calls && QrInFlight(s.calls[call]) && s'.calls[call].reg == s.calls[call].reg && s'.calls[call].token == s.calls[call].token)
               || (var reg := s'.calls[call].reg;
                   reg in s'.db.tokens && s'.db.tokens[reg].hash == HashOf(s'.calls[call].token) && !s'.db.tokens[reg].revoked)
    ensures CountInv(s')
  {
  }

  lemma CommitKeepsCount(s: State, call: CallId)
    requires CountInv(s)
    ensures CountInv(DoCommit(s, call))
  {
    var s' := DoCommit(s, call);
    CommitKeepsInv(s, call);
    StepKeepsLock(s, Commit(call));
    if s' != s {
      var c := s.calls[call];
      assert CallWell(s.db.regs, s.db.tokens, s.db.checkIns, c);
      assert s'.db == s.db || s'.db.tokens == MarkScanned(s.db.tokens, c.reg, c.viaQr);
      forall d | d in s'.calls && QrInFlight(s'.calls[d])
        ensures var t := s'.calls[d]; t.reg in s'.db.tokens && s'.db.tokens[t.reg].hash == HashOf(t.token) && !s'.db.tokens[t.reg].revoked
      {
        assert d != call && s.calls[d] == s'.calls[d];
        if c.viaQr && s.calls[d].reg == c.reg {
          OneCallPerKind(s, call, d);
        }
      }
    }
  }

  lemma CommitUndoKeepsCount(s: State, call: CallId)
    requires CountInv(s)
    ensures CountInv(DoCommitUndo(s, call))
  {
    CommitUndoKeepsInv(s, call);
    StepKeepsLock(s, CommitUndo(call));
  }

  lemma RotateKeepsCount(s: State, call: CallId, iv: nat, expiresAt: int)
    requires CountInv(s) && NoRotationMidScan(s, Rotate(call, iv, expiresAt))
    ensures CountInv(DoRotate(s, call, iv, expiresAt))
  {
    RotateKeepsInv(s, call, iv, expiresAt);
    StepKeepsLock(s, Rotate(call, iv, expiresAt));
    var s' := DoRotate(s, call, iv, expiresAt);
    forall c | c in s'.calls && QrInFlight(s'.calls[c])
      ensures s'.db.tokens[s'.calls[c].reg].hash == HashOf(s'.calls[c].token) && !s'.db.tokens[s'.calls[c].reg].revoked
    {
      assert c in s.calls && s.calls[c] == s'.calls[c];
    }
  }

  lemma ReadTokenKeepsCount(s: State, call: CallId, now: int)
    requires CountInv(s)
    ensures CountInv(DoReadToken(s, call, now))
  {
    StepKeepsInv(s, ReadToken(call, now));
    StepKeepsLock(s, ReadToken(call, now));
    CountInvByFrame(s, DoReadToken(s, call, now), call);
  }

  lemma ReadCheckInKeepsCount(s: State, call: CallId)
    requires CountInv(s)
    ensures CountInv(DoReadCheckIn(s, call))
  {
    StepKeepsInv(s, ReadCheckIn(call));
    StepKeepsLock(s, ReadCheckIn(call));
    CountInvByFrame(s, DoReadCheckIn(s, call), call);
  }

  /** Steps that leave the tokens alone and put no QR scan in flight. */
  lemma FramedStepKeepsCount(s: State, a: Action)
    requires CountInv(s) && LockOutlives(s, a)
    requires a.BeginScan? || a.AcquireLock? || a.Abort? || a.ReleaseLock?
    ensures CountInv(Apply(s, a))
  {
    StepKeepsInv(s, a);
    StepKeepsLock(s, a);
    CountInvByFrame(s, Apply(s, a), a.call);
  }

  lemma ReadRegistrationKeepsCount(s: State, call: CallId)
    requires CountInv(s)
    ensures CountInv(DoReadRegistration(s, call))
  {
    StepKeepsInv(s, ReadRegistration(call));
    StepKeepsLock(s, ReadRegistration(call));
    CountInvByFrame(s, DoReadRegistration(s, call), call);
  }

  lemma BeginUndoKeepsCount(s: State, call: CallId, event: EventId, id: CheckInId, permitted: bool)
    requires CountInv(s)
    ensures CountInv(DoBeginUndo(s, call, event, id, permitted))
  {
    StepKeepsInv(s, BeginUndo(call, event, id, permitted));
    StepKeepsLock(s, BeginUndo(call, event, id, permitted));
    CountInvByFrame(s, DoBeginUndo(s, call, event, id, permitted), call);
  }

  lemma RecoveryStepKeepsCount(s: State, a: Action)
    requires CountInv(s) && (a.BeginRecover? || a.Reload?)
    ensures CountInv(Apply(s, a))
  {
    StepKeepsInv(s, a);
    StepKeepsLock(s, a);
    CountInvByFrame(s, Apply(s, a), a.call);
  }

  lemma StepKeepsCount(s: State, a: Action)
    requires CountInv(s) && Orderly(s, a)
    ensures CountInv(Apply(s, a))
  {
    match a
    case Commit(call) => CommitKeepsCount(s, call);
    case CommitUndo(call) => CommitUndoKeepsCount(s, call);
    case Rotate(call, iv, expiresAt) => RotateKeepsCount(s, call, iv, expiresAt);
    case Register(_, _, _) => StepKeepsInv(s, a);
    case IssueToken(_, _, _) => StepKeepsInv(s, a);
    case ExpireLock(_) => StepKeepsInv(s, a); StepKeepsLock(s, a);
    case ReadToken(call, now) => ReadTokenKeepsCount(s, call, now);
    case ReadCheckIn(call) => ReadCheckInKeepsCount(s, call);
    case ReadRegistration(call) => ReadRegistrationKeepsCount(s, call);
    case BeginUndo(call, event, id, permitted) => BeginUndoKeepsCount(s, call, event, id, permitted);
    case BeginRecover(_, _) => RecoveryStepKeepsCount(s, a);
    case Reload(_) => RecoveryStepKeepsCount(s, a);
    case _ => FramedStepKeepsCount(s, a);
  }

  /** Every action of a run meets a condition in the state it is taken in. */
  ghost predicate Throughout(s: State, actions: seq<Action>, condition: (State, Action) -> bool) {
    forall k :: 0 <= k < |actions| ==> condition(Run(s, actions[..k]), actions[k])
  }

  lemma ThroughoutPrefix(s: State, actions: seq<Action>, condition: (State, Action) -> bool)
    requires |actions| > 0 && Throughout(s, actions, condition)
    ensures Throughout(s, actions[..|actions| - 1], condition)
    ensures condition(Run(s, actions[..|actions| - 1]), actions[|actions| - 1])
  {
    var front := actions[..|actions| - 1];
    forall k | 0 <= k < |front| ensures condition(Run(s, front[..k]), front[k]) {
      assert front[..k] == actions[..k];
    }
  }

  lemma {:induction false} RunKeepsCount(actions: seq<Action>)
    requires Throughout(EMPTY, actions, Orderly)
    ensures CountInv(Run(EMPTY, actions))
  {
    if |actions| > 0 {
      ThroughoutPrefix(EMPTY, actions, Orderly);
      RunKeepsCount(actions[..|actions| - 1]);
      StepKeepsCount(Run(EMPTY, actions[..|actions| - 1]), actions[|actions| - 1]);
    }
  }

  /** While locks outlive their scans and no token is rotated under a scan, whatever manual check-ins and
      undos do: a token's scan count is 1 exactly when it is revoked and 0 otherwise. */
  lemma ScanCountIsExact(actions: seq<Action>)
    requires Throughout(EMPTY, actions, Orderly)
    ensures CountsExact(Run(EMPTY, actions).db.tokens)
  {
    RunKeepsCount(actions);
  }
}
