/** Two runs that show why the scheduling conditions are there. Both restore one check-in from two scans. */
module GateCounterexamples {
  import opened Wrappers
  import opened GateModel
  import opened GateInvariant
  import opened GateLock
  import opened GateAudit

  lemma {:induction false} RunConcat(s: State, a: seq<Action>, b: seq<Action>)
    ensures Run(s, a + b) == Run(Run(s, a), b)
  {
    if |b| == 0 {
      assert a + b == a;
    } else {
      assert (a + b)[..|a + b| - 1] == a + b[..|b| - 1];
      RunConcat(s, a, b[..|b| - 1]);
    }
  }

  lemma RunOne(s: State, a: Action)
    ensures Run(s, [a]) == Apply(s, a)
  {
    assert Run(s, []) == s;
  }

  lemma RunSnoc(s: State, actions: seq<Action>, a: Action)
    ensures Run(s, actions + [a]) == Apply(Run(s, actions), a)
  {
    RunConcat(s, actions, [a]);
    RunOne(Run(s, actions), a);
  }

  /** One confirmed registration with an imported token. */
  const REGISTERED := [Register(0, Confirmed, None), IssueToken(0, WithoutCipher, 100)]

  function ScanUpToCommit(call: CallId, token: Token): seq<Action> {
    [BeginScan(call, 0, token), AcquireLock(call, true), ReadToken(call, 0), ReadCheckIn(call)]
  }

  function FirstToken(revoked: bool, scanCount: int): QrToken {
    QrToken(HashOf(Random(0)), None, 100, revoked, scanCount)
  }

  const REGS := [Attendee(0, Confirmed, None)]

  lemma RegisteredState()
    ensures Run(EMPTY, REGISTERED) == State(Db(REGS, map[0 := FirstToken(false, 0)], [], []), {}, map[], 1, [])
  {
    var r := Register(0, Confirmed, None);
    assert REGISTERED == [r] + [IssueToken(0, WithoutCipher, 100)];
    RunOne(EMPTY, r);
    RunSnoc(EMPTY, [r], IssueToken(0, WithoutCipher, 100));
  }

  /** A scan of the registration's current token, alone or beside others, gets as far as its commit. */
  lemma QrScanReachesCommit(s: State, call: CallId, token: Token, existing: Option<CheckInId>)
    requires call !in s.calls && LockKey(0, HashOf(token)) !in s.locks
    requires s.db.regs == REGS && 0 in s.db.tokens
    requires s.db.tokens[0].hash == HashOf(token) && !s.db.tokens[0].revoked && s.db.tokens[0].expiresAt == 100
    requires FindCheckIn(s.db.checkIns, 0, 0) == existing
    requires existing.Some? ==> !s.db.checkIns[existing.value].live
    ensures Run(s, ScanUpToCommit(call, token)) ==
            s.(locks := s.locks + {LockKey(0, HashOf(token))}, calls := s.calls[call := Committing(0, token, 0, true, existing)])
  {
    var a := ScanUpToCommit(call, token);
    var s1 := Apply(s, a[0]);
    var s2 := Apply(s1, a[1]);
    var s3 := Apply(s2, a[2]);
    var s4 := Apply(s3, a[3]);
    RunOne(s, a[0]);
    RunSnoc(s, [a[0]], a[1]);
    RunSnoc(s, [a[0]] + [a[1]], a[2]);
    RunSnoc(s, [a[0]] + [a[1]] + [a[2]], a[3]);
    assert a == [a[0]] + [a[1]] + [a[2]] + [a[3]];
    assert FindToken(s2.db.tokens, HashOf(token), 1) == Some(0);
    assert s3.calls == s.calls[call := Resolving(0, token, 0, true)];
    assert s4.calls == s.calls[call := Committing(0, token, 0, true, existing)];
  }

  const FIRST_VISIT := [Commit(1), ReleaseLock(1, true), BeginUndo(2, 0, 0, true), CommitUndo(2)]

  const OPENING := REGISTERED + ScanUpToCommit(1, Random(0)) + FIRST_VISIT

  /** The attendee has been scanned in once and the check-in undone. */
  const AFTER_OPENING :=
    State(Db(REGS, map[0 := FirstToken(false, 0)], [CheckIn(0, 0, Valid, false)], [CheckedIn(0), Undone(0)]), {}, map[], 1, [])

  const CHECKED_IN_DB := Db(REGS, map[0 := FirstToken(true, 1)], [CheckIn(0, 0, Valid, true)], [CheckedIn(0)])

  lemma FirstCheckIn(s: State)
    requires s.db == Db(REGS, map[0 := FirstToken(false, 0)], [], [])
    requires s.locks == {LockKey(0, HashOf(Random(0)))} && s.calls == map[1 := Committing(0, Random(0), 0, true, None)]
    ensures Apply(Apply(s, Commit(1)), ReleaseLock(1, true)) == State(CHECKED_IN_DB, {}, map[], s.minted, s.rotations)
  {
    var s1 := Apply(s, Commit(1));
    assert s1.db == CHECKED_IN_DB;
    assert s1.locks - {LockKey(0, HashOf(Random(0)))} == {} && s1.calls - {1} == map[];
  }

  lemma FirstUndo(s: State)
    requires s == State(CHECKED_IN_DB, {}, map[], 1, [])
    ensures Apply(Apply(s, BeginUndo(2, 0, 0, true)), CommitUndo(2)) == AFTER_OPENING
  {
    var s1 := Apply(s, BeginUndo(2, 0, 0, true));
    assert s1.calls == map[2 := Undoing(0)] && s1.calls - {2} == map[];
  }

  /** From a scan at its commit: it creates the check-in, lets go, and the check-in is undone. */
  lemma FirstVisitState(s: State)
    requires s.db == Db(REGS, map[0 := FirstToken(false, 0)], [], [])
    requires s.locks == {LockKey(0, HashOf(Random(0)))} && s.calls == map[1 := Committing(0, Random(0), 0, true, None)]
    requires s.minted == 1 && s.rotations == []
    ensures Run(s, FIRST_VISIT) == AFTER_OPENING
  {
    FirstCheckIn(s);
    FirstUndo(Apply(Apply(s, Commit(1)), ReleaseLock(1, true)));
    RunOne(s, Commit(1));
    RunSnoc(s, [Commit(1)], ReleaseLock(1, true));
    RunSnoc(s, [Commit(1)] + [ReleaseLock(1, true)], BeginUndo(2, 0, 0, true));
    RunSnoc(s, [Commit(1)] + [ReleaseLock(1, true)] + [BeginUndo(2, 0, 0, true)], CommitUndo(2));
    assert FIRST_VISIT == [Commit(1)] + [ReleaseLock(1, true)] + [BeginUndo(2, 0, 0, true)] + [CommitUndo(2)];
  }

  lemma OpeningState()
    ensures Run(EMPTY, OPENING) == AFTER_OPENING
  {
    RegisteredState();
    var s := Run(EMPTY, REGISTERED);
    QrScanReachesCommit(s, 1, Random(0), None);
    FirstVisitState(Run(s, ScanUpToCommit(1, Random(0))));
    RunConcat(EMPTY, REGISTERED, ScanUpToCommit(1, Random(0)));
    RunConcat(EMPTY, REGISTERED + ScanUpToCommit(1, Random(0)), FIRST_VISIT);
  }

  // ----- a rotation under a scan

  const ROTATION := [BeginRecover(4, 0), Rotate(4, 0, 100)]
  const BOTH_COMMIT := [Commit(5), Commit(3)]

  /** The old token is being scanned, the token is rotated, the new token is scanned, both commit. */
  const ROTATION_MID_SCAN := OPENING + ScanUpToCommit(3, Random(0)) + ROTATION + ScanUpToCommit(5, Random(1)) + BOTH_COMMIT

  lemma RotationState(s: State)
    requires 4 !in s.calls && s.minted == 1
    requires 0 in s.db.tokens && s.db.tokens[0] == FirstToken(false, 0)
    ensures var e := Run(s, ROTATION);
            && e.db == s.db.(tokens := s.db.tokens[0 := QrToken(HashOf(Random(1)), Some(Sealed(Random(1), 0)), 100, false, 0)])
            && e.locks == s.locks && e.calls == s.calls[4 := Recovered(0, Some(Random(1)))]
  {
    var s1 := Apply(s, BeginRecover(4, 0));
    assert s1.calls == s.calls[4 := Rotating(0, FirstToken(false, 0))];
    var s2 := Apply(s1, Rotate(4, 0, 100));
    assert s2.calls == s.calls[4 := Recovered(0, Some(Random(1)))];
    RunOne(s, BeginRecover(4, 0));
    RunSnoc(s, [BeginRecover(4, 0)], Rotate(4, 0, 100));
    assert ROTATION == [BeginRecover(4, 0)] + [Rotate(4, 0, 100)];
  }

  lemma BothCommitState(s: State)
    requires 0 in s.db.tokens && s.db.tokens[0].scanCount == 0 && s.db.checkIns == [CheckIn(0, 0, Valid, false)]
    requires 3 in s.calls && s.calls[3] == Committing(0, Random(0), 0, true, Some(0))
    requires 5 in s.calls && s.calls[5] == Committing(0, Random(1), 0, true, Some(0))
    ensures var db := Run(s, BOTH_COMMIT).db; 0 in db.tokens && db.tokens[0].scanCount == 2
  {
    var s1 := Apply(s, Commit(5));
    assert s1.db.tokens[0].scanCount == 1;
    RunOne(s, Commit(5));
    RunSnoc(s, [Commit(5)], Commit(3));
    assert BOTH_COMMIT == [Commit(5)] + [Commit(3)];
  }

  /** Without the rotation condition a scan count reaches 2, although no lock ever expired. */
  lemma RotationMidScanCountsTwice()
    ensures var db := Run(EMPTY, ROTATION_MID_SCAN).db; 0 in db.tokens && db.tokens[0].scanCount == 2
  {
    OpeningState();
    QrScanReachesCommit(AFTER_OPENING, 3, Random(0), Some(0));
    var s1 := Run(AFTER_OPENING, ScanUpToCommit(3, Random(0)));
    RotationState(s1);
    var s2 := Run(s1, ROTATION);
    QrScanReachesCommit(s2, 5, Random(1), Some(0));
    BothCommitState(Run(s2, ScanUpToCommit(5, Random(1))));
    RunConcat(EMPTY, OPENING, ScanUpToCommit(3, Random(0)));
    RunConcat(EMPTY, OPENING + ScanUpToCommit(3, Random(0)), ROTATION);
    RunConcat(EMPTY, OPENING + ScanUpToCommit(3, Random(0)) + ROTATION, ScanUpToCommit(5, Random(1)));
    RunConcat(EMPTY, OPENING + ScanUpToCommit(3, Random(0)) + ROTATION + ScanUpToCommit(5, Random(1)), BOTH_COMMIT);
  }

  // ----- a manual check-in beside a QR scan

  const MANUAL_SCAN := [BeginScan(4, 0, Uuid(0)), AcquireLock(4, true), ReadToken(4, 0), ReadRegistration(4), ReadCheckIn(4)]
  const MANUAL_THEN_QR := [Commit(4), Commit(3)]

  /** A QR scan and a manual check-in both read the undone check-in, then both restore it. */
  const MANUAL_OVERLAP := OPENING + ScanUpToCommit(3, Random(0)) + MANUAL_SCAN + MANUAL_THEN_QR

  lemma ManualScanReachesCommit(s: State)
    requires 4 !in s.calls && LockKey(0, HashOf(Uuid(0))) !in s.locks
    requires s.db.regs == REGS && 0 in s.db.tokens && s.db.tokens[0].hash == HashOf(Random(0))
    requires s.db.checkIns == [CheckIn(0, 0, Valid, false)]
    ensures Run(s, MANUAL_SCAN) ==
            s.(locks := s.locks + {LockKey(0, HashOf(Uuid(0)))}, calls := s.calls[4 := Committing(0, Uuid(0), 0, false, Some(0))])
  {
    var a := MANUAL_SCAN;
    var s1 := Apply(s, a[0]);
    var s2 := Apply(s1, a[1]);
    assert FindToken(s2.db.tokens, HashOf(Uuid(0)), 1) == None;
    var s3 := Apply(s2, a[2]);
    assert s3.calls == s.calls[4 := LookingUp(0, Uuid(0))];
    var s4 := Apply(s3, a[3]);
    assert s4.calls == s.calls[4 := Resolving(0, Uuid(0), 0, false)];
    assert FindCheckIn(s4.db.checkIns, 0, 0) == Some(0);
    var s5 := Apply(s4, a[4]);
    assert s5.calls == s.calls[4 := Committing(0, Uuid(0), 0, false, Some(0))];
    RunOne(s, a[0]);
    RunSnoc(s, [a[0]], a[1]);
    RunSnoc(s, [a[0]] + [a[1]], a[2]);
    RunSnoc(s, [a[0]] + [a[1]] + [a[2]], a[3]);
    RunSnoc(s, [a[0]] + [a[1]] + [a[2]] + [a[3]], a[4]);
    assert a == [a[0]] + [a[1]] + [a[2]] + [a[3]] + [a[4]];
  }

  /** Without the overlap condition three VALID results meet one undo, although the scan counts stay exact. */
  lemma ManualOverlapUnbalances()
    ensures var db := Run(EMPTY, MANUAL_OVERLAP).db;
            && |db.checkIns| == 1 && db.checkIns[0].live && Net(db.log, 0) == 2
            && 0 in db.tokens && db.tokens[0].scanCount == 1
  {
    OpeningState();
    var s0 := AFTER_OPENING;
    QrScanReachesCommit(s0, 3, Random(0), Some(0));
    var s1 := Run(s0, ScanUpToCommit(3, Random(0)));
    ManualScanReachesCommit(s1);
    var s2 := Run(s1, MANUAL_SCAN);
    var s3 := Apply(s2, Commit(4));
    assert s3.db.log == [CheckedIn(0), Undone(0), CheckedIn(0)];
    var s4 := Apply(s3, Commit(3));
    assert s4.db.log == [CheckedIn(0), Undone(0), CheckedIn(0), CheckedIn(0)];
    RunOne(s2, Commit(4));
    RunSnoc(s2, [Commit(4)], Commit(3));
    assert MANUAL_THEN_QR == [Commit(4)] + [Commit(3)];
    RunConcat(EMPTY, OPENING, ScanUpToCommit(3, Random(0)));
    RunConcat(EMPTY, OPENING + ScanUpToCommit(3, Random(0)), MANUAL_SCAN);
    RunConcat(EMPTY, OPENING + ScanUpToCommit(3, Random(0)) + MANUAL_SCAN, MANUAL_THEN_QR);
  }
}
