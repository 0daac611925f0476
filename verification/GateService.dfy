/** The gate's service calls as written: each runs from start to end, updating rows in place. */
module GateService {
  import opened Wrappers
  import opened GateModel
  import opened GateInvariant
  import opened GateDecisions

  // ----- what an undisturbed call comes to

  function ResolveAlone(db: Db, event: EventId, reg: RegId, viaQr: bool): (Outcome, Db) {
    var found := FindCheckIn(db.checkIns, event, reg);
    if found.Some? && db.checkIns[found.value].live then (Duplicate, db.(log := db.log + [DuplicateScan(found.value)]))
    else if found.Some? then (Valid, TxRestore(db, found.value, viaQr))
    else
      match TxCreate(db, event, reg, viaQr)
      case None => (Failed, db)
      case Some(created) => (Valid, created)
  }

  function ScanAlone(db: Db, event: EventId, token: Token, now: int): (Outcome, Db) {
    match FindToken(db.tokens, HashOf(token), |db.regs|)
    case Some(r) =>
      (match Verdict(db.tokens[r], db.regs[r], event, now)
       case Some(outcome) => (outcome, db)
       case None => ResolveAlone(db, event, r, true))
    case None =>
      if !token.Uuid? then (Invalid, db)
      else
        match ManualVerdict(db.regs, token.n, event)
        case Some(outcome) => (outcome, db)
        case None => ResolveAlone(db, event, token.n, false)
  }

  lemma ResolveAloneResolves(db: Db, event: EventId, reg: RegId, viaQr: bool)
    requires UniquelyIndexed(db) && (viaQr ==> reg in db.tokens)
    ensures var (outcome, after) := ResolveAlone(db, event, reg, viaQr); Resolved(db, after, event, reg, viaQr, outcome)
  {
    var (outcome, after) := ResolveAlone(db, event, reg, viaQr);
    var found := FindCheckIn(db.checkIns, event, reg);
    if exists id: CheckInId :: LiveRow(db.checkIns, event, reg, id) {
      var id: CheckInId :| LiveRow(db.checkIns, event, reg, id);
      assert found == Some(id);
    } else {
      if found.Some? { assert !LiveRow(db.checkIns, event, reg, found.value); }
      assert EntersAt(db, after, event, reg, viaQr, if found.Some? then found.value else |db.checkIns|);
    }
  }

  /** An undisturbed scan answers by the decision table. */
  lemma ScanAloneDecides(db: Db, event: EventId, token: Token, now: int)
    requires UniquelyIndexed(db)
    ensures Decided(db, ScanAlone(db, event, token, now).1, event, token, now, ScanAlone(db, event, token, now).0)
  {
    var (outcome, after) := ScanAlone(db, event, token, now);
    var found := FindToken(db.tokens, HashOf(token), |db.regs|);
    if found.Some? {
      assert TokenRow(db, found.value, token);
      ResolveAloneResolves(db, event, found.value, true);
      forall r | TokenRow(db, r, token) ensures QrDecided(db, after, event, r, now, outcome) {
        assert r == found.value;
      }
    } else if token.Uuid? {
      ResolveAloneResolves(db, event, token.n, false);
    }
  }

  /** The schedule of a scan nobody interrupts; the steps its case does not need change nothing. */
  function ScanSchedule(call: CallId, event: EventId, token: Token, now: int): seq<Action> {
    [BeginScan(call, event, token), AcquireLock(call, true), ReadToken(call, now), ReadRegistration(call), ReadCheckIn(call),
     Commit(call), ReleaseLock(call, true)]
  }

  /** Apply a list of actions from the front. */
  function RunFrom(s: State, actions: seq<Action>): State
    decreases |actions|
  {
    if |actions| == 0 then s else RunFrom(Apply(s, actions[0]), actions[1..])
  }

  lemma {:induction false} RunFromIsRun(s: State, actions: seq<Action>)
    ensures RunFrom(s, actions) == Run(s, actions)
    decreases |actions|
  {
    if |actions| > 0 {
      RunFromIsRun(Apply(s, actions[0]), actions[1..]);
      RunHead(s, actions);
    }
  }

  lemma {:induction false} RunHead(s: State, actions: seq<Action>)
    requires |actions| > 0
    ensures Run(s, actions) == Run(Apply(s, actions[0]), actions[1..])
    decreases |actions|
  {
    if |actions| == 1 {
      assert actions[..0] == [] && actions[1..] == [];
      assert Run(s, []) == s;
    } else {
      RunHead(s, actions[..|actions| - 1]);
      assert actions[..|actions| - 1][1..] == actions[1..][..|actions| - 2];
    }
  }

  /** From the check-in row on: read it, commit, release. */
  lemma ResolveRuns(s: State, call: CallId)
    requires call in s.calls && s.calls[call].Resolving?
    ensures var c := s.calls[call];
            DoReleaseLock(DoCommit(DoReadCheckIn(s, call), call), call, true) ==
            s.(db := ResolveAlone(s.db, c.event, c.reg, c.viaQr).1, locks := s.locks - {KeyOf(c)}, calls := s.calls - {call})
  {
    var c := s.calls[call];
    var s1 := DoReadCheckIn(s, call);
    var s2 := DoCommit(s1, call);
    var found := FindCheckIn(s.db.checkIns, c.event, c.reg);
    if found.Some? && s.db.checkIns[found.value].live {
      assert s2 == s1;
    } else {
      assert s1.calls[call] == Committing(c.event, c.token, c.reg, c.viaQr, found) && s1.db == s.db;
    }
    assert s2.db == ResolveAlone(s.db, c.event, c.reg, c.viaQr).1;
    assert s2.calls[call].Releasing? && KeyOf(s2.calls[call]) == KeyOf(c) && s2.locks == s.locks;
    assert s2.calls - {call} == s.calls - {call};
  }

  lemma ReleaseRuns(s: State, call: CallId)
    requires call in s.calls && s.calls[call].Releasing?
    ensures DoReleaseLock(DoCommit(DoReadCheckIn(DoReadRegistration(s, call), call), call), call, true) ==
            s.(locks := s.locks - {KeyOf(s.calls[call])}, calls := s.calls - {call})
  {
  }

  lemma HoldingRuns(s: State, call: CallId, now: int)
    requires call in s.calls && s.calls[call].Holding?
    ensures var c := s.calls[call];
            DoReleaseLock(DoCommit(DoReadCheckIn(DoReadRegistration(DoReadToken(s, call, now), call), call), call), call, true) ==
            s.(db := ScanAlone(s.db, c.event, c.token, now).1, locks := s.locks - {KeyOf(c)}, calls := s.calls - {call})
  {
    var c := s.calls[call];
    var s1 := DoReadToken(s, call, now);
    var s2 := DoReadRegistration(s1, call);
    assert s1.db == s2.db == s.db && s1.locks == s2.locks == s.locks && s1.minted == s2.minted == s.minted && s1.rotations == s2.rotations == s.rotations;
    assert s2.calls - {call} == s1.calls - {call} == s.calls - {call};
    if s1.calls[call].Releasing? {
      ReleaseRuns(s1, call);
    } else if s2.calls[call].Releasing? {
      ReleaseRuns(s2, call);
      assert DoReadRegistration(s2, call) == s2;
    } else {
      ResolveRuns(s2, call);
    }
  }

  /** A scan that meets a free lock and no interference does to the database exactly what ScanAlone says,
      and leaves locks and other calls as they were. */
  lemma UninterruptedScan(s: State, call: CallId, event: EventId, token: Token, now: int)
    requires call !in s.calls && LockKey(event, HashOf(token)) !in s.locks
    ensures Run(s, ScanSchedule(call, event, token, now)) == s.(db := ScanAlone(s.db, event, token, now).1)
  {
    ScheduleRuns(s, call, event, token, now);
    ScanBegins(s, call, event, token);
    var s2 := s.(locks := s.locks + {LockKey(event, HashOf(token))}, calls := s.calls[call := Holding(event, token)]);
    HoldingRuns(s2, call, now);
    assert s2.calls - {call} == s.calls && s2.locks - {LockKey(event, HashOf(token))} == s.locks;
  }

  lemma ScheduleRuns(s: State, call: CallId, event: EventId, token: Token, now: int)
    ensures Run(s, ScanSchedule(call, event, token, now)) ==
            DoReleaseLock(DoCommit(DoReadCheckIn(DoReadRegistration(DoReadToken(DoAcquireLock(DoBeginScan(s, call, event, token), call, true),
                                                                                call, now), call), call), call), call, true)
  {
    RunSeven(s, ScanSchedule(call, event, token, now));
  }

  lemma ScanBegins(s: State, call: CallId, event: EventId, token: Token)
    requires call !in s.calls && LockKey(event, HashOf(token)) !in s.locks
    ensures DoAcquireLock(DoBeginScan(s, call, event, token), call, true) ==
            s.(locks := s.locks + {LockKey(event, HashOf(token))}, calls := s.calls[call := Holding(event, token)])
  {
    assert s.calls[call := Waiting(event, token)][call := Holding(event, token)] == s.calls[call := Holding(event, token)];
  }

  lemma RunSeven(s: State, a: seq<Action>)
    requires |a| == 7
    ensures Run(s, a) == Apply(Apply(Apply(Apply(Apply(Apply(Apply(s, a[0]), a[1]), a[2]), a[3]), a[4]), a[5]), a[6])
  {
    RunFromIsRun(s, a);
    RunThreeMore(s, a);
    RunThreeMore(Apply(Apply(Apply(s, a[0]), a[1]), a[2]), a[3..]);
    assert a[3..][3..] == a[6..];
    var s6 := RunFrom(Apply(Apply(Apply(Apply(Apply(Apply(s, a[0]), a[1]), a[2]), a[3]), a[4]), a[5]), a[6..]);
    assert a[6..][1..] == [];
  }

  lemma RunThreeMore(s: State, a: seq<Action>)
    requires |a| >= 3
    ensures RunFrom(s, a) == RunFrom(Apply(Apply(Apply(s, a[0]), a[1]), a[2]), a[3..])
  {
    assert a[1..][1..] == a[2..] && a[2..][1..] == a[3..];
    var s1 := Apply(s, a[0]);
    var s2 := Apply(s1, a[1]);
    assert RunFrom(s1, a[1..]) == RunFrom(s2, a[2..]);
    assert RunFrom(s2, a[2..]) == RunFrom(Apply(s2, a[2]), a[3..]);
  }

  // ----- the service

  datatype ScanAnswer = NotAuthorized | ScanInProgress | Answered(outcome: Outcome)

  datatype UndoAnswer = Success | NotFound | Forbidden | WindowExpired

  class Gate {
    var regs: seq<Attendee>
    var tokens: map<RegId, QrToken>
    var checkIns: seq<CheckIn>
    var log: seq<LogEntry>
    var locks: set<LockKey>
    var minted: nat

    ghost function Contents(): Db
      reads this
    {
      Db(regs, tokens, checkIns, log)
    }

    /** scanQr. `authorised` is what the owner and staff-assignment reads came to. */
    method ScanQr(event: EventId, token: Token, authorised: bool, now: int) returns (answer: ScanAnswer)
      modifies this
      ensures locks == old(locks) && minted == old(minted)
      ensures !authorised ==> answer == NotAuthorized && Contents() == old(Contents())
      ensures authorised && LockKey(event, HashOf(token)) in old(locks) ==> answer == ScanInProgress && Contents() == old(Contents())
      ensures authorised && LockKey(event, HashOf(token)) !in old(locks) ==> answer.Answered?
      ensures answer.Answered? && UniquelyIndexed(old(Contents())) ==>
                Decided(old(Contents()), Contents(), event, token, now, answer.outcome)
      ensures authorised && LockKey(event, HashOf(token)) !in old(locks) ==>
                answer == Answered(ScanAlone(old(Contents()), event, token, now).0) && Contents() == ScanAlone(old(Contents()), event, token, now).1
    {
      if !authorised {
        return NotAuthorized;
      }
      var lockKey := LockKey(event, HashOf(token));
      var lockHeld := lockKey !in locks;
      if !lockHeld {
        return ScanInProgress;
      }
      locks := locks + {lockKey};
      var scanResult;
      var qrToken := FindToken(tokens, HashOf(token), |regs|);
      if qrToken.None? {
        if !token.Uuid? {
          scanResult := Invalid;
        } else if token.n >= |regs| || regs[token.n].event != event {
          scanResult := Invalid;
        } else if regs[token.n].status != Confirmed {
          scanResult := Unconfirmed;
        } else {
          scanResult := ResolveCheckIn(event, token.n, false);
        }
      } else {
        var row := tokens[qrToken.value];
        var registration := regs[qrToken.value];
        if row.expiresAt < now {
          scanResult := Expired;
        } else if registration.status != Confirmed {
          scanResult := Unconfirmed;
        } else if registration.event != event {
          scanResult := WrongEvent;
        } else if row.revoked {
          scanResult := Revoked;
        } else {
          scanResult := ResolveCheckIn(event, qrToken.value, true);
        }
      }
      locks := locks - {lockKey};
      answer := Answered(scanResult);
      if UniquelyIndexed(old(Contents())) { ScanAloneDecides(old(Contents()), event, token, now); }
    }

    /** resolveCheckIn: create a check-in, restore an undone one, or log a duplicate. */
    method ResolveCheckIn(event: EventId, reg: RegId, viaQr: bool) returns (outcome: Outcome)
      modifies this
      ensures locks == old(locks) && minted == old(minted)
      ensures (outcome, Contents()) == ResolveAlone(old(Contents()), event, reg, viaQr)
    {
      var existing := FindCheckIn(checkIns, event, reg);
      if existing.Some? && checkIns[existing.value].live {
        log := log + [DuplicateScan(existing.value)];
        return Duplicate;
      }
      if existing.Some? {
        var row := checkIns[existing.value];
        checkIns := checkIns[existing.value := row.(live := true, result := Valid)];
        if viaQr && row.reg in tokens {
          tokens := tokens[row.reg := tokens[row.reg].(revoked := true, scanCount := tokens[row.reg].scanCount + 1)];
        }
        log := log + [CheckedIn(existing.value)];
        return Valid;
      }
      if viaQr && reg !in tokens {
        return Failed;
      }
      checkIns := checkIns + [CheckIn(event, reg, Valid, true)];
      if viaQr {
        tokens := tokens[reg := tokens[reg].(revoked := true, scanCount := tokens[reg].scanCount + 1)];
      }
      log := log + [CheckedIn(|checkIns| - 1)];
      outcome := Valid;
    }

    /** undoCheckin. `authorised` and `inWindow` are what the owner, staff and 24-hour checks came to. */
    method UndoCheckin(event: EventId, id: CheckInId, authorised: bool, inWindow: bool) returns (answer: UndoAnswer)
      requires forall i :: 0 <= i < |checkIns| ==> checkIns[i].reg < |regs|
      modifies this
      ensures locks == old(locks) && minted == old(minted)
      ensures answer == NotFound <==> id >= |old(checkIns)| || old(checkIns)[id].event != event || !old(checkIns)[id].live
      ensures answer != NotFound ==> (answer == Forbidden <==> !authorised) && (answer == WindowExpired <==> authorised && !inWindow)
      ensures answer == Success ==> Some(Contents()) == TxUndo(old(Contents()), id) && LeavesAt(old(Contents()), Contents(), id)
      ensures answer != Success ==> Contents() == old(Contents())
    {
      if id >= |checkIns| || checkIns[id].event != event || !checkIns[id].live {
        return NotFound;
      }
      if !authorised {
        return Forbidden;
      }
      if !inWindow {
        return WindowExpired;
      }
      var row := checkIns[id];
      checkIns := checkIns[id := row.(live := false)];
      log := log + [Undone(id)];
      regs := regs[row.reg := regs[row.reg].(status := Confirmed)];
      if row.reg in tokens && tokens[row.reg].revoked {
        tokens := tokens[row.reg := tokens[row.reg].(revoked := false, scanCount := tokens[row.reg].scanCount - 1)];
      }
      answer := Success;
    }

    /** generateToken: refused when the registration has a token already. */
    method GenerateToken(reg: RegId, iv: nat, expiresAt: int) returns (raw: Option<Token>)
      modifies this
      ensures raw.Some? <==> reg !in old(tokens)
      ensures raw.Some? ==> && tokens == old(tokens)[reg := FirstRow(Encrypted(iv), old(minted), expiresAt)]
                            && minted == old(minted) + 1
                            && RawToken(tokens[reg]) == raw && raw == Some(Random(old(minted)))
                            && tokens[reg] == QrToken(HashOf(raw.value), Some(Sealed(raw.value, iv)), expiresAt, false, 0)
      ensures raw.None? ==> tokens == old(tokens) && minted == old(minted)
      ensures regs == old(regs) && checkIns == old(checkIns) && log == old(log) && locks == old(locks)
    {
      if reg in tokens {
        return None;
      }
      var token := Random(minted);
      tokens := tokens[reg := QrToken(HashOf(token), Some(Sealed(token, iv)), expiresAt, false, 0)];
      minted := minted + 1;
      raw := Some(token);
    }

    /** recoverRawToken on the stored row: the stored token, or one rotation, or nothing for a revoked row. */
    method RecoverRawToken(reg: RegId, iv: nat, expiresAt: int) returns (raw: Option<Token>)
      modifies this
      ensures regs == old(regs) && checkIns == old(checkIns) && log == old(log) && locks == old(locks)
      ensures forall r :: r in old(tokens) <==> r in tokens
      ensures forall r :: r in tokens && r != reg ==> tokens[r] == old(tokens)[r]
      ensures raw.None? <==> reg !in old(tokens) || (RawToken(old(tokens)[reg]).None? && old(tokens)[reg].revoked)
      ensures raw.Some? ==> RawToken(tokens[reg]) == raw && tokens[reg].hash == HashOf(raw.value)
      ensures reg in old(tokens) && (RawToken(old(tokens)[reg]).Some? || old(tokens)[reg].revoked) ==> tokens == old(tokens) && minted == old(minted)
      ensures reg in old(tokens) && RawToken(old(tokens)[reg]).None? && !old(tokens)[reg].revoked ==>
                && raw == Some(Random(old(minted)))
                && tokens[reg] == old(tokens)[reg].(hash := HashOf(raw.value), cipher := Some(Sealed(raw.value, iv)), expiresAt := expiresAt)
    {
      if reg !in tokens {
        return None;
      }
      var qrToken := tokens[reg];
      if qrToken.cipher.Some? {
        var decrypted := Decrypt(qrToken.cipher.value);
        if decrypted.Some? && HashOf(decrypted.value) == qrToken.hash {
          return decrypted;
        }
      }
      if qrToken.revoked {
        return None;
      }
      var token := Random(minted);
      minted := minted + 1;
      var row := tokens[reg];
      if row.cipher == qrToken.cipher && !row.revoked {
        tokens := tokens[reg := row.(hash := HashOf(token), cipher := Some(Sealed(token, iv)), expiresAt := expiresAt)];
      }
      raw := Some(token);
    }
  }
}
