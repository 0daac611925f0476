/** Token recovery: any number of callers, interleaved with scans and undos, agree on one token. */
module GateRecovery {
  import opened Wrappers
  import opened GateModel
  import opened GateInvariant
  import opened GateLock

  /** No sealing of a random token that is still to be drawn. */
  predicate Drawn(cipher: Option<Cipher>, minted: nat) {
    cipher.Some? && cipher.value.Sealed? && cipher.value.token.Random? ==> cipher.value.token.n < minted
  }

  ghost predicate CiphersDrawn(tokens: map<RegId, QrToken>, calls: map<CallId, Call>, minted: nat) {
    && (forall r :: r in tokens ==> Drawn(tokens[r].cipher, minted))
    && (forall c :: c in calls && calls[c].Rotating? ==> Drawn(calls[c].seen.cipher, minted))
  }

  /** The row a rotating call has read gave nothing back, and since then it is either as it was or has been
      rotated to a row that does give its token back, under another cipher. */
  predicate SeenStands(row: QrToken, seen: QrToken) {
    && RawToken(seen).None?
    && (if row.cipher == seen.cipher then row.hash == seen.hash else RawToken(row).Some?)
  }

  predicate CallAgrees(tokens: map<RegId, QrToken>, c: Call) {
    match c
    case Rotating(reg, seen) => reg in tokens && SeenStands(tokens[reg], seen)
    case Recovered(reg, raw) => reg in tokens && (raw.Some? ==> RawToken(tokens[reg]) == raw)
    case _ => true
  }

  ghost predicate CallsAgree(tokens: map<RegId, QrToken>, calls: map<CallId, Call>) {
    forall c :: c in calls ==> CallAgrees(tokens, calls[c])
  }

  /** Rotated rows give their token back, and each was rotated once. */
  ghost predicate RotationsWell(tokens: map<RegId, QrToken>, rotations: seq<RegId>) {
    && (forall i :: 0 <= i < |rotations| ==> rotations[i] in tokens && RawToken(tokens[rotations[i]]).Some?)
    && (forall i, j :: 0 <= i < j < |rotations| ==> rotations[i] != rotations[j])
  }

  ghost predicate RecoveryInv(s: State) {
    CiphersDrawn(s.db.tokens, s.calls, s.minted) && CallsAgree(s.db.tokens, s.calls) && RotationsWell(s.db.tokens, s.rotations)
  }

  /** Token rows keep hash and cipher; rows may be added. */
  ghost predicate SameSecrets(a: map<RegId, QrToken>, b: map<RegId, QrToken>) {
    && a.Keys <= b.Keys
    && forall r :: r in a ==> b[r].hash == a[r].hash && b[r].cipher == a[r].cipher
  }

  lemma SecretsGiveSameToken(a: QrToken, b: QrToken)
    requires a.hash == b.hash && a.cipher == b.cipher
    ensures RawToken(a) == RawToken(b)
    ensures forall seen :: SeenStands(a, seen) == SeenStands(b, seen)
  {
  }

  lemma FramedKeepsRecovery(s: State, s': State, call: CallId)
    requires RecoveryInv(s) && SameSecrets(s.db.tokens, s'.db.tokens)
    requires s.minted <= s'.minted && s'.rotations == s.rotations
    requires forall r :: r in s'.db.tokens && r !in s.db.tokens ==> Drawn(s'.db.tokens[r].cipher, s'.minted)
    requires forall c :: c in s'.calls && c != call ==> c in s.calls && s'.calls[c] == s.calls[c]
    requires call in s'.calls ==> CallAgrees(s'.db.tokens, s'.calls[call])
    requires call in s'.calls && s'.calls[call].Rotating? ==> Drawn(s'.calls[call].seen.cipher, s'.minted)
    ensures RecoveryInv(s')
  {
    forall r | r in s.db.tokens ensures RawToken(s'.db.tokens[r]) == RawToken(s.db.tokens[r]) {
      SecretsGiveSameToken(s.db.tokens[r], s'.db.tokens[r]);
    }
    forall c | c in s'.calls ensures CallAgrees(s'.db.tokens, s'.calls[c]) {
      if c != call { assert CallAgrees(s.db.tokens, s.calls[c]); }
    }
  }

  /** The heart of the compare-and-set: it succeeds only on a row that was never rotated. */
  lemma RotateKeepsRecovery(s: State, call: CallId, iv: nat, expiresAt: int)
    requires RecoveryInv(s)
    ensures RecoveryInv(DoRotate(s, call, iv, expiresAt))
  {
    var s' := DoRotate(s, call, iv, expiresAt);
    if call in s.calls && s.calls[call].Rotating? && s.calls[call].reg in s.db.tokens {
      var reg := s.calls[call].reg;
      var row := s.db.tokens[reg];
      assert CallAgrees(s.db.tokens, s.calls[call]);
      if CasMatches(row, s.calls[call].seen) {
        assert RawToken(row).None? && reg !in s.rotations;
        forall c | c in s'.calls ensures CallAgrees(s'.db.tokens, s'.calls[c]) {
          if c != call {
            assert CallAgrees(s.db.tokens, s.calls[c]);
          }
        }
      } else {
        FramedKeepsRecovery(s, s', call);
      }
    }
  }

  lemma IssueKeepsRecovery(s: State, reg: RegId, stored: Stored, expiresAt: int)
    requires RecoveryInv(s)
    ensures RecoveryInv(DoIssueToken(s, reg, stored, expiresAt))
  {
    var s' := DoIssueToken(s, reg, stored, expiresAt);
    forall c | c in s'.calls ensures CallAgrees(s'.db.tokens, s'.calls[c]) {
      assert CallAgrees(s.db.tokens, s.calls[c]);
    }
  }

  lemma CommitsKeepSecrets(s: State, a: Action)
    requires a.Commit? || a.CommitUndo?
    ensures SameSecrets(s.db.tokens, Apply(s, a).db.tokens) && Apply(s, a).db.tokens.Keys == s.db.tokens.Keys
  {
  }

  lemma ReadTokenKeepsRecovery(s: State, call: CallId, now: int)
    requires RecoveryInv(s)
    ensures RecoveryInv(DoReadToken(s, call, now))
  {
    FramedKeepsRecovery(s, DoReadToken(s, call, now), call);
  }

  lemma ReadRegistrationKeepsRecovery(s: State, call: CallId)
    requires RecoveryInv(s)
    ensures RecoveryInv(DoReadRegistration(s, call))
  {
    FramedKeepsRecovery(s, DoReadRegistration(s, call), call);
  }

  lemma ReadCheckInKeepsRecovery(s: State, call: CallId)
    requires RecoveryInv(s)
    ensures RecoveryInv(DoReadCheckIn(s, call))
  {
    FramedKeepsRecovery(s, DoReadCheckIn(s, call), call);
  }

  lemma CommitKeepsRecovery(s: State, a: Action)
    requires RecoveryInv(s)
    requires a.Commit? || a.CommitUndo?
    ensures RecoveryInv(Apply(s, a))
  {
    CommitsKeepSecrets(s, a);
    FramedKeepsRecovery(s, Apply(s, a), a.call);
  }

  lemma OtherStepKeepsRecovery(s: State, a: Action)
    requires RecoveryInv(s)
    requires a.BeginScan? || a.AcquireLock? || a.Abort? || a.ReleaseLock? || a.BeginUndo?
    ensures RecoveryInv(Apply(s, a))
  {
    FramedKeepsRecovery(s, Apply(s, a), a.call);
  }

  lemma BeginRecoverKeepsRecovery(s: State, call: CallId, reg: RegId)
    requires RecoveryInv(s)
    ensures RecoveryInv(DoBeginRecover(s, call, reg))
  {
    FramedKeepsRecovery(s, DoBeginRecover(s, call, reg), call);
  }

  lemma ReloadKeepsRecovery(s: State, call: CallId)
    requires RecoveryInv(s)
    ensures RecoveryInv(DoReload(s, call))
  {
    FramedKeepsRecovery(s, DoReload(s, call), call);
  }

  lemma StepKeepsRecovery(s: State, a: Action)
    requires RecoveryInv(s)
    ensures RecoveryInv(Apply(s, a))
  {
    match a
    case Register(_, _, _) =>
    case ExpireLock(_) =>
    case IssueToken(reg, stored, expiresAt) => IssueKeepsRecovery(s, reg, stored, expiresAt);
    case Rotate(call, iv, expiresAt) => RotateKeepsRecovery(s, call, iv, expiresAt);
    case ReadToken(call, now) => ReadTokenKeepsRecovery(s, call, now);
    case ReadRegistration(call) => ReadRegistrationKeepsRecovery(s, call);
    case ReadCheckIn(call) => ReadCheckInKeepsRecovery(s, call);
    case Commit(_) => CommitKeepsRecovery(s, a);
    case CommitUndo(_) => CommitKeepsRecovery(s, a);
    case BeginRecover(call, reg) => BeginRecoverKeepsRecovery(s, call, reg);
    case Reload(call) => ReloadKeepsRecovery(s, call);
    case _ => OtherStepKeepsRecovery(s, a);
  }

  lemma {:induction false} RunKeepsRecovery(s: State, actions: seq<Action>)
    requires RecoveryInv(s)
    ensures RecoveryInv(Run(s, actions))
  {
    if |actions| > 0 {
      RunKeepsRecovery(s, actions[..|actions| - 1]);
      StepKeepsRecovery(Run(s, actions[..|actions| - 1]), actions[|actions| - 1]);
    }
  }

  /** A call that has answered with a token. */
  predicate Given(s: State, c: CallId) {
    c in s.calls && s.calls[c].Recovered? && s.calls[c].raw.Some?
  }

  /** Over every interleaving of recoveries, scans and undos: a token row is rotated at most once, all
      callers that are given a token for a registration are given the same one, and it is the one whose
      hash is stored. */
  lemma RecoveriesAgree(actions: seq<Action>)
    ensures var s := Run(EMPTY, actions);
            && (forall i, j :: 0 <= i < j < |s.rotations| ==> s.rotations[i] != s.rotations[j])
            && (forall c, d :: Given(s, c) && Given(s, d) && s.calls[c].reg == s.calls[d].reg ==> s.calls[c].raw == s.calls[d].raw)
            && (forall c :: Given(s, c) ==>
                  s.calls[c].reg in s.db.tokens && s.db.tokens[s.calls[c].reg].hash == HashOf(s.calls[c].raw.value))
  {
    RunKeepsRecovery(EMPTY, actions);
    var s := Run(EMPTY, actions);
    forall c | Given(s, c)
      ensures s.calls[c].reg in s.db.tokens && RawToken(s.db.tokens[s.calls[c].reg]) == s.calls[c].raw
    {
      assert CallAgrees(s.db.tokens, s.calls[c]);
    }
  }

  /** Nothing but a rotation touches a hash or a cipher. */
  lemma ReadsKeepTokens(s: State, a: Action)
    requires a.ReadToken? || a.ReadRegistration? || a.ReadCheckIn?
    ensures Apply(s, a).db.tokens == s.db.tokens && Apply(s, a).rotations == s.rotations
  {
    match a
    case ReadToken(call, now) => assert DoReadToken(s, call, now).db == s.db;
    case ReadRegistration(call) => assert DoReadRegistration(s, call).db == s.db;
    case ReadCheckIn(call) => assert DoReadCheckIn(s, call).db.tokens == s.db.tokens;
  }

  lemma QuietStepKeepsTokens(s: State, a: Action)
    requires || a.Register? || a.ExpireLock? || a.BeginScan? || a.AcquireLock? || a.Abort? || a.ReleaseLock? || a.BeginUndo?
             || a.BeginRecover? || a.Reload?
    ensures Apply(s, a).db.tokens == s.db.tokens && Apply(s, a).rotations == s.rotations
  {
  }

  lemma SecretsStay(s: State, a: Action)
    requires !a.Rotate?
    ensures SameSecrets(s.db.tokens, Apply(s, a).db.tokens) && Apply(s, a).rotations == s.rotations
  {
    if a.Commit? || a.CommitUndo? {
      CommitsKeepSecrets(s, a);
    } else if a.ReadToken? || a.ReadRegistration? || a.ReadCheckIn? {
      ReadsKeepTokens(s, a);
    } else if !a.IssueToken? {
      QuietStepKeepsTokens(s, a);
    }
  }

  lemma MatchedRotation(s: State, call: CallId, iv: nat, expiresAt: int, reg: RegId)
    requires RecoveryInv(s) && reg in s.db.tokens && RawToken(s.db.tokens[reg]).Some?
    ensures var s' := DoRotate(s, call, iv, expiresAt);
            && reg in s'.db.tokens && s'.db.tokens[reg].hash == s.db.tokens[reg].hash && s'.db.tokens[reg].cipher == s.db.tokens[reg].cipher
            && multiset(s'.rotations)[reg] == multiset(s.rotations)[reg]
  {
    if call in s.calls && s.calls[call].Rotating? && s.calls[call].reg == reg {
      assert CallAgrees(s.db.tokens, s.calls[call]);
    }
  }

  /** A rotation that takes effect gives the row its token, its hash, its cipher and its expiry, and nothing else
      of it or of any other row changes. */
  lemma RotationChanges(s: State, call: CallId, iv: nat, expiresAt: int)
    requires RecoveryInv(s) && DoRotate(s, call, iv, expiresAt).rotations != s.rotations
    ensures var n := DoRotate(s, call, iv, expiresAt);
            && call in s.calls && s.calls[call].Rotating? && s.calls[call].reg in s.db.tokens
            && var r := s.calls[call].reg;
               && !s.db.tokens[r].revoked && n.rotations == s.rotations + [r]
               && n.calls[call] == Recovered(r, Some(Random(s.minted)))
               && n.db == s.db.(tokens := s.db.tokens[r := s.db.tokens[r].(hash := HashOf(Random(s.minted)),
                                cipher := Some(Sealed(Random(s.minted), iv)), expiresAt := expiresAt)])
  {
  }

  lemma MatchedStep(s: State, a: Action, reg: RegId)
    requires RecoveryInv(s) && reg in s.db.tokens && RawToken(s.db.tokens[reg]).Some?
    ensures var s' := Apply(s, a);
            && reg in s'.db.tokens && s'.db.tokens[reg].hash == s.db.tokens[reg].hash && s'.db.tokens[reg].cipher == s.db.tokens[reg].cipher
            && multiset(s'.rotations)[reg] == multiset(s.rotations)[reg]
  {
    if a.Rotate? {
      MatchedRotation(s, a.call, a.iv, a.expiresAt, reg);
    } else {
      SecretsStay(s, a);
    }
  }

  /** A row whose cipher matches its hash is never rotated: from then on its token, hash and cipher stay. */
  lemma {:induction false} MatchedRowIsNeverRotated(s: State, actions: seq<Action>, reg: RegId)
    requires RecoveryInv(s) && reg in s.db.tokens && RawToken(s.db.tokens[reg]).Some?
    ensures var e := Run(s, actions);
            && reg in e.db.tokens && RawToken(e.db.tokens[reg]) == RawToken(s.db.tokens[reg])
            && e.db.tokens[reg].hash == s.db.tokens[reg].hash && e.db.tokens[reg].cipher == s.db.tokens[reg].cipher
            && multiset(e.rotations)[reg] == multiset(s.rotations)[reg]
  {
    if |actions| > 0 {
      var front := actions[..|actions| - 1];
      MatchedRowIsNeverRotated(s, front, reg);
      RunKeepsRecovery(s, front);
      SecretsGiveSameToken(Run(s, front).db.tokens[reg], s.db.tokens[reg]);
      MatchedStep(Run(s, front), actions[|actions| - 1], reg);
      SecretsGiveSameToken(Run(s, actions).db.tokens[reg], s.db.tokens[reg]);
    }
  }

  // ----- tokens issued with their cipher

  /** Every token of the run was issued by generateToken, none imported or damaged. */
  predicate IssuesEncrypted(s: State, a: Action) {
    a.IssueToken? ==> a.stored.Encrypted?
  }

  predicate NoneRotating(s: State) {
    && (forall r :: r in s.db.tokens ==> RawToken(s.db.tokens[r]).Some?)
    && (forall c :: c in s.calls ==> !s.calls[c].Rotating?)
  }

  lemma EncryptedStep(s: State, a: Action)
    requires NoneRotating(s) && IssuesEncrypted(s, a)
    ensures NoneRotating(Apply(s, a))
  {
    match a
    case Commit(_) =>
      CommitsKeepSecrets(s, a);
      forall r | r in Apply(s, a).db.tokens ensures RawToken(Apply(s, a).db.tokens[r]).Some? {
        SecretsGiveSameToken(s.db.tokens[r], Apply(s, a).db.tokens[r]);
      }
    case CommitUndo(_) =>
      CommitsKeepSecrets(s, a);
      forall r | r in Apply(s, a).db.tokens ensures RawToken(Apply(s, a).db.tokens[r]).Some? {
        SecretsGiveSameToken(s.db.tokens[r], Apply(s, a).db.tokens[r]);
      }
    case ReadToken(call, now) => assert DoReadToken(s, call, now).db == s.db;
    case ReadRegistration(call) =>
    case ReadCheckIn(call) =>
    case Rotate(_, _, _) =>
    case _ =>
  }

  lemma {:induction false} EncryptedRunsAreOrderly(actions: seq<Action>)
    requires Throughout(EMPTY, actions, IssuesEncrypted) && Throughout(EMPTY, actions, LockOutlives)
    ensures NoneRotating(Run(EMPTY, actions)) && Throughout(EMPTY, actions, Orderly)
  {
    if |actions| > 0 {
      var front := actions[..|actions| - 1];
      ThroughoutPrefix(EMPTY, actions, IssuesEncrypted);
      ThroughoutPrefix(EMPTY, actions, LockOutlives);
      EncryptedRunsAreOrderly(front);
      EncryptedStep(Run(EMPTY, front), actions[|actions| - 1]);
      forall k | 0 <= k < |actions| ensures Orderly(Run(EMPTY, actions[..k]), actions[k]) {
        if k < |front| {
          assert front[..k] == actions[..k] && Orderly(Run(EMPTY, front[..k]), front[k]);
        } else {
          assert actions[..k] == front;
        }
      }
    }
  }

  /** With every token issued by generateToken, the rotation condition takes care of itself: scan counts are
      exact as soon as locks outlive their scans. */
  lemma EncryptedTokensNeedNoRotationRule(actions: seq<Action>)
    requires Throughout(EMPTY, actions, IssuesEncrypted) && Throughout(EMPTY, actions, LockOutlives)
    ensures CountsExact(Run(EMPTY, actions).db.tokens)
  {
    EncryptedRunsAreOrderly(actions);
    ScanCountIsExact(actions);
  }
}
