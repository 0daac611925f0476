/** Days on which calls do not overlap: what a scan answers, told from how the live check-in came about. */
module GateSequential {
  import opened Wrappers
  import opened GateModel
  import opened GateInvariant
  import opened GateService

  /** `origin` is history: for each registration with a live check-in, whether a QR scan made it. */
  datatype Day = Day(db: Db, minted: nat, origin: map<RegId, bool>)

  const MORNING := Day(Db([], map[], [], []), 0, map[])

  datatype Op =
    | Enrol(event: EventId, status: Status, ticketType: Option<nat>)
    | Issue(reg: RegId, stored: Stored, expiresAt: int)
    | Scan(event: EventId, token: Token, now: int)
    | Undo(id: CheckInId)
    | Recover(reg: RegId, iv: nat, expiresAt: int)

  /** The registration a scan would check in, and whether by its QR token. */
  function Target(db: Db, token: Token): (RegId, bool) {
    match FindToken(db.tokens, HashOf(token), |db.regs|)
    case Some(r) => (r, true)
    case None => (if token.Uuid? then token.n else 0, false)
  }

  function Perform(d: Day, op: Op): Day {
    match op
    case Enrol(event, status, ticketType) => d.(db := d.db.(regs := d.db.regs + [Attendee(event, status, ticketType)]))
    case Issue(reg, stored, expiresAt) =>
      if reg >= |d.db.regs| || reg in d.db.tokens then d
      else d.(db := d.db.(tokens := d.db.tokens[reg := FirstRow(stored, d.minted, expiresAt)]), minted := d.minted + 1)
    case Scan(event, token, now) =>
      var (outcome, db) := ScanAlone(d.db, event, token, now);
      var (reg, viaQr) := Target(d.db, token);
      d.(db := db, origin := if outcome == Valid then d.origin[reg := viaQr] else d.origin)
    case Undo(id) =>
      (match TxUndo(d.db, id)
       case None => d
       case Some(db) => d.(db := db, origin := d.origin - {d.db.checkIns[id].reg}))
    case Recover(reg, iv, expiresAt) =>
      if reg !in d.db.tokens || RawToken(d.db.tokens[reg]).Some? || d.db.tokens[reg].revoked then d
      else d.(db := d.db.(tokens := d.db.tokens[reg := Rotated(d.db.tokens[reg], Random(d.minted), iv, expiresAt)]), minted := d.minted + 1)
  }

  function After(ops: seq<Op>): Day {
    if |ops| == 0 then MORNING else Perform(After(ops[..|ops| - 1]), ops[|ops| - 1])
  }

  // ----- the invariant

  ghost predicate HashesDistinct(tokens: map<RegId, QrToken>, minted: nat) {
    && (forall r :: r in tokens ==> tokens[r].hash.token.Random? && tokens[r].hash.token.n < minted)
    && (forall r, q :: r in tokens && q in tokens && tokens[r].hash == tokens[q].hash ==> r == q)
  }

  /** A registration has a live check-in exactly when its origin is known. */
  ghost predicate OriginKnown(checkIns: seq<CheckIn>, origin: map<RegId, bool>) {
    && (forall i :: 0 <= i < |checkIns| && checkIns[i].live ==> checkIns[i].reg in origin)
    && (forall r :: r in origin ==> HasLive(checkIns, r))
  }

  /** A token is revoked exactly when its registration was checked in by QR and that check-in is live. */
  ghost predicate RevokedByQr(tokens: map<RegId, QrToken>, origin: map<RegId, bool>) {
    forall r :: r in tokens ==> (tokens[r].revoked <==> r in origin && origin[r])
  }

  ghost predicate QrOriginHasToken(tokens: map<RegId, QrToken>, origin: map<RegId, bool>) {
    forall r :: r in origin && origin[r] ==> r in tokens
  }

  ghost predicate DayInv(d: Day) {
    && DbInv(d.db) && HashesDistinct(d.db.tokens, d.minted)
    && OriginKnown(d.db.checkIns, d.origin) && RevokedByQr(d.db.tokens, d.origin) && QrOriginHasToken(d.db.tokens, d.origin)
  }

  lemma ResolveOrigin(d: Day, event: EventId, reg: RegId, viaQr: bool)
    requires DayInv(d) && ConfirmedAt(d.db.regs, event, reg)
    requires viaQr ==> reg in d.db.tokens
    requires !viaQr || !d.db.tokens[reg].revoked
    ensures var (outcome, db) := ResolveAlone(d.db, event, reg, viaQr);
            && outcome == (if reg in d.origin then Duplicate else Valid)
            && DayInv(d.(db := db, origin := if outcome == Valid then d.origin[reg := viaQr] else d.origin))
  {
    var (outcome, db) := ResolveAlone(d.db, event, reg, viaQr);
    var found := FindCheckIn(d.db.checkIns, event, reg);
    if reg in d.origin {
      var i :| 0 <= i < |d.db.checkIns| && d.db.checkIns[i].reg == reg && d.db.checkIns[i].live;
      assert RowWell(d.db.regs, d.db.checkIns[i]);
    }
    if found.Some? && !d.db.checkIns[found.value].live {
      RestoredOrigin(d, event, reg, viaQr, found.value);
    } else if found.None? {
      CreatedOrigin(d, event, reg, viaQr);
    }
  }

  /** The token side of a check-in agrees with its origin. */
  lemma MarkedOrigin(tokens: map<RegId, QrToken>, minted: nat, origin: map<RegId, bool>, reg: RegId, viaQr: bool)
    requires HashesDistinct(tokens, minted) && RevokedByQr(tokens, origin) && QrOriginHasToken(tokens, origin)
    requires reg !in origin && (viaQr ==> reg in tokens)
    ensures var marked := MarkScanned(tokens, reg, viaQr);
            HashesDistinct(marked, minted) && RevokedByQr(marked, origin[reg := viaQr]) && QrOriginHasToken(marked, origin[reg := viaQr])
  {
  }

  lemma RestoredOrigin(d: Day, event: EventId, reg: RegId, viaQr: bool, id: CheckInId)
    requires DayInv(d) && ConfirmedAt(d.db.regs, event, reg) && (viaQr ==> reg in d.db.tokens) && reg !in d.origin
    requires id < |d.db.checkIns| && d.db.checkIns[id].reg == reg && !d.db.checkIns[id].live
    ensures DayInv(d.(db := TxRestore(d.db, id, viaQr), origin := d.origin[reg := viaQr]))
  {
    RestoreKeepsDbInv(d.db, id, viaQr);
    LiveNow(d.db.checkIns, TxRestore(d.db, id, viaQr).checkIns, d.origin, reg, viaQr, id);
    MarkedOrigin(d.db.tokens, d.minted, d.origin, reg, viaQr);
  }

  lemma CreatedOrigin(d: Day, event: EventId, reg: RegId, viaQr: bool)
    requires DayInv(d) && ConfirmedAt(d.db.regs, event, reg) && (viaQr ==> reg in d.db.tokens) && reg !in d.origin
    requires FindCheckIn(d.db.checkIns, event, reg).None?
    ensures var db := TxCreate(d.db, event, reg, viaQr);
            db.Some? && DayInv(d.(db := db.value, origin := d.origin[reg := viaQr]))
  {
    CreateKeepsDbInv(d.db, event, reg, viaQr);
    LiveNow(d.db.checkIns, TxCreate(d.db, event, reg, viaQr).value.checkIns, d.origin, reg, viaQr, |d.db.checkIns|);
    MarkedOrigin(d.db.tokens, d.minted, d.origin, reg, viaQr);
  }

  lemma LiveNow(a: seq<CheckIn>, b: seq<CheckIn>, origin: map<RegId, bool>, reg: RegId, viaQr: bool, id: nat)
    requires OriginKnown(a, origin)
    requires |a| <= |b| && id < |b| && b[id].reg == reg && b[id].live
    requires forall i :: 0 <= i < |b| && i != id ==> i < |a| && b[i] == a[i]
    requires id < |a| ==> !a[id].live
    ensures OriginKnown(b, origin[reg := viaQr])
  {
    forall r | r in origin[reg := viaQr] ensures HasLive(b, r) {
      if r != reg {
        assert HasLive(a, r);
        var i :| 0 <= i < |a| && a[i].reg == r && a[i].live;
        assert b[i] == a[i];
      }
    }
  }

  lemma ScanKeepsDayInv(d: Day, event: EventId, token: Token, now: int)
    requires DayInv(d)
    ensures DayInv(Perform(d, Scan(event, token, now)))
  {
    match FindToken(d.db.tokens, HashOf(token), |d.db.regs|)
    case Some(r) =>
      if Verdict(d.db.tokens[r], d.db.regs[r], event, now).None? { ResolveOrigin(d, event, r, true); }
    case None =>
      if token.Uuid? && ManualVerdict(d.db.regs, token.n, event).None? { ResolveOrigin(d, event, token.n, false); }
  }

  lemma UndoKeepsDayInv(d: Day, id: CheckInId)
    requires DayInv(d)
    ensures DayInv(Perform(d, Undo(id)))
  {
    UndoKeepsDbInv(d.db, id);
    var r := TxUndo(d.db, id);
    if r.Some? {
      var reg := d.db.checkIns[id].reg;
      forall q | q in d.origin - {reg} ensures HasLive(r.value.checkIns, q) {
        assert HasLive(d.db.checkIns, q);
        var i :| 0 <= i < |d.db.checkIns| && d.db.checkIns[i].reg == q && d.db.checkIns[i].live;
        assert r.value.checkIns[i] == d.db.checkIns[i];
      }
    }
  }

  lemma TokenOpsKeepDayInv(d: Day, op: Op)
    requires DayInv(d) && (op.Enrol? || op.Issue? || op.Recover?)
    ensures DayInv(Perform(d, op))
  {
    match op
    case Enrol(event, status, ticketType) => EnrolKeepsDbInv(d.db, Attendee(event, status, ticketType));
    case Issue(reg, _, _) =>
      if reg in d.origin && Perform(d, op) != d { assert HasLive(d.db.checkIns, reg); }
    case Recover(_, _, _) =>
  }

  lemma EnrolKeepsDbInv(db: Db, reg: Attendee)
    requires DbInv(db)
    ensures DbInv(db.(regs := db.regs + [reg]))
  {
    forall i | 0 <= i < |db.checkIns| ensures RowWell(db.regs + [reg], db.checkIns[i]) {
      assert RowWell(db.regs, db.checkIns[i]);
    }
  }

  lemma {:induction false} DaysKeepInv(ops: seq<Op>)
    ensures DayInv(After(ops))
  {
    if |ops| > 0 {
      DaysKeepInv(ops[..|ops| - 1]);
      var d := After(ops[..|ops| - 1]);
      match ops[|ops| - 1]
      case Scan(event, token, now) => ScanKeepsDayInv(d, event, token, now);
      case Undo(id) => UndoKeepsDayInv(d, id);
      case _ => TokenOpsKeepDayInv(d, ops[|ops| - 1]);
    }
  }

  lemma {:induction false} FindsItsToken(tokens: map<RegId, QrToken>, minted: nat, r: RegId, n: nat)
    requires HashesDistinct(tokens, minted) && r in tokens && r < n
    ensures FindToken(tokens, tokens[r].hash, n) == Some(r)
  {
    if n - 1 != r {
      FindsItsToken(tokens, minted, r, n - 1);
    }
  }

  /** For a confirmed registration whose current token is scanned at its own event before expiry, the
      answer is VALID when no check-in is live, REVOKED when the live one came from a QR scan and DUPLICATE
      when it was manual. */
  lemma SequentialScanAnswers(ops: seq<Op>, r: RegId, token: Token, now: int)
    requires var db := After(ops).db;
             r in db.tokens && r < |db.regs| && db.regs[r].status == Confirmed && db.tokens[r].hash == HashOf(token) && now <= db.tokens[r].expiresAt
    ensures var d := After(ops);
            ScanAlone(d.db, d.db.regs[r].event, token, now).0 ==
            if r !in d.origin then Valid else if d.origin[r] then Revoked else Duplicate
  {
    DaysKeepInv(ops);
    var d := After(ops);
    FindsItsToken(d.db.tokens, d.minted, r, |d.db.regs|);
    if !d.db.tokens[r].revoked {
      ResolveOrigin(d, d.db.regs[r].event, r, true);
    }
  }

  /** Undoing a check-in that a QR scan has just made puts every token row back as it was before the scan. */
  lemma UndoReversesQrScan(ops: seq<Op>, r: RegId, token: Token, now: int, id: CheckInId)
    requires var db := After(ops).db;
             r in db.tokens && r < |db.regs| && db.regs[r].status == Confirmed && db.tokens[r].hash == HashOf(token) && now <= db.tokens[r].expiresAt
    requires r !in After(ops).origin
    requires var db := ScanAlone(After(ops).db, After(ops).db.regs[r].event, token, now).1;
             id < |db.checkIns| && db.checkIns[id].reg == r
    ensures var db := ScanAlone(After(ops).db, After(ops).db.regs[r].event, token, now).1;
            TxUndo(db, id).Some? && TxUndo(db, id).value.tokens == After(ops).db.tokens
  {
    DaysKeepInv(ops);
    var d := After(ops);
    FindsItsToken(d.db.tokens, d.minted, r, |d.db.regs|);
    var event := d.db.regs[r].event;
    UndoReversesResolve(d, event, r, id);
  }

  lemma UndoReversesResolve(d: Day, event: EventId, r: RegId, id: CheckInId)
    requires DayInv(d) && ConfirmedAt(d.db.regs, event, r) && r in d.db.tokens && r !in d.origin
    requires id < |ResolveAlone(d.db, event, r, true).1.checkIns| && ResolveAlone(d.db, event, r, true).1.checkIns[id].reg == r
    ensures var db := ResolveAlone(d.db, event, r, true).1;
            TxUndo(db, id).Some? && TxUndo(db, id).value.tokens == d.db.tokens
  {
    var found := FindCheckIn(d.db.checkIns, event, r);
    var db := ResolveAlone(d.db, event, r, true).1;
    forall i | 0 <= i < |d.db.checkIns| && d.db.checkIns[i].reg == r ensures found == Some(i) && !d.db.checkIns[i].live {
      assert RowWell(d.db.regs, d.db.checkIns[i]);
    }
    assert db.checkIns[id].live;
    assert TxUndo(db, id).value.tokens == d.db.tokens;
  }
}
