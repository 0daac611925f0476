/** What a scan must answer, told from the stored rows alone, and what it may change. */
module GateDecisions {
  import opened Wrappers
  import opened GateModel

  /** The unique indexes on the token hash and on (event, registration) of the check-ins. */
  ghost predicate UniquelyIndexed(db: Db) {
    && (forall r, q :: r in db.tokens && q in db.tokens && db.tokens[r].hash == db.tokens[q].hash ==> r == q)
    && (forall i, j :: 0 <= i < j < |db.checkIns| ==>
          !(db.checkIns[i].event == db.checkIns[j].event && db.checkIns[i].reg == db.checkIns[j].reg))
  }

  /** The token row of registration `r` is the one the scanned text hashes to. */
  predicate TokenRow(db: Db, r: RegId, token: Token) {
    r < |db.regs| && r in db.tokens && db.tokens[r].hash == HashOf(token)
  }

  predicate LiveRow(rows: seq<CheckIn>, event: EventId, reg: RegId, id: CheckInId) {
    id < |rows| && rows[id].event == event && rows[id].reg == reg && rows[id].live
  }

  /** Check-in row `id`, new or undone before, becomes live; a QR scan also revokes the token and counts. */
  ghost predicate EntersAt(before: Db, after: Db, event: EventId, reg: RegId, viaQr: bool, id: CheckInId) {
    && after.regs == before.regs
    && id <= |before.checkIns| && |after.checkIns| == (if id < |before.checkIns| then |before.checkIns| else id + 1)
    && LiveRow(after.checkIns, event, reg, id) && after.checkIns[id].result == Valid
    && (id < |before.checkIns| ==> before.checkIns[id].event == event && before.checkIns[id].reg == reg && !before.checkIns[id].live)
    && (forall i :: 0 <= i < |before.checkIns| && i != id ==> after.checkIns[i] == before.checkIns[i])
    && after.log == before.log + [CheckedIn(id)]
    && after.tokens.Keys == before.tokens.Keys
    && forall r :: r in before.tokens ==>
         after.tokens[r] == if viaQr && r == reg then before.tokens[r].(revoked := true, scanCount := before.tokens[r].scanCount + 1)
                            else before.tokens[r]
  }

  /** Check-in `id` is undone: no longer live, its registration confirmed, and a revoked token given back. */
  ghost predicate LeavesAt(before: Db, after: Db, id: CheckInId)
    requires id < |before.checkIns| && before.checkIns[id].reg < |before.regs|
  {
    var reg := before.checkIns[id].reg;
    && after.checkIns == before.checkIns[id := before.checkIns[id].(live := false)]
    && after.regs == before.regs[reg := before.regs[reg].(status := Confirmed)]
    && after.log == before.log + [Undone(id)]
    && after.tokens.Keys == before.tokens.Keys
    && forall r :: r in before.tokens ==>
         after.tokens[r] == if r == reg && before.tokens[r].revoked
                            then before.tokens[r].(revoked := false, scanCount := before.tokens[r].scanCount - 1)
                            else before.tokens[r]
  }

  /** A registration that may enter: a duplicate while it has a live check-in, otherwise it enters. */
  ghost predicate Resolved(before: Db, after: Db, event: EventId, reg: RegId, viaQr: bool, outcome: Outcome) {
    if exists id: CheckInId :: LiveRow(before.checkIns, event, reg, id) then
      outcome == Duplicate
      && exists id: CheckInId :: LiveRow(before.checkIns, event, reg, id) && after == before.(log := before.log + [DuplicateScan(id)])
    else
      outcome == Valid && exists id: CheckInId :: EntersAt(before, after, event, reg, viaQr, id)
  }

  /** A QR token: expired before not confirmed before another event before revoked, and none of these writes. */
  ghost predicate QrDecided(before: Db, after: Db, event: EventId, r: RegId, now: int, outcome: Outcome)
    requires r < |before.regs| && r in before.tokens
  {
    if before.tokens[r].expiresAt < now then outcome == Expired && after == before
    else if before.regs[r].status != Confirmed then outcome == Unconfirmed && after == before
    else if before.regs[r].event != event then outcome == WrongEvent && after == before
    else if before.tokens[r].revoked then outcome == Revoked && after == before
    else Resolved(before, after, event, r, true, outcome)
  }

  /** No QR token: only the id of a confirmed registration of this event enters. */
  ghost predicate ManuallyDecided(before: Db, after: Db, event: EventId, token: Token, outcome: Outcome) {
    if !token.Uuid? || token.n >= |before.regs| || before.regs[token.n].event != event then outcome == Invalid && after == before
    else if before.regs[token.n].status != Confirmed then outcome == Unconfirmed && after == before
    else Resolved(before, after, event, token.n, false, outcome)
  }

  /** The decision table of a scan. */
  ghost predicate Decided(before: Db, after: Db, event: EventId, token: Token, now: int, outcome: Outcome) {
    && (forall r :: TokenRow(before, r, token) ==> QrDecided(before, after, event, r, now, outcome))
    && ((forall r :: !TokenRow(before, r, token)) ==> ManuallyDecided(before, after, event, token, outcome))
  }
}
