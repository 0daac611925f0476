/**
 The gate: registrations, their QR tokens, check-ins and the audit log, the transactions that change them,
 and the calls (scan, undo, token recovery) that interleave. Each database transaction or single statement,
 and each Redis command, is one atomic step; a call remembers between steps only what it has read.
 */
module GateModel {
  import opened Wrappers

  type EventId = nat
  type RegId = nat
  type CheckInId = nat
  type CallId = nat

  /** A scanned text: the hex of a random token, a UUID, or anything else. */
  datatype Token = Random(n: nat) | Uuid(n: nat) | OtherText(n: nat)

  /** SHA-256, taken to be injective. */
  datatype Hash = HashOf(token: Token)

  /** AES-GCM with a random IV; a foreign or damaged payload does not decrypt. */
  datatype Cipher = Sealed(token: Token, iv: nat) | Unreadable(n: nat)

  datatype Status = Pending | Confirmed | Cancelled

  datatype Outcome = Valid | Duplicate | Invalid | Unconfirmed | Expired | WrongEvent | Revoked | Failed

  datatype Attendee = Attendee(event: EventId, status: Status, ticketType: Option<nat>)

  datatype QrToken = QrToken(hash: Hash, cipher: Option<Cipher>, expiresAt: int, revoked: bool, scanCount: int)

  datatype CheckIn = CheckIn(event: EventId, reg: RegId, result: Outcome, live: bool)

  datatype LogEntry = CheckedIn(id: CheckInId) | Undone(id: CheckInId) | DuplicateScan(id: CheckInId)

  /** Registrations and check-ins are never deleted, so their ids are positions. The token table has at
      most one row per registration. */
  datatype Db = Db(regs: seq<Attendee>, tokens: map<RegId, QrToken>, checkIns: seq<CheckIn>, log: seq<LogEntry>)

  // ----- lookups

  /** findUnique on (event, registration). */
  function FindCheckIn(rows: seq<CheckIn>, event: EventId, reg: RegId): (found: Option<CheckInId>)
    ensures found.Some? ==> found.value < |rows| && rows[found.value].event == event && rows[found.value].reg == reg
    ensures found.None? ==> forall i :: 0 <= i < |rows| ==> !(rows[i].event == event && rows[i].reg == reg)
  {
    if |rows| == 0 then None
    else
      var last := rows[|rows| - 1];
      if last.event == event && last.reg == reg then Some(|rows| - 1) else FindCheckIn(rows[..|rows| - 1], event, reg)
  }

  /** findUnique on the token hash, among the first `n` registrations. */
  function FindToken(tokens: map<RegId, QrToken>, hash: Hash, n: nat): (found: Option<RegId>)
    ensures found.Some? ==> found.value < n && found.value in tokens && tokens[found.value].hash == hash
    ensures found.None? ==> forall r :: 0 <= r < n && r in tokens ==> tokens[r].hash != hash
  {
    if n == 0 then None
    else if n - 1 in tokens && tokens[n - 1].hash == hash then Some(n - 1)
    else FindToken(tokens, hash, n - 1)
  }

  // ----- transactions

  /** The token half of a check-in: only a QR scan touches the token. */
  function MarkScanned(tokens: map<RegId, QrToken>, reg: RegId, viaQr: bool): map<RegId, QrToken> {
    if viaQr && reg in tokens then tokens[reg := tokens[reg].(revoked := true, scanCount := tokens[reg].scanCount + 1)]
    else tokens
  }

  /** Create a check-in; refused by the unique index on (event, registration), or when the token row is missing. */
  function TxCreate(db: Db, event: EventId, reg: RegId, viaQr: bool): Option<Db> {
    if FindCheckIn(db.checkIns, event, reg).Some? || (viaQr && reg !in db.tokens) then None
    else Some(Db(db.regs, MarkScanned(db.tokens, reg, viaQr), db.checkIns + [CheckIn(event, reg, Valid, true)],
                 db.log + [CheckedIn(|db.checkIns|)]))
  }

  /** Restore an undone check-in by id, whatever its state is by now. */
  function TxRestore(db: Db, id: CheckInId, viaQr: bool): Db
    requires id < |db.checkIns|
  {
    var row := db.checkIns[id];
    Db(db.regs, MarkScanned(db.tokens, row.reg, viaQr), db.checkIns[id := row.(live := true, result := Valid)],
       db.log + [CheckedIn(id)])
  }

  /** Undo takes effect only on a live check-in; it confirms the registration and reverses a revoked token. */
  function TxUndo(db: Db, id: CheckInId): Option<Db> {
    if id >= |db.checkIns| || !db.checkIns[id].live || db.checkIns[id].reg >= |db.regs| then None
    else
      var row := db.checkIns[id];
      Some(Db(db.regs[row.reg := db.regs[row.reg].(status := Confirmed)], Unscan(db.tokens, row.reg),
              db.checkIns[id := row.(live := false)], db.log + [Undone(id)]))
  }

  function Unscan(tokens: map<RegId, QrToken>, reg: RegId): map<RegId, QrToken> {
    if reg in tokens && tokens[reg].revoked then
      tokens[reg := tokens[reg].(revoked := false, scanCount := tokens[reg].scanCount - 1)]
    else tokens
  }

  // ----- token recovery

  function Decrypt(cipher: Cipher): Option<Token> {
    if cipher.Sealed? then Some(cipher.token) else None
  }

  /** The token a stored row gives back: its cipher decrypts, and to the text the hash was made from. */
  function RawToken(row: QrToken): (raw: Option<Token>)
    ensures raw.Some? ==> row.hash == HashOf(raw.value)
  {
    if row.cipher.None? then None
    else
      match Decrypt(row.cipher.value)
      case None => None
      case Some(t) => if HashOf(t) == row.hash then Some(t) else None
  }

  /** The conditional update: it matches only the cipher that was read, on an unrevoked row. */
  predicate CasMatches(row: QrToken, seen: QrToken) {
    row.cipher == seen.cipher && !row.revoked
  }

  function Rotated(row: QrToken, raw: Token, iv: nat, expiresAt: int): QrToken {
    row.(hash := HashOf(raw), cipher := Some(Sealed(raw, iv)), expiresAt := expiresAt)
  }

  // ----- the decisions of a scan

  /** What a scan concludes from the token row and its registration; None means it goes on to check in. */
  function Verdict(row: QrToken, reg: Attendee, event: EventId, now: int): Option<Outcome> {
    if row.expiresAt < now then Some(Expired)
    else if reg.status != Confirmed then Some(Unconfirmed)
    else if reg.event != event then Some(WrongEvent)
    else if row.revoked then Some(Revoked)
    else None
  }

  function ManualVerdict(regs: seq<Attendee>, id: nat, event: EventId): Option<Outcome> {
    if id >= |regs| || regs[id].event != event then Some(Invalid)
    else if regs[id].status != Confirmed then Some(Unconfirmed)
    else None
  }

  // ----- calls

  datatype Call =
    | Waiting(event: EventId, token: Token)                                           // authorised, no lock yet
    | Holding(event: EventId, token: Token)                                           // lock taken, nothing read
    | LookingUp(event: EventId, token: Token)                                         // no such QR token; it may be a registration id
    | Resolving(event: EventId, token: Token, reg: RegId, viaQr: bool)                // about to read the check-in row
    | Committing(event: EventId, token: Token, reg: RegId, viaQr: bool, existing: Option<CheckInId>)
    | Releasing(event: EventId, token: Token, outcome: Outcome)                       // decided, lock still held
    | Undoing(id: CheckInId)                                                          // read a live check-in, authorised, in the window
    | Rotating(reg: RegId, seen: QrToken)                                             // read a row that gives nothing back
    | Reloading(reg: RegId)                                                           // lost the conditional update
    | Recovered(reg: RegId, raw: Option<Token>)                                       // answered

  datatype LockKey = LockKey(event: EventId, hash: Hash)

  /** `minted` counts the random tokens drawn so far; `rotations` is history. */
  datatype State = State(db: Db, locks: set<LockKey>, calls: map<CallId, Call>, minted: nat, rotations: seq<RegId>)

  const EMPTY := State(Db([], map[], [], []), {}, map[], 0, [])

  /** How a token row is first stored: by generateToken, by an import (no cipher), or with a cipher that
      does not give the token back (another key, damage). */
  datatype Stored = Encrypted(iv: nat) | WithoutCipher | Garbled(cipher: Cipher)

  datatype Action =
    | Register(event: EventId, status: Status, ticketType: Option<nat>)
    | IssueToken(reg: RegId, stored: Stored, expiresAt: int)
    | BeginScan(call: CallId, event: EventId, token: Token)
    | AcquireLock(call: CallId, answered: bool)             // an unanswered SET may still have set the key
    | ReadToken(call: CallId, now: int)
    | ReadRegistration(call: CallId)
    | ReadCheckIn(call: CallId)
    | Commit(call: CallId)
    | Abort(call: CallId)                                   // any statement of a scan may throw
    | ReleaseLock(call: CallId, reached: bool)              // the DEL may be lost
    | ExpireLock(key: LockKey)
    | BeginUndo(call: CallId, event: EventId, id: CheckInId, permitted: bool)
    | CommitUndo(call: CallId)
    | BeginRecover(call: CallId, reg: RegId)
    | Rotate(call: CallId, iv: nat, expiresAt: int)
    | Reload(call: CallId)

  function KeyOf(c: Call): LockKey
    requires c.Waiting? || Held(c)
  {
    LockKey(c.event, HashOf(c.token))
  }

  predicate Held(c: Call) {
    c.Holding? || c.LookingUp? || c.Resolving? || c.Committing? || c.Releasing?
  }

  function Move(s: State, call: CallId, next: Call): State {
    s.(calls := s.calls[call := next])
  }

  function Drop(s: State, call: CallId): State {
    s.(calls := s.calls - {call})
  }

  function DoRegister(s: State, event: EventId, status: Status, ticketType: Option<nat>): State {
    s.(db := s.db.(regs := s.db.regs + [Attendee(event, status, ticketType)]))
  }

  function FirstRow(stored: Stored, minted: nat, expiresAt: int): QrToken {
    var cipher := match stored
      case Encrypted(iv) => Some(Sealed(Random(minted), iv))
      case WithoutCipher => None
      case Garbled(c) => Some(c);
    QrToken(HashOf(Random(minted)), cipher, expiresAt, false, 0)
  }

  /** A garbled cipher cannot be the sealing of a token not yet drawn. */
  predicate Storable(stored: Stored, minted: nat) {
    stored.Garbled? && stored.cipher.Sealed? && stored.cipher.token.Random? ==> stored.cipher.token.n < minted
  }

  function DoIssueToken(s: State, reg: RegId, stored: Stored, expiresAt: int): State {
    if reg >= |s.db.regs| || reg in s.db.tokens || !Storable(stored, s.minted) then s
    else s.(db := s.db.(tokens := s.db.tokens[reg := FirstRow(stored, s.minted, expiresAt)]), minted := s.minted + 1)
  }

  function DoBeginScan(s: State, call: CallId, event: EventId, token: Token): State {
    if call in s.calls then s else Move(s, call, Waiting(event, token))
  }

  /** SET NX; a held lock turns the scan away, and so does a missing answer. */
  function DoAcquireLock(s: State, call: CallId, answered: bool): State {
    if call !in s.calls || !s.calls[call].Waiting? then s
    else
      var c := s.calls[call];
      if KeyOf(c) in s.locks then Drop(s, call)
      else if !answered then Drop(s.(locks := s.locks + {KeyOf(c)}), call)
      else Move(s.(locks := s.locks + {KeyOf(c)}), call, Holding(c.event, c.token))
  }

  function DoReadToken(s: State, call: CallId, now: int): State {
    if call !in s.calls || !s.calls[call].Holding? then s
    else
      var c := s.calls[call];
      match FindToken(s.db.tokens, HashOf(c.token), |s.db.regs|)
      case None => Move(s, call, if c.token.Uuid? then LookingUp(c.event, c.token) else Releasing(c.event, c.token, Invalid))
      case Some(r) =>
        match Verdict(s.db.tokens[r], s.db.regs[r], c.event, now)
        case Some(outcome) => Move(s, call, Releasing(c.event, c.token, outcome))
        case None => Move(s, call, Resolving(c.event, c.token, r, true))
  }

  function DoReadRegistration(s: State, call: CallId): State {
    if call !in s.calls || !s.calls[call].LookingUp? then s
    else
      var c := s.calls[call];
      if !c.token.Uuid? then s
      else
        match ManualVerdict(s.db.regs, c.token.n, c.event)
        case Some(outcome) => Move(s, call, Releasing(c.event, c.token, outcome))
        case None => Move(s, call, Resolving(c.event, c.token, c.token.n, false))
  }

  function DoReadCheckIn(s: State, call: CallId): State {
    if call !in s.calls || !s.calls[call].Resolving? then s
    else
      var c := s.calls[call];
      var found := FindCheckIn(s.db.checkIns, c.event, c.reg);
      if found.Some? && s.db.checkIns[found.value].live then
        Move(s.(db := s.db.(log := s.db.log + [DuplicateScan(found.value)])), call, Releasing(c.event, c.token, Duplicate))
      else Move(s, call, Committing(c.event, c.token, c.reg, c.viaQr, found))
  }

  function DoCommit(s: State, call: CallId): State {
    if call !in s.calls || !s.calls[call].Committing? then s
    else
      var c := s.calls[call];
      match c.existing
      case Some(id) =>
        if id >= |s.db.checkIns| then s
        else Move(s.(db := TxRestore(s.db, id, c.viaQr)), call, Releasing(c.event, c.token, Valid))
      case None =>
        match TxCreate(s.db, c.event, c.reg, c.viaQr)
        case None => Move(s, call, Releasing(c.event, c.token, Failed))
        case Some(db) => Move(s.(db := db), call, Releasing(c.event, c.token, Valid))
  }

  function DoAbort(s: State, call: CallId): State {
    if call !in s.calls || !Held(s.calls[call]) || s.calls[call].Releasing? then s
    else Move(s, call, Releasing(s.calls[call].event, s.calls[call].token, Failed))
  }

  /** DEL, unconditional on who holds the lock. */
  function DoReleaseLock(s: State, call: CallId, reached: bool): State {
    if call !in s.calls || !s.calls[call].Releasing? then s
    else Drop(if reached then s.(locks := s.locks - {KeyOf(s.calls[call])}) else s, call)
  }

  function DoBeginUndo(s: State, call: CallId, event: EventId, id: CheckInId, permitted: bool): State {
    if call in s.calls || id >= |s.db.checkIns| then s
    else if s.db.checkIns[id].event != event || !s.db.checkIns[id].live || !permitted then s
    else Move(s, call, Undoing(id))
  }

  function DoCommitUndo(s: State, call: CallId): State {
    if call !in s.calls || !s.calls[call].Undoing? then s
    else
      match TxUndo(s.db, s.calls[call].id)
      case None => Drop(s, call)
      case Some(db) => Drop(s.(db := db), call)
  }

  function DoBeginRecover(s: State, call: CallId, reg: RegId): State {
    if call in s.calls || reg !in s.db.tokens then s
    else
      var row := s.db.tokens[reg];
      if RawToken(row).Some? then Move(s, call, Recovered(reg, RawToken(row)))
      else if row.revoked then Move(s, call, Recovered(reg, None))
      else Move(s, call, Rotating(reg, row))
  }

  function DoRotate(s: State, call: CallId, iv: nat, expiresAt: int): State {
    if call !in s.calls || !s.calls[call].Rotating? || s.calls[call].reg !in s.db.tokens then s
    else
      var reg := s.calls[call].reg;
      var row := s.db.tokens[reg];
      var raw := Random(s.minted);
      if CasMatches(row, s.calls[call].seen) then
        Move(s.(db := s.db.(tokens := s.db.tokens[reg := Rotated(row, raw, iv, expiresAt)]),
                minted := s.minted + 1, rotations := s.rotations + [reg]), call, Recovered(reg, Some(raw)))
      else Move(s.(minted := s.minted + 1), call, Reloading(reg))
  }

  function DoReload(s: State, call: CallId): State {
    if call !in s.calls || !s.calls[call].Reloading? || s.calls[call].reg !in s.db.tokens then s
    else
      var reg := s.calls[call].reg;
      var row := s.db.tokens[reg];
      Move(s, call, Recovered(reg, if row.revoked then None else RawToken(row)))
  }

  /** One step; an action that is not enabled changes nothing. */
  function Apply(s: State, a: Action): State {
    match a
    case Register(event, status, ticketType) => DoRegister(s, event, status, ticketType)
    case IssueToken(reg, stored, expiresAt) => DoIssueToken(s, reg, stored, expiresAt)
    case BeginScan(call, event, token) => DoBeginScan(s, call, event, token)
    case AcquireLock(call, answered) => DoAcquireLock(s, call, answered)
    case ReadToken(call, now) => DoReadToken(s, call, now)
    case ReadRegistration(call) => DoReadRegistration(s, call)
    case ReadCheckIn(call) => DoReadCheckIn(s, call)
    case Commit(call) => DoCommit(s, call)
    case Abort(call) => DoAbort(s, call)
    case ReleaseLock(call, reached) => DoReleaseLock(s, call, reached)
    case ExpireLock(key) => s.(locks := s.locks - {key})
    case BeginUndo(call, event, id, permitted) => DoBeginUndo(s, call, event, id, permitted)
    case CommitUndo(call) => DoCommitUndo(s, call)
    case BeginRecover(call, reg) => DoBeginRecover(s, call, reg)
    case Rotate(call, iv, expiresAt) => DoRotate(s, call, iv, expiresAt)
    case Reload(call) => DoReload(s, call)
  }

  function Run(s: State, actions: seq<Action>): State {
    if |actions| == 0 then s else Apply(Run(s, actions[..|actions| - 1]), actions[|actions| - 1])
  }
}
