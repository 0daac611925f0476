/** Seats: events, ticket types and registrations, and the two transactions that hand seats out, the public
    one and one row of an import. */
module Allocation {
  import opened Wrappers

  type EventId = nat
  type TypeId = string

  datatype Event = Event(capacity: Option<nat>, paid: bool)

  datatype TicketType = TicketType(event: EventId, name: string, capacity: Option<nat>, sold: int, active: bool, price: int)

  datatype Source = PublicLink | Import

  datatype Registration = Registration(
    event: EventId, email: string, ticketType: Option<TypeId>, cancelled: bool, source: Source,
    code: nat, confirmation: Option<nat>, qrIssued: bool)

  /** `codes` are the (event, code) pairs of the ticket-code table; `tokens` the registrations with a QR token. */
  datatype Db = Db(
    events: map<EventId, Event>,
    types: map<TypeId, TicketType>,
    regs: seq<Registration>,
    codes: set<(EventId, nat)>,
    tokens: set<nat>)

  /** COUNT of an event's registrations that are not cancelled. */
  function Active(regs: seq<Registration>, event: EventId): nat {
    if |regs| == 0 then 0
    else
      var last := regs[|regs| - 1];
      Active(regs[..|regs| - 1], event) + if last.event == event && !last.cancelled then 1 else 0
  }

  lemma ActiveAppends(regs: seq<Registration>, r: Registration, e: EventId)
    ensures Active(regs + [r], e) == Active(regs, e) + if r.event == e && !r.cancelled then 1 else 0
  {
    assert (regs + [r])[..|regs|] == regs;
  }

  /** The registrations of an event that are not cancelled. */
  function ActiveIds(regs: seq<Registration>, event: EventId): set<nat> {
    set i: nat | i < |regs| && regs[i].event == event && !regs[i].cancelled
  }

  lemma {:induction false} ActiveIsCount(regs: seq<Registration>, event: EventId)
    ensures Active(regs, event) == |ActiveIds(regs, event)|
  {
    if |regs| > 0 {
      var n := |regs| - 1;
      ActiveIsCount(regs[..n], event);
      var counted := regs[n].event == event && !regs[n].cancelled;
      assert ActiveIds(regs, event) == ActiveIds(regs[..n], event) + if counted then {n} else {};
    }
  }

  predicate EmailTaken(regs: seq<Registration>, event: EventId, email: string) {
    exists i :: 0 <= i < |regs| && regs[i].event == event && regs[i].email == email
  }

  predicate ConfirmationTaken(regs: seq<Registration>, confirmation: Option<nat>) {
    confirmation.Some? && exists i :: 0 <= i < |regs| && regs[i].confirmation == confirmation
  }

  function CapacityOf(db: Db, event: EventId): Option<nat> {
    if event in db.events then db.events[event].capacity else None
  }

  predicate HasRoom(capacity: Option<nat>, used: int) {
    capacity.None? || used < capacity.value
  }

  /** Set quantity_sold of a type. */
  function WithSold(types: map<TypeId, TicketType>, t: TypeId, delta: int): map<TypeId, TicketType>
    requires t in types
  {
    types[t := types[t].(sold := types[t].sold + delta)]
  }

  // ----- the public transaction

  datatype Request = Request(event: EventId, email: string, ticketType: Option<TypeId>)

  datatype TxResult = Created(db: Db) | CapacityExceeded | TicketTypeFull | UniqueViolation

  function FreeRegistration(req: Request, code: nat, confirmation: nat): Registration {
    Registration(req.event, req.email, req.ticketType, false, PublicLink, code, Some(confirmation), false)
  }

  /** The creation transaction, with the event row locked: re-count, guarded increment, ticket code,
      registration. Any unique index violated rolls all of it back. */
  function CreateTx(db: Db, req: Request, code: nat, confirmation: nat): TxResult {
    if !HasRoom(CapacityOf(db, req.event), Active(db.regs, req.event)) then CapacityExceeded
    else if req.ticketType.Some? && !Guarded(db.types, req.ticketType.value) then TicketTypeFull
    else if (req.event, code) in db.codes || EmailTaken(db.regs, req.event, req.email) || ConfirmationTaken(db.regs, Some(confirmation)) then
      UniqueViolation
    else Created(db.(types := if req.ticketType.Some? then WithSold(db.types, req.ticketType.value, 1) else db.types,
                     codes := db.codes + {(req.event, code)},
                     regs := db.regs + [FreeRegistration(req, code, confirmation)]))
  }

  /** The WHERE clause of the guarded increment. */
  predicate Guarded(types: map<TypeId, TicketType>, t: TypeId) {
    t in types && types[t].active && HasRoom(types[t].capacity, types[t].sold)
  }

  // ----- one row of an import

  datatype Entry = Entry(rowNumber: nat, email: string, ticketType: Option<TypeId>)

  /** One attempt to insert a ticket code: the code drawn, or a failure other than a collision. */
  datatype CodeDraw = Drawn(code: nat) | DrawFails

  /** Which of a row's statements fail of their own accord. */
  datatype RowFaults = RowFaults(
    readFails: bool, claimFails: bool, draws: seq<CodeDraw>, regFails: bool, tokenFails: bool,
    undoClaimFails: bool, undoCodeFails: bool)

  const MAX_TICKET_CODE_ATTEMPTS := 3

  /** The code-insertion loop from attempt `k` on. */
  function TakeCode(codes: set<(EventId, nat)>, event: EventId, draws: seq<CodeDraw>, k: nat): (code: Option<nat>)
    ensures code.Some? ==> (event, code.value) !in codes && Drawn(code.value) in draws
    decreases MAX_TICKET_CODE_ATTEMPTS - k
  {
    if k >= MAX_TICKET_CODE_ATTEMPTS || k >= |draws| || draws[k].DrawFails? then None
    else if (event, draws[k].code) in codes then TakeCode(codes, event, draws, k + 1)
    else Some(draws[k].code)
  }

  datatype RowResult =
    | BatchThrows                                            // a statement outside the row's own try failed
    | RowDone(db: Db, ok: bool, leaked: Option<TypeId>)      // `leaked`: a claim whose reversal failed

  /** Reverse what a failed row did, as far as the reversals themselves succeed. A code already referenced
      by a registration cannot be deleted. */
  function Compensated(db: Db, event: EventId, claimed: Option<TypeId>, code: Option<nat>, registered: bool, f: RowFaults): RowResult {
    var undoClaim := claimed.Some? && claimed.value in db.types && !f.undoClaimFails;
    var types := if undoClaim then WithSold(db.types, claimed.value, -1) else db.types;
    var codes := if code.Some? && !registered && !f.undoCodeFails then db.codes - {(event, code.value)} else db.codes;
    RowDone(db.(types := types, codes := codes), false, if claimed.Some? && !undoClaim then claimed else None)
  }

  function ImportedRegistration(event: EventId, entry: Entry, code: nat): Registration {
    Registration(event, entry.email, entry.ticketType, false, Import, code, None, true)
  }

  /** The rest of a row once its claim stands: code, registration, token. */
  function Settled(db: Db, event: EventId, entry: Entry, claimed: Option<TypeId>, f: RowFaults): RowResult {
    match TakeCode(db.codes, event, f.draws, 0)
    case None => Compensated(db, event, claimed, None, false, f)
    case Some(code) =>
      var coded := db.(codes := db.codes + {(event, code)});
      if f.regFails || EmailTaken(db.regs, event, entry.email) || (entry.ticketType.Some? && entry.ticketType.value !in db.types) then
        Compensated(coded, event, claimed, Some(code), false, f)
      else
        var registered := coded.(regs := db.regs + [ImportedRegistration(event, entry, code)]);
        if f.tokenFails then Compensated(registered, event, claimed, Some(code), true, f)
        else RowDone(registered.(tokens := db.tokens + {|db.regs|}), true, None)
  }

  /** Claim, code, registration, token; a failing statement is taken to have no effect and the transaction
      to stay usable, which is what the compensation relies on. */
  function CommitRow(db: Db, event: EventId, entry: Entry, claimable: set<TypeId>, f: RowFaults): RowResult {
    var lookedUp := entry.ticketType.Some? && entry.ticketType.value in claimable;
    var claims := lookedUp && entry.ticketType.value in db.types;
    if lookedUp && f.readFails then BatchThrows
    else if claims && (f.claimFails || !HasRoom(db.types[entry.ticketType.value].capacity, db.types[entry.ticketType.value].sold)) then
      RowDone(db, false, None)
    else
      Settled(if claims then db.(types := WithSold(db.types, entry.ticketType.value, 1)) else db,
              event, entry, if claims then entry.ticketType else None, f)
  }

  // ----- one batch of an import

  const BATCH_SIZE := 50

  /** What a batch transaction has done so far. */
  datatype Progress = Progress(db: Db, ok: seq<Entry>, failed: seq<Entry>, leaked: seq<TypeId>, thrown: bool)

  function RowStep(p: Progress, event: EventId, entry: Entry, claimable: set<TypeId>, f: RowFaults): Progress {
    if p.thrown then p
    else
      match CommitRow(p.db, event, entry, claimable, f)
      case BatchThrows => p.(thrown := true)
      case RowDone(db, ok, leaked) =>
        Progress(db, if ok then p.ok + [entry] else p.ok, if ok then p.failed else p.failed + [entry],
                 if leaked.Some? then p.leaked + [leaked.value] else p.leaked, false)
  }

  const NO_FAULTS := RowFaults(false, false, [], false, false, false, false)

  /** The faults of row `k`; rows the script does not mention only lack draws. */
  function FaultsAt(faults: seq<RowFaults>, k: nat): RowFaults {
    if k < |faults| then faults[k] else NO_FAULTS
  }

  function BatchProgress(db: Db, event: EventId, entries: seq<Entry>, claimable: set<TypeId>, faults: seq<RowFaults>): Progress {
    if |entries| == 0 then Progress(db, [], [], [], false)
    else
      var n := |entries| - 1;
      RowStep(BatchProgress(db, event, entries[..n], claimable, faults), event, entries[n], claimable, FaultsAt(faults, n))
  }

  /** `rejected`: the commit itself fails. */
  datatype BatchFaults = BatchFaults(rows: seq<RowFaults>, rejected: bool)

  /** The outcome of a batch: what it left in the database, which rows it reports as successes, and the rows
      it reports as failed. A rejected batch leaves nothing, but the row failures recorded before the
      rejection stay in the report (`doubled`) and every row is reported failed once more. */
  datatype BatchResult = BatchResult(db: Db, ok: seq<Entry>, failed: seq<Entry>, leaked: seq<TypeId>, doubled: seq<Entry>)

  function RunBatch(db: Db, event: EventId, entries: seq<Entry>, claimable: set<TypeId>, f: BatchFaults): BatchResult {
    var p := BatchProgress(db, event, entries, claimable, f.rows);
    if p.thrown || f.rejected then BatchResult(db, [], p.failed + entries, [], p.failed)
    else BatchResult(p.db, p.ok, p.failed, p.leaked, [])
  }
}
