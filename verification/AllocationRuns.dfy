/** Any number of free registrations and imports handing out the same seats, in any interleaving. A free
    registration's transaction is one step, because it locks its event's row until it commits. A batch is one
    step too: it neither counts nor locks the event itself, but each ticket code and registration it inserts
    takes the foreign key's key-share lock on the event's row, which excludes FOR UPDATE, and its
    guarded increments lock the ticket types they touch, all until it commits. The checks before a free
    registration's transaction are separate steps and may be stale. Capacities are fixed. */
module AllocationRuns {
  import opened Wrappers
  import opened Allocation
  import opened ImportPlan
  import opened ImportCommit
  import opened ImportService
  import RegistrationService

  type CallId = nat

  datatype Call =
    | CheckingSeats(req: Request)
    | CheckingType(req: Request)
    | CheckingEmail(req: Request)
    | Attempting(req: Request, attempt: nat)
    | Probing(req: Request, attempt: nat)                       // a unique index refused the attempt
    | Registered(req: Request, id: nat)
    | Ended(req: Request)                                       // refused, or failed for good
    | Importing(event: EventId, entries: seq<Entry>, next: nat) // planned, whatever the plan was based on

  /** `reported` are the import rows reported as successes; `leaked` the claims of failed rows whose reversal
      failed too. */
  datatype State = State(db: Db, calls: map<CallId, Call>, reported: seq<Entry>, leaked: seq<TypeId>)

  datatype Action =
    | BeginFree(call: CallId, req: Request)
    | CheckSeats(call: CallId)
    | CheckType(call: CallId)
    | CheckEmail(call: CallId)
    | Attempt(call: CallId, code: nat, confirmation: nat, fails: bool)
    | Probe(call: CallId)
    | BeginImport(call: CallId, event: EventId, entries: seq<Entry>)
    | CommitNextBatch(call: CallId, faults: BatchFaults)

  function Move(s: State, call: CallId, next: Call): State {
    s.(calls := s.calls[call := next])
  }

  function DoBeginFree(s: State, call: CallId, req: Request): State {
    if call in s.calls || req.event !in s.db.events then s else Move(s, call, CheckingSeats(req))
  }

  function DoCheckSeats(s: State, call: CallId): State {
    if call !in s.calls || !s.calls[call].CheckingSeats? then s
    else
      var req := s.calls[call].req;
      Move(s, call, if HasRoom(CapacityOf(s.db, req.event), Active(s.db.regs, req.event)) then CheckingType(req) else Ended(req))
  }

  function DoCheckType(s: State, call: CallId): State {
    if call !in s.calls || !s.calls[call].CheckingType? then s
    else
      var req := s.calls[call].req;
      var passes :=
        if req.ticketType.None? then req.event in s.db.events && !s.db.events[req.event].paid
        else
          var t := req.ticketType.value;
          t in s.db.types && s.db.types[t].event == req.event && Guarded(s.db.types, t) && s.db.types[t].price <= 0;
      Move(s, call, if passes then CheckingEmail(req) else Ended(req))
  }

  function DoCheckEmail(s: State, call: CallId): State {
    if call !in s.calls || !s.calls[call].CheckingEmail? then s
    else
      var req := s.calls[call].req;
      Move(s, call, if EmailTaken(s.db.regs, req.event, req.email) then Ended(req) else Attempting(req, 0))
  }

  function DoAttempt(s: State, call: CallId, code: nat, confirmation: nat, fails: bool): State {
    if call !in s.calls || !s.calls[call].Attempting? then s
    else
      var c := s.calls[call];
      if fails then Move(s, call, Ended(c.req))
      else
        match CreateTx(s.db, c.req, code, confirmation)
        case Created(db) => Move(s.(db := db), call, Registered(c.req, |s.db.regs|))
        case UniqueViolation => Move(s, call, Probing(c.req, c.attempt))
        case _ => Move(s, call, Ended(c.req))
  }

  function DoProbe(s: State, call: CallId): State {
    if call !in s.calls || !s.calls[call].Probing? then s
    else
      var c := s.calls[call];
      if EmailTaken(s.db.regs, c.req.event, c.req.email) || c.attempt + 1 >= RegistrationService.CONFIRMATION_CODE_RETRIES then
        Move(s, call, Ended(c.req))
      else Move(s, call, Attempting(c.req, c.attempt + 1))
  }

  function DoBeginImport(s: State, call: CallId, event: EventId, entries: seq<Entry>): State {
    if call in s.calls then s else Move(s, call, Importing(event, entries, 0))
  }

  function DoCommitNextBatch(s: State, call: CallId, faults: BatchFaults): State {
    if call !in s.calls || !s.calls[call].Importing? then s
    else
      var c := s.calls[call];
      var b := RunBatch(s.db, c.event, BatchOf(c.entries, c.next), ClaimedTypes(c.entries), faults);
      State(b.db, s.calls[call := Importing(c.event, c.entries, c.next + 1)], s.reported + b.ok, s.leaked + b.leaked)
  }

  function Apply(s: State, a: Action): State {
    match a
    case BeginFree(call, req) => DoBeginFree(s, call, req)
    case CheckSeats(call) => DoCheckSeats(s, call)
    case CheckType(call) => DoCheckType(s, call)
    case CheckEmail(call) => DoCheckEmail(s, call)
    case Attempt(call, code, confirmation, fails) => DoAttempt(s, call, code, confirmation, fails)
    case Probe(call) => DoProbe(s, call)
    case BeginImport(call, event, entries) => DoBeginImport(s, call, event, entries)
    case CommitNextBatch(call, faults) => DoCommitNextBatch(s, call, faults)
  }

  function Run(start: Db, actions: seq<Action>): State {
    if |actions| == 0 then State(start, map[], [], [])
    else Apply(Run(start, actions[..|actions| - 1]), actions[|actions| - 1])
  }

  // ----- what is counted

  function CountOf(leaked: seq<TypeId>, t: TypeId): nat {
    if |leaked| == 0 then 0 else CountOf(leaked[..|leaked| - 1], t) + if leaked[|leaked| - 1] == t then 1 else 0
  }

  /** Registrations made through the public link. */
  function PublicRegs(regs: seq<Registration>): nat {
    if |regs| == 0 then 0
    else PublicRegs(regs[..|regs| - 1]) + if regs[|regs| - 1].source == PublicLink then 1 else 0
  }

  function PublicOfType(regs: seq<Registration>, t: TypeId): nat {
    if |regs| == 0 then 0
    else
      var last := regs[|regs| - 1];
      PublicOfType(regs[..|regs| - 1], t) + if last.source == PublicLink && last.ticketType == Some(t) then 1 else 0
  }

  lemma RegsAppend(regs: seq<Registration>, r: Registration, t: TypeId, e: EventId)
    ensures PublicRegs(regs + [r]) == PublicRegs(regs) + if r.source == PublicLink then 1 else 0
    ensures PublicOfType(regs + [r], t) == PublicOfType(regs, t) + if r.source == PublicLink && r.ticketType == Some(t) then 1 else 0
    ensures Active(regs + [r], e) == Active(regs, e) + if r.event == e && !r.cancelled then 1 else 0
  {
    ActiveAppends(regs, r, e);
    assert (regs + [r])[..|regs|] == regs;
  }

  lemma {:induction false} CountsAdd(a: seq<Entry>, b: seq<Entry>, t: TypeId)
    ensures CountType(a + b, t) == CountType(a, t) + CountType(b, t)
  {
    if |b| == 0 { assert a + b == a; } else {
      CountsAdd(a, b[..|b| - 1], t);
      assert (a + b)[..|a + b| - 1] == a + b[..|b| - 1];
    }
  }

  lemma {:induction false} LeaksAdd(a: seq<TypeId>, b: seq<TypeId>, t: TypeId)
    ensures CountOf(a + b, t) == CountOf(a, t) + CountOf(b, t)
  {
    if |b| == 0 { assert a + b == a; } else {
      LeaksAdd(a, b[..|b| - 1], t);
      assert (a + b)[..|a + b| - 1] == a + b[..|b| - 1];
    }
  }

  /** No counter is above its capacity. */
  ghost predicate Within(types: map<TypeId, TicketType>) {
    forall t :: t in types && types[t].capacity.Some? ==> types[t].sold <= types[t].capacity.value
  }

  ghost predicate EmailsDistinct(regs: seq<Registration>) {
    forall i, j :: 0 <= i < j < |regs| ==> !(regs[i].event == regs[j].event && regs[i].email == regs[j].email)
  }

  /** The counters moved by exactly the reported rows and the leaked claims. */
  ghost predicate Books(types: map<TypeId, TicketType>, before: map<TypeId, TicketType>, ok: seq<Entry>, leaked: seq<TypeId>) {
    && types.Keys == before.Keys
    && forall t :: t in types ==> types[t] == before[t].(sold := before[t].sold + CountType(ok, t) + CountOf(leaked, t))
  }

  /** The registrations grew by imported ones of `event`, if at all. */
  ghost predicate OnlyImported(regs: seq<Registration>, before: seq<Registration>, event: EventId) {
    && |before| <= |regs| && regs[..|before|] == before
    && forall i :: |before| <= i < |regs| ==> regs[i].source == Import && regs[i].event == event && !regs[i].cancelled
  }

  lemma {:induction false} ImportedCounts(regs: seq<Registration>, before: seq<Registration>, event: EventId, t: TypeId, e: EventId)
    requires OnlyImported(regs, before, event)
    ensures PublicRegs(regs) == PublicRegs(before) && PublicOfType(regs, t) == PublicOfType(before, t)
    ensures Active(regs, e) == Active(before, e) + if e == event then |regs| - |before| else 0
  {
    if |regs| == |before| {
      assert regs == before;
    } else {
      var n := |regs| - 1;
      assert regs[..n][..|before|] == before;
      ImportedCounts(regs[..n], before, event, t, e);
    }
  }

  // ----- one row and one batch of an import

  ghost predicate WellTyped(entry: Entry, claimable: set<TypeId>) {
    entry.ticketType.Some? ==> entry.ticketType.value in claimable
  }

  lemma SingleCounts(entry: Entry, leak: TypeId, t: TypeId)
    ensures CountType([], t) == 0 && CountOf([], t) == 0
    ensures CountType([entry], t) == if entry.ticketType == Some(t) then 1 else 0
    ensures CountOf([leak], t) == if leak == t then 1 else 0
  {
    assert [entry][..0] == [] && [leak][..0] == [];
  }

  /** What a row does to the counter of one type. */
  ghost predicate CounterMoves(r: RowResult, db: Db, entry: Entry, t: TypeId)
    requires r.RowDone?
  {
    && (t in r.db.types <==> t in db.types)
    && (r.ok ==> r.leaked.None?)
    && (t in db.types && t in r.db.types ==>
          && r.db.types[t] == db.types[t].(sold := db.types[t].sold + (if r.ok && entry.ticketType == Some(t) then 1 else 0)
                                                                    + (if r.leaked == Some(t) then 1 else 0))
          && (r.db.types[t].sold <= db.types[t].sold || HasRoom(db.types[t].capacity, db.types[t].sold)))
  }

  /** From the claim on, a counter changes only by the reversal of that claim. */
  lemma SettledMoves(db: Db, event: EventId, entry: Entry, claimed: Option<TypeId>, f: RowFaults, t: TypeId)
    requires claimed.Some? ==> claimed == entry.ticketType && claimed.value in db.types
    ensures var r := Settled(db, event, entry, claimed, f);
            && r.RowDone? && (t in r.db.types <==> t in db.types)
            && (r.ok ==> r.leaked.None? && (entry.ticketType.Some? ==> entry.ticketType.value in db.types))
            && (r.leaked.Some? ==> r.leaked == claimed)
            && (t in db.types ==> r.db.types[t] == db.types[t].(sold := db.types[t].sold
                                    - if !r.ok && r.leaked.None? && claimed == Some(t) then 1 else 0))
  {
  }

  lemma RowMovesCounter(db: Db, event: EventId, entry: Entry, claimable: set<TypeId>, f: RowFaults, t: TypeId)
    requires WellTyped(entry, claimable)
    ensures var r := CommitRow(db, event, entry, claimable, f);
            r.RowDone? ==> CounterMoves(r, db, entry, t)
  {
    var claims := entry.ticketType.Some? && entry.ticketType.value in db.types;
    SettledMoves(if claims then db.(types := WithSold(db.types, entry.ticketType.value, 1)) else db,
                 event, entry, if claims then entry.ticketType else None, f, t);
  }

  lemma RowKeepsBooks(r: RowResult, db: Db, entry: Entry)
    requires r.RowDone? && forall t: TypeId :: CounterMoves(r, db, entry, t)
    ensures Books(r.db.types, db.types, if r.ok then [entry] else [], if r.leaked.Some? then [r.leaked.value] else [])
    ensures Within(db.types) ==> Within(r.db.types)
  {
    var ok, leaked := if r.ok then [entry] else [], if r.leaked.Some? then [r.leaked.value] else [];
    forall t: TypeId
      ensures t in r.db.types <==> t in db.types
      ensures t in r.db.types ==> r.db.types[t] == db.types[t].(sold := db.types[t].sold + CountType(ok, t) + CountOf(leaked, t))
      ensures Within(db.types) && t in r.db.types && r.db.types[t].capacity.Some? ==> r.db.types[t].sold <= r.db.types[t].capacity.value
    {
      assert CounterMoves(r, db, entry, t);
      SingleCounts(entry, if r.leaked.Some? then r.leaked.value else t, t);
    }
  }

  /** A row adds at most one registration, and only under an email that was free. */
  lemma RowRegs(db: Db, event: EventId, entry: Entry, claimable: set<TypeId>, f: RowFaults)
    ensures var r := CommitRow(db, event, entry, claimable, f);
            r.RowDone? ==>
              && r.db.events == db.events
              && (|| r.db.regs == db.regs
                  || (&& !EmailTaken(db.regs, event, entry.email)
                      && |r.db.regs| == |db.regs| + 1
                      && r.db.regs == db.regs + [ImportedRegistration(event, entry, r.db.regs[|db.regs|].code)]))
  {
    var claims := entry.ticketType.Some? && entry.ticketType.value in claimable && entry.ticketType.value in db.types;
    SettledRegs(if claims then db.(types := WithSold(db.types, entry.ticketType.value, 1)) else db,
                event, entry, if claims then entry.ticketType else None, f);
  }

  lemma SettledRegs(db: Db, event: EventId, entry: Entry, claimed: Option<TypeId>, f: RowFaults)
    ensures var r := Settled(db, event, entry, claimed, f);
            && r.RowDone? && r.db.events == db.events
            && (|| r.db.regs == db.regs
                || (&& !EmailTaken(db.regs, event, entry.email)
                    && |r.db.regs| == |db.regs| + 1
                    && r.db.regs == db.regs + [ImportedRegistration(event, entry, r.db.regs[|db.regs|].code)]))
  {
  }

  lemma RowKeepsRegs(db: Db, event: EventId, entry: Entry, claimable: set<TypeId>, f: RowFaults)
    ensures var r := CommitRow(db, event, entry, claimable, f);
            r.RowDone? ==>
              && r.db.events == db.events
              && OnlyImported(r.db.regs, db.regs, event)
              && (EmailsDistinct(db.regs) ==> EmailsDistinct(r.db.regs))
  {
    RowRegs(db, event, entry, claimable, f);
  }

  ghost predicate Kept(db: Db, before: Db, event: EventId, ok: seq<Entry>, leaked: seq<TypeId>) {
    && db.events == before.events
    && Books(db.types, before.types, ok, leaked)
    && (Within(before.types) ==> Within(db.types))
    && OnlyImported(db.regs, before.regs, event)
    && (EmailsDistinct(before.regs) ==> EmailsDistinct(db.regs))
  }

  lemma BooksAdd(c: map<TypeId, TicketType>, b: map<TypeId, TicketType>, a: map<TypeId, TicketType>,
                 ok: seq<Entry>, more: seq<Entry>, leaked: seq<TypeId>, moreLeaked: seq<TypeId>)
    requires Books(b, a, ok, leaked) && Books(c, b, more, moreLeaked)
    ensures Books(c, a, ok + more, leaked + moreLeaked)
  {
    forall t: TypeId
      ensures CountType(ok + more, t) + CountOf(leaked + moreLeaked, t)
           == CountType(ok, t) + CountOf(leaked, t) + CountType(more, t) + CountOf(moreLeaked, t)
    {
      CountsAdd(ok, more, t);
      LeaksAdd(leaked, moreLeaked, t);
    }
  }

  lemma RowAddsUp(r: RowResult, p: Progress, before: Db, event: EventId, entry: Entry)
    requires r.RowDone? && Kept(p.db, before, event, p.ok, p.leaked)
    requires forall t: TypeId :: CounterMoves(r, p.db, entry, t)
    requires r.db.events == p.db.events && OnlyImported(r.db.regs, p.db.regs, event) && (EmailsDistinct(p.db.regs) ==> EmailsDistinct(r.db.regs))
    ensures Kept(r.db, before, event, if r.ok then p.ok + [entry] else p.ok, if r.leaked.Some? then p.leaked + [r.leaked.value] else p.leaked)
  {
    RowKeepsBooks(r, p.db, entry);
    BooksAdd(r.db.types, p.db.types, before.types, p.ok, if r.ok then [entry] else [],
             p.leaked, if r.leaked.Some? then [r.leaked.value] else []);
    assert p.ok + [] == p.ok && p.leaked + [] == p.leaked;
  }

  lemma StepKeeps(p: Progress, before: Db, event: EventId, entry: Entry, claimable: set<TypeId>, f: RowFaults)
    requires WellTyped(entry, claimable) && Kept(p.db, before, event, p.ok, p.leaked)
    ensures var q := RowStep(p, event, entry, claimable, f);
            Kept(q.db, before, event, q.ok, q.leaked)
  {
    if !p.thrown {
      var r := CommitRow(p.db, event, entry, claimable, f);
      if r.RowDone? {
        forall t: TypeId ensures CounterMoves(r, p.db, entry, t) { RowMovesCounter(p.db, event, entry, claimable, f, t); }
        RowKeepsRegs(p.db, event, entry, claimable, f);
        RowAddsUp(r, p, before, event, entry);
      }
    }
  }

  lemma {:induction false} ProgressKeeps(db: Db, event: EventId, entries: seq<Entry>, claimable: set<TypeId>, faults: seq<RowFaults>)
    requires forall e :: e in entries ==> WellTyped(e, claimable)
    ensures var p := BatchProgress(db, event, entries, claimable, faults);
            Kept(p.db, db, event, p.ok, p.leaked)
  {
    if |entries| > 0 {
      var n := |entries| - 1;
      ProgressKeeps(db, event, entries[..n], claimable, faults);
      StepKeeps(BatchProgress(db, event, entries[..n], claimable, faults), db, event, entries[n], claimable, FaultsAt(faults, n));
    }
  }

  lemma BatchKeeps(db: Db, event: EventId, entries: seq<Entry>, k: nat, f: BatchFaults)
    ensures var b := RunBatch(db, event, BatchOf(entries, k), ClaimedTypes(entries), f);
            Kept(b.db, db, event, b.ok, b.leaked)
  {
    forall e | e in BatchOf(entries, k) ensures WellTyped(e, ClaimedTypes(entries)) {
      assert e in entries;
    }
    ProgressKeeps(db, event, BatchOf(entries, k), ClaimedTypes(entries), f.rows);
  }
}
