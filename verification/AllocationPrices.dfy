/** What registrations made through the public link may cost: nothing, in any interleaving. */
module AllocationPrices {
  import opened Wrappers
  import opened Allocation
  import opened ImportPlan
  import opened ImportCommit
  import opened ImportService
  import opened AllocationRuns

  /** Free by the prices of `start`: an event that is not paid, or a type of the event that costs nothing. */
  predicate Free(start: Db, event: EventId, ticketType: Option<TypeId>) {
    match ticketType
    case None => event in start.events && !start.events[event].paid
    case Some(t) => t in start.types && start.types[t].event == event && start.types[t].active && start.types[t].price <= 0
  }

  /** Events and everything about the types but what is sold stay as they were. */
  ghost predicate SamePrices(db: Db, start: Db) {
    && db.events == start.events && db.types.Keys == start.types.Keys
    && forall t :: t in db.types ==> db.types[t] == start.types[t].(sold := db.types[t].sold)
  }

  /** A call past its type check asks for something free. */
  predicate PastTypeCheck(c: Call) {
    c.CheckingEmail? || c.Attempting? || c.Probing?
  }

  ghost predicate CallsFree(calls: map<CallId, Call>, start: Db) {
    forall c :: c in calls && PastTypeCheck(calls[c]) ==> Free(start, calls[c].req.event, calls[c].req.ticketType)
  }

  ghost predicate RowsFree(regs: seq<Registration>, start: Db) {
    && |start.regs| <= |regs|
    && forall i :: |start.regs| <= i < |regs| && regs[i].source == PublicLink ==> Free(start, regs[i].event, regs[i].ticketType)
  }

  ghost predicate AllFree(s: State, start: Db) {
    SamePrices(s.db, start) && CallsFree(s.calls, start) && RowsFree(s.db.regs, start)
  }

  lemma CallStepKeepsFree(s: State, a: Action, start: Db)
    requires AllFree(s, start) && !a.Attempt? && !a.CommitNextBatch?
    ensures AllFree(Apply(s, a), start)
  {
  }

  lemma AttemptKeepsFree(s: State, call: CallId, code: nat, confirmation: nat, fails: bool, start: Db)
    requires AllFree(s, start)
    ensures AllFree(DoAttempt(s, call, code, confirmation, fails), start)
  {
  }

  /** Imported rows change neither prices nor the rows made through the public link. */
  lemma ImportedKeepFree(db: Db, before: Db, event: EventId, ok: seq<Entry>, leaked: seq<TypeId>, start: Db)
    requires SamePrices(before, start) && RowsFree(before.regs, start)
    requires db.events == before.events && Books(db.types, before.types, ok, leaked) && OnlyImported(db.regs, before.regs, event)
    ensures SamePrices(db, start) && RowsFree(db.regs, start)
  {
    forall i | |start.regs| <= i < |db.regs| && db.regs[i].source == PublicLink
      ensures Free(start, db.regs[i].event, db.regs[i].ticketType)
    {
      assert i < |before.regs| && db.regs[..|before.regs|][i] == before.regs[i];
    }
  }

  lemma BatchKeepsFree(s: State, call: CallId, faults: BatchFaults, start: Db)
    requires AllFree(s, start)
    ensures AllFree(DoCommitNextBatch(s, call, faults), start)
  {
    if call in s.calls && s.calls[call].Importing? {
      var c := s.calls[call];
      var b := RunBatch(s.db, c.event, BatchOf(c.entries, c.next), ClaimedTypes(c.entries), faults);
      BatchKeeps(s.db, c.event, c.entries, c.next, faults);
      ImportedKeepFree(b.db, s.db, c.event, b.ok, b.leaked, start);
    }
  }

  lemma {:induction false} RunKeepsFree(start: Db, actions: seq<Action>)
    ensures AllFree(Run(start, actions), start)
  {
    if |actions| > 0 {
      var s, a := Run(start, actions[..|actions| - 1]), actions[|actions| - 1];
      RunKeepsFree(start, actions[..|actions| - 1]);
      match a
      case Attempt(call, code, confirmation, fails) => AttemptKeepsFree(s, call, code, confirmation, fails, start);
      case CommitNextBatch(call, faults) => BatchKeepsFree(s, call, faults, start);
      case _ => CallStepKeepsFree(s, a, start);
    }
  }

  /** In every run of registrations and imports, a registration made through the public link holds an active
      type of its own event that costs nothing, or no type at an event that is not paid. */
  lemma PublicRegistrationsAreFree(start: Db, actions: seq<Action>, i: nat)
    requires |start.regs| <= i < |Run(start, actions).db.regs| && Run(start, actions).db.regs[i].source == PublicLink
    ensures var reg := Run(start, actions).db.regs[i];
            match reg.ticketType
            case None => reg.event in start.events && !start.events[reg.event].paid
            case Some(t) => t in start.types && start.types[t].event == reg.event && start.types[t].active && start.types[t].price <= 0
  {
    RunKeepsFree(start, actions);
  }
}
