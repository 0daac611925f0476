/** What every run of registrations and imports keeps. */
module AllocationSafety {
  import opened Wrappers
  import opened Allocation
  import opened ImportPlan
  import opened ImportCommit
  import opened ImportService
  import opened AllocationRuns

  /** The counter of each type moved by the free registrations of that type, the reported import rows of that
      type and the leaked claims. */
  ghost predicate Ledger(db: Db, start: Db, reported: seq<Entry>, leaked: seq<TypeId>) {
    && db.types.Keys == start.types.Keys
    && forall t :: t in db.types ==>
         db.types[t] == start.types[t].(sold := start.types[t].sold + PublicOfType(db.regs, t) - PublicOfType(start.regs, t)
                                                + CountType(reported, t) + CountOf(leaked, t))
  }

  function RegisteredCalls(calls: map<CallId, Call>): set<CallId> {
    set c | c in calls && calls[c].Registered?
  }

  /** A call that registered made one row, its own, and nobody else's. */
  predicate OwnsRow(regs: seq<Registration>, base: nat, c: Call) {
    c.Registered? ==>
      base <= c.id < |regs| && regs[c.id].source == PublicLink && regs[c.id].event == c.req.event && regs[c.id].email == c.req.email
  }

  ghost predicate RowsOwned(regs: seq<Registration>, base: nat, calls: map<CallId, Call>) {
    && (forall c :: c in calls ==> OwnsRow(regs, base, calls[c]))
    && (forall c, d :: c in calls && d in calls && c != d && calls[c].Registered? && calls[d].Registered? ==> calls[c].id != calls[d].id)
  }

  ghost predicate Inv(s: State, start: Db) {
    && s.db.events == start.events
    && |start.regs| <= |s.db.regs|
    && EmailsDistinct(s.db.regs)
    && Within(s.db.types)
    && Ledger(s.db, start, s.reported, s.leaked)
    && RowsOwned(s.db.regs, |start.regs|, s.calls)
    && PublicRegs(s.db.regs) == PublicRegs(start.regs) + |RegisteredCalls(s.calls)|
  }

  ghost predicate StartWell(start: Db) {
    EmailsDistinct(start.regs) && Within(start.types)
  }

  /** A call moved without the database: nothing of the invariant can tell. */
  lemma MovedKeepsInv(s: State, call: CallId, next: Call, start: Db)
    requires Inv(s, start) && !next.Registered?
    requires call in s.calls ==> !s.calls[call].Registered?
    ensures Inv(Move(s, call, next), start)
  {
    assert RegisteredCalls(s.calls[call := next]) == RegisteredCalls(s.calls);
  }

  lemma RegisterKeepsInv(s: State, call: CallId, req: Request, code: nat, confirmation: nat, start: Db)
    requires Inv(s, start) && call in s.calls && !s.calls[call].Registered?
    requires CreateTx(s.db, req, code, confirmation).Created?
    ensures Inv(Move(s.(db := CreateTx(s.db, req, code, confirmation).db), call, Registered(req, |s.db.regs|)), start)
  {
    var db := CreateTx(s.db, req, code, confirmation).db;
    var reg := FreeRegistration(req, code, confirmation);
    assert db.regs == s.db.regs + [reg];
    var calls := s.calls[call := Registered(req, |s.db.regs|)];
    assert RegisteredCalls(calls) == RegisteredCalls(s.calls) + {call};
    RegsAppend(s.db.regs, reg, "", 0);
    RegisterKeepsLedger(s, req, code, confirmation, start);
    assert EmailsDistinct(db.regs);
    assert RowsOwned(db.regs, |start.regs|, calls);
  }

  lemma RegisterKeepsLedger(s: State, req: Request, code: nat, confirmation: nat, start: Db)
    requires Ledger(s.db, start, s.reported, s.leaked) && Within(s.db.types)
    requires CreateTx(s.db, req, code, confirmation).Created?
    ensures var db := CreateTx(s.db, req, code, confirmation).db;
            Ledger(db, start, s.reported, s.leaked) && Within(db.types)
  {
    var db := CreateTx(s.db, req, code, confirmation).db;
    forall t: TypeId ensures SoldInPublic(db, s.db, t) { CreateMovesCounter(s.db, req, code, confirmation, t); }
    LedgerFollows(db, s.db, start, s.reported, s.leaked);
  }

  /** A type's counter moved with its public registrations, up to its capacity at most. */
  ghost predicate SoldInPublic(after: Db, before: Db, t: TypeId) {
    && (t in after.types <==> t in before.types)
    && (t in before.types && t in after.types ==>
          && after.types[t] == before.types[t].(sold := before.types[t].sold + PublicOfType(after.regs, t) - PublicOfType(before.regs, t))
          && (after.types[t].capacity.Some? ==> after.types[t].sold <= after.types[t].capacity.value))
  }

  lemma LedgerFollows(after: Db, before: Db, start: Db, reported: seq<Entry>, leaked: seq<TypeId>)
    requires Ledger(before, start, reported, leaked) && forall t: TypeId :: SoldInPublic(after, before, t)
    ensures Ledger(after, start, reported, leaked) && Within(after.types)
  {
    forall t ensures t in after.types <==> t in start.types { assert SoldInPublic(after, before, t); }
    forall t | t in after.types
      ensures after.types[t] == start.types[t].(sold := start.types[t].sold + PublicOfType(after.regs, t) - PublicOfType(start.regs, t)
                                                        + CountType(reported, t) + CountOf(leaked, t))
      ensures after.types[t].capacity.Some? ==> after.types[t].sold <= after.types[t].capacity.value
    {
      assert SoldInPublic(after, before, t);
    }
  }

  lemma CreateMovesCounter(db: Db, req: Request, code: nat, confirmation: nat, t: TypeId)
    requires Within(db.types) && CreateTx(db, req, code, confirmation).Created?
    ensures SoldInPublic(CreateTx(db, req, code, confirmation).db, db, t)
  {
    RegsAppend(db.regs, FreeRegistration(req, code, confirmation), t, 0);
  }

  lemma BatchKeepsInv(s: State, call: CallId, faults: BatchFaults, start: Db)
    requires Inv(s, start)
    ensures Inv(DoCommitNextBatch(s, call, faults), start)
  {
    if call in s.calls && s.calls[call].Importing? {
      var c := s.calls[call];
      var b := RunBatch(s.db, c.event, BatchOf(c.entries, c.next), ClaimedTypes(c.entries), faults);
      BatchKeeps(s.db, c.event, c.entries, c.next, faults);
      var calls := s.calls[call := Importing(c.event, c.entries, c.next + 1)];
      assert RegisteredCalls(calls) == RegisteredCalls(s.calls);
      ImportedCounts(b.db.regs, s.db.regs, c.event, "", 0);
      BatchKeepsLedger(s, b, c.event, start);
      assert RowsOwned(b.db.regs, |start.regs|, calls) by {
        forall id | id in calls ensures OwnsRow(b.db.regs, |start.regs|, calls[id]) {
          if calls[id].Registered? { assert b.db.regs[..|s.db.regs|][calls[id].id] == s.db.regs[calls[id].id]; }
        }
      }
    }
  }

  lemma BatchKeepsLedger(s: State, b: BatchResult, event: EventId, start: Db)
    requires Ledger(s.db, start, s.reported, s.leaked)
    requires Books(b.db.types, s.db.types, b.ok, b.leaked) && OnlyImported(b.db.regs, s.db.regs, event)
    ensures Ledger(b.db, start, s.reported + b.ok, s.leaked + b.leaked)
  {
    forall t | t in b.db.types
      ensures t in start.types && b.db.types[t]
           == start.types[t].(sold := start.types[t].sold + PublicOfType(b.db.regs, t) - PublicOfType(start.regs, t)
                                      + CountType(s.reported + b.ok, t) + CountOf(s.leaked + b.leaked, t))
    {
      ImportedCounts(b.db.regs, s.db.regs, event, t, event);
      CountsAdd(s.reported, b.ok, t);
      LeaksAdd(s.leaked, b.leaked, t);
    }
  }

  lemma StepKeepsInv(s: State, a: Action, start: Db)
    requires Inv(s, start)
    ensures Inv(Apply(s, a), start)
  {
    match a
    case Attempt(call, code, confirmation, fails) =>
      if call in s.calls && s.calls[call].Attempting? {
        var c := s.calls[call];
        if !fails && CreateTx(s.db, c.req, code, confirmation).Created? {
          RegisterKeepsInv(s, call, c.req, code, confirmation, start);
        } else {
          MovedKeepsInv(s, call, Probing(c.req, c.attempt), start);
          MovedKeepsInv(s, call, Ended(c.req), start);
        }
      }
    case CommitNextBatch(call, faults) => BatchKeepsInv(s, call, faults, start);
    case _ => QuietStepKeepsInv(s, a, start);
  }

  lemma QuietStepKeepsInv(s: State, a: Action, start: Db)
    requires Inv(s, start) && !a.Attempt? && !a.CommitNextBatch?
    ensures Inv(Apply(s, a), start)
  {
    var t := Apply(s, a);
    if t != s {
      assert t == Move(s, a.call, t.calls[a.call]);
      MovedKeepsInv(s, a.call, t.calls[a.call], start);
    }
  }

  lemma {:induction false} RunKeepsInv(start: Db, actions: seq<Action>)
    requires StartWell(start)
    ensures Inv(Run(start, actions), start)
  {
    if |actions| == 0 {
      assert RegisteredCalls(map[]) == {};
    } else {
      RunKeepsInv(start, actions[..|actions| - 1]);
      StepKeepsInv(Run(start, actions[..|actions| - 1]), actions[|actions| - 1], start);
    }
  }

  // ----- the theorems

  /** In every run no ticket type is oversold, and its counter grew by its free registrations plus its import
      rows reported as successes plus the claims whose reversal failed. */
  lemma CountersAreExact(start: Db, actions: seq<Action>, t: TypeId)
    requires StartWell(start) && t in start.types
    ensures var s := Run(start, actions);
            && t in s.db.types && s.db.types[t].capacity == start.types[t].capacity
            && (s.db.types[t].capacity.Some? ==> s.db.types[t].sold <= s.db.types[t].capacity.value)
            && s.db.types[t].sold - start.types[t].sold
               == PublicOfType(s.db.regs, t) - PublicOfType(start.regs, t) + CountType(s.reported, t) + CountOf(s.leaked, t)
  {
    RunKeepsInv(start, actions);
  }

  /** No two registrations of an event share an email, whoever made them. */
  lemma OneRegistrationPerEmail(start: Db, actions: seq<Action>, i: nat, j: nat)
    requires StartWell(start) && i < j < |Run(start, actions).db.regs|
    ensures var regs := Run(start, actions).db.regs;
            regs[i].event != regs[j].event || regs[i].email != regs[j].email
  {
    RunKeepsInv(start, actions);
  }

  /** Each free call makes one registration, its own, or none at all: the registrations made through the
      public link are as many as the calls that registered, and each of those can point at its row. */
  lemma FreeCallsMakeOneRowOrNone(start: Db, actions: seq<Action>)
    requires StartWell(start)
    ensures var s := Run(start, actions);
            && PublicRegs(s.db.regs) - PublicRegs(start.regs) == |RegisteredCalls(s.calls)|
            && RowsOwned(s.db.regs, |start.regs|, s.calls)
  {
    RunKeepsInv(start, actions);
  }
}
