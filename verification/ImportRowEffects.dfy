/** What one row of an import leaves behind, whether it succeeds or fails. */
module ImportRowEffects {
  import opened Wrappers
  import opened Allocation
  import RegistrationService

  /** The `k`-th draw is the first to collide with nothing, and none before it failed otherwise. */
  predicate FirstFree(codes: set<(EventId, nat)>, event: EventId, draws: seq<CodeDraw>, k: nat) {
    && k < |draws| && k < 3
    && draws[k].Drawn? && (event, draws[k].code) !in codes
    && forall j :: 0 <= j < k ==> draws[j].Drawn? && (event, draws[j].code) in codes
  }

  lemma {:induction false} TakeCodeFrom(codes: set<(EventId, nat)>, event: EventId, draws: seq<CodeDraw>, from: nat, c: nat)
    requires from <= MAX_TICKET_CODE_ATTEMPTS
    requires forall j :: 0 <= j < from && j < |draws| ==> draws[j].Drawn? && (event, draws[j].code) in codes
    ensures TakeCode(codes, event, draws, from) == Some(c) <==> exists k: nat :: FirstFree(codes, event, draws, k) && draws[k] == Drawn(c)
    decreases MAX_TICKET_CODE_ATTEMPTS - from
  {
    if from < MAX_TICKET_CODE_ATTEMPTS && from < |draws| && draws[from].Drawn? {
      if (event, draws[from].code) in codes {
        TakeCodeFrom(codes, event, draws, from + 1, c);
      } else {
        assert FirstFree(codes, event, draws, from);
      }
    }
  }

  /** A row gets the first of its three codes that collides with nothing, and none if a draw fails before. */
  lemma TakesFirstFree(codes: set<(EventId, nat)>, event: EventId, draws: seq<CodeDraw>, c: nat)
    ensures TakeCode(codes, event, draws, 0) == Some(c) <==> exists k: nat :: FirstFree(codes, event, draws, k) && draws[k] == Drawn(c)
  {
    TakeCodeFrom(codes, event, draws, 0, c);
  }

  predicate Claims(db: Db, entry: Entry, claimable: set<TypeId>) {
    entry.ticketType.Some? && entry.ticketType.value in claimable && entry.ticketType.value in db.types
  }

  /** A row reported as a success added one registration, one new ticket code, one token and, if it is typed,
      one sold seat that was free; nothing else. */
  lemma SuccessAddsOne(db: Db, event: EventId, entry: Entry, claimable: set<TypeId>, f: RowFaults)
    requires var r := CommitRow(db, event, entry, claimable, f); r.RowDone? && r.ok
    requires entry.ticketType.Some? ==> entry.ticketType.value in claimable
    ensures var after := CommitRow(db, event, entry, claimable, f).db;
            && |after.regs| == |db.regs| + 1
            && var reg := after.regs[|db.regs|];
               && after.regs == db.regs + [reg]
               && reg.event == event && reg.email == entry.email && reg.ticketType == entry.ticketType && !reg.cancelled
               && reg.source == Import && reg.qrIssued && reg.confirmation.None?
               && (event, reg.code) !in db.codes && after.codes == db.codes + {(event, reg.code)}
               && after.tokens == db.tokens + {|db.regs|}
               && !EmailTaken(db.regs, event, entry.email)
    ensures var after := CommitRow(db, event, entry, claimable, f).db;
            if entry.ticketType.None? then after.types == db.types
            else
              var t := entry.ticketType.value;
              t in db.types && HasRoom(db.types[t].capacity, db.types[t].sold) && after.types == WithSold(db.types, t, 1)
  {
  }

  /** What was imported has its QR already: registering again through the public link is a duplicate, never a
      completion. */
  lemma ImportedIsFinished(db: Db, event: EventId, entry: Entry, claimable: set<TypeId>, f: RowFaults)
    requires var r := CommitRow(db, event, entry, claimable, f); r.RowDone? && r.ok
    requires entry.ticketType.Some? ==> entry.ticketType.value in claimable
    ensures var after := CommitRow(db, event, entry, claimable, f).db;
            && RegistrationService.FindReg(after.regs, event, entry.email) == Some(|db.regs|)
            && |db.regs| < |after.regs| && !RegistrationService.Unfinished(after, |db.regs|)
  {
    SuccessAddsOne(db, event, entry, claimable, f);
    RegistrationService.FoundAlone(CommitRow(db, event, entry, claimable, f).db.regs, event, entry.email, |db.regs|);
  }

  /** The claim was refused, so the row stopped before it changed anything. */
  predicate Refused(db: Db, entry: Entry, claimable: set<TypeId>, f: RowFaults) {
    Claims(db, entry, claimable)
    && (f.claimFails || !HasRoom(db.types[entry.ticketType.value].capacity, db.types[entry.ticketType.value].sold))
  }

  predicate Inserted(db: Db, event: EventId, entry: Entry, f: RowFaults) {
    && TakeCode(db.codes, event, f.draws, 0).Some? && !f.regFails && !EmailTaken(db.regs, event, entry.email)
    && (entry.ticketType.Some? ==> entry.ticketType.value in db.types)
  }

  /** A failed row leaves the database as it found it exactly when it was refused its seat, or when the
      reversal of its claim worked, its registration was never inserted and its ticket code could be deleted.
      In particular a row that fails only at its token leaves its registration behind, reported as failed. */
  lemma FailureLeavesNothingIff(db: Db, event: EventId, entry: Entry, claimable: set<TypeId>, f: RowFaults)
    requires var r := CommitRow(db, event, entry, claimable, f); r.RowDone? && !r.ok
    ensures CommitRow(db, event, entry, claimable, f).db == db <==>
            || Refused(db, entry, claimable, f)
            || (&& !(Claims(db, entry, claimable) && f.undoClaimFails)
                && !Inserted(db, event, entry, f)
                && !(TakeCode(db.codes, event, f.draws, 0).Some? && f.undoCodeFails))
  {
    if !Refused(db, entry, claimable, f) {
      var claimed := if Claims(db, entry, claimable) then entry.ticketType else None;
      var held := if claimed.Some? then db.(types := WithSold(db.types, claimed.value, 1)) else db;
      var r := CommitRow(db, event, entry, claimable, f);
      assert r == Settled(held, event, entry, claimed, f);
      SettledTypes(db, held, event, entry, claimed, f);
      SettledRows(held, event, entry, claimed, f);
    }
  }

  lemma SettledTypes(db: Db, held: Db, event: EventId, entry: Entry, claimed: Option<TypeId>, f: RowFaults)
    requires claimed.Some? ==> claimed.value in db.types
    requires held == if claimed.Some? then db.(types := WithSold(db.types, claimed.value, 1)) else db
    requires !Settled(held, event, entry, claimed, f).ok
    ensures Settled(held, event, entry, claimed, f).db.types == db.types <==> !(claimed.Some? && f.undoClaimFails)
  {
    var types := Settled(held, event, entry, claimed, f).db.types;
    if claimed.Some? {
      assert types == if f.undoClaimFails then held.types else WithSold(held.types, claimed.value, -1);
      assert WithSold(held.types, claimed.value, -1) == db.types;
      assert held.types[claimed.value].sold != db.types[claimed.value].sold;
    }
  }

  lemma SettledRows(held: Db, event: EventId, entry: Entry, claimed: Option<TypeId>, f: RowFaults)
    requires !Settled(held, event, entry, claimed, f).ok
    ensures var after := Settled(held, event, entry, claimed, f).db;
            && after.events == held.events && after.tokens == held.tokens
            && (after.regs == held.regs && after.codes == held.codes <==>
                  !Inserted(held, event, entry, f) && !(TakeCode(held.codes, event, f.draws, 0).Some? && f.undoCodeFails))
  {
    var after := Settled(held, event, entry, claimed, f).db;
    var code := TakeCode(held.codes, event, f.draws, 0);
    if code.Some? {
      assert held.codes + {(event, code.value)} - {(event, code.value)} == held.codes;
      if Inserted(held, event, entry, f) { assert |after.regs| == |held.regs| + 1; }
    }
  }
}
