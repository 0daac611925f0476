/** Concrete inputs for what registrations and imports do not promise. */
module AllocationCounterexamples {
  import opened Wrappers
  import opened Allocation
  import opened ImportPlan
  import opened ImportCommit
  import opened ImportService
  import opened AllocationRuns
  import opened AllocationSafety
  import opened AllocationBooks
  import opened ImportRowEffects
  import opened RegistrationService

  /** A run of one import of one row. */
  function OneRowImport(entry: Entry, row: RowFaults): seq<Action> {
    [BeginImport(0, 0, [entry]), CommitNextBatch(0, BatchFaults([row], false))]
  }

  lemma OneRowRuns(start: Db, entry: Entry, row: RowFaults)
    requires CommitRow(start, 0, entry, ClaimedTypes([entry]), row).RowDone?
    ensures var r := CommitRow(start, 0, entry, ClaimedTypes([entry]), row);
            Run(start, OneRowImport(entry, row)) ==
            State(r.db, map[0 := Importing(0, [entry], 1)], if r.ok then [entry] else [], if r.leaked.Some? then [r.leaked.value] else [])
  {
    var entries, actions := [entry], OneRowImport(entry, row);
    var first := [BeginImport(0, 0, entries)];
    assert actions[..1] == first && first[..0] == [];
    assert Run(start, first) == DoBeginImport(State(start, map[], [], []), 0, 0, entries);
    assert BatchOf(entries, 0) == entries;
    assert BatchProgress(start, 0, entries[..0], ClaimedTypes(entries), [row]) == Progress(start, [], [], [], false);
    assert FaultsAt([row], 0) == row;
  }

  const FULL_EVENT := Db(map[0 := Event(Some(0), false)], map[], [], {}, {})
  const PLAIN_ROW := Entry(2, "a@b.c", None)
  const NO_FAILURE := RowFaults(false, false, [Drawn(7)], false, false, false, false)

  /** An import does not look at the capacity of its event: one row is enough to overbook a full one. */
  lemma ImportsOverbook()
    ensures Active(Run(FULL_EVENT, OneRowImport(PLAIN_ROW, NO_FAILURE)).db.regs, 0) == 1
  {
    OneRowRuns(FULL_EVENT, PLAIN_ROW, NO_FAILURE);
    assert TakeCode({}, 0, [Drawn(7)], 0) == Some(7);
    ActiveAppends([], ImportedRegistration(0, PLAIN_ROW, 7), 0);
    assert [] + [ImportedRegistration(0, PLAIN_ROW, 7)] == CommitRow(FULL_EVENT, 0, PLAIN_ROW, {}, NO_FAILURE).db.regs;
  }

  const ONE_SEAT := Db(map[0 := Event(None, false)], map["t" := TicketType(0, "T", Some(1), 0, true, 0)], [], {}, {})
  const TYPED_ROW := Entry(2, "a@b.c", Some("t"))
  const LEAKING := RowFaults(false, false, [Drawn(7)], true, false, true, false)

  /** A row claims the only seat of its type, fails to insert its registration and cannot give the seat back. */
  lemma SwallowedReversalUnbalances()
    ensures var s := Run(ONE_SEAT, OneRowImport(TYPED_ROW, LEAKING));
            && s.db.regs == [] && s.reported == []
            && "t" in s.db.types && s.db.types["t"].sold == 1 && !Balanced(s, ONE_SEAT, "t")
  {
    assert TYPED_ROW in [TYPED_ROW] && "t" in ClaimedTypes([TYPED_ROW]);
    OneRowRuns(ONE_SEAT, TYPED_ROW, LEAKING);
    assert TakeCode({}, 0, [Drawn(7)], 0) == Some(7);
    SingleCounts(TYPED_ROW, "t", "t");
  }

  const TOKENLESS := RowFaults(false, false, [Drawn(7)], false, true, false, false)

  /** A row that fails only at its token: its seat is given back, its registration stays, it is reported failed. */
  lemma TokenFailureLeavesRegistration()
    ensures var r := CommitRow(ONE_SEAT, 0, TYPED_ROW, {"t"}, TOKENLESS);
            && r.RowDone? && !r.ok && r.db != ONE_SEAT
            && r.db.regs == [ImportedRegistration(0, TYPED_ROW, 7)] && r.db.types == ONE_SEAT.types && r.db.tokens == {}
  {
    assert TakeCode({}, 0, [Drawn(7)], 0) == Some(7);
    assert WithSold(WithSold(ONE_SEAT.types, "t", 1), "t", -1) == ONE_SEAT.types;
    assert [] + [ImportedRegistration(0, TYPED_ROW, 7)] == [ImportedRegistration(0, TYPED_ROW, 7)];
  }

  const LAST_SEAT := Db(map[0 := Event(Some(1), false)], map[], [], {}, {})
  const REQUEST := Request(0, "a@b.c", None)

  /** The registration that took the last seat, interrupted before its token was issued, cannot be finished by
      the retry that is meant to finish it. */
  lemma RetryForLastSeatIsRefused()
    ensures PreCheck(LAST_SEAT, REQUEST).None?
    ensures var r := CreateTx(LAST_SEAT, REQUEST, 7, 9);
            && r.Created? && FindReg(r.db.regs, 0, "a@b.c") == Some(0) && Unfinished(r.db, 0)
            && PreCheck(r.db, REQUEST) == Some(EventFull)
  {
    var reg := FreeRegistration(REQUEST, 7, 9);
    ActiveAppends([], reg, 0);
    assert [] + [reg] == [reg];
    assert CreateTx(LAST_SEAT, REQUEST, 7, 9).db.regs == [reg];
    FoundAlone([reg], 0, "a@b.c", 0);
  }
}
