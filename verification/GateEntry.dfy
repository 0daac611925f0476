/** In every interleaving, whoever is let in was checked: the row read at the time was good for entry. */
module GateEntry {
  import opened Wrappers
  import opened GateModel
  import opened GateDecisions

  /** The rows let a QR scan of `token` at `event` in at time `now`. */
  predicate MayEnter(db: Db, event: EventId, token: Token, r: RegId, now: int) {
    && TokenRow(db, r, token)
    && db.tokens[r].expiresAt >= now && !db.tokens[r].revoked
    && db.regs[r].status == Confirmed && db.regs[r].event == event
  }

  predicate MayEnterManually(db: Db, event: EventId, token: Token, r: RegId) {
    token == Uuid(r) && r < |db.regs| && db.regs[r].status == Confirmed && db.regs[r].event == event
  }

  /** The call is on its way to a check-in of `reg`. */
  predicate Entering(c: Call, event: EventId, token: Token, reg: RegId, viaQr: bool) {
    (c.Resolving? || c.Committing?) && c.event == event && c.token == token && c.reg == reg && c.viaQr == viaQr
  }

  /** Reading the token decides by the row: each refusal has its reason, and only a good row goes on. */
  lemma ReadTokenDecides(s: State, call: CallId, now: int, r: RegId)
    requires call in s.calls && s.calls[call].Holding? && TokenRow(s.db, r, s.calls[call].token) && UniquelyIndexed(s.db)
    ensures var c, n := s.calls[call], DoReadToken(s, call, now);
            && n.db == s.db && call in n.calls
            && n.calls[call] ==
               if s.db.tokens[r].expiresAt < now then Releasing(c.event, c.token, Expired)
               else if s.db.regs[r].status != Confirmed then Releasing(c.event, c.token, Unconfirmed)
               else if s.db.regs[r].event != c.event then Releasing(c.event, c.token, WrongEvent)
               else if s.db.tokens[r].revoked then Releasing(c.event, c.token, Revoked)
               else Resolving(c.event, c.token, r, true)
  {
    var found := FindToken(s.db.tokens, HashOf(s.calls[call].token), |s.db.regs|);
    assert found.Some?;
  }

  /** A call is on its way in because it was already, or because it has just read good rows. */
  lemma StepToEntry(s: State, a: Action, call: CallId, event: EventId, token: Token, reg: RegId, viaQr: bool)
    requires call in Apply(s, a).calls && Entering(Apply(s, a).calls[call], event, token, reg, viaQr)
    ensures || (call in s.calls && Entering(s.calls[call], event, token, reg, viaQr))
            || (viaQr && a.ReadToken? && a.call == call && MayEnter(s.db, event, token, reg, a.now))
            || (!viaQr && a == ReadRegistration(call) && MayEnterManually(s.db, event, token, reg))
  {
  }

  ghost predicate CheckedAt(actions: seq<Action>, k: nat, call: CallId, event: EventId, token: Token, reg: RegId, viaQr: bool)
    requires k < |actions|
  {
    var db := Run(EMPTY, actions[..k]).db;
    if viaQr then actions[k].ReadToken? && actions[k].call == call && MayEnter(db, event, token, reg, actions[k].now)
    else actions[k] == ReadRegistration(call) && MayEnterManually(db, event, token, reg)
  }

  /** In every run, a call about to check a registration in has read, at an earlier step of its own, a token row
      that was unexpired, unrevoked and of a confirmed registration of its event, or for a manual check-in the
      registration named by the text itself. */
  lemma {:induction false} EntryWasChecked(actions: seq<Action>, call: CallId, event: EventId, token: Token, reg: RegId, viaQr: bool)
    requires call in Run(EMPTY, actions).calls && Entering(Run(EMPTY, actions).calls[call], event, token, reg, viaQr)
    ensures exists k: nat :: k < |actions| && CheckedAt(actions, k, call, event, token, reg, viaQr)
  {
    var n := |actions| - 1;
    var front := actions[..n];
    StepToEntry(Run(EMPTY, front), actions[n], call, event, token, reg, viaQr);
    if call in Run(EMPTY, front).calls && Entering(Run(EMPTY, front).calls[call], event, token, reg, viaQr) {
      EntryWasChecked(front, call, event, token, reg, viaQr);
      var k: nat :| k < |front| && CheckedAt(front, k, call, event, token, reg, viaQr);
      assert front[..k] == actions[..k];
      assert CheckedAt(actions, k, call, event, token, reg, viaQr);
    } else {
      assert CheckedAt(actions, n, call, event, token, reg, viaQr);
    }
  }
}
