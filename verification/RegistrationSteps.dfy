/** The steps of a free registration with nothing in between: they do what the registration service does. */
module RegistrationSteps {
  import opened Wrappers
  import opened Allocation
  import opened AllocationRuns
  import opened RegistrationService

  function AfterChecks(s: State, call: CallId): State {
    Apply(Apply(Apply(s, CheckSeats(call)), CheckType(call)), CheckEmail(call))
  }

  /** Undisturbed, the three check steps let a request through to its transaction exactly when it asks for
      something that may be had for free and its email is not registered yet. */
  lemma ChecksLetThroughIff(s: State, call: CallId, req: Request)
    requires call in s.calls && s.calls[call] == CheckingSeats(req) && req.event in s.db.events
    ensures var t := AfterChecks(s, call);
            && t.db == s.db && call in t.calls
            && t.calls[call] == if Obtainable(s.db, req.event, req.ticketType) && !EmailTaken(s.db.regs, req.event, req.email)
                                then Attempting(req, 0) else Ended(req)
  {
    ActiveIsCount(s.db.regs, req.event);
  }

  // ----- the transaction and its retries

  function AfterDraw(s: State, call: CallId, d: Draw): State {
    Apply(Apply(s, Attempt(call, d.code, d.confirmation, false)), Probe(call))
  }

  function AfterDraws(s: State, call: CallId, draws: seq<Draw>): State
    requires |draws| == 3
  {
    AfterDraw(AfterDraw(AfterDraw(s, call, draws[0]), call, draws[1]), call, draws[2])
  }

  /** One attempt creates the registration, ends the call, or leaves it for the next of three. */
  lemma DrawDecides(s: State, call: CallId, req: Request, attempt: nat, d: Draw)
    requires call in s.calls && s.calls[call] == Attempting(req, attempt)
    ensures var t, open := AfterDraw(s, call, d), SeatFree(s.db, req) && !EmailTaken(s.db.regs, req.event, req.email);
            && call in t.calls
            && (open && Fresh(s.db, req.event, d) ==> t.calls[call] == Registered(req, |s.db.regs|) && AddsOne(s.db, t.db, req, d))
            && (open && !Fresh(s.db, req.event, d) ==>
                  t.db == s.db && t.calls[call] == if attempt + 1 < 3 then Attempting(req, attempt + 1) else Ended(req))
            && (!open ==> t.db == s.db && t.calls[call] == Ended(req))
  {
    CreateTxDecides(s.db, req, d);
  }

  lemma NoMoreDraws(s: State, call: CallId, d: Draw)
    requires call in s.calls && (s.calls[call].Registered? || s.calls[call].Ended?)
    ensures AfterDraw(s, call, d) == s
  {
  }

  /** Undisturbed, three attempts register exactly when the event and the type have a seat, the email is free
      and one of the three draws collides with nothing; the first such draw is the one stored, and otherwise
      nothing is. */
  lemma UninterruptedDraws(s: State, call: CallId, req: Request, draws: seq<Draw>)
    requires |draws| == 3 && call in s.calls && s.calls[call] == Attempting(req, 0)
    ensures var t := AfterDraws(s, call, draws);
            && call in t.calls
            && (t.calls[call] == Registered(req, |s.db.regs|) || (t.calls[call] == Ended(req) && t.db == s.db))
            && (t.calls[call].Registered? <==> SeatFree(s.db, req) && !EmailTaken(s.db.regs, req.event, req.email)
                                               && exists k: nat :: FirstFresh(s.db, req.event, draws, k))
            && forall k: nat :: t.calls[call].Registered? && FirstFresh(s.db, req.event, draws, k) ==> AddsOne(s.db, t.db, req, draws[k])
  {
    var one := AfterDraw(s, call, draws[0]);
    var two := AfterDraw(one, call, draws[1]);
    DrawDecides(s, call, req, 0, draws[0]);
    if one.calls[call] == Attempting(req, 1) {
      DrawDecides(one, call, req, 1, draws[1]);
      if two.calls[call] == Attempting(req, 2) {
        DrawDecides(two, call, req, 2, draws[2]);
        assert FirstFresh(s.db, req.event, draws, 2) <==> Fresh(s.db, req.event, draws[2]);
      } else {
        NoMoreDraws(two, call, draws[2]);
        assert FirstFresh(s.db, req.event, draws, 1);
      }
    } else {
      NoMoreDraws(one, call, draws[1]);
      NoMoreDraws(one, call, draws[2]);
      assert Fresh(s.db, req.event, draws[0]) ==> FirstFresh(s.db, req.event, draws, 0);
    }
  }
}
