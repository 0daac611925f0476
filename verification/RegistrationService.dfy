/** Free public registration: the checks before it, the retried transaction, and the QR token that completes it. */
module RegistrationService {
  import opened Wrappers
  import opened Allocation
  import ImportPlan
  import Text

  datatype Refusal =
    | NameRequired | InvalidEmail | NotOpen | EventFull | PaidEvent | InvalidType | PaidType | TypeFull
    | Duplicate | CodesCollide | QrFailed

  const CONFIRMATION_CODE_RETRIES := 3

  /** The codes one attempt draws. */
  datatype Draw = Draw(code: nat, confirmation: nat)

  datatype IssueFault = Works | TokenFails | MarkFails

  predicate Confirmed(regs: seq<Registration>, id: nat) {
    id < |regs| && !regs[id].cancelled
  }

  /** What the checks made before the transaction refuse, on what they read. */
  function PreCheck(db: Db, req: Request): Option<Refusal>
    requires req.event in db.events
  {
    if !HasRoom(CapacityOf(db, req.event), Active(db.regs, req.event)) then Some(EventFull)
    else if req.ticketType.None? then (if db.events[req.event].paid then Some(PaidEvent) else None)
    else if req.ticketType.value !in db.types || db.types[req.ticketType.value].event != req.event
            || !db.types[req.ticketType.value].active then Some(InvalidType)
    else if db.types[req.ticketType.value].price > 0 then Some(PaidType)
    else if !HasRoom(db.types[req.ticketType.value].capacity, db.types[req.ticketType.value].sold) then Some(TypeFull)
    else None
  }

  // ----- the checks, said of the stored rows

  predicate EventIsFull(db: Db, event: EventId) {
    event in db.events && db.events[event].capacity.Some? && |ActiveIds(db.regs, event)| >= db.events[event].capacity.value
  }

  /** A type of the event that can be chosen. */
  predicate OnOffer(db: Db, event: EventId, t: TypeId) {
    t in db.types && db.types[t].event == event && db.types[t].active
  }

  predicate TypeIsFull(db: Db, t: TypeId) {
    t in db.types && db.types[t].capacity.Some? && db.types[t].sold >= db.types[t].capacity.value
  }

  /** What a free registration may have: a seat at an event that is not paid, or a seat of a type on offer
      that costs nothing. */
  predicate Obtainable(db: Db, event: EventId, ticketType: Option<TypeId>)
    requires event in db.events
  {
    && !EventIsFull(db, event)
    && match ticketType
       case None => !db.events[event].paid
       case Some(t) => OnOffer(db, event, t) && db.types[t].price <= 0 && !TypeIsFull(db, t)
  }

  /** The first ground the checks find for refusing, each said on its own with the earlier ones excluded. */
  predicate RefusedAs(db: Db, event: EventId, ticketType: Option<TypeId>, why: Option<Refusal>)
    requires event in db.events
  {
    && (why == Some(EventFull) <==> EventIsFull(db, event))
    && (why == Some(PaidEvent) <==> !EventIsFull(db, event) && ticketType.None? && db.events[event].paid)
    && (why == Some(InvalidType) <==> !EventIsFull(db, event) && ticketType.Some? && !OnOffer(db, event, ticketType.value))
    && (why == Some(PaidType) <==>
          !EventIsFull(db, event) && ticketType.Some? && OnOffer(db, event, ticketType.value) && db.types[ticketType.value].price > 0)
    && (why == Some(TypeFull) <==>
          && !EventIsFull(db, event) && ticketType.Some? && OnOffer(db, event, ticketType.value)
          && db.types[ticketType.value].price <= 0 && TypeIsFull(db, ticketType.value))
  }

  /** The checks refuse on the grounds stated, in that order, and let through exactly what may be had. */
  lemma ChecksRefuse(db: Db, req: Request)
    requires req.event in db.events
    ensures RefusedAs(db, req.event, req.ticketType, PreCheck(db, req))
    ensures PreCheck(db, req).None? <==> Obtainable(db, req.event, req.ticketType)
  {
    ActiveIsCount(db.regs, req.event);
  }

  // ----- what a created registration is

  /** One registration, one ticket code and at most one sold seat more; nothing else differs. */
  predicate AddsOne(before: Db, after: Db, req: Request, d: Draw) {
    && |after.regs| == |before.regs| + 1
    && after.regs[..|before.regs|] == before.regs
    && var r := after.regs[|before.regs|];
       && r.event == req.event && r.email == req.email && r.ticketType == req.ticketType
       && !r.cancelled && !r.qrIssued && r.source == PublicLink
       && r.code == d.code && r.confirmation == Some(d.confirmation)
       && after.codes == before.codes + {(req.event, r.code)}
       && after.events == before.events && after.tokens == before.tokens
       && (req.ticketType.None? ==> after.types == before.types)
       && (req.ticketType.Some? ==> req.ticketType.value in before.types
                                    && after.types == WithSold(before.types, req.ticketType.value, 1))
  }

  /** The two random codes of an attempt are both new. */
  predicate Fresh(db: Db, event: EventId, d: Draw) {
    (event, d.code) !in db.codes && forall i :: 0 <= i < |db.regs| ==> db.regs[i].confirmation != Some(d.confirmation)
  }

  /** The first of the three draws that collides with nothing. */
  predicate FirstFresh(db: Db, event: EventId, draws: seq<Draw>, k: nat) {
    k < |draws| && Fresh(db, event, draws[k]) && forall j :: 0 <= j < k ==> !Fresh(db, event, draws[j])
  }

  /** The event has a seat and the type, if any, is active and has one: what the transaction checks again. */
  predicate SeatFree(db: Db, req: Request) {
    && !EventIsFull(db, req.event)
    && (req.ticketType.Some? ==> SellsSeat(db, req.ticketType.value))
  }

  predicate SellsSeat(db: Db, t: TypeId) {
    t in db.types && db.types[t].active && !TypeIsFull(db, t)
  }

  /** The transaction, said of the rows. */
  lemma CreateTxDecides(db: Db, req: Request, d: Draw)
    ensures var r := CreateTx(db, req, d.code, d.confirmation);
            && (r == CapacityExceeded <==> EventIsFull(db, req.event))
            && (r == TicketTypeFull <==> !EventIsFull(db, req.event) && req.ticketType.Some? && !SellsSeat(db, req.ticketType.value))
            && (r.Created? <==> SeatFree(db, req) && !EmailTaken(db.regs, req.event, req.email) && Fresh(db, req.event, d))
            && (r.Created? ==> AddsOne(db, r.db, req, d))
  {
    ActiveIsCount(db.regs, req.event);
  }

  function FindReg(regs: seq<Registration>, event: EventId, email: string): (found: Option<nat>)
    ensures found.Some? ==> found.value < |regs| && regs[found.value].event == event && regs[found.value].email == email
    ensures found.Some? <==> EmailTaken(regs, event, email)
  {
    if |regs| == 0 then None
    else
      var last := regs[|regs| - 1];
      if last.event == event && last.email == email then Some(|regs| - 1)
      else
        var found := FindReg(regs[..|regs| - 1], event, email);
        assert EmailTaken(regs, event, email) ==> EmailTaken(regs[..|regs| - 1], event, email) by {
          if EmailTaken(regs, event, email) {
            var i :| 0 <= i < |regs| && regs[i].event == event && regs[i].email == email;
            assert regs[..|regs| - 1][i] == regs[i];
          }
        }
        found
  }

  class Registrar {
    var db: Db

    constructor (db: Db)
      ensures this.db == db
    {
      this.db := db;
    }

    /** All or nothing: a registration is made exactly when a seat and the email are free and one of three
        draws collides with nothing; a call that makes none leaves the database as it was. */
    method CreateFreeRegistration(req: Request, draws: seq<Draw>) returns (r: Result<nat, Refusal>)
      requires |draws| == 3
      modifies this
      ensures r.Ok? ==> r.value == |old(db).regs|
                        && exists k: nat :: FirstFresh(old(db), req.event, draws, k) && AddsOne(old(db), db, req, draws[k])
      ensures r.Err? ==> db == old(db)
      ensures r.Ok? <==> SeatFree(old(db), req) && !EmailTaken(old(db).regs, req.event, req.email)
                         && exists k: nat :: FirstFresh(old(db), req.event, draws, k)
      ensures r == Err(EventFull) <==> EventIsFull(old(db), req.event)
      ensures r == Err(TypeFull) <==>
              !EventIsFull(old(db), req.event) && req.ticketType.Some? && !SellsSeat(old(db), req.ticketType.value)
      ensures r == Err(Duplicate) <==> SeatFree(old(db), req) && EmailTaken(old(db).regs, req.event, req.email)
      ensures r.Err? ==> r.error in {EventFull, TypeFull, Duplicate, CodesCollide}
    {
      for attempt := 0 to CONFIRMATION_CODE_RETRIES
        invariant db == old(db)
        invariant forall k :: 0 <= k < attempt ==> !Fresh(db, req.event, draws[k])
        invariant attempt > 0 ==> SeatFree(db, req) && !EmailTaken(db.regs, req.event, req.email)
      {
        CreateTxDecides(db, req, draws[attempt]);
        match CreateTx(db, req, draws[attempt].code, draws[attempt].confirmation) {
          case Created(after) =>
            r := Ok(|db.regs|);
            db := after;
            assert FirstFresh(old(db), req.event, draws, attempt);
            return;
          case CapacityExceeded => return Err(EventFull);
          case TicketTypeFull => return Err(TypeFull);
          case UniqueViolation =>
            if EmailTaken(db.regs, req.event, req.email) { return Err(Duplicate); }
        }
      }
      r := Err(CodesCollide);
    }

    /** Give a registration its token, reusing one that is there, and mark it issued. */
    method IssueQrToken(id: nat, fault: IssueFault) returns (issued: bool)
      requires id < |db.regs|
      modifies this
      ensures issued <==> IssueWorks(old(db), id, fault)
      ensures issued ==> db == Issued(old(db), id)
      ensures !issued ==> db == old(db).(tokens := if fault.MarkFails? then old(db).tokens + {id} else old(db).tokens)
    {
      if id !in db.tokens {
        if fault.TokenFails? { return false; }
        db := db.(tokens := db.tokens + {id});
      }
      assert db.tokens == db.tokens + {id};
      if fault.MarkFails? { return false; }
      db := db.(regs := db.regs[id := db.regs[id].(qrIssued := true)]);
      issued := true;
    }

    /** registerFree, run by itself. `open` is the event the slug leads to, when it is open for registration. */
    method RegisterFree(lower: string -> string, name: string, email: string, open: Option<EventId>, ticketType: Option<TypeId>,
                        draws: seq<Draw>, fault: IssueFault) returns (r: Result<nat, Refusal>)
      requires |draws| == 3
      requires open.Some? ==> open.value in db.events
      modifies this
      ensures r.Ok? ==> open.Some? && r.value < |db.regs| && db.regs[r.value].qrIssued && r.value in db.tokens
                        && db.regs[r.value].event == open.value && db.regs[r.value].email == lower(Text.Trim(email))
      ensures r.Ok? && ticketType.Some? ==>
                OnOffer(old(db), open.value, ticketType.value) && old(db).types[ticketType.value].price <= 0
      ensures r.Err? && r.error != QrFailed ==> db == old(db)
      ensures r == Err(NameRequired) <==> Text.Trim(name) == ""
      ensures r == Err(InvalidEmail) <==> Text.Trim(name) != "" && !Acceptable(lower, name, email)
      ensures r == Err(NotOpen) <==> Acceptable(lower, name, email) && open.None?
      ensures open.Some? && Acceptable(lower, name, email) ==>
                RefusedAs(old(db), open.value, ticketType, if r.Err? then Some(r.error) else None)
      ensures open.Some? && Acceptable(lower, name, email) && Obtainable(old(db), open.value, ticketType) ==>
                Completes(old(db), db, Request(open.value, lower(Text.Trim(email)), ticketType), draws, fault, r)
    {
      var attendeeEmail := lower(Text.Trim(email));
      if Text.Trim(name) == "" { return Err(NameRequired); }
      if !ImportPlan.EmailShape(attendeeEmail) || |attendeeEmail| > ImportPlan.MAX_EMAIL_LENGTH { return Err(InvalidEmail); }
      if open.None? { return Err(NotOpen); }
      var req := Request(open.value, attendeeEmail, ticketType);
      var refused := PreCheck(db, req);
      ChecksRefuse(db, req);
      if refused.Some? { return Err(refused.value); }
      r := FindOrCreate(req, draws, fault);
    }

    /** The rest of registerFree: complete the registration that is there, or create one and complete it. */
    method FindOrCreate(req: Request, draws: seq<Draw>, fault: IssueFault) returns (r: Result<nat, Refusal>)
      requires |draws| == 3 && req.event in db.events && Obtainable(db, req.event, req.ticketType)
      modifies this
      ensures Completes(old(db), db, req, draws, fault, r)
      ensures r.Err? ==> r.error in {Duplicate, CodesCollide, QrFailed}
      ensures r.Err? && r.error != QrFailed ==> db == old(db)
      ensures r.Ok? ==> r.value < |db.regs| && db.regs[r.value].qrIssued && r.value in db.tokens
                        && db.regs[r.value].event == req.event && db.regs[r.value].email == req.email
    {
      var existing := FindReg(db.regs, req.event, req.email);
      var id;
      if existing.Some? {
        if !Unfinished(db, existing.value) { return Err(Duplicate); }
        id := existing.value;
      } else {
        var created := CreateFreeRegistration(req, draws);
        if created.Err? { return created; }
        id := created.value;
      }
      var issued := IssueQrToken(id, fault);
      r := if issued then Ok(id) else Err(QrFailed);
    }
  }

  predicate Acceptable(lower: string -> string, name: string, email: string) {
    var mail := lower(Text.Trim(email));
    Text.Trim(name) != "" && ImportPlan.EmailShape(mail) && |mail| <= 254
  }

  /** A token that is already there is reused, so failing to make one does not matter then. */
  predicate IssueWorks(db: Db, id: nat, fault: IssueFault) {
    fault.Works? || (fault.TokenFails? && id in db.tokens)
  }

  /** The registration has its token and is marked; nothing else changes. */
  function Issued(db: Db, id: nat): Db
    requires id < |db.regs|
  {
    db.(tokens := db.tokens + {id}, regs := db.regs[id := db.regs[id].(qrIssued := true)])
  }

  /** What a request that got past the checks leads to. With a registration of that email: a conflict, unless
      it is confirmed without its QR, which is then issued. Without one: a new registration, unless all three
      draws collide. A QR that cannot be issued leaves the registration for a retry to complete. */
  ghost predicate Completes(before: Db, after: Db, req: Request, draws: seq<Draw>, fault: IssueFault, r: Result<nat, Refusal>) {
    match FindReg(before.regs, req.event, req.email)
    case Some(id) =>
      if before.regs[id].cancelled || before.regs[id].qrIssued then r == Err(Duplicate)
      else
        && r == (if IssueWorks(before, id, fault) then Ok(id) else Err(QrFailed))
        && (if r.Ok? then after == Issued(before, id) else after.(tokens := before.tokens) == before)
    case None =>
      var id := |before.regs|;
      && (r == Err(CodesCollide) <==> forall k: nat :: !FirstFresh(before, req.event, draws, k))
      && (r != Err(CodesCollide) ==> r == if IssueWorks(before, id, fault) then Ok(id) else Err(QrFailed))
      && (r.Ok? ==> exists k: nat, created: Db ::
                      FirstFresh(before, req.event, draws, k) && AddsOne(before, created, req, draws[k]) && after == Issued(created, id))
      && (r == Err(QrFailed) ==> exists k: nat ::
                      FirstFresh(before, req.event, draws, k) && AddsOne(before, after.(tokens := before.tokens), req, draws[k]))
  }

  /** A confirmed registration that never got its QR token marked as issued. */
  predicate Unfinished(db: Db, id: nat) {
    Confirmed(db.regs, id) && !db.regs[id].qrIssued
  }

  lemma {:induction false} FoundAlone(regs: seq<Registration>, event: EventId, email: string, id: nat)
    requires id < |regs| && regs[id].event == event && regs[id].email == email
    requires forall i :: id < i < |regs| ==> !(regs[i].event == event && regs[i].email == email)
    ensures FindReg(regs, event, email) == Some(id)
  {
    if id < |regs| - 1 { FoundAlone(regs[..|regs| - 1], event, email, id); }
  }

  /** Right after a registration was created, the checks before the transaction accept a retry of the same
      request exactly when the event and the type still have a seat beyond the one just taken. The retry that
      is meant to finish an interrupted registration is therefore refused when that registration took the
      last seat, although its email alone would have let it through. */
  lemma RetryPassesIff(before: Db, after: Db, req: Request, draw: Draw)
    requires req.event in before.events && PreCheck(before, req).None?
    requires CreateTx(before, req, draw.code, draw.confirmation) == Created(after)
    ensures FindReg(after.regs, req.event, req.email) == Some(|before.regs|) && Unfinished(after, |before.regs|)
    ensures PreCheck(after, req).None? <==>
            && HasRoom(CapacityOf(before, req.event), Active(before.regs, req.event) + 1)
            && (req.ticketType.Some? ==>
                  HasRoom(before.types[req.ticketType.value].capacity, before.types[req.ticketType.value].sold + 1))
  {
    FoundAlone(after.regs, req.event, req.email, |before.regs|);
    assert after.regs[..|before.regs|] == before.regs;
    assert Active(after.regs, req.event) == Active(before.regs, req.event) + 1;
  }
}
