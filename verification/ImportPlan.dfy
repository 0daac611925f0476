/** The planning half of an import: which rows of a file will be committed, and why the others will not. */
module ImportPlan {
  import opened Wrappers
  import opened Allocation
  import Text

  type Row = map<string, string>

  /** `sourceRow` is 0 when the parser gave none. */
  datatype ParsedRow = ParsedRow(fields: Row, sourceRow: nat)

  datatype Reason =
    | Unreadable | MissingEmail | EmailTooLong | MalformedEmail | MissingName | DuplicateInFile
    | AlreadyRegistered | InvalidTicketType | NoSeatLeft | NotCommitted

  datatype RowError = RowError(row: nat, email: Option<string>, reason: Reason)

  /** A row that passed validation; `rawType` is what it says about its ticket type, "" for nothing. */
  datatype Candidate = Candidate(rowNumber: nat, email: string, rawType: string)

  datatype TypeRow = TypeRow(id: TypeId, name: string, capacity: Option<nat>, sold: int)

  /** What each row of a file says for itself. */
  type Checks = seq<Result<Candidate, RowError>>

  /** Everything a plan depends on: `lower` is String.prototype.toLowerCase, `checks` what each row of the file
      says for itself, `existing` the emails already registered for the event and `types` its active ticket
      types, both as the database returned them. */
  datatype File = File(lower: string -> string, checks: Checks, existing: set<string>, types: seq<TypeRow>)

  const EMAIL_KEYS := ["email", "attendeeEmail", "attendeeemail"]
  const NAME_KEYS := ["name", "attendeeName", "attendeename"]
  const TYPE_KEYS := ["ticketTypeId", "ticketType", "tickettype", "tickettypeid"]
  const MAX_EMAIL_LENGTH := 254

  /** `row.a || row.b || ... || ''`. */
  function FirstOf(row: Row, keys: seq<string>): string {
    if |keys| == 0 then ""
    else if keys[0] in row && row[keys[0]] != "" then row[keys[0]]
    else FirstOf(row, keys[1..])
  }

  predicate AllPlain(s: string) {
    forall k :: 0 <= k < |s| ==> !Text.IsSpace(s[k]) && s[k] != '@'
  }

  /** The language of ^[^\s@]+@[^\s@]+\.[^\s@]+$. */
  predicate EmailShape(s: string) {
    exists at, dot :: 0 < at < |s| && at + 1 < dot < |s| - 1 && s[at] == '@' && s[dot] == '.'
                      && AllPlain(s[..at]) && AllPlain(s[at + 1..dot]) && AllPlain(s[dot + 1..])
  }

  function EmailOf(lower: string -> string, row: Row): string {
    lower(Text.Trim(FirstOf(row, EMAIL_KEYS)))
  }

  /** What is wrong with a row by itself, in the order in which it is checked. */
  function Flaw(lower: string -> string, row: Row): Option<Reason> {
    var email := EmailOf(lower, row);
    if email == "" then Some(MissingEmail)
    else if |email| > MAX_EMAIL_LENGTH then Some(EmailTooLong)
    else if !EmailShape(email) then Some(MalformedEmail)
    else if Text.Trim(FirstOf(row, NAME_KEYS)) == "" then Some(MissingName)
    else None
  }

  /** The row numbers reported: the parser's, or the position below a header line. */
  function NumberOf(row: ParsedRow, i: nat): nat {
    if row.sourceRow != 0 then row.sourceRow else i + 2
  }

  /** validateRow short of the look for duplicates. */
  function Checked(lower: string -> string, row: Row, number: nat): Result<Candidate, RowError> {
    var email := EmailOf(lower, row);
    match Flaw(lower, row)
    case Some(flaw) => Err(RowError(number, if flaw.MissingEmail? then None else Some(email), flaw))
    case None => Ok(Candidate(number, email, FirstOf(row, TYPE_KEYS)))
  }

  function ChecksOf(lower: string -> string, rows: seq<ParsedRow>): Checks {
    if |rows| == 0 then []
    else
      var n := |rows| - 1;
      ChecksOf(lower, rows[..n]) + [Checked(lower, rows[n].fields, NumberOf(rows[n], n))]
  }

  /** A sound row earlier in the file has the same email. */
  predicate HasEarlier(checks: Checks, i: nat, email: string)
    requires i <= |checks|
  {
    exists j: nat :: j < i && checks[j].Ok? && checks[j].value.email == email
  }

  /** A Map built from a list keeps the last entry of each key: first by id, then by name. */
  function LastById(lower: string -> string, types: seq<TypeRow>, key: string): (found: Option<TypeRow>)
    ensures found.Some? ==> found.value in types
  {
    if |types| == 0 then None
    else
      var last := types[|types| - 1];
      if lower(last.id) == key then Some(last) else LastById(lower, types[..|types| - 1], key)
  }

  function LastByName(lower: string -> string, types: seq<TypeRow>, key: string): (found: Option<TypeRow>)
    ensures found.Some? ==> found.value in types
  {
    if |types| == 0 then None
    else
      var last := types[|types| - 1];
      if lower(last.name) == key then Some(last) else LastByName(lower, types[..|types| - 1], key)
  }

  function Resolve(lower: string -> string, types: seq<TypeRow>, raw: string): (found: Option<TypeRow>)
    ensures found.Some? ==> found.value in types
  {
    var key := lower(Text.Trim(raw));
    var byId := LastById(lower, types, key);
    if byId.Some? then byId else LastByName(lower, types, key)
  }

  // ----- what the planner is for, said of each row on its own

  /** A row is accepted when it is well formed, is the first well-formed row with its email, its email is not
      registered yet, and it names no ticket type or one that resolves and of which fewer seats than remain
      are promised to earlier accepted rows. */
  function Judge(f: File, i: nat): Result<Entry, RowError>
    requires i < |f.checks|
    decreases i, 1
  {
    match f.checks[i]
    case Err(e) => Err(e)
    case Ok(c) =>
      if HasEarlier(f.checks, i, c.email) then Err(RowError(c.rowNumber, Some(c.email), DuplicateInFile))
      else if c.email in f.existing then Err(RowError(c.rowNumber, Some(c.email), AlreadyRegistered))
      else if c.rawType == "" then Ok(Entry(c.rowNumber, c.email, None))
      else
        match Resolve(f.lower, f.types, c.rawType)
        case None => Err(RowError(c.rowNumber, Some(c.email), InvalidTicketType))
        case Some(t) =>
          if HasRoom(t.capacity, t.sold + AcceptedOf(f, t.id, i)) then Ok(Entry(c.rowNumber, c.email, Some(t.id)))
          else Err(RowError(c.rowNumber, Some(c.email), NoSeatLeft))
  }

  /** How many of the first `n` rows are accepted with type `t`. */
  function AcceptedOf(f: File, t: TypeId, n: nat): nat
    requires n <= |f.checks|
    decreases n, 0
  {
    if n == 0 then 0
    else AcceptedOf(f, t, n - 1) + if Judge(f, n - 1).Ok? && Judge(f, n - 1).value.ticketType == Some(t) then 1 else 0
  }

  function Accepted(f: File, n: nat): seq<Entry>
    requires n <= |f.checks|
  {
    if n == 0 then []
    else Accepted(f, n - 1) + if Judge(f, n - 1).Ok? then [Judge(f, n - 1).value] else []
  }

  function Rejected(f: File, n: nat): seq<RowError>
    requires n <= |f.checks|
  {
    if n == 0 then []
    else Rejected(f, n - 1) + if Judge(f, n - 1).Err? then [Judge(f, n - 1).error] else []
  }

  // ----- the three passes, each over the output of the one before

  function SeenAfter(checks: Checks, n: nat): set<string>
    requires n <= |checks|
  {
    if n == 0 then {} else SeenAfter(checks, n - 1) + if checks[n - 1].Ok? then {checks[n - 1].value.email} else {}
  }

  /** validateRow, given the emails seen so far. */
  function Deduplicated(check: Result<Candidate, RowError>, seen: set<string>): Result<Candidate, RowError> {
    if check.Ok? && check.value.email in seen then
      Err(RowError(check.value.rowNumber, Some(check.value.email), DuplicateInFile))
    else check
  }

  function ValidatedAt(checks: Checks, i: nat): Result<Candidate, RowError>
    requires i < |checks|
  {
    Deduplicated(checks[i], SeenAfter(checks, i))
  }

  function Valids(checks: Checks, n: nat): seq<Candidate>
    requires n <= |checks|
  {
    if n == 0 then [] else Valids(checks, n - 1) + if ValidatedAt(checks, n - 1).Ok? then [ValidatedAt(checks, n - 1).value] else []
  }

  function Invalids(checks: Checks, n: nat): seq<RowError>
    requires n <= |checks|
  {
    if n == 0 then [] else Invalids(checks, n - 1) + if ValidatedAt(checks, n - 1).Err? then [ValidatedAt(checks, n - 1).error] else []
  }

  function Unregistered(cands: seq<Candidate>, existing: set<string>): seq<Candidate> {
    if |cands| == 0 then []
    else
      var c := cands[|cands| - 1];
      Unregistered(cands[..|cands| - 1], existing) + if c.email in existing then [] else [c]
  }

  function RegisteredErrors(cands: seq<Candidate>, existing: set<string>): seq<RowError> {
    if |cands| == 0 then []
    else
      var c := cands[|cands| - 1];
      RegisteredErrors(cands[..|cands| - 1], existing)
      + if c.email in existing then [RowError(c.rowNumber, Some(c.email), AlreadyRegistered)] else []
  }

  function CountType(entries: seq<Entry>, t: TypeId): nat {
    if |entries| == 0 then 0
    else CountType(entries[..|entries| - 1], t) + if entries[|entries| - 1].ticketType == Some(t) then 1 else 0
  }

  /** One row of the third pass, given the entries admitted so far. */
  function AdmitOne(f: File, c: Candidate, admitted: seq<Entry>): Result<Entry, RowError> {
    if c.rawType == "" then Ok(Entry(c.rowNumber, c.email, None))
    else
      match Resolve(f.lower, f.types, c.rawType)
      case None => Err(RowError(c.rowNumber, Some(c.email), InvalidTicketType))
      case Some(t) =>
        if HasRoom(t.capacity, t.sold + CountType(admitted, t.id)) then Ok(Entry(c.rowNumber, c.email, Some(t.id)))
        else Err(RowError(c.rowNumber, Some(c.email), NoSeatLeft))
  }

  function Admitted(f: File, cands: seq<Candidate>): seq<Entry> {
    if |cands| == 0 then []
    else
      var before := Admitted(f, cands[..|cands| - 1]);
      var r := AdmitOne(f, cands[|cands| - 1], before);
      before + if r.Ok? then [r.value] else []
  }

  function AdmitErrors(f: File, cands: seq<Candidate>): seq<RowError> {
    if |cands| == 0 then []
    else
      var r := AdmitOne(f, cands[|cands| - 1], Admitted(f, cands[..|cands| - 1]));
      AdmitErrors(f, cands[..|cands| - 1]) + if r.Err? then [r.error] else []
  }

  lemma {:induction false} SeenAre(checks: Checks, n: nat, email: string)
    requires n <= |checks|
    ensures email in SeenAfter(checks, n) <==> HasEarlier(checks, n, email)
  {
    if n > 0 {
      SeenAre(checks, n - 1, email);
      var last := checks[n - 1];
      assert HasEarlier(checks, n, email) <==> HasEarlier(checks, n - 1, email) || (last.Ok? && last.value.email == email);
    }
  }

  lemma CountTypeAppends(entries: seq<Entry>, more: seq<Entry>, t: TypeId)
    requires |more| <= 1
    ensures CountType(entries + more, t) == CountType(entries, t) + if |more| == 1 && more[0].ticketType == Some(t) then 1 else 0
  {
    if |more| == 1 { assert (entries + more)[..|entries|] == entries; } else { assert entries + more == entries; }
  }

  lemma {:induction false} AcceptedCounts(f: File, n: nat, t: TypeId)
    requires n <= |f.checks|
    ensures CountType(Accepted(f, n), t) == AcceptedOf(f, t, n)
  {
    if n > 0 {
      AcceptedCounts(f, n - 1, t);
      CountTypeAppends(Accepted(f, n - 1), if Judge(f, n - 1).Ok? then [Judge(f, n - 1).value] else [], t);
    }
  }

  lemma UnregisteredAppends(cands: seq<Candidate>, more: seq<Candidate>, existing: set<string>)
    requires |more| <= 1
    ensures Unregistered(cands + more, existing)
         == Unregistered(cands, existing) + if |more| == 1 && more[0].email !in existing then more else []
    ensures RegisteredErrors(cands + more, existing)
         == RegisteredErrors(cands, existing)
            + if |more| == 1 && more[0].email in existing then [RowError(more[0].rowNumber, Some(more[0].email), AlreadyRegistered)] else []
  {
    if |more| == 1 { assert (cands + more)[..|cands|] == cands; } else { assert cands + more == cands; }
  }

  lemma AdmittedAppends(f: File, cands: seq<Candidate>, more: seq<Candidate>)
    requires |more| <= 1
    ensures |more| == 0 ==> Admitted(f, cands + more) == Admitted(f, cands) && AdmitErrors(f, cands + more) == AdmitErrors(f, cands)
    ensures |more| == 1 ==> var r := AdmitOne(f, more[0], Admitted(f, cands));
                            && Admitted(f, cands + more) == Admitted(f, cands) + (if r.Ok? then [r.value] else [])
                            && AdmitErrors(f, cands + more) == AdmitErrors(f, cands) + (if r.Err? then [r.error] else [])
  {
    if |more| == 1 { assert (cands + more)[..|cands|] == cands; } else { assert cands + more == cands; }
  }

  /** The second and the third pass together: their entries and their errors. */
  function Planned(f: File, cands: seq<Candidate>): seq<Entry> {
    Admitted(f, Unregistered(cands, f.existing))
  }

  function LaterErrors(f: File, cands: seq<Candidate>): seq<RowError> {
    RegisteredErrors(cands, f.existing) + AdmitErrors(f, Unregistered(cands, f.existing))
  }

  function PlannedUpTo(f: File, n: nat): seq<Entry>
    requires n <= |f.checks|
  {
    Planned(f, Valids(f.checks, n))
  }

  function ErrorsUpTo(f: File, n: nat): seq<RowError>
    requires n <= |f.checks|
  {
    Invalids(f.checks, n) + LaterErrors(f, Valids(f.checks, n))
  }

  /** One row: the judgement is what the passes make of it. */
  lemma JudgementByPasses(f: File, i: nat)
    requires i < |f.checks|
    ensures var v := ValidatedAt(f.checks, i);
            && (v.Err? ==> Judge(f, i) == Err(v.error))
            && (v.Ok? && v.value.email in f.existing ==>
                  Judge(f, i) == Err(RowError(v.value.rowNumber, Some(v.value.email), AlreadyRegistered)))
            && (v.Ok? && v.value.email !in f.existing ==> Judge(f, i) == AdmitOne(f, v.value, Accepted(f, i)))
  {
    if f.checks[i].Ok? {
      var c := f.checks[i].value;
      SeenAre(f.checks, i, c.email);
      var t := Resolve(f.lower, f.types, c.rawType);
      if t.Some? { AcceptedCounts(f, i, t.value.id); }
    }
  }

  lemma RegisteredIsSetAside(f: File, cands: seq<Candidate>, c: Candidate)
    requires c.email in f.existing
    ensures Planned(f, cands + [c]) == Planned(f, cands)
    ensures multiset(LaterErrors(f, cands + [c])) == multiset(LaterErrors(f, cands)) + multiset{RowError(c.rowNumber, Some(c.email), AlreadyRegistered)}
  {
    UnregisteredAppends(cands, [c], f.existing);
    assert Unregistered(cands + [c], f.existing) == Unregistered(cands, f.existing);
  }

  lemma UnregisteredIsAdmitted(f: File, cands: seq<Candidate>, c: Candidate)
    requires c.email !in f.existing
    ensures var r := AdmitOne(f, c, Planned(f, cands));
            && Planned(f, cands + [c]) == Planned(f, cands) + (if r.Ok? then [r.value] else [])
            && multiset(LaterErrors(f, cands + [c])) == multiset(LaterErrors(f, cands)) + (if r.Err? then multiset{r.error} else multiset{})
  {
    UnregisteredAppends(cands, [c], f.existing);
    AdmittedAppends(f, Unregistered(cands, f.existing), [c]);
  }

  /** A row the first pass turned into `v` ends up as `j`, in the entries or in the errors. */
  lemma PilesGrow(f: File, cands: seq<Candidate>, bad: seq<RowError>, v: Result<Candidate, RowError>, j: Result<Entry, RowError>)
    requires v.Err? ==> j == Err(v.error)
    requires v.Ok? && v.value.email in f.existing ==> j == Err(RowError(v.value.rowNumber, Some(v.value.email), AlreadyRegistered))
    requires v.Ok? && v.value.email !in f.existing ==> j == AdmitOne(f, v.value, Planned(f, cands))
    ensures Planned(f, if v.Ok? then cands + [v.value] else cands) == Planned(f, cands) + if j.Ok? then [j.value] else []
    ensures multiset((if v.Err? then bad + [v.error] else bad) + LaterErrors(f, if v.Ok? then cands + [v.value] else cands))
         == multiset(bad + LaterErrors(f, cands)) + if j.Err? then multiset{j.error} else multiset{}
  {
    if v.Ok? {
      if v.value.email in f.existing { RegisteredIsSetAside(f, cands, v.value); }
      else { UnregisteredIsAdmitted(f, cands, v.value); }
    }
  }

  lemma RowLands(f: File, n: nat, j: Result<Entry, RowError>)
    requires 0 < n <= |f.checks|
    requires PlannedUpTo(f, n - 1) == Accepted(f, n - 1) && j == Judge(f, n - 1)
    ensures PlannedUpTo(f, n) == PlannedUpTo(f, n - 1) + if j.Ok? then [j.value] else []
    ensures multiset(ErrorsUpTo(f, n)) == multiset(ErrorsUpTo(f, n - 1)) + if j.Err? then multiset{j.error} else multiset{}
  {
    JudgementByPasses(f, n - 1);
    var cands, bad, v := Valids(f.checks, n - 1), Invalids(f.checks, n - 1), ValidatedAt(f.checks, n - 1);
    PilesGrow(f, cands, bad, v, j);
    assert Valids(f.checks, n) == if v.Ok? then cands + [v.value] else cands;
    assert Invalids(f.checks, n) == if v.Err? then bad + [v.error] else bad;
  }

  /** The three passes together accept exactly the rows the judgement accepts, in file order, and report
      every other row exactly once with its reason, though not in file order. */
  lemma {:induction false} PlannerAcceptsExactly(f: File, n: nat)
    requires n <= |f.checks|
    ensures PlannedUpTo(f, n) == Accepted(f, n)
    ensures multiset(ErrorsUpTo(f, n)) == multiset(Rejected(f, n))
    ensures |Accepted(f, n)| + |Rejected(f, n)| == n
  {
    if n > 0 {
      PlannerAcceptsExactly(f, n - 1);
      RowLands(f, n, Judge(f, n - 1));
    }
  }
}
