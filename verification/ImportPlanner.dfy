/** The loops that plan an import. */
module ImportPlanner {
  import opened Wrappers
  import opened Allocation
  import opened ImportPlan
  import opened ImportRules
  import Text

  method ValidateRow(lower: string -> string, row: Row, rowNumber: nat, seen: set<string>)
    returns (r: Result<Candidate, RowError>, seenAfter: set<string>)
    ensures r == Deduplicated(Checked(lower, row, rowNumber), seen)
    ensures Answered(lower, row, rowNumber, seen, r)
    ensures seenAfter == if r.Ok? then seen + {r.value.email} else seen
  {
    RowIsChecked(lower, row, rowNumber);
    seenAfter := seen;
    var email := lower(Text.Trim(FirstOf(row, EMAIL_KEYS)));
    var name := Text.Trim(FirstOf(row, NAME_KEYS));
    if email == "" { return Err(RowError(rowNumber, None, MissingEmail)), seen; }
    if |email| > MAX_EMAIL_LENGTH { return Err(RowError(rowNumber, Some(email), EmailTooLong)), seen; }
    if !EmailShape(email) { return Err(RowError(rowNumber, Some(email), MalformedEmail)), seen; }
    if name == "" { return Err(RowError(rowNumber, Some(email), MissingName)), seen; }
    if email in seen { return Err(RowError(rowNumber, Some(email), DuplicateInFile)), seen; }
    seenAfter := seen + {email};
    r := Ok(Candidate(rowNumber, email, FirstOf(row, TYPE_KEYS)));
  }

  lemma ValidationOf(lower: string -> string, rows: seq<ParsedRow>, i: nat)
    requires i < |rows|
    ensures var checks := ChecksOf(lower, rows);
            && |checks| == |rows|
            && var v := Deduplicated(Checked(lower, rows[i].fields, NumberOf(rows[i], i)), SeenAfter(checks, i));
               v == ValidatedAt(checks, i) && SeenAfter(checks, i + 1) == if v.Ok? then SeenAfter(checks, i) + {v.value.email} else SeenAfter(checks, i)
  {
    ChecksAre(lower, rows, i);
    var checks := ChecksOf(lower, rows);
    var check := checks[i];
    if check.Ok? && check.value.email in SeenAfter(checks, i) {
      assert SeenAfter(checks, i) + {check.value.email} == SeenAfter(checks, i);
    }
  }

  /** The first pass: the sound rows with new emails, and the errors of the others. */
  method ValidateRows(lower: string -> string, rows: seq<ParsedRow>) returns (validEntries: seq<Candidate>, errors: seq<RowError>)
    ensures |ChecksOf(lower, rows)| == |rows|
    ensures validEntries == Valids(ChecksOf(lower, rows), |rows|)
    ensures errors == Invalids(ChecksOf(lower, rows), |rows|)
  {
    var seenEmails: set<string> := {};
    validEntries, errors := [], [];
    ghost var checks := ChecksOf(lower, rows);
    ChecksAre(lower, rows, 0);
    for i := 0 to |rows|
      invariant seenEmails == SeenAfter(checks, i)
      invariant validEntries == Valids(checks, i) && errors == Invalids(checks, i)
    {
      var rowNumber := if rows[i].sourceRow != 0 then rows[i].sourceRow else i + 2;
      var validation;
      ValidationOf(lower, rows, i);
      validation, seenEmails := ValidateRow(lower, rows[i].fields, rowNumber, seenEmails);
      if validation.Err? { errors := errors + [validation.error]; } else { validEntries := validEntries + [validation.value]; }
    }
  }

  method DropRegistered(cands: seq<Candidate>, existing: set<string>) returns (toCreate: seq<Candidate>, errors: seq<RowError>)
    ensures toCreate == Unregistered(cands, existing) && errors == RegisteredErrors(cands, existing)
  {
    toCreate, errors := [], [];
    for i := 0 to |cands|
      invariant toCreate == Unregistered(cands[..i], existing) && errors == RegisteredErrors(cands[..i], existing)
    {
      assert cands[..i + 1][..i] == cands[..i];
      if cands[i].email in existing {
        errors := errors + [RowError(cands[i].rowNumber, Some(cands[i].email), AlreadyRegistered)];
      } else {
        toCreate := toCreate + [cands[i]];
      }
    }
    assert cands[..|cands|] == cands;
  }

  /** Maps that answer as the lists they were built from: the last entry of each key. */
  ghost predicate Indexed(lower: string -> string, types: seq<TypeRow>, byId: map<string, TypeRow>, byName: map<string, TypeRow>) {
    && (forall key: string :: LastById(lower, types, key) == if key in byId then Some(byId[key]) else None)
    && (forall key: string :: LastByName(lower, types, key) == if key in byName then Some(byName[key]) else None)
  }

  method IndexTypes(lower: string -> string, types: seq<TypeRow>) returns (byId: map<string, TypeRow>, byName: map<string, TypeRow>)
    ensures Indexed(lower, types, byId, byName)
  {
    byId, byName := map[], map[];
    for i := 0 to |types|
      invariant Indexed(lower, types[..i], byId, byName)
    {
      assert types[..i + 1][..i] == types[..i];
      byId := byId[lower(types[i].id) := types[i]];
      byName := byName[lower(types[i].name) := types[i]];
    }
    assert types[..|types|] == types;
  }

  /** The claim counters agree with the entries they were counted from. */
  ghost predicate ClaimsMatch(claims: map<TypeId, nat>, entries: seq<Entry>) {
    forall t: TypeId :: CountType(entries, t) == if t in claims then claims[t] else 0
  }

  ghost predicate ClaimsPositive(claims: map<TypeId, nat>) {
    forall t :: t in claims ==> claims[t] > 0
  }

  lemma ClaimsStay(claims: map<TypeId, nat>, entries: seq<Entry>, e: Entry)
    requires ClaimsMatch(claims, entries) && e.ticketType.None?
    ensures ClaimsMatch(claims, entries + [e])
  {
    forall t: TypeId ensures CountType(entries + [e], t) == CountType(entries, t) { CountTypeAppends(entries, [e], t); }
  }

  lemma ClaimsGrow(claims: map<TypeId, nat>, entries: seq<Entry>, e: Entry)
    requires ClaimsMatch(claims, entries) && e.ticketType.Some?
    ensures var t := e.ticketType.value; ClaimsMatch(claims[t := (if t in claims then claims[t] else 0) + 1], entries + [e])
  {
    forall u: TypeId ensures CountType(entries + [e], u) == CountType(entries, u) + if e.ticketType == Some(u) then 1 else 0 {
      CountTypeAppends(entries, [e], u);
    }
  }

  /** One row against the seats claimed by the entries admitted so far. */
  method AdmitRow(f: File, c: Candidate, byId: map<string, TypeRow>, byName: map<string, TypeRow>, claims: map<TypeId, nat>, ghost admitted: seq<Entry>)
    returns (r: Result<Entry, RowError>, claimsAfter: map<TypeId, nat>)
    requires Indexed(f.lower, f.types, byId, byName) && ClaimsMatch(claims, admitted) && ClaimsPositive(claims)
    ensures r == AdmitOne(f, c, admitted)
    ensures r.Err? ==> claimsAfter == claims
    ensures r.Ok? ==> ClaimsMatch(claimsAfter, admitted + [r.value])
    ensures ClaimsPositive(claimsAfter)
  {
    claimsAfter := claims;
    if c.rawType == "" {
      r := Ok(Entry(c.rowNumber, c.email, None));
      ClaimsStay(claims, admitted, r.value);
      return;
    }
    var key := f.lower(Text.Trim(c.rawType));
    var found := if key in byId then Some(byId[key]) else if key in byName then Some(byName[key]) else None;
    assert found == Resolve(f.lower, f.types, c.rawType);
    if found.None? {
      return Err(RowError(c.rowNumber, Some(c.email), InvalidTicketType)), claims;
    }
    var t := found.value;
    var claimed := if t.id in claims then claims[t.id] else 0;
    if t.capacity.Some? && t.sold + claimed >= t.capacity.value {
      return Err(RowError(c.rowNumber, Some(c.email), NoSeatLeft)), claims;
    }
    r := Ok(Entry(c.rowNumber, c.email, Some(t.id)));
    ClaimsGrow(claims, admitted, r.value);
    claimsAfter := claims[t.id := claimed + 1];
  }

  /** With no typed row this changes nothing, which is why the query before it may then be skipped. */
  method AdmitByType(f: File, cands: seq<Candidate>) returns (toCreate: seq<Entry>, claims: map<TypeId, nat>, errors: seq<RowError>)
    ensures toCreate == Admitted(f, cands) && errors == AdmitErrors(f, cands)
    ensures ClaimsMatch(claims, toCreate) && ClaimsPositive(claims)
  {
    toCreate, claims, errors := [], map[], [];
    var byId, byName := IndexTypes(f.lower, f.types);
    for i := 0 to |cands|
      invariant toCreate == Admitted(f, cands[..i]) && errors == AdmitErrors(f, cands[..i])
      invariant ClaimsMatch(claims, toCreate) && ClaimsPositive(claims)
    {
      assert cands[..i + 1][..i] == cands[..i];
      var r;
      r, claims := AdmitRow(f, cands[i], byId, byName, claims, toCreate);
      if r.Ok? { toCreate := toCreate + [r.value]; } else { errors := errors + [r.error]; }
    }
    assert cands[..|cands|] == cands;
  }

  lemma PilesAreJudged(f: File, a: seq<RowError>, b: seq<RowError>, c: seq<RowError>)
    requires var n := |f.checks|;
             a == Invalids(f.checks, n) && b == RegisteredErrors(Valids(f.checks, n), f.existing)
             && c == AdmitErrors(f, Unregistered(Valids(f.checks, n), f.existing))
    ensures var n := |f.checks|;
            && Admitted(f, Unregistered(Valids(f.checks, n), f.existing)) == Accepted(f, n)
            && multiset(a + b + c) == multiset(Rejected(f, n))
            && |Accepted(f, n)| + |a + b + c| == n
  {
    PlannerAcceptsExactly(f, |f.checks|);
    assert a + b + c == ErrorsUpTo(f, |f.checks|);
    assert |multiset(a + b + c)| == |multiset(Rejected(f, |f.checks|))|;
  }

  /** The whole plan: the rows accepted are those the judgement accepts, in file order; every other row is
      reported once; and the claim counters count the accepted rows of each type. */
  method Plan(lower: string -> string, rows: seq<ParsedRow>, existing: set<string>, types: seq<TypeRow>)
    returns (toCreate: seq<Entry>, claims: map<TypeId, nat>, errors: seq<RowError>)
    ensures var f := FileOf(lower, rows, existing, types);
            && |f.checks| == |rows|
            && toCreate == Accepted(f, |rows|)
            && (forall e :: e in toCreate <==> exists i: nat :: i < |rows| && Becomes(f, i, e))
            && (forall e :: e in toCreate ==> FromSoundRow(lower, rows, e) && e.email !in existing)
            && multiset(errors) == multiset(Rejected(f, |rows|))
            && |toCreate| + |errors| == |rows|
    ensures ClaimsMatch(claims, toCreate) && ClaimsPositive(claims)
  {
    var f := FileOf(lower, rows, existing, types);
    var validEntries, validationErrors := ValidateRows(lower, rows);
    var unregistered, registeredErrors := DropRegistered(validEntries, existing);
    var typeErrors;
    toCreate, claims, typeErrors := AdmitByType(f, unregistered);
    errors := validationErrors + registeredErrors + typeErrors;
    PilesAreJudged(f, validationErrors, registeredErrors, typeErrors);
    forall e | e in toCreate ensures FromSoundRow(lower, rows, e) && e.email !in existing {
      EntryIsSound(lower, rows, existing, types, e);
    }
    forall e ensures e in toCreate <==> exists i: nat :: i < |rows| && Becomes(f, i, e) { AcceptedAre(f, |rows|, e); }
  }
}
