/** The rules of an import, said of a file's own columns: which rows are sound, what the others are told, and
    which are accepted. */
module ImportRules {
  import opened Wrappers
  import opened Allocation
  import opened ImportPlan
  import Text

  // ----- what a row says

  function Cell(row: Row, column: string): string {
    if column in row then row[column] else ""
  }

  /** The first of three texts that is not empty. */
  function FirstFilled(a: string, b: string, c: string): string {
    if a != "" then a else if b != "" then b else c
  }

  function EmailIn(lower: string -> string, row: Row): string {
    lower(Text.Trim(FirstFilled(Cell(row, "email"), Cell(row, "attendeeEmail"), Cell(row, "attendeeemail"))))
  }

  function NameIn(row: Row): string {
    Text.Trim(FirstFilled(Cell(row, "name"), Cell(row, "attendeeName"), Cell(row, "attendeename")))
  }

  function TypeIn(row: Row): string {
    FirstFilled(Cell(row, "ticketTypeId"), Cell(row, "ticketType"), FirstFilled(Cell(row, "tickettype"), Cell(row, "tickettypeid"), ""))
  }

  /** No blank and no at sign in any of three parts, none of them empty. */
  predicate EmailParts(s: string, account: string, host: string, domain: string) {
    && s == account + ['@'] + host + ['.'] + domain
    && account != "" && host != "" && domain != ""
    && AllPlain(account) && AllPlain(host) && AllPlain(domain)
  }

  ghost predicate IsEmail(s: string) {
    exists account, host, domain :: EmailParts(s, account, host, domain)
  }

  ghost predicate Sound(lower: string -> string, row: Row) {
    var email := EmailIn(lower, row);
    email != "" && |email| <= 254 && IsEmail(email) && NameIn(row) != ""
  }

  /** The reason a row is given, each with the earlier ones excluded. */
  ghost predicate Reported(lower: string -> string, row: Row, seen: set<string>, reason: Reason) {
    var email := EmailIn(lower, row);
    && (reason == MissingEmail <==> email == "")
    && (reason == EmailTooLong <==> |email| > 254)
    && (reason == MalformedEmail <==> 0 < |email| <= 254 && !IsEmail(email))
    && (reason == MissingName <==> 0 < |email| <= 254 && IsEmail(email) && NameIn(row) == "")
    && (reason == DuplicateInFile <==> Sound(lower, row) && email in seen)
  }

  /** A sound row with a new email becomes a candidate; any other is reported with its number and its email. */
  ghost predicate Answered(lower: string -> string, row: Row, number: nat, seen: set<string>, r: Result<Candidate, RowError>) {
    var email := EmailIn(lower, row);
    && (r.Ok? <==> Sound(lower, row) && email !in seen)
    && (r.Ok? ==> r.value == Candidate(number, email, TypeIn(row)))
    && (r.Err? ==> r.error.row == number && Reported(lower, row, seen, r.error.reason)
                   && r.error.email == if email == "" then None else Some(email))
  }

  // ----- the shape of an email

  lemma ShapeHasParts(s: string)
    requires EmailShape(s)
    ensures IsEmail(s)
  {
    var at, dot :| 0 < at < |s| && at + 1 < dot < |s| - 1 && s[at] == '@' && s[dot] == '.'
                   && AllPlain(s[..at]) && AllPlain(s[at + 1..dot]) && AllPlain(s[dot + 1..]);
    SplitAtTwo(s, at, dot);
    assert EmailParts(s, s[..at], s[at + 1..dot], s[dot + 1..]);
  }

  lemma SplitAtTwo(s: string, i: nat, j: nat)
    requires i < j < |s|
    ensures s == s[..i] + [s[i]] + s[i + 1..j] + [s[j]] + s[j + 1..]
  {
  }

  lemma PartsHaveShape(s: string, account: string, host: string, domain: string)
    requires EmailParts(s, account, host, domain)
    ensures EmailShape(s)
  {
    var at, dot := |account|, |account| + 1 + |host|;
    assert s[..at] == account && s[at + 1..dot] == host && s[dot + 1..] == domain;
    assert s[at] == '@' && s[dot] == '.';
  }

  /** The positions the regular expression finds are the seams of three parts. */
  lemma ShapeIsEmail(s: string)
    ensures EmailShape(s) <==> IsEmail(s)
  {
    if EmailShape(s) { ShapeHasParts(s); }
    if IsEmail(s) {
      var account, host, domain :| EmailParts(s, account, host, domain);
      PartsHaveShape(s, account, host, domain);
    }
  }

  // ----- one row by itself

  lemma FirstOfThree(row: Row, a: string, b: string, c: string)
    ensures FirstOf(row, [a, b, c]) == FirstFilled(Cell(row, a), Cell(row, b), Cell(row, c))
  {
    assert [a, b, c][1..] == [b, c] && [b, c][1..] == [c] && [c][1..] == [];
    assert FirstOf(row, [c]) == Cell(row, c);
    assert FirstOf(row, [b, c]) == FirstFilled(Cell(row, b), Cell(row, c), "");
  }

  lemma ColumnsRead(row: Row)
    ensures FirstOf(row, EMAIL_KEYS) == FirstFilled(Cell(row, "email"), Cell(row, "attendeeEmail"), Cell(row, "attendeeemail"))
    ensures Text.Trim(FirstOf(row, NAME_KEYS)) == NameIn(row)
    ensures FirstOf(row, TYPE_KEYS) == TypeIn(row)
  {
    FirstOfThree(row, "email", "attendeeEmail", "attendeeemail");
    FirstOfThree(row, "name", "attendeeName", "attendeename");
    FirstOfThree(row, "ticketType", "tickettype", "tickettypeid");
    assert TYPE_KEYS[1..] == ["ticketType", "tickettype", "tickettypeid"];
  }

  /** A row is checked by its columns alone: it is sound exactly when it has an email of at most 254 characters
      and of the right shape and a name that is not blank. */
  lemma RowIsChecked(lower: string -> string, row: Row, number: nat)
    ensures Answered(lower, row, number, {}, Checked(lower, row, number))
  {
    ColumnsRead(row);
    ShapeIsEmail(EmailIn(lower, row));
  }

  // ----- the ticket type a text names

  /** The `k`-th type is the last of that id or, if no type has that id, the last of that name. */
  predicate Names(lower: string -> string, types: seq<TypeRow>, key: string, k: nat) {
    && k < |types|
    && if exists j: nat :: j < |types| && lower(types[j].id) == key
       then lower(types[k].id) == key && forall j: nat :: k < j < |types| ==> lower(types[j].id) != key
       else lower(types[k].name) == key && forall j: nat :: k < j < |types| ==> lower(types[j].name) != key
  }

  lemma {:induction false} LastByIdMeans(lower: string -> string, types: seq<TypeRow>, key: string)
    returns (k: nat)
    ensures LastById(lower, types, key).None? <==> forall j: nat :: j < |types| ==> lower(types[j].id) != key
    ensures LastById(lower, types, key).Some? ==>
              && k < |types| && LastById(lower, types, key) == Some(types[k])
              && lower(types[k].id) == key && forall j: nat :: k < j < |types| ==> lower(types[j].id) != key
  {
    k := 0;
    if |types| > 0 {
      var n := |types| - 1;
      if lower(types[n].id) == key { k := n; } else {
        k := LastByIdMeans(lower, types[..n], key);
        assert forall j: nat :: j < n ==> types[..n][j] == types[j];
      }
    }
  }

  lemma {:induction false} LastByNameMeans(lower: string -> string, types: seq<TypeRow>, key: string)
    returns (k: nat)
    ensures LastByName(lower, types, key).None? <==> forall j: nat :: j < |types| ==> lower(types[j].name) != key
    ensures LastByName(lower, types, key).Some? ==>
              && k < |types| && LastByName(lower, types, key) == Some(types[k])
              && lower(types[k].name) == key && forall j: nat :: k < j < |types| ==> lower(types[j].name) != key
  {
    k := 0;
    if |types| > 0 {
      var n := |types| - 1;
      if lower(types[n].name) == key { k := n; } else {
        k := LastByNameMeans(lower, types[..n], key);
        assert forall j: nat :: j < n ==> types[..n][j] == types[j];
      }
    }
  }

  /** Ids come before names, and of equal ones the last counts; blanks around the text and capitals do not. */
  lemma ResolveMeans(lower: string -> string, types: seq<TypeRow>, raw: string)
    ensures var r, key := Resolve(lower, types, raw), lower(Text.Trim(raw));
            && (r.None? <==> forall j: nat :: j < |types| ==> lower(types[j].id) != key && lower(types[j].name) != key)
            && (r.Some? ==> exists k: nat :: Names(lower, types, key, k) && r == Some(types[k]))
  {
    var key := lower(Text.Trim(raw));
    var i := LastByIdMeans(lower, types, key);
    var n := LastByNameMeans(lower, types, key);
    if LastById(lower, types, key).Some? { assert Names(lower, types, key, i); }
    else if LastByName(lower, types, key).Some? { assert Names(lower, types, key, n); }
  }

  // ----- the file

  lemma {:induction false} ChecksAre(lower: string -> string, rows: seq<ParsedRow>, i: nat)
    ensures |ChecksOf(lower, rows)| == |rows|
    ensures i < |rows| ==> ChecksOf(lower, rows)[i] == Checked(lower, rows[i].fields, NumberOf(rows[i], i))
  {
    if |rows| > 0 { ChecksAre(lower, rows[..|rows| - 1], i); }
  }

  /** An earlier sound row of the file has the same email. */
  ghost predicate Repeats(lower: string -> string, rows: seq<ParsedRow>, i: nat)
    requires i < |rows|
  {
    exists j: nat :: j < i && Sound(lower, rows[j].fields) && EmailIn(lower, rows[j].fields) == EmailIn(lower, rows[i].fields)
  }

  function FileOf(lower: string -> string, rows: seq<ParsedRow>, existing: set<string>, types: seq<TypeRow>): File {
    File(lower, ChecksOf(lower, rows), existing, types)
  }

  lemma EarlierRepeats(lower: string -> string, rows: seq<ParsedRow>, i: nat)
    requires i < |rows|
    ensures |ChecksOf(lower, rows)| == |rows|
    ensures HasEarlier(ChecksOf(lower, rows), i, EmailIn(lower, rows[i].fields)) <==> Repeats(lower, rows, i)
  {
    ChecksAre(lower, rows, i);
    forall j: nat | j < i ensures j < i ==>
      var c := ChecksOf(lower, rows)[j];
      && (c.Ok? <==> Sound(lower, rows[j].fields)) && (c.Ok? ==> c.value.email == EmailIn(lower, rows[j].fields))
    {
      ChecksAre(lower, rows, j);
      RowIsChecked(lower, rows[j].fields, NumberOf(rows[j], j));
    }
  }

  /** The type a row gets: none if it names none, otherwise the one it names, if a seat is left of it beyond
      those given to earlier rows of the file. */
  ghost predicate TypeGranted(f: File, i: nat, raw: string, granted: Option<TypeId>)
    requires i < |f.checks|
  {
    if raw == "" then granted.None?
    else exists k: nat :: Names(f.lower, f.types, f.lower(Text.Trim(raw)), k) && granted == Some(f.types[k].id)
           && (f.types[k].capacity.Some? ==> f.types[k].sold + AcceptedOf(f, f.types[k].id, i) < f.types[k].capacity.value)
  }

  ghost predicate Grantable(f: File, i: nat, raw: string)
    requires i < |f.checks|
  {
    exists granted :: TypeGranted(f, i, raw, granted)
  }

  lemma NamesOne(lower: string -> string, types: seq<TypeRow>, key: string, j: nat, k: nat)
    requires Names(lower, types, key, j) && Names(lower, types, key, k)
    ensures j == k
  {
  }

  lemma GrantedIsResolved(f: File, i: nat, raw: string, granted: Option<TypeId>)
    requires i < |f.checks|
    ensures TypeGranted(f, i, raw, granted) <==>
            if raw == "" then granted.None?
            else
              var t := Resolve(f.lower, f.types, raw);
              t.Some? && granted == Some(t.value.id) && HasRoom(t.value.capacity, t.value.sold + AcceptedOf(f, t.value.id, i))
  {
    if raw != "" {
      NamesResolved(f.lower, f.types, raw);
      var t, key := Resolve(f.lower, f.types, raw), f.lower(Text.Trim(raw));
      if t.Some? {
        var k: nat :| Names(f.lower, f.types, key, k) && t == Some(f.types[k]);
      }
    }
  }

  /** The type named is the type resolved, if there is one. */
  lemma NamesResolved(lower: string -> string, types: seq<TypeRow>, raw: string)
    ensures var r, key := Resolve(lower, types, raw), lower(Text.Trim(raw));
            && (r.Some? ==> exists k: nat :: Names(lower, types, key, k) && r == Some(types[k]))
            && forall k: nat :: Names(lower, types, key, k) ==> r == Some(types[k])
  {
    ResolveMeans(lower, types, raw);
    var key := lower(Text.Trim(raw));
    if Resolve(lower, types, raw).Some? {
      var k: nat :| Names(lower, types, key, k) && Resolve(lower, types, raw) == Some(types[k]);
      forall j: nat | Names(lower, types, key, j) ensures j == k { NamesOne(lower, types, key, j, k); }
    }
  }

  lemma GrantableIff(f: File, i: nat, raw: string)
    requires i < |f.checks|
    ensures var t := Resolve(f.lower, f.types, raw);
            Grantable(f, i, raw) <==> raw == "" || (t.Some? && HasRoom(t.value.capacity, t.value.sold + AcceptedOf(f, t.value.id, i)))
  {
    var t := Resolve(f.lower, f.types, raw);
    GrantedIsResolved(f, i, raw, if raw != "" && t.Some? then Some(t.value.id) else None);
    if Grantable(f, i, raw) {
      var g :| TypeGranted(f, i, raw, g);
      GrantedIsResolved(f, i, raw, g);
    }
  }

  /** What the third pass grants is what may be granted. */
  lemma GrantsResolved(f: File, i: nat, c: Candidate, r: Result<Entry, RowError>, rejected: bool)
    requires i < |f.checks|
    requires var t := Resolve(f.lower, f.types, c.rawType);
             if rejected then r.Err?
             else if c.rawType == "" then r == Ok(Entry(c.rowNumber, c.email, None))
             else if t.Some? && HasRoom(t.value.capacity, t.value.sold + AcceptedOf(f, t.value.id, i)) then
               r == Ok(Entry(c.rowNumber, c.email, Some(t.value.id)))
             else r.Err?
    ensures r.Ok? <==> !rejected && Grantable(f, i, c.rawType)
    ensures r.Ok? ==> TypeGranted(f, i, c.rawType, r.value.ticketType)
  {
    GrantableIff(f, i, c.rawType);
    if r.Ok? { GrantedIsResolved(f, i, c.rawType, r.value.ticketType); }
  }

  /** The judgement of a sound row, whatever it is checked as. */
  lemma CandidateIsAccepted(f: File, i: nat, c: Candidate)
    requires i < |f.checks| && f.checks[i] == Ok(c)
    ensures var r := Judge(f, i);
            && (r.Ok? <==> !HasEarlier(f.checks, i, c.email) && c.email !in f.existing && Grantable(f, i, c.rawType))
            && (r.Ok? ==> r.value.rowNumber == c.rowNumber && r.value.email == c.email
                          && TypeGranted(f, i, c.rawType, r.value.ticketType))
  {
    GrantsResolved(f, i, c, Judge(f, i), HasEarlier(f.checks, i, c.email) || c.email in f.existing);
  }

  /** A row is accepted exactly when it is sound, no earlier sound row has its email, the email is not
      registered, and it names no ticket type or one with a seat left; the entry it becomes carries its number
      in the file, its email and that type. */
  lemma RowIsAccepted(lower: string -> string, rows: seq<ParsedRow>, existing: set<string>, types: seq<TypeRow>, i: nat)
    requires i < |rows|
    ensures var f, row := FileOf(lower, rows, existing, types), rows[i].fields;
            && |f.checks| == |rows|
            && var r := Judge(f, i);
               && (r.Ok? <==> Sound(lower, row) && !Repeats(lower, rows, i) && EmailIn(lower, row) !in existing && Grantable(f, i, TypeIn(row)))
               && (r.Ok? ==> && r.value.rowNumber == (if rows[i].sourceRow != 0 then rows[i].sourceRow else i + 2)
                             && r.value.email == EmailIn(lower, row)
                             && TypeGranted(f, i, TypeIn(row), r.value.ticketType))
  {
    var f, row := FileOf(lower, rows, existing, types), rows[i].fields;
    ChecksAre(lower, rows, i);
    RowIsChecked(lower, row, NumberOf(rows[i], i));
    EarlierRepeats(lower, rows, i);
    if f.checks[i].Ok? { CandidateIsAccepted(f, i, f.checks[i].value); }
  }

  /** No type has the text as its id or its name. */
  predicate NamesNothing(lower: string -> string, types: seq<TypeRow>, raw: string) {
    forall j: nat :: j < |types| ==> lower(types[j].id) != lower(Text.Trim(raw)) && lower(types[j].name) != lower(Text.Trim(raw))
  }

  lemma CandidateIsRejected(f: File, i: nat, c: Candidate)
    requires i < |f.checks| && f.checks[i] == Ok(c) && Judge(f, i).Err?
    ensures var e, rep := Judge(f, i).error, HasEarlier(f.checks, i, c.email);
            && e.row == c.rowNumber && e.email == Some(c.email)
            && (e.reason == DuplicateInFile <==> rep)
            && (e.reason == AlreadyRegistered <==> !rep && c.email in f.existing)
            && (e.reason == InvalidTicketType <==>
                  !rep && c.email !in f.existing && c.rawType != "" && NamesNothing(f.lower, f.types, c.rawType))
            && (e.reason == NoSeatLeft <==>
                  !rep && c.email !in f.existing && c.rawType != "" && !NamesNothing(f.lower, f.types, c.rawType))
  {
    ResolveMeans(f.lower, f.types, c.rawType);
  }

  /** Every other row is told why, with its number and its email, each reason with the earlier ones excluded. */
  lemma RowIsRejected(lower: string -> string, rows: seq<ParsedRow>, existing: set<string>, types: seq<TypeRow>, i: nat)
    requires i < |rows| && i < |ChecksOf(lower, rows)| && Judge(FileOf(lower, rows, existing, types), i).Err?
    ensures var e, row := Judge(FileOf(lower, rows, existing, types), i).error, rows[i].fields;
            var email := EmailIn(lower, row);
            var clean := Sound(lower, row) && !Repeats(lower, rows, i) && email !in existing;
            && e.row == (if rows[i].sourceRow != 0 then rows[i].sourceRow else i + 2)
            && e.email == (if email == "" then None else Some(email))
            && (!Sound(lower, row) ==> Reported(lower, row, {}, e.reason))
            && (e.reason == DuplicateInFile <==> Sound(lower, row) && Repeats(lower, rows, i))
            && (e.reason == AlreadyRegistered <==> Sound(lower, row) && !Repeats(lower, rows, i) && email in existing)
            && (e.reason == InvalidTicketType <==> clean && TypeIn(row) != "" && NamesNothing(lower, types, TypeIn(row)))
            && (e.reason == NoSeatLeft <==> clean && TypeIn(row) != "" && !NamesNothing(lower, types, TypeIn(row)))
  {
    var f, row := FileOf(lower, rows, existing, types), rows[i].fields;
    ChecksAre(lower, rows, i);
    RowIsChecked(lower, row, NumberOf(rows[i], i));
    EarlierRepeats(lower, rows, i);
    if f.checks[i].Ok? { CandidateIsRejected(f, i, f.checks[i].value); }
  }

  /** Row `i` of the file becomes entry `e`. */
  predicate Becomes(f: File, i: nat, e: Entry) {
    i < |f.checks| && Judge(f, i) == Ok(e)
  }

  /** Some row of the file with that number and that email has an email of the right shape and a name. */
  ghost predicate FromSoundRow(lower: string -> string, rows: seq<ParsedRow>, e: Entry) {
    exists i: nat :: i < |rows| && Sound(lower, rows[i].fields) && EmailIn(lower, rows[i].fields) == e.email
                     && e.rowNumber == if rows[i].sourceRow != 0 then rows[i].sourceRow else i + 2
  }

  lemma EntryIsSound(lower: string -> string, rows: seq<ParsedRow>, existing: set<string>, types: seq<TypeRow>, e: Entry)
    requires |ChecksOf(lower, rows)| == |rows| && e in Accepted(FileOf(lower, rows, existing, types), |rows|)
    ensures FromSoundRow(lower, rows, e) && e.email !in existing
  {
    var f := FileOf(lower, rows, existing, types);
    AcceptedAre(f, |rows|, e);
    var i: nat :| i < |rows| && Becomes(f, i, e);
    RowIsAccepted(lower, rows, existing, types, i);
  }

  /** The entries accepted are the rows accepted. */
  lemma {:induction false} AcceptedAre(f: File, n: nat, e: Entry)
    requires n <= |f.checks|
    ensures e in Accepted(f, n) <==> exists i: nat :: i < n && Becomes(f, i, e)
  {
    if n > 0 {
      AcceptedAre(f, n - 1, e);
      assert (exists i: nat :: i < n && Becomes(f, i, e)) <==> (exists i: nat :: i < n - 1 && Becomes(f, i, e)) || Becomes(f, n - 1, e);
    }
  }
}
