# Verified models of an event-ticketing backend

This project models the parts of an event registration and check-in service whose control flow is written by
hand: the gate (QR scans, manual check-ins, undo, token recovery), the hand-out of seats (free registrations
and file imports), CSV reading and printing, refresh-token sessions, and two layout algorithms.

Concurrent parts are state machines. A call is a process that remembers between its steps only what it has
read; a database transaction, a single statement or a Redis command is one atomic step; `Run` executes any list
of steps, and steps that are not enabled do nothing, so a theorem about `Run` is about every interleaving.
Operations that update state in place are also given as classes or methods with loops, proved equal to the
functions the theorems are about.

| files | subject |
|---|---|
| `GateModel`, `GateInvariant`, `GateLock`, `GateAudit`, `GateRecovery`, `GateEntry`, `GateCounterexamples` | the gate as a protocol: safety in every interleaving, exact conditions, two runs that show the conditions matter |
| `GateService`, `GateDecisions`, `GateSequential`, `Dashboard` | the gate service run by itself, days without overlap, the statistics |
| `Allocation`, `RegistrationService`, `RegistrationSteps`, `AllocationRuns`, `AllocationPrices`, `AllocationSafety`, `AllocationBooks`, `AllocationCodes`, `EventCapacity`, `AllocationCounterexamples` | seats handed out by free registrations and imports at once: counters, emails, codes, event capacity, exact conditions and concrete failures |
| `ImportPlan`, `ImportRules`, `ImportPlanner`, `ImportCommit`, `ImportService`, `ImportRowEffects`, `ImportAgreement`, `ImportCapacity` | an import: the rules for its rows, planning, batches, compensation, accounting, agreement of plan and commit, the seats a batch can take |
| `CsvReader`, `CsvExport`, `CsvImport`, `ImportFromCsv`, `CsvStreaming`, `TicketExport`, `Text` | the two-stage CSV reader, the two printers, their round trips, columns found by name |
| `Sessions`, `SessionProtocol`, `SessionSteps`, `SessionRetirement`, `SessionRevocation` | session keys, refresh tokens under interleaving and Redis failures, which tokens can still be redeemed, revocation as a process |
| `WrapText`, `TableLayout` | greedy text wrapping, table columns and rows |
| `Wrappers`, `Induction` | option and result datatypes, induction over numbers |

Taken as given: SHA-256 is injective, encryption and decryption are inverse and a foreign payload does not
decrypt, random tokens and signed tokens are new each time, a unique index refuses a second row, a lost Redis
answer may or may not mean a lost effect, Redis keeps a blacklist entry for its lifetime, and SCAN returns every key
that is there from the beginning of a scan to its end. A failed statement inside an import batch has no effect and leaves the
transaction usable, which is what the compensation code relies on.

## Where a promise or an expected property fails

- With a token rotation under a scan, one attendee's scan count reaches 2 although every lock did its work
  (`RotationMidScanCountsTwice`); `ScanCountsExactIff` says exactly in which runs counts stay exact.
- A manual check-in beside a QR scan lets two VALID results meet one undo (`ManualOverlapUnbalances`);
  `AuditBalancesIff` gives the exact condition.
- `registerFree` promises that a retry finishes a registration whose QR was never issued
  (`src/modules/registrations/registration.service.js:450-452`). The capacity check comes first, so the retry is
  refused when that registration took the last seat (`RetryForLastSeatIsRefused`), exactly as `RetryPassesIff` says.
- A cell such as `'a` loses its apostrophe on the way through export and import (`ApostropheIsLost`); a cell survives
  exactly when its trimmed text has no quote mark at either end: `CellSurvivesIff`.
- A row that claims a seat, fails, and cannot give it back leaves a counter too high (`SwallowedReversalUnbalances`);
  `BooksBalanceIff` says exactly in which runs counters match. A row that fails only at its token stays registered
  although it is reported as failed (`TokenFailureLeavesRegistration`, `FailureLeavesNothingIff`).
- Imports ignore the capacity of their event (`ImportsOverbook`). What a batch can register at most is known before it
  runs (`BatchFitsIff`), and an event stays within capacity, whatever fails, exactly when that many seats are left
  before every batch: `WithinCapacityIff`. The excess is never more than what was imported: `ExcessIsImported`.
- A sign-in that has signed its token but not recorded it survives a password change (`LateSignInSurvives`);
  `LeftoverIff` says exactly which tokens do.

## Model

| member | source | states |
|---|---|---|
| `GateInvariant.GateIsAlwaysConsistent` | `src/modules/checkins/checkins.service.js:34-278` | in every interleaving, expired locks, rotations and manual check-ins included: one check-in row per registration, a revoked token only with a live check-in, a live check-in only of a confirmed registration at its own event |
| `GateInvariant.StepKeepsInv` | `src/modules/checkins/checkins.service.js:46-146` | every single step of every call keeps the database and in-flight-read invariant |
| `GateInvariant.CreateKeepsDbInv` | `src/modules/checkins/checkins.service.js:234-267` | the create transaction keeps row uniqueness and covers the token it revokes with a live check-in |
| `GateInvariant.RestoreKeepsDbInv` | `src/modules/checkins/checkins.service.js:185-221` | the restore transaction keeps the invariant whatever the row has become since it was read |
| `GateInvariant.UndoKeepsDbInv` | `src/modules/checkins/checkins.service.js:331-375` | undo kills at most one live check-in and leaves no token revoked without one |
| `GateLock.StepKeepsLock` | `src/modules/checkins/checkins.service.js:34-44` | while locks outlive their scans, each held lock has exactly one holder |
| `GateLock.StepKeepsCount` | `src/modules/checkins/checkins.service.js:199-204` | under the lock and rotation conditions every step keeps scan counts exact and keeps every scan in flight looking at the current token |
| `GateLock.ScanCountIsExact` | `src/modules/checkins/checkins.service.js:185-267` | over every orderly run a token's scan count is 1 exactly when it is revoked, else 0, manual check-ins and undos notwithstanding |
| `GateAudit.StepBalanceIff` | `src/modules/checkins/checkins.service.js:185-221` | one step keeps VALID results minus undos in balance exactly when it does not restore a check-in that is live by then |
| `GateAudit.StepCountIff` | `src/modules/checkins/checkins.service.js:199-204` | one step keeps scan counts exact exactly when it does not mark a token that is already revoked |
| `GateAudit.AuditBalancesIff` | `src/modules/checkins/checkins.service.js:164-378` | over every run whatsoever the audit log balances at every point exactly when no commit restores a live check-in |
| `GateAudit.ScanCountsExactIff` | `src/modules/checkins/checkins.service.js:164-378` | over every run whatsoever scan counts are exact at every point exactly when no commit marks a revoked token |
| `GateAudit.CheckInsAlternate` | `src/modules/checkins/checkins.service.js:34-378` | with locks that outlive scans, no rotation mid-scan and no mixed overlap, VALID minus undos is 0 or 1 at every point and 1 exactly while the check-in is live |
| `GateRecovery.RecoveriesAgree` | `src/modules/tickets/qr.service.js:87-160` | over every interleaving of recoveries, scans and undos: a row is rotated at most once, all callers get the same token, and its hash is the one stored |
| `GateRecovery.MatchedRowIsNeverRotated` | `src/modules/tickets/qr.service.js:92-97` | a row whose cipher matches its hash keeps its token, hash and cipher for ever and is never rotated |
| `GateRecovery.EncryptedTokensNeedNoRotationRule` | `src/modules/tickets/qr.service.js:47-69` | when all tokens were issued with their cipher, scan counts are exact as soon as locks outlive scans |
| `GateCounterexamples.RotationMidScanCountsTwice` | `src/modules/tickets/qr.service.js:124-135` | a concrete run in which a rotation under a scan takes a scan count to 2 |
| `GateCounterexamples.ManualOverlapUnbalances` | `src/modules/checkins/checkins.service.js:55-87` | a concrete run in which a manual check-in beside a QR scan gives three VALID results and one undo |
| `GateService.UninterruptedScan` | `src/modules/checkins/checkins.service.js:34-147` | the protocol's steps for one undisturbed scan do to the database exactly what the sequential scan does, and leave locks and other calls alone |
| `GateService.Gate.ScanQr` | `src/modules/checkins/checkins.service.js:16-147` | the decision table of a scan on the stored rows: expired before not confirmed before other event before revoked, none of which writes; otherwise a duplicate or one check-in made live; the same for a manual id; refused without authorisation or lock, and the lock is released on every path |
| `GateService.ScanAloneDecides` | `src/modules/checkins/checkins.service.js:88-147` | the sequential scan used in the other theorems meets the decision table for every database, token and time |
| `GateEntry.ReadTokenDecides` | `src/modules/checkins/checkins.service.js:88-111` | in the protocol, reading a token ends the call with the reason its row gives, or lets it on exactly when the row is unexpired, unrevoked, confirmed and of this event |
| `GateEntry.EntryWasChecked` | `src/modules/checkins/checkins.service.js:46-111` | in every interleaving a call about to check somebody in has read, at an earlier step of its own, a row that was good for entry then |
| `GateService.Gate.ResolveCheckIn` | `src/modules/checkins/checkins.service.js:164-278` | creates, restores or logs a duplicate, with the whole new state |
| `GateService.Gate.UndoCheckin` | `src/modules/checkins/checkins.service.js:311-378` | the refusals in their order and the one effect said of the rows: check-in no longer live, registration confirmed, a revoked token given back |
| `GateService.Gate.GenerateToken` | `src/modules/tickets/qr.service.js:47-69` | stores one row whose cipher gives the returned token back and whose hash is its hash |
| `GateService.Gate.RecoverRawToken` | `src/modules/tickets/qr.service.js:87-160` | returns the stored token, or rotates an unrevoked row once and returns the new one |
| `GateRecovery.RotationChanges` | `src/modules/tickets/qr.service.js:112-135` | what a rotation changes of its row: hash, cipher, expiry and nothing else, and of no other row anything |
| `GateSequential.SequentialScanAnswers` | `src/modules/checkins/checkins.service.js:88-111` | without overlap a confirmed registration's token is answered VALID, REVOKED or DUPLICATE according to how its live check-in came about |
| `GateSequential.UndoReversesQrScan` | `src/modules/checkins/checkins.service.js:365-374` | undoing a fresh QR check-in puts every token row back as it was |
| `GateSequential.DaysKeepInv` | `src/modules/checkins/checkins.service.js:185-267` | on every day without overlap a token is revoked exactly when its registration was checked in by QR and the check-in is live |
| `Dashboard.EventStats` | `src/modules/reports/dashboard.service.js:84-107` | the three check-in counts all equal the registrations checked in, no-shows are the confirmed registrations without a live check-in, type figures plus untyped ones sum to the total |
| `Dashboard.TallyByType` | `src/modules/reports/dashboard.service.js:84-93` | the loop counts the check-ins of each type and loses none |
| `Dashboard.StatsHoldEverywhere` | `src/modules/checkins/checkins.service.js:387-397` | in every state the gate can reach the live check-ins, the distinct registrations behind them and the checked-in registrations are equally many |
| `Dashboard.NoShowCount` | `src/modules/reports/dashboard.service.js:107` | the difference of counts is the count of the difference |
| `CsvReader.SplitCsvLine` | `src/modules/registrations/import.service.js:19-42` | the index loop with its skipped characters is the quote-mode automaton over fields |
| `CsvReader.SplitCsvLines` | `src/modules/registrations/import.service.js:49-80` | the index loop is the quote-mode automaton over records, CRLF as one break, blank records dropped |
| `CsvReader.QuoteFlagsAreParity` | `src/modules/registrations/import.service.js:22-32` | for every text, hence at every position, both scanners' in-quotes flags equal the parity of the quotes so far |
| `CsvReader.TwoStagesAreOnePass` | `src/modules/registrations/import.service.js:19-80` | for every text, records then fields gives what a one-pass reader gives |
| `CsvPrinted.QuotedReads` | `src/modules/reports/export.service.js:26` | a quoted, doubled string reads back as that string wherever it is met, and ends no record |
| `CsvExport.GuardedIff` | `src/modules/reports/export.service.js:23-26` | a cell gets an apostrophe exactly when its first character that is no tab, line break or space is `=`, `+`, `-` or `@` |
| `CsvPrinted.JoinedRecords` | `src/modules/reports/export.service.js:29-34` | rows joined by line feeds come back as exactly those records in order |
| `CsvPrinted.EndedRecords` | `src/modules/registrations/import.service.js:66-79` | lines ended by LF, CR or CRLF in any mixture come back in order, without the blank ones |
| `CsvPrinted.PrintedText` | `src/modules/reports/export.service.js:29-34` | the whole exported text splits into the header record and one record per row |
| `CsvImport.ParseImportFile` | `src/modules/registrations/import.service.js:87-129` | the loops compute the specified parse; exactly when a file is accepted, and how many rows it gives: rows already parsed come back as they are, a text is refused unless it has two records |
| `ImportFromCsv.KeyOfSpelled` | `src/modules/registrations/import.service.js:112` | however a header spells a word, in capitals and with quote marks anywhere, its key is that word trimmed |
| `ImportFromCsv.KeysAreClean` | `src/modules/registrations/import.service.js:112` | no key has a quote mark or a blank end, and a header without quote marks has its trimmed lower case for a key |
| `ImportFromCsv.FileGivesColumns` | `src/modules/registrations/import.service.js:100-129` | a text of at least two records gives one object per record after the first, with exactly the columns its header spells, each with its own cleaned cell; any other text is refused |
| `ImportFromCsv.FileGivesEmailsAndNames` | `src/modules/registrations/import.service.js:100-143` | the importer reads in each parsed row the lower-cased email and the name of the columns whose headers spell email and name, wherever they stand |
| `ImportFromCsv.TypeIsRead` | `src/modules/registrations/import.service.js:112-145` | a column headed TicketType in any capitals is where the ticket type is read |
| `ImportFromCsv.SmallFileIsRead` | `src/modules/registrations/import.service.js:87-129` | a concrete file headed `Email,Name` is read under `email` and `name` |
| `ImportFromCsv.ByteOrderMarkIsIgnored` | `src/modules/registrations/import.service.js:100` | a byte-order mark in front of a text makes no difference |
| `CsvImport.ReadRows` | `src/modules/registrations/import.service.js:114-122` | one row object per line after the first, in order |
| `CsvImport.RowObjectAt` | `src/modules/registrations/import.service.js:118-120` | a column whose key no later column repeats keeps its own cell, missing cells are empty |
| `CsvImport.CellSurvivesIff` | `src/modules/registrations/import.service.js:119` | for every cell, export then import gives the trimmed cell exactly when the trimmed cell has no quote mark at either end |
| `CsvImport.ApostropheIsLost` | `src/modules/registrations/import.service.js:119` | a concrete cell that loses its own apostrophe |
| `CsvImport.ExportThenImport` | `src/modules/reports/export.service.js:23-34` | for headers with distinct keys and any cells, export then import gives one object per row in order, with no other keys and every recovered cell |
| `CsvStreaming.CsvStream.Read` | `src/modules/tickets/ticket-export.service.js:88-136` | one read of the stream as a step on its five variables |
| `CsvStreaming.StreamProgress` | `src/modules/tickets/ticket-export.service.js:81-137` | after any number of reads the header once and a prefix of the table in order are out, and the stream ends at the computed read, multiples of 500 included |
| `TicketExport.RowReadsBack` | `src/modules/tickets/ticket-export.service.js:21-61` | a printed registration is one record, and under each of the nine headers stands its own attribute, guarded and trimmed: General for a missing type, Yes or No from the QR and check-in data |
| `TicketExport.FinishedStreamReadsBack` | `src/modules/tickets/ticket-export.service.js:78-140` | a finished stream read by the importer's scanners gives the header and every registration once, in order, each attribute under the header it belongs to |
| `Sessions.IdOfSessionKey` | `src/modules/auth/session.service.js:139` | the part after the last colon of a session key is its id |
| `Sessions.SessionKeysDiffer` | `src/modules/auth/session.service.js:9-11` | different users or tokens have different keys |
| `Sessions.PatternIsPerUser` | `src/modules/auth/session.service.js:119` | a user's SCAN pattern matches that user's keys and nobody else's |
| `Sessions.RecordedIsThere` | `src/modules/auth/session.service.js:34-56` | a recorded session is won by the next working consume of it, whatever happens to other users' and other tokens' sessions in between |
| `Sessions.OneWinPerRecording` | `src/modules/auth/session.service.js:84-93` | over any list of recordings, consumes and deletions, each of them lost or late, at most one consume of a session wins between two recordings of it, and none if it was not there |
| `Sessions.SessionStore.DeleteSession` | `src/modules/auth/session.service.js:100-107` | the key set under every failure |
| `Sessions.SessionStore.ListSessions` | `src/modules/auth/session.service.js:116-151` | the ids listed are exactly those of the scanned keys, pages and repeats in any arrangement |
| `Sessions.SessionStore.RevokeAllSessions` | `src/modules/auth/session.service.js:174-181` | exactly the user's sessions but the excluded one go, minus deletions that were lost; nobody else's is touched |
| `Sessions.SessionStore.Refresh` | `src/modules/auth/auth.routes.js:238-273` | the handler answers exactly when its consume won, the blacklist could be read and had no entry, and the user is active; the old session is gone either way, the new one is there, no other key changes |
| `Sessions.SessionStore.Logout` | `src/modules/auth/auth.routes.js:306-318` | blacklisting and deletion do not wait for each other, and touch nothing else |
| `SessionProtocol.RefreshTokensAreSingleUse` | `src/modules/auth/auth.routes.js:238-273` | over every interleaving and any Redis failures no refresh token is redeemed twice, and each sign-in has at most one live session |
| `SessionSteps.UninterruptedRefresh` | `src/modules/auth/auth.routes.js:238-273` | the protocol's steps for one undisturbed refresh: granted exactly when its session is there and taken, the token is not blacklisted and the user is active; then one token for the same user, else nothing but the session taken |
| `SessionProtocol.SessionsBoundedBySignIns` | `src/modules/auth/session.service.js:34-93` | a user's live sessions never outnumber that user's sign-ins |
| `SessionRetirement.RedeemableIff` | `src/modules/auth/auth.routes.js:238-273` | in every reachable state a token has a continuation that redeems it exactly when a refresh of it is past the blacklist check, or it is neither expired nor blacklisted and live, taken out by a call, or signed and not yet recorded |
| `SessionRetirement.UnredeemableForGood` | `src/modules/auth/auth.service.js:35-62` | a token that is not redeemable stays so in every continuation |
| `SessionRetirement.LogoutWinsIff` | `src/modules/auth/auth.routes.js:306-318` | a blacklisted token can be redeemed again exactly when a refresh of it was past the check by then, whether or not its session was deleted |
| `SessionRevocation.PasswordChangeRetiresTokens` | `src/modules/auth/auth.service.js:209-239` | when the revocation ends having lost nothing, and no sign-in or refresh of the user was under way or began meanwhile, no token the user had before is redeemed from its start on, in any continuation; other calls and revocations interleave freely |
| `SessionRevocation.RevocationLeavesOnlySpared` | `src/modules/auth/session.service.js:116-181` | the cursor loop and the deletions, step by step beside everybody else, leave no session of the user but the excluded one |
| `SessionRevocation.LeftoverIff` | `src/modules/auth/session.service.js:174-181` | with no session of a user left, a token that is neither expired nor blacklisted can still be redeemed exactly when some call has it in its hands |
| `SessionRevocation.LateSignInSurvives` | `src/modules/auth/auth.routes.js:146-150` | a concrete run in which a sign-in signed before a revocation and not yet recorded survives it |
| `SessionProtocol.StoreMirrorsKeys` | `src/modules/auth/session.service.js:9-56` | the abstract live tokens and the key strings in Redis picture each other exactly |
| `WrapText.WrapWords` | `src/modules/tickets/ticket-pdf.service.js:131-148` | the loop keeps the words, every line fits or is one over-long word, and the number of lines is that of the greedy count |
| `WrapText.Wrap` | `src/modules/tickets/ticket-pdf.service.js:126-151` | words kept and lines fitting for every text; for single-spaced text no wrapping has fewer lines |
| `WrapText.AnyWrappingIsNoShorter` | `src/modules/tickets/ticket-pdf.service.js:135-144` | every grouping of the words into fitting lines has at least as many lines as the greedy loop |
| `WrapText.GreedyIsOptimal` | `src/modules/tickets/ticket-pdf.service.js:126-151` | for single-spaced text the returned lines are as few as any wrapping's |
| `TableLayout.AllocateColumns` | `src/modules/reports/pdf.service.js:39-51` | widths sum exactly to the usable width, are shares by content width plus padding clamped to 30 and 220 and rounded down, only the first widest column grows, no column is below the floor |
| `TableLayout.RemainderIsSmall` | `src/modules/reports/pdf.service.js:43-47` | the remainder handed out lies between 0 and the number of columns |
| `TableLayout.NoColumnStarves` | `src/modules/reports/pdf.service.js:39-45` | no column is narrower than floor(3 usable / 22 n) |
| `TableLayout.ColumnOffsets` | `src/modules/reports/pdf.service.js:53-58` | the columns tile the page from margin to margin without gap or overlap |
| `TableLayout.PlaceRows` | `src/modules/reports/pdf.service.js:76-102` | every row ends above the bottom limit or is the first after a page break, directly below the one before |
| `RegistrationService.Registrar.CreateFreeRegistration` | `src/modules/registrations/registration.service.js:158-239` | a registration is made exactly when a seat and the email are free and one of three draws collides with nothing; it has the first such draw for its codes, one row, one code, at most one sold seat, or nothing; each refusal exactly in its case |
| `RegistrationService.Registrar.IssueQrToken` | `src/modules/registrations/registration.service.js:250-266` | when issuing succeeds and the whole new state under each failure, an existing token being reused |
| `RegistrationService.Registrar.RegisterFree` | `src/modules/registrations/registration.service.js:458-489` | each refusal exactly in its case said of the stored rows, in the source's order: name, email, not open, event full, paid event, unknown or inactive type, paid type, type full, duplicate; a success with a type means it is on offer and costs nothing; an unfinished registration is completed instead of duplicated; every refusal but a QR failure changes nothing |
| `RegistrationService.ChecksRefuse` | `src/modules/registrations/registration.service.js:98-132` | the checks refuse on the grounds the rows give, each with the earlier ones excluded, and let through exactly what may be had for free |
| `RegistrationService.CreateTxDecides` | `src/modules/registrations/registration.service.js:163-226` | the transaction refuses for event or type, collides, or creates exactly one row, in terms of the stored rows |
| `RegistrationSteps.ChecksLetThroughIff` | `src/modules/registrations/registration.service.js:98-144` | the protocol's three check steps let an undisturbed request through exactly when the service's checks do and its email is free |
| `RegistrationSteps.UninterruptedDraws` | `src/modules/registrations/registration.service.js:161-238` | the protocol's attempts and probes, undisturbed, register exactly when the service's transaction loop does, with the first of three draws that collides with nothing |
| `AllocationPrices.PublicRegistrationsAreFree` | `src/modules/registrations/registration.service.js:108-125` | in every run of registrations and imports a public registration holds an active type of its event that costs nothing, or none at an event that is not paid |
| `RegistrationService.RetryPassesIff` | `src/modules/registrations/registration.service.js:450-475` | after creating a registration, its retry gets past the checks exactly when event and type have a seat beyond the one just taken |
| `AllocationCounterexamples.RetryForLastSeatIsRefused` | `src/modules/registrations/registration.service.js:98-106` | a concrete event with one seat whose interrupted registration cannot be finished |
| `RegistrationService.FindReg` | `src/modules/registrations/registration.service.js:140-144` | finds a registration of the event with the email exactly when there is one |
| `EventCapacity.EventNeverOverbooked` | `src/modules/registrations/registration.service.js:163-175` | however many free registrations interleave, and whatever is imported elsewhere, an event within capacity stays within it |
| `EventCapacity.ExcessIsImported` | `src/modules/registrations/registration.service.js:163-175` | in every run of registrations and imports an event holds at most the larger of its capacity and what it held at first, plus the rows imported into it |
| `AllocationSafety.OneRegistrationPerEmail` | `src/database/migrations/20260730082000_add_event_email_unique/migration.sql:5` | in every run no two registrations of an event share an email |
| `AllocationSafety.FreeCallsMakeOneRowOrNone` | `src/modules/registrations/registration.service.js:158-239` | in every interleaving the public registrations are as many as the calls that succeeded, each with its own row |
| `AllocationSafety.CountersAreExact` | `src/modules/registrations/registration.service.js:177-189` | in every run of registrations and imports no type is oversold and its counter grew by free registrations, reported import rows and leaked claims of that type |
| `AllocationBooks.RowLeaksIff` | `src/modules/registrations/import.service.js:519-588` | exactly when a row leaves its claim behind: it claims a seat, then finds no code, fails to register or to get a token, and the reversal fails |
| `AllocationBooks.BooksBalanceIff` | `src/modules/registrations/import.service.js:583-588` | in every run a counter equals free registrations plus reported import rows exactly when no batch that commits has a row that leaks a claim on the type |
| `AllocationCounterexamples.SwallowedReversalUnbalances` | `src/modules/registrations/import.service.js:583-588` | a concrete run whose counter says sold although nothing was registered or reported |
| `AllocationCodes.EveryRegistrationHasItsCode` | `src/modules/registrations/registration.service.js:191-215` | in every run each registration made, free or imported, has a ticket code of its own that was not there before, and no stored code is lost |
| `AllocationCodes.FreeCallsMakeOneCodeOrNone` | `src/modules/registrations/registration.service.js:158-239` | for an event into which nothing is imported every new code is the code of a new registration |
| `EventCapacity.WithinCapacityIff` | `src/modules/registrations/import.service.js:499-602` | an event stays within capacity at every point, whatever fails inside import batches, exactly when before every batch into it there is a seat left for every email the batch can register |
| `ImportCapacity.BatchFitsIff` | `src/modules/registrations/import.service.js:503-602` | whatever fails, one batch keeps its event within capacity exactly when a seat is left for every distinct email among its rows that is free, of an existing type, and of a type with a seat to claim |
| `ImportAgreement.ImportFitsIff` | `src/modules/registrations/import.service.js:448-602` | an undisturbed import keeps its event within capacity exactly when the plan accepts no more rows than seats are left |
| `AllocationCounterexamples.ImportsOverbook` | `src/modules/registrations/import.service.js:556-569` | a one-row import takes a full event over its capacity |
| `AllocationSafety.StepKeepsInv` | `src/modules/registrations/registration.service.js:158-239` | every step of every call keeps emails distinct, counters within capacity, the ledger and the ownership of rows |
| `AllocationRuns.BatchKeeps` | `src/modules/registrations/import.service.js:504-630` | a batch moves each counter by exactly its reported rows and leaked claims, adds only imported rows of its event and keeps emails distinct, whatever fails |
| `ImportPlanner.ValidateRow` | `src/modules/registrations/import.service.js:138-201` | a row is valid exactly when its email is at most 254 long and of the right shape, its name is not blank and the email is new to the file; each reason exactly in its case, with the row's number and email; the seen set grows by valid emails only |
| `ImportRules.RowIsChecked` | `src/modules/registrations/import.service.js:138-181` | the check of a row told from its columns alone, in their order of precedence |
| `ImportRules.ShapeIsEmail` | `src/modules/registrations/import.service.js:11` | a text matches the email pattern exactly when it is three parts without blanks and at signs, none empty, joined by an at sign and a dot |
| `ImportRules.ResolveMeans` | `src/modules/registrations/import.service.js:455-468` | a type text names the last type of that id, or if there is none the last of that name, blanks and capitals aside; otherwise nothing |
| `ImportRules.RowIsAccepted` | `src/modules/registrations/import.service.js:399-490` | a row of a file is accepted exactly when it is sound, no earlier sound row has its email, the email is not registered, and it names no type or one with a seat left; its entry carries its number, its email and that type |
| `ImportRules.RowIsRejected` | `src/modules/registrations/import.service.js:399-487` | every other row is told exactly one reason, each exactly in its case, with its number and email |
| `ImportPlanner.ValidateRows` | `src/modules/registrations/import.service.js:399-414` | the validation loop is the first pass |
| `ImportPlanner.DropRegistered` | `src/modules/registrations/import.service.js:435-446` | the second pass, with its errors |
| `ImportPlanner.IndexTypes` | `src/modules/registrations/import.service.js:455-456` | the maps answer as the last type of each id or name |
| `ImportPlanner.AdmitByType` | `src/modules/registrations/import.service.js:458-490` | the third pass: resolution by id before name, seats counted against earlier admissions, claim counters equal to the admitted rows of each type |
| `ImportPlanner.Plan` | `src/modules/registrations/import.service.js:394-490` | the accepted rows are those the row-by-row judgement accepts, in file order, each from a row with an email of the right shape, a name that is not blank and an email not registered; every other row is reported exactly once |
| `ImportPlan.PlannerAcceptsExactly` | `src/modules/registrations/import.service.js:399-490` | the three passes accept exactly the judged rows and report exactly the others |
| `ImportPlan.SeenAre` | `src/modules/registrations/import.service.js:182-191` | an email is in the seen set exactly when an earlier well-formed row has it |
| `ImportPlan.JudgementByPasses` | `src/modules/registrations/import.service.js:436-487` | what each pass decides of one row is what the judgement decides |
| `ImportService.ImportJob.InsertTicketCode` | `src/modules/registrations/import.service.js:535-553` | the attempt loop: the code taken and the new state |
| `ImportService.ImportJob.CommitRow` | `src/modules/registrations/import.service.js:505-600` | one row with claim, code, registration, token and compensation, statement by statement, for every pattern of failures |
| `ImportService.ImportJob.CommitBatch` | `src/modules/registrations/import.service.js:503-629` | one transaction: successes, failures, report and roll-back |
| `ImportService.ImportJob.CommitAll` | `src/modules/registrations/import.service.js:499-630` | the batches in slices of 50, each starting from what the one before left |
| `ImportService.ImportJob.ProcessImportFile` | `src/modules/registrations/import.service.js:388-643` | the report has one entry per failed row; successes plus failures equal total rows plus failures recorded in batches rejected later; status FAILED exactly when no row succeeded |
| `ImportCommit.ImportAccounts` | `src/modules/registrations/import.service.js:492-630` | every planned row lies in one batch and is reported once, plus once more if its failure was recorded in a batch then rejected |
| `ImportCommit.BatchAccounts` | `src/modules/registrations/import.service.js:501-629` | the same for one batch, as multisets of rows |
| `ImportCommit.ErrorsName` | `src/modules/registrations/import.service.js:596-600` | the report names each failed row by its number and email, in order |
| `ImportRowEffects.TakesFirstFree` | `src/modules/registrations/import.service.js:535-553` | a row gets the first of its three codes that collides with nothing, if no draw failed before it |
| `ImportRowEffects.SuccessAddsOne` | `src/modules/registrations/import.service.js:519-582` | a successful row added one registration, imported, confirmed and with its QR issued, one new code, one token and at most one sold seat that was free |
| `ImportRowEffects.ImportedIsFinished` | `src/modules/registrations/import.service.js:556-582` | an imported registration is found by its email and is never one that a public retry completes |
| `ImportRowEffects.FailureLeavesNothingIff` | `src/modules/registrations/import.service.js:583-594` | exactly when a failed row leaves the database as it was |
| `AllocationCounterexamples.TokenFailureLeavesRegistration` | `src/modules/registrations/import.service.js:571-594` | a concrete row that fails only at its token, is reported as failed, and stays registered |
| `ImportAgreement.PlanAndCommitAgree` | `src/modules/registrations/import.service.js:448-602` | with no other writer, no failure and codes to be had, every accepted row of every file is committed, across all batches |
| `ImportAgreement.PlanKeepsPromises` | `src/modules/registrations/import.service.js:448-490` | the plan never promises a taken or repeated email nor more seats of a type than remain |
| `ImportAgreement.RowIsGranted` | `src/modules/registrations/import.service.js:519-582` | after the rows before it were granted, the next planned row finds its seat, its email and a code |

## Left out

- Lock expiry and a lost lock: steps of the gate machine, so the general theorems cover them; the alternation and exact-count theorems assume locks outlive their scans, and state so.
- GateService.Gate.UndoCheckin: authorisation and the 24-hour window are inputs, since they are read before the transaction and need not hold when it runs.
- GateService.Gate.ScanQr: notifications to sockets and the statistics query around them are not modelled.
- SessionProtocol.RefreshTokensAreSingleUse: each signing is taken to give a new token; two signings for one user within one second can coincide, because the payload has no unique id.
- SessionRevocation.PasswordChangeRetiresTokens: needs that no sign-in or refresh of the user overlaps the revocation and that none of its own Redis calls is lost; `LeftoverIff` has the exact condition without the first, and a lost deletion leaves its session behind.
- SessionRetirement.LogoutWinsIff: the blacklist write that logout attempts may itself fail; the statement begins once the entry is there. Eviction of entries by Redis before their time is not modelled.
- Sessions.SessionStore.ListSessions: only ids are returned; metadata and the newest-first order are not modelled. Expiry of keys is a step that forgets a session.
- CsvStreaming.CsvStream.Read: one read is one step over an unchanging table; re-entrant reads, errors and back-pressure of Node streams are not modelled. "Checked In" follows the code, which counts undone check-ins too.
- CsvImport.ParseImportFile: strings are sequences of Unicode scalars rather than UTF-16 units, and a row is a map, so a header such as `__proto__` is not special; lower-casing is an arbitrary function, which `ImportFromCsv` asks only to turn the capital letters of ASCII texts into small ones.
- ImportPlanner.Plan: names are checked and then, like phone numbers, only copied, so candidates and entries do not carry them; the database reads are inputs.
- ImportService.ImportJob.CommitRow: a failed statement is taken to have no effect and to leave the transaction usable, as the compensation assumes; PostgreSQL itself would abort the transaction. Error texts from the database are one reason.
- ImportAgreement.PlanAndCommitAgree: each planned row must have among its three draws a code that is neither stored nor drawn by another row.
- EventCapacity.EventNeverOverbooked: only for events into which nothing is imported, since imports do not look at event capacity; `WithinCapacityIff` has the exact condition with imports.
- RegistrationService.Registrar.RegisterFree: finding the event by its slug and its opening hours is one input; emails, QR images and the audit entry are left out. What the token is belongs to the gate model.
- TableLayout.AllocateColumns: exact real arithmetic instead of floating point; text widths and heights are arbitrary inputs.
- Dashboard.EventStats: duplicate-scan counts, utilisation and sold figures are plain counts and left out.
- registerPublic: it neither increments the sold counter nor checks capacity in its transaction, so it is no step of the allocation machine.
- Cancelled registrations are counted out, but no step cancels one, as nothing in the repository does.
- Spreadsheet, PDF and document parsers, cryptography, random generation, routing, validation schemas, mail and sockets: libraries and input or output.
- Events, staff, invitations, password resets, OAuth, slugs and pagination: simpler code that would add only easy members.
