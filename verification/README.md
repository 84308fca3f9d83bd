# Verified model of the staff server's core logic

This project models, in Dafny, the parts of the staff server whose correctness depends on more than one function at
a time, and proves what they promise: the migration engine, the idempotency middleware with its memory store, the
application pipeline behind the portal handlers, the application delete, the computation of required documents,
similarity ranking, lender matching and the OCR insights. `dafny verify dfyconfig.toml` checks all of it.

Code that works by changing things step by step is a method with the source's loops and branches, or a class with the
source's state, proved against a specification function or predicate; pure code is a function. The lemmas are about
those specifications.

| File | What it holds |
|---|---|
| `SqlLexer`, `SqlSplit`, `SqlGrammar`, `SqlFixpoint` | the token grammar behind `splitSql`, the flag-driven loop, the laws of cutting that determine it, splitting and joining |
| `SqlComments`, `SqlAgreement` | `stripSqlComments` and `hasExecutableSql` as a one-pass grammar, and exactly when they agree with the lexer |
| `MigrationOrder`, `MigrationRunner` | the order of migration files, and the transactional runner under faults |
| `Json`, `JsonParser`, `JsonEquality`, `Fingerprint` | the canonical printer, a parser that undoes it, what it identifies, the request fingerprint |
| `IdempotencyStore`, `IdempotencyProtocol`, `IdempotencySafety`, `IdempotencyLimits` | the expiring, bounded response store, the middleware as interleaved steps, what it promises in every interleaving, and exactly when it runs one handler at a time and replays the same payload |
| `Pipeline`, `PipelineRuns`, `ApplicationDelete` | the portal's stage machine, what its runs leave behind, and the delete with savepoints |
| `RequiredDocsQuery`, `RequiredDocsUnion`, `RequiredDocsLegs`, `RequiredDocsWindow`, `RequiredDocsForm`, `RequiredDocsReading` | the two routes' WHERE builders, the wizard's and the preview's unions, the amount window, the form validator, and how single entries are read |
| `Retrieval`, `LenderMatch`, `CategoryAliases`, `OcrInsights` | cosine similarity and ranking, lender scores, the two alias tables for categories, OCR field insights |
| `Options`, `JsStrings`, `JsValues`, `Sorting` | what they share: missing values, `trim` and case mapping, JSON values as the routes read them, a stable sort with a comparator |

## How the source is read

- **Migrations.** A migration is a sequence of tokens; block comments do not nest, a dollar tag may start with a digit
  and its closing tag may overlap the opening one, as in the code. The database is a value with a transaction open on
  it; any call may fail, and a lost connection or a dying process may be noticed before or after the call took effect.
- **JSON.** For the printer, a string is its UTF-16 code units, escaped as `JSON.stringify` does (lone surrogates
  included), and a number is the numeral it prints as. The document and OCR routes compute with strings and numbers
  instead, so `JsValues` has both as such. An object is its own members, no key twice.
- **Idempotency.** A step is the code between two `await`s. With the memory backend a lookup is made when
  `fetchStoredResponse` is called and its result is used at a later step, so everything else may happen in between.
  SHA-256 is taken to be injective.
- **Pipeline.** Each handler is one step on one application, in the caller's own silo, with database calls that succeed.
- **Arithmetic** is over exact reals; `Math.sqrt`, `localeCompare`, `ILIKE`, `String(number)` and the
  `create table` pattern are parameters with the properties each lemma names. Case mapping is that of ASCII letters.

## What turned out not to hold

- `hasExecutableSql` and the lexer disagree on some texts. `DashesInBlockDropCode` gives a text with code in it that
  the filter drops, so that the runner would skip it; `CarriageReturnKeepsComment` and `UnclosedBlockIsKept` give texts
  without code that it keeps. A comment is clean when its text says so: a block comment that is closed and has no `--`
  on its last line, a line comment with nothing but blanks behind its first line end. `AgreementIsExact` says that
  the views agree on a text and on each run of comments and blanks it begins with exactly when the comments in front
  of its first code are clean; `AgreementOnOneText` says it for the text alone.
- The bound on the memory store relies on `if (firstKey)`. `SetBound` shows that one `set` breaks it exactly when the
  oldest key is the empty string, and `EmptyKeyDefeatsBound` that the store then grows without bound. The middleware
  never uses an empty key, so `StoreStaysSmallAndFresh` holds for it.
- Two requests with the same idempotency key can both run their handlers (`TwoHandlersRun`): there is an `await`
  between the check of the in-flight map and the registration. For the first two requests under a key, both handlers
  can be open at once if and only if the second arrives before the first has registered (`TwoRequestsExactly`).
- A replay may answer another payload: after waiting for an in-flight request no hashes are compared
  (`FirstLookupIgnoresPayload`), and on the two client paths a mismatch is let through (`ClientPathIgnoresPayload`).
  It happens in these two cases and no other (`OtherPayloadReplayedIff`).
- A comment in the wizard route (src/routes/lenderProductsRequiredDocs.ts:129-130) says that the union takes the
  tightest amount window. The code keeps the window of the first mention (`FirstWindowIsNotTightest`), which is the
  tightest exactly when it lies within that of every other mention (`KeptIsTightestIff`).
- Nothing in a store key tells the path from the header key. A path with `:id` in it, as `normalizePath` makes them, and
  a header key share their store key with a shorter path and a longer header key (`PathAndKeyRunTogether`). For one
  user, keys agree exactly when the path, a colon and the header key read the same (`StoreKeysAgreeIff`).
- The category tables of the required-documents routes and of the lender matcher name the same buckets for every
  normalized name but one: STANDARD is a line of credit only to the routes (`TablesAgreeExceptStandard`).
- Of an entry with both names, the form takes `category` (`FormReadsCategory`), the routes `document_type`
  (`RoutesReadType`).

## Model

| member | source | states |
|---|---|---|
| SqlLexer.SegmentsRejoin | src/migrations.ts:114-216 | cutting at the `;` tokens loses and reorders nothing: the untrimmed segments joined with `;` are the input, for every input |
| SqlLexer.TagIsThePrefix | src/migrations.ts:170-172 | the tag found is the one prefix that is `$`, tag characters, `$`; none is found only when there is none |
| SqlLexer.DollarEndsFirst | src/migrations.ts:145-155 | a dollar body ends at the first `$` where looking back shows the tag, and is open to the end when there is none |
| SqlGrammar.NoTextIsOneSegment | src/migrations.ts:114-216 | no text is one empty segment |
| SqlGrammar.SemicolonCuts | src/migrations.ts:198-205 | a `;` in front of any text cuts: an empty segment, then the segments of the text |
| SqlGrammar.LineCommentIsOneToken | src/migrations.ts:127-163 | `--` up to the first LF, or to the end, stays at the head of the first segment, whatever is in it |
| SqlGrammar.BlockCommentIsOneToken | src/migrations.ts:135-169 | so does `/*` up to the first closing mark, or to the end |
| SqlGrammar.SingleQuotedIsOneToken | src/migrations.ts:181-190 | so does `'`, any text with its quotes doubled and a quote that no other one follows, and an open one to the end |
| SqlGrammar.DoubleQuotedIsOneToken | src/migrations.ts:192-196 | so does `"` up to the next `"`, or to the end |
| SqlGrammar.DollarBodyIsOneToken | src/migrations.ts:145-179 | so does, for every tag, the empty `$$` among them, the tag up to the first place where looking back shows it again |
| SqlGrammar.BodyCloses | src/migrations.ts:145-155 | a tag, a body without `$` that is not the inside of the tag, and the tag again is such a text |
| SqlGrammar.DollarBodyIsOneStatement | src/migrations.ts:145-179 | so a dollar-quoted body, with any `;` in it, is one statement |
| SqlGrammar.TagsOverlap | src/migrations.ts:145-155 | the closing tag may share its first `$` with the opening one |
| SqlGrammar.OtherCharacterStandsAlone | src/migrations.ts:207-210 | a character that begins none of these stays with the segment, and cutting starts afresh behind it |
| SqlGrammar.TagAlphabet | src/migrations.ts:170-172 | tags are made of ASCII letters, digits and underscores |
| SqlGrammar.SegmentsAreLawful | src/migrations.ts:114-216 | for all texts at once: cutting obeys these laws |
| SqlGrammar.LawsDetermine | src/migrations.ts:114-216 | and it is the only function that does: any function with these laws gives the same segments for every text |
| SqlSplit.SplitSql | src/migrations.ts:114-216 | the loop with its five mode variables returns exactly the grammar's statements; at most one mode is ever set |
| SqlSplit.InSingle | src/migrations.ts:181-190 | inside a quote, a doubled quote is read on and any other one ends the token, leaving the remaining segments as the grammar has them |
| SqlSplit.InDollar | src/migrations.ts:145-155 | looking back at each `$` closes the body exactly where the grammar does, also when the tags overlap |
| SqlSplit.Cuts | src/migrations.ts:198-205 | a `;` outside every token ends one segment and starts an empty one |
| SqlFixpoint.TokenizeConcat | src/migrations.ts:114-216 | after text that lexes back to normal mode, a `;` is a token of its own and lexing starts afresh |
| SqlFixpoint.SplitUndoesJoin | src/migrations.ts:114-216 | trimmed nonempty statements without a top-level `;` that lex back to normal mode survive `join(";")` and splitting |
| SqlFixpoint.StatementsAreFixpoints | src/migrations.ts:198-216 | every returned statement splits to itself and nothing else |
| SqlComments.BlockInOnePass | src/migrations.ts:218-222 | stripping line comments first and then looking for a closing mark is looking for the first one that is not behind `--` on its line |
| SqlComments.FilterReadsInOnePass | src/migrations.ts:218-226 | for every text, the filter drops it exactly when it is a sequence of white space, line comments up to any line end, and block comments closed in that way |
| SqlAgreement.BlockReading | src/migrations.ts:218-222 | a closed block comment ends for the filter where it ends for the lexer, unless it has `--` on its last line, and then it stays open |
| SqlAgreement.OpenStaysOpen | src/migrations.ts:218-222 | a block comment that is open for the lexer is open for the filter |
| SqlAgreement.CommentIsDroppedIff | src/migrations.ts:218-226 | a text that is one comment is dropped exactly when it is a closed block comment without `--` on its last line, or a line comment with only blanks behind its first line end |
| SqlAgreement.CleanIsTransparent | src/migrations.ts:218-226 | such a comment makes no difference to the filter, whatever follows |
| SqlAgreement.FilterAgreesWithLexer | src/migrations.ts:218-226 | the filter keeps a text exactly when it lexes to something other than comments and white space, provided the comments in front of its first code are of that kind |
| SqlAgreement.AgreementIsExact | src/migrations.ts:218-226 | that condition is exact: it holds if and only if the views agree on the text and on every run of comments and blanks that the text begins with |
| SqlAgreement.AgreementOnOneText | src/migrations.ts:218-226 | for each single text: the views agree exactly when the part from its first unclean leading comment on reads as blanks for the filter if and only if it lexes to no code; without such a comment they agree |
| SqlAgreement.OrdinaryCommentsAgree | src/migrations.ts:218-226 | the views agree when leading block comments are closed and free of `--` and leading line comments hold no line end but a closing LF or CRLF |
| SqlAgreement.DashesInBlockDropCode | src/migrations.ts:218-226 | a text with code after a block comment holding `--` that the filter drops |
| SqlAgreement.CarriageReturnKeepsComment | src/migrations.ts:218-226 | a line comment with a carriage return that the filter keeps |
| SqlAgreement.UnclosedBlockIsKept | src/migrations.ts:218-226 | an unclosed block comment that the filter keeps |
| SqlAgreement.LineEndsExactly | src/migrations.ts:218-222 | a line comment ends at LF, CR, U+2028 and U+2029 and at no other character |
| MigrationOrder.CompareIsTotalOrder | src/migrations.ts:8-37 | the comparator tells all names apart and is antisymmetric and transitive |
| MigrationOrder.ParseMeans | src/migrations.ts:8-18 | a name has the prefix n exactly when it begins with the numeral of n, after any zeros, followed by `_`, `-` or `.` |
| MigrationOrder.SortedFilesInOrder | src/migrations.ts:20-37 | a file numbered lower stands before one numbered higher, numbered ones before the others; ties and the others are in collation order |
| MigrationOrder.SortedFilesAre | src/migrations.ts:86-89 | listed are exactly the names that end in `.sql`, each as often as the directory has it |
| MigrationOrder.ListingRefusedIff | src/migrations.ts:58-94 | the listing is refused exactly when some file creates the reviews table and no file up to it, but some later one, the versions table |
| MigrationOrder.DirectoryOrderIsIrrelevant | src/migrations.ts:82-94 | the sorted list depends on which files there are, not on the order in which the directory lists them |
| MigrationOrder.SortedFilesDistinct | src/migrations.ts:82-94 | each file is in the list once |
| MigrationOrder.FindMigrationForTableCreation | src/migrations.ts:39-56 | the first file that creates the table, or nothing when none does |
| MigrationRunner.FilterExecutable | src/migrations.ts:254 | exactly the executable statements, in order |
| MigrationRunner.ExecutablesAre | src/migrations.ts:224-254 | a statement is run as often as it occurs when it has code in it, and never otherwise |
| MigrationRunner.ApplyFile | src/migrations.ts:250-406 | a file is committed with all its statements and its id, or not at all; a normal end means the former |
| MigrationRunner.RunMigrations | src/migrations.ts:235-408 | whatever call fails or dies, the database stays clean for a prefix of the sorted files, no shorter than before; the recorded ids stand by number, then by collation; a normal return means all of them, and a run without faults returns normally |
| MigrationRunner.RunsAreSafe | src/migrations.ts:235-408 | over any sequence of runs from an empty database the recorded ids are a growing prefix of the files, each file's statements are committed once and in order, and from the first success on the database is the one a single clean pass makes |
| MigrationRunner.RunAgainAndAgain | src/migrations.ts:235-408 | starting the runner once per plan of faults makes such a sequence, so all of this, and the order by number, holds of what it leaves |
| MigrationRunner.Database.Begin | src/migrations.ts:253 | a transaction starts from what is committed |
| MigrationRunner.Database.Query | src/migrations.ts:302-303 | a statement takes effect in the open transaction only; a failed one has no committed effect |
| MigrationRunner.Database.InsertId | src/migrations.ts:395-398 | the id is recorded in the same transaction as the statements |
| MigrationRunner.Database.Commit | src/migrations.ts:400 | all of the transaction becomes visible, or none; a lost reply says nothing about which |
| MigrationRunner.Database.Rollback | src/migrations.ts:401-403 | an open transaction leaves no trace |
| JsonParser.StringRoundTrip | src/platform/idempotency.ts:11-17 | reading an escaped string up to its closing quote gives the string back, for every sequence of code units |
| Json.LiteralsAndEscapes | src/platform/idempotency.ts:10-17 | the texts `null`, `true`, `false`, and the short escapes of quote, backslash and the five control characters that have one |
| Json.OtherEscapes | src/platform/idempotency.ts:11-17 | other control characters and lone surrogates are escaped by their four hexadecimal digits |
| Json.PlainUnits | src/platform/idempotency.ts:11-17 | everything else, surrogate pairs included, is printed as it is |
| JsonParser.StableStringifyRoundTrip | src/platform/idempotency.ts:9-19 | parsing what is printed gives the value with its members in key order |
| JsonParser.StableStringifyInjective | src/platform/idempotency.ts:9-19 | two values print alike exactly when their canonical forms are equal |
| Json.StablePrintsCanon | src/platform/idempotency.ts:9-19 | sorting while printing is printing the canonical form |
| JsonEquality.MemberOrderIsIrrelevant | src/platform/idempotency.ts:14-18 | any permutation of an object's members prints alike |
| JsonEquality.PrintsAlikeIffSame | src/platform/idempotency.ts:9-19 | two values print alike exactly when they are the same, where an object is its key set with a value under each key |
| JsonEquality.TextLeMeans | src/platform/idempotency.ts:15 | keys are compared by the first code unit in which they differ, a prefix coming first |
| JsonEquality.PrintedKeysAscend | src/platform/idempotency.ts:15-18 | what is printed for an object parses to its members in that order of their keys, each once |
| Fingerprint.NoValueAfterColon | src/platform/idempotency.ts:21-23 | no printed value ends in a colon followed by a printed value |
| Fingerprint.PathAndBody | src/platform/idempotency.ts:21-23 | a path, colons and all, can be told from the printed body after it |
| Fingerprint.PayloadInjective | src/platform/idempotency.ts:21-24 | for colon-free methods, fingerprints agree exactly when method, path and the canonical form of what is hashed for the body agree |
| Fingerprint.PayloadsAgreeIff | src/platform/idempotency.ts:21-24 | for colon-free methods and bodies without double keys, fingerprints agree if and only if method and path agree and the bodies are the same up to member order, where null and undefined are the same as each other and as `{}` |
| IdempotencyStore.MemoryStore.MemoryFallbackGet | src/lib/idempotencyStore.ts:59-61 | the value under the key, or nothing |
| IdempotencyStore.MemoryStore.MemoryFallbackSet | src/lib/idempotencyStore.ts:63-74 | the whole new store: the key keeps its place or goes last, a timer is due in an hour, and beyond 1000 entries the oldest nonempty key goes |
| IdempotencyStore.MemoryStore.FireTimer | src/lib/idempotencyStore.ts:65-67 | the timer's key is deleted, whichever `set` put it there |
| IdempotencyStore.FireTouchesOneKey | src/lib/idempotencyStore.ts:65-67 | a timer that fires takes out its own key; every other key keeps its value, its place and its timers |
| IdempotencyStore.StoreInvariant | src/lib/idempotencyStore.ts:59-74 | in every run each live entry holds what was set last under its key, with a deletion pending one hour after that |
| IdempotencyStore.GetReturnsLastSet | src/lib/idempotencyStore.ts:59-61 | `get` returns the last value set for the key or nothing |
| IdempotencyStore.NoEntryOutlivesItsHour | src/lib/idempotencyStore.ts:63-67 | while no timer is overdue, no entry is an hour past its last `set` |
| IdempotencyStore.EvictionIsFifo | src/lib/idempotencyStore.ts:68-73 | eviction takes the earliest-inserted key, never the one being set, and touches nothing else |
| IdempotencyStore.SetBound | src/lib/idempotencyStore.ts:68-73 | one `set` leaves the bound exactly when the oldest key is the empty string |
| IdempotencyStore.StoreIsBounded | src/lib/idempotencyStore.ts:63-74 | without an empty key, no run holds more than 1000 entries |
| IdempotencyStore.EmptyKeyDefeatsBound | src/lib/idempotencyStore.ts:68-73 | once the empty string is oldest, runs of any length are kept in full |
| IdempotencyProtocol.HashInjective | src/platform/idempotency.ts:21-24 | for protected requests, hashes agree if and only if method, path and body do, in the sense of `PayloadsAgreeIff` |
| IdempotencyProtocol.StoreKeysAgreeIff | src/platform/idempotency.ts:34-37 | for user ids without a colon, store keys agree if and only if the users do, no user counting as `anon`, and the path, a colon and the header key read the same |
| IdempotencyProtocol.StoreKeyParts | src/platform/idempotency.ts:34-37 | for one user and path exactly when the header keys agree, for one user and header key exactly when the paths do, and for colon-free paths exactly when both do |
| IdempotencyProtocol.PathAndKeyRunTogether | src/platform/idempotency.ts:26-37 | a colon can belong to either, so that different paths with different header keys share a store key |
| IdempotencyProtocol.ProtectedMeans | src/platform/idempotency.ts:49-58 | protected are POST, PATCH and DELETE, in any case, with a header key, and nothing else |
| IdempotencyProtocol.ClientPaths | src/platform/idempotency.ts:39-42 | a mismatch is let through on exactly the two client paths |
| IdempotencyProtocol.Middleware.Arrive | src/platform/idempotency.ts:49-74 | up to the first `await`: bypassed, waiting for the in-flight request, or looking up the store |
| IdempotencyProtocol.Middleware.Wake | src/platform/idempotency.ts:65-66 | the lookup after the in-flight response has finished |
| IdempotencyProtocol.Middleware.ResumeReplay | src/platform/idempotency.ts:67-74 | a record found is replayed, otherwise the second lookup is made |
| IdempotencyProtocol.Middleware.ResumeCache | src/platform/idempotency.ts:75-128 | replay, conflict, or registration as in flight and the handler |
| IdempotencyProtocol.Middleware.OnJson | src/platform/idempotency.ts:102-122 | a response below 500 is stored under the request's key with its hash, any other is not |
| IdempotencyProtocol.Middleware.OnFinalized | src/platform/idempotency.ts:124-126 | the in-flight entry under the key goes, whoever holds it |
| IdempotencyProtocol.StepKeepsInv | src/platform/idempotency.ts:44-129 | every step keeps: stored records are logged, logged records come from a handler run with that key and hash, every phase is backed by a logged record |
| IdempotencyProtocol.RunKeepsInv | src/platform/idempotency.ts:44-129 | so does every interleaving |
| IdempotencySafety.ReplayProvenance | src/platform/idempotency.ts:60-128 | in every interleaving a replayed response was recorded before, by a request of the same user that ran its handler under the same store key and answered below 500; through the second lookup, off the two client paths, it had the same method, path and body |
| IdempotencySafety.LiveRecordNeverRuns | src/platform/idempotency.ts:63-94 | a request whose lookup starts while a record is live for its key never runs its handler |
| IdempotencySafety.ConflictRunsNothing | src/platform/idempotency.ts:74-83 | after a 409 the handler of that request never runs and nothing is recorded for it |
| IdempotencySafety.ConflictHasOtherPayload | src/platform/idempotency.ts:75-82 | a 409 means that a handler ran under the same key for another method, path or body |
| IdempotencySafety.FoundRecordDecides | src/platform/idempotency.ts:74-94 | a request whose lookup found a record gets that record or a 409, the latter exactly when the method, path or body of the request that left it differs and the path is no client path |
| IdempotencySafety.NothingFoundRuns | src/platform/idempotency.ts:96-128 | one whose lookup found nothing is registered under its key and runs its handler |
| IdempotencySafety.JsonIsRecorded | src/platform/idempotency.ts:102-122 | in every interleaving, a response below 500 is at once what a lookup of its key finds, with its status, body and hash; any other leaves the store alone |
| IdempotencySafety.FinalizedFrees | src/platform/idempotency.ts:124-126 | after a response has closed, the next request under its key looks up the store, and other keys stay in flight |
| IdempotencySafety.BypassIsExact | src/platform/idempotency.ts:49-58 | in every interleaving a request goes past the middleware exactly when its method is none of the three or it has no key |
| IdempotencySafety.WaiterIsHeld | src/platform/idempotency.ts:63-66 | a request that found an in-flight entry stays put until that response finishes or closes |
| IdempotencySafety.WaiterReplays | src/platform/idempotency.ts:65-71 | one that wakes while a record is live replays that record, whatever happens to the store meanwhile |
| IdempotencySafety.StoreStaysSmallAndFresh | src/platform/idempotency.ts:103-122 | in every interleaving the store holds at most 1000 records, each with a deletion due within the hour |
| IdempotencyLimits.TwoHandlersRun | src/platform/idempotency.ts:63-100 | an interleaving in which two requests with one key both run |
| IdempotencyLimits.RegisteredRunsAlone | src/platform/idempotency.ts:63-126 | once a request is registered, and with only one other coming under its key, that one is held until the response closes, in every continuation: their handlers are never open at once |
| IdempotencyLimits.BothOpenIffArrivesBeforeRegistration | src/platform/idempotency.ts:63-126 | when the first request has found nothing recorded or in flight, both handlers can be open at once if and only if the second arrives before the first registers, whatever else happens in between |
| IdempotencyLimits.TwoRequestsExactly | src/platform/idempotency.ts:63-126 | the same for whole runs, for the first two requests under a key |
| IdempotencyLimits.FirstLookupIgnoresPayload | src/platform/idempotency.ts:63-71 | an interleaving in which a request with another payload is replayed after the wait instead of refused |
| IdempotencyLimits.ClientPathIgnoresPayload | src/platform/idempotency.ts:74-93 | one in which the second lookup does so on a client path |
| IdempotencyLimits.OtherPayloadReplayedIff | src/platform/idempotency.ts:63-94 | of two requests with one store key and different payloads, one can be answered with what the other left if and only if through the lookup after a wait or on a client path |
| Pipeline.ApplicationRows.RecordTransition | src/routes/portal.ts:80-93 | one stage event is added |
| Pipeline.AllDocumentsAcceptedMeans | src/routes/portal.ts:95-107 | the counts agree exactly when some document is accepted and every other one accepted or rejected |
| Pipeline.ApplicationRows.OpenDetail | src/routes/portal.ts:332-344 | only a Received application moves, to In Review |
| Pipeline.ApplicationRows.AcceptDocument | src/routes/portal.ts:1220-1267 | the document is accepted, and the application goes to the lender when that was the last one and its stage allows |
| Pipeline.ApplicationRows.RejectDocument | src/routes/portal.ts:1303-1398 | the document is rejected, and the application falls back to Documents Required from the three early or lender stages |
| Pipeline.ApplicationRows.UploadTermSheet | src/routes/portal.ts:1469-1503 | older offers are archived, one is added, and Off to Lender becomes Offer |
| Pipeline.ApplicationRows.AcceptOffer | src/routes/portal.ts:1692-1709 | only an open, unarchived offer can be accepted; Offer and Off to Lender become Accepted, unlogged |
| Pipeline.ApplicationRows.DeclineOffer | src/routes/portal.ts:1716-1729 | only an open, unarchived offer can be declined; the stage stays |
| Pipeline.StepKeepsInv | src/routes/portal.ts:1220-1729 | every step keeps the invariant: documents behind Off to Lender, an accepted offer behind Accepted, one unarchived offer, a legal and chained event log |
| Pipeline.LateStagesStick | src/routes/portal.ts:1220-1729 | from any moment of a run to any later one: Offer is left only for Accepted, and Accepted is never left |
| Pipeline.PipelineSafety | src/routes/portal.ts:95-1729 | for every run from Received without offers: Off to Lender means some accepted and no undecided document, Accepted means an accepted offer, at most one offer is unarchived, and the logged changes chain from Received to the current stage unless a client acceptance ended them |
| Pipeline.OfferNeedsDocuments | src/routes/portal.ts:1254-1709 | a run that reaches Offer or Accepted passed a moment at Off to Lender with all documents accepted |
| PipelineRuns.DocumentsFollowVerdicts | src/routes/portal.ts:1220-1398 | after any run each document has the status last decided for its id, or the one it started with |
| PipelineRuns.OffersFollowUploads | src/routes/portal.ts:1469-1503 | there is one offer per term sheet, in their order, and exactly the latest is unarchived |
| PipelineRuns.OffersFollowAnswers | src/routes/portal.ts:1692-1729 | an offer is accepted if and only if the client accepted it while it was the latest and unanswered, has changes requested if and only if the client then declined it, and is pending otherwise |
| PipelineRuns.OnlyLatestIsOpen | src/routes/portal.ts:1692-1729 | in a run, an offer can be answered exactly when it is the latest and pending |
| PipelineRuns.StepsLeadOn | src/routes/portal.ts:332-1729 | every step of every run leads to the stage that a table over stages, documents and the latest offer names, and logs the move unless it is the client acceptance |
| ApplicationDelete.Client.Savepoint | src/routes/portal.ts:574 | a savepoint remembers what the transaction sees |
| ApplicationDelete.Client.Delete | src/routes/portal.ts:575-578 | the application's rows go, or the transaction is aborted; 42P01 exactly when the table is missing |
| ApplicationDelete.Client.RollbackTo | src/routes/portal.ts:584 | back to what the innermost savepoint remembers, which stays set |
| ApplicationDelete.OthersMeans | src/routes/portal.ts:576 | what a delete leaves are exactly the rows of other applications |
| ApplicationDelete.DeleteChild | src/routes/portal.ts:573-589 | one child table: its rows are gone or the table is missing, and the savepoint stack is as before |
| ApplicationDelete.DeleteApplication | src/routes/portal.ts:568-606 | for any child tables, any of them missing and any statement failing: unchanged, or without exactly this application's rows in every existing table; a normal response means the latter, 404 exactly when there was no such application |
| RequiredDocsQuery.EarlierClausesKeep | src/routes/lenderProductsRequiredDocsPreview.ts:83-105 | pushing a parameter does not change what earlier clauses mean |
| RequiredDocsQuery.PushBoth | src/routes/lenderProductsRequiredDocsPreview.ts:83-105 | `$${params.length}` denotes the parameter just pushed |
| RequiredDocsQuery.BuildPreviewQuery | src/routes/lenderProductsRequiredDocsPreview.ts:76-107 | for any set of columns, the clauses with their parameters select exactly the rows of the direct predicate |
| RequiredDocsQuery.BuildWizardQuery | src/routes/lenderProductsRequiredDocs.ts:74-122 | the same for the wizard, with industry, years and revenue |
| RequiredDocsQuery.WizardIsPreviewWithoutBoth | src/routes/lenderProductsRequiredDocs.ts:52-123 | for a two-letter country, a category and an amount, the wizard selects exactly the preview's rows minus those whose country is BOTH |
| RequiredDocsQuery.PreviewMeans | src/routes/lenderProductsRequiredDocsPreview.ts:76-107 | with the current columns, all filled: the active products of the country or of both, of the category, with the amount in their range |
| RequiredDocsQuery.WizardMeans | src/routes/lenderProductsRequiredDocs.ts:74-122 | the same for the wizard, without products for both countries and with its three further columns |
| RequiredDocsQuery.OlderColumnsCount | src/routes/lenderProductsRequiredDocsPreview.ts:95-104 | where only the older amount columns exist, those are compared |
| RequiredDocsQuery.NothingExcludesNothing | src/routes/lenderProductsRequiredDocsPreview.ts:81-104 | a row whose columns are NULL is excluded by no filter |
| RequiredDocsQuery.NothingAskedNothingExcluded | src/routes/lenderProductsRequiredDocsPreview.ts:81-105 | where nothing is asked for, exactly the live products are selected, by both routes alike |
| RequiredDocsQuery.CategoryCaseIsIrrelevant | src/routes/lenderProductsRequiredDocsPreview.ts:27-44 | case and outer blanks of a category do not matter |
| CategoryAliases.TablesAgreeExceptStandard | src/routes/lenderProductsRequiredDocs.ts:29-47 | the code that the routes give a normalized name falls into the bucket that the lender matcher gives the name, for every name except STANDARD |
| RequiredDocsUnion.WizardEntries | src/routes/lenderProductsRequiredDocs.ts:134-167 | what a saved value mentions, in any of its three shapes, with the amount window of each mention |
| RequiredDocsUnion.WizardUnion | src/routes/lenderProductsRequiredDocs.ts:131-182 | a document is in the map exactly when mentioned, required exactly when some mention requires it, with the window of its first mention |
| RequiredDocsUnion.WizardItems | src/routes/lenderProductsRequiredDocs.ts:131-188 | the answer lists them in ascending order, each document once |
| RequiredDocsUnion.UnionUnique | src/routes/lenderProductsRequiredDocs.ts:129-182 | the mentions determine the union |
| RequiredDocsUnion.UnionIgnoresOrder | src/routes/lenderProductsRequiredDocs.ts:129-182 | the order of entries does not matter |
| RequiredDocsUnion.RowOrderIsIrrelevant | src/routes/lenderProductsRequiredDocs.ts:131-182 | nor does the order of rows |
| RequiredDocsUnion.ListingUnique | src/routes/lenderProductsRequiredDocs.ts:184-188 | what is mentioned and required determines the sorted list |
| RequiredDocsWindow.TightestAllows | src/routes/lenderProductsRequiredDocs.ts:129-130 | the tightest window holds exactly the amounts that every mention's window allows |
| RequiredDocsWindow.FirstIsTightestIff | src/routes/lenderProductsRequiredDocs.ts:168-180 | the first mention's window is the tightest exactly when it lies within that of every mention |
| RequiredDocsWindow.KeptIsTightestIff | src/routes/lenderProductsRequiredDocs.ts:129-188 | so what the wizard answers with is the tightest window exactly in that case |
| RequiredDocsWindow.FirstWindowIsNotTightest | src/routes/lenderProductsRequiredDocs.ts:168-180 | two rows asking for one document from 100 and from 200: the answer says 100, and 200 with the rows swapped |
| RequiredDocsWindow.PreviewKeepsBounds | src/routes/lenderProductsRequiredDocsPreview.ts:148-155 | the windows that the preview keeps hold numbers or nothing, and bound the same amounts as the wizard's |
| RequiredDocsLegs.ExtractDocsFromProduct | src/routes/lenderProductsRequiredDocsPreview.ts:134-164 | the same mentions as the wizard's, written separately; a window keeps only numbers |
| RequiredDocsLegs.RunOneLeg | src/routes/lenderProductsRequiredDocsPreview.ts:174-196 | the same union in ascending order, and under each document exactly the products that ask for it, once each and sorted |
| RequiredDocsLegs.BuildUnion | src/routes/lenderProductsRequiredDocsPreview.ts:198-211 | the union over the legs' reports in ascending order, and under each document exactly the tags of the legs that list it |
| RequiredDocsLegs.RoutesAgree | src/routes/lenderProductsRequiredDocsPreview.ts:174-196 | on the same rows in any order, the two routes answer with the same list of documents and flags |
| RequiredDocsLegs.LegsAreOneLeg | src/routes/lenderProductsRequiredDocsPreview.ts:198-211 | the union over legs lists what one leg over all their rows lists |
| RequiredDocsForm.ValidateAndNormalizeRequiredDocuments | src/routes/portalLenderProducts.ts:75-133 | what is kept and every error, in order, for any JSON value |
| RequiredDocsForm.KeptIsGood | src/routes/portalLenderProducts.ts:100-130 | whatever is submitted, what is kept has listed, distinct labels, a trimmed description and stage 1 or 2 |
| RequiredDocsForm.NoErrorsMeans | src/routes/portalLenderProducts.ts:88-131 | no error is reported exactly when every item is an object with known keys and a listed label and no label comes twice; then all are kept |
| RequiredDocsForm.SavedRevalidates | src/routes/portalLenderProducts.ts:75-133 | what is saved validates to itself without errors |
| RequiredDocsForm.SavedIsReadBack | src/routes/lenderProductsRequiredDocsPreview.ts:134-164 | and is read back as the same labels with the same flags, in the same order, without a window |
| RequiredDocsReading.ErrorsMean | src/routes/portalLenderProducts.ts:88-131 | an error is reported for an item if and only if it applies: not an object, a key that is not allowed, no label, an unlisted label, or a listed label that an earlier item has |
| RequiredDocsReading.KeptMeans | src/routes/portalLenderProducts.ts:100-130 | a label is kept exactly when it is listed and some item has it |
| RequiredDocsReading.FormReadsCategory | src/routes/portalLenderProducts.ts:100-105 | of an entry with both names the form keeps the `category` |
| RequiredDocsReading.FormReadsTypeOtherwise | src/routes/portalLenderProducts.ts:100-105 | without a `category` it keeps the `document_type` |
| RequiredDocsReading.RoutesReadType | src/routes/lenderProductsRequiredDocsPreview.ts:142-147 | the routes take the `document_type` of such an entry |
| RequiredDocsReading.OnlyFalseIsOptional | src/routes/portalLenderProducts.ts:130 | for form and routes alike an entry is optional exactly when `required` is the boolean `false` |
| RequiredDocsReading.StageIsOneOrTwo | src/routes/portalLenderProducts.ts:128-129 | the stage is 2 exactly for the number or the text 2, and otherwise 1 |
| RequiredDocsReading.BoundsAreRead | src/routes/lenderProductsRequiredDocs.ts:134-167 | the lower bound is read from `min_amount`, the upper one from `max_amount`, and a missing one is none |
| RequiredDocsReading.NamesAndMaps | src/routes/lenderProductsRequiredDocsPreview.ts:139-162 | a name in a list is a required document, and so is a truthy member of a map; a falsy one is none |
| Retrieval.CosineSimilarity | src/ai/retrievalService.ts:18-32 | the loop computes the quotient of inner product and norms, 0 for empty, unequal or zero vectors |
| Retrieval.CauchySchwarz | src/ai/retrievalService.ts:20-29 | the accumulators satisfy dot² ≤ normA · normB |
| Retrieval.SimilarityRange | src/ai/retrievalService.ts:18-32 | a similarity lies between -1 and 1, for any two vectors |
| Retrieval.SimilaritySymmetric | src/ai/retrievalService.ts:18-32 | it does not depend on which vector comes first |
| Retrieval.SimilarityOfSelf | src/ai/retrievalService.ts:18-32 | a nonzero vector is at similarity 1 with itself |
| Retrieval.LawOfCosines | src/ai/retrievalService.ts:18-32 | the similarity is the cosine of the angle: the squared distance of two vectors is the sum of their squares less twice the product of their lengths and their similarity |
| Retrieval.TopChunksAreBest | src/ai/retrievalService.ts:70-71 | the cut keeps min(limit, n) rows, best first, loses none of the kept ones, and no dropped row beats a kept one |
| Retrieval.RetrievedAreNearest | src/ai/retrievalService.ts:63-71 | every returned chunk is a fetched row with its own similarity, and no other row is nearer |
| LenderMatch.FilterIsScoreZero | src/ai/lenderMatchEngine.ts:115-116 | for a positive request the amount filter rejects a row exactly when its amount score is 0; otherwise the score is at least 0.5, so the floor of 0.2 is never reached |
| LenderMatch.ScoreRange | src/ai/scoringEngine.ts:13-32 | every row that passes the filter scores between 51 and 95 percent |
| LenderMatch.MatchesAreRanked | src/ai/lenderMatchEngine.ts:113-148 | the result holds exactly the passing rows, each as often as it came, with its own score, in descending order |
| LenderMatch.CountryDecides | src/ai/lenderMatchEngine.ts:45-49 | the country excludes a row exactly when both are known, the product is not for both countries, and they differ |
| LenderMatch.AmountDecides | src/ai/lenderMatchEngine.ts:115-116 | an amount excludes a row exactly when it lies outside a nonzero bound |
| LenderMatch.ZeroIsNothing | src/ai/lenderMatchEngine.ts:115-116 | a bound of zero filters and scores as no bound, and a request for zero filters as no request |
| LenderMatch.CategoryDecides | src/ai/lenderMatchEngine.ts:117-120 | the category excludes a row exactly when one is wanted and the row falls into another bucket |
| LenderMatch.FitIsLinear | src/ai/scoringEngine.ts:21-25 | between two bounds the fit falls from 1 in the middle in proportion to the distance, to one half at the bounds |
| LenderMatch.FitWithoutRange | src/ai/scoringEngine.ts:18-26 | without a positive request it is 0.4, with at most one bound, met, 0.8 |
| LenderMatch.Thresholds | src/ai/lenderMatchEngine.ts:129-131 | only reaching 24 months and a revenue of 120000 matters, and either raises the score |
| LenderMatch.Percentages | src/ai/lenderMatchEngine.ts:126-131 | the exact percentages for a row with two bounds, over the two thresholds, without an amount, at the middle and at a bound |
| LenderMatch.NormalizedIsNormal | src/ai/lenderMatchEngine.ts:80 | a normalized category is in upper case, without separators and without two underscores in a row |
| LenderMatch.ToBucketIdIdempotent | src/ai/lenderMatchEngine.ts:78-110 | mapping a bucket once more changes nothing |
| LenderMatch.NamesReadAlike | src/ai/lenderMatchEngine.ts:78-110 | two words of a category name fall into the bucket of the underscored name in any case, with any separators between them and blanks around |
| LenderMatch.SpecialAliases | src/ai/lenderMatchEngine.ts:83-108 | working capital is a term loan, invoice factoring is factoring |
| OcrInsights.NormalTextIsNormal | src/ocr/insights.ts:28-33 | normalized text is trimmed, single-spaced and in lower case, and such text normalizes to itself |
| OcrInsights.ValueIsNormal | src/ocr/insights.ts:24-53 | whatever a value normalizes to, through arrays and wrapped objects, is normal text that reads back as itself |
| OcrInsights.ScalarsReadAsText | src/ocr/insights.ts:34-39 | booleans and numbers read as their text does |
| OcrInsights.WrappersReadAsContent | src/ocr/insights.ts:40-52 | a list reads as its first element, a wrapper as its `normalized` part and without one as its `value` |
| OcrInsights.WhereFieldsAreFound | src/ocr/insights.ts:55-79 | a field is looked for in the document, then under `fields`, then under `normalized` |
| OcrInsights.WordsReadAlike | src/ocr/insights.ts:28-33 | two words read the same in any case, with any white space between and around them |
| OcrInsights.ValuesMean | src/ocr/insights.ts:122-133 | the values of a field are exactly the nonempty texts that the field of some document reads as |
| OcrInsights.ValuesAre | src/ocr/insights.ts:122-133 | the values of a field are exactly those that some document gives |
| OcrInsights.SortedUniqueLists | src/ocr/insights.ts:98-100 | `toSortedUnique` lists each element once, in collation order |
| OcrInsights.ResolveNormalizedValue | src/ocr/insights.ts:81-96 | a value that occurs more often than any other, or as often and is not behind it in collation order; nothing for no values |
| OcrInsights.CollectDocument | src/ocr/insights.ts:122-133 | a document adds its value, if any, to each field of the registry and nothing else |
| OcrInsights.BuildOcrInsights | src/ocr/insights.ts:118-162 | missing are exactly the required fields without a value, conflicting those with two or more, and each field with a value gets its least one |
| OcrInsights.InsightsUnique | src/ocr/insights.ts:118-162 | that determines the insights |
| OcrInsights.DocumentOrderIsIrrelevant | src/ocr/insights.ts:118-162 | the insights do not depend on document order |
| OcrInsights.MoreDocuments | src/ocr/insights.ts:118-162 | one more document creates no missing field, removes no conflict and drops no normalized value, and a normalized value only gets lower |
| OcrInsights.MissingConflictsDisjoint | src/ocr/insights.ts:143-154 | a missing field neither conflicts nor has a value, a conflicting one has a value, and a required one is missing exactly when it has none |
| OcrInsights.NormalizedValuesAreNormal | src/ocr/insights.ts:151-154 | every normalized value is normal text |
| JsStrings.TrimIsIdempotent | src/migrations.ts:199 | trimming yields a trimmed string, which trimming leaves alone |
| Sorting.SortIgnoresOrder | src/migrations.ts:89 | sorting by an order that tells all elements apart does not depend on the order they come in |

## Left out

- `runMigrations` options for the in-memory test database (statement rewriting, skipping by error message): only the default path is modelled. Two runners at once, and migrations whose statements begin or end transactions themselves, are not.
- A migrations directory that does not exist, and file-system errors: the listing and the file contents are inputs.
- PostgreSQL's own lexing (nested comments, `E''` strings, tag rules): the code does not implement it.
- SqlAgreement.OrdinaryCommentsAgree: goes one way; AgreementIsExact and AgreementOnOneText give the exact conditions.
- MigrationOrder.FindMigrationForTableCreation: does not model the regular expression for `create table`, which is a parameter.
- The Redis backend of the idempotency store, and changing over to it between requests.
- IdempotencyProtocol.StoreKey: does not model the replacement of UUIDs in `normalizePath`; the resulting path is an input, so two requests may share a store path in any way. User ids are taken to be free of colons where users are told apart.
- IdempotencyLimits.TwoRequestsExactly: is about the first two requests under a key; a third one can overwrite or remove the in-flight entry of another, which goes by key.
- IdempotencyStore.NoEntryOutlivesItsHour: Node may run a timer late; the lemma is about the times when none is overdue.
- Responses sent other than through `res.json`, which the middleware does not record either.
- Portal: cross-silo requests, swallowed database errors, notifications and calls into modules not shown, manual status changes, new documents, and two handlers interleaving on one application. `POST /offers` and `PATCH /offers/:id/status` also change offers and are left out; `POST /offers` adds one without archiving the others, so "at most one unarchived" does not survive it.
- Pipeline.PipelineSafety: says nothing about documents once a term sheet is uploaded; rejecting a document at stage Offer leaves the stage, as in the code.
- RequiredDocsWindow.KeptIsTightestIff: reads only numbers as bounds; other saved values are kept as they are and bound nothing.
- RequiredDocsLegs.RunOneLeg: does not model the list of matching products in the report; the documents that are always required are left out too.
- How the wizard and the preview read numbers from a request; amounts are inputs.
- RequiredDocsQuery.WizardIsPreviewWithoutBoth: concerns the selected rows, not the SQL text or the order in which PostgreSQL returns them.
- Parsing of stored embeddings and the limit of 500 fetched rows: vectors are inputs.
- Floating-point rounding in similarities and scores.
- The texts that go with a lender match (`reasoning`, names, formatted amounts), and the SQL that fetches the rows.
- OCR audit events and notifications, and the field registry itself, which is a parameter.
- Express routing, authentication, rate limits, storage, telephony and the other routes: plumbing without a hard property.
