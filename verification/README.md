# Exarchos: verified model of the event appender and of the compilers, scanners and state machines around it

The project models how Exarchos stores events, and the small programs that its gates rely on, and proves what
they promise. `dafny verify dfyconfig.toml` checks all of it.

**The event appender.** Several appenders (processes), each with any number of calls in flight, share one store: the
rows of each stream, a high-water mark for each stream, and one table of claims that idempotency keys and
once-only operations both use. `EventTables` is that store and its transactions. `AppendProtocol` is a step system:
an action is one stretch of code between two points where another caller can run (the fold of a stream, the run of a
closure, the re-read of a tail, the unlocked claim lookup, one transaction attempt, a busy attempt, the re-read after
a lost race). A theorem about every list of actions is a theorem about every interleaving. `AppendSafety` holds the
invariant that every step keeps, and `AppendTheorems` what follows: every run equals a sequential run of atomic
decisions, a key commits once, streams count from one. `AppendOutcomes` gives every call that ended, also one that
committed nothing, a step inside its lifetime at which its atomic operation gives its outcome. `CommittedRows` says what
a commit stores and reports, row by row. `AppendCalls` gives the exact outcome of a call that runs alone from any
reachable state, and `DecisionKeys` says when two decisions share a key. `SqliteBackend` is the backend as a class whose transactions
write in place and roll back, proved equal to the functions that the protocol uses; `Sessions` is the fold loop and
the session object; `StreamLocks` is the per-stream mutex, proved on its own. The mutex is not part of the step
system, because it only takes schedules away.

**Request replay.** `Canonical` is the canonical JSON text of a payload, and the proof that a text has one reading, so
two payloads share a text exactly when they differ in nothing that JSON text shows. `JsonReader` is a reader from the
grammar of RFC 8259 that reads each such text back, and `CanonicalPayload` says what the value that it reads shows of the
payload. `Replay` is the ledger of claims and the replay policies over whole runs.

**Compilers and scanners.** `Regex` parses the regex subset that the compilers emit. `Globs` holds the two glob
compilers, each proved to emit a text that means its glob. `ScanRoots` walks ownership globs over a directory tree.
`CheckEvaluator` splits a diff and evaluates check trees. `Tokenizer` is the quote-aware tokenizer, proved equal to a
grammar. `SuiteReports` cuts JSON objects out of a noisy stdout and gives a fail-closed verdict.

**State machines and graph code.** `PickFields` copies parts of an object graph in place, on the heap.
`Registration` checks `extends` chains, orders workflows and rolls a failed call back. `FollowStream` is the
inspect-follow stream. `Layers` is the layer census. `Catalog` is the override clamp and the catalog pipeline.
`Texts` and `Wrappers` are shared helpers.

Where the code differs from what its documentation suggests, the model follows the code, and a lemma names the failing
input and another the exact condition:

- a file named like the read part of a glob is not covered: `ScanRoots.FileNamedLikeThePrefixIsMissed`,
  `ScanRoots.CoveredIff`, `ScanRoots.ScannedIff`;
- a hunk line that starts with `--- `, such as a deleted SQL comment, cuts the section of its file, and what follows counts
  under every glob; a hunk line `+++ b/x` gives the section another path:
  `CheckEvaluator.DeletedCommentOpensASection`, `CheckEvaluator.OneSectionPerFile`;
- a failed registration can take away a guard of an earlier call, or leave a trimmed type name:
  `Registration.EarlierGuardIsLost`, `Registration.TrimmedTypeStays`, `Registration.RestoredIffRestorable`;
- a colon in a reducer id gives two operations one key, so the second decision stores nothing:
  `DecisionKeys.ColonCollides`, `DecisionKeys.KeysAgreeIff`;
- a keyed append on the reserved stream blocks a once-only operation with a digest mismatch:
  `AppendTheorems.OnceCanBeBlocked`, `AppendTheorems.OnceMismatchIff`;
- an `any-of` with no child passes: `CheckEvaluator.EmptyAnyOfPasses`, `CheckEvaluator.NoFindingIffPasses`;
- a double star does not cross a line terminator: `Globs.ExactOnEveryPathIffNoDoubleStar`;
- an sdlc entry whose own file gives it a `disable` floor can be removed: `Catalog.RemovedIff`.

## Model

| member | source | states |
|---|---|---|
| AppendTheorems.EveryRunIsSequential | src/events/atomic-appender.ts:435-747 | after any schedule of any number of appenders and calls, the streams and the claims are those of a sequential run of atomic decisions in commit order |
| AppendTheorems.CommitOrderIsRealTimeOrder | src/events/atomic-appender.ts:371-425 | that order respects real time: a call invoked after a commit commits later |
| AppendTheorems.CommittedDecideSawItsPrefix | src/events/atomic-appender.ts:573-747 | a committed `decide` or `withSession` stored exactly the events that its closure made of the fold of the log right before them, in their order and with their own members, and reports those rows |
| AppendTheorems.NoOpSawTheWholeLog | src/events/atomic-appender.ts:601-627 | a no-op is an empty decision on the whole log at its fold, and with enforced consistency the log was the same at the re-read |
| AppendTheorems.EnforcedNoOpIsAReRead | src/events/atomic-appender.ts:601-619 | an enforced no-op comes from the tail re-read and from no other step, and at that step the tables read exactly as the log that the closure answered with nothing |
| AppendTheorems.OnlyCommitsStore | src/events/atomic-appender.ts:693-700 | a call that did not end in a fresh commit (it threw, failed, hit a claim or did nothing) stored no row |
| AppendTheorems.StreamsCountFromOne | src/events/atomic-appender.ts:927-960 | in every reachable state a stream reads as sequences 1 to n in log order, and n is its high-water mark |
| AppendTheorems.CommitsAreBlocks | src/events/atomic-appender.ts:927-1013 | each commit is one contiguous block of its stream, and no later step changes it |
| AppendTheorems.KeyCommitsOnce | src/events/atomic-appender.ts:909-925 | at most one commit ever takes a (stream, key) or an operation id, among all appenders and interleavings |
| AppendTheorems.KeyHasOneReceipt | src/events/atomic-appender.ts:963-1058 | every success under one stream and key, committed or cache hit, reports the same sequences, event ids and timestamps, and only one call reports a commit |
| AppendTheorems.RetryHitsTheClaim | src/events/atomic-appender.ts:909-925 | once a key is taken, a later append under it is a cache hit of that commit, whatever it wants to store |
| AppendTheorems.LoserReadsTheWinner | src/events/atomic-appender.ts:1027-1058 | of two callers that both missed the lookup, the loser stores nothing and its re-read returns the receipt of the winner |
| AppendTheorems.OnceCommit | src/events/atomic-appender.ts:435-562 | a successful `decideOnce` returns the result of a commit of its operation under its digest, decided atomically on the streams of that moment |
| AppendTheorems.OnceHasOneResult | src/events/atomic-appender.ts:435-562 | one operation id has at most one committed decision; every success returns its result, and a call with another digest never succeeds |
| AppendTheorems.OnceLoserReadsTheWinner | src/storage/sqlite-backend.ts:1351-1386 | a `decideOnce` that passed the unlocked lookup and lost the race stores nothing, and succeeds exactly under the digest of the winner |
| AppendTheorems.AppendBlocksOnce | src/storage/sqlite-backend.ts:1094-1131 | a keyed append on the reserved stream takes an operation id for good: no `decideOnce` of it succeeds |
| AppendTheorems.OnceMismatchIff | src/storage/sqlite-backend.ts:1351-1386 | `decideOnce` reports a digest mismatch, at the unlocked lookup and at the transaction alike, exactly when some commit holds its id and is not a decision under its digest |
| AppendTheorems.OnceCanBeBlocked | src/storage/sqlite-backend.ts:1094-1131 | for every operation id there is a run in which `decideOnce` fails with a digest mismatch although no decision was ever committed |
| AppendTheorems.HookRunsOncePerCommit | src/events/atomic-appender.ts:365-400 | every commit has one call, whose hook run is either pending, and then added by its next notification, or in the list of runs once; and every run belongs to a commit |
| AppendOutcomes.EveryOutcomeIsAtomic | src/events/atomic-appender.ts:435-1058 | every call that ended, in any schedule, has one step between its invocation and its end at which its operation, run alone on the streams and claims of that moment, gives its outcome: a commit, a cache hit, an enforced no-op, a once-only result, a conflict, a digest mismatch; and no failure stores anything |
| AppendOutcomes.EffectsRespectRealTime | src/events/atomic-appender.ts:371-425 | these steps respect real time: a call that ended before another was invoked took effect before it |
| AppendOutcomes.ReportedConflictIsTrue | src/storage/sqlite-backend.ts:1223-1234 | when a call reports a sequence or concurrency conflict, `actual` is the mark of its stream at the step that ended it, and differs from `expected` |
| CommittedRows.CommitStoresItsEvents | src/events/atomic-appender.ts:927-1013 | in every schedule, the step that commits a call puts its events at the end of its stream in the given order, each with the next sequence, its body, its given timestamp or else the clock of its stamp, its uuid and the key of the call; nothing else changes, and the receipt reports the sequence, id and timestamp of each of these rows; the same for `decide` and `decideOnce`, with the events that the closure gave |
| CommittedRows.StreamIdIff | src/contract/shared/validation.ts:28-52 | a stream id is valid exactly when it is one segment, or two with one slash between them, of letters, digits, dashes, dots and underscores, and no segment is a dot or two dots |
| AppendCalls.AppendAlone | src/events/atomic-appender.ts:876-1013 | from every reachable state, an append with no other call between its steps ends in exactly one outcome: an error for a malformed request, the claim of a taken key, a sequence conflict, or else a commit of its events |
| AppendCalls.DecideAlone | src/events/atomic-appender.ts:573-747 | the same for `decide` and `withSession`: refused options, an unknown reducer, a closure that throws, no events, a bad stream, a taken key, or else a commit of the events that the closure gives on the whole log |
| AppendCalls.DecideOnceAlone | src/storage/sqlite-backend.ts:1351-1470 | the same for `decideOnce`: an answer or a mismatch from the claim, an invalid decision, a concurrency error, or else a commit that returns the result of the decision and leaves its claim |
| AppendCalls.FiveBusyAttempts | src/events/atomic-appender.ts:963-1013 | a call that starts to write survives four busy attempts, and the fifth ends it with a busy storage and no row |
| AppendCalls.GateBeforeClaim | src/storage/sqlite-backend.ts:1248-1335 | an attempt on a stale sequence reports the conflict, also when its key was taken meanwhile |
| AppendCalls.FaultEnds | src/events/atomic-appender.ts:897-912 | a fault before the end of a call ends it with an error and stores nothing |
| DecisionKeys.DecisionCommitsIff | src/events/atomic-appender.ts:629-656 | a decision alone whose closure gives events commits if and only if no commit holds its key: no append under that text, no once-only decision of that id on the reserved stream, and no earlier decision with the same key |
| DecisionKeys.KeysAgreeIff | src/events/atomic-appender.ts:629-632 | two decisions on one stream have one key exactly when reducer and operation id join to one text, or, without operation ids, kind, reducer and uuid do, or, across the two, on a stream named like the kind |
| DecisionKeys.NewDecisionCommits | src/events/atomic-appender.ts:629-656 | with no colon in a reducer id, an ordinary stream name and no append under the text of the key, a decision with a new operation id, or a new uuid, commits |
| DecisionKeys.ColonCollides | src/events/atomic-appender.ts:629-632 | the failing case: the operation `b:d` of reducer `a` and the operation `d` of reducer `a:b`, one after the other; the second is a cache hit of the first |
| AppendSafety.RunKeepsInv | src/events/atomic-appender.ts:435-1058 | the invariant of tables, claims, history and calls holds after every schedule |
| EventTables.GrowDense | src/storage/sqlite-backend.ts:1248-1335 | a committed block keeps the sequences of every stream exactly 1 to its high-water mark |
| EventTables.GrowQuery | src/storage/sqlite-backend.ts:868-931 | after a commit, its stream reads as before with the block at its end, and every other stream reads as before |
| EventTables.DenseNeverCollides | src/storage/sqlite-backend.ts:1223-1234 | on the reachable tables the gate always gives free sequences, so the strict inserts never fail on a row |
| SqliteBackend.RetryReportsStoredRows | src/events/atomic-appender.ts:927-1013 | whatever appends and once-only decisions other connections commit between busy attempts, each of which can run `finalize` again, a success reports rows that are in the table |
| SqliteBackend.Backend.AllocateSequence | src/storage/sqlite-backend.ts:1223-1234 | the gate returns the old mark, and advances it exactly when the expected sequence is absent or equal to it |
| SqliteBackend.Backend.InsertAll | src/storage/sqlite-backend.ts:1248-1335 | the strict inserts store all rows, or none when a key is taken |
| SqliteBackend.Backend.AppendTransaction | src/storage/sqlite-backend.ts:1248-1335 | one append attempt, written in place with a rollback, has the outcome and the tables of the atomic transaction of the protocol |
| SqliteBackend.Backend.OnceTransaction | src/storage/sqlite-backend.ts:1351-1470 | one `decideOnce` attempt looks the claim up first and otherwise writes claim and rows as one atomic step |
| SqliteBackend.Backend.AtomicAppend | src/events/atomic-appender.ts:963-1013 | the retry loop with the captured `persisted` gives the result and the tables of the retry function |
| Sessions.FoldIsTheRun | src/events/atomic-appender.ts:580-592 | the fold is the last state of the run that starts at the initial state and applies the rows from first to last |
| Sessions.FoldStream | src/events/atomic-appender.ts:580-592 | the loop computes the fold of the rows and the tail version |
| Sessions.RunSession | src/events/atomic-appender.ts:668-712 | a session yields the events queued before its closure ended, in order; a throwing closure yields nothing; and every append after the end is refused |
| StreamLocks.OneSectionPerStream | src/events/atomic-appender.ts:281-301 | under every schedule at most one section of a stream runs |
| StreamLocks.SectionsRunInArrivalOrder | src/events/atomic-appender.ts:281-301 | a section starts only after every earlier caller of its stream left |
| StreamLocks.EntryIffHeldOrAwaited | src/events/atomic-appender.ts:293-300 | a stream has a map entry exactly when it has a holder or a waiter |
| StreamLocks.OldestCanRun | src/events/atomic-appender.ts:290-300 | no caller is stranded: the oldest caller that has not left runs or can start, also after a section that threw |
| StreamLocks.ArrivalWaits | src/events/atomic-appender.ts:281-290 | an arrival adds one waiting caller of its stream after all others |
| StreamLocks.EveryCallerCanFinish | src/events/atomic-appender.ts:281-301 | no deadlock: from every reachable state there is a schedule in which every caller leaves and the map is empty |
| StreamLocks.StreamLockManager.LeaveSection | src/events/atomic-appender.ts:293-300 | leaving resolves the ticket and clears the map entry only when no later caller came, as the step of the mutex says |
| Canonical.TextHasOneReading | src/contract/request-context.ts:79-86 | JSON text is read in one way: equal texts of two canonical values mean equal values |
| Canonical.CanonicalIffSame | src/contract/request-context.ts:88-99 | two payloads have one canonical value exactly when they differ only in member order, undefined members and items, numbers that JSON cannot write, and a `__proto__` member |
| Canonical.TextsAgreeIffSame | src/contract/request-context.ts:79-99 | the same for the canonical texts, with `undefined` itself apart |
| Canonical.SortKeeps | src/contract/request-context.ts:91-93 | sorting orders the members by name and keeps every lookup |
| JsonReader.TextParsesBack | src/contract/request-context.ts:79-86 | a reader of the JSON grammar reads the text of every canonical value back as that value |
| JsonReader.EscapesAreShortest | src/contract/request-context.ts:79-86 | each character of a string is written with the shortest text that reads as it, and with small hexadecimal digits |
| CanonicalPayload.CanonicalTextShows | src/contract/request-context.ts:79-99 | the canonical text of every payload but `undefined` parses to a value that shows it: each truth value, number and text as it is, the items one by one, and exactly the members that are not undefined and not `__proto__`, in property order |
| CanonicalPayload.IndexIff | src/contract/request-context.ts:94-96 | the names that the host language puts first are exactly the shortest decimal texts of the numbers up to 4294967294 |
| CanonicalPayload.IndexOrderIsNumeric | src/contract/request-context.ts:94-96 | and these are in the order of their numbers |
| Replay.IdentityIs | src/contract/request-context.ts:102-128 | an empty key has no identity and `undefined` has no digest; any other request is bound to its key, its subject and the hash of its canonical text |
| Replay.ReplayLedger.Claim | src/contract/request-context.ts:153-191 | a claim has the outcome of its case, adds a claim exactly when it executed, and runs the executor exactly when it executed or threw |
| Replay.ReplayLedger.ApplyReplayPolicy | src/contract/request-context.ts:214-233 | each policy has its outcome, its effect on the claims and its run of the executor |
| Replay.RunCalls | src/contract/request-context.ts:150-233 | a ledger object serves a list of calls with the outcomes that the theorems speak about |
| Replay.CompletesOnce | src/contract/request-context.ts:150-233 | for one key at most one call under `claim-required` or `reject-replay`, mixed, completes |
| Replay.OneResultPerKey | src/contract/request-context.ts:150-233 | all executed and replayed outcomes of a key carry one result, subject and digest |
| Replay.LaterCallNeverRuns | src/contract/request-context.ts:168-190 | after a completed call, a later one is refused under `reject-replay`, and under `claim-required` it is a subject conflict, a payload conflict or a replay, in that order |
| Replay.RunsIffNoneCompleted | src/contract/request-context.ts:156-164 | a bound call runs exactly when no bound call of its key completed before, so a throw leaves the key free |
| Replay.RetryIsReplayIffSamePayload | src/contract/request-context.ts:102-128 | a same-subject retry is a replay when the payloads differ in nothing that counts, and, for a hash that tells the two texts apart, only then |
| Regex.DotTakes | src/architecture/glob-to-regexp.ts:28-31 | the dot of an emitted regex takes every character but the four line terminators |
| Regex.OnlyTheSubsetIsRead | src/architecture/glob-to-regexp.ts:30-40 | an accepted source is anchored at both ends, and an unescaped mark that starts no token of the subset is not read as a literal |
| Regex.ParseRender | src/architecture/glob-to-regexp.ts:30-40 | escaping is complete: the parser reads the emitted text of any token list back as that list |
| Globs.GlobToRegExp | src/architecture/glob-to-regexp.ts:18-43 | for every pattern and every path with no line terminator, the emitted regex accepts the path exactly when the glob means it |
| Globs.ExactOnEveryPathIffNoDoubleStar | src/architecture/glob-to-regexp.ts:18-43 | on all paths the regex is exact if and only if the glob has no double star |
| Globs.TestNameRegExp | src/config/verification-profile.ts:190-205 | the second compiler emits the text of its token list, and accepts what that list matches |
| Globs.TestNamesAreGlobMatches | src/config/verification-profile.ts:184-205 | its language is inside that of the first compiler, and equal unless the glob ends in a single star |
| Globs.FinalStarTakesOneExtension | src/config/verification-profile.ts:190-205 | with a final single star it accepts exactly a match of the rest and then a run with no slash and no dot |
| Globs.TestNameIff | src/config/verification-profile.ts:167-205 | a file with no line terminator in its path has a test name exactly when some glob of the list, whose last segment holds a star and is not a double star, means the file; a single star that ends the glob takes neither a slash nor a dot |
| Globs.TestNameMatchesItsGlob | src/config/verification-profile.ts:172-183 | a file with a test name matches a glob of the list whose last segment holds a star |
| ScanRoots.SegmentMatcher | src/config/boundary-adapters.ts:208-216 | the emitted regex accepts an entry name exactly when the segment means it |
| ScanRoots.ScanRootsOfGlob | src/config/boundary-adapters.ts:224-249 | the walk returns exactly the existing paths that match the read segments and are directories, or the file at the end of the glob |
| ScanRoots.CoveredIff | src/config/boundary-adapters.ts:219-249 | a selected file lies at or below a root of its glob if and only if the walk reads the whole glob or the file has more names than the walk reads |
| ScanRoots.FileNamedLikeThePrefixIsMissed | src/config/boundary-adapters.ts:230-293 | the failing case: a double star after `src` selects a file `src`, and no returned root holds it |
| ScanRoots.DotGlobHasTheSameRoots | src/config/boundary-adapters.ts:224-231 | `./` before a glob changes none of its roots |
| ScanRoots.SegmentsAreNames | src/config/boundary-adapters.ts:227 | empty and dot segments between the names of a glob are no segments |
| ScanRoots.StopIff | src/config/boundary-adapters.ts:184-232 | the walk reads up to the first segment that is a double star or holds a bracket, a brace, a parenthesis or an exclamation mark |
| ScanRoots.FirstPartyScanRoots | src/config/boundary-adapters.ts:275-293 | the scope holds, sorted, exactly the roots with no root of any glob above them, and the dropped, negated and widened globs in order |
| ScanRoots.InsideIsBelow | src/config/boundary-adapters.ts:286-287 | on names, the text test for a root inside another is the test for an ancestor directory |
| ScanRoots.RootsAreCovered | src/config/boundary-adapters.ts:275-293 | every root of every glob lies at or below a returned root |
| ScanRoots.RootsAreAnAntichain | src/config/boundary-adapters.ts:284-287 | no returned root lies inside another, and different roots have different texts |
| ScanRoots.ScannedIff | src/config/boundary-adapters.ts:224-293 | for any list of globs, an existing file lies at or below a returned root if and only if some accepted glob matches its names as far as the walk reads, and the walk reads the whole glob or fewer segments than the file has names |
| CheckEvaluator.SplitDiffByFile | src/architecture/check-evaluator.ts:37-69 | the bodies concatenate to the diff and one line feed |
| CheckEvaluator.PathOfIff | src/architecture/check-evaluator.ts:59-62 | a line gives a path exactly when it is `+++ b/` and a path that is not empty and has no line terminator |
| CheckEvaluator.OneSectionPerFile | src/architecture/check-evaluator.ts:37-69 | a git diff with any hunks splits into one section for each file, under the path of a changed file and with no path for any other, if and only if no hunk line starts with `diff --git `, none of a changed file starts with `--- `, and the last `+++ b/` line in the hunks of a file, if any, has its own path |
| CheckEvaluator.OldHeaderInHunks | src/architecture/check-evaluator.ts:50-66 | a `--- ` line in the hunks of a changed file cuts its section in two, and the second one has no path |
| CheckEvaluator.DeletedCommentOpensASection | src/architecture/check-evaluator.ts:72-88 | the failing case: a SQL file whose comment `-- old note` is deleted; the lines from there on count under a glob that leaves the file out |
| CheckEvaluator.CountMatches | src/architecture/check-evaluator.ts:72-88 | the count is the sum over the sections that the glob does not exclude |
| CheckEvaluator.ScopesResolve | src/architecture/check-evaluator.ts:155-208 | a tree has the findings of the scope-free tree whose leaves carry their effective globs and whose skipped subtrees are empty `all-of` |
| CheckEvaluator.CountIsTheTotal | src/architecture/check-evaluator.ts:72-88 | the count is the running total of the matches over the sections that the glob keeps, and zero exactly when none of them has a match |
| CheckEvaluator.LeafFindings | src/architecture/check-evaluator.ts:91-131 | a grep leaf has a finding exactly when a section that its effective glob keeps has a match; any other leaf exactly when the total of the matches is above its threshold, or above zero without one; the finding carries the kind, the effective glob and the pattern |
| CheckEvaluator.FindingsJoin | src/architecture/check-evaluator.ts:155-208 | an `all-of` reports the findings of its children in order, and an `any-of` that fails reports those of all children |
| CheckEvaluator.NoFindingIffPasses | src/architecture/check-evaluator.ts:136-208 | every node, under every scope and phase, has no finding on a diff if and only if it is true of the sections with each empty `any-of` taken as true |
| CheckEvaluator.TreePassesIffMeaning | src/architecture/check-evaluator.ts:210-216 | a tree with no empty `any-of` has no finding on a diff if and only if its boolean meaning is true of the sections |
| CheckEvaluator.EmptyAnyOfPasses | src/architecture/check-evaluator.ts:169-175 | the failing case: an `any-of` with no child has no finding, and its boolean meaning is false |
| Tokenizer.TokenizeCommand | src/config/tokenize-command.ts:24-76 | the loop gives the outcome of the scanner |
| Tokenizer.TokenizeIsTheGrammar | src/config/tokenize-command.ts:24-76 | on every input the outcome is the one that the grammar of pieces gives: the words, an open quote, or a trailing escape |
| Tokenizer.JoinedCommands | src/config/tokenize-command.ts:58-66 | two commands with white space between them give the words of both |
| Tokenizer.QuotedTokensComeBack | src/config/tokenize-command.ts:24-76 | a token list with every character escaped, joined with spaces, tokenizes back to itself |
| SuiteReports.TopLevelSpans | src/config/suite-reports.ts:57-95 | the scanner loop finds the spans of its state function |
| SuiteReports.VitestJsonCandidates | src/config/suite-reports.ts:52-101 | the candidates are the trimmed stream and the spans, last first, without the stream |
| SuiteReports.NeutralValue | src/config/suite-reports.ts:63-95 | inside an object, any complete JSON value leaves the scanner as it was, whatever braces its strings hold |
| SuiteReports.ObjectIsACandidate | src/config/suite-reports.ts:43-101 | after text with no opening brace and no quote, a complete JSON object is a candidate, whatever follows it |
| SuiteReports.ParseVitestDocument | src/config/suite-reports.ts:110-169 | the loop and its counters give the verdict function |
| SuiteReports.PassesIffNothingFailed | src/config/suite-reports.ts:104-169 | a report passes if and only if neither failure counter holds a number above zero and no failed result is without assertions; each reported counter is the number of its field if that is at least zero, and else zero |
| SuiteReports.ReportIff | src/config/suite-reports.ts:118-132 | a document is a report exactly when it is an object with a number in one of the three counters |
| SuiteReports.LoadFailuresAre | src/config/suite-reports.ts:149-158 | the load failures are the failed results without assertions; if there are none, the failed suites that no failed result explains; and else all failed suites when no test failed |
| SuiteReports.ResultsAreTakenInOrder | src/config/suite-reports.ts:137-147 | the failed results are named and counted one by one in their order |
| SuiteReports.ParseVitestResult | src/config/suite-reports.ts:171-183 | the reader gives the verdict on the first candidate that is a report |
| SuiteReports.ReportIsFound | src/config/suite-reports.ts:171-183 | a preamble, a report and text without braces and quotes: the reader gives the verdict on that report |
| SuiteReports.LastReportWins | src/config/suite-reports.ts:52-101 | in a stream of objects with text between them, the last object that is a report gives the verdict |
| PickFields.PickFields | src/format.ts:500-537 | the source is unchanged, the result is new, and it is a pick of the source by the requested fields |
| PickFields.CopyIsPick | src/format.ts:500-537 | a path exists in the copy exactly when it exists in the source and leads to, is or lies below a requested one; at or below a requested path the values are the same |
| PickFields.PicksAre | src/format.ts:499-505 | the picked paths are exactly those whose names, joined with dots, are a requested field, that exist, and that hold none of the three prototype names |
| PickFields.RequestedIsPicked | src/format.ts:496-499 | every such path is in the result with its value |
| PickFields.PrototypeNamesAreRefused | src/format.ts:490-505 | a field with a prototype name at any position adds nothing |
| PickFields.PickIsIdempotent | src/format.ts:500-537 | a second pick has the same paths, with the same value or an object for an object |
| PickFields.Place | src/format.ts:508-533 | rebuilding one path keeps the source, also where the walk enters a shared subtree |
| Registration.CycleCheck | src/config/validation.ts:145-160 | the check accepts a config exactly when every `extends` chain ends |
| Registration.OrderIsParentFirstIffAcyclic | src/config/register.ts:63-87 | on any config the sort ends with each workflow once, and each parent is first if and only if the cycle check accepts |
| Registration.Sorter.Visit | src/config/register.ts:72-81 | the nested visit fills its set and its list as the visit function does |
| Registration.ParentIsConvertedFirst | src/workflow/state-machine.ts:333-342 | in an accepted config each parent of the config has its state machine when its child is converted |
| Registration.RegisterCustomWorkflows | src/config/register.ts:94-144 | the loops and the rollback, run on the registries, end in the tables and the verdict that the functions of the call give |
| Registration.SuccessRegistersAll | src/config/register.ts:101-127 | a call that succeeds leaves each workflow converted with those before it in the order, and each phase, type, guard and event under its name |
| Registration.FailureRollsBack | src/config/register.ts:128-143 | a call that fails leaves the tables before it, without the names that it had registered |
| Registration.RestoredIff | src/config/register.ts:129-143 | one rollback restores every registry if and only if nothing it had registered replaced an older entry and each type name is stored as given |
| Registration.RestoredIffRestorable | src/config/register.ts:94-143 | for every call: a failing call restores every registry, whatever else makes it fail and wherever, if and only if everything is new that it can have registered by then; the condition reads the config, the registries and the built-in names before the call |
| Registration.RestoredIffNewNames | src/config/register.ts:94-143 | when each name can be listed, none is the trimmed form of another and no event stops the call, a call with one more event restores every registry under every host if and only if the workflow names, guard keys and event names are new and each type name is stored as given or its trimmed form was there |
| Registration.NewNamesAreRestored | src/config/register.ts:128-143 | with new names, whatever makes the call fail and wherever, all registries are as before the call |
| Texts.TrimIs | src/workflow/schemas.ts:268-269 | a trimmed text is the text without the white space at its two ends |
| Registration.KebabIff | src/workflow/schemas.ts:268-276 | a name has the form that the type list takes exactly when it splits at dashes into words of lower-case letters and digits |
| Registration.KeysAreApart | src/workflow/schemas.ts:268-276 | guards of two accepted workflow names never share a key |
| Registration.EarlierGuardIsLost | src/config/register.ts:111-143 | a failing run: after a success and a failure for one name, a failing call whose workflow is new again takes the guard of the first call away |
| Registration.TrimmedTypeStays | src/workflow/schemas.ts:268-284 | a failing run: a name with a space before it leaves its trimmed form in the type list |
| FollowStream.RunInspectFollow | src/cli/follow-loop.ts:246-310 | the frames that the stream object gives to the sink are exactly those that the inputs call for, in order |
| FollowStream.FrameMeans | src/cli/follow-loop.ts:246-310 | each input has the frame that it calls for: an event frame for exactly the running maxima above the cursor before a stop, an end frame for the first stop, and a heartbeat exactly for a tick with no event frame since the tick before |
| FollowStream.SinkIsCalled | src/cli/follow-loop.ts:246-310 | after any number of inputs, the frames of the state machine are those that the inputs call for |
| FollowStream.FramesRiseAndEnd | src/cli/follow-loop.ts:246-310 | event frames rise strictly above the cursor, and nothing follows an end frame |
| Layers.LayerOf | src/architecture/layer-boundaries-seam.ts:92-101 | the layer is the longest declared prefix, else the first directory, else the root layer |
| Layers.LayerIsUnique | src/architecture/layer-boundaries-seam.ts:85-101 | the layer does not depend on the order of the declared ids |
| Layers.MovesCompose | src/architecture/layer-boundaries-seam.ts:121-134 | path resolution composes: one path after another moves as the composition of their moves |
| Layers.ResolveTarget | src/architecture/layer-boundaries-seam.ts:121-135 | the stack loop resolves a specifier as the move of its parts from the directory of the module |
| Layers.UndefinedIff | src/architecture/layer-boundaries-seam.ts:121-134 | the target is undefined exactly for a specifier that is not relative, that leaves the root at some point of its path, or that names the root |
| Layers.TargetNamesItsPath | src/architecture/layer-boundaries-seam.ts:133-135 | the target spells the path that the specifier resolves to, with an extension js, jsx, mjs or cjs of its last name mapped to ts, and any other last name as it is |
| Layers.SiblingIsItsSource | src/architecture/layer-boundaries-seam.ts:121-135 | from a module in any directories, `./c.js` is `c.ts` in the same directories, for every stem and each of the four extensions |
| Layers.DetectLayerEdges | src/architecture/layer-boundaries-seam.ts:144-164 | the edges are real cross-layer imports with distinct keys, and every cross-layer specifier has its key among them |
| Layers.EdgesAreExact | src/architecture/layer-boundaries-seam.ts:144-164 | without NUL characters in targets, the edges are exactly those of the specifiers that leave the layer, one for each specifier |
| Layers.RunLayerBoundaryCensus | src/architecture/layer-boundaries-seam.ts:215-263 | the diagnostics are the forbidden edges and then the stale allowances, and the verdict is ok exactly when there are none |
| Layers.CensusIsExact | src/architecture/layer-boundaries-seam.ts:215-263 | the census is ok if and only if every row allows only reached targets and the last row of a layer allows every reached target |
| Layers.DistinctRowsAreExact | src/architecture/layer-boundaries-seam.ts:215-263 | with one row for each layer, it is ok if and only if each row allows exactly the targets that its edges reach |
| Catalog.ApplyOverrides | src/architecture/catalog-merge.ts:154-216 | every entry is clamped by its override, in order, with the warnings in order |
| Catalog.SubstrateStays | src/architecture/catalog-merge.ts:113-212 | a substrate entry of a dev source with no floor field of its own is in the effective catalog of every config as it was loaded, and each severity or disable override of it gives its warning |
| Catalog.SubstrateIsImmutable | src/architecture/catalog-merge.ts:174-206 | no override changes such an entry |
| Catalog.OnlyLoweredStays | src/architecture/catalog-merge.ts:174-212 | a dev entry with the floor field `advisory`, or without a floor field and of class sdlc or authoring, stays as it was or advisory in every context, with a warning for each refusal |
| Catalog.FreeGoesIff | src/architecture/resolve-effective-catalog.ts:150-155 | an entry with the floor field `disable`, or without one and of class user or no class, is gone exactly when the config disables it |
| Catalog.FreeTakesOverrides | src/architecture/catalog-merge.ts:174-212 | such an entry takes every severity override without a warning |
| Catalog.FloorsHold | src/architecture/catalog-merge.ts:174-212 | an entry that a config can only lower is unchanged or flatly advisory after any override, no context gets a higher level, and the warnings are those of its refusals |
| Catalog.UserEntriesAre | src/architecture/resolve-effective-catalog.ts:128-136 | the user layer is every entry of a user source whose id starts with neither `INV-` nor `SDLC-` |
| Catalog.MergedLayers | src/architecture/catalog-merge.ts:97-103 | the merge keeps the order of the layers and of their entries, and gives sdlc and user entries their class |
| Catalog.UserEntryGoesIff | src/architecture/resolve-effective-catalog.ts:128-155 | an entry of a user source with an ordinary id is gone exactly when the config disables it and its floor field is not `advisory` |
| Catalog.RefusedRemovalIsAdvisory | src/architecture/catalog-merge.ts:132-143 | a removal that an advisory floor refuses makes the entry advisory in every context, whatever severity maps it had |
| Catalog.SeverityIsGrantedIff | src/architecture/catalog-merge.ts:177-196 | a severity override holds in every context exactly when the entry is free by its field and class, when it only lowers one that a config can lower, or when the entry has that level everywhere |
| Catalog.ClampAllIsIdempotent | src/architecture/catalog-merge.ts:154-216 | clamping keeps ids, order and everything but the severity, and clamping twice is clamping once |
| Catalog.ResolveEffectiveCatalog | src/architecture/resolve-effective-catalog.ts:96-157 | no source and no config makes the merge throw; the result is what the clamp and the filter leave of all layers, with every warning and unresolved source |
| Catalog.RemovedIff | src/architecture/resolve-effective-catalog.ts:150-155 | the exact condition, by floor field, layer and class, under which a config removes an entry |
| Catalog.SdlcEntriesStay | src/architecture/resolve-effective-catalog.ts:138-157 | an sdlc entry with no `disable` floor of its own is in the effective catalog of every config |

## Left out

- SQLite itself, the file system, process spawning, git, YAML and Zod parsing, and hashing: they are abstract state or functions that the caller gives. Clocks, UUIDs and random ids are inputs of the steps.
- The per-stream mutex is not part of the step system of `AppendProtocol`. It only removes schedules, and it is proved on its own in `StreamLocks`.
- A closure that changes the array it returned, and payload data that cannot be written as JSON: an event payload is one value.
- Row deletion, compaction and telemetry rotation: the log theorems assume that rows are never deleted.
- The other storage insert path of the backend, which does not use the sequence gate.
- A single-handle claim over a failed open of the backend, and crash recovery.
- Characters are Unicode scalar values and not UTF-16 units, so a surrogate pair counts as one character and sorts by its scalar value.
- User regular expressions in check leaves: a match count for a pattern and a body is a function that the caller gives.
- CheckEvaluator.OneSectionPerFile: the header lines of each file are as git writes them. A diff without `diff --git` lines has only the law of `CheckEvaluator.SplitDiffByFile`.
- Replay.RetryIsReplayIffSamePayload: the conflict direction assumes that the hash tells the two canonical texts apart. An executor that calls the ledger is not modelled.
- PickFields.PickFields: property order, accessors and frozen objects are not modelled. The code writes a shared member back, which throws on a frozen object.
- Globs.GlobToRegExp: the meaning of a path with a line terminator is in `Globs.ExactOnEveryPathIffNoDoubleStar`.
- SuiteReports.ParseVitestDocument: counters are real numbers; a counter that is not finite is not modelled.
- Registration.RegisterCustomWorkflows: how a definition becomes a state machine is a function of the registered ones, and views and tools are not modelled.
- Registration.RestoredIffNewNames: it needs the names to be acceptable and apart; `Registration.RestoredIffRestorable` has no such condition. Both speak of every host, because which definitions convert and which event names are well formed is not part of the model.
- Registration.CycleCheck: the other rules of the config schema (built-in names, unknown parents) are left out; the check is the walk of the chains.
- FollowStream.RunInspectFollow: sinks that throw on an event or end frame are not modelled, and the polling loop of task snapshots is left out.
- Layers.DetectLayerEdges: the lexer that extracts specifiers is an input; two different specifiers share a key only when one holds a NUL character.
- ScanRoots.FirstPartyScanRoots: symbolic links, unreadable directories and case-insensitive file systems are not modelled, and the sort compares scalar values.
- Catalog.ResolveEffectiveCatalog: the projection by phase, workflow type and touched files after it is left out.
- `splitCommand`, envelope wrapping, `stripNullish`, hint sanitizing, the other censuses, and data tables: they would add only easy members.
