# packmon: verified models of its concurrent and parsing core

This project models the parts of packmon where correctness depends on more than
one function, and proves for-all statements about them:

- the server's queue-processor restart protocol, its deferred continuations and
  its shutdown (`QueueProtocol`, `QueueTheorems`, `BackgroundServices`), and the
  gate for manual feed syncs (`ManualSync`);
- the Chocolatey batch-script reader: command tracking, tokenizer, caret
  continuations, redirections and the `choco install` parser
  (`CommandTracking`, `CommandPositions`, `BatchText`, `BatchLexer`,
  `BatchTokenizer`, `BatchWords`, `BatchRedirection`, `BatchInsertion`,
  `ChocoParser`, `PackageArguments`, `PackageWords`, `BatchScript`,
  `ScriptReading`, `BatchTransparency`, `ScriptInsertion`);
- the CLI's registry lookups: single-flight caches, request throttle, failure
  accounting with its breaker, and the worker pool (`SingleFlight`,
  `RegistryThrottle`, `RegistryPhase`, `WorkerPool`);
- admin sessions (`Sessions`), the audit digest chain (`AuditChain`), the
  commit slot of the runtime settings (`RuntimeSettings`) and the layered CLI
  configuration (`ConfigLayers`).

Concurrent code is a state machine: a state holds the fields a mutex or an
atomic guards together with every goroutine's position, a step is one atomic
action of one goroutine, and theorems range over all runs from the initial
state.  Objects whose methods update fields are classes; each such method is
proved to compute a step or a function of the specification.  Clock readings,
cancellations, network replies, digests and environment variables are
parameters or nondeterministic steps.

Verify with `dafny verify dfyconfig.toml`.

## Where the code does not keep the obvious promise

- A physical batch line is held back when the joined text ends on an open caret,
  except that an empty line after a continuation ends the join
  (`BatchScript.EmptyLineEndsJoin`); `BatchScript.HeldBackExactly` is the exact
  condition.
- One live processor generation relies on the root context ending before
  shutdown starts, which the server's shutdown does; in the other order a later
  restart starts a second generation (`QueueTheorems.RootCancelIsNeeded`).
- A single-flight leader that is cancelled while its resolver runs caches its
  failed answer for callers that were not cancelled
  (`SingleFlight.CancelledLeaderSpoilsCache`).  Only the leader's cancellation does
  that (`SingleFlight.LeaderDecides`), and `SingleFlight.SpoiledExactly` says
  exactly when.
- Session cleanup shows in two places: in a flash value of a session that had
  already died, and in a pre-auth reuse whose clock was read before the lock and
  is older than the cleanup's.  `Sessions.CleanupSeenExactly` is the exact
  condition in any trace.
- A redirection inserted between words is not transparent at the end of a line
  that ends on a caret inside an `if` condition (`BatchInsertion.IfCaretDangles`);
  `BatchInsertion.RedirectionTransparent` is the exact condition.  The packages
  reported stay the same even then, but may change for a comment that the text in
  front of the insertion does not make one; `BatchTransparency.PackagesUnchanged`
  is the exact condition.
- An altered audit row whose digest was blanked reads "legacy", not "broken",
  and the newest row of a page can be rewritten together with a fitting digest;
  `AuditChain.AlterationDetected` is the exact condition.

## Model

| member | source | states |
|---|---|---|
| `QueueTheorems.AtMostOneLive` | cmd/packmon-server/background.go:433-588 | in every run at most one generation has not delivered its exit, and it is the newest; every older exit was received exactly once |
| `QueueTheorems.RootCancelIsNeeded` | cmd/packmon-server/main.go:499-508 | a run with shutdown before the root context ends reaches two running generations, so the order in the shutdown code is needed |
| `QueueTheorems.ChannelsUsedOnce` | cmd/packmon-server/background.go:462-533 | every done and forward channel is sent to and received from at most once, no send blocks, and a continuation never blocks on its own channel under the mutex |
| `QueueTheorems.TracksAtMostOne` | cmd/packmon-server/background.go:513-533 | before shutdown the tracking list holds exactly the tracked channel, which is the only one nobody has read or waits for |
| `QueueTheorems.NoReplacementLost` | cmd/packmon-server/background.go:441-511 | while the root lives and the mutex is free, either a start attempt followed the latest restart request, from settings at least as new, or exactly one pending continuation is to make it, never both; an uncancelled generation exists only in the first case |
| `QueueTheorems.RestartReplaces` | cmd/packmon-server/background.go:442-451 | the finish of a restart, with the root alive, starts and tracks an uncancelled generation from the settings it holds, or starts none exactly when there is nothing to run or building fails |
| `QueueTheorems.EveryAttemptStarts` | cmd/packmon-server/background.go:433-588 | in every run there are as many generations as attempts whose build gave workers, and if the latest attempt did, the newest generation has its settings and is tracked and uncancelled unless a restart or the shutdown has come since |
| `QueueTheorems.RunCounts` | cmd/packmon-server/background.go:433-588 | settings versions and requests count the changes and the restarts of the run, the root and the shutdown are as its steps left them, and settings may change at any time |
| `QueueTheorems.PendingProgress` | cmd/packmon-server/background.go:477-511 | once its generation returned and while the mutex is free, a pending continuation or its generation can step, and at most three such steps lead to its start attempt |
| `QueueTheorems.ProgressKept` | cmd/packmon-server/background.go:433-511 | no step of any goroutine sets a continuation back |
| `QueueTheorems.PendingReplaces` | cmd/packmon-server/background.go:477-511 | the critical section of a pending continuation whose result is published can run, and attempts a start from the current settings |
| `QueueTheorems.RestartRetiresOldSettings` | cmd/packmon-server/background.go:433-451 | after a restart request no uncancelled generation runs on older settings, whatever happens later |
| `QueueTheorems.SnapshotStaysReadable` | cmd/packmon-server/background.go:648-666 | each channel shutdown still has to read is unread and holds a value or has a live sender |
| `QueueTheorems.DrainProgress` | cmd/packmon-server/background.go:648-666 | once all processors returned, some step that needs no mutex is possible until the loop has read its last channel |
| `QueueTheorems.ShutdownFinishes` | cmd/packmon-server/background.go:648-666 | the number of such steps in any run is bounded, and when none is left the loop is done |
| `QueueProtocol.StepInv` | cmd/packmon-server/background.go:433-588 | every step of every goroutine keeps the invariant tying the tracked fields to the open channels, cancelled generations and settings versions |
| `QueueProtocol.StartInv` | cmd/packmon-server/background.go:559-588 | starting with nothing tracked keeps it, because every earlier exit has been received |
| `QueueProtocol.RestartTimeoutInv` | cmd/packmon-server/background.go:462-475 | deferring a restart that missed its deadline keeps it, with one continuation reading the old channel |
| `QueueProtocol.ContFinishInv` | cmd/packmon-server/background.go:477-511 | a continuation that takes its exit back, or finds it taken over, keeps it |
| `BackgroundServices.Services.StopQueueProcessorLocked` | cmd/packmon-server/background.go:513-521 | cancels the tracked generation, returns its channel and stops tracking it |
| `BackgroundServices.Services.RemoveQueueDoneLocked` | cmd/packmon-server/background.go:523-533 | removes the first occurrence of the channel from the tracking list and nothing else |
| `BackgroundServices.Services.StartQueueProcessorLocked` | cmd/packmon-server/background.go:559-588 | starts and tracks a generation built from the current settings unless the root ended or there is nothing to run; reports build errors |
| `BackgroundServices.Services.DeferQueueRestartLocked` | cmd/packmon-server/background.go:462-475 | keeps the pending continuation or hands the old channel to a new one |
| `BackgroundServices.Services.BeginRestart` | cmd/packmon-server/background.go:433-441 | a restart up to its wait is the protocol's begin step and keeps the invariant |
| `BackgroundServices.Services.EndRestart` | cmd/packmon-server/background.go:442-451 | after the wait it is the finish or the timeout step and keeps the invariant |
| `BackgroundServices.Services.FinishDeferredQueueRestart` | cmd/packmon-server/background.go:477-511 | the continuation's critical section is the protocol's step and keeps the invariant |
| `BackgroundServices.Services.BeginShutdown` | cmd/packmon-server/background.go:648-652 | stops the generation and snapshots the tracking list |
| `BackgroundServices.Services.ReceiveNext` | cmd/packmon-server/background.go:654-666 | a turn of the receive loop, once its channel holds a value, is the protocol's step and keeps the invariant |
| `BackgroundServices.Services.DrainQueues` | cmd/packmon-server/background.go:654-666 | run when all channels of the snapshot hold values, the loop reads each exactly once and no other |
| `ManualSync.GateRun` | cmd/packmon-server/background.go:397-431 | in every run the task count is exact, no waiter sleeps once no task runs, and after a waiter returned no task runs again |
| `ManualSync.GateCounts` | cmd/packmon-server/background.go:397-431 | tasks run as admitted and not ended, the first call to wait closes the gate for good, and a task may always ask to begin |
| `ManualSync.WaiterReturns` | cmd/packmon-server/background.go:421-431 | from any state a caller that waits returns once the tasks that run have ended, at once if there are none |
| `ManualSync.ManualGate.constructor` | cmd/packmon-server/background.go:397-431 | the gate starts open, with no task, in its invariant |
| `ManualSync.ManualGate.BeginManualSyncTask` | cmd/packmon-server/background.go:397-408 | admits a task exactly when shutdown has not closed the gate |
| `ManualSync.ManualGate.EndManualSyncTask` | cmd/packmon-server/background.go:410-419 | counts the task out and wakes all waiters |
| `ManualSync.ManualGate.WaitManualSyncTasks` | cmd/packmon-server/background.go:421-431 | up to its first check: closes the gate and sleeps exactly if a task runs |
| `ManualSync.ManualGate.ResumeWait` | cmd/packmon-server/background.go:421-431 | each further turn of the loop: a woken waiter returns exactly when no task is left |
| `CommandTracking.CommandTracker.Next` | internal/chocolatey/script.go:439-486 | the cached tracker consumes a token as the reference does and reports whether it is a command word |
| `CommandTracking.IfCacheExact` | internal/chocolatey/script.go:419-482 | in every reachable state the cached if-condition result equals recomputing it on the consumed prefix, and once complete its end never moves whatever words follow |
| `CommandTracking.IfScanStable` | internal/chocolatey/script.go:1026-1067 | a completed if condition ends at the same index in every longer line |
| `CommandPositions.ConditionEnds` | internal/chocolatey/script.go:1026-1067 | an `if` condition ends exactly where its grammar says: optional `/i`, optional `not`, then a unary test and its operand, a comparison with both operands, a `==` with or without spaces, or the forms the scan gives malformed tests |
| `CommandPositions.UnfinishedRunsOut` | internal/chocolatey/script.go:1026-1067 | a condition is reported unfinished exactly if no such end exists in the tokens read |
| `CommandPositions.CommandWordsExactly` | internal/chocolatey/script.go:402-508 | a word is a command word exactly if it stands where a command begins, by separators, transparent words, loop headers and finished conditions, and is itself neither transparent nor a `for` or `if` |
| `CommandPositions.StartsExist` | internal/chocolatey/script.go:402-508 | every line has such a set of beginnings |
| `CommandPositions.CommandBehindCondition` | internal/chocolatey/script.go:439-486 | the word behind a finished condition begins a command and no word before it is one |
| `CommandPositions.BlocksOpenExactly` | internal/chocolatey/script.go:488-500 | a block opens exactly in a `for` header whose set has not been opened, where a command may begin, or where an `if` condition has just ended |
| `CommandTracking.TrackPrefix` | internal/chocolatey/script.go:439-486 | the tracker's state depends only on the tokens consumed |
| `CommandTracking.TrackOk` | internal/chocolatey/script.go:402-486 | the invariant of the tracker's fields holds after any line prefix |
| `CommandTracking.OpensAfterSplit` | internal/chocolatey/script.go:930-943 | where the test for a parenthesis after an unfinished `@`, `else`, `do` or `in` succeeds, the tracker opens a block once the word is split off |
| `CommandTracking.SkipWords` | internal/chocolatey/script.go:521-566 | after a command word, consuming further words leaves the tracker idle, so skipping them loses nothing |
| `BatchText.UnquotedEquals` | internal/chocolatey/script.go:1071-1085 | found exactly if some `==` stands where the quote automaton over the text before it is unquoted and unescaped, and the tail flag is about the first such |
| `BatchText.PartMeans` | internal/chocolatey/script.go:1026-1085 | what a raw word is in an `if` condition: a keyword in any letter case, a word with an unquoted `==`, or an operand |
| `BatchText.VerbMeans` | internal/chocolatey/script.go:462-486 | the words the tracker knows, in any letter case and behind an `@` or not |
| `BatchText.LetterCase` | internal/chocolatey/script.go:462-486 | lower-casing and folding take each capital letter to its small one and move two further characters each, as far as comparisons with keywords see |
| `BatchText.BatchVariableEnd` | internal/chocolatey/script.go:982-997 | the end of the percent expression |
| `BatchText.VariableMeans` | internal/chocolatey/script.go:982-997 | a percent expression of two or more characters is taken exactly if a second percent sign closes a name that nothing in between ends and that is no script parameter; any other percent sign stands for itself |
| `BatchText.BatchRedirectionEnd` | internal/chocolatey/script.go:950-972 | the end of the redirection, with quoted and escaped targets and block parentheses |
| `BatchText.TargetMeans` | internal/chocolatey/script.go:950-972 | a redirection's target runs to the first blank, separator or, in a block, closing parenthesis outside quotes and escapes, or to the end |
| `BatchText.HandleMeans` | internal/chocolatey/script.go:628-645 | a redirection's handle is a star or a number |
| `BatchLexer.OnlineTrackerAgrees` | internal/chocolatey/script.go:828-834 | the tracker run while tokenizing and one run over the finished line are in the same state at every token |
| `BatchLexer.LineParens` | internal/chocolatey/script.go:897-908 | every emitted `(` stands where a block opens, no `)` closes more than is open, and the depth handed on is the exact excess |
| `BatchLexer.OpensAfterFlush` | internal/chocolatey/script.go:930-943 | a `(` accepted after a word stands where a block opens once the word is emitted |
| `BatchLexer.OpensAfterExactly` | internal/chocolatey/script.go:930-943 | exactly behind which unquoted words, and where, a `(` opens a block |
| `BatchLexer.StepQuotes` | internal/chocolatey/script.go:828-920 | no step that ends inside the line, also none that jumps over a redirection or a variable, skips a change of quoting or escaping |
| `BatchLexer.TokenizerQuotes` | internal/chocolatey/script.go:828-920 | wherever the loop arrives, its quote flag is that of the plain quote automaton over all text before, with no escape pending |
| `BatchLexer.RedirectionQuotes` | internal/chocolatey/script.go:950-972 | a redirection that ends inside the line leaves the quote automaton unquoted |
| `BatchTokenizer.Tokenizer.Step` | internal/chocolatey/script.go:853-916 | one turn of the loop is one step of the transition system, and the online tracker stays in step with the tokens |
| `BatchTokenizer.Tokenizer.StepCaret` | internal/chocolatey/script.go:867-882 | the unquoted caret |
| `BatchTokenizer.Tokenizer.StepRedirection` | internal/chocolatey/script.go:887-896 | the redirection, which drops a handle word or goes on inside an argument |
| `BatchTokenizer.Tokenizer.StepOpen` | internal/chocolatey/script.go:897-908 | the parenthesis, block opener or literal |
| `BatchTokenizer.TokenizeBatch` | internal/chocolatey/script.go:828-920 | the tokenizer computes the transition system's tokens and depth |
| `BatchWords.LineReadBack` | internal/chocolatey/script.go:828-920 | a line written as words of ordinary characters, escapes, quotations and variables, separators and block parentheses is read as exactly these tokens, each with the text it means and the text as written |
| `BatchWords.ReadStretch` | internal/chocolatey/script.go:853-916 | each stretch of a word adds what it stands for, and protects the word if quoted or escaped |
| `BatchInsertion.RedirectionTransparent` | internal/chocolatey/script.go:828-920 | inserting a blank-delimited redirection, any handle, plain target or duplication, wherever the tokenizer is between words and outside quotes changes nothing, except exactly when the line ends there on a caret inside an open `if` condition |
| `BatchInsertion.IfCaretDangles` | internal/chocolatey/script.go:867-882 | `if ^` is such a line |
| `BatchInsertion.TransparentAfterBlank` | internal/chocolatey/script.go:887-896 | behind a blank outside quotes, also one that ends a word, no further blank is needed in front |
| `BatchInsertion.RedirectionInto` | internal/chocolatey/script.go:950-972 | a redirection that ends before its target or with the line takes nothing of the insertion, or its handle, or all of it |
| `ScriptInsertion.ScriptUnchanged` | internal/chocolatey/script.go:37-68 | in a whole script, inserting into any physical line of a command, wherever its joined logical line is read between words and outside quotes, leaves all reported packages as they were |
| `ScriptInsertion.TailSame` | internal/chocolatey/script.go:179-195 | so does every later physical line that is joined to it |
| `ScriptInsertion.HoldKept` | internal/chocolatey/script.go:216-237 | the insertion does not change whether the line is held back |
| `ScriptInsertion.NothingFollows` | internal/chocolatey/script.go:216-237 | between words and yet behind a continuation caret the tokenizer can only stand if no text is joined to the line |
| `BatchTransparency.PackagesUnchanged` | internal/chocolatey/script.go:313-331 | the insertion leaves the reported packages and the open blocks of every line as they were, except exactly for a comment whose marker is not in front of it and that, read as a command, reports a package or leaves other blocks open |
| `BatchTransparency.ReadingUnchanged` | internal/chocolatey/script.go:521-566 | read as a command, a line reports the same packages with and without it, also where the token list grows |
| `BatchTransparency.ConditionWordIsSilent` | internal/chocolatey/script.go:521-566 | a further word in an open `if` condition that is no choco verb changes no report, since a separator stands behind every earlier command |
| `BatchTransparency.InsertionMakesNoComment` | internal/chocolatey/script.go:334-345 | the insertion never turns a line into a comment |
| `BatchTransparency.CommentExactly` | internal/chocolatey/script.go:334-345 | with the insertion a line is a comment exactly when the text in front of the insertion is one |
| `BatchRedirection.VanishesAtRest` | internal/chocolatey/script.go:950-972 | from any state between words, a redirection and its blank leave no trace |
| `BatchRedirection.DecideMeets` | internal/chocolatey/script.go:950-997 | a step of the tokenizer that ends where a blank is put is taken whatever follows, but for a redirection without its target and a caret at the line's end |
| `ChocoParser.ParseCommand` | internal/chocolatey/script.go:533-566 | reports the entries of the command at a position and skips only argument words |
| `ChocoParser.ParseShaped` | internal/chocolatey/script.go:521-566 | the skipping parser reports what a reading that skips nothing reports; its tracker agrees with an unskipped one at every token it consumes, and the tokens it does not consume are words behind a command word it did |
| `ChocoParser.ParseChocoTokens` | internal/chocolatey/script.go:521-626 | reports exactly the entries of all choco commands in command position |
| `PackageArguments.ArgsMeaning` | internal/chocolatey/script.go:533-560 | the names are, in order, the normalised IDs of exactly the argument words that are neither an option nor the value of one; the version is that of the last `version` option with a value, else empty |
| `PackageArguments.CommandReports` | internal/chocolatey/script.go:533-566 | a command reports each package it names with the version it pins |
| `PackageArguments.LineReports` | internal/chocolatey/script.go:521-567 | an entry is reported exactly if some word in command position is an install or upgrade command whose arguments name the package and pin the version |
| `PackageArguments.OneVersion` | internal/chocolatey/script.go:540-553 | a command pins one version only |
| `PackageWords.ExecutableName` | internal/chocolatey/script.go:607-614 | an executable is known by its lower-case base name, with or without `@`, directory and `.exe` |
| `PackageWords.PlainOption` | internal/chocolatey/script.go:620-626 | an option without `=` or `:` is its lower-case name |
| `PackageWords.ValuedOption` | internal/chocolatey/script.go:620-626 | an option with `=` or `:` carries the text behind the first of them, without the quotes around it |
| `PackageWords.OptionMeans` | internal/chocolatey/script.go:580-582 | a word is an option exactly if it begins with a dash or a slash |
| `PackageWords.CharacterMeans` | internal/chocolatey/config_xml.go:13-18 | the letters, digits and white space of IDs, each listed |
| `PackageWords.IdMeaning` | internal/chocolatey/config_xml.go:17-27 | a word is a package, in lower case and without white space around it, exactly if it has the form of a package ID |
| `PackageWords.VersionMeaning` | internal/chocolatey/script.go:572-578 | a word is a version, without white space around it, exactly if it has the form of one |
| `BatchScript.BatchLineContinues` | internal/chocolatey/script.go:216-237 | true exactly when the quote automaton ends on an open caret and the line is not empty |
| `BatchScript.HeldBackExactly` | internal/chocolatey/script.go:179-237 | a command line is held back exactly when it is not empty and the automaton over the joined text ends on an open caret |
| `BatchScript.EmptyLineEndsJoin` | internal/chocolatey/script.go:216-237 | an empty line after a continuation ends the join although the caret is open |
| `BatchScript.CommentStable` | internal/chocolatey/script.go:334-345 | text joined after a caret never makes a command a comment or back |
| `BatchScript.FeedOk` | internal/chocolatey/script.go:179-195 | every line keeps the scanner's invariant: held-back command text ends on an open caret, so no double quote is open across a join |
| `BatchScript.ScriptScanner.FeedBatch` | internal/chocolatey/script.go:179-195 | feeds one line as the specification does and reports its entries |
| `BatchScript.ScriptScanner.Flush` | internal/chocolatey/script.go:156-167 | completes a pending line at the end of the script |
| `BatchScript.ParseScript` | internal/chocolatey/script.go:37-68 | reports the entries of all logical lines in order |
| `ScriptReading.ScriptIsItsLogicalLines` | internal/chocolatey/script.go:37-68 | a script reports, in order, exactly what its logical lines report that are neither blank nor comments, where all physical lines are joined first and each join is decided on the joined text |
| `ScriptReading.CommentContinuesMeans` | internal/chocolatey/script.go:241-247 | a comment line is continued exactly if only blanks stand behind its last caret |
| `ScriptReading.BlankTrimmed` | internal/chocolatey/script.go:313-318 | a line is blank exactly if all its characters are white space |
| `BatchScript.ScriptParens` | internal/chocolatey/script.go:897-908 | over a whole script the emitted parentheses form a Dyck prefix whose excess is the block depth |
| `SingleFlight.LookupCache.Enter` | cmd/packmon/update_lookup.go:306-326 | a lookup up to its first unlock: hit, join or lead |
| `SingleFlight.LookupCache.Finish` | cmd/packmon/update_lookup.go:327-344 | the deferred completion caches only completed calls and clears the key |
| `SingleFlight.StepInv` | cmd/packmon/update_lookup.go:265-385 | every step keeps the invariant of cache, in-flight calls and callers |
| `SingleFlight.RunInv` | cmd/packmon/update_lookup.go:265-385 | over any run a cached value never changes |
| `SingleFlight.OneCallPerKey` | cmd/packmon/update_lookup.go:265-385 | no key ever has two running or two completed calls or is cached while one runs, and every running call still has the leader that will complete it |
| `SingleFlight.LeaderNeverShares` | cmd/packmon/update_lookup.go:265-385 | in every run the leader of a completed call has returned its value and the leader of a crashed one has panicked; only other callers wait for a call or share its outcome |
| `SingleFlight.Answers` | cmd/packmon/update_lookup.go:265-385 | a caller that did not give up returns what a call for its own key answered, or the zero value if it shared a panicked call |
| `SingleFlight.LeaderDecides` | cmd/packmon/update_lookup.go:265-385 | a lookup returns the uncached answer whenever the caller that led its call was not cancelled, whoever else was; only sharing a panicked call gives the zero value instead |
| `SingleFlight.SpoiledExactly` | cmd/packmon/update_lookup.go:265-385 | with a resolver that notices cancellation, the answer is the uncached one exactly if the leader had not been cancelled when the resolver answered, or the resolver answers that call alike either way |
| `SingleFlight.CancelledLeaderSpoilsCache` | cmd/packmon/update_lookup.go:306-344 | a run in which an uncancelled caller gets a cancelled leader's answer |
| `RegistryThrottle.Throttle.Wait` | cmd/packmon/update_lookup.go:1064-1082 | one wait grants as specified; an abandoned one changes nothing |
| `RegistryThrottle.Unthrottled` | cmd/packmon/update_lookup.go:1064-1067 | without a positive interval every request leaves on arrival and no time is kept |
| `RegistryThrottle.GrantsSpaced` | cmd/packmon/update_lookup.go:1064-1082 | consecutive grants are at least the interval apart, also under a clock that jumps back between waits |
| `RegistryThrottle.WindowBound` | cmd/packmon/update_lookup.go:1064-1082 | k grants span at least (k - 1) intervals, so a window of length T holds at most T / interval + 1 |
| `RegistryThrottle.AbandonedWaitsVanish` | cmd/packmon/update_lookup.go:1064-1082 | removing all abandoned waits leaves the same grants at the same times |
| `RegistryThrottle.EarliestSchedule` | cmd/packmon/update_lookup.go:1064-1082 | no schedule with that spacing sends any request earlier |
| `RegistryPhase.LookupPhase.Get` | cmd/packmon/update_lookup.go:922-1008 | a request records exactly what its fate calls for, returns data exactly if the breaker is closed and the registry sends a whole body within the limit, and counts, resets or keeps the failure streak as the exchange fails, responds or neither |
| `RegistryPhase.GetWithin` | cmd/packmon/update_lookup.go:922-1008 | the same for a context that carries no phase, where nothing is recorded and the breaker never opens |
| `RegistryPhase.FateMeaning` | cmd/packmon/update_lookup.go:922-1008 | each fate told from the exchange: refused exactly for a network error, a status other than 200 and 404 or a broken body, missing exactly for 404, oversized, answered, unsent, skipped and silent likewise |
| `RegistryPhase.LookupPhase.RecordRefusal` | cmd/packmon/registry_failures.go:41-49 | counts the refusal and trips the breaker at the threshold |
| `RegistryPhase.RunsAlone` | cmd/packmon/registry_failures.go:41-92 | the atomic operations of one request add up to its sequential effect |
| `RegistryPhase.AccountedStep` | cmd/packmon/registry_failures.go:41-92 | every atomic step keeps the counters plus pending operations equal to what the begun requests amount to, and oversized at most refused |
| `RegistryPhase.ReportNeverNegative` | cmd/packmon/list_all.go:542-546 | oversized loaded first and refused loaded later never give a negative difference |
| `RegistryPhase.EveryRequestCountedOnce` | cmd/packmon/registry_failures.go:41-92 | when no request is under way, refused, oversized and skipped are exactly the requests with those fates and all fates add up to all requests |
| `RegistryPhase.BreakerMeansOutage` | cmd/packmon/registry_failures.go:41-49 | an open breaker implies 20 failures with no success between them, and conversely once no request is under way |
| `RegistryPhase.OutageOpensBreaker` | cmd/packmon/registry_failures.go:41-49 | twenty failing requests with no response to any request, between two moments at which none is under way, open the breaker however they overlap |
| `RegistryPhase.FewFailuresKeepClosed` | cmd/packmon/registry_failures.go:41-92 | with fewer than twenty failing requests, whatever else happens, missing packages included, the breaker never opens |
| `RegistryPhase.BreakerWithoutResponses` | cmd/packmon/registry_failures.go:41-92 | without any response the breaker is open, once every request has returned, exactly if twenty failed |
| `RegistryPhase.OpenBreakerSkips` | cmd/packmon/registry_failures.go:87-92 | the breaker never closes and every request begun afterwards is skipped |
| `WorkerPool.StepInv` | cmd/packmon/update_lookup.go:833-878 | every step keeps each index with exactly the worker that took it and each slot equal to what became of its index |
| `WorkerPool.PoolResults` | cmd/packmon/update_lookup.go:833-878 | each slot holds the resolver's answer for its own item, or the failed status if it panicked; under cancellation it may instead be the answer of a resolver that saw it, or the failed status; without cancellation the result is that of the sequential loop |
| `WorkerPool.PoolBounded` | cmd/packmon/update_lookup.go:880-888 | at most min(n, 10) items are in workers' hands in any reachable state |
| `WorkerPool.CancelledExactly` | cmd/packmon/update_lookup.go:833-878 | the pool is cancelled exactly if its context was, which may happen at any time |
| `WorkerPool.DispatchedOnce` | cmd/packmon/update_lookup.go:867-874 | in every run each index is handed to a worker at most once |
| `WorkerPool.FatesFinal` | cmd/packmon/update_lookup.go:845-866 | a resolved or dropped item stays so and its slot keeps its value |
| `WorkerPool.BusyDistinct` | cmd/packmon/update_lookup.go:845-866 | two busy workers hold different items, each marked as taken by its worker |
| `WorkerPool.PoolReturns` | cmd/packmon/update_lookup.go:867-877 | until all workers exited somebody can move |
| `WorkerPool.RunBounded` | cmd/packmon/update_lookup.go:833-878 | every run has boundedly many moves, so the pool returns |
| `Sessions.SessionManager.constructor` | internal/auth/session.go:82-98 | non-positive limits become 8 hours and 15 minutes |
| `Sessions.SessionManager.CreateSession` | internal/auth/session.go:113-139 | creates an admin session, exclusively if asked |
| `Sessions.SessionManager.CreateLoginSession` | internal/auth/session.go:146-170 | creates a non-admin session with the shorter lifetime |
| `Sessions.SessionManager.ReusableLoginSession` | internal/auth/session.go:182-213 | returns the session and its remaining lifetime, or deletes one that has expired or has less than a second left |
| `Sessions.SessionManager.CreateOrReuse` | internal/auth/session.go:174-180 | reuses the request's session or creates one, never an admin session |
| `Sessions.SessionManager.Lookup` | internal/auth/session.go:218-246 | returns and touches a live session, deletes a dead one |
| `Sessions.SessionManager.DeleteAdminSessionsLocked` | internal/auth/session.go:284-290 | removes exactly the admin sessions |
| `Sessions.SessionManager.PutFlash` | internal/auth/session.go:338-350 | stores the value in a session that exists |
| `Sessions.SessionManager.ReadFlash` | internal/auth/session.go:373-382 | returns the flash value and keeps it |
| `Sessions.SessionManager.DeleteById` | internal/auth/session.go:261-269 | removes exactly that session |
| `Sessions.SessionManager.TakeFlash` | internal/auth/session.go:355-369 | returns and removes the flash value |
| `Sessions.SessionManager.CleanupExpired` | internal/auth/session.go:416-429 | removes exactly the sessions past their absolute or idle limit |
| `Sessions.CleanupUnobservable` | internal/auth/session.go:182-246 | cleanups inserted anywhere change no answer of any operation but flash reads, if no lookup or reuse uses a clock reading older than a cleanup before it |
| `Sessions.UnobservableInOrder` | internal/auth/session.go:182-246 | in particular in every trace under a clock that never goes back |
| `Sessions.CleanupSeenExactly` | internal/auth/session.go:182-369 | in any trace, with stale reuses and flash reads anywhere, an operation is answered differently exactly if some cleanup found its session dead with no creation of the ID since, and it asks for a flash value the session holds or for reuse at a reading before its expiry |
| `Sessions.EvictedExactly` | internal/auth/session.go:416-429 | the sessions missing after any trace are those, of the sessions there without cleanups, that some cleanup found dead and nobody created since |
| `Sessions.CleanupEvicts` | internal/auth/session.go:416-429 | right after a cleanup at the latest time so far exactly the dead sessions are missing |
| `Sessions.FlashDeliveredOnce` | internal/auth/session.go:338-369 | a flash value is delivered at most once per setting, whatever happens in between |
| `Sessions.IdentityFixed` | internal/auth/session.go:113-246 | between creations of an ID its flags and expiry never change and a destroyed ID stays destroyed |
| `Sessions.NoEscalation` | internal/auth/session.go:109-139 | a login-form session never becomes an admin session, and an exclusive login ends all other admin sessions for good |
| `Sessions.LifetimesHold` | internal/auth/session.go:218-246 | no history hands out a session past its absolute, idle or login-form limit |
| `Sessions.SessionLife` | internal/auth/session.go:102-429 | from its creation until its ID is created again a session is found exactly if no operation of the trace ended it and the lookup falls within its limits, counted from creation and latest touch; it has the flags it was created with, and a flash value is the one set last and not taken |
| `Sessions.ExclusiveLeavesOneAdmin` | internal/auth/session.go:109-139 | an exclusive creation leaves exactly one admin session and all others that are not admin |
| `AuditChain.Annotate` | internal/db/audit_integrity.go:150-165 | each row shows its own status, or broken when verified but linked to another row than the next |
| `AuditChain.AuditStore.Insert` | internal/devstore/noop_admin.go:266-293 | appends a sealed row that links to the last one |
| `AuditChain.AuditStore.Page` | internal/devstore/noop_admin.go:299-320 | returns the page's rows newest first |
| `AuditChain.AuditStore.Prune` | internal/devstore/noop_admin.go:322-341 | keeps exactly the rows not older than the cutoff, in order, and counts the others |
| `AuditChain.HistoryVerified` | internal/db/audit_integrity.go:80-165 | after any appends and prunes under a clock that does not go back, and the first configuration of a key, every row of every page is verified |
| `AuditChain.RemovalDetected` | internal/db/audit_integrity.go:150-165 | rows left of a chain are all verified exactly when they are neighbours |
| `AuditChain.AlterationDetected` | internal/db/audit_integrity.go:119-165 | replacing a row makes some row of a page with it broken, except exactly when its digest is blank or it is the page's newest row with a digest that verifies and links |
| `AuditChain.OthersShown` | internal/db/audit_integrity.go:150-165 | all rows but the replaced one and its newer neighbour stay verified |
| `AuditChain.PagesVerified` | internal/devstore/noop_admin.go:299-320 | every page of an intact chain is verified throughout |
| `AuditChain.LogContents` | internal/devstore/noop_admin.go:266-341 | after any history the log holds exactly the recorded events that no later retention run removed, in order, each with its own fields and consecutive number |
| `AuditChain.PageMeaning` | internal/devstore/noop_admin.go:299-320 | a page skips the newest `offset` rows and holds the next ones, newest first, as many as the limit allows |
| `AuditChain.PagesJoin` | internal/devstore/noop_admin.go:299-320 | consecutive pages neither repeat nor skip a row |
| `AuditChain.KeyDecides` | internal/db/audit_integrity.go:80-147 | a row sealed with a key verifies with that key only, one sealed without a key always |
| `AuditChain.FormatVersions` | internal/db/audit_integrity.go:90-106 | a row without a correlation ID verifies in the first payload format only, one with it in the second only |
| `RuntimeSettings.Live.constructor` | internal/config/runtime.go:42-76 | seeds the live settings from the configuration with defaults for what it leaves out |
| `RuntimeSettings.Live.UpdateRetention` | internal/config/runtime.go:159-166 | negative retention is ignored, zero is not |
| `RuntimeSettings.Live.Update` | internal/config/runtime.go:147-157 | empty and non-positive values are ignored |
| `RuntimeSettings.Live.CommitAndPublish` | internal/config/runtime.go:127-145 | publishes exactly when the slot was held and the commit succeeded |
| `RuntimeSettings.PublishedInCommitOrder` | internal/config/runtime.go:127-145 | publications follow commit order, trail it by at most one, determine the live settings, and a save commits exactly if it returns success |
| `RuntimeSettings.LiveIsLastCommittedRow` | internal/config/runtime.go:118-145 | with the slot free the live settings equal the last committed row exactly when that row has no field that publication ignores |
| `RuntimeSettings.OwnerCanMove` | internal/config/runtime.go:127-145 | while the slot is taken its owner can go on |
| `RuntimeSettings.CancelledExactly` | internal/config/runtime.go:118-145 | a save is cancelled exactly if its caller cancelled it, gives up only then, and keeps its values |
| `RuntimeSettings.SaveGoesThrough` | internal/config/runtime.go:127-145 | a waiting save can go through once the slot is free and publishes its values |
| `RuntimeSettings.SaveGivesUp` | internal/config/runtime.go:127-145 | a waiting save can be cancelled and give up, which changes nothing else |
| `ConfigLayers.CliConfig.StripUntrusted` | cmd/packmon/client_config.go:233-256 | clears every routing field of the project layer, at the top and in every repository |
| `ConfigLayers.CliConfig.Match` | cmd/packmon/client_config.go:439-451 | finds the first entry of the name, otherwise the first at the path |
| `ConfigLayers.CliConfig.InheritOptOuts` | cmd/packmon/client_config.go:489-501 | applies the opt-out of every entry referred to |
| `ConfigLayers.CliConfig.OverlayProjectRepos` | cmd/packmon/client_config.go:423-435 | replaces the list by the project's, each entry with its inheritance |
| `ConfigLayers.CliConfig.LayerProject` | cmd/packmon/client_config.go:258-410 | strips and overlays a project file |
| `ConfigLayers.ScanSettings.ApplySharedSettings` | cmd/packmon/scan.go:749-787 | set fields win, unset ones keep the settings, a missing key variable fails |
| `ConfigLayers.ScanSettings.ResolveTarget` | cmd/packmon/scan.go:789-822 | the configuration first, then the repository entry |
| `ConfigLayers.RoutingIsTheUsers` | cmd/packmon/client_config.go:412-501 | every target of the layered configuration gets the server, key, webhook and transport settings the user's configuration alone gives its matching trusted entry, and fails exactly when that does |
| `ConfigLayers.DefaultRoutingIsTheUsers` | cmd/packmon/client_config.go:233-323 | so does a scan of no listed repository |
| `ConfigLayers.OptOutSurvives` | cmd/packmon/client_config.go:486-501 | if the user's configuration alone resolves a repository with metadata omitted, every target of the layered one that refers to it resolves with metadata omitted |
| `ConfigLayers.DefaultOptOutSurvives` | cmd/packmon/client_config.go:310-314 | so does a scan of no listed repository |
| `ConfigLayers.OmitsExactly` | cmd/packmon/client_config.go:233-256 | exactly when the settings resolved for a project entry omit its metadata |
| `ConfigLayers.TopLevelIsTheUsers` | cmd/packmon/client_config.go:233-410 | only scan policy, an opt-out, log and hook settings and the database source of a project file take effect at the top level, each where it is set |
| `ConfigLayers.InheritedOptOut` | cmd/packmon/client_config.go:461-501 | a merged entry opts out exactly when it or some trusted entry of its name or at its path does |
| `ConfigLayers.MatchMeans` | cmd/packmon/client_config.go:439-451 | the trusted entry is the first of the same name or, if there is none, the first at the same path; there is none exactly if no entry is referred to |
| `ConfigLayers.DedupMeans` | cmd/packmon/latest_registry.go:745-763 | merged host lists hold every value that is set, once, in order of first occurrence |
| `ConfigLayers.EntriesListed` | cmd/packmon/client_config.go:423-435 | the project's list, if it has one, replaces the user's, and its entries keep name, path and policy |
| `ConfigLayers.ResolvedExactly` | cmd/packmon/scan.go:749-822 | a target fails exactly if a named key variable is not set; otherwise server, key, webhook and opt-out are the entry's, else the configuration's, else the default |
| `ConfigLayers.ResolvedPolicy` | cmd/packmon/scan.go:749-822 | so are mode, severity, timeout, ecosystems and the development flag |
| `ConfigLayers.PolicyLayers` | cmd/packmon/client_config.go:258-323 | through both layers each policy setting is the listed entry's, else the project file's, else the user's, else the default |

## Left out

- The PowerShell script reader, its line states and here-strings: a second tokenizer of the same kind.
- Text decoding of scripts (UTF-16, byte order marks) and Unicode case folding beyond the ASCII letters and the two folding characters the keyword comparisons see.
- The deadline values of the queue waits: a timeout is a step that may happen at any time.
- Starting a processor is atomic with respect to the end of the root context, and building one is a nondeterministic outcome.
- Races between concurrent feed configuration calls and the development-mode and nil guards of the background services.
- The Docker digest cache, which has the shape of the single-flight caches without a deferred completion.
- The extra crates.io and Chocolatey throttles in front of a registry request.
- DrainQueues: is the loop run when all its channels hold values; before that the code blocks in it, which is the waiting between the `ReceiveNext` steps of the protocol.
- WaitManualSyncTasks: is the call up to its first check; the turns after it are `ResumeWait`, and sleeping is a state of the waiter.
- HTTP, cookies, CSRF tokens, session ID generation and its errors; sessions are values in the store, so handing out copies is implicit.
- SHA-256, HMAC and JSON encoding: digests are free constructors, which assumes that no two payloads collide.
- AuditStore.Prune: builds a new list where the code filters in place; no other reference to the list exists.
- A commit callback that reports an error although its row was written, and a commit that panics.
- Validation, trimming and path resolution of the CLI configuration; a path's canonical form is a parameter.
- The Postgres stores, feed syncers, HTTP handlers, report rendering and command-line wiring.
