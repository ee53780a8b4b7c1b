# Verified models of the uterm repository's scripts

This project models the stateful and algorithmic parts of the repository's `scripts/` directory in Dafny and
proves what they promise. `dafny verify dfyconfig.toml` checks all of it.

**The demo session and its worker** (`DemoSession`, `SessionHistory`, `SessionObjects`, `WorkerProtocol`,
`WorkerEvents`, `WorkerRecord`, `WorkerGuarantees`, `WorkerTheorems`, `WorkerDraining`, `WorkerDivergence`).
`DemoSession` gives the commands and controls of a demo session as functions on a session value;
`SessionHistory` tells each field from the acts alone. `SessionObjects` is the same session as the heap objects
the script uses: a session record, its outbound queue and the global registry, with methods proved against those
functions. `WorkerProtocol` puts the worker loop, the HTTP endpoints, the wire and the hub into one interleaving
transition system. A step runs from one `await` to the next; the environment chooses which task finishes, what
arrives, when the connection is lost and which hub syncs are refused. The hub is either a register that takes
every hello, or the shipped hub, which refuses a hello that would lower a decided or leased mode. The theorems
hold for every schedule from every initial state.

**The mutation gate** (`MutationGate`, `MutationGateRun`, `MutationVerdict`). The verdict arithmetic of one
attempt, the attempt loop over files that hold the configuration, and the verdict told from the raw results. The
outcome of each run of the tool is arbitrary.

**Change scoping** (`ChangeScope`, `GateBlocks`, `GateRegions`, `GateKeys`). The deny-by-default classification
of changed paths, the scanner that reads workflow blocks as lines of text, and what equal blocks say of two
files.

**The SPDX normaliser** (`SpdxHeaders`, `SpdxText`), **the workflow condition evaluator** (`CiParity`,
`CiConditions`, `CiTernary`, `CiSubstitute`), **the Unicode tables** (`UnicodeRuns`), **the contract
comparison** of both scenario runners (`ContractCheck`) and **the seeded generator** (`XorShift`). `Text` holds
the Python string operations they share.

Imperative code is modelled as methods with loops or as classes with mutable fields, each proved against a
specification function; the results about that function are lemmas. A Python exception is a value (`None`,
`Aborted`, `ok == false`).

## Where the code and its comments disagree

- `_refresh_outbound` says a hello always leaves the hub agreeing with the session. That is so of a hub that
  takes every hello (`RegisterHubConverges`). The shipped hub refuses some:
  `HubConvergesUnlessItRefused` gives the exact condition, `DecidingHubConverges` one a caller can check, and
  `TypedModeCanLeaveTheHubBehind` a whole run that ends idle in disagreement. An operator sets `hijack`, then
  somebody types `/mode OPEN`: the session opens, but only the exact spelling makes the worker sync the hub.
- `_substitute` is meant to agree with GitHub's reading of `cond && 'a' || 'b'`. It does not when the first
  text is empty and the condition holds, nor when a disjunct before the last one holds, because `&&` binds
  tighter than `||`. `TernaryAgreesExactlyWhen` states both directions; `EmptyFirstTextIsLost` and
  `EarlierDisjunctWins` give one expression for each.
- `gate_blocks` says comment lines are dropped. A job whose own name starts with `#` makes one matter
  (`CommentJobNamesMatter`, and `HashIsNoJobName` for one such job); for ordinary names `OrdinaryJobNames` and
  `CommentsAndBlanksDoNotMatter` apply.
- One pass of the SPDX normaliser is not always a fixed point. `FixedAfterOnePass` says exactly when it is,
  `FixedAfterTwoPasses` that two passes always are, and `BareFileNeedsTwoPasses` gives a file that needs both.

## Model

| member | source | states |
|---|---|---|
| DemoSession.InputRepliesLeadWithTheLiveMode | scripts/_example_session.py:219-363 | whatever is typed, a hello in the reply is its first message, and it carries the mode the session is left in |
| SessionHistory.ActsKeepHistoryExplained | scripts/_example_session.py:69-363 | every act keeps each field what the acts say: the turns since the last reset, the last ten lines written since the last clear or reset, paused after a pause and not after a resume, a freed lease or a reset, the mode and the name last set, the last command, and the status line |
| SessionHistory.ActsMoveFields | scripts/_example_session.py:231-363 | what each act does to the pause, the mode, the nickname and the last command, told from the act alone |
| SessionHistory.RepliesAnnounceChanges | scripts/_example_session.py:283-363 | the reply to a line is the new mode and the screen exactly for a reset and for a mode that is named, and the screen alone otherwise |
| SessionHistory.LinesAreSplit | scripts/_example_session.py:290-293 | the first word of a line is its command and the rest, trimmed, its argument |
| SessionHistory.InputsAreTrimmed | scripts/_example_session.py:147-148 | blanks, tabs and line breaks around a typed line do not count |
| SessionObjects.SessionState.RestoreDefaults | scripts/_example_session.py:80-99 | resets the session object in place: the new value is a fresh session's, the connection and the queue object are the old ones |
| SessionObjects.SessionState.AppendEntry | scripts/_example_session.py:142-144 | the transcript becomes the last ten of the old lines and the new one |
| SessionObjects.SessionState.SetInputMode | scripts/_example_session.py:231-239 | the session changes mode and notes who changed it, and the reply announces the new mode before the screen |
| SessionObjects.SessionState.ApplyControl | scripts/_example_session.py:259-280 | the object ends in the state the control is specified to lead to, replies with one rendering of it and leaves its queue alone |
| SessionObjects.SessionState.ApplyInput | scripts/_example_session.py:283-363 | for every line of input the object and its reply are what the command specification says |
| SessionObjects.SessionState.Enqueue | scripts/_example_session.py:385-390 | puts all the messages on the queue in order, or drops them when there is no connection; the session is unchanged |
| SessionObjects.Registry.GetOrCreate | scripts/_example_session.py:102-108 | gives the object filed under the id, filing a new default one only if there was none; all others stay |
| SessionObjects.Registry.ResetSession | scripts/_example_session.py:111-119 | a filed object is restored in place and stays the same object on the same queue; no other session changes |
| SessionObjects.Registry.ResetEndpoint | scripts/example_server.py:129-137 | a reset of a connected session puts the restored mode's announcement and screen at the end of the queue the worker reads |
| SessionObjects.Registry.ServeVisits | scripts/_example_session.py:80-119 | after any sequence of lookups and resets, the object a worker captured is still the filed one, on the same queue |
| WorkerProtocol.InboxStepsKeepFrames | scripts/_example_session.py:486-506 | every step on the receiving side keeps decoded, held and unread frames equal to the frames that arrived, with at most one read outstanding |
| WorkerProtocol.OutboxStepsLoseNothing | scripts/_example_session.py:491-504 | every step on the queue, including a cancelled read, keeps sent, in-hand and queued messages equal to the enqueued ones |
| WorkerEvents.ServesOnce | scripts/_example_session.py:415-449 | every step keeps: the events acted on and those of the batch in hand are the ones decoded, and the inputs and controls acted on are the worker's acts in the session's history |
| WorkerRecord.RecordsAreTrue | scripts/_example_session.py:478-513 | on each connection, the frames that arrived, the frames read, the events decoded and the messages enqueued are exactly those the schedule brought |
| WorkerRecord.HistoryIsTheSchedule | scripts/example_server.py:109-137 | the acts in the session's history are, in order, those the schedule's inputs, controls, requests and freed leases ask for |
| WorkerRecord.ExactCommandsReachTheHub | scripts/_example_session.py:437-449 | each exactly spelled mode command acted on is followed by one hub sync, and each `/mode open` is preceded by one lease release |
| WorkerRecord.EndpointsHoldAnnouncements | scripts/example_server.py:123-125 | what an endpoint syncs and what it announces is one mode, with the screen of that session |
| WorkerRecord.RequestsAreAnswered | scripts/_example_session.py:429-436 | a snapshot, analysis or control request is answered from the live session |
| WorkerRecord.ModeRequestsAreServed | scripts/example_server.py:112-123 | a mode is taken in any capitalisation and with any blanks around it, and any other payload is refused |
| WorkerRecord.HellosAtTheHub | packages/provide-uterm-server/src/provide/uterm/server/bridge/hub/connection.py:240-258 | the hub takes every hello but one that would open a session held in hijack by a decision or a lease |
| WorkerRecord.RequestsAtTheHub | packages/provide-uterm-server/src/provide/uterm/server/bridge/hub/router_impl.py:460-471 | an accepted request decides the mode, and none that would open a leased session is accepted |
| WorkerGuarantees.StaysTidy | scripts/_example_session.py:366-382 | every step keeps the shape freshness needs: hellos stand only where they will be rendered again or sent in the step that built them |
| WorkerGuarantees.KeepsMode | scripts/_example_session.py:366-390 | every enabled step keeps: some hello is still owed, or the last one on the wire is live, or the hub agrees or stands on a refusal |
| WorkerTheorems.ReachableIsInvariant | scripts/_example_session.py:452-518 | all invariants of the protocol hold in every state any schedule reaches |
| WorkerTheorems.EveryFrameIsReadOnceInOrder | scripts/_example_session.py:478-513 | no keystroke is swallowed: on each connection, the frames decoded, the one held and those unread are the frames the schedule brought, in order, and one read is begun per decoded frame and at most one more |
| WorkerTheorems.EveryEventIsActedOnOnce | scripts/_example_session.py:415-449 | no decoded event is swallowed either: the events acted on and those in hand are, in order, the ones the schedule's decodings gave, and each input and control acted on is one act in the session's history since the connection began |
| WorkerTheorems.NoQueuedMessageIsLost | scripts/_example_session.py:491-504 | on each connection, messages sent from the queue, in hand and queued are those the endpoints enqueued, in order, up to re-rendered hellos |
| WorkerTheorems.SessionMatchesItsHistory | scripts/_example_session.py:283-363 | in every reachable state every field of the session is what the history says, and the history is what the schedule did |
| WorkerTheorems.EveryHelloIsLiveWhenSent | scripts/_example_session.py:366-382 | in every reachable state, every hello the next step hands over carries the mode the session has after that step |
| WorkerTheorems.HubConvergesUnlessItRefused | scripts/_example_session.py:366-390 | once every announcement has reached the hub, its mode is the session's exactly if it is not standing on a refused hello; if not, the hub is the stricter one |
| WorkerTheorems.RegisterHubConverges | scripts/example_server.py:109-137 | with a hub that takes every hello, every idle connected state has the hub in the session's mode, under every interleaving and whether or not syncs were refused |
| WorkerTheorems.DecidingHubConverges | packages/provide-uterm-server/src/provide/uterm/server/bridge/hub/connection.py:228-258 | with the shipped hub the same holds on every run in which no delivered hello would lower a decided or leased mode |
| WorkerDraining.NeverStuck | scripts/_example_session.py:488-513 | a connected state that is not idle, with no frame held or unread, always has a next step that needs nothing new from outside |
| WorkerDraining.InternalStepUsesWork | scripts/_example_session.py:488-513 | every such step lowers a measure of the work left, but for ten per event it decodes |
| WorkerDraining.InternalRunsEnd | scripts/_example_session.py:488-513 | left alone, the system stops after at most that many steps and ten per event decoded on the way, whichever steps it takes |
| WorkerDraining.DrainingEndsInAgreement | scripts/_example_session.py:366-390 | from every reachable connected state, every run of internal steps that cannot go on ends idle, with every frame that arrived decoded, every event acted on, and the modes in agreement unless the hub refused |
| WorkerDivergence.TypedModeCanLeaveTheHubBehind | scripts/_example_session.py:437-449 | a schedule of the shipped hub, all of it while the worker is connected, that ends idle with the session open and the hub in hijack |
| MutationGate.ApplyEquivalentAllowlist | scripts/run_mutation_gate.py:409-431 | gives the mutants that still count, the excused ids and the stale ids as specified |
| MutationGate.AllowlistPartitions | scripts/run_mutation_gate.py:423-431 | counted and excused mutants together are exactly the raw ones, with multiplicity |
| MutationGate.AllowlistMembers | scripts/run_mutation_gate.py:425-429 | a mutant is excused exactly when it is in the results, allowlisted and in an excusable state, and counts exactly otherwise |
| MutationGate.EffectiveKeepsOrder | scripts/run_mutation_gate.py:424-429 | the mutants that count are a subsequence of the raw ones |
| MutationGate.StaleAndExcusedPartition | scripts/run_mutation_gate.py:430 | excused and stale ids are disjoint and together are the allowlist, and an id is stale exactly when no mutant of this run matched it in an excusable state |
| MutationGate.StateCountsFrom | scripts/mutation_gate_config.py:351-355 | each state maps to how often it occurs, and no other state is listed |
| MutationGate.SumOfValues | scripts/run_mutation_gate.py:497 | the sum over the counts in any order of summing |
| MutationGate.CollectStats | scripts/run_mutation_gate.py:472-520 | the tally of the counted, promoted mutants: total, kills and bad ones are counts over that list |
| MutationGate.ClearsAtOneHundred | scripts/run_mutation_gate.py:606-608 | under a 100 minimum an attempt clears exactly when something counts and everything that counts was killed |
| MutationGate.MoreProofNeverHurts | scripts/run_mutation_gate.py:434-469 | more earlier kills give as many mutants, no fewer kills and no more bad ones |
| MutationGate.ClearingIsMonotone | scripts/mutation_gate_config.py:358-362 | so an attempt that clears any minimum still clears it with more proven before |
| MutationGateRun.ConfigFile.Sanitize | scripts/mutation_gate_config.py:389-429 | writes the fully edited text, or fails having written nothing; an absent file stays absent |
| MutationGateRun.Workspace.SeedMutantsConfig | scripts/mutation_gate_config.py:376-386 | the copy is the root configuration with its own edits made; the root is not written |
| MutationGateRun.Workspace.RunAttempt | scripts/run_mutation_gate.py:546-586 | the tool runs on, and is read under, the rewritten configurations; however the attempt ends, crash, unreadable results or failed rewrite included, the root configuration holds what it held before |
| MutationGateRun.Workspace.RunMutationGate | scripts/run_mutation_gate.py:523-617 | for every retry count and all outcomes, the root configuration is its original on return, at most retries + 1 runs happen, each on the rewritten configurations, every retry uses one worker, and the verdict is the specified one |
| MutationGateRun.NothingUndeclared | scripts/mutation_gate_config.py:337-341 | the undeclared targets are none exactly when every target is declared |
| MutationGateRun.CarriedKillsAreRawKills | scripts/run_mutation_gate.py:534-582 | a name is carried forward exactly when some earlier attempt reported it killed |
| MutationGateRun.AttemptClearsWhenAnswered | scripts/run_mutation_gate.py:606-608 | an attempt clears a 100 minimum exactly when something counts and each raw mutant was killed in it, timed out in it after an earlier raw kill, or is an allowlisted excusable one |
| MutationGateRun.PassesExactlyWhenEveryMutantIsAnswered | scripts/run_mutation_gate.py:523-617 | the gate passes exactly when the configuration can be rewritten and the first attempt that settles the run is one in which every raw mutant is answered |
| MutationGateRun.MoreProofKeepsThePass | scripts/run_mutation_gate.py:434-469 | over a whole run, more kills proven before never turn a pass into another verdict |
| MutationVerdict.VerdictIsSettled | scripts/run_mutation_gate.py:546-617 | for every minimum score: the first attempt that is empty, clean, crashed or unreadable settles the run, to the verdict that names it; with none the gate fails on the last tally |
| MutationVerdict.PassesExactlyWhenClean | scripts/run_mutation_gate.py:606-608 | for every minimum score the gate passes exactly when the settling attempt is clean: something counts, no mutant that counts is left, and the proven share reaches the minimum |
| MutationVerdict.NoSurfaceExactlyWhenDeclared | scripts/run_mutation_gate.py:593-604 | it returns with no mutable surface exactly when the settling attempt is empty and every target is declared |
| MutationVerdict.AbortsExactlyWhenUndeclared | scripts/run_mutation_gate.py:593-602 | it raises over undeclared targets exactly when the settling attempt is empty and some target is not declared, naming exactly those, in order |
| MutationVerdict.AttemptTally | scripts/run_mutation_gate.py:480-509 | the total is the mutants that count, the kills those killed now or timed out after an earlier kill, and there are no bad ones exactly when none that counts is left |
| MutationVerdict.FiguresAreCounts | scripts/run_mutation_gate.py:496-509 | each figure of a tally is how many mutants are in the state it is named for |
| MutationVerdict.EditsAreMadeInTurn | scripts/mutation_gate_config.py:398-429 | each edit asked for is made on what the one before left, and one that finds no place stops the rewrite |
| ChangeScope.ChangeScope | scripts/mutation_change_scope.py:205-212 | the targets and the full-perimeter paths of a list of changes are the specified ones |
| ChangeScope.ScopeHoldsExactly | scripts/mutation_change_scope.py:183-212 | a path runs the full perimeter as support or as Python side, and a target is added, exactly for the paths the rules say |
| ChangeScope.DirectoryEntries | scripts/mutation_change_scope.py:57-64 | a directory entry covers the paths under it with a listed ending and no exclusion |
| ChangeScope.PythonIsNeverSkipped | scripts/mutation_change_scope.py:152-171 | no path under the packages the tests import, nor a top-level Python file, is ever irrelevant |
| ChangeScope.ScriptsAreSkippedButOne | scripts/mutation_change_scope.py:116-122 | every script is covered but the one the tests load |
| ChangeScope.DockerIsSkippedButToml | scripts/mutation_change_scope.py:110-115 | container files are covered but their configurations |
| ChangeScope.OnlyMarkdownOfDocsIsSkipped | scripts/mutation_change_scope.py:100-104 | of the documentation only Markdown is covered |
| ChangeScope.WorkerPythonIsNotSkipped | scripts/mutation_change_scope.py:85-89 | the worker package is covered but its Python and its configuration |
| ChangeScope.RunsNothingExactlyWhenIrrelevant | scripts/mutation_change_scope.py:183-212 | a change runs nothing exactly when every path in it is neither support nor source, off the Python side and covered by the allowlist |
| ChangeScope.ScopesAddUp | scripts/mutation_change_scope.py:205-212 | the scope of two changes together is the union of targets and the concatenation of the rest |
| ChangeScope.AddingPathsNeverNarrows | scripts/mutation_change_scope.py:205-212 | adding paths to a change, before or after, keeps everything it ran |
| GateBlocks.Block | scripts/mutation_change_scope.py:232-239 | the body found from a line is the specified one: significant lines indented further, up to the first that is not |
| GateBlocks.GateBlocks | scripts/mutation_change_scope.py:215-251 | the loops give the specified blocks for every text and every list of jobs, and nothing for an unreadable file |
| GateBlocks.SameSignificantLinesSameBlocks | scripts/mutation_change_scope.py:215-251 | for job names that are not comments, two files with the same significant lines have the same blocks |
| GateBlocks.CommentsAndBlanksDoNotMatter | scripts/mutation_change_scope.py:225-226 | for such job names, comment and blank lines put in or taken out anywhere leave all blocks alone |
| GateBlocks.BodyIsAllSignificantLines | scripts/mutation_change_scope.py:232-239 | a block's body is every significant line up to its end, so equal bodies hide no edit |
| GateBlocks.JobBlockIsItsRegion | scripts/mutation_change_scope.py:247-250 | a file that opens a job once answers for it with exactly the significant lines of its region |
| GateBlocks.OrdinaryJobNames | scripts/mutation_change_scope.py:247-248 | a job name that does not start with a comment sign or a blank is never mistaken for a comment |
| GateBlocks.CommentJobNamesMatter | scripts/mutation_change_scope.py:247-250 | with a job named as a comment, dropping a comment line does change the blocks |
| GateBlocks.HashIsNoJobName | scripts/mutation_change_scope.py:247-250 | `#x` is such a name: a comment line of the file changes the result for it |
| GateRegions.TopLevelBlockIsItsRegion | scripts/mutation_change_scope.py:241-246 | the block of a top-level key is the last line that records it and exactly the significant lines of its region |
| GateRegions.EqualBlocksMeanEqualRegions | scripts/mutation_change_scope.py:215-251 | for all files and jobs, two results are equal exactly when every name stands for the same significant lines in both files or for none in either |
| GateRegions.EqualBlocksHideNoEdit | scripts/mutation_change_scope.py:215-251 | where no job is named like a top-level block, equal results mean equal significant lines under every recorded key and under every job |
| GateKeys.EveryOtherKeyIsRecorded | scripts/mutation_change_scope.py:242-246 | of every file that opens a top-level key, bare or quoted, the result holds that key exactly when it is neither `jobs` nor `name` |
| GateKeys.KeyBlockIs | scripts/mutation_change_scope.py:232-246 | the block of a key is its line and the significant lines under it, up to the next line with text that is not indented |
| GateKeys.EditsUnderAKeyShow | scripts/mutation_change_scope.py:215-251 | two files that differ in the significant lines under such a key have different results |
| GateKeys.JobIsRead | scripts/mutation_change_scope.py:247-250 | a job of the gate answers with the significant lines under its first opening line, as far as they have three leading spaces |
| GateKeys.SignificantText | scripts/mutation_change_scope.py:234-238 | a line is significant exactly when it has text that does not start with a comment sign |
| SpdxHeaders.RunFrom | scripts/spdx_headers.py:147-150 | the walk from a line collects exactly the unbroken bare lines next to it on that side |
| SpdxHeaders.HeaderLineIndices | scripts/spdx_headers.py:130-151 | the dropped lines are exactly the SPDX lines and the bare lines in an unbroken run touching one |
| SpdxHeaders.PartitionLeadingComments | scripts/spdx_headers.py:154-185 | the two cursor loops end where the head is specified to end, and return its kept comments and the rest |
| SpdxHeaders.NormalizePythonText | scripts/spdx_headers.py:188-191 | one pass returns the specified text |
| SpdxHeaders.HeadIsLeadingComments | scripts/spdx_headers.py:175-182 | the head is comments and blanks only, ends in a comment, and no comment follows it before code |
| SpdxHeaders.BodyIsTheRest | scripts/spdx_headers.py:179-185 | head and body together are the text, so the blank lines before the code and all after them survive |
| SpdxHeaders.KeptIndices | scripts/spdx_headers.py:183-184 | the kept lines are, in order and each once, exactly the non-blank head lines outside the SPDX block |
| SpdxHeaders.NothingAuthoredIsLost | scripts/spdx_headers.py:157-169 | the shebang and everything from the end of the head on come out unchanged, and every authored comment of the head is still there, in order, after one pass and after two |
| SpdxText.AuthorsCommentsAreKept | scripts/spdx_headers.py:154-185 | every comment above the code that starts with `#`, has more text than that and neither tag, is kept |
| SpdxText.SpdxMeansTagged | scripts/spdx_headers.py:125-127 | an SPDX line is one that starts, after blanks, with one of the two tags |
| SpdxText.BareHasOneSign | scripts/spdx_headers.py:148 | a bare delimiter is one `#` and nothing but blanks |
| SpdxText.ShebangStaysFirst | scripts/spdx_headers.py:116-121 | a shebang line stays the first line and the header follows it |
| SpdxText.LoneShebangIsTerminated | scripts/spdx_headers.py:118-120 | a shebang that is the whole file gains a newline before the header |
| SpdxText.HeaderComesFirst | scripts/spdx_headers.py:188-191 | without a shebang the normalised text starts with the header, spelled out |
| SpdxHeaders.NormalizedReadsBack | scripts/spdx_headers.py:188-191 | a normalised text splits back into the same shebang, the same body and the kept comments less leading bare lines |
| SpdxHeaders.NormalizedHasCanonicalHeader | scripts/spdx_headers.py:188-199 | every normalised text has a canonical header |
| SpdxHeaders.FixedAfterOnePass | scripts/spdx_headers.py:188-191 | a second pass changes nothing exactly when the kept comments do not begin with a bare line |
| SpdxHeaders.BareFileNeedsTwoPasses | scripts/spdx_headers.py:188-191 | a file of one bare `#` line is not yet fixed after one pass |
| SpdxHeaders.FixedAfterTwoPasses | scripts/spdx_headers.py:188-191 | a third pass never changes anything |
| CiParity.AtomIsClosed | scripts/ci_parity.py:190-203 | whatever the evaluator accepts as an atom has closed quotes and no operator outside them |
| CiParity.AnswersAreRight | scripts/ci_parity.py:178-208 | whenever the evaluator answers, its answer is that of the reading with quotes, precedence and short circuit |
| CiParity.RefusesExactlyTheUnplaceable | scripts/ci_parity.py:178-208 | for every condition it answers what the reading answers, except exactly where its walk ends at an operator inside quotes or, in a disjunction, at a disjunct with an `&&` of its own |
| CiConditions.ComparisonsMean | scripts/ci_parity.py:197-203 | for every name, sign and quoted text without an operator, and any blanks: whether the name's value is, or is not, the text; refused if it has none |
| CiConditions.QuotedOperatorsAreRefused | scripts/ci_parity.py:205-207 | a comparison whose quoted text holds an operator is refused, whatever the values |
| CiConditions.KeywordsMean | scripts/ci_parity.py:192-196 | three keywords hold and two do not, in any context and with any blanks around them |
| CiConditions.WrappingDoesNotMatter | scripts/ci_parity.py:186-188 | a condition wrapped in a marker, with any blanks around it, is answered as without |
| CiConditions.DisjunctionsMean | scripts/ci_parity.py:205-207 | conditions joined by `or` hold exactly when one of them does |
| CiConditions.ConjunctionsMean | scripts/ci_parity.py:205-207 | conditions joined by `and` hold exactly when all of them do |
| CiTernary.TernaryAgreesExactlyWhen | scripts/ci_parity.py:84-169 | for every ternary whose condition is answered: the workflow has a value exactly when the condition leaves no quote open, and it is the text chosen exactly when the condition fails; or, where it holds, a disjunct before the last holds and the first text happens to be `true`, or none does and the first text is not empty or both are |
| CiTernary.HoldingNeedsNoCheck | scripts/ci_parity.py:205-208 | a condition without a disjunction that holds leaves no quote open |
| CiTernary.TernaryIsFound | scripts/ci_parity.py:84 | the round trip: a ternary written with any blanks between its parts is parsed back into those parts |
| CiTernary.EmptyFirstTextIsLost | scripts/ci_parity.py:166-169 | a condition that holds, an empty first text and a second text `b`: the code writes nothing where the workflow has `b` |
| CiTernary.EarlierDisjunctWins | scripts/ci_parity.py:166-169 | two disjuncts of which the first holds, and texts `a` and `b`: the code writes `a` where the workflow has `true` |
| CiSubstitute.PiecesAreTheText | scripts/ci_parity.py:163-175 | plain characters and markers together are the text, and each marker's expression is trimmed and free of braces |
| CiSubstitute.SubstitutionIsPiecewise | scripts/ci_parity.py:159-175 | it raises exactly when some marker has no value; otherwise all text outside markers stays and each marker becomes its value |
| CiSubstitute.NamesAreReplaced | scripts/ci_parity.py:163-175 | text up to the first marker stays, and a name the context knows becomes its value, whatever blanks the marker has around it |
| CiSubstitute.UnknownNamesAreRefused | scripts/ci_parity.py:170-173 | a name without a value is refused, not blanked |
| UnicodeRuns.Runs | scripts/gen_unicode_tables.py:75-86 | the loop over all code points builds the specified table |
| UnicodeRuns.RunsAreCanonical | scripts/gen_unicode_tables.py:75-86 | the runs are non-empty, strictly ordered, disjoint and maximal |
| UnicodeRuns.RunsDenoteTheFunction | scripts/gen_unicode_tables.py:75-86 | looking a point up gives the function's value, and nothing exactly where that is the skipped one |
| UnicodeRuns.TableOfAllPoints | scripts/gen_unicode_tables.py:75-86 | the table built covers every code point up to 0x10FFFF and none beyond |
| UnicodeRuns.NoTableIsShorter | scripts/gen_unicode_tables.py:75-86 | no list of triples that denotes the same partial function, ordered or not, is shorter |
| UnicodeRuns.DecompositionsAreInOrder | scripts/gen_unicode_tables.py:101-117 | decompositions come in strictly increasing code point order |
| UnicodeRuns.DecompositionsAreExact | scripts/gen_unicode_tables.py:101-117 | exactly the points with a canonical decomposition outside the Hangul syllables are listed, with -1 for a missing second part |
| UnicodeRuns.CompositionsAreRecomposed | scripts/gen_unicode_tables.py:120-131 | every listed composite is one that composition gives back, from a listed decomposition |
| UnicodeRuns.RecomposedPairsAreListed | scripts/gen_unicode_tables.py:120-131 | every two-part decomposition that composition gives back is listed |
| UnicodeRuns.NoPairHasTwoComposites | scripts/gen_unicode_tables.py:120-131 | no two entries share starter and combiner, whatever the composition function, so the emitted map literals have no duplicate key |
| ContractCheck.Collect | scripts/run_fanout_security_scenarios.py:228-236 | the first loop gives the complaints, the observation last seen under each id and the repeated ids as specified |
| ContractCheck.LastMentionCounts | scripts/run_fanout_security_scenarios.py:228-236 | under each id stands the observation last seen with it |
| ContractCheck.RepeatedMeansTwice | scripts/run_fanout_security_scenarios.py:234-235 | the repeated ids are exactly those mentioned more than once |
| ContractCheck.NoIdIsReported | scripts/run_fanout_security_scenarios.py:231-233 | a missing id is complained of exactly when some observation has no string id |
| ContractCheck.WrongFieldsAreReported | scripts/run_session_lifecycle_security_scenarios.py:205-208 | the lifecycle runner complains of an observation's fields exactly when they are not the required set |
| ContractCheck.SameIsEqual | scripts/run_fanout_security_scenarios.py:253-260 | values are compared by structure, with true equal to 1 and false to 0 |
| ContractCheck.ApplicableMeansServed | scripts/run_fanout_security_scenarios.py:74-80 | a scenario applies to a backend unless its claim says `unserved` |
| ContractCheck.CompareOne | scripts/run_fanout_security_scenarios.py:249-262 | reports nothing exactly when the observation answers its scenario, and names precisely what does not fit |
| ContractCheck.CompareObservations | scripts/run_fanout_security_scenarios.py:220-263 | reports nothing exactly when the output is a list of one fitting observation per applicable scenario and no other, each answering its scenario; otherwise names the repeated, missing and extra ids |
| ContractCheck.VerdictIsExact | scripts/run_session_lifecycle_security_scenarios.py:191-237 | finding nothing in every step is the same as the output being evidence for the contract, for both runners |
| ContractCheck.EvidenceHasNoPadding | scripts/run_session_lifecycle_security_scenarios.py:217-222 | accepted output has as many observations as there are applicable scenarios |
| ContractCheck.LifecycleEvidenceIsDetermined | scripts/run_session_lifecycle_security_scenarios.py:202-236 | for a validated contract an observation is accepted exactly when it is, field for field, the one the contract spells out |
| XorShift.WideStepIsStep | scripts/benchmark_control_channel_memoryview.py:54-58 | the masked update on wider integers is the 32-bit xorshift step |
| XorShift.ShiftLeftMultiplies | scripts/benchmark_control_channel_memoryview.py:55-57 | shifting left is multiplying by a power of two, as with unbounded integers |
| XorShift.ShiftRightDivides | scripts/benchmark_control_channel_memoryview.py:56 | shifting right is dividing by a power of two |
| XorShift.MaskIsRemainder | scripts/benchmark_control_channel_memoryview.py:55-58 | the mask is the remainder modulo 2^32 |
| XorShift.XorUpIsReversible | scripts/benchmark_control_channel_memoryview.py:55-57 | for every shift, xoring a word with its masked left shift can be undone |
| XorShift.StepIsABijection | scripts/benchmark_control_channel_memoryview.py:54-58 | the step has a two-sided inverse |
| XorShift.OnlyZeroIsFixed | scripts/benchmark_control_channel_memoryview.py:54-58 | the step fixes zero and no other word |
| XorShift.StartIsNotZero | scripts/benchmark_control_channel_memoryview.py:50-52 | from any seed, negative ones too, the start is not zero, and is the seed's low 32 bits when those are not |
| XorShift.StartsAndFractions | scripts/benchmark_control_channel_memoryview.py:50-59 | the start is the seed's remainder modulo 2^32, or 0x9E3779B9 in place of zero, and a value times 2^32 is its state |
| XorShift.NeverZero | scripts/benchmark_control_channel_memoryview.py:50-58 | no state of a run from a non-zero word is zero |
| XorShift.Draw | scripts/benchmark_control_channel_memoryview.py:49-59 | the values drawn are the fractions of the states in turn, each strictly between 0 and 1 |
| XorShift.RunsArePurelyPeriodic | scripts/benchmark_control_channel_memoryview.py:54-59 | every run comes back to its very first state within 2^32 - 1 turns and repeats from there |
| XorShift.ChunksAreTheStream | scripts/benchmark_control_channel_memoryview.py:84-87 | the chunks glued together are the stream, all but the last have the full size, none is empty; a size below one is refused |

## Left out

- The control-frame codec: decoding is a frame of unknown meaning that yields any events or an error.
- The hub beyond its input mode, decision flag and lease; other routes that write the hub's mode directly.
- Who observes a session (the observer count in `/status`), banners, analysis notes, timestamps, screen hashes
  and the exact wording of messages: transcript texts are kept as what they say.
- The screen rendering of a snapshot and its cursor.
- The worker loop as a `while` loop: it never ends and shares its state with other tasks, so it is a
  transition system. Back-off delays and failed connection attempts do not change the modelled state.
- What the peer has not read when a connection is lost: the wire and the queue go with it.
- Forgetting all sessions while a worker runs: `ResetAll` is modelled, but the result about a captured object is
  for runs without it, as nothing else hands the worker another object.
- Reading the tool's results (`_results_per_mutant`), the allowlist file and the environment: arbitrary values.
- Regular expressions and TOML in the configuration rewrite: each substitution is an arbitrary partial function.
- Float rounding of a mutation score: exact real arithmetic, which agrees on the comparisons with 0 and 100.
- Sorted orders of printed or returned names: sets stand for them.
- Line boundaries other than a newline in the SPDX normaliser, and how a file is cut into lines in `gate_blocks`.
- Non-ASCII word characters in condition names and GitHub's case-insensitive comparison.
- `_steps_for` and the commands it resolves: a sequence of calls of the modelled evaluator and substitution.
- `validate_contract`: what it establishes (distinct ids, a claim per backend) is what the comparison requires.
- NaN and infinite numbers in JSON: numbers are reals, and true and false compare equal to 1 and 0.
- Real Unicode data, Hangul and normalisation: arbitrary functions; Hangul syllables only as the skipped range.
- Sorting of the composition table, charset maps and the layout of generated rows.
- XorShift.Draw: the generator never ends, so it is modelled as its first values, for every number of them.
- Subprocesses, git, the file system beyond the configuration files, recorders, captures and benchmarks.
