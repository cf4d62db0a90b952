# Verified models of geistlib's tools

A Dafny 4.11 project that models the hard logic around the geist inference engine and
proves what the tools rely on. Each module is a model of one program or one part of it;
`dafny verify dfyconfig.toml` checks them all.

- **Shared fetches** (`GitCache`, `GitCacheRuns`): the request threads of the git cache, their locks and the
  stamp of the last fetch, as a machine whose steps are the threads' actions, the clock and
  the upstream server. Freshness needs that no fetch before the request carries the clock
  reading of its arrival; `GitCacheRuns` says exactly when the next request can be served an old
  mirror.
- **Continuous batching** (`ReasoningRuns`, `ReasoningSession`, `CaseAccounting`,
  `ProbeWindow`, `ReasoningBatch`): the benchmark driver that refills slots, pads, reuses a prefix image and
  probes answers mid-generation, against what each case generates alone. A session is its
  token history; snapshot, restore and the batched step follow the contracts of
  `include/geist_util.h`.
- **Layer boundaries** (`Layers`): the include listing, its reader, and the claim that with a
  closed table, and only with one, no forbidden include hides behind an include guard.
- **C lexer and switch counter** (`CTokens`, `C23Lexer`, `C23RoundTrip`, `SwitchFrames`,
  `SwitchPositions`): the lexer against a definition of when each element stands in a text, and
  the counter against trees of statements and against the positions of the tokens.
- **CI bot** (`CiBotSpec`, `CiBotJobs`, `CiBotRules`, `CiBotWrites`, `CiBot`, `UnionResolve`): the
  shapes of failed jobs, the bot's tables and writes over any sequence of polls with arbitrary
  answers of the server and of git, how often and exactly when each is made, and its resolver of
  changelog conflicts.
- **Voice input** (`VoiceActivity`, `Dictation`): the streaming voice-activity loop against an
  offline cutting of the stream, the loop guard of the dictation reply and its line buffer.
- **Exact algorithms**: `EditDistance`, `MedianInterval`, `StratifiedSample` and
  `SplitPartition` (over `Questions` and `Sorting`), `TernaryPacking`, `GgufLayout`,
  `Calibration`.
- **Benchmark protocol** (`DecisionWire`, `ModeRotation`, `SampleCheck`, `ModeFilter`): the wire format shared
  by the Python writer and the C reader, the rotation of modes and the writer's check.

Programs that update state are classes or methods with loops, each proved equal to a
specification function or relation; the properties are lemmas about that specification.

Where code and documentation disagree the model follows the code:

- `tools/c23_metrics.py`: the pending switch is one variable, so a switch in a switch condition
  loses the outer default, and a default of a brace-less switch counts for the one around it
  (`SwitchFrames.SwitchInConditionIsMissed`, `SwitchFrames.BareDefaultIsSpurious`).
- `scripts/git-cache.py:75`: a fetch "after this request" may carry the same clock reading, and
  a failed one lets waiters through (`GitCacheRuns.TieServesStale`, exactly when:
  `GitCacheRuns.StaleExactly`; `GitCacheRuns.FailedFetchLetsWaiterThrough`); nor is the lock
  fair (`GitCacheRuns.WaiterOvertaken`).
- `scripts/ci-bot.py:12-13`: reruns are limited per run and head only while every complete poll
  lists the pull request (`CiBotRules.DroppedRunsAgain`); a failure report repeats once for every
  label write lost after it (`CiBotRules.PollsPay`, `CiBotRules.ReportRepeats`).
- `examples/push_to_talk.c:237`: the subtraction of the closing silence wraps when many pushes
  were refused (`VoiceActivity.TranscribedExactly`).
- `tools/bench_reasoning_batch.c:286`: a probe can be longer than the window has room for; the
  job then stops with an error (`ReasoningBatch.ProbeOverruns`), for some model exactly when the
  last possible probe does not fit (`ReasoningBatch.ShapeDecides`).

## Model

| member | source | states |
|---|---|---|
| `GitCache.Reached` | scripts/git-cache.py:68-90 | an invariant of locks, stamps, fetch history and requests holds after every run of asks, thread actions, clock ticks and upstream pushes, for any number of threads and repositories |
| `GitCache.OneFetchAtATime` | scripts/git-cache.py:71-73 | in every interleaving at most one thread fetches a repository and only its latest fetch can be running |
| `GitCache.Fresh` | scripts/git-cache.py:74-76 | a returned request has a covering fetch that began no earlier than it asked; if that fetch succeeded the mirror is at least as new as upstream was at the ask, then and later; a request refused was covered by a failed fetch |
| `GitCache.FetchesShared` | scripts/git-cache.py:74-76 | each fetch was started by a request that asked after the previous fetch began, so requests that all asked by T cause at most one fetch starting at or after T |
| `GitCache.NoDeadlock` | scripts/git-cache.py:62-90 | while a request is unanswered some request for the same repository can act: neither a fetch nor the lock of another repository holds it up |
| `GitCache.ActionsRunOut` | scripts/git-cache.py:68-90 | in every run the thread actions number at most six times the asks, and no thread can act exactly when every request is answered: with finitely many asks every schedule ends with all answered |
| `GitCacheRuns.WaiterOvertaken` | scripts/git-cache.py:71-73 | no single request is sure of its turn while others keep asking: for every n there is a run from the start in which n later requests, each asking and fetching at a later clock reading than all before it, are answered and the first still waits for the lock |
| `GitCacheRuns.TrueWithoutMirror` | scripts/git-cache.py:74-90 | in every run: a request told True while its repository has no mirror was covered by a failed fetch that another request started, and no fetch of the repository has succeeded |
| `GitCacheRuns.RefusedExactly` | scripts/git-cache.py:84-90 | in every run a request is refused if and only if the last thing it did before leaving was a fetch of its own that failed while the repository had no mirror: a failed fetch with a mirror in place is served |
| `GitCacheRuns.MirrorServes` | scripts/git-cache.py:84-90 | in every run a request whose repository had a mirror when it asked is served once it is answered |
| `GitCacheRuns.MirrorExactly` | scripts/git-cache.py:78-90 | in every run the mirror holds exactly the version upstream had when it was read by the last fetch that ended well or failed after updating the mirror, and nothing when there was none |
| `GitCacheRuns.FailedFetchLetsWaiterThrough` | scripts/git-cache.py:74-76 | and that happens: the run of twelve events from the start, for any repository, after which a waiter behind a failed clone was told True with no mirror, because the stamp is set before the fetch |
| `GitCacheRuns.StaleExactly` | scripts/git-cache.py:74-76 | after every run, for any repository: the request that asks next can return, under some schedule, covered by a successful fetch and with a mirror older than upstream at the ask, if and only if the last fetch carries the present clock reading and has read, ended or still running, a version older than upstream |
| `GitCacheRuns.TieServesStale` | scripts/git-cache.py:74 | the run of thirteen events from the start, for any repository, in which equal clock readings do this |
| `ReasoningRuns.BestIsFirstMaximum` | tools/bench_reasoning_batch.c:205-207 | the index is the first of the largest logits |
| `ReasoningRuns.ComputeTopProbability` | tools/bench_reasoning_batch.c:204-213 | the loop returns that index and its softmax probability, which is positive and at most 1 (exp is 1 at 0, positive, and at most 1 below 0) |
| `ReasoningRuns.TopBounds` | tools/bench_reasoning_batch.c:204-213 | the best of n candidates has probability 1/n at least |
| `ReasoningRuns.AloneIsSure` | tools/bench_reasoning_batch.c:204-213 | the softmax law, first part: the share of a lone candidate is 1 |
| `ReasoningRuns.OneMoreLogit` | tools/bench_reasoning_batch.c:204-213 | the softmax law: one more logit x, no larger than the best, adds exp(x - best) to the reciprocal of the share |
| `ReasoningRuns.InAnyOrder` | tools/bench_reasoning_batch.c:204-213 | the softmax law: best logit and share do not depend on the order of the logits |
| `ReasoningRuns.AloneIsGreedy` | tools/bench_reasoning_batch.c:448-455 | what a case generates alone: each token follows from prompt and tokens before, at most cap, stopping at the first end-of-sequence token |
| `ReasoningRuns.ProbesExtend` | tools/bench_reasoning_batch.c:456-465 | probes are only added: those recorded stay a prefix |
| `ReasoningRuns.ProbesExactly` | tools/bench_reasoning_batch.c:456-465 | the probes a case records are those at every multiple of the interval below its length, and at its last token when it exits early; each holds the model logits of the candidates after prompt, tokens so far and probe tokens |
| `ReasoningRuns.EarlyExitTruncates` | tools/bench_reasoning_batch.c:466-472 | an early exit only truncates the run without one, token for token and probe for probe |
| `ReasoningRuns.ExitsExactly` | tools/bench_reasoning_batch.c:456-472 | a case exits early if and only if in its run without early exits some due probe gives the best candidate a share of at least tau: at the first such probe, with that candidate |
| `ReasoningRuns.NoEarlyExit` | tools/bench_reasoning_batch.c:467 | with tau 0 no run exits early |
| `ReasoningRuns.SizeDoesNotMatter` | tools/bench_reasoning_batch.c:429 | when the step does not depend on the batch size, neither does any run |
| `ReasoningSession.Session.Prefill` | include/geist_util.h:384-420 | appends the tokens or refuses and changes nothing |
| `ReasoningSession.Session.Restore` | include/geist_util.h:384-420 | the session becomes the image, whatever it was before; bytes that are no complete image for this model and session, or one that needs a larger window, are refused and the session untouched; a transfer that fails leaves it reset |
| `ReasoningSession.Session.DecodeStep` | include/geist_util.h:290-330 | one step appends the next token of the history, a full context refuses and changes nothing |
| `ReasoningSession.ProbeOnce` | tools/bench_reasoning_batch.c:166-201 | save, prefill, read, restore leaves the session exactly as it was, also when the probe does not fit or names a token beyond the vocabulary; otherwise it returns the logits after prompt, tokens and probe |
| `ReasoningSession.ProbeIfDue` | tools/bench_reasoning_probe.c:114-153 | a due probe is written within the buffer allocated for cap / interval + 2 probes, and the session is as before |
| `ReasoningSession.ProbesGoOn` | tools/bench_reasoning_probe.c:114-153 | so many probes were made at every position, never more than allocated |
| `ReasoningSession.GenerateProbed` | tools/bench_reasoning_probe.c:113-177 | the single-session loop, over token and probe buffers of the allocated sizes, generates what the case generates alone at batch size 1 and tau 0, and fails exactly when it has probes and a candidate beyond the vocabulary: in its larger window every probe fits |
| `CaseAccounting.AllEmitted` | tools/bench_reasoning_batch.c:425-455 | when no slot is active and no case waits, every case has been emitted exactly once |
| `CaseAccounting.EmitCase` | tools/bench_reasoning_batch.c:450-455 | emitting a case moves it from the active to the emitted ones; none is lost or doubled |
| `CaseAccounting.SameCase` | tools/bench_reasoning_batch.c:405-417 | padding and growing leave the active and emitted cases as they are |
| `ProbeWindow.PositionsBelow` | tools/bench_reasoning_batch.c:456-472 | whatever the model answers, no probe of a run is later than the last position the arguments allow |
| `ProbeWindow.ShapeSuffices` | tools/bench_reasoning_batch.c:286-287 | when prompt, last possible probe position and probe tokens fit the window and the candidates are known, every probe of the case can be made |
| `ProbeWindow.ShapeNeeded` | tools/bench_reasoning_batch.c:286-287 | otherwise a model that never ends and prefers no candidate makes a probe that cannot be made |
| `ReasoningBatch.ShapeDecides` | tools/bench_reasoning_batch.c:286-287 | so the arguments and the case decide it: its probes fit under every model with this vocabulary if and only if the last possible probe does |
| `ReasoningBatch.ProbeOverruns` | tools/bench_reasoning_batch.c:286-287 | a job the driver accepts whose first probe fits and whose probe after three tokens does not |
| `ReasoningBatch.Driver.Emit` | tools/bench_reasoning_batch.c:448-455 | the last token of a case goes within the cap allocated for its tokens; the sample is the one of the case alone, and the books hold |
| `ReasoningBatch.Driver.Grow` | tools/bench_reasoning_batch.c:448-465 | a token goes within the cap allocated; the case goes on as it would alone |
| `ReasoningBatch.Driver.ProbeAndSettle` | tools/bench_reasoning_batch.c:456-472 | token and probe go within the cap and the cap / interval + 2 allocated, the session is as before the probe, and the case goes on or exits early as it would alone |
| `ReasoningBatch.DueProbeRecorded` | tools/bench_reasoning_batch.c:456-465 | a probe that falls due is one of the probes the case has alone |
| `ReasoningBatch.AllDone` | tools/bench_reasoning_batch.c:425-426 | at the end: one sample per case, the token total is the sum of the lengths, and the tokens booked at each batch size are those of the emitted cases |
| `ReasoningBatch.Driver.PreparePrefix` | tools/bench_reasoning_batch.c:336-366 | the prefix image is always the state after the first n_cut tokens of the cached case, and on return of the present one |
| `ReasoningBatch.Driver.LoadPrompt` | tools/bench_reasoning_batch.c:367-371 | with or without the image the slot's session then holds exactly the case's prompt |
| `ReasoningBatch.Driver.FillSlot` | tools/bench_reasoning_batch.c:331-403 | a free slot takes the next case with its first probe, keeping all books and all other slots |
| `ReasoningBatch.Driver.PadSlots` | tools/bench_reasoning_batch.c:405-417 | live slots stay as they are, every spare one is live on exactly the first case's prompt, and no book changes |
| `ReasoningBatch.Driver.Collect` | tools/bench_reasoning_batch.c:418-424 | the members of a step are exactly the live (pad) or active slots, each once, with the number of real ones |
| `ReasoningBatch.Driver.DecodeBatch` | tools/bench_reasoning_batch.c:427-434 | each member's session is one step ahead with the token its own history gives; refused steps change nothing |
| `ReasoningBatch.Driver.KeepPadding` | tools/bench_reasoning_batch.c:438-447 | padding within two tokens of its window starts over on its prompt, other padding keeps its history; it stays in its window |
| `ReasoningBatch.Driver.StepMembers` | tools/bench_reasoning_batch.c:427-434 | no step is refused: every member has room, and is one token ahead afterwards |
| `ReasoningBatch.Driver.SettleOne` | tools/bench_reasoning_batch.c:448-472 | a member's token stops the case, probes it or lets it go on as it would alone; the work left shrinks |
| `ReasoningBatch.Driver.Settle` | tools/bench_reasoning_batch.c:436-473 | all members of a step settle; real tokens are in the books, the work left falls when any was real |
| `ReasoningBatch.Driver.Run` | tools/bench_reasoning_batch.c:328-474 | the loop ends (work left decreases) with every case done, or stops only when some case alone has a probe that cannot be made |
| `ReasoningBatch.RunJob` | tools/bench_reasoning_batch.c:305-480 | for every job: it succeeds exactly when every probe of every case alone fits, with its prompt and the tokens before it, in prompt limit plus cap plus 2 and names known candidates, and surely when all shapes fit; then each case has exactly one sample, equal to the one it has alone, its by_size sums to its length, tokens is the sum of lengths, steps_by_size sums to steps, and the by_size counts of the cases agree with it: without padding the cases hold together k * steps_by_size[k] tokens of size k, with padding all tokens and steps are of the full batch |
| `ReasoningBatch.BatchedVersusSingle` | tools/bench_reasoning_probe.c:161-177 | with a size-independent step the batched sample is the single driver's, cut short by an early exit only |
| `Layers.CheckTable` | tools/check_layers.py:114-121 | a table is accepted exactly when every declared use is a known layer whose uses are declared too; an accepted table is closed; a refusal names a layer that declares an unknown use, or one it uses whose uses it does not declare |
| `Layers.AcceptedExactly` | tools/check_layers.py:114-121 | the check passes if and only if each layer a declaration lists is declared and lists only layers the declaration lists too, or its own; the last declaration of a name counts |
| `Layers.LayerOfLongest` | tools/check_layers.py:123-127 | a file's layer is that of a longest matching prefix; none only without any match |
| `Layers.MayIncludeExactly` | tools/check_layers.py:132-141 | a file may include another if and only if both have layers and the first one, or a layer named for the file, is or lists the second |
| `Layers.PlainMayInclude` | tools/check_layers.py:132-138 | a plain file may include exactly the files of its layer and of those the layer may use |
| `Layers.NamingAdds` | tools/check_layers.py:139-141 | naming a layer for a file lets it include exactly what it could before and what a plain file of that layer may include, and changes nothing for other files |
| `Layers.EmptyEntryIsNone` | tools/check_layers.py:139-141 | a composition entry that names no layer gives nothing |
| `Layers.MayIncludeComposes` | tools/check_layers.py:132-141 | with closed uses "may include" composes through any file that is no composition point |
| `Layers.IncludeTreeExact` | tools/check_layers.py:218-233 | for every forest: the edges read from its dotted preorder listing are exactly its edges, whatever messages stand between |
| `Layers.IncludeTree` | tools/check_layers.py:218-233 | the stack loop reads the edges the specification reads, for every list of lines |
| `Layers.MessagesDoNotCount` | tools/check_layers.py:223-225 | lines that are no dotted entry change nothing, wherever they stand between the others |
| `Layers.WalkOpens` | tools/check_layers.py:109-111 | the include-once walk visits exactly the newly opened files, each once, and leaves every listed file open |
| `Layers.ShownAreIncludes` | tools/check_layers.py:218-233 | every shown edge is an include of the project: no false alarm |
| `Layers.HeaderAlone` | tools/check_layers.py:284-306 | a header compiled through the stub shows its own edges once the stub's are dropped |
| `Layers.NothingHides` | tools/check_layers.py:109-113 | for every table with closed uses and project without included composition points: if every edge shown for the roots and headers is allowed, every include of those files is, including those an include guard hides |
| `Layers.LoadTable` | tools/check_layers.py:92-121 | a table is loaded exactly when every declared use passes the check, and of a loaded table no project hides a violation |
| `Layers.ClosureNeeded` | tools/check_layers.py:109-121 | for every table whose layers have files: its uses are closed if and only if no project hides a violation (an undeclared layer uses nothing, so the refusal of unknown names guards against typing errors only) |
| `Layers.CompositionPointHides` | tools/check_layers.py:139-141 | an included composition point can hide its includer's violation |
| `Layers.SystemHeaderHides` | tools/check_layers.py:227-232 | so can a system header that includes a repository file |
| `C23Lexer.Lex` | tools/c23_metrics.py:101-168 | the index loop ends on every source and returns the specified tokens |
| `C23Lexer.Literal` | tools/c23_metrics.py:171-181 | the end of a literal, closed or not |
| `C23Lexer.Punctuator` | tools/c23_metrics.py:158-165 | the first listed punctuator at the position, else one character |
| `C23Lexer.SkipComment` | tools/c23_metrics.py:121-134 | the end of a comment, with a line comment continued by a backslash before its newline |
| `C23Lexer.Progress` | tools/c23_metrics.py:106-167 | every turn of the loop moves forward and stays within the source or one past it |
| `C23Lexer.LineAfter` | tools/c23_metrics.py:110-166 | the line stays 1 + the newlines passed, through splices, comments and literals |
| `C23Lexer.TokensInPlace` | tools/c23_metrics.py:101-168 | every token is on line 1 + the newlines before it, its text stands there in the source, and tokens come in order |
| `C23Lexer.NumEndIs` | tools/c23_metrics.py:147-154 | a number ends at the first character that is no letter, digit, dot, underscore or quote, nor a sign right after an exponent letter |
| `C23Lexer.LiteralEndIs` | tools/c23_metrics.py:171-181 | whatever follows, a literal ends past its first unescaped quote, or at the first unescaped newline if that comes before, or past the source; a character is escaped by an odd run of backslashes |
| `C23Lexer.PunctLengthIs` | tools/c23_metrics.py:158-165 | the length found is that of a longest listed punctuator standing there, else 1 |
| `C23Lexer.CharactersAre` | tools/c23_metrics.py:117-154 | blanks, quotes, exponent marks, signs and the characters of words and numbers, by their codes |
| `C23Lexer.PunctuatorsAre` | tools/c23_metrics.py:85-87 | the listed punctuators: of two characters a doubled sign, an operator before the equals sign and the arrow, of three the ellipsis and the assigning shifts |
| `C23RoundTrip.LongestPunctuator` | tools/c23_metrics.py:158-165 | wherever a listed punctuator stands, whatever follows, the token there is the longest one that does |
| `C23RoundTrip.OpenLiteral` | tools/c23_metrics.py:178-179 | a literal with no unescaped quote before an unescaped newline ends at that newline |
| `C23RoundTrip.StandsExactly` | tools/c23_metrics.py:106-167 | blank, splice, comment or token: it is read whole at a position if and only if it stands there before the text that follows, by a definition of standing apart from the lexer |
| `C23RoundTrip.RoundTrip` | tools/c23_metrics.py:101-168 | for every list of elements each of which stands before the rest, with or without separators between them: lexing the printed text returns exactly its tokens, with their line-start and space flags |
| `C23RoundTrip.EverySource` | tools/c23_metrics.py:101-168 | every source is the print of such a list |
| `C23RoundTrip.OneReading` | tools/c23_metrics.py:101-168 | and of only one |
| `C23RoundTrip.LexesExactly` | tools/c23_metrics.py:101-168 | so for every source: the lexer returns these kinds, texts and flags if and only if they are those of the elements the source consists of |
| `SwitchFrames.CountSwitches` | tools/c23_metrics.py:192-280 | the token loop computes the machine's two counts, hence those of any tree the tokens render |
| `SwitchFrames.CountsTree` | tools/c23_metrics.py:218-271 | on every well-formed statement tree the pass counts all switches, and as having a default exactly those a syntactic rule names |
| `SwitchFrames.Accounting` | tools/c23_metrics.py:218-271 | for every tree: counted + missed = own defaults + spurious ones |
| `SwitchFrames.CountsOwnExactly` | tools/c23_metrics.py:218-271 | the metric equals the number of braced switches with a default of their own if and only if as many are missed as are spurious |
| `SwitchFrames.CountsOwnDefaults` | tools/c23_metrics.py:192-195 | it is exact on every tree in which no braced switch has a switch in its condition and no brace-less switch has a default |
| `SwitchFrames.SwitchInConditionIsMissed` | tools/c23_metrics.py:219-221 | a switch inside the condition of a braced one makes the pass miss the outer default |
| `SwitchFrames.BareDefaultIsSpurious` | tools/c23_metrics.py:222-224 | the default of a brace-less switch counts for the switch around it |
| `SwitchPositions.SymbolIs` | tools/c23_metrics.py:218-271 | what a token is to the counter, by its kind and text and, for a default, the text after it |
| `SwitchPositions.CountsExactly` | tools/c23_metrics.py:192-271 | on every list of tokens, balanced or not, the pass counts the switch words, and as having a default the braces that open the body of a waiting switch, are closed, and hold a default at one brace and no parenthesis deeper |
| `EditDistance.EditDistance` | tools/eval_audio_wer.py:29-36 | two rolling rows give the recursive distance, for all word lists |
| `EditDistance.NextRow` | tools/eval_audio_wer.py:31-35 | the inner loop takes a row of the table to the next |
| `EditDistance.LeastCost` | tools/eval_audio_wer.py:29-36 | the distance is the least cost of any edit script: one has it, none is cheaper |
| `EditDistance.Symmetric` | tools/eval_audio_wer.py:29-36 | symmetric |
| `EditDistance.Triangle` | tools/eval_audio_wer.py:29-36 | triangle inequality |
| `EditDistance.ZeroOnlyOnEqual` | tools/eval_audio_wer.py:29-36 | 0 exactly on equal lists |
| `EditDistance.Bounds` | tools/eval_audio_wer.py:29-36 | between the length difference and the longer length |
| `MedianInterval.PatternsSize` | tools/bench_revision_ab.py:163-166 | there are 2^n sign patterns |
| `MedianInterval.WithOnesSize` | tools/bench_revision_ab.py:170 | math.comb(n, j) of them have exactly j ones |
| `MedianInterval.UncoveredSize` | tools/bench_revision_ab.py:166-171 | those with fewer than k or more than n - k ones are twice the running sum |
| `MedianInterval.IntervalRank` | tools/bench_revision_ab.py:163-174 | for every n the loop returns the largest k up to n/2 whose order statistics cover at least 95 in 100 sign patterns, None when none does |
| `MedianInterval.RankExists` | tools/bench_revision_ab.py:65-68 | there is a rank exactly from six cycles on |
| `MedianInterval.MissesExactly` | tools/bench_revision_ab.py:180-185 | the interval between the k-th smallest and k-th largest ratio misses a point exactly when more than n - k ratios lie on one side of it; then its sign pattern is uncovered, and conversely unless the point is a ratio; at most 5 in 100 patterns are |
| `MedianInterval.PairedChange` | tools/bench_revision_ab.py:177-186 | refuses exactly below six cycles; otherwise the row holds median, order statistics of the rank and cycles won |
| `MedianInterval.MedianIs` | tools/bench_revision_ab.py:184-185 | twice the median is the sum of the two values in the middle, one and the same when their number is odd |
| `MedianInterval.MedianInside` | tools/bench_revision_ab.py:184-185 | the reported median lies in the reported interval |
| `MedianInterval.VerdictExactly` | tools/bench_revision_ab.py:189-194 | "faster" if and only if at least n - rank + 1 cycles were won, "slower" the same for lost ones; at most 1 in 40 sign patterns is as extreme |
| `Sorting.SortKeeps` | tools/bench_revision_ab.py:180 | sorting rearranges |
| `Sorting.SortOrdered` | tools/bench_revision_ab.py:180 | and orders, for any total order |
| `Sorting.SortStable` | tools/decision_dataset.py:89 | rows that tie stay in their order |
| `Questions.Group` | tools/decision_dataset.py:135-137 | the dictionary of groups: each subject once, in order, with exactly its rows |
| `Questions.SizesSum` | tools/decision_dataset.py:135-139 | group sizes sum to the population |
| `StratifiedSample.LeftBounds` | tools/decision_dataset.py:139-141 | the remainders pay for the slots left: between none and the number of subjects with a remainder |
| `StratifiedSample.BumpedHaveRest` | tools/decision_dataset.py:140-142 | only subjects with a remainder get one more |
| `StratifiedSample.QuotasSum` | tools/decision_dataset.py:139-142 | for every population and size the quotas sum to exactly the size |
| `StratifiedSample.QuotaIsFair` | tools/decision_dataset.py:139-142 | each quota is within one of its exact share and no more than the subject's questions |
| `StratifiedSample.LargestRests` | tools/decision_dataset.py:140-142 | a subject with an extra slot precedes every one without by remainder, then hash |
| `StratifiedSample.SelectedOf` | tools/decision_dataset.py:143-146 | of each subject the selection is the first questions of its group by hash |
| `StratifiedSample.FirstExactly` | tools/decision_dataset.py:144-146 | of a group the questions with the smallest hashes are taken, in order |
| `StratifiedSample.SelectStratified` | tools/decision_dataset.py:123-147 | refuses exactly sizes outside 1..n; otherwise quotas and selection are those specified |
| `StratifiedSample.SampleIs` | tools/decision_dataset.py:123-147 | exactly `total` rows are selected, per subject as many as its quota |
| `SplitPartition.KeptIs` | tools/decision_dataset.py:68-83 | kept rows are conflict-free, not reserved by an earlier split and the first of their key |
| `SplitPartition.KeptOrDropped` | tools/decision_dataset.py:70-81 | every row of a split is kept or dropped, never both |
| `SplitPartition.CleanExactly` | tools/decision_dataset.py:68-83 | each row of a split is where it belongs: kept, after the good ones before it, or excluded with its reason, which is a conflict over all rows, an earlier split, or the same split before, in this order |
| `SplitPartition.Clean` | tools/decision_dataset.py:69-81 | the loop keeps and drops as specified; under "reject" it raises for the first dropped row |
| `SplitPartition.FindConflicts` | tools/decision_dataset.py:51-60 | the conflicting keys are exactly those annotated with two answers |
| `SplitPartition.Spread` | tools/decision_dataset.py:85-92 | the alternation by subject |
| `SplitPartition.Balanced` | tools/decision_dataset.py:88-92 | per subject development has as many rows as calibration or one more |
| `SplitPartition.EachRowOnce` | tools/decision_dataset.py:69-93 | every validation and test row is in exactly one of the prepared splits and the exclusions |
| `SplitPartition.SplitsAreSeparate` | tools/decision_dataset.py:66-96 | no key repeats in a prepared split, is in two, or is an exemplar's |
| `SplitPartition.SplitsExactly` | tools/decision_dataset.py:66-93 | a partition question by question: kept validation rows of a subject go, in the order of their hashes, by turns to development and calibration; validation keys stay reserved for the test rows even when excluded |
| `SplitPartition.SubjectsInOrder` | tools/decision_dataset.py:88-92 | both splits go subject by subject in the order of the names |
| `SplitPartition.Partition` | tools/decision_dataset.py:42-102 | succeeds exactly under a valid policy without conflicting exemplars and, under "reject", without exclusions; names the right error otherwise, and never "split separation invariant failed" |
| `TernaryPacking.FlatIs` | tools/convert_bitnet_embedding.py:157-160 | shape and (block, half, group, lane) agree with one flat rule of 128 elements in 32 bytes |
| `TernaryPacking.PlacesAreElements` | tools/convert_bitnet_embedding.py:157-160 | (row, block, half, group, lane) and element indices correspond one to one |
| `TernaryPacking.OrGroup` | tools/convert_bitnet_embedding.py:162-163 | ORs one group into all bytes without touching the fields before |
| `TernaryPacking.Pack` | tools/convert_bitnet_embedding.py:160-164 | every two-bit field of every byte holds the code of its own element |
| `TernaryPacking.Unpack` | tools/convert_bitnet_embedding.py:174-178 | the decoder reads every field to its own element |
| `TernaryPacking.PackedByteIs` | tools/convert_bitnet_embedding.py:155-163 | a packed byte as a number: four digits to the base 4, the codes of the four elements 32 columns apart, the first one leading |
| `TernaryPacking.TritsAre` | tools/convert_bitnet_embedding.py:165-178 | the decoder reads these digits, each less one, from any bytes |
| `TernaryPacking.Dequantize` | tools/convert_bitnet_embedding.py:167-178 | the decoder multiplies the trits of the packed bytes by the scale |
| `TernaryPacking.RoundTrip` | tools/convert_bitnet_embedding.py:130-178 | for all codes of whole blocks unpacking gives them back |
| `TernaryPacking.TritIs` | tools/convert_bitnet_embedding.py:154-155 | rounding half to even and clipping has thresholds at one half and gives a nearest trit |
| `TernaryPacking.Quantize` | tools/convert_bitnet_embedding.py:137-164 | refuses exactly widths that are no multiple of 256 and tensors of zeros; otherwise mean magnitude and packed nearest trits |
| `TernaryPacking.ScaleIs` | tools/convert_bitnet_embedding.py:150-152 | the scale times the size is the sum of the magnitudes, which adds up over parts |
| `TernaryPacking.Decoded` | tools/convert_bitnet_embedding.py:167-178 | decoding an encoded tensor gives each weight's nearest trit times the scale |
| `TernaryPacking.SignsKept` | tools/convert_bitnet_embedding.py:150-155 | a tensor that is already ternary keeps all its signs |
| `GgufLayout.OffsetsAligned` | tools/convert_bitnet_embedding.py:275-278 | every planned offset is a multiple of 32 |
| `GgufLayout.RangesDisjoint` | tools/convert_bitnet_embedding.py:275-278 | planned ranges are disjoint and in order |
| `GgufLayout.PlanIsTight` | tools/convert_bitnet_embedding.py:273-325 | the plan starts at 0 and leaves less than 32 bytes between two tensors |
| `GgufLayout.GapsAreZero` | tools/convert_bitnet_embedding.py:273-325 | what stands between a payload and the next planned offset is zero |
| `GgufLayout.HeaderExactly` | tools/gguf_write.py:45-61 | the header is the metadata, every tensor info with its planned offset, and as few zeros as align it to 32 |
| `GgufLayout.PayloadAt` | tools/convert_bitnet_embedding.py:281-286 | each payload stands at its planned offset of the data section |
| `GgufLayout.WriteGguf` | tools/convert_bitnet_embedding.py:273-286 | completes exactly when every tensor emits its planned size; otherwise stops at the first that does not, having written header and the tensors before |
| `GgufLayout.ReaderFinds` | tools/gguf_write.py:52-61 | aligned header plus offset is where a reader finds each payload, at a multiple of 32 |
| `GgufLayout.PackedAsPlanned` | tools/convert_bitnet_embedding.py:309-317 | a packed tensor and its scale are exactly the planned bytes |
| `Calibration.ProbesStep` | tools/decision_metrics.py:77-87 | dropping either side leaves the other probe at its golden position |
| `Calibration.Side` | tools/decision_metrics.py:80-84 | comparing the probes tells on which side a unimodal loss has its minimiser |
| `Calibration.SearchSteps` | tools/decision_metrics.py:79-87 | a step keeps probes, bracket, width r^n and every unimodal minimiser |
| `Calibration.FitTemperature` | tools/decision_metrics.py:72-93 | for every loss: the result is within the bounds and no worse than at temperature 1, the bounds and the final middle; the bracket is r^70 wide and keeps the minimiser of any unimodal loss |
| `Calibration.MinimiserFound` | tools/decision_metrics.py:75-88 | the final middle is within 10^-14 of the search width of that minimiser |
| `Calibration.Bisect` | tools/decision_metrics.py:155-162 | 65 halvings find where a falling function drops to a level, to 2^-66 |
| `Calibration.BisectedExactly` | tools/decision_metrics.py:155-162 | of 2^65 equal parts of [0, 1] the function drops to the level in exactly one, and the search ends in its middle |
| `Calibration.ExactInterval` | tools/decision_metrics.py:151-174 | both ends of the exact interval are such places; 0 and 1 at the ends; the ends are in order, within [0, 1] |
| `Calibration.InOrder` | tools/decision_metrics.py:151-174 | of two searches of one bracket the one with the larger function and the lower level never ends further left |
| `UnionResolve.ResolveLines` | scripts/ci-bot.py:181-207 | the loop computes the specified resolution of every list of lines |
| `UnionResolve.KeepLacking` | scripts/ci-bot.py:197-198 | of theirs exactly the lines blank or absent from ours, in order |
| `UnionResolve.DocumentResolves` | scripts/ci-bot.py:181-207 | every document of plain and conflict segments, with any base sections, resolves to its plain lines and per block ours and then theirs that ours lacks |
| `UnionResolve.ResolvesDocuments` | scripts/ci-bot.py:181-207 | a text resolves if and only if it is the text of such a document, and then to that |
| `UnionResolve.NoAnswer` | scripts/ci-bot.py:181-207 | None exactly when a block opens inside another or is never closed, stated by positions of marker lines |
| `UnionResolve.ResolvedStays` | scripts/ci-bot.py:181-207 | resolving resolved lines changes nothing |
| `UnionResolve.LinesAreCut` | scripts/ci-bot.py:186 | every text is the join of its lines, cut at every separator of str.splitlines, with a return and a newline as one |
| `UnionResolve.JoinedHasNoHead` | scripts/ci-bot.py:186-207 | joining lines and cutting them again brings up no opening marker, also where a return meets a newline |
| `UnionResolve.ResolveUnion` | scripts/ci-bot.py:181-207 | the whole function on texts |
| `UnionResolve.ResolveTwice` | scripts/ci-bot.py:181-207 | for every text: resolving the joined result again changes nothing |
| `UnionResolve.PlainTextStays` | scripts/ci-bot.py:203-207 | a text without opening marker is its own resolution |
| `UnionResolve.MarksAre` | scripts/ci-bot.py:187-193 | the four marks by their characters: seven of a kind, and what may follow |
| `UnionResolve.MergedIs` | scripts/ci-bot.py:194-196 | a block becomes ours and then, in order, each line of theirs that ours lacks or that is blank |
| `UnionResolve.LinesExactly` | scripts/ci-bot.py:186 | the lines of a text are the only way to cut it at the breaks of str.splitlines, a return and a newline being one |
| `CiBot.Bot.Judge` | scripts/ci-bot.py:379-391 | the verdicts on the failed jobs, looking up logs only where needed |
| `CiBot.Bot.Choose` | scripts/ci-bot.py:394-410 | the decision on one attempt and the writes it takes, up to the first raise |
| `CiBot.Bot.DecideAttempt` | scripts/ci-bot.py:394-411 | one attempt: tables and writes are exactly those of the decision rule |
| `CiBot.Bot.CiOf` | scripts/ci-bot.py:364-412 | the run loop, stopping at the first raise |
| `CiBot.Bot.SendBackPr` | scripts/ci-bot.py:428-437 | cancel, report, label in this order, up to the first raise |
| `CiBot.Bot.Comment` | scripts/ci-bot.py:440-450 | a comment only without entry and marker, entered once it is there |
| `CiBot.Bot.RebasePr` | scripts/ci-bot.py:453-492 | fetch, earlier outcome, moved head, trial, right to push, push, entry |
| `CiBot.Bot.ReadDeps` | scripts/ci-bot.py:504-508 | closed and waiting dependencies, or the first raise |
| `CiBot.Bot.DepsOf` | scripts/ci-bot.py:500-542 | the dependency step as specified |
| `CiBot.Bot.Handle` | scripts/ci-bot.py:350-355 | the three steps of a pull request: a raise ends its own step, a push all |
| `CiBot.Bot.TickOnce` | scripts/ci-bot.py:338-361 | a poll over all repositories, and forgetting closed pull requests only when every list was read |
| `CiBot.Bot.Serve` | scripts/ci-bot.py:562-569 | any number of polls; a new bot does each thing within the limit of PollsPay, and each of its writes is justified by what the poll it is made in has read |
| `CiBotRules.TickPays` | scripts/ci-bot.py:338-361 | in a poll every limited write is entered in the tables and no table passes its limit |
| `CiBotRules.PollsPay` | scripts/ci-bot.py:338-450 | over any polls with any answers: reruns of a run and head at most RERUN_MAX, decisions and labels of an attempt, comments of a kind, pushes of a head onto a base and auto-merges at most one, each times one more than the complete polls that missed the pull request; failure reports of an attempt the same and one more for every read that could report it and lose the label |
| `CiBotRules.Limits` | scripts/ci-bot.py:338-450 | so a pull request that every complete poll lists has each at most its limit, and a failure report one more for every lost label |
| `CiBotRules.PollsReport` | scripts/ci-bot.py:415-437 | over any polls, from any tables: reports of an attempt are at most its labels and the reads that could report it and lose the label |
| `CiBotRules.DroppedRunsAgain` | scripts/ci-bot.py:356-360 | that bound is reached: one complete poll without the pull request and its run is rerun twice RERUN_MAX times |
| `CiBotRules.RerunFourTimes` | scripts/ci-bot.py:356-360 | with a pull request and jobs written out |
| `CiBotRules.PollActsAre` | scripts/ci-bot.py:338-361 | the writes of the polls, poll by poll, are all writes |
| `CiBotRules.OnlyWithCause` | scripts/ci-bot.py:364-542 | every write was justified by what the same poll read of the pull request: reruns only when all failed jobs died of infrastructure, auto-merge only with every dependency merged, asked for and no agent head, pushes only on own or labelled branches with an unmoved head, cancellations, reports and labels only for accepted pull requests with a real failure of that attempt, none in dry-run |
| `CiBotJobs.VerdictIs` | scripts/ci-bot.py:98-125 | a failed job is held if and only if its first failed step is the hold step; else infrastructure if it ran no first step, failed in every step, died early in setup after clean steps or has no log; else a real failure if it has a log |
| `CiBotJobs.VerdictsAre` | scripts/ci-bot.py:379-394 | the verdicts of a run are those of its failed jobs, and there are none when a log that is needed cannot be read |
| `CiBotRules.JudgedIs` | scripts/ci-bot.py:367-411 | which runs are decided on, and how, by the shapes of their failed jobs |
| `CiBotWrites.DecidedExactly` | scripts/ci-bot.py:367-411 | what the tables hold after a run is read: its decision, by the shapes of its jobs, once the writes went through, and one more rerun; else nothing changes |
| `CiBotWrites.RaisesExactly` | scripts/ci-bot.py:367-411 | a run is read again if and only if its jobs, a needed log or a write failed |
| `CiBotWrites.RerunExactly` | scripts/ci-bot.py:367-411 | a run is rerun if and only if it is finished, of the present head, undecided, all its failed jobs are infrastructure, it has reruns left and the write returned |
| `CiBotWrites.ReportExactly` | scripts/ci-bot.py:367-437 | a failure report is posted if and only if the attempt is finished, undecided, has a real failure and is not held, the pull request is accepted, the auto-merge could be cancelled or was not scheduled, and the report was taken; the attempt then stays undecided exactly when the label write after it fails |
| `CiBotWrites.SentBackExactly` | scripts/ci-bot.py:415-437 | auto-merge cancelled, report posted and label written, each if and only if the attempt is to be sent back and the writes up to it went through |
| `CiBotWrites.WritesInOrder` | scripts/ci-bot.py:415-437 | the writes of a run come in this order, each once: the label that starts the fix job comes after the report |
| `CiBotWrites.RunsAppend` | scripts/ci-bot.py:364-413 | the runs of a head are handled in order up to the first that raises |
| `CiBotWrites.UnreadableEnds` | scripts/ci-bot.py:364-368 | a run that cannot be read ends the step: what was done before it stays done, nothing after it is read |
| `CiBotWrites.RebaseExactly` | scripts/ci-bot.py:454-498 | a rebase is tried once for a head and a base: it pushes if and only if it applies, the head is still the listed one and the branch is in the repository and carries the label or only commits of bots beside merges; else it comments once why not; its end is remembered unless it raised |
| `CiBotWrites.DepsExactly` | scripts/ci-bot.py:505-542 | the dependency step comments when all dependencies were read and one was closed unmerged; with all merged it rebases and, if the head stays and there is no conflict, enables auto-merge for a pull request that asks for it |
| `CiBotWrites.MergeEnteredExactly` | scripts/ci-bot.py:521-542 | auto-merge is remembered when it was enabled, scheduled before or not asked for; a failed request is made again |
| `CiBotWrites.StepsExactly` | scripts/ci-bot.py:347-354 | the three steps of a pull request: the second works from the same tables whatever the first did or raised, the last is left out only after a push |
| `CiBotWrites.EachPrAlone` | scripts/ci-bot.py:338-354 | in a poll over distinct pull requests the writes are those of each one alone, from the tables at the start: none stands in the way of another |
| `CiBotRules.ReportRepeats` | scripts/ci-bot.py:428-437 | the bound on reports is reached: for every n a run of n polls that lose the label and one that does not reports one attempt 1 + n times, with the pull request always listed |
| `CiBotRules.ReportedTwice` | scripts/ci-bot.py:428-437 | two polls, written out, report one attempt twice |
| `VoiceActivity.Listen` | examples/push_to_talk.c:201-252 | for every stream and every pattern of refused pushes, failed begins and ends, the streaming loop closes exactly the turns of the offline cutting |
| `VoiceActivity.Hear` | examples/dictate.c:203-208 | the three-frame ring holds the loud frames just heard; the third opens |
| `VoiceActivity.Push` | examples/dictate.c:221-225 | audio, pushed and quiet after a frame are those of the cutting; the length guard never blocks |
| `VoiceActivity.CutOnce` | examples/push_to_talk.c:201-252 | the cutting has one result |
| `VoiceActivity.InOrder` | examples/push_to_talk.c:201-252 | utterances are disjoint and ordered |
| `VoiceActivity.TurnIs` | examples/push_to_talk.c:203-212 | each opens at the first three loud frames after the one before |
| `VoiceActivity.PushedBounded` | examples/push_to_talk.c:223-232 | pushed never exceeds MAX_UTT |
| `VoiceActivity.AudioIsContiguous` | examples/push_to_talk.c:218-225 | with all pushes taken the audio is the stream from the first of the three loud frames, none lost |
| `VoiceActivity.EndIs` | examples/push_to_talk.c:231-232 | an utterance ends at 40 quiet frames in a row or at 28 seconds, whatever the session refused |
| `VoiceActivity.TurnExactly` | examples/push_to_talk.c:201-252 | each closed turn by its frames: it opens at the first three loud ones after the turn before, ends when forty in a row were quiet or 1400 frames were not refused, its audio is what the session took, and it is transcribed when 25 frames not refused reach to its last loud one, or more than these were refused |
| `VoiceActivity.RestIsSilent` | examples/push_to_talk.c:201-252 | after the last turn no utterance is over: none opens, or the session refuses it, or the stream stops in it |
| `VoiceActivity.SpeechIs` | examples/push_to_talk.c:235-237 | pushed minus the closing silence does not wrap and is the length to the last loud frame |
| `VoiceActivity.TranscribedExactly` | examples/push_to_talk.c:235-250 | with refusals it wraps exactly when more frames were refused than lead up to the last loud one; when an utterance is transcribed, exactly |
| `VoiceActivity.SlamIsTranscribed` | examples/push_to_talk.c:235-250 | a concrete stream, 60 ms of speech with refused pushes, that is transcribed |
| `Dictation.AppendPiece` | examples/dictate.c:65-78 | appends the shown piece up to the buffer and ends the string |
| `Dictation.CleanIsKept` | examples/dictate.c:65-78 | printable bytes without marks are shown unchanged |
| `Dictation.ShownExactly` | examples/dictate.c:65-78 | a piece is shown byte by byte, the place alone deciding: U+2581, tabs and line ends as a space, other control bytes not at all |
| `Dictation.TextIs` | examples/dictate.c:120-122 | the text of a reply is that of its tokens, one after the other |
| `Dictation.Cycles` | examples/dictate.c:114-118 | the ring comparison |
| `Dictation.RingLoops` | examples/dictate.c:112-118 | on the eight-entry ring it says exactly that the last eight tokens repeat with period one or two |
| `Dictation.Transcribe` | examples/dictate.c:94-130 | prints the pieces up to the first stop token, decode end, cap or loop, trimmed; drops a reply that starts on the thought channel |
| `Dictation.OneLine` | examples/dictate.c:125-130 | whatever the model replies at most one line of printable bytes is printed |
| `Dictation.LoopIsCut` | examples/dictate.c:112-118 | a reply in which six tokens in a row repeat the one two before is cut at the last of them, whatever follows |
| `Dictation.OthersRunOn` | examples/dictate.c:98-119 | a reply that never repeats so runs to its stop, end or cap |
| `Dictation.CutExactly` | examples/dictate.c:98-119 | where a reply ends: at its first stop token or sixth repetition, else after 400 tokens or at its end |
| `Dictation.PrintsExactly` | examples/dictate.c:94-130 | what is printed: nothing of a reply that starts on the thought channel, of any other the first 4095 bytes of its text without one leading space, unless that is empty |
| `DecisionWire.NumberPrint` | tools/bench_decision.c:27-40 | decimal printing and range-checked reading invert each other up to SIZE_MAX and refuse beyond |
| `DecisionWire.ScanPrinted` | tools/bench_decision.c:43-50 | scanning a printed number before white space returns it and the rest |
| `DecisionWire.NumberExactly` | tools/bench_decision.c:27-40 | for every text: it is read as a number if and only if it is white space, a sign or none and digits of a value below 2^64, and does not begin with a minus |
| `DecisionWire.ValueIs` | tools/bench_decision.c:27-40 | the value of digits: each counts ten times what the one after it does |
| `DecisionWire.ScanExactly` | tools/bench_decision.c:43-50 | for every input: which number is read and what is left, words being cut at 23 characters; nothing exactly in white space |
| `DecisionWire.ReadIdsLoop` | tools/bench_decision.c:51-60 | reads n ids below the vocabulary or refuses |
| `DecisionWire.ReadCases` | tools/bench_decision.c:241-248 | the reader loop computes the specified case list or error |
| `DecisionWire.RoundTrip` | tools/bench_decision.py:56-58 | for all cases: reading what was written returns them if and only if all fit the buffers and the vocabulary; otherwise the first that does not is named |
| `DecisionWire.ReadEnds` | tools/bench_decision.c:241-248 | for every input: the cases returned are those whose numbers stand in it, all fitting and with nothing after them; an error names the first place where no fitting case follows, or a word that is no number |
| `ModeFilter.ParseModes` | tools/bench_decision.c:116-143 | accepts and flags as specified |
| `ModeFilter.AcceptedExactly` | tools/bench_decision.c:116-143 | a filter is accepted if and only if it is a non-empty comma-joined list of distinct mode names, and switches on those |
| `ModeRotation.OncePerTrial` | tools/bench_decision.c:280-281 | in each trial every mode runs at exactly one position |
| `ModeRotation.OncePerPosition` | tools/bench_decision.c:280-281 | over any n_modes trials in a row every mode runs exactly once at every position |
| `ModeRotation.RotationExactly` | tools/bench_decision.c:280-281 | the first trial of the first case runs the modes in order, every later trial and every later case starts one mode further on |
| `ModeRotation.RunSampleAt` | tools/bench_decision.c:277-347 | the run goes case by case, trial by trial, position by position: which sample stands where |
| `ModeRotation.Emit` | tools/bench_decision.c:277-347 | the case, trial and position loops emit the specified samples |
| `SampleCheck.EnrichAndCheck` | tools/bench_decision.py:94-150 | the check passes if and only if every (case, mode, trial) occurs once with its phase and nothing else does, every sample has a positive latency, its case's input and sound scores, every decision agrees with the first of its trial and every selected one matches the dense one; it marks each sample right or wrong |
| `SampleCheck.FirstPass` | tools/bench_decision.py:94-140 | the pass over the samples keeps the keys seen and the first decision of each trial |
| `SampleCheck.SecondPass` | tools/bench_decision.py:141-150 | the pass over selected rows finds the one dense sample of the trial |
| `SampleCheck.FirstOfIs` | tools/bench_decision.py:126-133 | the reference of a trial is the earliest of its samples whose mode decides |
| `SampleCheck.SoundExactly` | tools/bench_decision.py:106-123 | a sample of a known case is refused exactly when its latency is not positive, its input is not that of the case, or its answer is not what its mode gives: tokens, or for the three deciding modes a best candidate, a score for each, and probabilities between 0 and 1 that sum to one |
| `SampleCheck.AgreesExactly` | tools/bench_decision.py:127-131 | two decisions over the same candidates agree exactly when they name the same best one and no score and no probability is more than a millionth, absolute and of either, apart |
| `SampleCheck.MatchesExactly` | tools/bench_decision.py:142-149 | selected rows match a dense sample exactly when scores and best are equal, no probability is more than 10^-12 off, and the instruments show a row per candidate, four bytes per row and time in the head |
| `SampleCheck.TotalIs` | tools/bench_decision.py:122 | the sum that must be one, over parts and of one number |
| `SampleCheck.SumsToOne` | tools/bench_decision.py:122 | which sums of probabilities count as one |
| `SampleCheck.NearExactly` | tools/bench_decision.py:129-130 | when two scores count as agreeing |
| `SampleCheck.CorrectExactly` | tools/bench_decision.py:134-138 | a sample is right when its best candidate is the answer, or its first token is that candidate and no earlier one |
| `ModeRotation.RunPasses` | tools/bench_decision.py:94-107 | for all modes, cases, warm-ups and repeats the driver's samples are exactly those demanded |

## Left out

- The inference engine, kernels, tokenizer and key-value cache: only their header contracts are used.
- Rounding of floating point everywhere: reals stand for floats, so the last digits of logits, ratios, losses and packed scales are not modelled; the batch size of a step is fixed or the step is assumed independent of it.
- Shape of the log-loss and of the binomial distribution function: a unimodal loss and a falling function are hypotheses, and the early end of the tail sums in `_binomial_cdf` is not modelled.
- Golden ratio: any real r with r * r = 1 - r stands for the floating-point constant.
- Threads of `scripts/git-cache.py` as code: they are a step relation, since interleaving is the point; HTTP, the git processes and a half-made clone directory of a failed clone are outside it.
- Sequence of engine failures in the batching loop other than a full context or a bad probe: out of memory, cancellation and backend faults end the program and are not modelled.
- Report lines, timings and byte sizes of images.
- Arguments, JSON, files, subprocesses and the network of all programs: parsed values or arbitrary answers take their place.
- Snapshots of sessions that support none (KIVI cache, drafter, embedding models) or with an open audio stream, and backend transfers that fail inside the drivers.
- Buffers of the batching driver: its slots hold token and probe lists; that no index passes the allocation is stated by `Driver.Emit`, `Driver.Grow` and `Driver.ProbeAndSettle`.
- Cancelled auto-merges are not counted: they repeat as the reports do, and a repeated cancellation changes nothing.
- Regular expressions of `scripts/ci-bot.py` (setup steps, dependencies, auto-merge words, bot commits): the model starts from which of them matched; likewise listed steps are in the order of their numbers.
- API writes that take effect but raise, retries inside one write, comments beyond the first page and a stop between a write and `Bot.save`.
- `once_log` of `scripts/ci-bot.py`: it only limits log lines.
- Switches without braces whose statement is a block after labels, and tokens that no statement tree renders: their count is stated by positions only (`SwitchPositions.CountsExactly`).
- Other counts of `tools/c23_metrics.py`, `ratchet` and `raised`: each is settled by reading one branch.
- `compare`, `write_baseline` and the symbol checks of `tools/check_layers.py`: set differences.
- `paired_quality`, `quality` and `parse_answer` of `tools/decision_metrics.py`, `permute` and `select_per_subject` of `tools/decision_dataset.py`, `validate_question`: easy members.
- `question_key`: the key is given with each row, as an injective digest.
- The `--prefix` form of the wire input; samples that lack a field.
- Loudness of a frame: whether a frame is loud is an input.
- Names, dimensions and metadata encoding of the GGUF header: any encoder of a tensor info stands for them.
- `map_tensor_name`, and the models' conversions to half precision.
- Gates, charts, host probes, model adapters and generators of the repository.
