# agentihooks: verified models of its small protocols

agentihooks is a harness of hooks and scripts around coding agents. Much of it is small protocols that have to hold up
under lost runners, failed writes, alarms and half finished listings. This project models the hardest of them in Dafny
4.11 and proves what they are for. `dafny verify dfyconfig.toml` checks all of it.

One module stands for one script, and small modules hold what several share.

| file | what it models |
|---|---|
| `QueueRetry.dfy`, `LostRunner.dfy` | the job graph of a run, its bounded closure, and the decision that a run with a lost runner can never go on, against a transition system of the run |
| `Expressions.dfy`, `GuardText.dfy`, `RunnerTrust.dfy` | the workflow expression language (lexer, parser, printer, evaluator), the guard as text and as tree, and the text comparison that lets a job on a trusted runner |
| `CodexInput.dfy`, `CodexSpans.dfy`, `CodexKeys.dfy` | the terminal input framer as a byte machine, against a tokeniser of the whole stream, which events each unit of the stream is read from, and what each kind of key press comes out as, byte by byte |
| `PythonLines.dfy`, `ShellWords.dfy`, `TokenBlocks.dfy`, `AicodeTokens.dfy`, `RcFiles.dfy`, `TokenReading.dfy`, `TokenRoundTrip.dfy` | the managed token block of an rc file: cutting, splicing, upsert on documents and on text, and reading back through the shell's word rules |
| `CodexRefresh.dfy` | rotating refresh tokens kept in OpenBao with a recovery file |
| `PromptBudget.dfy` | steps under an alarm that may go off between any two statements |
| `DesignRules.dfy` | base class resolution and two searches over inheritance graphs that may be cyclic |
| `GateQueue.dfy`, `QueueRuns.dfy` | the verdict on a partial job listing of a merge queue run, and what it is for listings that are spelled out |
| `BranchPlan.dfy` | which tests a run may take over from earlier runs |
| `EnvFiles.dfy` | environment files layered below the process environment, and their reload |
| `ArtifactStorage.dfy`, `Sorting.dfy` | which artifacts are deleted, the limit loop, and the pace of deletion |
| `LogRotation.dfy` | a rotating log whose renames may fail |
| `MarkdownSections.dfy` | cutting a markdown file into sections and taking one out |
| `Text.dfy`, `Wrappers.dfy` | the few string operations and result shapes used throughout |

Loops and objects of the source are methods and classes here, each proved against a function or predicate on values; the
lemmas about those functions say what the source promises. Where results go through a small function (the base of a job
name, the text inside a condition's wrapper, the bytes that end a sequence, the test that opens `run`), further lemmas say
what that function does to texts, bytes and states that are written out. Regular expressions, YAML, JSON, hashes and
network calls are taken as given: they are parameters, or fields of the values a model starts from. The alarm of the
prompt budget and the continuations of a run are state machines over single steps, because what matters there is every
interleaving.

## What the proofs brought to light

* An early rejection of a queue listing is final exactly when the listing is at fault for something but a failed rerun
  (`GateQueue.RejectionIsFinalExactly`). One for a failed rerun alone turns back into waiting once the collapsed
  `unit rerun` entry is listed too and has not ended; it still never passes (`GateQueue.FailedRerunLapses`,
  `GateQueue.RejectedNeverPasses`).
* A stale entry of an upsert survives only when it is the last one (`AicodeTokens.OneExportInAllBlocks`). A line that
  quotes its whole assignment is read by the shell, but the pattern does not see it, so its old value wins
  (`TokenRoundTrip.QuotedAssignmentShadows`). A value with a line break is written but never read back
  (`TokenRoundTrip.ReadsBackExactly`).
* Which answers of the provider can lose the refresh token silently is exact (`CodexRefresh.AnswerIsSafeExactly`). A grant
  needs an expiry that is an integer and outlives what is stored under another refresh token, whether or not the grant
  itself replaces the token: a stale recovery file that could not be removed comes back to life once a grant expires
  before it. An answer without an access token that did replace the refresh token loses the account
  (`CodexRefresh.ReplacedWithoutAccessIsLost`).
* A reload keeps the old value of a key that is gone from the environment files (`EnvFiles.ReloadIsLikeAFirstLoadExactly`).
* The loop that skips blank lines behind an extracted section never runs (`MarkdownSections.NothingToSkip`). A heading
  without a name is taken for a preamble, so sections tile a file exactly when there is none but on its first line
  (`MarkdownSections.SectionsTileExactly`), and taking out a section below one goes wrong
  (`MarkdownSections.ExtractionKeepsTheRestExactly`).
* For expressions that parse, the parenthesis count of the guard check is not needed: the ban on `||` is enough
  (`RunnerTrust.ConjunctionKeepsPrefix`). What the check accepts behind the guard is exact for texts without literals
  (`RunnerTrust.AndBehindGuardExactly`).
* A cut that the alarm raises inside `_settle`, before the flag is cleared, goes no further but leaves the flag set behind
  a step that is over (`PromptBudget.CutInSettleIsSwallowed`); it is the `finally` of `guarded` that clears it
  (`PromptBudget.BodyEndsGuarded`).

## What is taken for granted

* Stalled runs: base names tell jobs apart, polling jobs have no matrix suffix in their name, the needs graph is acyclic,
  lost rows are running rows, nothing in the snapshot started or ended before what it waits for, and every job that could
  start is listed. A lost job never completes; a job starts or is skipped once its needs are complete; a polling job
  completes after the unit and rerun jobs.
* Guard: the functions of the expression language and the values of its contexts are arbitrary.
* Refresh: only the live refresh token is granted, a refused grant does not replace it, and no run stops between its grant
  and its write. That granted access tokens expire later and later is taken for granted by `CodexRefresh.NoSilentLoss` alone.
* Budget: a timer goes off once, the body and the steps never catch the cut, and steps set no timer of their own.
* Queue listings: between two polls jobs are added and go on; a completed job does not change, and whether its runner was
  lost is a property of the job.
* Paced deletion: the lock makes each turn one step; time is a real number.

## Model

| member | source | states |
|---|---|---|
| `QueueRetry.BaseNameIdempotent` | scripts/ci_queue_retry.py:31-32 | a base name is its own base name, so that base names can be compared with each other |
| `QueueRetry.BaseOfMatrixRow` | scripts/ci_queue_retry.py:31-32 | a name without " (" is its own base, and so is every name with " (" and anything behind it; white space at the ends of the base goes |
| `QueueRetry.BaseOfShard` | scripts/ci_queue_retry.py:31-32 | the same for a name without white space at its ends: "unit rerun (3.12, 1)" has the base "unit rerun" |
| `QueueRetry.QueueNames` | scripts/ci_queue_retry.py:39-48 | a workflow that names its two gates by these two rules shows the second half of each rule as the name, and every other job its own name or its id |
| `QueueRetry.PollerWatchesShards` | scripts/ci_queue_retry.py:51-72 | a job with a step that runs one of the two polling commands waits for unit and unit-rerun besides what it declares |
| `QueueRetry.OthersWatchNothing` | scripts/ci_queue_retry.py:51-72 | any other job waits for what it declares and no more |
| `QueueRetry.DependentIds` | scripts/ci_queue_retry.py:64-77 | as many rounds as there are jobs reach the least fixed point on any graph, cyclic or not: the result holds exactly the jobs from which the root is reachable over at least one edge, polling edges included |
| `QueueRetry.Dependents` | scripts/ci_queue_retry.py:64-77 | the names of exactly those jobs |
| `QueueRetry.ClosedHoldsReaching` | scripts/ci_queue_retry.py:74-77 | a set that a round no longer grows holds every job that reaches the root |
| `LostRunner.LostJobs` | scripts/ci_lost_runner.py:78-93 | exactly the rows of running jobs on a runner of ours that is gone for the grace time and that left a step undone |
| `LostRunner.JobIdIn` | scripts/ci_lost_runner.py:96-97 | a job of the file with that base name, and none exactly when no job has it |
| `LostRunner.JobIdIsLast` | scripts/ci_lost_runner.py:96-97 | of several jobs with one base name it is the last in the file |
| `LostRunner.BlockedBases` | scripts/ci_lost_runner.py:103-106 | the base names of exactly the jobs that depend on a job with a lost row |
| `LostRunner.Stalled` | scripts/ci_lost_runner.py:100-114 | the verdict is a stall exactly when a runner is lost and every row is lost, complete or waits behind a lost one; any other answer names the first row for which that is not so, and whether it works or waits |
| `LostRunner.StalledIsExact` | scripts/ci_lost_runner.py:100-114 | over every continuation of the run: that condition holds if and only if no unfinished job, listed or not, ever finishes |
| `LostRunner.StuckRunStaysPut` | scripts/ci_lost_runner.py:100-114 | in a stalled run no reachable state has more finished jobs than the snapshot |
| `LostRunner.UnfinishedIsStuck` | scripts/ci_lost_runner.py:107-113 | in a stalled run every unfinished job is lost or depends on a lost one, also those that are not listed yet |
| `LostRunner.RowNotHeldUpFinishes` | scripts/ci_lost_runner.py:107-113 | a row that speaks against the stall comes with a continuation in which some job finishes |
| `RunnerTrust.CompactIsSpelling` | scripts/ci_runner_trust.py:82-83 | compacting an expression leaves exactly the texts of its tokens: literals stay whole and nothing else is lost |
| `RunnerTrust.Balanced` | scripts/ci_runner_trust.py:104-112 | the counter loop says whether the parentheses outside literals close, without ever going below zero |
| `RunnerTrust.TextAccepted` | scripts/ci_runner_trust.py:97-112 | the text test in full: the guard alone, or the guard, `&&` and a rest without the banned tokens |
| `RunnerTrust.Guarded` | scripts/ci_runner_trust.py:86-112 | a job is guarded exactly when it needs the trust job, that job is the loader and nothing else, and its condition is accepted |
| `RunnerTrust.AcceptedTokens` | scripts/ci_runner_trust.py:95-112 | the tokens of an accepted condition are those of the guard, alone or followed by `&&` and tokens among which there is no `or` operator |
| `RunnerTrust.ConjunctionKeepsPrefix` | scripts/ci_runner_trust.py:97-103 | a conjunction followed by `&&` and tokens without `or` operator parses to an expression that is true only when the conjunction is, whatever its parentheses do further on |
| `RunnerTrust.AcceptedImplies` | scripts/ci_runner_trust.py:86-112 | for any guard that is a conjunction: an accepted condition, read by the lexer and grammar of the language, is true only where the guard is |
| `RunnerTrust.GuardIsItsText` | scripts/ci_runner_trust.py:12-21 | the text of the guard, compacted, is the spelling of the tree that the other results speak of |
| `GuardText.WrittenCompactsToSpelling` | scripts/ci_runner_trust.py:82-83 | any tree, written with spaces, compacts to the spelling of its tokens |
| `RunnerTrust.ConditionText` | scripts/ci_runner_trust.py:91-93 | for every expression without a brace and without white space at its ends: written bare or in a wrapper, with any white space around and inside, what is compared is that expression |
| `RunnerTrust.ConditionShape` | scripts/ci_runner_trust.py:91-93 | and every condition is what is compared of it, in white space, or in a wrapper that may hold more white space |
| `RunnerTrust.AcceptedIsOneExpression` | scripts/ci_runner_trust.py:91-103 | every accepted condition is one expression without a brace, bare or in a wrapper that surrounds all of it |
| `RunnerTrust.AcceptedImpliesGuard` | scripts/ci_runner_trust.py:12-21 | a condition that is written as an expression, bare or in a wrapper, and is accepted: wherever that expression, as the language reads it, is true, the guard is |
| `RunnerTrust.GuardHoldsExactly` | scripts/ci_runner_trust.py:12-21 | what the guard says of a run: it is true if and only if the run is no pull_request_target, is from the repository itself when it is a pull request, and both its identities are approved and stay in the queue's scope, each value and comparison spelled out |
| `RunnerTrust.GuardIsAccepted` | scripts/ci_runner_trust.py:91-96 | the guard alone is accepted, bare and in a wrapper, however either is spaced |
| `RunnerTrust.OrBehindGuardIsRejected` | scripts/ci_runner_trust.py:97-103 | the guard with an alternative of any kind behind it is never accepted |
| `RunnerTrust.AndBehindGuardExactly` | scripts/ci_runner_trust.py:97-112 | the guard with a conjunct behind it, a text without literal and white space, is accepted if and only if the text holds no `or` operator, no question mark, brace or double quote, and every parenthesis that opens in it closes in it and no other does |
| `RunnerTrust.GuardIsWritten` | scripts/ci_runner_trust.py:12-21 | the guard of the repository is such a guard: a written tree without white space at its ends and no wrapper of its own |
| `RunnerTrust.DepthCounts` | scripts/ci_runner_trust.py:104-112 | in a text without literals the depth is the number of opened less that of closed parentheses, and there is one exactly when no start of the text closes more than it opens |
| `RunnerTrust.LiteralIsSkipped` | scripts/ci_runner_trust.py:104-112 | what stands in a literal is not counted as a parenthesis |
| `Expressions.ParsePrint` | scripts/ci_runner_trust.py:12-21 | a printed expression parses back to itself, so the guard's text means the guard |
| `Expressions.Precedence` | scripts/ci_runner_trust.py:12-21 | the or sign binds loosest, then `&&`, then the equalities, then the orderings, and equal operators go together from the left |
| `Expressions.FalseValues` | scripts/ci_runner_trust.py:12-21 | null, false, zero and the empty text count as false, and nothing else |
| `Expressions.NegationHolds` | scripts/ci_runner_trust.py:12-21 | a negated expression is true exactly when the expression is not |
| `CodexInput.InputFramer.Feed` | scripts/codex_input.py:24-25 | for every stream, the bytes passed on are those that the tokeniser of the whole stream lets out |
| `CodexInput.InputFramer.Consume` | scripts/codex_input.py:33-50 | one byte takes the machine where the tokeniser goes, and lets out what the tokeniser lets out |
| `CodexInput.InputFramer.ExpireEscape` | scripts/codex_input.py:27-31 | a timeout does the same for a held Escape key |
| `CodexInput.InputFramer.EndSequence` | scripts/codex_input.py:52-68 | a finished sequence is passed on, dropped, held as an Escape key or opens a paste, as the tokeniser says |
| `CodexInput.InputFramer.PasteByte` | scripts/codex_input.py:70-80 | a paste byte lets out what can no longer be part of the end marker, and ends the paste with the marker |
| `CodexInput.InputFramer.DropUntilHeld` | scripts/codex_input.py:73-76 | the loop stops with the longest tail that may still become the end marker |
| `CodexInput.StreamIsTiled` | scripts/codex_input.py:24-85 | every stream is a sequence of whole units and at most one unfinished one, and nothing of it is lost, doubled or reordered; control sequences are those of ECMA-48, section 5.4 |
| `CodexSpans.UnitsAreSpans` | scripts/codex_input.py:27-50 | each unit is read from a run of events of its own, one behind the other; a control sequence is cut short only by a Ctrl-C or a new Escape right behind it, and a held Escape key is released only by a new Escape or by the first reading of the clock that shows the full wait |
| `CodexSpans.SequenceIsOneUnit` | scripts/codex_input.py:45-68 | a control sequence typed outside a paste, with timeouts anywhere in it, is one unit: dropped when it is a mouse report, passed on whole when it is neither that nor an Escape key |
| `CodexSpans.MouseReportIsDropped` | scripts/codex_input.py:53-61 | a mouse report typed outside a paste adds nothing to the output but an Escape key that was held before it |
| `CodexSpans.NoMouseReportPassesOn` | scripts/codex_input.py:53-61 | wherever the output reads as a mouse report, it was pasted, or it begins with an Escape key that had been released |
| `CodexKeys.SequencePassesOn` | scripts/codex_input.py:45-68 | ESC and [ or O, any bytes that are neither 64 to 126 nor ESC nor Ctrl-C, and one byte from 64 to 126 that makes no mouse report and no Escape key: typed outside a paste it comes out whole as one unit; ESC[200~ leaves an empty paste open and nothing else leaves anything open |
| `CodexKeys.KeysAreTyped` | scripts/codex_input.py:24-25 | bytes that come in one piece from an Escape on are typed in the sense of these results |
| `CodexKeys.MouseIsDropped` | scripts/codex_input.py:53-61 | both encodings of a mouse report, byte by byte, typed outside a paste: nothing of them comes out |
| `CodexKeys.EscapeKeyIsHeld` | scripts/codex_input.py:62-66 | each of the three encodings of the Escape key is held as it was sent |
| `CodexKeys.EscapeIsKept` | scripts/codex_input.py:39-44 | a bare Escape is held, and the one that was held before it comes out |
| `CodexKeys.EscapeComesOut` | scripts/codex_input.py:27-31 | a held Escape key comes out as it was sent at the first reading of the clock one second after it, and at no earlier one |
| `CodexKeys.ChordComesOut` | scripts/codex_input.py:47-49 | a byte behind a held Escape key comes out with the key as it was sent |
| `CodexKeys.PlainByteComesOut` | scripts/codex_input.py:45-46 | where nothing is open every byte but ESC comes out as it is |
| `CodexKeys.InterruptComesOut` | scripts/codex_input.py:36-38 | outside a paste Ctrl-C comes out alone, and what was held or begun is dropped |
| `CodexKeys.PasteComesOut` | scripts/codex_input.py:70-80 | in a paste that has just opened, a body without the end marker and the marker behind it come out whole as one unit, and the paste is over |
| `CodexKeys.PasteIsWhole` | scripts/codex_input.py:45-80 | from the first Escape of its start marker to the end of its end marker a paste comes out as it was typed |
| `CodexInput.OutputIsSubsequence` | scripts/codex_input.py:24-85 | what is passed on is a subsequence of what came in, for any interleaving of bytes and timeouts |
| `CodexInput.ConservedExactly` | scripts/codex_input.py:24-85 | output and held bytes together are the input if and only if no mouse report, no cut short sequence and no held Escape key that began a longer sequence occurred |
| `CodexInput.PasteIsComplete` | scripts/codex_input.py:70-80 | inside a paste, bytes passed on and bytes held are the bytes received, and the held ones are the longest tail that may become the end marker |
| `CodexInput.HeldIsLongest` | scripts/codex_input.py:73-75 | no longer tail of the paste is a prefix of the end marker |
| `CodexInput.PasteEndsWithTheMarker` | scripts/codex_input.py:70-80 | a paste goes on until the end marker stands in it for the first time, ends with the byte that completes it, and then exactly the marker is held |
| `CodexSpans.EscapeWaits` | scripts/codex_input.py:27-44 | at no time is an Escape key held for longer than the wait, counted from its last byte |
| `TokenBlocks.Blocks` | scripts/aicode_tokens.py:63-72 | the spans found are exactly those of the blocks of the document, in order |
| `TokenBlocks.MarkerLines` | scripts/aicode_tokens.py:66-69 | a marker with white space behind it is a marker |
| `TokenBlocks.MarkerShape` | scripts/aicode_tokens.py:66-69 | and no other line is one |
| `TokenBlocks.DocOfIsProper` | scripts/aicode_tokens.py:63-72 | cutting the lines of a file into blocks loses and reorders nothing, and gives a document whose markers stand where they should |
| `TokenBlocks.CutFlatten` | scripts/aicode_tokens.py:63-72 | that document is the only one with those lines: the lines of such a document are cut back into it |
| `TokenBlocks.SpliceBlock` | scripts/aicode_tokens.py:125-128 | replacing the lines of one span replaces the body of that block and nothing else |
| `TokenBlocks.EarlierSpansStay` | scripts/aicode_tokens.py:125-126 | rewriting a block leaves the spans of all blocks before it valid |
| `TokenBlocks.DropSpans` | scripts/aicode_tokens.py:125-126 | the reverse loop over spans found once drops the names from every later block |
| `TokenBlocks.UpsertOne` | scripts/aicode_tokens.py:124-128 | one entry is placed in the first block and dropped from the others |
| `TokenBlocks.RemoveExports` | scripts/aicode_tokens.py:146-157 | the same loop over all blocks, without a line put in |
| `TokenBlocks.ExportIsFound` | scripts/aicode_tokens.py:95-97 | a line of white space, export, white space, a name without white space and equals sign, and an equals sign is found to export that name, whatever stands behind |
| `TokenBlocks.FoundExport` | scripts/aicode_tokens.py:95-97 | and every line that is found to export a name has that shape |
| `AicodeTokens.UpsertLines` | scripts/aicode_tokens.py:116-129 | all entries, on the lines of the file, with a new block when there is none |
| `RcFiles.Upsert` | scripts/aicode_tokens.py:116-129 | the same from text to text |
| `AicodeTokens.UpsertKeepsOutside` | scripts/aicode_tokens.py:123-128 | every line outside the blocks stays, in order |
| `AicodeTokens.OneLineForEachEntry` | scripts/aicode_tokens.py:105-128 | which lines the first block and the later ones hold for an entry afterwards |
| `AicodeTokens.OneExportInAllBlocks` | scripts/aicode_tokens.py:105-128 | all blocks together hold exactly the written line for an entry if and only if it is the last entry or its name is not stale; else none |
| `AicodeTokens.UpsertIsIdempotent` | scripts/aicode_tokens.py:116-129 | a second run changes nothing, whatever is stale |
| `RcFiles.ReadAgain` | scripts/aicode_tokens.py:63-129 | what the next run sees when it cuts the written text into lines again: the same document, but for carriage returns that now stand before a line feed |
| `RcFiles.UpsertedTextIsStable` | scripts/aicode_tokens.py:116-129 | a second run on the text of the first changes nothing, for every file, whatever its lines end with, and values without a line break |
| `ShellWords.QuotedExportReadsBack` | scripts/aicode_tokens.py:127-127 | the written line splits into the words `export` and `name=value` for every value |
| `ShellWords.UnquotedExactly` | scripts/aicode_tokens.py:127-127 | a value is written without quotes if and only if it is not empty and made of letters, digits and ten other characters, by their codes |
| `ShellWords.DoubleQuotedReadsBack` | scripts/aicode_tokens.py:85-85 | a text in double quotes, with a backslash before each double quote and backslash in it, is read back as one word |
| `ShellWords.BackslashIn` | scripts/aicode_tokens.py:85-85 | between double quotes a backslash stays in front of any other character, and outside of quotes it never stays |
| `PythonLines.BreakCodes` | scripts/aicode_tokens.py:80-80 | what ends a line for str.splitlines, by its code points |
| `Text.SpaceCodes` | scripts/aicode_tokens.py:66-66 | what str.rstrip and the like take for white space, by its code points |
| `TokenReading.TokenExports` | scripts/aicode_tokens.py:79-92 | the first value of each token name over all blocks, as the shell splits their lines |
| `TokenReading.TokenNames` | scripts/aicode_tokens.py:88-91 | the names that are read are those that begin with AH_CC_TOKEN_ or AH_CX_TOKEN_ |
| `TokenReading.ReadInDocument` | scripts/aicode_tokens.py:79-129 | once all entries are put in, an entry is read as what the shell reads of its name in the lines that stay in front of its place, else as its value when it is kept; one that a later entry dropped is read as what the remaining lines say |
| `TokenRoundTrip.ReadsBackExactly` | scripts/aicode_tokens.py:79-129 | from text to text: an entry is read back if and only if its name is a token name, its value is not empty and holds no line break, and the lines that stay in front of its place give the shell the same value, or none when the entry is kept |
| `TokenRoundTrip.WrittenTokensReadBack` | scripts/aicode_tokens.py:79-129 | so every kept token is read back when the pattern finds whatever the shell reads |
| `TokenRoundTrip.ReadBackIsUnbroken` | scripts/aicode_tokens.py:79-92 | no value with a line break, and no name that is not a token name, is ever read |
| `TokenRoundTrip.QuotedAssignmentShadows` | scripts/aicode_tokens.py:95-97 | a line that gets in the way exists: one that quotes the whole assignment is invisible to the pattern, and its old value is read |
| `CodexRefresh.Machine.Recovered` | scripts/codex_refresh.py:283-297 | the recovery file counts only when it can be read and expires after the record; a stale one is removed |
| `CodexRefresh.Machine.Renew` | scripts/codex_refresh.py:142-161 | only a grant changes the newest pair, and what a run gets from it |
| `CodexRefresh.Machine.StoreOrRecover` | scripts/codex_refresh.py:300-308 | the new pair goes to the record, else to the recovery file, else its loss is announced; a failed write may have arrived |
| `CodexRefresh.Machine.RefreshBao` | scripts/codex_refresh.py:311-328 | one run for one account, step by step |
| `CodexRefresh.Machine.Run` | scripts/codex_refresh.py:331-343 | one run over all accounts, from the secret read once, and how many of them failed |
| `CodexRefresh.GoodRunRecordsLiveToken` | scripts/codex_refresh.py:311-328 | a run that says it went well leaves the live token in the record, when it started with it |
| `CodexRefresh.RefusedRunFails` | scripts/codex_refresh.py:317-319 | a run that is due and gets no new access token fails, and the record stays |
| `CodexRefresh.StaleRunFails` | scripts/codex_refresh.py:317-319 | so does one without a refresh token or with one that was replaced since |
| `CodexRefresh.GrantedRunStores` | scripts/codex_refresh.py:320-328 | a granted pair is stored, kept or announced as lost, under the token of the answer or the old one, and the run went well exactly when both writes did |
| `CodexRefresh.EarlyRunStoresKeptPair` | scripts/codex_refresh.py:313-328 | a run that is not due stores a kept newer pair and otherwise changes nothing but removing a stale file |
| `CodexRefresh.AnswerIsSafeExactly` | scripts/codex_refresh.py:142-161 | for every answer of the provider, one that replaces the refresh token or not: the live token is found again whatever the writes do if and only if neither the record nor a recovery file that stays can be taken for the new pair: each holds the same refresh token, or the new pair has an expiry later than the record and not before the file; an answer without an access token must not replace the refresh token |
| `CodexRefresh.SafeAnswersNeverLose` | scripts/codex_refresh.py:283-343 | over any runs with such answers, and every write and removal succeeding or failing: until a loss is announced each run starts from the live token |
| `CodexRefresh.NoSilentLoss` | scripts/codex_refresh.py:283-328 | over any runs whose granted access tokens expire later and later: until a loss is announced the next run starts from the newest pair itself |
| `CodexRefresh.ReplacedTokenIsSafeExactly` | scripts/codex_refresh.py:283-328 | so a grant that replaces the token is safe whatever the writes do if and only if its access token has an integer expiry that is later than the record's and not earlier than the recovery file's |
| `CodexRefresh.ReplacedWithoutAccessIsLost` | scripts/codex_refresh.py:154-155 | an answer that replaced the refresh token but brought no access token loses the account without a word |
| `PromptBudget.CutStaysInside` | hooks/prompt_budget.py:68-115 | wherever the alarm falls between two statements: the cut never leaves `guarded`, at most one step is cut, every requested step ended once and in order, the skipped list holds exactly the skipped ones, and only a step that was cut is named as cut |
| `PromptBudget.StepsStartInTime` | hooks/prompt_budget.py:69-72 | a step that runs was let in before the soft deadline, before the hard one when the alarm is installed, and with the budget not spent |
| `PromptBudget.RefusalIsFinal` | hooks/prompt_budget.py:69-72 | once the budget refuses a step it refuses every later one: no step runs any more and each is skipped |
| `PromptBudget.SkippedForReason` | hooks/prompt_budget.py:69-72 | a step is skipped only when a step was cut before, the soft budget has run out, or the hard one has and the alarm is installed |
| `PromptBudget.StepIsSkipped` | hooks/prompt_budget.py:69-72 | and then it is: it is listed, its call is over at once, and the body goes on |
| `PromptBudget.StepIsLetIn` | hooks/prompt_budget.py:69-77 | a step asked for while none of these holds runs after these statements, under an alarm that is set where one is installed |
| `PromptBudget.UncutStepCompletes` | hooks/prompt_budget.py:75-90 | a step that returns before the alarm completes, with flag and timer cleared, and leaves the budget as it was |
| `PromptBudget.MetStepIsCut` | hooks/prompt_budget.py:80-90 | a step that the alarm meets while it handles no exception is cut: the budget is spent and names it, and the body goes on |
| `PromptBudget.StepErrorLeaves` | hooks/prompt_budget.py:75-90 | what a step raises leaves `run` with flag and timer cleared, and the body may catch it and go on |
| `PromptBudget.StepHandlesKept` | hooks/prompt_budget.py:80-83 | a cut that meets a step while it handles a kept exception is replaced by that exception |
| `PromptBudget.BodyEndsGuarded` | hooks/prompt_budget.py:92-115 | a body that ends ends `guarded`, and what it raises leaves `guarded` as it was raised |
| `PromptBudget.CutInSettleIsSwallowed` | hooks/prompt_budget.py:144-148 | a cut raised inside the try of `_settle` goes no further |
| `PromptBudget.NearestIsKept` | hooks/prompt_budget.py:138-142 | the exception that is kept is the first of a kept type behind the cut |
| `PromptBudget.KeptIsRaisedAgain` | hooks/prompt_budget.py:80-89 | an alarm that breaks into the handling of a kept exception, or meets one that is leaving through the `finally` of `run`, ends `guarded` with that exception, unless the body catches it on its way |
| `PromptBudget.ScheduleKeepsInv` | hooks/prompt_budget.py:68-162 | the alarm can raise only between setting and clearing its flag, and no cut is left on its way behind the handlers, after every schedule |
| `DesignRules.LookupFollowsReExports` | scripts/design_rules.py:88-97 | a name resolves to a class if and only if at most five re-exports lead to it, on cyclic imports too |
| `DesignRules.ResolveBase` | scripts/design_rules.py:100-113 | the walking loop resolves a base as its recursive reading does |
| `DesignRules.ShareableIsReachability` | scripts/design_rules.py:140-152 | a class is shareable if and only if some line of resolved bases reaches a class that is free by itself; the search ends on cyclic inheritance |
| `DesignRules.FreeLineFound` | scripts/design_rules.py:140-152 | with a set of classes out of reach, a line that avoids them is found |
| `DesignRules.Ancestors` | scripts/design_rules.py:266-275 | exactly the ancestors over lines that avoid the seen classes, `object` left out; from an empty set, all of them |
| `DesignRules.DeclaredClassIsShareable` | scripts/design_rules.py:116-137 | a class with a dataclass decorator, an ABCMeta metaclass or an abstract method may be shared, whether the name is imported or dotted, called or not |
| `DesignRules.RootedClassIsShareable` | scripts/design_rules.py:140-152 | so may one with a base that is no class of the project and has the name of one of the listed classes or of a builtin exception |
| `DesignRules.BareClassIsNot` | scripts/design_rules.py:140-152 | a class that declares none of this and has no base may not |
| `DesignRules.DottedBaseResolves` | scripts/design_rules.py:100-113 | a base written as a name imported either way, any names and a class name is that class of the module they spell, with or without a subscript |
| `DesignRules.PlainBaseResolves` | scripts/design_rules.py:100-104 | a plain name is a class of its own module first, and then the one imported under it |
| `GateQueue.NameOf` | scripts/ci_gate_queue.py:49-50 | a name is its base and the rest from the first opening parenthesis on, and nothing of it is lost |
| `GateQueue.Inventory` | scripts/ci_gate_queue.py:46-63 | the watched jobs by key, or a rejection exactly when a name is unplanned or a key doubled |
| `GateQueue.Checked` | scripts/ci_gate_queue.py:66-71 | yes, not yet, or a rejection exactly when the job ended with another conclusion |
| `GateQueue.Originals` | scripts/ci_gate_queue.py:74-85 | the lost originals and whether all have ended, or a rejection exactly when one failed on its own |
| `GateQueue.Verify` | scripts/ci_gate_queue.py:104-112 | the verdict on one listing |
| `QueueRuns.GreenRunPasses` | scripts/ci_gate_queue.py:88-112 | in the words of the listing: with plan and listing in order, every required gate and planned shard in success, unit-lost skipped and the rerun matrix one skipped entry, the verdict is yes |
| `QueueRuns.ReplacedRunPasses` | scripts/ci_gate_queue.py:88-112 | and so it is when a runner was lost: each shard succeeded or was lost and its rerun succeeded, unit-lost succeeded, and no other rerun is listed |
| `QueueRuns.ListingInOrder` | scripts/ci_gate_queue.py:46-63 | a listing is in order exactly when each shard and rerun is planned and no two entries stand for the same job, the names written out |
| `QueueRuns.DisorderIsRejected` | scripts/ci_gate_queue.py:104-108 | a plan or listing that is not in order is rejected as such before anything else is looked at, and no other one is |
| `QueueRuns.FailedGateIsRejected` | scripts/ci_gate_queue.py:66-71 | a required gate that ended in anything but success rejects the run |
| `QueueRuns.FailedShardIsRejected` | scripts/ci_gate_queue.py:74-85 | so does a shard that failed on a runner that was not lost |
| `QueueRuns.IdleLossJobIsSkipped` | scripts/ci_gate_queue.py:88-95 | and a unit-lost job that ran although every shard succeeded |
| `QueueRuns.NothingEndedWaits` | scripts/ci_gate_queue.py:66-71 | while nothing has ended the answer is not yet |
| `QueueRuns.DigitsAreDecimal` | scripts/ci_gate_queue.py:107-107 | a shard number is written in decimal notation |
| `QueueRuns.ShardTail` | scripts/ci_gate_queue.py:107-107 | so two shards never have the same name |
| `GateQueue.YesExactly` | scripts/ci_gate_queue.py:104-112 | the verdict is yes if and only if plan and listing are in order, every required gate succeeded, every planned shard passed or was a lost original whose own rerun passed, and the reruns are exactly those of the lost originals |
| `GateQueue.YesShowsEveryShard` | scripts/ci_gate_queue.py:104-112 | a yes rests on a listed job of the shard's own name, or of its rerun's, that succeeded |
| `GateQueue.RejectionIsFinalExactly` | scripts/ci_gate_queue.py:88-112 | a rejection stands in every later listing, whatever jobs are added and however they go on, if and only if the rejected listing is at fault for something but a failed rerun |
| `GateQueue.LapseOnlyWaits` | scripts/ci_gate_queue.py:96-98 | a later listing that is no longer rejected waits for a collapsed rerun entry that has not ended, and the earlier one was rejected for a failed rerun alone |
| `GateQueue.FailedRerunLapses` | scripts/ci_gate_queue.py:96-98 | and every rejection for a failed rerun alone does lapse: the collapsed entry turns it back into waiting |
| `GateQueue.RejectedNeverPasses` | scripts/ci_gate_queue.py:205-216 | no listing that follows a rejected one is ever passed |
| `GateQueue.FirmRejectionIsFinal` | scripts/ci_gate_queue.py:88-112 | a rejection for anything but a failed rerun stands in every later listing |
| `GateQueue.PendingMatrixIsListed` | scripts/ci_gate_queue.py:53-53 | that entry is one a listing can hold: a rerun matrix under its template |
| `GateQueue.RejectionCanLapse` | scripts/ci_gate_queue.py:96-101 | such rejections exist, for any one shard whose runner was lost and whose rerun failed |
| `BranchPlan.Evaluate` | scripts/ci_branch_plan.py:161-173 | the findings of all records, or the vetoes of a barrier when a commit cannot be fetched |
| `BranchPlan.Considered` | scripts/ci_branch_plan.py:192-218 | what the search collects and what the run at which it ends forbids |
| `BranchPlan.SearchStops` | scripts/ci_branch_plan.py:200-217 | every run taken is usable, and the search ends at the first run that is not, or at which the requests run out |
| `BranchPlan.ReachExactly` | scripts/ci_branch_plan.py:197-217 | the search takes the first runs of the listing up to a number if and only if each of them is usable and all their artifacts can be asked for within a hundred requests |
| `BranchPlan.CostOneMore` | scripts/ci_branch_plan.py:206-209 | a run takes a request for each of its artifacts |
| `BranchPlan.PagesOneMore` | scripts/ci_branch_plan.py:197-199 | and before the search the pages of the listings count, of the completed runs up to the first that is not |
| `BranchPlan.Choose` | scripts/ci_branch_plan.py:221-238 | entries with distinct keys in the order in which their findings are looked at, each with exactly the tests that its key was the first to pass and that nothing forbids |
| `BranchPlan.EntriesAreDisjoint` | scripts/ci_branch_plan.py:233-237 | no two entries share a test |
| `BranchPlan.ReusedExactly` | scripts/ci_branch_plan.py:221-238 | a test is reused if and only if some finding passed it and no veto and no test of the base branch's plan stands against it |
| `BranchPlan.FoundNewestFirst` | scripts/ci_branch_plan.py:192-218 | findings are looked at run by run as listed, and within a run the later attempts first |
| `BranchPlan.BranchTests` | scripts/ci_branch_plan.py:221-256 | from the runs: a test is reused if and only if a taken record still passes it, none still fails it, the barrier does not forbid it and the base branch does not cover it; it stands under the first record, newest first, that passed it |
| `BranchPlan.LastRunForbids` | scripts/ci_branch_plan.py:171-172 | when the search ends at a run with a commit that is not there, what that run saw fail is not reused |
| `EnvFiles.QuoteOpensExactly` | hooks/config.py:80-96 | a line leaves a quote open if and only if it defines something whose value begins with that quote and has no second one; just then the value is said to span lines |
| `EnvFiles.QuotedValueReadsBack` | hooks/config.py:80-94 | a value between quotes is read back as it was written, whatever follows the closing quote |
| `EnvFiles.BareValueReadsBack` | hooks/config.py:80-96 | a bare value without a number sign is read back as it was written |
| `EnvFiles.CommentedValueReadsBack` | hooks/config.py:87-96 | a comment behind a bare value is left out with the white space before it |
| `EnvFiles.SpacedAssignmentReadsBack` | hooks/config.py:79-89 | white space around the line, the name and the value belongs to none of them |
| `EnvFiles.ExportIsDropped` | hooks/config.py:82-83 | an `export` in front of the name, with any white space behind it, is not part of it |
| `EnvFiles.OneLineCounts` | hooks/config.py:97-106 | what a line defines counts if and only if the name is not blocked and is made of letters, digits and underscores, by their codes, with no digit in front |
| `EnvFiles.Environment.ParseEnvFile` | hooks/config.py:35-123 | one file, line by line, on the environment and the keys that files own |
| `EnvFiles.Environment.LoadUserEnv` | hooks/config.py:231-268 | one pass over the files, the main one first |
| `EnvFiles.FilesSet` | hooks/config.py:44-50 | what a pass makes of one key: the first definition in the last file that defines it, if a file may set it, else nothing |
| `EnvFiles.PrecedenceHolds` | hooks/config.py:44-65 | after a first load and any reloads a key of the process keeps its value and is never taken for one of a file; every other key has the value of the latest files that define it, and is absent when none did |
| `EnvFiles.ReloadIsLikeAFirstLoadExactly` | hooks/config.py:57-65 | after a first load and any reloads, one more reload gives a key what a first load of the edited files gives, if and only if the process set it, the edited files define it or no files before did |
| `EnvFiles.OpenedQuoteSwallows` | hooks/config.py:75-94 | from the line that opens a quote, nothing is defined up to and with the line that closes it, or to the end of the file; the opening line defines its own key |
| `EnvFiles.BlockedIsNeverDefined` | hooks/config.py:97-106 | a blocked key, or a name that is no shell variable, is never set |
| `ArtifactStorage.KeptIds` | scripts/ci_storage.py:121-127 | exactly the ids of the last live row of each name and kept branch, over all runs and over passed runs |
| `ArtifactStorage.Plan` | scripts/ci_storage.py:117-131 | every listed row is deletable, young or kept, once, and which is which |
| `ArtifactStorage.NewestIsKept` | scripts/ci_storage.py:121-127 | of every name on a kept branch, and again among the rows from passed runs, a live row that is no older than any is never given up, and a strictly newest one itself is not |
| `ArtifactStorage.KeptIsNewest` | scripts/ci_storage.py:121-128 | and only such rows are kept |
| `ArtifactStorage.NewestReadableIsKept` | scripts/ci_storage.py:120-127 | the newest row of a name on a kept branch stays, unless its name ends in .dockerbuild |
| `ArtifactStorage.NewestPassedIsKept` | scripts/ci_storage.py:120-127 | so does the newest of those from passed runs |
| `ArtifactStorage.OthersAreNotKept` | scripts/ci_storage.py:120-127 | a build record, a row of another branch and a row behind a newer one of its kind from a passed run do not |
| `ArtifactStorage.Doom` | scripts/ci_storage.py:184-199 | the running total is the live bytes less the doomed ones; the ripe rows doomed are the shortest run of oldest ones that suffices, or all of them |
| `ArtifactStorage.FewerStayOver` | scripts/ci_storage.py:195-199 | with fewer rows given up than the loop takes, the bytes left are more than the limit |
| `ArtifactStorage.SizeOneMore` | scripts/ci_storage.py:113-114 | the bytes of a listing are those of its rows that are not expired |
| `ArtifactStorage.OldestGoFirst` | scripts/ci_storage.py:186-199 | no ripe row is spared that is older than one given up |
| `ArtifactStorage.PlanLeaves` | scripts/ci_storage.py:185-185 | what a plan leaves is, byte for byte, the kept and the young rows |
| `ArtifactStorage.Pacer.Take` | scripts/ci_storage.py:150-155 | a worker starts at the slot or now, whichever is later, and moves the slot one gap on |
| `ArtifactStorage.DeleteAll` | scripts/ci_storage.py:158-159 | workers that take the lock one after the other get exactly those starts |
| `ArtifactStorage.StartsAsSoonAsItMay` | scripts/ci_storage.py:150-156 | each start is at the reading of its worker or one gap behind the start before it, the first at the slot, whichever is later |
| `ArtifactStorage.GapsFillTheMinute` | scripts/ci_storage.py:148-148 | the gaps of as many deletions as a minute may hold make up the minute |
| `ArtifactStorage.StartsAreSpaced` | scripts/ci_storage.py:148-155 | two starts with some turns between them are that many gaps apart, in whatever order workers take the lock |
| `ArtifactStorage.MinuteHoldsAtMost` | scripts/ci_storage.py:147-160 | no half open minute holds more starts than allowed |
| `ArtifactStorage.CountOneMore` | scripts/ci_storage.py:147-156 | a start counts for a half open span of time exactly when it falls into it |
| `LogRotation.LogFile.RotateIfFull` | hooks/logfile.py:7-20 | one rotation, which any failed replace ends |
| `LogRotation.LogFile.AppendText` | hooks/logfile.py:23-27 | a rotation if the log is full, and the text at its end |
| `LogRotation.RotateKeepsEnd` | hooks/logfile.py:11-20 | wherever a rotation stops, the files in order are the end of what they were |
| `LogRotation.HistoryIsTheEnd` | hooks/logfile.py:7-27 | after any appends with faults anywhere, the backups from the highest to the lowest and the log are the end of everything ever written |
| `LogRotation.SizesStayWithin` | hooks/logfile.py:9-10 | when nothing fails no file outgrows the limit by more than the longest text |
| `LogRotation.EnoughIsKept` | hooks/logfile.py:7-27 | when nothing fails a log that began empty has lost nothing or holds at least the limit times the number of backups |
| `MarkdownSections.ParseSections` | scripts/claude_linter.py:75-132 | the sections of a text, as its lines are cut at headings |
| `MarkdownSections.HeadingIsRead` | scripts/claude_linter.py:87-88 | two or three hash marks, a white space character and anything behind it are a heading of that level, named by what is behind without white space at its ends |
| `MarkdownSections.HeadingShape` | scripts/claude_linter.py:87-88 | and no other line is a heading |
| `MarkdownSections.BlankExactly` | scripts/claude_linter.py:90-90 | a line is blank exactly when it is all white space |
| `MarkdownSections.PreambleIsReported` | scripts/claude_linter.py:90-102 | lines before the first heading are reported under the preamble's name, from line one to the heading, unless they are all blank |
| `MarkdownSections.SectionsTileExactly` | scripts/claude_linter.py:88-132 | sections are consecutive, tile the file to its last line and hold exactly their lines, if and only if every heading has a name or stands on the first line and is not the last |
| `MarkdownSections.ContentsGiveTextBackExactly` | scripts/claude_linter.py:88-132 | joined contents are the text if and only if the last heading has a name and no blank lines stand alone before the first, or there is no heading and no text |
| `MarkdownSections.NamelessHeadingExists` | scripts/claude_linter.py:87-87 | a heading without a name is one that the pattern matches |
| `MarkdownSections.MarkdownIsSound` | scripts/claude_linter.py:87-90 | a line that the pattern matches is not blank |
| `MarkdownSections.ExtractToSkill` | scripts/claude_linter.py:236-288 | what is taken out and what is left, or why nothing is: no section, or more than one, has the heading |
| `MarkdownSections.MatchingExactly` | scripts/claude_linter.py:238-239 | the sections that match are exactly those whose heading is the one asked for, white space at its ends and case aside, each as often as it is there |
| `MarkdownSections.NothingToSkip` | scripts/claude_linter.py:281-283 | the loop over blank lines behind the section never runs |
| `MarkdownSections.ExtractionKeepsTheRestExactly` | scripts/claude_linter.py:274-286 | parsing what is left gives the old sections without the target, later ones further up, if and only if no section from the target on but the first is nameless, and a target that ends the file has no nameless one, nor the preamble, right before it |
| `MarkdownSections.SkillHoldsTheBody` | scripts/claude_linter.py:264-272 | white space aside, the skill holds every line of the section but its heading |

## Left out

- `RunnerTrust.AcceptedImpliesGuard`: says nothing about accepted texts that the language rejects; such a job does not run. Numbers are read as names, since no value of theirs is looked into.
- `LostRunner.StalledIsExact`: under the assumptions above; without them the snapshot may not show a job that still runs.
- `CodexRefresh.NoSilentLoss`: for granted access tokens that expire later and later; `CodexRefresh.AnswerIsSafeExactly` and `CodexRefresh.SafeAnswersNeverLose` cover every other answer.
- `RcFiles.UpsertedTextIsStable`: for values without line breaks; a value with one is cut into several lines, and what a second run does to them depends on what the pieces happen to export.
- `TokenRoundTrip.ReadsBackExactly`: the values of the other entries hold no line breaks, whose pieces could be markers or exports of their own.
- `LogRotation.EnoughIsKept`: for a log that starts empty and rotations that do not fail; a failed one leaves a gap in the numbering.
- `ArtifactStorage.MinuteHoldsAtMost`: about the scheduled starts; a sleep may last longer, and floating point rounding of the gap is not modelled.
- `BranchPlan.Considered`: which of a manifest's tests a change invalidates, and whether a commit can be fetched, are given.
- `DesignRules.Ancestors`: the text of a base is given together with its expression, so operator precedence in it does not matter.
- `EnvFiles.Environment.LoadUserEnv`: the files are given in load order; finding and sorting them, and printing the report of values that span lines, are not modelled.
- `PromptBudget.CutStaysInside`: the methods are steps on a value here and not code on an object, so that the alarm can fall between any two of them; left out are the `times` and `running` fields, handing the timer of the surrounding program back, the watchdog thread and the report at the end of `guarded`.
- Polling, cancelling, requeueing and rerunning (`watch`, `stop`, both `decide` functions): calls and sleeps around the decisions modelled here.
- The selectors and the workflow checks of scripts/ci_runner_trust.py: text constants.
- The pseudo terminal, signals and `select` around the framer: only the framer and its timeout are modelled.
- Writing the rc file and its mode, slugs, and the refresh switch of scripts/aicode_tokens.py: file handling.
- The local store, the code login and the digests of scripts/codex_refresh.py: weaker rules than those of the OpenBao path.
- The brain's environment file in hooks/config.py: a separate rule of its own, below everything modelled here.
- The rest of scripts/design_rules.py (typing, config parameters, seams) and its cache of parsed modules: tree walks without a search.
- Reading records, artifacts and jobs from GitHub, and the checks of their schema: given as readable or not.
- Ranking and cutting off the doomed artifacts by a budget, and the report, in scripts/ci_storage.py: a sort and a prefix.
- Token estimates and the choice between always and workflow sections in scripts/claude_linter.py: pattern counts.
- Rotation of one log by several processes at once: the source takes no lock there.
