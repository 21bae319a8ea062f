# Verified model of the Isabelle repair run and its REPL server

Two programs work together in this repository. A Python orchestrator repairs one theory at a time: it
localizes the next failing command, searches for a replacement, passes the result through a policy gate
and nested reviews, patches the theory and appends evidence records. A Scala server gives it prover
states: sessions with parsed theories, live states, replay checkpoints, and a registry of who owns what.
In both, a fast incremental form has to agree with a simple from-scratch form. This project models both
programs in Dafny and proves that they do, together with what their runs keep.

| file | models |
|---|---|
| `RepairModel.dfy`, `ProverStates.dfy` | shared value types, the shared `TaskResult` object, prover states |
| `WorkingSnapshot.dfy` | the patched theory and the localization anchor |
| `BlockLocalizer.dfy` | the incremental localizer, and a replay of the patched theory as its reference |
| `TaskEngine.dfy` | the budgeted candidate search, and one flat search as its reference |
| `ReviewGuard.dfy`, `PolicyRules.dfy` | the guard on review answers and the rule-based gate |
| `RunRecords.dfy` | record factory and store, and the order in which a run may append records |
| `RepairOrchestrator.dfy` | the run: mutually recursive reviews, gating, application, terminal states |
| `RunProperties.dfy` | what follows for every log and every run at rest |
| `ReplayPlanner.dfy`, `IsabelleSession.dfy` | selectors, replay ranges, checkpoints, execution |
| `StateRegistry.dfy`, `IsabelleReplServer.dfy` | ownership, and requests under the lock of their session |
| `ServerInterleaving.dfy` | all interleavings of requests, one atomic access at a time |

How the pieces fit together:

- The run keeps `TheoryRepairOrchestrator.Valid` across every method, nested reviews included. It says that the
  log is legal (`RunRecords.Legal`: every record was allowed to follow the ones before it), honest (it tells what
  engine and gate answered) and reflects the run state, that the snapshot's anchor is a replay of the patched theory,
  and that every patch is on record and justified.
  `RunProperties` derives the properties of whole runs from legality.
- The policy gate, the review hook, the task engine and the prover are arbitrary functions, of the query and (for the
  first three) of how many queries came before. The engine also sees the prover state at the anchor. A ghost constant
  names the rules of the gate where it is the rule-based one. For each TASK record there is a task in the localizer's
  ghost history and a question, with its query number and prover state, in the run's.
- A whole run moves on because the parts fit: `RepairedIsExecutable` (a working text repairs the command after the
  cursor), `ProcessTask` (whatever patch got in is what is executed there), `NextTask` (the localizer finds the next
  failure), and so `RunUntilTerminal`, whose progress counts the patches of that run that work, by whatever route they
  got in. With the modelled engine they all do: `EngineRepairsOrFails` (what it accepts works where the task starts),
  `DeterministicEngineFitsRun` (its answers in a run), `DeterministicRepairsWork` (every repair that got in).
- `ReplClient` in `BlockLocalizer.dfy` is what a client knows of the server; `IsabelleReplServer.ClientIsRight` says
  that it is what `IsabelleReplServer.IsabelleReplService.ExecuteLocked` promises in the server's terms.
- What a contract promises is stated in terms of what the parts are given, not of the functions that compute it: an
  answer of the server by the commands of the theory and what each does, a report of the engine by what the generator
  proposes for each block, the way a run goes on by the engine's report, and a review by the answer as it was given.
- Where a property fails in general, the condition under which it holds is proved to be exact: distinct command lines
  for the localizer (`PatchKeepsAnchor` and `SharedLineBreaksReplay`), ordered lines (`BetweenSplits`,
  `DisorderBreaksSplit` and `DisorderMisleads`), no negative targets unless every command has a position
  (`CheckpointAnswersAgree` and `NegativeCheckpointMisleads`), and commands before the checkpoint that finish in time
  (`CheckpointAnswersAgree`). A patched line shows what is executed unless the patch is empty (`RenderedIsExecuted`).

Where the code and its documentation differ, the model follows the code:

- The state-machine contract (docs/v1_5/contracts/theory-repair-run-state-machine-contract.md:37-39) asks for a policy
  record in the evidence of every accepted artifact. An escalated task whose review supplies a replacement has none
  (`EscalatedReplacementNeedsNoPolicy`); `ProvenanceHasEvidence` proves that this is the only exception.
- The same contract (line 28) has COMPLETED follow when the target is reached and no failure is left; the code completes
  a target-boundary run on either of the two, and also when the localizer cannot establish an anchor
  (python/src/isabelle_repair/run/orchestrator.py:466-478 and 735-745). `Round` proves that a round completes a run iff
  the target is reached or it found no task, and when it finds one; `RunUntilTerminal` gives the reason for which a run
  ends; `CompletesBelowTarget` builds a run that completes below its target, on a clean theory or with a failure left.
- An answer to a continuation review that the guard refuses leaves the artifact patched in without continuation or
  provenance record. `BooksBalance` counts these artifacts, and `ArtifactFate` tells which ones they are.
- An empty replacement text is rendered but never executed: localization goes on with the original command
  (`EmptyPatchIsNotExecuted`). In a run this concerns placeholders of escalated tasks only
  (`EmptyArtifactIsEscalatedPlaceholder`).
- A replacement is validated through the general search, so an execution error or a timeout of the replacement itself
  reads as "all candidates rejected" (`ValidateCandidate`).
- An init request that fails at the first command of the theory names no last success, but names the initial state if
  it started at a checkpoint above that command (`CheckpointAboveFirstCommand`).
- After a rebuild, the drift reason stays in the failure digest, so later tasks report it again (`EnsureAnchor`).
- A failing command outside a proof is reported with a proof block to repair, so the engine cannot accept any candidate
  for it (`LocalizedTaskRepairable`).

## Model

| member | source | states |
|---|---|---|
| WorkingSnapshot.ReapplyReproducesRendered | python/src/isabelle_repair/run/working_snapshot.py:99-145 | writing the exported entries into the original text one by one gives, on each line, the latest replacement or else the original line |
| WorkingSnapshot.LinkingKeepsRendered | python/src/isabelle_repair/run/working_snapshot.py:90-97 | linking entries to records never changes the rendered theory |
| WorkingSnapshot.WorkingTheorySnapshot.ApplyArtifact | python/src/isabelle_repair/run/working_snapshot.py:49-72 | one entry more, numbered on; the rendered text changes on the patched line only and stays what all entries say |
| WorkingSnapshot.WorkingTheorySnapshot.AttachArtifactRecordId | python/src/isabelle_repair/run/working_snapshot.py:90-97 | exactly the newest unlinked entry of the task is linked |
| WorkingSnapshot.WorkingTheorySnapshot.ReplacementForLine | python/src/isabelle_repair/run/working_snapshot.py:74-78 | the backward scan finds the latest replacement of a line, or none iff the line was never patched |
| WorkingSnapshot.WorkingTheorySnapshot.RenderPatchedText | python/src/isabelle_repair/run/working_snapshot.py:133-145 | rendering through a table of latest replacements equals the line-by-line definition |
| WorkingSnapshot.WorkingTheorySnapshot.SetAnchor | python/src/isabelle_repair/run/working_snapshot.py:31-44 | the cursor never moves back; no call of the run violates this |
| BlockLocalizer.PatchedTheory.FailsAtFirstFailureOnly | python/src/isabelle_repair/localization/repl.py:92-119 | a command that fails right after a successful replay is the first failure of a from-scratch replay, and the other way round |
| BlockLocalizer.PatchedTheory.LaterPatchKeepsReplay | python/src/isabelle_repair/localization/repl.py:262-289 | a patch on a later line leaves the replay of everything before it alone |
| BlockLocalizer.RepairMovesOn | python/src/isabelle_repair/localization/repl.py:92-119 | a text that works where the first failure is, patched in there, moves the first failure past its command, and the replay goes on from the state that the text leads to |
| BlockLocalizer.ReplBlockLocalizer.PatchKeepsAnchor | python/src/isabelle_repair/run/orchestrator.py:350-384 | patching the command after the cursor keeps the anchor equal to a replay of the patched theory |
| BlockLocalizer.ReplBlockLocalizer.RepairedIsExecutable | python/src/isabelle_repair/localization/repl.py:92-119 | the command after the cursor is repaired iff the text that is executed for it, as patched now, works in the anchor state; otherwise it is still the first failure of a from-scratch replay |
| BlockLocalizer.SharedLineBreaksReplay | python/src/isabelle_repair/localization/repl.py:262-274 | in every theory with two commands on one line some prover accepts a repair of the second on the spot and cannot replay the patched theory |
| BlockLocalizer.RenderedIsExecuted | python/src/isabelle_repair/localization/repl.py:92-94 | on a patched line the displayed text is the executed one iff the latest patch there is not empty |
| BlockLocalizer.EmptyPatchIsNotExecuted | python/src/isabelle_repair/localization/repl.py:92-94 | for any line of any theory an empty patch blanks the display while the original command is still executed |
| BlockLocalizer.ReplBlockLocalizer.NextTask | python/src/isabelle_repair/localization/repl.py:78-162 | incremental localization refines from-scratch replay: whenever an anchor can be had, a task is reported iff the from-scratch replay fails somewhere, the reported command is its first failure, and without a task everything replays; otherwise a header state was asked for in vain; states lost in between make no difference; every task ever reported quotes a text that fails in the state it names, and is classified by its command and that state |
| BlockLocalizer.ClassifyFailure | python/src/isabelle_repair/localization/repl.py:319-327 | inside a proof a failing by, proof or qed is a proof body failure and anything else a statement failure; outside, what is not a statement is a failure of another command |
| BlockLocalizer.ReplBlockLocalizer.ScanFromCursor | python/src/isabelle_repair/localization/repl.py:92-162 | the loop keeps the anchor a replay of the patched theory while it moves forward, and stops only at a failure or at the end |
| BlockLocalizer.ReplBlockLocalizer.EnsureAnchor | python/src/isabelle_repair/localization/repl.py:181-196 | succeeds iff the old anchor is still live, or the header state can be had and the commands up to the cursor replay from it; then the anchor is live, at the old cursor or at the header; with distinct lines only a failed init request makes it fail; the drift reason is cleared by a bootstrap, set when the anchor state was lost, and otherwise what it was |
| BlockLocalizer.ReplBlockLocalizer.DetectDrift | python/src/isabelle_repair/localization/repl.py:227-245 | the only drift is a lost state: an id never changes its mode or proof level |
| BlockLocalizer.ReplBlockLocalizer.RebuildAnchorFromHeader | python/src/isabelle_repair/localization/repl.py:247-297 | with distinct lines a rebuild succeeds whenever the header state can be had, and restores the replay at the same cursor |
| TaskEngine.SearchIsFirstPassing | python/src/isabelle_repair/engine/controller.py:91-189 | the flat search accepts the first passing candidate within the budget; otherwise it tries exactly what the budget covers and reports exhaustion iff there was more |
| TaskEngine.SearchFindsIffSomePasses | python/src/isabelle_repair/engine/controller.py:91-189 | something is accepted iff some candidate within the budget passes |
| TaskEngine.LargerBudgetKeepsTheAnswer | python/src/isabelle_repair/repl/minimal.py:74-137 | a larger budget never changes an accepted answer |
| TaskEngine.SearchInBlocks | python/src/isabelle_repair/repl/minimal.py:74-155 | searching two lists one after the other on a shared budget is searching their concatenation |
| TaskEngine.SearchSpace.ByBlockIsFlat | python/src/isabelle_repair/repl/minimal.py:62-155 | the loop over block kinds is the flat search over all candidates of all blocks |
| TaskEngine.DeterministicTaskController.RunWithSource | python/src/isabelle_repair/engine/controller.py:42-189 | the inner loop reports the flat search over one block: the first text that meets the contract if the budget covers it, and otherwise that those which it covers do not, and whether there were more, or none at all; executions, proposals and validations equal the attempted candidates; without a source state nothing is tried |
| TaskEngine.DeterministicTaskController.ValidateCandidate | python/src/isabelle_repair/engine/controller.py:191-205 | a replacement passes iff it has a source state, some budget, and meets the contract there; at most one execution |
| TaskEngine.ReplDeterministicTaskEngine.Run | python/src/isabelle_repair/repl/minimal.py:62-200 | nested loops with a shared budget refine the flat search: the accepted text is the first proposal that meets the contract of its block, in the order of the blocks; the reported depth, kind and origin are those of the block that it was proposed for; all that was proposed before was tried and falls short; with nothing found the report says whether the budget ran out, and otherwise puts the failing text itself up for review if it is to be promoted |
| TaskEngine.BlocksToTry | python/src/isabelle_repair/repl/minimal.py:41-60 | the blocks to try are the candidates of the task, else the known kinds of its chain in order, the first of the chain being primary, else the failing block alone |
| TaskEngine.LocalizedChainIsRedundant | python/src/isabelle_repair/repl/minimal.py:41-60 | for the localizer's tasks the candidates read from the fallback chain are the ones given directly |
| TaskEngine.Bench.PassedMeansExecuted | python/src/isabelle_repair/engine/adapters.py:29-134 | PASSED implies a successful execution, whatever the block kind's contract asks for |
| TaskEngine.Bench.VerdictMeans | python/src/isabelle_repair/engine/adapters.py:29-134 | what each block kind asks of the state that a candidate leads to, exactly; a timeout, a failed execution and an unmet contract are told apart |
| TaskEngine.PassedRepairMovesOn | python/src/isabelle_repair/engine/controller.py:207-237 | a repair that passed from the anchor moves the first failure of the theory past its command |
| TaskEngine.AcceptedReportsExecute | python/src/isabelle_repair/repl/minimal.py:62-155 | every report of an accepted repair brings one of the candidates, and that text executes in the state where the task starts |
| TaskEngine.LocalizedTaskRepairable | python/src/isabelle_repair/engine/adapters.py:29-134 | for a task of the localizer the search finds a repair iff some candidate within the budget executes and lowers the proof level (a theorem shell has to leave the proof); so never at proof level 0 |
| ReviewGuard.Validate | python/src/isabelle_repair/hooks/guard.py:22-56 | an answer gets through, with kind and text unchanged, iff its kind is on offer and a replacement has a text; anything else is a rejection |
| ReviewGuard.AllowedFor | python/src/isabelle_repair/run/orchestrator.py:272-278 | any review can be stopped; all but an escalation review can be approved; reviews of artifacts and placeholders can be rejected; reviews of the engine's work take another artifact or a placeholder request |
| ReviewGuard.NestingFollowsRank | python/src/isabelle_repair/hooks/guard.py:22-40 | some guarded answer to a review can open another review iff that one has the smaller rank |
| PolicyRules.Decide | python/src/isabelle_repair/policy/rules.py:20-82 | placeholders are decided by their mode alone and nothing else is denied; the rest needs a review iff the failure is risky or a fallback repair or continuation is at stake; the rule named is the one that decided, and the scope is the continuation's iff it was a fallback continuation |
| RunRecords.AccountsOneMore | python/src/isabelle_repair/records/store.py:24-59 | appending a record that may follow keeps the log legal and its account right |
| RepairOrchestrator.TheoryRepairOrchestrator.Review | python/src/isabelle_repair/run/orchestrator.py:262-301 | entering and resolving a review terminates, keeps the run valid, records which answers it takes, and consults the hook at most as often as the rank of the review says |
| RepairOrchestrator.TheoryRepairOrchestrator.ResumeFromReview | python/src/isabelle_repair/run/orchestrator.py:173-221 | keeps the run valid; without a pending review nothing changes; for every answer, as the caller or the hook gave it, to every kind of review: a stop stops the run; an approval leaves the artifact applied, or records the accepted continuation; a replacement with a text is applied iff the engine passes it; a placeholder is up to the gate; what the review does not take is on record as an invalid rejection and changes nothing |
| RepairOrchestrator.TheoryRepairOrchestrator.TakeResponse | python/src/isabelle_repair/run/orchestrator.py:173-207 | the answer acted on is that of the caller, or else of the hook, if the review takes it, and a rejection if not, and is on record |
| RepairOrchestrator.TheoryRepairOrchestrator.ApplyReviewResponse | python/src/isabelle_repair/run/orchestrator.py:303-348 | what each kind of answer leads to: stop, nothing, approval, a replacement iff the engine passes it, or the placeholder policy |
| RepairOrchestrator.TheoryRepairOrchestrator.ResolvePlaceholderRequest | python/src/isabelle_repair/run/orchestrator.py:480-529 | asks the gate, and what it answers decides: a placeholder, the old artifact with the run as it was, or a nested review |
| RepairOrchestrator.TheoryRepairOrchestrator.GateOrReview | python/src/isabelle_repair/run/orchestrator.py:223-260 | an artifact is ready to apply iff the gate allows it; a denial leaves the run as it was, and anything else opens a review; reviews keep the run valid |
| RepairOrchestrator.TheoryRepairOrchestrator.ApplyAcceptedArtifact | python/src/isabelle_repair/run/orchestrator.py:350-384 | a task's artifact is applied once, by the inner or the outer review; the record after it is one of the continuation gate iff the result asks for a rerun and has a positive fallback depth, and otherwise the accepted continuation, which is a rerun iff the result asks for one |
| RepairOrchestrator.TheoryRepairOrchestrator.PatchAndRecord | python/src/isabelle_repair/run/orchestrator.py:350-378 | exactly one patch goes in, on the line of the task and with its original text, linked to the ARTIFACT record that is appended with the depth of the result; it is justified by the record before it, and the anchor stays a replay |
| RepairOrchestrator.TheoryRepairOrchestrator.GateContinuation | python/src/isabelle_repair/run/orchestrator.py:409-464 | the gate decides, and its answer is on record: go on, stop for that reason, or review |
| RepairOrchestrator.TheoryRepairOrchestrator.FinalizeAcceptedContinuation | python/src/isabelle_repair/run/orchestrator.py:466-478 | continuation and provenance are on record, the count goes up by one, and the run completes iff the target is reached |
| RepairOrchestrator.TheoryRepairOrchestrator.ProcessTask | python/src/isabelle_repair/run/orchestrator.py:76-155 | one task keeps the run valid and consults the hook at most three times; its TASK record, with what the engine answered at the anchor, comes first; at most one patch goes in, on the line of the task; afterwards the command is repaired iff its text, as patched now, works in the anchor state, and otherwise it is still the first failure; so a working patch repairs it, however it got in; a new text that the gate allows is patched in, and the gate is asked about the continuation iff the report asks for a rerun after a fallback |
| RepairOrchestrator.TheoryRepairOrchestrator.HandleResult | python/src/isabelle_repair/run/orchestrator.py:106-155 | a failed task stops the run, an escalated one opens its review, any other artifact goes to the gate |
| RepairOrchestrator.TheoryRepairOrchestrator.Round | python/src/isabelle_repair/run/orchestrator.py:70-155 | with an anchor a round takes up a task iff the patched theory does not replay, and appends its TASK record; without a task it changes no patch and ends the run; it completes a run iff that is target-boundary and the target is reached or no task was found; its command ends up repaired iff its text, as patched now, works in the state of the last question, which any working patch sees to, by whatever route; the next task is further down after a repair, and about the same command again without one; unless the gate objects, a task that the engine repairs is repaired, and one that it fails stops the run |
| RepairOrchestrator.TheoryRepairOrchestrator.RunUntilTerminal | python/src/isabelle_repair/run/orchestrator.py:60-171 | one TERMINAL record, last, iff the run has ended; ended and waiting runs stay as they are; no pending review with auto-resolve; an active run used up its steps; a run finishes, or completes below its target, only if the whole patched theory replays, the theory is empty or a header state was asked for in vain; the target is never overshot; each patch that works brings the run a command further, whether the gate allowed it or a review approved or supplied it, so there are fewer of them than commands; a run whose tasks all get one ends in at most as many steps as there are commands, and a theory-wide one with everything replaying unless it is stopped, waits for a review or asked for a header state in vain; if the gate does not object and each text from the engine works where its task starts, only a task that the engine fails can keep it from that |
| RepairOrchestrator.TheoryRepairOrchestrator.RecordTerminal | python/src/isabelle_repair/run/orchestrator.py:674-689 | state, reason and accepted count of the ended run, appended last |
| RunProperties.ArtifactsAreAccountedFor | python/src/isabelle_repair/run/orchestrator.py:350-478 | in every legal log: artifacts = provenances + denied continuations + withheld ones + at most one in flight |
| RunProperties.AcceptsHaveProvenance | python/src/isabelle_repair/run/orchestrator.py:466-478 | accepted continuations and provenance records pair up |
| RunProperties.StopIsFinal | python/src/isabelle_repair/run/orchestrator.py:112-121 | STOP is selected at most once and ends the log but for terminal records |
| RunProperties.TerminalIsForever | python/src/isabelle_repair/run/orchestrator.py:157-171 | only copies of a terminal record follow it |
| RunProperties.TerminalCountsAccepted | python/src/isabelle_repair/run/orchestrator.py:674-689 | a terminal record counts the provenance records before it |
| RunProperties.SequenceNumbersContiguous | python/src/isabelle_repair/records/store.py:24-59 | sequence numbers are 1, 2, 3, ... |
| RunProperties.StagesDescend | python/src/isabelle_repair/run/orchestrator.py:173-529 | within one task no stage of its handling repeats, however the methods call each other |
| RunProperties.NestedReviewsHaveSmallerRank | python/src/isabelle_repair/run/orchestrator.py:262-348 | a review within a review has a smaller rank |
| RunProperties.AtMostThreeReviewsPerTask | python/src/isabelle_repair/run/orchestrator.py:173-221 | at most three reviews are resolved for one task |
| RunProperties.ReviewsBoundedByTasks | python/src/isabelle_repair/run/orchestrator.py:173-221 | at most three resolved reviews a task over the whole log |
| RunProperties.ArtifactHasEvidence | python/src/isabelle_repair/run/orchestrator.py:350-378 | behind every artifact: its TASK record, records about that task only, and one that entitles the run to it |
| RunProperties.ArtifactFate | python/src/isabelle_repair/run/orchestrator.py:350-478 | in a run at rest an artifact lacks its provenance iff the gate denied its continuation, or the review of it was not validly approved or is still open |
| RunProperties.ProvenanceHasEvidence | python/src/isabelle_repair/run/orchestrator.py:106-155 | task, artifact, continuation, provenance in order; with a policy record exactly unless an escalated task got a replacement |
| RunProperties.EmptyArtifactIsEscalatedPlaceholder | python/src/isabelle_repair/run/orchestrator.py:106-155 | an ARTIFACT record with an empty text is a placeholder, and its task was escalated |
| RunProperties.EmptyPlaceholderIsLegal | python/src/isabelle_repair/run/orchestrator.py:480-529 | a legal log in which an empty placeholder gets in |
| RunProperties.EscalatedReplacementNeedsNoPolicy | python/src/isabelle_repair/run/orchestrator.py:123-145 | a legal log in which an escalated task ends in provenance without any policy record |
| RunProperties.ArtifactIdsDistinct | python/src/isabelle_repair/run/orchestrator.py:350-378 | no task id has two ARTIFACT records, whatever ids the engine reports |
| RunProperties.EveryPatchIsJustified | python/src/isabelle_repair/policy/rules.py:20-82 | the k-th ARTIFACT record has the k-th patch, linked to it, and the record that entitled the run to it right before; the patch lies on the line of the task and keeps its original text; the task is about a command of the theory that fails in the state it names, and has the failure kind of that command; a replacement text was passed by the engine for the very task, and any other text is the one that the engine answered for it; a rule-based gate lets no repair of a risky failure or of positive recorded fallback depth in without a review, and no placeholder where they are denied |
| RunProperties.RecordsAreHonest | python/src/isabelle_repair/run/orchestrator.py:84-104 | in a run at rest the t-th TASK record is what the engine answered to the t-th question, about the t-th task that the localizer reported, in the state that this task names, the questions being queries one after the other; every POLICY record is what the gate answered when told the truth about the last task and report: its failure kind, block, artifact, depth and origin, and about a continuation only if that report asks for a rerun after a fallback |
| RunProperties.ContinuationFollowsReport | python/src/isabelle_repair/run/orchestrator.py:386-407 | after every artifact, however it got in, the gate is asked about the continuation iff the engine's report asks for a rerun after a fallback; otherwise the continuation that the report asks for comes next |
| RunProperties.AcceptsAsReported | python/src/isabelle_repair/run/orchestrator.py:386-397 | every accepted continuation, also behind the gate or a review, is a rerun iff the engine's report asks for one |
| RunProperties.AllowingGateNeverObjects | python/src/isabelle_repair/run/orchestrator.py:223-260 | under a gate that allows everything a run has no objection on record, so only engine and header states can hold it up |
| RunProperties.StopsForAReason | python/src/isabelle_repair/run/orchestrator.py:112-121 | a run is stopped only because the engine answered its question about that very task with a failure, a review asked for it, or the gate denied a continuation, and that is the reason it gives |
| RunProperties.BooksBalance | python/src/isabelle_repair/run/orchestrator.py:41-58 | in a run at rest: patches = applied task ids = ARTIFACT records; the terminal records are those counted; accepted count = accepted continuations = provenance records; exactly one STOP iff stopped; at most three hook calls a task |
| RunProperties.EngineRepairsOrFails | python/src/isabelle_repair/repl/minimal.py:62-200 | asked about a task of the localizer, the engine accepts it iff some candidate within the budget closes a proof level there; what it accepts is a repair unless it is the empty text; otherwise it escalates if it promotes and the budget sufficed, and fails if not |
| RunProperties.RepairedByOneOfTen | python/src/isabelle_repair/model/types.py:117-124 | the engine repairs a task of a run iff one of its first ten candidates closes a proof level where the task starts |
| RunProperties.RepairSaysWhere | python/src/isabelle_repair/repl/minimal.py:102-137 | what it reports about a repair of a task of a run: depth 0, 1 or 2 for a text proposed for the step, the proof body or the theorem, when no text proposed for the blocks before closes a level; a report with a text but no repair is an escalation |
| RunProperties.FallbackIsReviewed | python/src/isabelle_repair/policy/rules.py:40-47 | with this engine and a rule-based gate, a repair whose text was not proposed for the failing step goes in only right after a review that took it |
| RunProperties.ContinuationsAreNotGated | python/src/isabelle_repair/run/orchestrator.py:399-407 | with this engine, which never asks for a rerun, no run asks the gate about a continuation |
| RunProperties.DeterministicEngineFitsRun | python/src/isabelle_repair/repl/minimal.py:62-200 | without promotion, and with a generator that proposes no empty text, its answers to the questions of a run are what the progress of a whole run asks of an engine |
| RunProperties.DeterministicRepairsWork | python/src/isabelle_repair/engine/controller.py:191-237 | with the modelled engine and its validation, every repair that ever got into the theory executes in the state where its task started, whether the engine proposed it, a review approved it or a review supplied it |
| RunProperties.CompletesBelowTarget | python/src/isabelle_repair/run/orchestrator.py:70-76 | a target-boundary run that is completed by its first round with nothing accepted: on a clean theory, or with a failing command left because no anchor can be had |
| ReplayPlanner.ResolveTargetLine | src/main/scala/ReplayPlanner.scala:35-56 | a selector stands for the one line its matches share; otherwise not found, or ambiguous with all lines in order |
| ReplayPlanner.BetweenSplits | src/main/scala/ReplayPlanner.scala:58-67 | with ordered lines a replay can be cut at any line |
| ReplayPlanner.DisorderBreaksSplit | src/main/scala/ReplayPlanner.scala:58-67 | with any two commands out of order some cut changes the replay |
| ReplayPlanner.BetweenRunsEachOnce | src/main/scala/ReplayPlanner.scala:58-67 | a replay runs each command in its range once and in the order of the theory: its commands are those at the places whose line is in the range |
| ReplayPlanner.BetweenKeepsOrder | src/main/scala/ReplayPlanner.scala:58-67 | a replay keeps the order of the theory |
| IsabelleSession.Isabelle.ReplayJoins | src/main/scala/IsabelleSession.scala:246-281 | replaying in two parts is replaying the whole, with the same failing command |
| IsabelleSession.Isabelle.ReplayInTime | src/main/scala/IsabelleSession.scala:104-117 | commands that lead somewhere are replayed to the end iff each finishes within the timeout that is its own |
| IsabelleSession.Isabelle.StuckInTime | src/main/scala/IsabelleSession.scala:246-281 | a replay that is stuck has got through all commands before that one in time |
| IsabelleSession.Isabelle.AsyncExecuteMeans | src/main/scala/IsabelleSession.scala:104-117 | a list of commands is executed to the state that all of them lead to iff there is one and the times that they take add up to at most the timeout for each; it is timed out, or fails, iff some command is the first to run out of that time, or to have no effect |
| IsabelleSession.CheckpointAnswersAreTrue | src/main/scala/IsabelleSession.scala:199-284 | from any checkpoint: a success is the state that the commands of the theory up to the target, taken one by one, lead to; a failure is that of one of them, which runs out of time or has no effect in the state that those before it lead to; the last success is missing iff there are none before it and the replay started at the top |
| IsabelleSession.CheckpointAnswersAgree | src/main/scala/IsabelleSession.scala:225-284 | cached and uncached replay give the same answer, but for the last success where nothing was executed, iff the commands before the checkpoint finish within the timeout |
| IsabelleSession.CheckpointAboveFirstCommand | src/main/scala/IsabelleSession.scala:225-263 | where a theory fails at its first command, a checkpoint above that command makes the answer name the initial state as last success, and a replay from scratch names none |
| IsabelleSession.CountingThrough | src/main/scala/IsabelleSession.scala:242-251 | a prover that counts commands gets as far as there are commands with a line up to the target |
| IsabelleSession.NegativeCheckpointMisleads | src/main/scala/IsabelleSession.scala:225-244 | a checkpoint at a negative line makes every later replay from it differ as soon as the theory has a command without a position |
| IsabelleSession.DisorderMisleads | src/main/scala/IsabelleSession.scala:225-281 | in every theory with two commands out of order some prover reaches, from the checkpoint at the lower line, another state than a replay from scratch |
| IsabelleSession.IsabelleSession.StoreStateLocal | src/main/scala/IsabelleSession.scala:175-185 | every checkpoint stays live, knows its key, and holds the state its commands lead to, also when a key is stored again |
| IsabelleSession.IsabelleSession.DropStateLocal | src/main/scala/IsabelleSession.scala:187-191 | exactly the given states are gone, with the checkpoints of every key they were stored for; nothing dangles |
| IsabelleSession.IsabelleSession.DropAllStatesLocal | src/main/scala/IsabelleSession.scala:193-197 | nothing is left, and nothing dangles |
| IsabelleSession.IsabelleSession.FindCheckpoint | src/main/scala/IsabelleSession.scala:225-237 | the latest checkpoint of the theory at or before the target, if there is one |
| IsabelleSession.IsabelleSession.ReplayRest | src/main/scala/IsabelleSession.scala:246-283 | the loop reports the replay of the remaining commands |
| IsabelleSession.IsabelleSession.ComputeInitState | src/main/scala/IsabelleSession.scala:199-284 | selector errors; else a replay from the latest checkpoint at or before the target, whose answer is true, command by command of the theory, and equal to a replay from scratch iff the skipped commands finish in time; a theory is parsed once and others are left alone |
| IsabelleSession.IsabelleSession.ComputeExecute | src/main/scala/IsabelleSession.scala:286-312 | depends on the source state and the tactic only: success with the state that all its commands lead to, complete iff an open proof is closed, if they finish in time; otherwise the source state, with a timeout or an error by what happens to the first command that does not go through |
| IsabelleSession.ComesToOne | src/main/scala/IsabelleSession.scala:286-312 | what a tactic may come to in a state is one state with one status |
| IsabelleSession.IsabelleSession.ComputeExecuteBatch | src/main/scala/IsabelleSession.scala:314-319 | result i is what the commands of tactic i come to in the source state; none iff some tactic cannot be parsed |
| StateRegistry.GroupByOwner | src/main/scala/StateRegistry.scala:49-57 | each requested id that has an owner is listed once, under its owner |
| StateRegistry.StateRegistry.RegisterState | src/main/scala/StateRegistry.scala:21-30 | registry and session agree before and after; the state is owned and stored, and it is a checkpoint iff a key is given, with every other checkpoint left alone |
| StateRegistry.StateRegistry.DropStateIfOwned | src/main/scala/StateRegistry.scala:39-47 | a state goes from both or from neither, and with it the checkpoint of the key it was stored for |
| StateRegistry.StateRegistry.DropAllStatesForSession | src/main/scala/StateRegistry.scala:59-70 | exactly the states of the session are gone, from both |
| IsabelleReplServer.IsabelleReplService.InitStateLocked | src/main/scala/IsabelleReplServer.scala:209-269 | adds the one state it names, if any, as a checkpoint iff it succeeds; the answer is that of a replay from scratch as far as time goes; no other theory, state or checkpoint changes |
| IsabelleReplServer.IsabelleReplService.ExecuteLocked | src/main/scala/IsabelleReplServer.scala:303-324 | adds one fresh state: the one that all commands of the tactic lead to in time, or the source state again, with the status that says which; all live states keep their value |
| IsabelleReplServer.IsabelleReplService.ExecuteBatchLocked | src/main/scala/IsabelleReplServer.scala:326-361 | one fresh state a tactic; with drop_failed exactly those that did not succeed are gone; nothing else changes |
| IsabelleReplServer.ClientIsRight | src/main/scala/IsabelleReplServer.scala:303-324 | what a request for an execution is told is what the client of the localizer and the engine takes it for |
| IsabelleReplServer.IsabelleReplService.DropStatesLocked | src/main/scala/IsabelleReplServer.scala:283-289 | exactly the given states of the session are gone |
| IsabelleReplServer.IsabelleReplService.Serve | src/main/scala/IsabelleReplServer.scala:62-116 | a request is refused iff the session is closing or lacks the source state; otherwise it does to the live states exactly what it should and tells so; only init requests that succeed leave checkpoints, and no theory that was parsed changes |
| IsabelleReplServer.IsabelleReplService.ServeAll | src/main/scala/IsabelleReplServer.scala:209-361 | over any sequence of init, execute, batch and drop requests to a new session: every init answer is true, the state stored under its id is the one it is about, and it is the answer of a replay from scratch iff the commands before its checkpoint finish in time; the checkpoint is the target of an earlier init request that succeeded; every other request does to the live states what it does on its own; only requests about a state that is not live are refused |
| IsabelleReplServer.IsabelleReplService.DestroyLocked | src/main/scala/IsabelleReplServer.scala:163-176 | only the first request gets through, leaves no state, closes the prover and takes the session out of the session map, if it is still the one found there |
| ServerInterleaving.LockedStepKeeps | src/main/scala/IsabelleReplServer.scala:79-176 | every step under a lock stores before it owns, disowns before it removes, and keeps the invariant of its session |
| ServerInterleaving.NextKeeps | src/main/scala/IsabelleReplServer.scala:138-413 | every step of every request, in every interleaving, keeps the invariant of all sessions |
| ServerInterleaving.OwnedStatesAreStored | src/main/scala/StateRegistry.scala:9-70 | at every point of every run an owned state is stored in its session; while a lock is free, owned and stored are the same |
| ServerInterleaving.ClosedSessionsStayEmpty | src/main/scala/IsabelleReplServer.scala:163-176 | a session is closed at most once, never owns or stores a state again, and is no longer found once its destruction is over |
| ServerInterleaving.ClosingSessionsAreLeftAlone | src/main/scala/IsabelleReplServer.scala:79-116 | once closing has started, every other holder of the lock does nothing; a drop is a no-op |
| ServerInterleaving.OnlyTheHolderTouches | src/main/scala/IsabelleReplServer.scala:79-116 | only the holder of its lock changes a session or what it owns |
| ServerInterleaving.SourcesStayLive | src/main/scala/IsabelleReplServer.scala:103-116 | while a request works on a source state, that state is live, owned, and its session is not closing |
| ServerInterleaving.DropsTakeEffect | src/main/scala/StateRegistry.scala:39-47 | a drop disowns each of its ids before it removes it, and then nobody owns or stores it there |
| ServerInterleaving.LiveUntilDropped | src/main/scala/IsabelleReplServer.scala:271-361 | a live state stays live with its value until its own drop or a drop of all states of its session |
| ServerInterleaving.RunsToItsAim | src/main/scala/IsabelleReplServer.scala:163-176 | in every interleaving a request that has got the lock of its session, to drop states, all of them, or to destroy the session, finding it open, is done only at a point where these states are gone, all are gone, or the session is empty, closed once and no longer found |
| ServerInterleaving.DestroyedForGood | src/main/scala/IsabelleReplServer.scala:163-176 | a session that was destroyed stays empty, closed once and not found |
| ServerInterleaving.AimsCanBeReached | src/main/scala/IsabelleReplServer.scala:271-301 | such a request about an idle session can reach its aim by its own steps, from the moment it arrives |
| ServerInterleaving.LiveStatesCanBeUsed | src/main/scala/IsabelleReplServer.scala:103-116 | a request for a live state of an idle, open session can get to work on it by its own steps |
| ServerInterleaving.InitGetsToWork | src/main/scala/IsabelleReplServer.scala:209-269 | a request for a first state that has got the lock of an open session can get to work |
| ServerInterleaving.ClosedToRequests | src/main/scala/IsabelleReplServer.scala:79-88 | any other request than a drop that finds its session closing goes straight on to give the lock back |
| ServerInterleaving.WorkIsRegistered | src/main/scala/StateRegistry.scala:21-30 | what a working request computes can be stored and owned under any id that nobody had |

## Left out

- Exceptions of hooks, stores and close, and the RPC errors that the localizer's client raises in the middle of a scan: assumed not to occur. A theory without a header command, or without a line in a task's metadata, is excluded by precondition where the source raises an error.
- RepairOrchestrator.TheoryRepairOrchestrator.Review: the hook is taken to answer from its context alone; a hook that itself calls back into the run is not modelled.
- BlockLocalizer.ReplBlockLocalizer.NextTask: failure digests are reduced to the drift reason; error messages and proof texts are not modelled.
- TaskEngine.ReplDeterministicTaskEngine.Run: trace strings, confidence, generator names and result details are not modelled; the source state is required to be live.
- WorkingSnapshot.WorkingTheorySnapshot.RenderPatchedText: a theory is a sequence of lines; encodings, unusual line separators and the unified diff are not modelled.
- RunRecords.AccountsOneMore: record payloads carry the fields that later records depend on; timestamps and run ids are left out, and a record's id is its sequence number.
- ServerInterleaving.NextKeeps: a drop request that spans several sessions appears as one request for each of them; what requests compute between two accesses to shared data does not appear, nor does memory visibility outside locks and concurrent maps.
- IsabelleReplServer.IsabelleReplService.InitStateLocked: default timeouts, the unlimited default position, proof state texts and Sledgehammer requests are left out; they add one execution or a constant.
- IsabelleSession.IsabelleSession.ComputeInitState: theory files are read at most once, so a file that changes later is not noticed, as in the source; an error while parsing a theory is not modelled.
- State and session ids are counters where the source draws random UUIDs: they never collide.
- The PROVENANCE record that the theory run appends after patch export, the JSON and JSONL writers, the policy file loader, the fixed tactic lists, the gRPC layer, workspace discovery and session bootstrap: plumbing or single-branch code.
