/** run/orchestrator.py: the single-theory repair run with its nested reviews. */
module RepairOrchestrator {
  import opened RepairModel
  import opened ProverStates
  import opened RunRecords
  import opened WorkingSnapshot
  import opened BlockLocalizer
  import Guard = ReviewGuard
  import Rules = PolicyRules

  /** The collaborators whose answers are not up to the run. Each answer is an arbitrary function of
      the query and of how many queries came before, so every behaviour of a policy gate, a review
      hook and a task engine, stateful or not, is covered. An engine also sees the prover state that
      the task starts from, for it tries its candidates there. */
  class Environment {
    const policy: (nat, PolicyContext) -> PolicyDecision
    const hook: (nat, InterventionContext) -> InterventionResponse
    const engineRun: (nat, TaskSpec, ToplevelState) -> TaskReport
    const engineValidate: (nat, TaskSpec, string) -> ValidationResult
    var clock: nat
    var hookCalls: nat

    constructor (policy: (nat, PolicyContext) -> PolicyDecision,
                 hook: (nat, InterventionContext) -> InterventionResponse,
                 engineRun: (nat, TaskSpec, ToplevelState) -> TaskReport,
                 engineValidate: (nat, TaskSpec, string) -> ValidationResult)
      ensures this.policy == policy && this.hook == hook
      ensures this.engineRun == engineRun && this.engineValidate == engineValidate
      ensures hookCalls == 0
    {
      this.policy, this.hook := policy, hook;
      this.engineRun, this.engineValidate := engineRun, engineValidate;
      clock, hookCalls := 0, 0;
    }

    method Decide(context: PolicyContext) returns (d: PolicyDecision)
      modifies this`clock
      ensures d == policy(old(clock), context) && clock == old(clock) + 1
    {
      d := policy(clock, context);
      clock := clock + 1;
    }

    method Handle(context: InterventionContext) returns (r: InterventionResponse)
      modifies this`clock, this`hookCalls
      ensures r == hook(old(clock), context) && clock == old(clock) + 1 && hookCalls == old(hookCalls) + 1
    {
      r := hook(clock, context);
      clock, hookCalls := clock + 1, hookCalls + 1;
    }

    method RunEngine(spec: TaskSpec, state: ToplevelState) returns (report: TaskReport)
      modifies this`clock
      ensures report == engineRun(old(clock), spec, state) && clock == old(clock) + 1
    {
      report := engineRun(clock, spec, state);
      clock := clock + 1;
    }

    method ValidateCandidate(spec: TaskSpec, text: string) returns (v: ValidationResult)
      modifies this`clock
      ensures v == engineValidate(old(clock), spec, text) && clock == old(clock) + 1
    {
      v := engineValidate(clock, spec, text);
      clock := clock + 1;
    }
  }

  function SpecFor(localized: LocalizedTask): TaskSpec {
    var contract := ContractForBlockKind(localized.blockKind);
    TaskSpec(localized, if contract.Some? then contract.value else GoalClosed, 10)
  }

  /** A question to the engine: which query of the environment it was, and the state the task started from. */
  datatype Question = Question(number: nat, state: ToplevelState)

  /** What the engine answered to the t-th question. */
  ghost function AnswerTo(env: Environment, history: seq<LocalizedTask>, questions: seq<Question>, t: nat): TaskReport
    requires t < |history| && t < |questions|
  {
    env.engineRun(questions[t].number, SpecFor(history[t]), questions[t].state)
  }

  /** The questions were asked one after the other, each about the task that the localizer had just reported,
      in the state that this task names. */
  ghost predicate WereAsked(history: seq<LocalizedTask>, questions: seq<Question>, issued: map<StateId, ToplevelState>)
  {
    && |questions| <= |history|
    && (forall i, j :: 0 <= i < j < |questions| ==> questions[i].number < questions[j].number)
    && forall t :: 0 <= t < |questions| ==>
         && history[t].sourceStateId.Some? && history[t].sourceStateId.value in issued
         && issued[history[t].sourceStateId.value] == questions[t].state
  }

  lemma OneMoreAsked(history: seq<LocalizedTask>, questions: seq<Question>, issued: map<StateId, ToplevelState>,
                     question: Question)
    requires WereAsked(history, questions, issued) && |questions| < |history|
    requires questions == [] || questions[|questions| - 1].number < question.number
    requires var source := history[|questions|].sourceStateId;
             source.Some? && source.value in issued && issued[source.value] == question.state
    ensures WereAsked(history, questions + [question], issued)
  {
  }

  lemma LongerHistoryStillAsked(history: seq<LocalizedTask>, more: seq<LocalizedTask>, questions: seq<Question>,
                                issued: map<StateId, ToplevelState>, later: map<StateId, ToplevelState>)
    requires history <= more && WereAsked(history, questions, issued)
    requires forall id :: id in issued ==> id in later && later[id] == issued[id]
    ensures WereAsked(more, questions, later)
  {
  }

  /** The record, after a log that amounts to `s`, tells what the engine answered about its task, what the gate
      answered about one of which it was told the truth, or goes on as the engine's answer says. */
  ghost predicate IsHonest(env: Environment, history: seq<LocalizedTask>, questions: seq<Question>, s: Summary,
                           record: RunRecord)
  {
    match record.payload
    case Task(_, _, _, _) =>
      && s.tasks < |history| && s.tasks < |questions|
      && IsRecordOf(record, history[s.tasks], AnswerTo(env, history, questions, s.tasks))
    case Policy(_, _) =>
      && 0 < s.tasks <= |history| && s.tasks <= |questions|
      && var report := AnswerTo(env, history, questions, s.tasks - 1);
         exists n, context ::
           && IsAnswerOf(record, context, env.policy(n, context))
           && IsContextFor(context, history[s.tasks - 1], report, s.last.payload)
    case Continuation(selection) =>
      selection.kind.Stop?
      || (&& 0 < s.tasks <= |history| && s.tasks <= |questions|
          && GoesOnAs(AnswerTo(env, history, questions, s.tasks - 1), s.last.payload, selection.kind))
    case _ => true
  }

  predicate IsRecordOf(record: RunRecord, task: LocalizedTask, report: TaskReport) {
    && record.taskId == Some(report.taskId) && record.payload.Task?
    && record.payload.outcome == report.outcome && record.payload.fallbackDepth == report.fallbackDepth
    && record.payload.driftReason == task.driftReason
    && (record.payload.validation.Some? <==> report.validation.Some?)
    && (report.validation.Some? ==> record.payload.validation == Some(report.validation.value.status))
  }

  /** What the gate has to be told about a task and the engine's report on it. `last` is the record before. The
      gate is asked about a continuation only if the report asks for a rerun after a fallback. */
  predicate IsContextFor(context: PolicyContext, task: LocalizedTask, report: TaskReport, last: Payload) {
    && context.taskId == report.taskId && context.failureKind == task.failureKind
    && context.isPlaceholderRequest == context.point.ReviewPlaceholderRequest?
    && context.blockKind == (if context.point.ReviewPlaceholderRequest? || report.selectedBlockKind.None?
                             then task.blockKind else report.selectedBlockKind.value)
    && (if context.point.ReviewPlaceholderRequest? then context.fallbackDepth == 0 && context.fallbackOrigin == None
        else context.fallbackDepth == report.fallbackDepth && context.fallbackOrigin == report.fallbackOrigin)
    && match context.point
       case TaskArtifactEvaluation => context.artifactKind == report.artifactKind && context.continuationKind == None
       case ReviewPlaceholderRequest =>
         context.artifactKind == Some(CommittedPlaceholder) && context.continuationKind == None
       case ContinuationGate =>
         && report.requiresRerun && report.fallbackDepth > 0
         && last.Artifact? && context.artifactKind == Some(last.kind)
         && context.continuationKind == Some(RerunThenContinue)
  }

  /** The run goes on as the report asks for, and not right after an artifact if the gate has to be asked first. */
  predicate GoesOnAs(report: TaskReport, last: Payload, kind: ContinuationKind) {
    && kind == (if report.requiresRerun then RerunThenContinue else Continue)
    && !(last.Artifact? && report.requiresRerun && report.fallbackDepth > 0)
  }

  predicate IsAnswerOf(record: RunRecord, context: PolicyContext, decision: PolicyDecision) {
    record.taskId == Some(context.taskId) && record.payload == Policy(decision.kind, context.point)
  }

  function StatusOf(v: Option<ValidationResult>): Option<ValidationStatus> {
    if v.Some? then Some(v.value.status) else None
  }

  /** Every record of the log is honest. The trigger keeps this folded, as in Legal. */
  ghost predicate HonestLog(env: Environment, history: seq<LocalizedTask>, questions: seq<Question>,
                            log: seq<RunRecord>)
  {
    forall k: nat {:trigger Before(log, k)} :: k < |log| ==>
      IsHonest(env, history, questions, Before(log, k), log[k])
  }

  lemma OneMoreHonest(env: Environment, history: seq<LocalizedTask>, questions: seq<Question>, s: Summary,
                      log: seq<RunRecord>, b: RunRecord)
    requires Accounts(s, log) && HonestLog(env, history, questions, log)
    requires IsHonest(env, history, questions, s, b)
    ensures HonestLog(env, history, questions, log + [b])
  {
    var more := log + [b];
    AccountsMeans(s, log);
    assert more[..|log|] == log;
    forall k: nat | k < |more|
      ensures IsHonest(env, history, questions, Before(more, k), more[k])
    {
      if k < |log| {
        assert more[..k] == log[..k];
        assert IsHonest(env, history, questions, Before(log, k), log[k]);
      }
    }
  }

  lemma StillHonest(env: Environment, history: seq<LocalizedTask>, more: seq<LocalizedTask>, questions: seq<Question>,
                    further: seq<Question>, log: seq<RunRecord>)
    requires history <= more && questions <= further && HonestLog(env, history, questions, log)
    ensures HonestLog(env, more, further, log)
  {
    forall k: nat | k < |log|
      ensures IsHonest(env, more, further, Before(log, k), log[k])
    {
      assert IsHonest(env, history, questions, Before(log, k), log[k]);
    }
  }

  /** The report brings an artifact that the gate has to decide about. */
  predicate Offers(report: TaskReport) {
    && !report.outcome.Failed? && !report.outcome.Escalated?
    && report.artifactKind.Some? && Guard.NonEmpty(report.artifactText)
  }

  /** The report brings a text for its task that works where the task starts. */
  predicate IsRepair(exec: (ToplevelState, string) -> ExecOutcome, report: TaskReport, task: LocalizedTask,
                     state: ToplevelState)
  {
    Offers(report) && report.taskId == task.taskId && exec(state, report.artifactText.value).Executed?
  }

  /** From question `from` on the engine repaired every task, or gave it up. */
  ghost predicate RepairsOrFails(env: Environment, exec: (ToplevelState, string) -> ExecOutcome,
                                 history: seq<LocalizedTask>, questions: seq<Question>, from: nat)
    requires |questions| <= |history|
  {
    forall t :: from <= t < |questions| ==> RepairsOrFailsAt(env, exec, history, questions, t)
  }

  ghost predicate RepairsOrFailsAt(env: Environment, exec: (ToplevelState, string) -> ExecOutcome,
                                   history: seq<LocalizedTask>, questions: seq<Question>, t: nat)
    requires t < |history| && t < |questions|
  {
    var report := AnswerTo(env, history, questions, t);
    report.outcome.Failed? || IsRepair(exec, report, history[t], questions[t].state)
  }

  lemma RepairedOrFailedBefore(env: Environment, exec: (ToplevelState, string) -> ExecOutcome,
                               history: seq<LocalizedTask>, more: seq<LocalizedTask>, questions: seq<Question>,
                               further: seq<Question>, from: nat)
    requires history <= more && questions <= further && |questions| <= |history| && |further| <= |more|
    requires RepairsOrFails(env, exec, more, further, from)
    ensures RepairsOrFails(env, exec, history, questions, from)
  {
    forall t | from <= t < |questions| ensures RepairsOrFailsAt(env, exec, history, questions, t) {
      assert RepairsOrFailsAt(env, exec, more, further, t);
    }
  }

  /** The patch has a text that works in the state in which the engine was asked about its task. */
  predicate Works(exec: (ToplevelState, string) -> ExecOutcome, questions: seq<Question>, patch: Patch) {
    && patch.record.payload.Artifact? && patch.record.payload.text != "" && 0 < patch.tasks <= |questions|
    && exec(questions[patch.tasks - 1].state, patch.record.payload.text).Executed?
  }

  /** How many patches work, from the given one on. */
  ghost function CountWorking(exec: (ToplevelState, string) -> ExecOutcome, questions: seq<Question>,
                              patches: seq<Patch>, from: nat): nat
  {
    if |patches| <= from then 0
    else
      var n := |patches| - 1;
      CountWorking(exec, questions, patches[..n], from) + if Works(exec, questions, patches[n]) then 1 else 0
  }

  /** Each of these patches is for a question that has been asked. */
  ghost predicate AreAsked(patches: seq<Patch>, questions: seq<Question>) {
    forall k :: 0 <= k < |patches| ==> patches[k].tasks <= |questions|
  }

  /** Further questions do not change what is known about earlier patches. */
  lemma {:induction false} CountKept(exec: (ToplevelState, string) -> ExecOutcome, questions: seq<Question>,
                                     further: seq<Question>, patches: seq<Patch>, from: nat)
    requires questions <= further && AreAsked(patches, questions)
    ensures CountWorking(exec, further, patches, from) == CountWorking(exec, questions, patches, from)
  {
    if |patches| > from { CountKept(exec, questions, further, patches[..|patches| - 1], from); }
  }

  /** At most one more patch, and that for the last of so many tasks. */
  predicate PatchesOneTask(before: seq<Patch>, after: seq<Patch>, tasks: nat) {
    before <= after && |after| <= |before| + 1 && (|after| > |before| ==> after[|before|].tasks == tasks)
  }

  lemma CountOneMore(exec: (ToplevelState, string) -> ExecOutcome, questions: seq<Question>, further: seq<Question>,
                     before: seq<Patch>, after: seq<Patch>, from: nat)
    requires questions <= further && AreAsked(before, questions) && from <= |before|
    requires PatchesOneTask(before, after, |further|)
    ensures CountWorking(exec, further, after, from) ==
            CountWorking(exec, questions, before, from)
            + if |after| > |before| && Works(exec, further, after[|before|]) then 1 else 0
  {
    CountKept(exec, questions, further, before, from);
    if |after| > |before| {
      assert after[..|before|] == before;
    } else {
      assert after == before;
    }
  }

  /** What a rule-based gate promises about a patched artifact: a risky repair goes in on the strength
      of a review response only, and a placeholder does not go in at all where placeholders are denied. */
  predicate GateRespected(config: Rules.PolicyConfig, failureKind: FailureKind, patch: Patch)
    requires patch.record.payload.Artifact?
  {
    var artifact := patch.record.payload;
    && (artifact.kind.Repair? && (failureKind in config.highRisk || artifact.fallbackDepth > 0) ==>
          patch.basis.Resolved?)
    && (config.placeholder.DenyPlaceholder? ==> artifact.kind.Repair?)
  }

  /** A review supplied the text of the patch. */
  predicate IsSupplied(patch: Patch) {
    patch.basis.Resolved? && patch.basis.response.ProvideReplacement?
  }

  /** A text that a review supplied goes in only if the engine passed that very text for the task. */
  ghost predicate Vetted(env: Environment, spec: TaskSpec, patch: Patch)
    requires patch.record.payload.Artifact?
  {
    IsSupplied(patch) ==>
      exists n :: env.engineValidate(n, spec, patch.record.payload.text).status.Passed?
  }

  /** Every patch of the snapshot has its ARTIFACT record, in order, and is linked to it. */
  ghost predicate PatchesRecorded(entries: seq<PatchEntry>, patches: seq<Patch>) {
    && |entries| == |patches|
    && forall k :: 0 <= k < |entries| ==>
         && patches[k].record.payload.Artifact?
         && patches[k].record.taskId == Some(entries[k].taskId)
         && patches[k].record.payload.kind == entries[k].kind
         && patches[k].record.payload.text == entries[k].text
         && entries[k].artifactRecordId == Some(patches[k].record.seqNo)
  }

  /** Every patch lies where its task is, has a text that may go in, and respected the rules of a rule-based gate. */
  ghost predicate PatchesJustified(gate: Option<Rules.PolicyConfig>, env: Environment, history: seq<LocalizedTask>,
                                   questions: seq<Question>, entries: seq<PatchEntry>, patches: seq<Patch>)
  {
    && |entries| == |patches|
    && forall k :: 0 <= k < |patches| ==>
         && patches[k].record.payload.Artifact? && Justified(gate, env, history, questions, patches[k])
         && entries[k].line == history[patches[k].tasks - 1].line
         && entries[k].originalText == history[patches[k].tasks - 1].blockText
  }

  /** The task is the one that the localizer reported for the last TASK record before the patch. The text is the
      one that the engine answered for it, or one that a review supplied. */
  ghost predicate Justified(gate: Option<Rules.PolicyConfig>, env: Environment, history: seq<LocalizedTask>,
                            questions: seq<Question>, patch: Patch)
    requires patch.record.payload.Artifact?
  {
    && 0 < patch.tasks <= |history| && patch.tasks <= |questions|
    && var task := history[patch.tasks - 1];
       && Vetted(env, SpecFor(task), patch)
       && (IsSupplied(patch) || IsAnswered(env, history, questions, patch))
       && (gate.Some? ==> GateRespected(gate.value, task.failureKind, patch))
  }

  ghost predicate IsAnswered(env: Environment, history: seq<LocalizedTask>, questions: seq<Question>, patch: Patch)
    requires patch.record.payload.Artifact? && 0 < patch.tasks <= |history| && patch.tasks <= |questions|
  {
    AnswerTo(env, history, questions, patch.tasks - 1).artifactText == Some(patch.record.payload.text)
  }

  lemma StillJustified(gate: Option<Rules.PolicyConfig>, env: Environment, history: seq<LocalizedTask>,
                       more: seq<LocalizedTask>, questions: seq<Question>, further: seq<Question>,
                       entries: seq<PatchEntry>, patches: seq<Patch>)
    requires history <= more && questions <= further
    requires PatchesJustified(gate, env, history, questions, entries, patches)
    ensures PatchesJustified(gate, env, more, further, entries, patches)
  {
    forall k | 0 <= k < |patches|
      ensures patches[k].record.payload.Artifact? && Justified(gate, env, more, further, patches[k])
    {
      assert Justified(gate, env, history, questions, patches[k]);
    }
  }

  lemma OneMorePatch(gate: Option<Rules.PolicyConfig>, env: Environment, history: seq<LocalizedTask>,
                     questions: seq<Question>, entries: seq<PatchEntry>, patches: seq<Patch>, entry: PatchEntry,
                     patch: Patch)
    requires PatchesRecorded(entries, patches) && PatchesJustified(gate, env, history, questions, entries, patches)
    requires patch.record.payload.Artifact? && Justified(gate, env, history, questions, patch)
    requires patch.record.taskId == Some(entry.taskId) && entry.artifactRecordId == Some(patch.record.seqNo)
    requires patch.record.payload.kind == entry.kind && patch.record.payload.text == entry.text
    requires entry.line == history[patch.tasks - 1].line && entry.originalText == history[patch.tasks - 1].blockText
    ensures PatchesRecorded(entries + [entry], patches + [patch])
    ensures PatchesJustified(gate, env, history, questions, entries + [entry], patches + [patch])
  {
  }

  /** Nothing was patched in, or one artifact of a task that had none so far, on the line of the task. */
  predicate AtMostOnePatch(before: seq<PatchEntry>, after: seq<PatchEntry>, ids: set<TaskId>, moreIds: set<TaskId>,
                           task: LocalizedTask, taskId: TaskId)
  {
    || (after == before && moreIds == ids)
    || (&& taskId !in ids && moreIds == ids + {taskId}
        && |after| == |before| + 1 && after[..|before|] == before
        && after[|before|].taskId == taskId
        && after[|before|].line == task.line && after[|before|].originalText == task.blockText)
  }

  // The log predicates are about sequences, not about the store, so that they carry no heap.

  /** `log` and its summary have got one more record about `taskId`. */
  predicate Extends(before: Summary, log: seq<RunRecord>, summary: Summary, longer: seq<RunRecord>, taskId: TaskId,
                    payload: Payload)
  {
    var record := RunRecord(before.size + 1, Some(taskId), payload);
    summary == before.Add(record) && longer == log + [record]
  }

  /** A log goes on, at `at`, with a record of what the gate answers to query `n`. */
  ghost predicate Consulted(env: Environment, log: seq<RunRecord>, at: nat, n: nat, context: PolicyContext) {
    && at < |log|
    && log[at].taskId == Some(context.taskId)
    && log[at].payload == Policy(env.policy(n, context).kind, context.point)
  }

  /** A log goes on with the record that opens a review, and says which answers it takes. */
  ghost predicate Opened(log: seq<RunRecord>, at: nat, taskId: TaskId, reason: ReviewReason) {
    && at < |log|
    && log[at].taskId == Some(taskId) && log[at].payload.Entered? && log[at].payload.reason == reason
    && forall kind :: kind in log[at].payload.allowed <==> Guard.IsOffered(reason, kind)
  }

  /** A log goes on with an accepted continuation and its provenance. */
  predicate Accepts(log: seq<RunRecord>, at: nat, rerun: bool) {
    && at + 1 < |log| && log[at + 1].payload.Provenance?
    && log[at].payload == Continuation(ContinuationSelection(if rerun then RerunThenContinue else Continue,
                                                             AcceptedArtifact))
  }

  /** A log goes on with how the run goes on after an artifact: straight to the next task, or by way of the gate
      where a rerun is asked for after a fallback. */
  predicate GoesOn(log: seq<RunRecord>, at: nat, rerun: bool, depth: int) {
    if rerun && depth > 0 then
      && at < |log| && log[at].payload.Policy? && log[at].payload.point.ContinuationGate?
      && (log[at].payload.decision.Allow? ==> Accepts(log, at + 1, rerun))
    else
      Accepts(log, at, rerun)
  }

  /** A log goes on with an artifact, and with how the run goes on from there. */
  predicate TakenUp(log: seq<RunRecord>, at: nat, artifact: Payload, rerun: bool, depth: int) {
    at < |log| && log[at].payload == artifact && GoesOn(log, at + 1, rerun, depth)
  }

  /** What no review changes about a report. */
  predicate KeepsTo(result: TaskResult, report: TaskReport) {
    && result.taskId == report.taskId && result.requiresRerun == report.requiresRerun
    && result.selectedBlockKind == report.selectedBlockKind
    && result.fallbackDepth == report.fallbackDepth && result.fallbackOrigin == report.fallbackOrigin
  }

  predicate Gained(before: seq<PatchEntry>, after: seq<PatchEntry>, text: string) {
    |after| == |before| + 1 && after[|before|].text == text
  }

  class TheoryRepairOrchestrator {
    const localizer: ReplBlockLocalizer
    const env: Environment
    const store: InMemoryRecordStore
    const factory: RunRecordFactory
    const snapshot: WorkingTheorySnapshot
    const autoResolveReview: bool
    const runMode: RunMode
    const targetMaxTasks: Option<int>
    ghost const ruleGate: Option<Rules.PolicyConfig>  // the rules of the gate, when it is the rule-based one
    var state: RunState
    var pendingReview: Option<PendingReview>
    var acceptedArtifactCount: nat
    var terminalReason: Option<TerminalReason>
    var appliedTaskIds: set<TaskId>
    ghost var summary: Summary                        // what store.records amounts to
    ghost var questions: seq<Question>                // what the engine was asked, one question a TASK record

    // ------------------------------------------------------------ invariants

    /** The snapshot is in order and its anchor is a replay of the patched theory. The trigger keeps the
        verifier from unfolding this where the run does not touch the snapshot. */
    ghost predicate Placed()
      reads snapshot, localizer, localizer.client
    {
      && (forall s {:trigger localizer.Consistent(s)} :: s == snapshot ==> s.Valid() && localizer.Consistent(s))
      && (localizer.theoryCommands != [] ==> localizer.header >= 0)
    }

    ghost predicate LogOk()
      reads this`summary, this`questions, store, factory, localizer
    {
      && Accounts(summary, store.records) && factory.seqNo == summary.size
      && HonestLog(env, localizer.history, questions, store.records)
    }

    ghost predicate UsesRuleGate() {
      ruleGate.Some? ==> forall n, context :: env.policy(n, context) == Rules.Decide(ruleGate.value, context)
    }

    ghost predicate WithinTarget()
      reads this`state, this`acceptedArtifactCount
    {
      && (runMode.TargetBoundary? && targetMaxTasks.Some? && targetMaxTasks.value >= 1 ==>
            acceptedArtifactCount <= targetMaxTasks.value)
      && (runMode.TargetBoundary? && targetMaxTasks.Some? ==>
            acceptedArtifactCount > 0 && acceptedArtifactCount >= targetMaxTasks.value ==> state.Completed?)
    }

    /** Every patch is on record and justified; sealed in the same way. */
    ghost predicate PatchesKept()
      reads this`summary, this`questions, snapshot, localizer
    {
      forall ps: seq<Patch> {:trigger PatchesRecorded(snapshot.replacements, ps)} :: ps == summary.patches ==>
        PatchesRecorded(snapshot.replacements, ps)
        && PatchesJustified(ruleGate, env, localizer.history, questions, snapshot.replacements, ps)
    }

    /** The engine was asked once for each TASK record, with a query that is over; sealed in the same way. */
    ghost predicate QuestionsKept()
      reads this`questions, localizer, localizer.client
    {
      forall qs {:trigger WereAsked(localizer.history, qs, localizer.client.issued)} :: qs == questions ==>
           WereAsked(localizer.history, qs, localizer.client.issued)
    }

    /** The last question is over. */
    ghost predicate Answered()
      reads this`questions, env`clock
    {
      questions != [] ==> questions[|questions| - 1].number < env.clock
    }

    /** The records, the patches and the questions are in order; sealed in the same way, for most steps touch
        none of them. */
    ghost predicate Ledger()
      reads this`summary, this`questions, store, factory, snapshot, localizer, localizer.client
    {
      forall page {:trigger InOrder(page)} :: page == 0 ==> InOrder(page)
    }

    ghost predicate InOrder(page: int)
      reads this`summary, this`questions, store, factory, snapshot, localizer, localizer.client
    {
      Placed() && PatchesKept() && LogOk() && QuestionsKept()
    }

    /** What holds at every point between two statements of the run, but that the localizer may have
        reported one task more than there are TASK records. */
    ghost predicate Books()
      reads this, store, factory, env`clock, snapshot, localizer, localizer.client
    {
      && Ledger() && UsesRuleGate()
      && Answered() && |questions| == summary.tasks
      && summary.artifactIds == appliedTaskIds && summary.provenances == acceptedArtifactCount
      && StateOk()
    }

    /** What holds at every point between two statements of the handling of a task, reviews in flight included. */
    ghost predicate Core()
      reads this, store, factory, env, snapshot, localizer, localizer.client
    {
      Books() && HooksOk() && summary.tasks == |localizer.history|
    }

    /** The hook was not consulted more often than reviews were resolved. */
    ghost predicate HooksOk()
      reads this`summary, env`hookCalls
    {
      env.hookCalls <= summary.resolutions
    }

    /** The fields of the run fit together. */
    ghost predicate StateOk()
      reads this`state, this`pendingReview, this`terminalReason, this`acceptedArtifactCount
    {
      && WithinTarget()
      && (pendingReview.Some? <==> state.AwaitingReview?)
      && (terminalReason.Some? <==> IsTerminal(state))
      && (state.Completed? ==> runMode.TargetBoundary?)
      && (state.Finished? ==> runMode.TheoryWide?)
    }

    /** The result is for the task that the localizer reported last. The trigger keeps the engine's answer folded. */
    ghost predicate IsResultFor(spec: TaskSpec, result: TaskResult)
      reads this`questions, localizer
    {
      && 0 < |questions| == |localizer.history|
      && spec == SpecFor(localizer.history[|questions| - 1])
      && forall t: nat {:trigger AnswerTo(env, localizer.history, questions, t)} :: t == |questions| - 1 ==>
           KeepsTo(result, AnswerTo(env, localizer.history, questions, t))
    }

    /** It is the task in hand. */
    ghost predicate InHand(spec: TaskSpec, result: TaskResult)
      reads this`summary, this`questions, snapshot, localizer
    {
      && summary.tasks == |questions| && IsResultFor(spec, result)
      && result.fallbackDepth == summary.taskDepth
      && localizer.Targets(snapshot, spec.task)
    }

    /** Its artifact is of the kind that the engine reported. */
    ghost predicate AsReported(result: TaskResult)
      reads this`questions, localizer, result
    {
      forall t: nat {:trigger AnswerTo(env, localizer.history, questions, t)} ::
        t == |questions| - 1 && t < |localizer.history| ==>
          result.artifactKind == AnswerTo(env, localizer.history, questions, t).artifactKind
    }

    /** The gate is told the truth about the task in hand. */
    ghost predicate IsTrueContext(context: PolicyContext)
      reads this`summary, this`questions, localizer
    {
      && 0 < summary.tasks == |questions| == |localizer.history|
      && forall t: nat {:trigger AnswerTo(env, localizer.history, questions, t)} :: t == |questions| - 1 ==>
           IsContextFor(context, localizer.history[t], AnswerTo(env, localizer.history, questions, t),
                        summary.last.payload)
    }

    /** No review has supplied another text for it so far; sealed in the same way. */
    ghost predicate OnHand(spec: TaskSpec, result: TaskResult)
      reads this`summary, this`questions, snapshot, localizer, result
    {
      && InHand(spec, result)
      && forall t: nat {:trigger AnswerTo(env, localizer.history, questions, t)} :: t == |questions| - 1 ==>
           result.artifactText == AnswerTo(env, localizer.history, questions, t).artifactText
    }

    /** Its artifact may be considered: it has a text, or the task was escalated. */
    ghost predicate OnOffer(spec: TaskSpec, result: TaskResult)
      reads this`summary, this`questions, snapshot, localizer, result
    {
      OnHand(spec, result) && (result.artifactText == Some("") ==> summary.escalated)
    }

    /** What a review may rely on when it opens. */
    ghost predicate Reviewable(reason: ReviewReason, spec: TaskSpec, result: TaskResult)
      reads this`summary, this`questions, this`appliedTaskIds, snapshot, localizer, result
    {
      && (reason.PolicyReview? || reason.PlaceholderReview? ==> result.HasArtifact())
      && (reason.PlaceholderReview? ==> result.artifactKind == Some(CommittedPlaceholder))
      && (if reason.ContinuationReview? then result.taskId in appliedTaskIds && IsResultFor(spec, result)
          else OnOffer(spec, result))
      && (ruleGate.Some? && ruleGate.value.placeholder.DenyPlaceholder? ==>
            && (reason.PolicyReview? ==> result.artifactKind == Some(Repair))
            && !reason.PlaceholderReview?)
    }

    function PendingResult(): set<TaskResult>
      reads this
    {
      if pendingReview.Some? then {pendingReview.value.result} else {}
    }

    /** A pending review may be resumed; the log ends with its entry. */
    ghost predicate PendingOk()
      reads this, snapshot, localizer, PendingResult()
    {
      pendingReview.Some? ==>
        var pending := pendingReview.value;
        && Reviewable(pending.context.reason, pending.spec, pending.result)
        && pending.context.allowed == Guard.AllowedFor(pending.context.reason)
        && summary.last.payload == Entered(pending.context.reason, pending.context.allowed)
        && summary.last.taskId == Some(pending.result.taskId)
    }

    /** The run is at rest: nothing is in flight, or a review is pending. */
    ghost predicate Valid()
      reads this, store, factory, env, snapshot, localizer, localizer.client, PendingResult()
    {
      Core() && Reflects(summary, state, terminalReason) && PendingOk()
    }

    /** An artifact of `result` may be patched in now, or there is nothing left to patch. */
    ghost predicate ReadyToApply(spec: TaskSpec, result: TaskResult)
      reads this, store, factory, env, snapshot, localizer, localizer.client, PendingResult(), result
    {
      if result.HasArtifact() && result.taskId !in appliedTaskIds then
        && Core() && state.Active? && InHand(spec, result)
        && (result.artifactText == Some("") ==> summary.escalated)
        && summary.last.taskId == Some(result.taskId)
        && Authorizes(summary.last.payload, ArtifactPayload(result))
        && Justified(ruleGate, env, localizer.history, questions, NextPatch(result))
      else
        Valid()
    }

    function ArtifactPayload(result: TaskResult): Payload
      requires result.HasArtifact()
      reads result
    {
      Artifact(result.artifactKind.value, result.artifactText.value, StatusOf(result.validation),
               result.fallbackDepth)
    }

    static function TaskPayload(result: TaskResult, drift: Option<DriftReason>): Payload
      reads result
    {
      Task(result.outcome, StatusOf(result.validation), drift, result.fallbackDepth)
    }

    /** The patch that an ARTIFACT record for `result` would be. */
    ghost function NextPatch(result: TaskResult): Patch
      requires result.HasArtifact()
      reads this, result
    {
      Patch(summary.last.payload, RunRecord(summary.size + 1, Some(result.taskId), ArtifactPayload(result)),
            summary.tasks)
    }

    /** The patch that `result` goes in as, linked to its ARTIFACT record. */
    ghost function PatchFor(spec: TaskSpec, result: TaskResult): PatchEntry
      requires result.HasArtifact()
      reads this, snapshot, result
    {
      PatchEntry(|snapshot.replacements| + 1, result.taskId, spec.task.line, result.artifactKind.value,
                 result.artifactText.value, spec.task.blockText, Some(summary.size + 1))
    }

    /** What the gate is told about a task at one of the two points where an artifact is at stake. */
    static function ContextAt(spec: TaskSpec, result: TaskResult, point: GatePoint,
                              continuation: Option<ContinuationKind>): PolicyContext
      reads result
    {
      var blockKind := if result.selectedBlockKind.Some? then result.selectedBlockKind.value else spec.task.blockKind;
      PolicyContext(result.taskId, spec.task.failureKind, blockKind, result.artifactKind, point, false,
                    result.fallbackDepth, result.fallbackOrigin, continuation)
    }

    /** What the gate is told about a placeholder that a review asked for. */
    static function PlaceholderContext(spec: TaskSpec, result: TaskResult): PolicyContext {
      PolicyContext(result.taskId, spec.task.failureKind, spec.task.blockKind, Some(CommittedPlaceholder),
                    ReviewPlaceholderRequest, true, 0, None, None)
    }

    /** What the whole handling of a task, nested reviews included, does to the theory. */
    twostate predicate PatchesOnce(task: LocalizedTask, taskId: TaskId)
      reads this, snapshot
    {
      AtMostOnePatch(old(snapshot.replacements), snapshot.replacements, old(appliedTaskIds), appliedTaskIds, task,
                     taskId)
    }

    /** The store and its summary have one more record about `taskId`. */
    twostate predicate Appends(taskId: TaskId, payload: Payload)
      reads this`summary, store
    {
      Extends(old(summary), old(store.records), summary, store.records, taskId, payload)
    }

    /** What no part of the handling of a task undoes, and how alone it completes a run. */
    twostate predicate Moves()
      reads this, store
    {
      && old(store.records) <= store.records && summary.terminals == old(summary.terminals)
      && summary.objections >= old(summary.objections) && old(questions) <= questions
      && old(acceptedArtifactCount) <= acceptedArtifactCount
      && (state.Completed? ==> old(state.Completed?) || (acceptedArtifactCount > 0 && TargetBoundaryReached()))
      && (state.Finished? ==> old(state.Finished?))
    }

    /** The run goes on, unless that was its last task. */
    predicate GoesOnActive()
      reads this
    {
      state == if TargetBoundaryReached() then Completed else Active
    }

    static function ContinuationFor(result: TaskResult): ContinuationSelection {
      ContinuationSelection(if result.requiresRerun then RerunThenContinue else Continue, AcceptedArtifact)
    }

    static function RequiresContinuationGate(result: TaskResult, continuation: ContinuationSelection): bool {
      continuation.kind.RerunThenContinue? && result.fallbackDepth > 0
    }

    constructor (localizer: ReplBlockLocalizer, env: Environment, store: InMemoryRecordStore, factory: RunRecordFactory,
                 snapshot: WorkingTheorySnapshot, autoResolveReview: bool, runMode: RunMode,
                 targetMaxTasks: Option<int>, ghost ruleGate: Option<Rules.PolicyConfig>)
      requires snapshot.Valid() && snapshot.replacements == [] && snapshot.anchor.None?
      requires localizer.Consistent(snapshot) && (localizer.theoryCommands != [] ==> localizer.header >= 0)
      requires store.records == [] || store.records == [RunRecord(1, None, RunMetadata)]
      requires factory.seqNo == |store.records| && env.hookCalls == 0 && localizer.history == []
      requires ruleGate.Some? ==> forall n, context :: env.policy(n, context) == Rules.Decide(ruleGate.value, context)
      ensures Valid() && state.Active? && acceptedArtifactCount == 0 && appliedTaskIds == {} && questions == []
      ensures this.localizer == localizer && this.store == store && this.snapshot == snapshot && this.env == env
      ensures this.runMode == runMode && this.targetMaxTasks == targetMaxTasks && this.factory == factory
    {
      this.localizer, this.env, this.store, this.factory := localizer, env, store, factory;
      this.snapshot, this.autoResolveReview := snapshot, autoResolveReview;
      this.runMode, this.targetMaxTasks, this.ruleGate := runMode, targetMaxTasks, ruleGate;
      state, pendingReview, acceptedArtifactCount := Active, None, 0;
      terminalReason, appliedTaskIds := None, {};
      summary, questions := EMPTY, [];
      AccountsEmpty();
      if store.records != [] {
        assert [] + [RunRecord(1, None, RunMetadata)] == store.records;
        AccountsOneMore(EMPTY, [], RunRecord(1, None, RunMetadata));
        summary := EMPTY.Add(RunRecord(1, None, RunMetadata));
      }
      new;
      assert PatchesRecorded(this.snapshot.replacements, []);
    }

    // ------------------------------------------------------------ records

    method AppendRecord(taskId: Option<TaskId>, payload: Payload) returns (record: RunRecord)
      requires LogOk() && MayFollow(summary, taskId, payload)
      requires IsHonest(env, localizer.history, questions, summary, RunRecord(summary.size + 1, taskId, payload))
      modifies this`summary, store, factory
      ensures LogOk()
      ensures record == RunRecord(old(summary.size) + 1, taskId, payload)
      ensures store.records == old(store.records) + [record]
      ensures summary == old(summary).Add(record)
    {
      record := factory.Create(taskId, payload);
      AccountsOneMore(summary, store.records, record);
      OneMoreHonest(env, localizer.history, questions, summary, store.records, record);
      store.Append(record);
      summary := summary.Add(record);
    }

    /** Any record but an ARTIFACT record leaves the patches alone. */
    method RecordEntry(taskId: Option<TaskId>, payload: Payload)
      requires Ledger() && MayFollow(summary, taskId, payload) && !payload.Artifact?
      requires IsHonest(env, localizer.history, questions, summary, RunRecord(summary.size + 1, taskId, payload))
      modifies this`summary, store, factory
      ensures Ledger()
      ensures summary == old(summary).Add(summary.last)
      ensures summary.last == RunRecord(old(summary.size) + 1, taskId, payload)
      ensures store.records == old(store.records) + [summary.last]
    {
      LedgerSays();
      var _ := AppendRecord(taskId, payload);
      assert Placed() && PatchesKept() && LogOk() && QuestionsKept();
    }

    method RecordTask(result: TaskResult, drift: Option<DriftReason>)
      requires Ledger() && Settled(summary)
      requires IsHonest(env, localizer.history, questions, summary,
                        RunRecord(summary.size + 1, Some(result.taskId), TaskPayload(result, drift)))
      modifies this`summary, store, factory
      ensures Ledger() && Appends(result.taskId, TaskPayload(result, drift))
    {
      RecordEntry(Some(result.taskId), TaskPayload(result, drift));
    }

    method RecordPolicy(context: PolicyContext, decision: PolicyDecision)
      requires Ledger() && summary.last.taskId == Some(context.taskId)
      requires MayConsult(summary.last.payload, context.point)
      requires IsTrueContext(context) && exists n :: decision == env.policy(n, context)
      modifies this`summary, store, factory
      ensures Ledger()
      ensures Appends(context.taskId, Policy(decision.kind, context.point))
    {
      assert IsContextFor(context, localizer.history[summary.tasks - 1],
                          AnswerTo(env, localizer.history, questions, summary.tasks - 1), summary.last.payload);
      assert IsAnswerOf(RunRecord(summary.size + 1, Some(context.taskId), Policy(decision.kind, context.point)),
                        context, decision);
      RecordEntry(Some(context.taskId), Policy(decision.kind, context.point));
    }

    /** Asks the gate and records what it answers. */
    method ConsultPolicy(context: PolicyContext) returns (decision: PolicyDecision)
      requires Core() && summary.last.taskId == Some(context.taskId)
      requires MayConsult(summary.last.payload, context.point) && IsTrueContext(context)
      modifies this`summary, store, factory, env`clock
      ensures Core() && Appends(context.taskId, Policy(decision.kind, context.point))
      ensures decision == env.policy(old(env.clock), context)
      ensures ruleGate.Some? ==> decision == Rules.Decide(ruleGate.value, context)
    {
      decision := env.Decide(context);
      RecordPolicy(context, decision);
    }

    method RecordReviewEntered(taskId: TaskId, reason: ReviewReason, allowed: seq<ResponseKind>)
      requires Ledger() && summary.last.taskId == Some(taskId)
      requires allowed == Guard.AllowedFor(reason) && OpensReview(summary.last.payload, reason)
      modifies this`summary, store, factory
      ensures Ledger() && Appends(taskId, Entered(reason, allowed))
    {
      RecordEntry(Some(taskId), Entered(reason, allowed));
    }

    method RecordReviewResolved(taskId: TaskId, reason: ReviewReason, allowed: seq<ResponseKind>,
                                response: ResponseKind, invalid: bool)
      requires Ledger() && summary.last.taskId == Some(taskId) && summary.last.payload == Entered(reason, allowed)
      requires if invalid then response.Reject? else response in allowed
      modifies this`summary, store, factory
      ensures Ledger() && Appends(taskId, Resolved(reason, allowed, response, invalid))
    {
      RecordEntry(Some(taskId), Resolved(reason, allowed, response, invalid));
    }

    /** The engine's answer about the task in hand lets the run go on like that. */
    ghost predicate MayGoOn(kind: ContinuationKind)
      reads this`summary, this`questions, localizer
    {
      && 0 < summary.tasks == |questions| == |localizer.history|
      && GoesOnAs(AnswerTo(env, localizer.history, questions, |questions| - 1), summary.last.payload, kind)
    }

    method RecordContinuation(taskId: TaskId, selection: ContinuationSelection)
      requires Ledger() && summary.last.taskId == Some(taskId)
      requires LeadsTo(summary.last.payload, selection)
      requires selection.kind.Stop? || MayGoOn(selection.kind)
      modifies this`summary, store, factory
      ensures Ledger() && Appends(taskId, Continuation(selection))
    {
      RecordEntry(Some(taskId), Continuation(selection));
    }

    method RecordProvenance(taskId: TaskId)
      requires Ledger() && summary.last.taskId == Some(taskId) && IsAccept(summary.last.payload)
      modifies this`summary, store, factory
      ensures Ledger() && Appends(taskId, Provenance)
    {
      RecordEntry(Some(taskId), Provenance);
    }

    /** An accepted continuation, and its provenance. */
    method RecordAccepted(taskId: TaskId, selection: ContinuationSelection)
      requires Ledger() && summary.last.taskId == Some(taskId) && !selection.kind.Stop?
      requires LeadsTo(summary.last.payload, selection) && MayGoOn(selection.kind)
      modifies this`summary, store, factory
      ensures Ledger()
      ensures store.records ==
              old(store.records) + [RunRecord(old(summary.size) + 1, Some(taskId), Continuation(selection)),
                                    summary.last]
      ensures summary == old(summary).(size := old(summary.size) + 2, accepts := old(summary.accepts) + 1,
                                       last := RunRecord(old(summary.size) + 2, Some(taskId), Provenance),
                                       provenances := old(summary.provenances) + 1)
    {
      RecordContinuation(taskId, selection);
      RecordProvenance(taskId);
    }

    method SetTerminal(terminal: RunState, reason: TerminalReason)
      modifies this`state, this`terminalReason
      ensures state == terminal && terminalReason == Some(reason)
    {
      state, terminalReason := terminal, Some(reason);
    }

    /** Selects STOP and ends the run for the reason that goes with it. */
    method StopRun(taskId: TaskId, reason: ContinuationReason)
      requires Core() && state.Active? && summary.last.taskId == Some(taskId)
      requires LeadsTo(summary.last.payload, ContinuationSelection(Stop, reason))
      modifies this`state, this`terminalReason, this`summary, store, factory
      ensures Valid() && state.Stopped? && terminalReason == StopReason(reason)
      ensures Appends(taskId, Continuation(ContinuationSelection(Stop, reason)))
    {
      RecordContinuation(taskId, ContinuationSelection(Stop, reason));
      SetTerminal(Stopped, StopReason(reason).value);
    }

    // ------------------------------------------------------------ reviews

    method EnterReview(spec: TaskSpec, result: TaskResult, decision: PolicyDecision, reason: ReviewReason,
                       allowedKinds: seq<ResponseKind>)
      requires Core() && state.Active? && Reviewable(reason, spec, result)
      requires Guard.AllowedFor(reason) ==
               if allowedKinds == [] then Guard.AllowedFor(PolicyReview) else allowedKinds
      requires summary.last.taskId == Some(result.taskId) && OpensReview(summary.last.payload, reason)
      modifies this`state, this`pendingReview, this`summary, store, factory
      ensures Valid() && state.AwaitingReview?
      ensures pendingReview ==
        Some(PendingReview(spec, result,
                           InterventionContext(reason, result.taskId, result.artifactText, result.artifactKind,
                                               decision, result.validation, Guard.AllowedFor(reason))))
      ensures Appends(result.taskId, Entered(reason, Guard.AllowedFor(reason)))
    {
      var allowed := if allowedKinds == [] then [Approve, Reject, ProvideReplacement, RequestPlaceholder, RequestStop]
                     else allowedKinds;
      var context := InterventionContext(reason, result.taskId, result.artifactText, result.artifactKind, decision,
                                         result.validation, allowed);
      SetPending(Some(PendingReview(spec, result, context)));
      RecordReviewEntered(result.taskId, reason, allowed);
    }

    /** Enters a review and, if reviews are resolved on the spot, resumes from it. */
    method Review(spec: TaskSpec, result: TaskResult, decision: PolicyDecision, reason: ReviewReason,
                  allowedKinds: seq<ResponseKind>)
        returns (accepted: bool)
      requires Core() && state.Active? && Reviewable(reason, spec, result)
      requires Guard.AllowedFor(reason) ==
               if allowedKinds == [] then Guard.AllowedFor(PolicyReview) else allowedKinds
      requires summary.last.taskId == Some(result.taskId) && OpensReview(summary.last.payload, reason)
      modifies this, snapshot`replacements, snapshot`appliedArtifacts, snapshot`currentLines
      modifies store, factory, env, result
      ensures Valid()
      ensures PatchesOnce(spec.task, result.taskId)
      ensures Moves() && Opened(store.records, |old(store.records)|, result.taskId, reason)
      ensures if autoResolveReview then !state.AwaitingReview? else !accepted && state.AwaitingReview?
      ensures accepted && !reason.ContinuationReview? ==> result.taskId in appliedTaskIds
      ensures env.hookCalls <= old(env.hookCalls) + Guard.Rank(reason)
      decreases Guard.Rank(reason), 9
    {
      EnterReview(spec, result, decision, reason, allowedKinds);
      if !autoResolveReview {
        return false;
      }
      accepted := ResumeFromReview(None);
    }

    /** Consults the hook, unless the caller brings a response, and acts on the guarded answer. Nested
        reviews have a smaller rank, so the hook is consulted at most as often as the rank says. */
    method ResumeFromReview(response: Option<InterventionResponse>) returns (accepted: bool)
      requires Valid()
      modifies this, snapshot`replacements, snapshot`appliedArtifacts, snapshot`currentLines
      modifies store, factory, env, PendingResult()
      ensures Valid()
      ensures if old(pendingReview).Some?
              then PatchesOnce(old(pendingReview).value.spec.task, old(pendingReview).value.result.taskId)
              else snapshot.replacements == old(snapshot.replacements) && appliedTaskIds == old(appliedTaskIds)
      ensures Moves()
      ensures !old(state.AwaitingReview?) ==> !accepted && state == old(state) && store.records == old(store.records)
      ensures autoResolveReview ==> !state.AwaitingReview?
      // what the answer, before it is guarded, leads to; the log goes on behind the record of it
      ensures old(pendingReview).Some? ==>
        var raw := old(RawAnswer(pendingReview.value.context, response));
        && IsAnswerRecorded(old(store.records), old(pendingReview).value.context.reason, raw)
        && Resolves(old(pendingReview).value, raw, old(HadText()), old(env.clock) + (if response.Some? then 0 else 1),
                    |old(store.records)| + 1, accepted)
      ensures env.hookCalls <= old(env.hookCalls) +
              (if old(pendingReview).Some? then Guard.Rank(old(pendingReview).value.context.reason) else 0)
      decreases if pendingReview.Some? then Guard.Rank(pendingReview.value.context.reason) else 0, 8
    {
      if !state.AwaitingReview? || pendingReview.None? {
        return false;
      }
      ghost var raw := RawAnswer(pendingReview.value.context, response);
      var pending, guarded := TakeResponse(response);
      accepted := ActOnResponse(pending, guarded, raw);
    }

    /** The second half of the source's resume_from_review. */
    method ActOnResponse(pending: PendingReview, guarded: Guard.GuardResult, ghost raw: InterventionResponse)
        returns (accepted: bool)
      requires var reason := pending.context.reason;
               && Core() && state.Active? && Reviewable(reason, pending.spec, pending.result)
               && summary.last.taskId == Some(pending.result.taskId)
               && summary.last.payload ==
                  Resolved(reason, Guard.AllowedFor(reason), guarded.response.kind, guarded.invalid)
               && (guarded.invalid <==> !Guard.IsTaken(reason, raw))
               && if guarded.invalid then guarded.response.kind.Reject? else guarded.response == raw
      modifies this, snapshot`replacements, snapshot`appliedArtifacts, snapshot`currentLines
      modifies store, factory, env, pending.result
      ensures Valid() && Moves() && PatchesOnce(pending.spec.task, pending.result.taskId)
      ensures autoResolveReview ==> !state.AwaitingReview?
      ensures Resolves(pending, raw, old(pending.result.artifactText.Some?), old(env.clock), |old(store.records)|,
                       accepted)
      ensures env.hookCalls + 1 <= old(env.hookCalls) + Guard.Rank(pending.context.reason)
      decreases Guard.Rank(pending.context.reason), 7
    {
      accepted := ApplyReviewResponse(pending.spec, pending.result, guarded.response, guarded.invalid,
                                      pending.context.reason);
      if accepted {
        ActOnApproval(pending.spec, pending.result, pending.context.reason);
      }
    }

    /** What was accepted goes in, or the run goes on behind what went in before. */
    method ActOnApproval(spec: TaskSpec, result: TaskResult, reason: ReviewReason)
      requires if reason.ContinuationReview? then
                 && Core() && state.Active? && IsResultFor(spec, result)
                 && summary.last.taskId == Some(result.taskId) && summary.last.payload.Resolved?
                 && LeadsTo(summary.last.payload, ContinuationFor(result))
               else ReadyToApply(spec, result) && (result.HasArtifact() || result.taskId in appliedTaskIds)
      modifies this, snapshot`replacements, snapshot`appliedArtifacts, snapshot`currentLines
      modifies store, factory, env, result
      ensures Valid() && Moves() && PatchesOnce(spec.task, result.taskId)
      ensures autoResolveReview && !old(state.AwaitingReview?) ==> !state.AwaitingReview?
      ensures Applied(result, reason, |old(store.records)|)
      ensures reason.ContinuationReview? || old(result.taskId in appliedTaskIds) ==> env.hookCalls == old(env.hookCalls)
      ensures env.hookCalls <= old(env.hookCalls) + 1
      decreases if reason.ContinuationReview? then 1 else 2, 5
    {
      if reason.ContinuationReview? {
        ContinuesAsReported(spec, result);
        FinalizeAcceptedContinuation(result.taskId, ContinuationFor(result));
      } else {
        ApplyAcceptedArtifact(spec, result);
      }
    }

    /** What the answer to a review comes to, whether it is taken or not; `at` is where the log goes on behind the
        record of it. */
    ghost predicate Resolves(pending: PendingReview, raw: InterventionResponse, hadText: bool, n: nat, at: nat,
                             accepted: bool)
      reads this`state, this`terminalReason, this`appliedTaskIds, store
    {
      var spec, result, reason := pending.spec, pending.result, pending.context.reason;
      var taken := Guard.IsTaken(reason, raw);
      && IsVerdict(spec, result, raw, taken, hadText, n, accepted)
      && (if accepted then Applied(result, reason, at) else Rests(raw, taken, hadText, at))
      && (taken && raw.kind.RequestPlaceholder? && hadText ==>
            Consulted(env, store.records, at, n, PlaceholderContext(spec, result)))
    }

    /** What an answer comes to, given whether it is taken, and at which query of the environment what it asks for
        is decided: what is approved is accepted, a replacement is if the engine passes it, and a placeholder is
        up to the gate. */
    ghost predicate IsVerdict(spec: TaskSpec, result: TaskResult, answer: InterventionResponse, taken: bool,
                              hadText: bool, n: nat, accepted: bool)
    {
      if !taken then !accepted
      else
        match answer.kind
        case Approve => accepted
        case ProvideReplacement =>
          && answer.replacementText.Some?
          && accepted == env.engineValidate(n, spec, answer.replacementText.value).status.Passed?
        case RequestPlaceholder =>
          || (hadText && match env.policy(n, PlaceholderContext(spec, result)).kind
                         case Allow => accepted
                         case Deny => !accepted
                         case RequiresReview => true)
          || (!hadText && !accepted)
        case _ => !accepted
    }

    /** An answer that is not accepted stops the run if it asks for that, and leaves it as it is otherwise, unless
        the gate was asked about a placeholder. */
    ghost predicate Rests(answer: InterventionResponse, taken: bool, hadText: bool, at: nat)
      reads this`state, this`terminalReason, store
    {
      if taken && answer.kind.RequestStop? then state.Stopped? && terminalReason == Some(StoppedByReviewStop)
      else (taken && answer.kind.RequestPlaceholder? && hadText) || (state.Active? && |store.records| == at)
    }

    /** The answer is on record as it is if it is taken, and as a rejection otherwise. */
    ghost predicate IsAnswerRecorded(before: seq<RunRecord>, reason: ReviewReason, answer: InterventionResponse)
      reads store
    {
      var taken := Guard.IsTaken(reason, answer);
      && |store.records| > |before| && store.records[|before|].payload.Resolved?
      && store.records[|before|].payload.reason == reason && store.records[|before|].payload.invalid == !taken
      && store.records[|before|].payload.response == if taken then answer.kind else Reject
    }

    /** There is a text that a review could turn into a placeholder. */
    predicate HadText()
      reads this, PendingResult()
    {
      pendingReview.Some? && pendingReview.value.result.artifactText.Some?
    }

    /** One that is accepted is applied, or the run goes on behind what was applied before. */
    ghost predicate Applied(result: TaskResult, reason: ReviewReason, at: nat)
      reads this`appliedTaskIds, store
    {
      if reason.ContinuationReview? then Accepts(store.records, at, result.requiresRerun)
      else result.taskId in appliedTaskIds
    }

    ghost function RawAnswer(context: InterventionContext, response: Option<InterventionResponse>): InterventionResponse
      reads env
    {
      if response.Some? then response.value else env.hook(env.clock, context)
    }

    method GuardedAnswer(context: InterventionContext, response: Option<InterventionResponse>)
        returns (guarded: Guard.GuardResult)
      modifies env
      ensures guarded == Guard.Validate(context, old(RawAnswer(context, response)))
      ensures env.hookCalls == old(env.hookCalls) + if response.Some? then 0 else 1
      ensures env.clock == old(env.clock) + if response.Some? then 0 else 1
    {
      var raw;
      if response.Some? {
        raw := response.value;
      } else {
        raw := env.Handle(context);
      }
      guarded := Guard.Validate(context, raw);
    }

    /** The first half of the source's resume_from_review: the guarded answer is on record and the run
        is active again. */
    method TakeResponse(response: Option<InterventionResponse>)
        returns (pending: PendingReview, guarded: Guard.GuardResult)
      requires Core() && PendingOk() && state.AwaitingReview?
      modifies this`state, this`pendingReview, this`summary, store, factory, env
      ensures Core() && state.Active?
      ensures Some(pending) == old(pendingReview)
      ensures Reviewable(pending.context.reason, pending.spec, pending.result)
      ensures Appends(pending.result.taskId,
                      Resolved(pending.context.reason, Guard.AllowedFor(pending.context.reason),
                               guarded.response.kind, guarded.invalid))
      // the answer of the caller, or else of the hook, as it is if it is taken
      ensures var raw := old(RawAnswer(pendingReview.value.context, response));
              && (guarded.invalid <==> !Guard.IsTaken(pending.context.reason, raw))
              && if guarded.invalid then guarded.response.kind.Reject? else guarded.response == raw
      ensures env.hookCalls == old(env.hookCalls) + if response.Some? then 0 else 1
      ensures env.clock == old(env.clock) + if response.Some? then 0 else 1
    {
      pending := pendingReview.value;
      guarded := GuardedAnswer(pending.context, response);
      CloseReview(pending, guarded);
    }

    /** The review is resolved: its answer is on record and nothing is pending. */
    method CloseReview(pending: PendingReview, guarded: Guard.GuardResult)
      requires Books() && summary.tasks == |localizer.history| && env.hookCalls <= summary.resolutions + 1
      requires PendingOk() && state.AwaitingReview? && pendingReview == Some(pending)
      requires if guarded.invalid then guarded.response.kind.Reject?
               else Guard.IsTaken(pending.context.reason, guarded.response)
      modifies this`state, this`pendingReview, this`summary, store, factory
      ensures Core() && state.Active? && Reviewable(pending.context.reason, pending.spec, pending.result)
      ensures Appends(pending.result.taskId,
                      Resolved(pending.context.reason, Guard.AllowedFor(pending.context.reason),
                               guarded.response.kind, guarded.invalid))
    {
      RecordReviewResolved(pending.result.taskId, pending.context.reason, pending.context.allowed,
                           guarded.response.kind, guarded.invalid);
      SetPending(None);
    }

    /** The run waits for a review, or goes on. */
    method SetPending(pending: Option<PendingReview>)
      modifies this`state, this`pendingReview
      ensures pendingReview == pending && state == if pending.Some? then AwaitingReview else Active
    {
      pendingReview := pending;
      state := if pending.Some? then AwaitingReview else Active;
    }

    method ApplyReviewResponse(spec: TaskSpec, result: TaskResult, response: InterventionResponse, invalid: bool,
                               ghost reason: ReviewReason)
        returns (accepted: bool)
      requires Core() && state.Active? && Reviewable(reason, spec, result)
      requires summary.last.taskId == Some(result.taskId)
      requires summary.last.payload == Resolved(reason, Guard.AllowedFor(reason), response.kind, invalid)
      requires if invalid then response.kind.Reject? else Guard.IsTaken(reason, response)
      modifies this, snapshot`replacements, snapshot`appliedArtifacts, snapshot`currentLines
      modifies store, factory, env, result
      ensures !accepted ==> Valid()
      ensures accepted && reason.ContinuationReview? ==>
        && Core() && state.Active? && summary == old(summary) && questions == old(questions)
        && response.kind.Approve? && !invalid
      ensures accepted && !reason.ContinuationReview? ==>
        ReadyToApply(spec, result) && (result.HasArtifact() || result.taskId in appliedTaskIds)
      ensures PatchesOnce(spec.task, result.taskId)
      ensures Moves()
      ensures autoResolveReview ==> !state.AwaitingReview?
      ensures env.hookCalls + 1 <= old(env.hookCalls) + Guard.Rank(reason)
      ensures accepted && result.taskId !in appliedTaskIds ==> env.hookCalls == old(env.hookCalls)
      ensures IsVerdict(spec, result, response, !invalid, old(result.artifactText.Some?), old(env.clock), accepted)
      ensures !accepted ==> Rests(response, !invalid, old(result.artifactText.Some?), |old(store.records)|)
      ensures response.kind.Approve? ==> store.records == old(store.records)
      ensures response.kind.ProvideReplacement? && accepted ==>
        result.artifactText == response.replacementText && result.artifactKind == Some(Repair)
      ensures response.kind.RequestPlaceholder? && old(result.artifactText.Some?) ==>
        Consulted(env, store.records, |old(store.records)|, old(env.clock), PlaceholderContext(spec, result))
      decreases Guard.Rank(reason), 6
    {
      if response.kind.RequestStop? {
        StopRun(result.taskId, HookRequestedStop);
        return false;
      }
      if invalid || response.kind.Reject? {
        return false;
      }
      if response.kind.Approve? {
        ApprovedIsReady(spec, result, reason);
        return true;
      }
      accepted := ReviseArtifact(spec, result, response, reason);
    }

    /** What a review approves may be applied as it is. */
    lemma ApprovedIsReady(spec: TaskSpec, result: TaskResult, reason: ReviewReason)
      requires Core() && state.Active? && Reviewable(reason, spec, result)
      requires summary.last.taskId == Some(result.taskId)
      requires summary.last.payload == Resolved(reason, Guard.AllowedFor(reason), Approve, false)
      requires Approve in Guard.AllowedFor(reason)
      ensures !reason.ContinuationReview? ==> result.HasArtifact() && ReadyToApply(spec, result)
    {
    }

    /** The answers that ask for another artifact. */
    method ReviseArtifact(spec: TaskSpec, result: TaskResult, response: InterventionResponse,
                          ghost reason: ReviewReason)
        returns (accepted: bool)
      requires Core() && state.Active? && Reviewable(reason, spec, result)
      requires summary.last.taskId == Some(result.taskId)
      requires summary.last.payload == Resolved(reason, Guard.AllowedFor(reason), response.kind, false)
      requires response.kind.RequestPlaceholder? || response.kind.ProvideReplacement?
      requires Guard.IsTaken(reason, response)
      modifies this, snapshot`replacements, snapshot`appliedArtifacts, snapshot`currentLines
      modifies store, factory, env, result
      ensures !accepted ==> Valid()
      ensures accepted ==> ReadyToApply(spec, result) && (result.HasArtifact() || result.taskId in appliedTaskIds)
      ensures PatchesOnce(spec.task, result.taskId)
      ensures Moves()
      ensures autoResolveReview ==> !state.AwaitingReview?
      ensures env.hookCalls <= old(env.hookCalls) + 2
      ensures accepted && result.taskId !in appliedTaskIds ==> env.hookCalls == old(env.hookCalls)
      ensures IsVerdict(spec, result, response, true, old(result.artifactText.Some?), old(env.clock), accepted)
      ensures !accepted ==> Rests(response, true, old(result.artifactText.Some?), |old(store.records)|)
      ensures response.kind.ProvideReplacement? && accepted ==>
        result.artifactText == response.replacementText && result.artifactKind == Some(Repair)
      ensures response.kind.RequestPlaceholder? && old(result.artifactText.Some?) ==>
        Consulted(env, store.records, |old(store.records)|, old(env.clock), PlaceholderContext(spec, result))
      decreases 3, 5
    {
      if response.kind.RequestPlaceholder? {
        accepted := ResolvePlaceholderRequest(spec, result, reason);
        return;
      }
      if response.kind.ProvideReplacement? && Guard.NonEmpty(response.replacementText) {
        accepted := ApplyReplacement(spec, result, response.replacementText.value, reason);
        return;
      }
      return false;
    }

    /** The replacement branch of the source's _apply_review_response. */
    method ApplyReplacement(spec: TaskSpec, result: TaskResult, text: string, ghost reason: ReviewReason)
        returns (accepted: bool)
      requires Core() && state.Active? && Reviewable(reason, spec, result) && text != ""
      requires reason.PolicyReview? || reason.EscalationReview?
      requires summary.last.taskId == Some(result.taskId)
      requires summary.last.payload == Resolved(reason, Guard.AllowedFor(reason), ProvideReplacement, false)
      modifies result, env`clock
      ensures if accepted then
                && ReadyToApply(spec, result)
                && result.artifactText == Some(text) && result.artifactKind == Some(Repair)
              else Valid()
      ensures accepted <==> result.validation.Some? && result.validation.value.status.Passed?
      ensures result.attemptedCandidates == old(result.attemptedCandidates) + [text]
      ensures !accepted ==>
        result.artifactText == old(result.artifactText) && result.artifactKind == old(result.artifactKind)
      ensures Core() && result.validation == Some(env.engineValidate(old(env.clock), spec, text))
    {
      var validation := env.ValidateCandidate(spec, text);
      result.Attempted(text, validation);
      if validation.status.Passed? {
        TakeReplacement(spec, result, text);
        return true;
      }
      return false;
    }

    method TakeReplacement(spec: TaskSpec, result: TaskResult, text: string)
      requires Core() && state.Active? && OnHand(spec, result) && text != ""
      requires summary.last.taskId == Some(result.taskId) && StatusOf(result.validation) == Some(Passed)
      requires summary.last.payload.Resolved? && !summary.last.payload.invalid
      requires summary.last.payload.response.ProvideReplacement?
      requires summary.last.payload.reason.PolicyReview? || summary.last.payload.reason.EscalationReview?
      requires exists n :: env.engineValidate(n, spec, text).status.Passed?
      modifies result`artifactText, result`artifactKind
      ensures ReadyToApply(spec, result) && result.artifactText == Some(text) && result.artifactKind == Some(Repair)
    {
      result.artifactText := Some(text);
      result.artifactKind := Some(Repair);
    }

    method ResolvePlaceholderRequest(spec: TaskSpec, result: TaskResult, ghost reason: ReviewReason)
        returns (accepted: bool)
      requires Core() && state.Active? && Reviewable(reason, spec, result)
      requires reason.PolicyReview? || reason.EscalationReview?
      requires summary.last.taskId == Some(result.taskId)
      requires summary.last.payload == Resolved(reason, Guard.AllowedFor(reason), RequestPlaceholder, false)
      modifies this, snapshot`replacements, snapshot`appliedArtifacts, snapshot`currentLines
      modifies store, factory, env, result
      ensures !accepted ==> Valid()
      ensures accepted ==> ReadyToApply(spec, result) && (result.HasArtifact() || result.taskId in appliedTaskIds)
      ensures PatchesOnce(spec.task, result.taskId)
      ensures Moves()
      ensures autoResolveReview ==> !state.AwaitingReview?
      ensures env.hookCalls <= old(env.hookCalls) + 2
      ensures accepted && result.taskId !in appliedTaskIds ==> env.hookCalls == old(env.hookCalls)
      ensures old(result.artifactText.None?) ==> !accepted && state.Active? && store.records == old(store.records)
      ensures old(result.artifactText.Some?) ==>
        && Consulted(env, store.records, |old(store.records)|, old(env.clock), PlaceholderContext(spec, result))
        && match env.policy(old(env.clock), PlaceholderContext(spec, result)).kind
           case Allow => accepted && result.artifactKind == Some(CommittedPlaceholder)
           case Deny =>
             && !accepted && result.artifactKind == old(result.artifactKind)
             && state.Active? && |store.records| == |old(store.records)| + 1
           case RequiresReview =>
             && (accepted ==> result.taskId in appliedTaskIds)
             && Opened(store.records, |old(store.records)| + 1, result.taskId, PlaceholderReview)
      decreases 3, 4
    {
      if result.artifactText.None? {
        return false;
      }
      ToldAboutPlaceholder(spec, result);
      var decision := ConsultPolicy(PlaceholderContext(spec, result));
      accepted := ActOnPlaceholderDecision(spec, result, decision);
    }

    /** The second half of the source's _resolve_placeholder_request. */
    method ActOnPlaceholderDecision(spec: TaskSpec, result: TaskResult, decision: PolicyDecision)
        returns (accepted: bool)
      requires Core() && state.Active? && result.artifactText.Some? && OnOffer(spec, result)
      requires ruleGate.Some? && ruleGate.value.placeholder.DenyPlaceholder? ==> decision.kind.Deny?
      requires summary.last.taskId == Some(result.taskId)
      requires summary.last.payload == Policy(decision.kind, ReviewPlaceholderRequest)
      modifies this, snapshot`replacements, snapshot`appliedArtifacts, snapshot`currentLines
      modifies store, factory, env, result
      ensures !accepted ==> Valid()
      ensures accepted ==> ReadyToApply(spec, result) && (result.HasArtifact() || result.taskId in appliedTaskIds)
      ensures PatchesOnce(spec.task, result.taskId)
      ensures Moves()
      ensures autoResolveReview ==> !state.AwaitingReview?
      ensures env.hookCalls <= old(env.hookCalls) + 2
      ensures accepted && result.taskId !in appliedTaskIds ==> env.hookCalls == old(env.hookCalls)
      ensures match decision.kind
              case Allow => accepted && result.artifactKind == Some(CommittedPlaceholder)
              case Deny =>
                && !accepted && result.artifactKind == old(result.artifactKind)
                && state.Active? && store.records == old(store.records)
              case RequiresReview =>
                && (accepted ==> result.taskId in appliedTaskIds)
                && Opened(store.records, |old(store.records)|, result.taskId, PlaceholderReview)
      decreases 3, 3
    {
      if decision.kind.Deny? {
        return false;
      }
      if decision.kind.RequiresReview? {
        accepted := ReviewPlaceholder(spec, result, decision);
        return;
      }
      TakeAsPlaceholder(spec, result);
      return true;
    }

    method TakeAsPlaceholder(spec: TaskSpec, result: TaskResult)
      requires Core() && state.Active? && result.artifactText.Some? && OnOffer(spec, result)
      requires ruleGate.Some? ==> !ruleGate.value.placeholder.DenyPlaceholder?
      requires summary.last.taskId == Some(result.taskId)
      requires summary.last.payload == Policy(Allow, ReviewPlaceholderRequest)
      requires result.taskId in appliedTaskIds ==> Valid()
      modifies result`artifactKind
      ensures result.artifactKind == Some(CommittedPlaceholder) && ReadyToApply(spec, result)
    {
      result.artifactKind := Some(CommittedPlaceholder);
    }

    /** The review branch of the source's _resolve_placeholder_request. */
    method ReviewPlaceholder(spec: TaskSpec, result: TaskResult, decision: PolicyDecision) returns (accepted: bool)
      requires Core() && state.Active? && result.artifactText.Some? && OnOffer(spec, result)
      requires ruleGate.Some? ==> !ruleGate.value.placeholder.DenyPlaceholder?
      requires summary.last.taskId == Some(result.taskId)
      requires summary.last.payload == Policy(RequiresReview, ReviewPlaceholderRequest)
      modifies this, snapshot`replacements, snapshot`appliedArtifacts, snapshot`currentLines
      modifies store, factory, env, result
      ensures Valid()
      ensures accepted ==> result.taskId in appliedTaskIds
      ensures PatchesOnce(spec.task, result.taskId)
      ensures Moves()
      ensures autoResolveReview ==> !state.AwaitingReview?
      ensures env.hookCalls <= old(env.hookCalls) + 2
      ensures Opened(store.records, |old(store.records)|, result.taskId, PlaceholderReview)
      ensures !accepted && !state.AwaitingReview? ==> result.artifactKind == old(result.artifactKind)
      decreases 3, 2
    {
      var originalKind := result.artifactKind;
      result.artifactKind := Some(CommittedPlaceholder);
      accepted := Review(spec, result, decision, PlaceholderReview, [Approve, Reject, RequestStop]);
      if !accepted && !state.AwaitingReview? {
        result.artifactKind := originalKind;
      }
    }

    // ------------------------------------------------------------ taking up an artifact

    method GateOrReview(spec: TaskSpec, result: TaskResult) returns (accepted: bool)
      requires Core() && state.Active? && result.HasArtifact() && OnOffer(spec, result) && AsReported(result)
      requires summary.last.taskId == Some(result.taskId) && summary.last.payload.Task?
      requires var outcome := summary.last.payload.outcome; !outcome.Failed? && !outcome.Escalated?
      modifies this, snapshot`replacements, snapshot`appliedArtifacts, snapshot`currentLines
      modifies store, factory, env, result
      ensures if accepted then ReadyToApply(spec, result) && state.Active? else Valid()
      ensures Consulted(env, store.records, |old(store.records)|, old(env.clock),
                        old(ContextAt(spec, result, TaskArtifactEvaluation, None)))
      ensures accepted <==>
        env.policy(old(env.clock), old(ContextAt(spec, result, TaskArtifactEvaluation, None))).kind.Allow?
      ensures !accepted ==> summary.objections > old(summary.objections)
      ensures !accepted ==>
        if env.policy(old(env.clock), old(ContextAt(spec, result, TaskArtifactEvaluation, None))).kind.Deny?
        then state.Active? && |store.records| == |old(store.records)| + 1
        else Opened(store.records, |old(store.records)| + 1, result.taskId, PolicyReview)
      ensures accepted ==>
        && env.hookCalls == old(env.hookCalls) && appliedTaskIds == old(appliedTaskIds)
        && summary.objections == old(summary.objections) && |store.records| == |old(store.records)| + 1
        && result.artifactText == old(result.artifactText) && result.artifactKind == old(result.artifactKind)
      ensures PatchesOnce(spec.task, result.taskId)
      ensures Moves()
      ensures autoResolveReview ==> !state.AwaitingReview?
      ensures env.hookCalls <= old(env.hookCalls) + 3
    {
      ToldAboutArtifact(spec, result);
      var decision := ConsultPolicy(ContextAt(spec, result, TaskArtifactEvaluation, None));
      if decision.kind.Deny? {
        return false;
      }
      if decision.kind.Allow? {
        return true;
      }
      assert result.artifactKind.value.Repair? || result.artifactKind.value.CommittedPlaceholder?;
      var _ := Review(spec, result, decision, PolicyReview, []);
      return false;
    }

    /** Patches an artifact in, once a task, and gates what comes after it. */
    method ApplyAcceptedArtifact(spec: TaskSpec, result: TaskResult)
      requires ReadyToApply(spec, result)
      modifies this, snapshot`replacements, snapshot`appliedArtifacts, snapshot`currentLines
      modifies store, factory, env, result
      ensures Valid()
      ensures old(result.HasArtifact()) ==> result.taskId in appliedTaskIds
      ensures !old(result.HasArtifact()) || old(result.taskId in appliedTaskIds) ==>
        state == old(state) && store.records == old(store.records) && env.hookCalls == old(env.hookCalls)
      ensures PatchesOnce(spec.task, result.taskId)
      ensures Moves()
      ensures autoResolveReview && !old(state.AwaitingReview?) ==> !state.AwaitingReview?
      ensures env.hookCalls <= old(env.hookCalls) + 1
      ensures old(result.HasArtifact() && result.taskId !in appliedTaskIds) ==>
        && TakenUp(store.records, |old(store.records)|, old(ArtifactPayload(result)), result.requiresRerun,
                   result.fallbackDepth)
        && Gained(old(snapshot.replacements), snapshot.replacements, old(result.artifactText.value))
        && (summary.objections == old(summary.objections) ==> GoesOnActive())
      decreases 2, 4
    {
      if result.artifactKind.None? || result.artifactText.None? {
        return;
      }
      if result.taskId in appliedTaskIds {
        return;
      }
      TakeUp(spec, result);
    }

    /** What the source's _apply_accepted_artifact does with an artifact it has not seen before. */
    method TakeUp(spec: TaskSpec, result: TaskResult)
      requires ReadyToApply(spec, result) && result.HasArtifact() && result.taskId !in appliedTaskIds
      modifies this, snapshot`replacements, snapshot`appliedArtifacts, snapshot`currentLines
      modifies store, factory, env, result
      ensures Valid() && result.taskId in appliedTaskIds
      ensures PatchesOnce(spec.task, result.taskId)
      ensures Moves()
      ensures autoResolveReview ==> !state.AwaitingReview?
      ensures env.hookCalls <= old(env.hookCalls) + 1
      ensures TakenUp(store.records, |old(store.records)|, old(ArtifactPayload(result)), result.requiresRerun,
                      result.fallbackDepth)
      ensures Gained(old(snapshot.replacements), snapshot.replacements, old(result.artifactText.value))
      ensures summary.objections == old(summary.objections) ==> GoesOnActive()
      decreases 2, 3
    {
      PatchAndRecord(spec, result);
      ContinueAfter(spec, result);
    }

    /** How the run goes on after an artifact: straight on, or by way of the gate. */
    method ContinueAfter(spec: TaskSpec, result: TaskResult)
      requires Core() && state.Active? && result.taskId in appliedTaskIds && IsResultFor(spec, result)
      requires summary.last.taskId == Some(result.taskId) && summary.last.payload.Artifact?
      requires result.artifactKind == Some(summary.last.payload.kind)
      modifies this, snapshot`replacements, snapshot`appliedArtifacts, snapshot`currentLines
      modifies store, factory, env, result
      ensures Valid() && Moves()
      ensures snapshot.replacements == old(snapshot.replacements) && appliedTaskIds == old(appliedTaskIds)
      ensures autoResolveReview ==> !state.AwaitingReview?
      ensures env.hookCalls <= old(env.hookCalls) + 1
      ensures GoesOn(store.records, |old(store.records)|, result.requiresRerun, result.fallbackDepth)
      ensures summary.objections == old(summary.objections) ==> GoesOnActive()
      decreases 2, 2
    {
      var continuation := ContinuationFor(result);
      if RequiresContinuationGate(result, continuation) {
        var open := GateContinuation(spec, result, continuation);
        if !open {
          return;
        }
      }
      ContinuesAsReported(spec, result);
      FinalizeAcceptedContinuation(result.taskId, continuation);
    }

    /** The first half of the source's _apply_accepted_artifact, with _record_artifact. */
    method PatchAndRecord(spec: TaskSpec, result: TaskResult)
      requires ReadyToApply(spec, result) && result.HasArtifact() && result.taskId !in appliedTaskIds
      modifies this`appliedTaskIds, this`summary, store, factory
      modifies snapshot`replacements, snapshot`appliedArtifacts, snapshot`currentLines
      ensures Core() && state.Active?
      ensures appliedTaskIds == old(appliedTaskIds) + {result.taskId}
      ensures store.records == old(store.records) + [summary.last]
      ensures snapshot.replacements == old(snapshot.replacements) + [old(PatchFor(spec, result))]
      ensures summary.last.taskId == Some(result.taskId)
      ensures summary.last.payload == old(ArtifactPayload(result))
      ensures summary.last.payload.validation.Some? <==> result.validation.Some?
      ensures result.validation.Some? ==> summary.last.payload.validation == Some(result.validation.value.status)
      ensures summary.terminals == old(summary.terminals) && summary.objections == old(summary.objections)
    {
      PatchOnRecord(spec, result);
      appliedTaskIds := appliedTaskIds + {result.taskId};
    }

    /** The patch and its record go into the ledger. */
    method PatchOnRecord(spec: TaskSpec, result: TaskResult)
      requires Ledger() && InHand(spec, result) && result.HasArtifact()
      requires MayFollow(summary, Some(result.taskId), ArtifactPayload(result))
      requires Justified(ruleGate, env, localizer.history, questions, NextPatch(result))
      modifies this`summary, store, factory
      modifies snapshot`replacements, snapshot`appliedArtifacts, snapshot`currentLines
      ensures Ledger() && Appends(result.taskId, ArtifactPayload(result))
      ensures snapshot.replacements == old(snapshot.replacements) + [old(PatchFor(spec, result))]
    {
      LedgerSays();
      OneMorePatch(ruleGate, env, localizer.history, questions, snapshot.replacements, summary.patches,
                   PatchFor(spec, result), NextPatch(result));
      PatchTheory(spec, result);
    }

    /** The patch goes in right after the cursor, so the anchor stays a replay of the patched theory. */
    method PatchTheory(spec: TaskSpec, result: TaskResult)
      requires Placed() && LogOk() && result.HasArtifact() && localizer.Targets(snapshot, spec.task)
      requires MayFollow(summary, Some(result.taskId), ArtifactPayload(result))
      modifies this`summary, store, factory
      modifies snapshot`replacements, snapshot`appliedArtifacts, snapshot`currentLines
      ensures Placed() && LogOk()
      ensures Appends(result.taskId, ArtifactPayload(result))
      ensures snapshot.replacements == old(snapshot.replacements) + [old(PatchFor(spec, result))]
    {
      assert localizer.Consistent(snapshot);
      ghost var theory := localizer.Patched(snapshot);
      ApplyAndLink(spec, result);
      localizer.PatchKeepsAnchor(theory, snapshot, snapshot.replacements[|snapshot.replacements| - 1]);
    }

    method ApplyAndLink(spec: TaskSpec, result: TaskResult)
      requires snapshot.Valid() && LogOk() && result.HasArtifact()
      requires MayFollow(summary, Some(result.taskId), ArtifactPayload(result))
      modifies this`summary, store, factory
      modifies snapshot`replacements, snapshot`appliedArtifacts, snapshot`currentLines
      ensures snapshot.Valid() && LogOk()
      ensures Appends(result.taskId, ArtifactPayload(result))
      ensures snapshot.replacements == old(snapshot.replacements) + [old(PatchFor(spec, result))]
    {
      ghost var entries, patch := snapshot.replacements, PatchFor(spec, result);
      snapshot.ApplyArtifact(result.artifactKind.value, result.artifactText.value, result.taskId,
                             spec.task.line, spec.task.blockText);
      assert snapshot.replacements == entries + [patch.(artifactRecordId := None)];
      var record := AppendRecord(Some(result.taskId), ArtifactPayload(result));
      LinkLatest(record, entries, patch);
    }

    method LinkLatest(record: RunRecord, ghost entries: seq<PatchEntry>, ghost patch: PatchEntry)
      requires snapshot.Valid() && snapshot.replacements == entries + [patch.(artifactRecordId := None)]
      requires record.taskId == Some(patch.taskId) && patch.artifactRecordId == Some(record.seqNo)
      modifies snapshot`replacements
      ensures snapshot.Valid() && snapshot.replacements == entries + [patch]
    {
      LinksTheLatest(entries, patch.(artifactRecordId := None), record.seqNo);
      snapshot.AttachArtifactRecordId(record.taskId.value, record.seqNo);
    }

    method GateContinuation(spec: TaskSpec, result: TaskResult, continuation: ContinuationSelection)
        returns (open: bool)
      requires Core() && state.Active? && result.taskId in appliedTaskIds && IsResultFor(spec, result)
      requires summary.last.taskId == Some(result.taskId) && summary.last.payload.Artifact?
      requires result.artifactKind == Some(summary.last.payload.kind)
      requires result.requiresRerun && result.fallbackDepth > 0 && continuation.kind.RerunThenContinue?
      modifies this, snapshot`replacements, snapshot`appliedArtifacts, snapshot`currentLines
      modifies store, factory, env, result
      ensures open ==>
        && Core() && state.Active?
        && summary.last.taskId == Some(result.taskId)
        && summary.last.payload == Policy(Allow, ContinuationGate)
        && store.records == old(store.records) + [summary.last] && questions == old(questions)
      ensures !open ==> Valid() && summary.objections > old(summary.objections)
      ensures open ==> summary.objections == old(summary.objections)
      ensures PatchesOnce(spec.task, result.taskId)
      ensures Moves()
      ensures autoResolveReview ==> !state.AwaitingReview?
      ensures env.hookCalls <= old(env.hookCalls) + 1
      ensures Consulted(env, store.records, |old(store.records)|, old(env.clock),
                        old(ContextAt(spec, result, ContinuationGate, Some(continuation.kind))))
      ensures match env.policy(old(env.clock),
                               old(ContextAt(spec, result, ContinuationGate, Some(continuation.kind)))).kind
              case Allow => open
              case Deny => !open && state.Stopped? && terminalReason == Some(StoppedContinuationDenied)
              case RequiresReview =>
                !open && Opened(store.records, |old(store.records)| + 1, result.taskId, ContinuationReview)
      decreases 2, 1
    {
      ToldAboutContinuation(spec, result);
      var decision := ConsultPolicy(ContextAt(spec, result, ContinuationGate, Some(continuation.kind)));
      if decision.kind.Deny? {
        StopRun(result.taskId, ContinuationDenied);
        return false;
      }
      if decision.kind.RequiresReview? {
        var _ := Review(spec, result, decision, ContinuationReview, [Approve, RequestStop]);
        return false;
      }
      return true;
    }

    /** What the gate is told at the points where an artifact, a placeholder and a continuation are at stake. */
    lemma ToldAboutArtifact(spec: TaskSpec, result: TaskResult)
      requires summary.tasks == |questions| && IsResultFor(spec, result) && AsReported(result)
      ensures IsTrueContext(ContextAt(spec, result, TaskArtifactEvaluation, None))
    {
    }

    lemma ToldAboutPlaceholder(spec: TaskSpec, result: TaskResult)
      requires summary.tasks == |questions| && IsResultFor(spec, result)
      ensures IsTrueContext(PlaceholderContext(spec, result))
    {
    }

    lemma ToldAboutContinuation(spec: TaskSpec, result: TaskResult)
      requires summary.tasks == |questions| && IsResultFor(spec, result)
      requires result.requiresRerun && result.fallbackDepth > 0
      requires summary.last.payload.Artifact? && result.artifactKind == Some(summary.last.payload.kind)
      ensures IsTrueContext(ContextAt(spec, result, ContinuationGate, Some(RerunThenContinue)))
    {
    }

    lemma ContinuesAsReported(spec: TaskSpec, result: TaskResult)
      requires summary.tasks == |questions| && IsResultFor(spec, result)
      requires !(summary.last.payload.Artifact? && result.requiresRerun && result.fallbackDepth > 0)
      ensures MayGoOn(if result.requiresRerun then RerunThenContinue else Continue)
    {
      assert KeepsTo(result, AnswerTo(env, localizer.history, questions, |questions| - 1));
    }

    method FinalizeAcceptedContinuation(taskId: TaskId, continuation: ContinuationSelection)
      requires Core() && state.Active? && continuation.reason.AcceptedArtifact? && MayGoOn(continuation.kind)
      requires summary.last.taskId == Some(taskId) && LeadsTo(summary.last.payload, continuation)
      modifies this`state, this`terminalReason, this`acceptedArtifactCount, this`summary, store, factory
      ensures Valid() && GoesOnActive()
      ensures acceptedArtifactCount == old(acceptedArtifactCount) + 1
      ensures |store.records| == |old(store.records)| + 2 && old(store.records) <= store.records
      ensures Accepts(store.records, |old(store.records)|, continuation.kind.RerunThenContinue?)
      ensures summary.terminals == old(summary.terminals) && summary.objections == old(summary.objections)
    {
      RecordAccepted(taskId, continuation);
      acceptedArtifactCount := acceptedArtifactCount + 1;
      if TargetBoundaryReached() {
        SetTerminal(Completed, TargetBoundaryCompleted);
      }
    }

    predicate TargetBoundaryReached()
      reads this`acceptedArtifactCount
    {
      runMode.TargetBoundary? && targetMaxTasks.Some? && acceptedArtifactCount >= targetMaxTasks.value
    }

    // ------------------------------------------------------------ the run

    /** What the gate is told about the artifact of a report. */
    static function ReportContext(spec: TaskSpec, report: TaskReport): PolicyContext {
      var blockKind := if report.selectedBlockKind.Some? then report.selectedBlockKind.value else spec.task.blockKind;
      PolicyContext(report.taskId, spec.task.failureKind, blockKind, report.artifactKind, TaskArtifactEvaluation, false,
                    report.fallbackDepth, report.fallbackOrigin, None)
    }

    /** What the engine is asked at this moment, and what it answers. */
    ghost function NextReport(localized: LocalizedTask): TaskReport
      requires snapshot.anchor.Some? && snapshot.anchor.value in localizer.client.live
      reads env, snapshot, localizer.client
    {
      env.engineRun(env.clock, SpecFor(localized), localizer.client.live[snapshot.anchor.value])
    }

    /** One round of the source's run loop, from the engine on. Its breaks and continues all lead to the
        loop guard, which checks that the run is still active. */
    method ProcessTask(localized: LocalizedTask)
      requires Books() && HooksOk() && Reflects(summary, state, terminalReason) && state.Active?
      requires localizer.history != [] && localized == localizer.history[|localizer.history| - 1]
      requires summary.tasks + 1 == |localizer.history|
      requires localizer.Targets(snapshot, localized) && localized.sourceStateId == snapshot.anchor
      requires snapshot.anchor.value in localizer.client.live
      modifies this, snapshot`replacements, snapshot`appliedArtifacts, snapshot`currentLines
      modifies store, factory, env
      ensures Valid() && Moves() && summary.tasks == old(summary.tasks) + 1
      ensures autoResolveReview ==> !state.AwaitingReview?
      ensures env.hookCalls <= old(env.hookCalls) + 3
      ensures |old(store.records)| < |store.records|
      ensures var report := old(NextReport(localized));
              && store.records[|old(store.records)|] ==
                 RunRecord(old(summary.size) + 1, Some(report.taskId),
                           Task(report.outcome, StatusOf(report.validation), localized.driftReason,
                                report.fallbackDepth))
              && PatchesOnce(localized, report.taskId)
              && (report.outcome.Failed? ==> FailsTask())
      ensures questions == old(questions + [Question(env.clock, localizer.client.live[snapshot.anchor.value])])
      // a patch that works in the anchor state, however it got in, leaves the theory repaired there
      ensures Outcome()
      ensures localizer.DistinctLines() && PatchesIn(old(snapshot.replacements)) ==> localizer.Repaired(snapshot)
      // what the engine offers for the first time gets in if the gate allows it, and the run goes on if nobody objects
      ensures var report := old(NextReport(localized));
              Offers(report) && report.taskId !in old(appliedTaskIds) ==>
                var allowed := env.policy(old(env.clock) + 1, ReportContext(SpecFor(localized), report)).kind.Allow?;
                && (allowed ==> IsIn(old(snapshot.replacements), report.artifactText.value, |old(store.records)| + 3,
                                     report.requiresRerun, report.fallbackDepth))
                && (summary.objections == old(summary.objections) ==> allowed && GoesOnActive())
    {
      var spec, result := StartTask(localized);
      HandleResult(spec, result);
      TaskOutcome(old(snapshot.replacements));
    }

    /** A text has been patched in, and at `at` the log goes on as it should; the trigger keeps that folded. */
    ghost predicate IsIn(before: seq<PatchEntry>, text: string, at: int, rerun: bool, depth: int)
      reads snapshot, store
    {
      && Gained(before, snapshot.replacements, text)
      && forall k: nat {:trigger GoesOn(store.records, k, rerun, depth)} :: k == at ==>
           GoesOn(store.records, k, rerun, depth)
    }

    predicate FailsTask()
      reads this
    {
      state.Stopped? && terminalReason == Some(StoppedTaskFailed)
    }

    /** The report brings an artifact for the gate to decide about, and its task has none so far. */
    predicate IsNew(result: TaskResult)
      reads this, result
    {
      && result.HasArtifact() && result.artifactText.value != "" && result.taskId !in appliedTaskIds
      && !result.outcome.Failed? && !result.outcome.Escalated?
    }

    /** The engine has answered, and its TASK record is on record. */
    method StartTask(localized: LocalizedTask) returns (spec: TaskSpec, result: TaskResult)
      requires Books() && HooksOk() && Reflects(summary, state, terminalReason) && state.Active?
      requires localizer.history != [] && localized == localizer.history[|localizer.history| - 1]
      requires summary.tasks + 1 == |localizer.history|
      requires localizer.Targets(snapshot, localized) && localized.sourceStateId == snapshot.anchor
      requires snapshot.anchor.value in localizer.client.live
      modifies this`summary, this`questions, store, factory, env`clock
      ensures Core() && OnHand(spec, result) && AsReported(result) && fresh(result) && spec == SpecFor(localized)
      ensures questions == old(questions + [Question(env.clock, localizer.client.live[snapshot.anchor.value])])
      ensures IsResultOf(result, old(NextReport(localized))) && env.clock == old(env.clock) + 1
      ensures Appends(result.taskId, TaskPayload(result, localized.driftReason))
    {
      LedgerSays();
      assert localizer.Consistent(snapshot);
      spec := SpecFor(localized);
      result := Ask(spec, localizer.client.live[localized.sourceStateId.value]);
      RecordTask(result, localized.driftReason);
    }

    /** Asks the engine about the task that was reported last. */
    method Ask(spec: TaskSpec, sourceState: ToplevelState) returns (result: TaskResult)
      requires Ledger() && Answered()
      requires |localizer.history| == |questions| + 1 && spec == SpecFor(localizer.history[|questions|])
      requires spec.task.sourceStateId.Some? && spec.task.sourceStateId.value in localizer.client.issued
      requires localizer.client.issued[spec.task.sourceStateId.value] == sourceState
      modifies this`questions, env`clock
      ensures Ledger() && Answered()
      ensures fresh(result) && IsResultOf(result, env.engineRun(old(env.clock), spec, sourceState))
      ensures env.clock == old(env.clock) + 1 && questions == old(questions) + [Question(old(env.clock), sourceState)]
    {
      LedgerSays();
      ghost var question := Question(env.clock, sourceState);
      OneMoreAsked(localizer.history, questions, localizer.client.issued, question);
      StillHonest(env, localizer.history, localizer.history, questions, questions + [question], store.records);
      StillJustified(ruleGate, env, localizer.history, localizer.history, questions, questions + [question],
                     snapshot.replacements, summary.patches);
      questions := questions + [question];
      assert Placed() && PatchesKept() && LogOk() && QuestionsKept();
      var report := env.RunEngine(spec, sourceState);
      result := new TaskResult(report);
    }

    predicate IsResultOf(result: TaskResult, report: TaskReport)
      reads result
    {
      && result.taskId == report.taskId && result.outcome == report.outcome
      && result.artifactKind == report.artifactKind && result.artifactText == report.artifactText
      && result.validation == report.validation && result.selectedBlockKind == report.selectedBlockKind
      && result.fallbackDepth == report.fallbackDepth && result.fallbackOrigin == report.fallbackOrigin
      && result.requiresRerun == report.requiresRerun && result.attemptedCandidates == report.attemptedCandidates
    }

    /** What the run makes of the engine's answer: a stop, a review, or an artifact for the gate. */
    method HandleResult(spec: TaskSpec, result: TaskResult)
      requires Core() && state.Active? && OnHand(spec, result) && AsReported(result)
      requires summary.last.taskId == Some(result.taskId) && summary.last.payload.Task?
      requires summary.last.payload.outcome == result.outcome && summary.escalated == result.outcome.Escalated?
      modifies this, snapshot`replacements, snapshot`appliedArtifacts, snapshot`currentLines
      modifies store, factory, env, result
      ensures Valid()
      ensures Moves() && PatchesOnce(spec.task, result.taskId)
      ensures autoResolveReview ==> !state.AwaitingReview?
      ensures env.hookCalls <= old(env.hookCalls) + 3
      ensures result.outcome.Failed? ==> state.Stopped? && terminalReason == Some(StoppedTaskFailed)
      ensures result.outcome.Escalated? ==> Opened(store.records, |old(store.records)|, result.taskId, EscalationReview)
      ensures !result.outcome.Failed? && !result.outcome.Escalated? ==>
        if old(result.HasArtifact() && result.artifactText.value != "")
        then Consulted(env, store.records, |old(store.records)|, old(env.clock),
                       old(ContextAt(spec, result, TaskArtifactEvaluation, None)))
        else store.records == old(store.records) && state.Active?
      ensures old(IsNew(result)) ==>
        var context := old(ContextAt(spec, result, TaskArtifactEvaluation, None));
        var allowed := env.policy(old(env.clock), context).kind.Allow?;
        && (allowed ==> IsIn(old(snapshot.replacements), old(result.artifactText.value), |old(store.records)| + 2,
                             result.requiresRerun, result.fallbackDepth))
        && (summary.objections == old(summary.objections) ==> allowed && GoesOnActive())
    {
      if result.outcome.Failed? {
        StopRun(result.taskId, TaskFailed);
      } else if result.outcome.Escalated? {
        var decision := PolicyDecision(RequiresReview, ArtifactAcceptance, TaskEscalatedRequiresReview);
        var _ := Review(spec, result, decision, EscalationReview,
                        [ProvideReplacement, RequestPlaceholder, RequestStop]);
      } else if result.artifactKind.Some? && Guard.NonEmpty(result.artifactText) {
        OfferArtifact(spec, result);
      }
    }

    /** An artifact goes in if the gate allows it, unless the task has one already. */
    method OfferArtifact(spec: TaskSpec, result: TaskResult)
      requires Core() && state.Active? && OnOffer(spec, result) && AsReported(result)
      requires result.HasArtifact() && result.artifactText.value != ""
      requires summary.last.taskId == Some(result.taskId) && summary.last.payload.Task?
      requires var outcome := summary.last.payload.outcome; !outcome.Failed? && !outcome.Escalated?
      modifies this, snapshot`replacements, snapshot`appliedArtifacts, snapshot`currentLines
      modifies store, factory, env, result
      ensures Valid()
      ensures Moves() && PatchesOnce(spec.task, result.taskId)
      ensures autoResolveReview ==> !state.AwaitingReview?
      ensures env.hookCalls <= old(env.hookCalls) + 3
      ensures Consulted(env, store.records, |old(store.records)|, old(env.clock),
                        old(ContextAt(spec, result, TaskArtifactEvaluation, None)))
      ensures result.taskId !in old(appliedTaskIds) ==>
        var context := old(ContextAt(spec, result, TaskArtifactEvaluation, None));
        var allowed := env.policy(old(env.clock), context).kind.Allow?;
        && (allowed ==> IsIn(old(snapshot.replacements), old(result.artifactText.value), |old(store.records)| + 2,
                             result.requiresRerun, result.fallbackDepth))
        && (summary.objections == old(summary.objections) ==> allowed && GoesOnActive())
    {
      var accepted := GateOrReview(spec, result);
      if accepted {
        ApplyAcceptedArtifact(spec, result);
      }
    }

    /** Why a round may find no task: there is nothing to replay, the header state could not be had, or the
        whole patched theory replays. */
    twostate predicate NothingLeft()
      reads this, localizer, localizer.client, snapshot
    {
      || localizer.theoryCommands == []
      || localizer.client.InitFailed()
      || Clean()
    }

    ghost predicate Clean()
      reads localizer, snapshot
    {
      && 0 <= localizer.header < |localizer.theoryCommands|
      && localizer.Patched(snapshot).FirstFailure(localizer.header + 1) == |localizer.theoryCommands|
    }

    /** What the localizer's part of a round comes to. */
    twostate predicate Selected(new localized: Option<LocalizedTask>)
      reads this, snapshot, localizer, localizer.client
    {
      && snapshot.cursor >= old(snapshot.cursor) && localizer.client.Grows()
      && localizer.client.requests >= old(localizer.client.requests)
      && localizer.client.initFailures >= old(localizer.client.initFailures)
      && (if localized.Some? then
            && localizer.history == old(localizer.history) + [localized.value]
            && localizer.Targets(snapshot, localized.value) && localizer.Describes(snapshot, localized.value)
            && snapshot.anchor.value in localizer.client.live
            && (old(IdsBelow()) ==>
                  IdsBelow() && localized.value.taskId !in appliedTaskIds
                  && localized.value.taskId <= localizer.nextTaskNumber)
            && (localizer.DistinctLines() ==>
                  snapshot.cursor + 1 == localizer.Patched(snapshot).FirstFailure(localizer.header + 1))
          else
            && localizer.history == old(localizer.history)
            && (localizer.DistinctLines() || localizer.theoryCommands == [] ==> NothingLeft()))
      && (localizer.DistinctLines() ==> (localized.Some? <==> old(localizer.CanAnchor(snapshot) && !Clean())))
    }

    /** Asks the localizer. */
    method Locate() returns (localized: Option<LocalizedTask>)
      requires Placed()
      modifies snapshot`anchor, snapshot`cursor, snapshot`mode, snapshot`proofLevel, snapshot`lastDrift
      modifies localizer, localizer.client
      ensures Placed() && Selected(localized)
    {
      assert localizer.Consistent(snapshot);
      localized := localizer.NextTask(snapshot);
    }

    /** What the sealed parts of the ledger say. */
    lemma LedgerSays()
      requires Ledger()
      ensures Placed() && LogOk() && QuestionsKept()
      ensures PatchesRecorded(snapshot.replacements, summary.patches)
      ensures PatchesJustified(ruleGate, env, localizer.history, questions, snapshot.replacements, summary.patches)
      ensures WereAsked(localizer.history, questions, localizer.client.issued)
      ensures HonestLog(env, localizer.history, questions, store.records)
    {
      assert InOrder(0);
      assert PatchesRecorded(snapshot.replacements, summary.patches);
      assert WereAsked(localizer.history, questions, localizer.client.issued);
    }

    /** The books stay right when the localizer reports one task more. */
    lemma KeepBooks(history: seq<LocalizedTask>, issued: map<StateId, ToplevelState>)
      requires history <= localizer.history
      requires forall id :: id in issued ==> id in localizer.client.issued && localizer.client.issued[id] == issued[id]
      requires PatchesRecorded(snapshot.replacements, summary.patches)
      requires PatchesJustified(ruleGate, env, history, questions, snapshot.replacements, summary.patches)
      requires WereAsked(history, questions, issued) && HonestLog(env, history, questions, store.records)
      ensures PatchesKept() && HonestLog(env, localizer.history, questions, store.records)
      ensures WereAsked(localizer.history, questions, localizer.client.issued)
    {
      StillJustified(ruleGate, env, history, localizer.history, questions, questions, snapshot.replacements,
                     summary.patches);
      LongerHistoryStillAsked(history, localizer.history, questions, issued, localizer.client.issued);
      StillHonest(env, history, localizer.history, questions, questions, store.records);
    }

    /** The localizer's part of a round. */
    method SelectTask() returns (localized: Option<LocalizedTask>)
      requires Valid() && state.Active?
      modifies snapshot`anchor, snapshot`cursor, snapshot`mode, snapshot`proofLevel, snapshot`lastDrift
      modifies localizer, localizer.client
      ensures Books() && HooksOk() && Selected(localized)
      // a command that was repaired is not found again
      ensures localizer.DistinctLines() && localized.Some? && old(localizer.Repaired(snapshot)) ==>
        snapshot.cursor > old(snapshot.cursor)
      // one that was not is found again
      ensures localized.Some? && old(AtFailure()) ==> snapshot.cursor == old(snapshot.cursor)
    {
      ghost var history, issued := localizer.history, localizer.client.issued;
      LedgerSays();
      ghost var theory, next, repaired := localizer.Patched(snapshot), snapshot.cursor + 1,
                                          localizer.Repaired(snapshot);
      localized := Locate();
      if localizer.DistinctLines() && repaired {
        theory.FirstFailureFails(localizer.header + 1, next);
      }
      KeepBooks(history, issued);
    }

    /** One round of the run loop: a task and one TASK record more, or the end of the run. */
    method Round()
      requires Valid() && state.Active?
      modifies this, snapshot, store, factory, env, localizer, localizer.client
      ensures Valid() && old(store.records) <= store.records && summary.terminals == old(summary.terminals)
      ensures autoResolveReview ==> !state.AwaitingReview?
      ensures snapshot.cursor >= old(snapshot.cursor) && localizer.client.requests >= old(localizer.client.requests)
      ensures old(localizer.history) <= localizer.history && old(questions) <= questions && localizer.client.Grows()
      ensures summary.objections >= old(summary.objections)
      ensures localizer.client.initFailures >= old(localizer.client.initFailures)
      // with a task
      ensures summary.tasks != old(summary.tasks) ==>
        && summary.tasks == old(summary.tasks) + 1 && !state.Finished?
        && |old(store.records)| < |store.records| && store.records[|old(store.records)|].payload.Task?
        && localizer.history != [] && localizer.Targets(snapshot, localizer.history[|localizer.history| - 1])
      // without
      ensures summary.tasks == old(summary.tasks) ==>
        && store.records == old(store.records) && summary == old(summary)
        && acceptedArtifactCount == old(acceptedArtifactCount)
        && snapshot.replacements == old(snapshot.replacements)
        && (if runMode.TargetBoundary? then state.Completed? else state.Finished?)
        && (localizer.DistinctLines() || localizer.theoryCommands == [] ==> NothingLeft())
      // which of the two
      ensures localizer.DistinctLines() ==>
        (summary.tasks != old(summary.tasks) <==> old(localizer.CanAnchor(snapshot) && !Clean()))
      ensures state.Completed? <==>
        runMode.TargetBoundary? && (summary.tasks == old(summary.tasks)
                                    || (acceptedArtifactCount > 0 && TargetBoundaryReached()))
      // after a repair the next task is further down, and without one it is about the same command again
      ensures localizer.DistinctLines() && summary.tasks != old(summary.tasks) && old(localizer.Repaired(snapshot)) ==>
        snapshot.cursor > old(snapshot.cursor)
      ensures summary.tasks != old(summary.tasks) && old(AtFailure()) ==> snapshot.cursor == old(snapshot.cursor)
      ensures summary.tasks != old(summary.tasks) ==> Outcome() && |questions| == |old(questions)| + 1
      // a patch that works, however it got in, is a repair
      ensures PatchesOneTask(old(summary.patches), summary.patches, |questions|)
      ensures old(snapshot.replacements) <= snapshot.replacements
      ensures |snapshot.replacements| <= |old(snapshot.replacements)| + 1
      ensures localizer.DistinctLines() && PatchesIn(old(snapshot.replacements)) ==> localizer.Repaired(snapshot)
      // what the engine comes up with gets in if nobody objects, and a task that it gives up ends the run
      ensures old(IdsBelow()) && summary.tasks != old(summary.tasks) && summary.objections == old(summary.objections)
              && RepairsOrFails(env, localizer.client.exec, localizer.history, questions, |old(questions)|) ==>
                || GaveUp()
                || (&& |summary.patches| > |old(summary.patches)|
                    && Works(localizer.client.exec, questions, summary.patches[|old(summary.patches)|])
                    && IdsBelow() && GoesOnActive())
    {
      var localized := SelectTask();
      if localized.None? {
        FinalizeWithoutNextTask();
      } else {
        TakeTask(localized.value);
      }
    }

    /** The run's part of a round with a task. */
    method TakeTask(localized: LocalizedTask)
      requires Books() && HooksOk() && Reflects(summary, state, terminalReason) && state.Active?
      requires localizer.history != [] && localized == localizer.history[|localizer.history| - 1]
      requires summary.tasks + 1 == |localizer.history|
      requires localizer.Targets(snapshot, localized) && localized.sourceStateId == snapshot.anchor
      requires snapshot.anchor.value in localizer.client.live
      modifies this, snapshot`replacements, snapshot`appliedArtifacts, snapshot`currentLines
      modifies store, factory, env
      ensures Valid() && Moves() && summary.tasks == old(summary.tasks) + 1
      ensures autoResolveReview ==> !state.AwaitingReview?
      ensures |old(store.records)| < |store.records| && store.records[|old(store.records)|].payload.Task?
      ensures !state.Finished?
      ensures state.Completed? <==>
        runMode.TargetBoundary? && acceptedArtifactCount > 0 && TargetBoundaryReached()
      ensures |questions| == |old(questions)| + 1 == |localizer.history|
      ensures Outcome()
      ensures PatchesOneTask(old(summary.patches), summary.patches, |questions|)
      ensures old(snapshot.replacements) <= snapshot.replacements
      ensures |snapshot.replacements| <= |old(snapshot.replacements)| + 1
      ensures localizer.DistinctLines() && PatchesIn(old(snapshot.replacements)) ==> localizer.Repaired(snapshot)
      ensures localized.taskId !in old(appliedTaskIds) && summary.objections == old(summary.objections)
              && RepairsOrFails(env, localizer.client.exec, localizer.history, questions, |old(questions)|) ==>
                || GaveUp()
                || (&& |summary.patches| > |old(summary.patches)|
                    && Works(localizer.client.exec, questions, summary.patches[|old(summary.patches)|])
                    && appliedTaskIds <= old(appliedTaskIds) + {localized.taskId} && GoesOnActive())
    {
      ghost var report := NextReport(localized);
      ghost var log, patches := store.records, summary.patches;
      PatchesAlike();
      SummaryIs();
      ProcessTask(localized);
      TaskPatches(log, patches);
      assert AnswerTo(env, localizer.history, questions, |old(questions)|) == report;
      assert RepairsOrFails(env, localizer.client.exec, localizer.history, questions, |old(questions)|) ==>
          RepairsOrFailsAt(env, localizer.client.exec, localizer.history, questions, |old(questions)|);
    }

    lemma PatchesAlike()
      requires Ledger()
      ensures |summary.patches| == |snapshot.replacements|
    {
      LedgerSays();
    }

    lemma SummaryIs()
      requires Ledger()
      ensures summary == Summarize(store.records)
    {
      LedgerSays();
      AccountsMeans(summary, store.records);
    }

    /** The patches since `log`, which was the log before the last task. */
    lemma TaskPatches(log: seq<RunRecord>, patches: seq<Patch>)
      requires Ledger() && log < store.records && store.records[|log|].payload.Task?
      requires patches == Summarize(log).patches && summary.tasks == Summarize(log).tasks + 1
      requires |snapshot.replacements| <= |patches| + 1
      ensures PatchesOneTask(patches, summary.patches, summary.tasks)
      ensures |summary.patches| == |snapshot.replacements|
      ensures |summary.patches| > |patches| ==>
        && summary.patches[|patches|].record.payload.Artifact?
        && summary.patches[|patches|].record.payload.text == snapshot.replacements[|patches|].text
    {
      LedgerSays();
      SummaryIs();
      PatchesSince(log, store.records);
    }

    /** How a task ended. A patch for it is what is executed in place of its command. */
    lemma TaskOutcome(before: seq<PatchEntry>)
      requires Ledger() && snapshot.anchor.Some? && -1 <= snapshot.cursor
      requires snapshot.cursor + 1 < |localizer.theoryCommands|
      requires questions != [] && |questions| == |localizer.history|
      requires localizer.history[|questions| - 1].sourceStateId == snapshot.anchor
      requires |snapshot.replacements| > |before| ==>
        snapshot.replacements[|snapshot.replacements| - 1].line ==
        localizer.theoryCommands[snapshot.cursor + 1].line
      ensures Outcome()
      ensures localizer.DistinctLines() && PatchesIn(before) ==> localizer.Repaired(snapshot)
    {
      RepairedOrFailing();
    }

    lemma RepairedOrFailing()
      requires Ledger() && snapshot.anchor.Some? && snapshot.cursor + 1 < |localizer.theoryCommands|
      requires questions != [] && |questions| == |localizer.history|
      requires localizer.history[|questions| - 1].sourceStateId == snapshot.anchor
      ensures Outcome()
    {
      LedgerSays();
      if localizer.DistinctLines() {
        assert localizer.Consistent(snapshot);
        localizer.RepairedIsExecutable(snapshot);
      }
    }

    /** A patch that works by the account of the log works in the theory. */
    lemma WorkingIsIn(before: seq<PatchEntry>, patches: seq<Patch>)
      requires Ledger() && |before| == |patches| && PatchesOneTask(patches, summary.patches, |questions|)
      requires |summary.patches| > |patches| && Works(localizer.client.exec, questions, summary.patches[|patches|])
      ensures PatchesIn(before)
    {
      LedgerSays();
    }

    /** The theory has got one patch more, for the last task, with a text that works. */
    ghost predicate PatchesIn(before: seq<PatchEntry>)
      reads this`questions, snapshot
    {
      && questions != [] && |snapshot.replacements| == |before| + 1
      && var text := snapshot.replacements[|before|].text;
         text != "" && localizer.client.exec(questions[|questions| - 1].state, text).Executed?
    }

    /** How the last task ended: its command is repaired exactly if its text, as patched now, works in the state
        in which the engine was asked; otherwise it is still the first failure. */
    ghost predicate Outcome()
      reads this`questions, snapshot, localizer
    {
      localizer.DistinctLines() ==>
        && questions != [] && -1 <= snapshot.cursor && snapshot.cursor + 1 < |localizer.theoryCommands|
        && (localizer.Repaired(snapshot) <==>
              localizer.client.exec(questions[|questions| - 1].state,
                                    EffectiveText(snapshot.replacements,
                                                  localizer.theoryCommands[snapshot.cursor + 1])).Executed?)
        && (!localizer.Repaired(snapshot) ==> AtFailure())
    }

    /** The command after the cursor is the first failure. */
    ghost predicate AtFailure()
      reads snapshot, localizer
    {
      && localizer.DistinctLines() && snapshot.anchor.Some?
      && snapshot.cursor + 1 == localizer.Patched(snapshot).FirstFailure(localizer.header + 1)
    }

    /** The run was stopped for the task that the engine was asked about last, and gave up. */
    ghost predicate GaveUp()
      reads this, localizer
    {
      && FailsTask() && 0 < |questions| <= |localizer.history|
      && AnswerTo(env, localizer.history, questions, |questions| - 1).outcome.Failed?
    }

    /** Nothing stood in the way since: no header state was asked for in vain, the gate objected to nothing,
        and each text that the engine came up with works where its task started. */
    twostate predicate Unhindered()
      reads this, localizer, localizer.client
    {
      && localizer.client.initFailures == old(localizer.client.initFailures)
      && summary.objections == old(summary.objections)
      && |questions| <= |localizer.history|
      && RepairsOrFails(env, localizer.client.exec, localizer.history, questions, |old(questions)|)
    }

    /** No task that is yet to come has an artifact. */
    ghost predicate IdsBelow()
      reads this, localizer
    {
      forall id :: id in appliedTaskIds ==> id <= localizer.nextTaskNumber
    }

    /** Runs until a terminal state, a pending review or the step limit. */
    method RunUntilTerminal(maxSteps: int) returns (final: RunState)
      requires Valid()
      modifies this, snapshot, store, factory, env, localizer, localizer.client
      ensures Valid() && final == state
      ensures old(store.records) <= store.records && old(localizer.history) <= localizer.history
      // exactly one TERMINAL record, at the end, iff the run has ended
      ensures if IsTerminal(final)
              then summary.terminals == old(summary.terminals) + 1 && summary.last.payload.Terminal?
              else summary.terminals == old(summary.terminals)
      // a run that has ended stays as it is, and so does one that waits for a review
      ensures !old(state.Active?) ==> state == old(state) && terminalReason == old(terminalReason)
      ensures old(state.AwaitingReview?) ==> store.records == old(store.records)
      ensures old(state.Active?) && autoResolveReview ==> !state.AwaitingReview?
      // a run that is still active has handled a task in every step
      ensures final.Active? ==> summary.tasks == old(summary.tasks) + if maxSteps > 0 then maxSteps else 0
      // what a run ends for, if no task failed and nobody stopped it
      ensures if runMode.TargetBoundary? then !final.Finished? else !final.Completed?
      ensures old(state.Active?) && (localizer.DistinctLines() || localizer.theoryCommands == []) ==> EndsForAReason()
      // a target is never overshot, and reaching it completes the run
      ensures runMode.TargetBoundary? && targetMaxTasks.Some? ==>
        acceptedArtifactCount > 0 && acceptedArtifactCount >= targetMaxTasks.value ==> final.Completed?
      ensures runMode.TargetBoundary? && targetMaxTasks.Some? && targetMaxTasks.value >= 1 ==>
        acceptedArtifactCount <= targetMaxTasks.value
      // progress: each patch that works brings the run a command further, however it got in
      ensures old(summary.patches) <= summary.patches && old(questions) <= questions
      ensures old(state.Active?) && localizer.DistinctLines() ==>
        old(Position()) + Working() < |localizer.theoryCommands|
      // so a run whose tasks all get one ends in time, and a theory-wide one with a theory that replays, unless it
      // is stopped, waits for a review, or asked for a header state in vain
      ensures old(state.Active?) && localizer.DistinctLines()
              && Working() == summary.tasks - old(summary.tasks)
              && maxSteps >= |localizer.theoryCommands| - localizer.header ==>
                !final.Active?
      ensures old(state.Active?) && runMode.TheoryWide? && localizer.DistinctLines()
              && localizer.client.initFailures == old(localizer.client.initFailures)
              && Working() == summary.tasks - old(summary.tasks)
              && maxSteps >= |localizer.theoryCommands| - localizer.header ==>
                (final.Finished? && Clean()) || final.Stopped? || final.AwaitingReview?
      // if the gate does not object either, only a command that the engine gives up can keep it from that
      ensures old(state.Active? && IdsBelow()) && runMode.TheoryWide? && localizer.DistinctLines() && Unhindered()
              && maxSteps >= |localizer.theoryCommands| - localizer.header ==>
                (final.Finished? && Clean()) || GaveUp()
    {
      RunRounds(maxSteps);
      if IsTerminal(state) {
        RecordTerminal();
      }
      final := state;
    }

    /** The loop of the source's run_until_terminal. */
    method RunRounds(maxSteps: int)
      requires Valid()
      modifies this, snapshot, store, factory, env, localizer, localizer.client
      ensures Valid() && old(store.records) <= store.records && old(localizer.history) <= localizer.history
      ensures summary.terminals == old(summary.terminals)
      ensures !old(state.Active?) ==>
        state == old(state) && terminalReason == old(terminalReason) && store.records == old(store.records)
      ensures old(state.Active?) && autoResolveReview ==> !state.AwaitingReview?
      ensures state.Active? ==> summary.tasks == old(summary.tasks) + if maxSteps > 0 then maxSteps else 0
      ensures old(state.Active?) && (localizer.DistinctLines() || localizer.theoryCommands == []) ==> EndsForAReason()
      ensures old(summary.patches) <= summary.patches && old(questions) <= questions
      ensures old(state.Active?) && localizer.DistinctLines() ==>
        old(Position()) + Working() < |localizer.theoryCommands|
      ensures old(state.Active? && IdsBelow()) && Unhindered() ==> Succeeds()
    {
      var steps := 0;
      ghost var from, base := |summary.patches|, Position();
      StartsInTheory();
      while state.Active? && steps < maxSteps
        invariant Valid() && 0 <= steps
        invariant old(store.records) <= store.records && old(localizer.history) <= localizer.history
        invariant summary.terminals == old(summary.terminals)
        invariant !old(state.Active?) ==>
          state == old(state) && terminalReason == old(terminalReason) && store.records == old(store.records)
        invariant old(state.Active?) && autoResolveReview ==> !state.AwaitingReview?
        invariant state.Active? ==> summary.tasks == old(summary.tasks) + steps && (steps == 0 || steps <= maxSteps)
        invariant localizer.client.initFailures >= old(localizer.client.initFailures)
        invariant summary.objections >= old(summary.objections) && old(questions) <= questions
        invariant old(state.Active?) && (localizer.DistinctLines() || localizer.theoryCommands == []) ==>
          EndsForAReason()
        invariant old(summary.patches) <= summary.patches
        invariant Advanced(from, base)
        invariant old(state.Active? && IdsBelow()) && Unhindered() ==> Succeeds()
        decreases maxSteps - steps
      {
        steps := steps + 1;
        ghost var history, asked := localizer.history, questions;
        CountedRound(from, base);
        if Unhindered() {
          RepairedOrFailedBefore(env, localizer.client.exec, history, localizer.history, asked, questions,
                                 |old(questions)|);
        }
      }
    }

    /** A run that ends without a failed task or a stop has reached its target, or there is nothing left. */
    twostate predicate EndsForAReason()
      reads this, localizer, localizer.client, snapshot
    {
      && (state.Finished? ==> NothingLeft())
      && (state.Completed? ==>
            || (targetMaxTasks.Some? && acceptedArtifactCount > 0 && acceptedArtifactCount >= targetMaxTasks.value)
            || NothingLeft())
    }

    /** A round, and what it adds to the patches that work. */
    method CountedRound(ghost from: nat, ghost base: int)
      requires Valid() && state.Active? && from <= |summary.patches| && Advanced(from, base)
      modifies this, snapshot, store, factory, env, localizer, localizer.client
      ensures Valid() && old(store.records) <= store.records && summary.terminals == old(summary.terminals)
      ensures autoResolveReview ==> !state.AwaitingReview?
      ensures old(localizer.history) <= localizer.history && old(questions) <= questions
      ensures old(summary.patches) <= summary.patches && summary.objections >= old(summary.objections)
      ensures localizer.client.initFailures >= old(localizer.client.initFailures)
      ensures state.Active? ==> summary.tasks == old(summary.tasks) + 1
      ensures localizer.DistinctLines() || localizer.theoryCommands == [] ==> EndsForAReason()
      ensures Advanced(from, base)
      ensures old(IdsBelow()) && summary.objections == old(summary.objections)
              && RepairsOrFails(env, localizer.client.exec, localizer.history, questions, |old(questions)|) ==>
                && (state.Active? ==>
                      && IdsBelow()
                      && CountWorking(localizer.client.exec, questions, summary.patches, from) ==
                         old(CountWorking(localizer.client.exec, questions, summary.patches, from)) + 1)
                && (runMode.TheoryWide? ==> state.Active? || state.Finished? || GaveUp())
    {
      ghost var asked, patches, entries := questions, summary.patches, snapshot.replacements;
      PatchesAreAsked();
      PatchesAlike();
      Round();
      if |summary.patches| > |patches| && Works(localizer.client.exec, questions, summary.patches[|patches|]) {
        WorkingIsIn(entries, patches);
      }
      CountOneMore(localizer.client.exec, asked, questions, patches, summary.patches, from);
    }

    /** The last command that is known to be executable. */
    ghost function Position(): int
      reads snapshot
    {
      if snapshot.cursor > localizer.header then snapshot.cursor else localizer.header
    }

    /** How many patches since then work. */
    twostate function Working(): nat
      reads this`summary, this`questions
    {
      CountWorking(localizer.client.exec, questions, summary.patches, |old(summary.patches)|)
    }

    /** Each patch that works has brought the run a command further. */
    ghost predicate Advanced(from: nat, base: int)
      reads this`summary, this`questions, this`state, snapshot
    {
      var working := CountWorking(localizer.client.exec, questions, summary.patches, from);
      localizer.DistinctLines() ==>
        && base + working < |localizer.theoryCommands|
        && (state.Active? ==> base + working <= Position() + if localizer.Repaired(snapshot) then 1 else 0)
    }

    /** While it is active, every task has got a patch that works; a theory-wide run that is not has finished,
        or the engine gave a task up. */
    twostate predicate Succeeds()
      reads this, localizer
    {
      && (state.Active? ==> IdsBelow() && Working() == |questions| - |old(questions)|)
      && (runMode.TheoryWide? ==> state.Active? || state.Finished? || GaveUp())
    }

    lemma PatchesAreAsked()
      requires Valid()
      ensures AreAsked(summary.patches, questions)
    {
      LedgerSays();
    }

    lemma StartsInTheory()
      requires Valid()
      ensures localizer.DistinctLines() ==> Position() < |localizer.theoryCommands|
    {
      LedgerSays();
      assert localizer.Consistent(snapshot);
    }

    method FinalizeWithoutNextTask()
      requires Core() && Reflects(summary, state, terminalReason) && state.Active?
      modifies this`state, this`terminalReason
      ensures Valid()
      ensures if runMode.TargetBoundary? then state.Completed? else state.Finished?
    {
      if runMode.TargetBoundary? {
        SetTerminal(Completed, TargetBoundaryCompleted);
        return;
      }
      SetTerminal(Finished, TheoryWideFinished);
    }

    method RecordTerminal()
      requires Valid() && IsTerminal(state)
      modifies this`summary, store, factory
      ensures Valid()
      ensures store.records ==
              old(store.records) + [RunRecord(old(summary.size) + 1, None,
                                              Terminal(state, terminalReason.value, acceptedArtifactCount))]
      ensures summary.terminals == old(summary.terminals) + 1 && summary.last.payload.Terminal?
      ensures summary.objections == old(summary.objections) && summary.patches == old(summary.patches)
    {
      RecordEntry(None, Terminal(state, terminalReason.value, acceptedArtifactCount));
    }
  }
}
