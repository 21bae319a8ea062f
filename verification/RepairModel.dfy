/** The value types shared by every component of the repair run. */
module RepairModel {

  datatype Option<+T> = None | Some(value: T)

  datatype RunState = Active | AwaitingReview | Stopped | Completed | Finished

  predicate IsTerminal(state: RunState) {
    state.Stopped? || state.Completed? || state.Finished?
  }

  datatype RunMode = TheoryWide | TargetBoundary

  datatype TerminalReason =
    | StoppedTaskFailed
    | StoppedByReviewStop
    | StoppedContinuationDenied
    | TargetBoundaryCompleted
    | TheoryWideFinished

  datatype FailureKind =
    | ProofBodyFailure
    | StatementFailure
    | NonProofCommandFailure
    | TheoryLoadOrHeaderFailure

  datatype ArtifactKind = Repair | CommittedPlaceholder

  datatype TaskOutcome = Accepted | Failed | Placeholder | Escalated | Aborted

  datatype ValidationStatus = Passed | FailedExecution | FailedContract | FailedTimeout | Inconclusive

  datatype ValidationReason =
    | NoReason
    | MissingSourceState
    | NoCandidateGenerated
    | ValidationBudgetExhausted
    | AllCandidatesRejected
    | AllBlockKindsFailed
    | AutoCandidatesExhausted
    | UnsupportedBlockKind
    | ContractNotMet
    | ExecutionMessage(text: string)

  datatype ValidationResult = ValidationResult(status: ValidationStatus, reason: ValidationReason)

  datatype BlockContract = GoalClosed | SubproofClosed | TheoremClosed | ContextUpdated

  datatype BlockKind =
    | TerminalProofStepBlock
    | WholeProofBodyBlock
    | TheoremShellBlock
    | TopLevelCommandBlock
    | OtherBlock(name: string)

  datatype BlockOrigin = Primary | Fallback

  datatype RepairBlockCandidate =
    RepairBlockCandidate(blockKind: BlockKind, blockContract: BlockContract, origin: BlockOrigin)

  /** Identifiers handed out by the server; the source uses random UUIDs. */
  type StateId = nat

  /** The number N of the source's task id "task-N". */
  type TaskId = nat

  datatype StateMode = Toplevel | Theory | LocalTheory | Proof | SkippedProof

  /** A failing command, as the localizer hands it to the run. The string-keyed metadata
      of the source appears here as named fields. */
  datatype LocalizedTask = LocalizedTask(
    taskId: TaskId,
    blockKind: BlockKind,
    failureKind: FailureKind,
    blockText: string,
    entryMode: Option<StateMode>,
    entryProofLevel: int,
    sourceStateId: Option<StateId>,
    line: int,
    driftReason: Option<DriftReason>,
    fallbackChain: seq<BlockKind>,
    fallbackCandidates: seq<RepairBlockCandidate>)

  datatype DriftReason = MissingAnchorState | AnchorStateUnavailable | ModeMismatch | ProofLevelMismatch

  datatype TaskSpec = TaskSpec(task: LocalizedTask, blockContract: BlockContract, maxValidations: int)

  /** What an engine reports for one task. */
  datatype TaskReport = TaskReport(
    taskId: TaskId,
    outcome: TaskOutcome,
    artifactKind: Option<ArtifactKind>,
    artifactText: Option<string>,
    requiresRerun: bool,
    validation: Option<ValidationResult>,
    attemptedCandidates: seq<string>,
    selectedBlockKind: Option<BlockKind>,
    fallbackDepth: int,
    fallbackOrigin: Option<BlockOrigin>)

  /** The record the run keeps for the task in hand. It is one object shared by the caller,
      the pending review and every nested review, and reviews change it in place. */
  class TaskResult {
    const taskId: TaskId
    const outcome: TaskOutcome
    var artifactKind: Option<ArtifactKind>
    var artifactText: Option<string>
    const requiresRerun: bool
    var validation: Option<ValidationResult>
    var attemptedCandidates: seq<string>
    const selectedBlockKind: Option<BlockKind>
    const fallbackDepth: int
    const fallbackOrigin: Option<BlockOrigin>

    constructor (report: TaskReport)
      ensures taskId == report.taskId && outcome == report.outcome
      ensures artifactKind == report.artifactKind && artifactText == report.artifactText
      ensures requiresRerun == report.requiresRerun && validation == report.validation
      ensures attemptedCandidates == report.attemptedCandidates
      ensures selectedBlockKind == report.selectedBlockKind
      ensures fallbackDepth == report.fallbackDepth && fallbackOrigin == report.fallbackOrigin
    {
      taskId, outcome := report.taskId, report.outcome;
      artifactKind, artifactText := report.artifactKind, report.artifactText;
      requiresRerun, validation := report.requiresRerun, report.validation;
      attemptedCandidates := report.attemptedCandidates;
      selectedBlockKind := report.selectedBlockKind;
      fallbackDepth, fallbackOrigin := report.fallbackDepth, report.fallbackOrigin;
    }

    /** A review supplied a text, and this is what validating it came to. */
    method Attempted(text: string, v: ValidationResult)
      modifies this`validation, this`attemptedCandidates
      ensures validation == Some(v) && attemptedCandidates == old(attemptedCandidates) + [text]
    {
      validation := Some(v);
      attemptedCandidates := attemptedCandidates + [text];
    }

    /** An artifact the apply step would patch into the theory. */
    predicate HasArtifact()
      reads this
    {
      artifactKind.Some? && artifactText.Some?
    }
  }

  datatype ContinuationKind = Continue | RerunThenContinue | Stop

  datatype ContinuationReason = AcceptedArtifact | TaskFailed | HookRequestedStop | ContinuationDenied

  datatype ContinuationSelection = ContinuationSelection(kind: ContinuationKind, reason: ContinuationReason)

  datatype PolicyDecisionKind = Allow | Deny | RequiresReview

  datatype PolicyDecisionScope = ActionPermission | ArtifactAcceptance | ContinuationGating

  datatype PolicyRule =
    | HighRiskFailureRequiresReview
    | PlaceholderAllow
    | PlaceholderDeny
    | PlaceholderRequiresReview
    | FallbackAcceptanceRequiresReview
    | FallbackContinuationRequiresReview
    | DefaultAllow
    | TaskEscalatedRequiresReview
    | OtherRule(id: string)

  datatype PolicyDecision = PolicyDecision(kind: PolicyDecisionKind, scope: PolicyDecisionScope, rule: PolicyRule)

  /** The reason codes under which the run consults the policy gate. */
  datatype GatePoint = TaskArtifactEvaluation | ReviewPlaceholderRequest | ContinuationGate

  datatype PolicyContext = PolicyContext(
    taskId: TaskId,
    failureKind: FailureKind,
    blockKind: BlockKind,
    artifactKind: Option<ArtifactKind>,
    point: GatePoint,
    isPlaceholderRequest: bool,
    fallbackDepth: int,
    fallbackOrigin: Option<BlockOrigin>,
    continuationKind: Option<ContinuationKind>)

  datatype ResponseKind = Approve | Reject | ProvideReplacement | RequestPlaceholder | RequestStop

  datatype InterventionResponse = InterventionResponse(kind: ResponseKind, replacementText: Option<string>)

  /** The reason codes under which the run asks for a review. */
  datatype ReviewReason = PolicyReview | EscalationReview | PlaceholderReview | ContinuationReview

  datatype InterventionContext = InterventionContext(
    reason: ReviewReason,
    taskId: TaskId,
    currentText: Option<string>,
    currentKind: Option<ArtifactKind>,
    decision: PolicyDecision,
    validation: Option<ValidationResult>,
    allowed: seq<ResponseKind>)

  datatype PendingReview = PendingReview(spec: TaskSpec, result: TaskResult, context: InterventionContext)
}
