/** records/store.py, and the order in which a run may append its records. */
module RunRecords {
  import opened RepairModel
  import Guard = ReviewGuard

  /** The payloads of the run records, one constructor a record kind. The source's single
      intervention kind appears as Entered (no response yet) and Resolved. */
  datatype Payload =
    | RunMetadata
    | Task(outcome: TaskOutcome, validation: Option<ValidationStatus>, driftReason: Option<DriftReason>,
           fallbackDepth: int)
    | Artifact(kind: ArtifactKind, text: string, validation: Option<ValidationStatus>, fallbackDepth: int)
    | Policy(decision: PolicyDecisionKind, point: GatePoint)
    | Entered(reason: ReviewReason, allowed: seq<ResponseKind>)
    | Resolved(reason: ReviewReason, allowed: seq<ResponseKind>, response: ResponseKind, invalid: bool)
    | Continuation(selection: ContinuationSelection)
    | Provenance
    | Terminal(state: RunState, terminalReason: TerminalReason, acceptedCount: nat)

  /** The record id of the source is a random UUID; here it is the sequence number. */
  datatype RunRecord = RunRecord(seqNo: nat, taskId: Option<TaskId>, payload: Payload)

  class RunRecordFactory {
    var seqNo: nat

    constructor ()
      ensures seqNo == 0
    {
      seqNo := 0;
    }

    method Create(taskId: Option<TaskId>, payload: Payload) returns (record: RunRecord)
      modifies this
      ensures seqNo == old(seqNo) + 1
      ensures record == RunRecord(seqNo, taskId, payload)
    {
      seqNo := seqNo + 1;
      record := RunRecord(seqNo, taskId, payload);
    }
  }

  class InMemoryRecordStore {
    var records: seq<RunRecord>

    constructor ()
      ensures records == []
    {
      records := [];
    }

    method Append(record: RunRecord)
      modifies this
      ensures records == old(records) + [record]
    {
      records := records + [record];
    }
  }

  // ---------------------------------------------------------------- what a log amounts to

  /** An ARTIFACT record, the payload of the record right before it, and how many TASK records came before:
      the last of them is about the same task. */
  datatype Patch = Patch(basis: Payload, record: RunRecord, tasks: nat)

  /** A running account of a log: its last record, the artifacts in it, the fallback depth of its last
      task and whether that was escalated, and how often each kind of record occurs. An objection is an
      answer of the gate other than to allow. */
  datatype Summary = Summary(
    size: nat,
    last: RunRecord,
    artifactIds: set<TaskId>,
    patches: seq<Patch>,
    tasks: nat,
    taskDepth: int,
    escalated: bool,
    objections: nat,
    resolutions: nat,
    accepts: nat,
    provenances: nat,
    stops: nat,
    terminals: nat)
  {
    function Add(b: RunRecord): Summary {
      var s := this.(size := size + 1, last := b);
      match b.payload
      case RunMetadata => s
      case Task(outcome, _, _, depth) => s.(tasks := tasks + 1, taskDepth := depth, escalated := outcome.Escalated?)
      case Artifact(_, _, _, _) =>
        s.(patches := patches + [Patch(last.payload, b, tasks)],
           artifactIds := if b.taskId.Some? then artifactIds + {b.taskId.value} else artifactIds)
      case Policy(_, _) => s.(objections := objections + if IsObjection(b.payload) then 1 else 0)
      case Entered(_, _) => s
      case Resolved(_, _, _, _) => s.(resolutions := resolutions + 1)
      case Continuation(_) => if IsStop(b.payload) then s.(stops := stops + 1) else s.(accepts := accepts + 1)
      case Provenance => s.(provenances := provenances + 1)
      case Terminal(_, _, _) => s.(terminals := terminals + 1)
    }
  }

  /** The account of the empty log; its last record is a stand-in that any first record may follow. */
  const EMPTY := Summary(0, RunRecord(0, None, RunMetadata), {}, [], 0, 0, false, 0, 0, 0, 0, 0, 0)

  ghost function Summarize(log: seq<RunRecord>): Summary {
    if log == [] then EMPTY else Summarize(log[..|log| - 1]).Add(log[|log| - 1])
  }

  // ---------------------------------------------------------------- the order of records

  /** A record that entitles the run to patch the artifact as it stands. */
  predicate Grants(p: Payload) {
    || (p.Policy? && p.decision.Allow? && !p.point.ContinuationGate?)
    || (p.Resolved? && !p.invalid && p.response.Approve? && !p.reason.ContinuationReview?)
  }

  /** `a` entitles the run to append the artifact payload `b` next: the gate allowed it, a guarded
      review approved it, the gate allowed a placeholder asked for in a review, or a review supplied
      a replacement that passed its own validation. */
  predicate Authorizes(a: Payload, b: Payload)
    requires b.Artifact?
  {
    || (a == Policy(Allow, TaskArtifactEvaluation))
    || (a == Policy(Allow, ReviewPlaceholderRequest) && b.kind.CommittedPlaceholder?)
    || (a.Resolved? && !a.invalid && a.response.Approve? && a.reason.PolicyReview?)
    || (a.Resolved? && !a.invalid && a.response.Approve? && a.reason.PlaceholderReview? && b.kind.CommittedPlaceholder?)
    || (a.Resolved? && !a.invalid && a.response.ProvideReplacement?
        && (a.reason.PolicyReview? || a.reason.EscalationReview?)
        && b.kind.Repair? && b.validation == Some(Passed) && b.text != "")
  }

  predicate IsObjection(p: Payload) {
    p.Policy? && !p.decision.Allow?
  }

  predicate IsStop(p: Payload) {
    p.Continuation? && p.selection.kind.Stop?
  }

  predicate IsAccept(p: Payload) {
    p.Continuation? && !p.selection.kind.Stop?
  }

  /** Nothing is in flight after a record with this payload. */
  predicate Settles(p: Payload) {
    match p
    case RunMetadata => true
    case Task(outcome, _, _, _) => !outcome.Failed? && !outcome.Escalated?
    case Policy(decision, point) => !decision.RequiresReview? && !point.ContinuationGate?
    case Resolved(reason, _, response, invalid) =>
      invalid || (!response.RequestStop? && !reason.ContinuationReview?)
    case Provenance => true
    case Artifact(_, _, _, _) => false
    case Entered(_, _) => false
    case Continuation(_) => false
    case Terminal(_, _, _) => false
  }

  /** The run may look for another task: nothing is in flight, and an artifact that was granted
      and not patched belongs to a task that has been patched before. */
  predicate Settled(s: Summary) {
    && Settles(s.last.payload)
    && (Grants(s.last.payload) ==> s.last.taskId.Some? && s.last.taskId.value in s.artifactIds)
  }

  function StopReason(reason: ContinuationReason): Option<TerminalReason> {
    match reason
    case TaskFailed => Some(StoppedTaskFailed)
    case HookRequestedStop => Some(StoppedByReviewStop)
    case ContinuationDenied => Some(StoppedContinuationDenied)
    case AcceptedArtifact => None
  }

  /** The log matches the run state and its terminal reason. */
  predicate Reflects(s: Summary, state: RunState, reason: Option<TerminalReason>) {
    var p := s.last.payload;
    || (p.Terminal? && IsTerminal(state) && p.state == state && reason == Some(p.terminalReason))
    || (!p.Terminal? &&
        match state
        case Active => Settled(s) && reason == None
        case AwaitingReview => p.Entered? && reason == None
        case Stopped => IsStop(p) && reason.Some? && reason == StopReason(p.selection.reason)
        case Completed => Settled(s) && reason == Some(TargetBoundaryCompleted)
        case Finished => Settled(s) && reason == Some(TheoryWideFinished))
  }

  /** After `a` the run asks the policy gate. */
  predicate MayConsult(a: Payload, point: GatePoint) {
    match point
    case TaskArtifactEvaluation => a.Task? && !a.outcome.Failed? && !a.outcome.Escalated?
    case ReviewPlaceholderRequest =>
      && a.Resolved? && !a.invalid && a.response.RequestPlaceholder?
      && (a.reason.PolicyReview? || a.reason.EscalationReview?)
    case ContinuationGate => a.Artifact?
  }

  /** After `a` the run waits for a review of this kind. */
  predicate OpensReview(a: Payload, reason: ReviewReason) {
    match reason
    case PolicyReview => a == Policy(RequiresReview, TaskArtifactEvaluation)
    case EscalationReview => a.Task? && a.outcome.Escalated?
    case PlaceholderReview => a == Policy(RequiresReview, ReviewPlaceholderRequest)
    case ContinuationReview => a == Policy(RequiresReview, ContinuationGate)
  }

  /** After `a` the run may select how to go on. */
  predicate LeadsTo(a: Payload, selection: ContinuationSelection) {
    match selection.reason
    case TaskFailed => selection.kind.Stop? && a.Task? && a.outcome.Failed?
    case HookRequestedStop => selection.kind.Stop? && a.Resolved? && !a.invalid && a.response.RequestStop?
    case ContinuationDenied => selection.kind.Stop? && a == Policy(Deny, ContinuationGate)
    case AcceptedArtifact =>
      && !selection.kind.Stop?
      && (|| a.Artifact?
          || a == Policy(Allow, ContinuationGate)
          || (a.Resolved? && a.reason.ContinuationReview? && !a.invalid && a.response.Approve?))
  }

  /** The record `b` may be appended to a log that amounts to `s`. */
  predicate Follows(s: Summary, b: RunRecord) {
    b.seqNo == s.size + 1 && MayFollow(s, b.taskId, b.payload)
  }

  predicate MayFollow(s: Summary, taskId: Option<TaskId>, payload: Payload) {
    var a := s.last;
    var same := a.taskId.Some? && a.taskId == taskId;
    match payload
    case RunMetadata => s == EMPTY && taskId == None
    case Task(_, _, _, _) => taskId.Some? && Settled(s)
    case Policy(_, point) => same && MayConsult(a.payload, point)
    case Entered(reason, allowed) =>
      same && allowed == Guard.AllowedFor(reason) && OpensReview(a.payload, reason)
    case Resolved(reason, allowed, response, invalid) =>
      && same && a.payload == Entered(reason, allowed)
      && (if invalid then response.Reject? else response in allowed)
    case Artifact(_, _, _, _) =>
      && same && Authorizes(a.payload, payload) && a.taskId.value !in s.artifactIds
      && payload.fallbackDepth == s.taskDepth && (payload.text == "" ==> s.escalated)
    case Continuation(selection) => same && LeadsTo(a.payload, selection)
    case Provenance => same && IsAccept(a.payload)
    case Terminal(state, reason, count) =>
      && taskId == None && IsTerminal(state) && Reflects(s, state, Some(reason))
      && count == s.provenances
  }

  /** What the first `k` records amount to. */
  ghost function Before(log: seq<RunRecord>, k: nat): Summary
    requires k <= |log|
  {
    Summarize(log[..k])
  }

  /** A longer log has the same patches and then some, each for a task that came in the meantime or was the
      last one before. */
  lemma {:induction false} LaterPatches(log: seq<RunRecord>, more: seq<RunRecord>)
    requires log <= more
    ensures
      var s, t := Summarize(log), Summarize(more);
      && s.patches <= t.patches && s.tasks <= t.tasks
      && forall k :: |s.patches| <= k < |t.patches| ==> s.tasks <= t.patches[k].tasks <= t.tasks
  {
    if |log| < |more| {
      LaterPatches(log, more[..|more| - 1]);
    } else {
      assert log == more;
    }
  }

  /** If a log goes on with one task, its new patches are for that task. */
  lemma {:induction false} PatchesSince(log: seq<RunRecord>, more: seq<RunRecord>)
    requires log <= more && |log| < |more| && more[|log|].payload.Task?
    requires Summarize(more).tasks == Summarize(log).tasks + 1
    ensures
      var s, t := Summarize(log), Summarize(more);
      s.patches <= t.patches && forall k :: |s.patches| <= k < |t.patches| ==> t.patches[k].tasks == t.tasks
  {
    var first := more[..|log| + 1];
    assert first[..|log|] == log;
    LaterPatches(first, more);
  }

  /** Every record was allowed to follow the ones before it. */
  ghost predicate Legal(log: seq<RunRecord>) {
    forall k: nat {:trigger Before(log, k)} :: k < |log| ==> Follows(Before(log, k), log[k])
  }

  /** `log` is legal and amounts to `s`. The trigger keeps the verifier from unfolding the log
      wherever the run only needs what `s` says. */
  ghost predicate Accounts(s: Summary, log: seq<RunRecord>) {
    Legal(log) && forall k: nat {:trigger Before(log, k)} :: k == |log| ==> Before(log, k) == s
  }

  lemma AccountsMeans(s: Summary, log: seq<RunRecord>)
    requires Accounts(s, log)
    ensures Legal(log) && s == Summarize(log)
  {
    assert Before(log, |log|) == s && log[..|log|] == log;
  }

  lemma AccountsEmpty()
    ensures Accounts(EMPTY, [])
  {
    assert Before([], 0) == EMPTY;
  }

  lemma AccountsOneMore(s: Summary, log: seq<RunRecord>, b: RunRecord)
    requires Accounts(s, log) && Follows(s, b)
    ensures Accounts(s.Add(b), log + [b])
  {
    var more := log + [b];
    AccountsMeans(s, log);
    assert more[..|log|] == log;
    forall k: nat | k < |more|
      ensures Follows(Before(more, k), more[k])
    {
      assert more[..k] == log[..k];
      assert k == |log| ==> log[..k] == log;
      assert k < |log| ==> Before(more, k) == Before(log, k);
    }
    assert more[..|more|] == more;
  }
}
