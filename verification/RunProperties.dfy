/** What every legal record log of a run satisfies, and what that says about a run at rest. */
module RunProperties {
  import opened RepairModel
  import opened RunRecords
  import Guard = ReviewGuard
  import opened RepairOrchestrator
  import opened WorkingSnapshot
  import opened BlockLocalizer
  import opened ProverStates
  import opened TaskEngine

  // ---------------------------------------------------------------- prefixes

  lemma {:induction false} PrefixLegal(log: seq<RunRecord>, n: nat)
    requires Legal(log) && n <= |log|
    ensures Legal(log[..n])
    ensures n > 0 ==> Summarize(log[..n]) == Summarize(log[..n - 1]).Add(log[n - 1])
    ensures n > 0 ==> Follows(Summarize(log[..n - 1]), log[n - 1])
  {
    forall k: nat | k < n
      ensures Follows(Before(log[..n], k), log[..n][k])
    {
      assert log[..n][..k] == log[..k];
      assert Follows(Before(log, k), log[k]);
    }
    if n > 0 {
      assert log[..n][..n - 1] == log[..n - 1];
      assert Follows(Before(log, n - 1), log[n - 1]);
    }
  }

  lemma {:induction false} LastOfPrefix(log: seq<RunRecord>, n: nat)
    requires 0 < n <= |log|
    ensures Summarize(log[..n]).last == log[n - 1]
  {
  }

  /** What may come right after a record. */
  lemma {:induction false} Adjacent(log: seq<RunRecord>, k: nat)
    requires Legal(log) && 0 < k < |log|
    ensures Summarize(log[..k]).last == log[k - 1] && Follows(Summarize(log[..k]), log[k])
  {
    PrefixLegal(log, k + 1);
    assert log[..k + 1][..k] == log[..k];
    LastOfPrefix(log, k);
  }

  // ---------------------------------------------------------------- counting

  ghost function Count(log: seq<RunRecord>, what: Payload -> bool): nat {
    if log == [] then 0
    else Count(log[..|log| - 1], what) + (if what(log[|log| - 1].payload) then 1 else 0)
  }

  predicate IsTask(p: Payload) { p.Task? }
  predicate IsMetadata(p: Payload) { p.RunMetadata? }
  predicate IsArtifact(p: Payload) { p.Artifact? }
  predicate IsProvenance(p: Payload) { p.Provenance? }
  predicate IsResolution(p: Payload) { p.Resolved? }
  predicate IsTerminalRecord(p: Payload) { p.Terminal? }

  /** The continuation gate said no. */
  predicate IsDenial(p: Payload) {
    p == Policy(Deny, ContinuationGate)
  }

  /** A continuation review ended without approval: with a stop, or with an answer the guard refused. */
  predicate IsWithheld(p: Payload) {
    p.Resolved? && p.reason.ContinuationReview? && (p.invalid || !p.response.Approve?)
  }

  /** An artifact is in and its continuation is not decided yet. */
  predicate ContinuationOpen(p: Payload) {
    || p.Artifact?
    || (p.Policy? && p.point.ContinuationGate? && !p.decision.Deny?)
    || (p.Entered? && p.reason.ContinuationReview?)
    || (p.Resolved? && p.reason.ContinuationReview? && !IsWithheld(p))
    || IsAccept(p)
  }

  /** Conservation: every artifact ends up with its provenance record, with a denied continuation or
      with a withheld one, or it is the one artifact still in flight. */
  lemma {:induction false} ArtifactsAreAccountedFor(log: seq<RunRecord>)
    requires Legal(log)
    ensures Count(log, IsArtifact) ==
            Count(log, IsProvenance) + Count(log, IsDenial) + Count(log, IsWithheld)
            + (if log != [] && ContinuationOpen(log[|log| - 1].payload) then 1 else 0)
  {
    if log != [] {
      var n := |log| - 1;
      PrefixLegal(log, n);
      ArtifactsAreAccountedFor(log[..n]);
      if n > 0 { Adjacent(log, n); } else { FirstRecord(log); }
      StepConserves(Summarize(log[..n]), log[n]);
    }
  }

  /** One more record keeps the balance. */
  lemma {:induction false} StepConserves(s: Summary, b: RunRecord)
    requires Follows(s, b)
    ensures (if IsArtifact(b.payload) then 1 else 0) + (if ContinuationOpen(s.last.payload) then 1 else 0) ==
            (if IsProvenance(b.payload) then 1 else 0) + (if IsDenial(b.payload) then 1 else 0)
            + (if IsWithheld(b.payload) then 1 else 0) + (if ContinuationOpen(b.payload) then 1 else 0)
  {
  }

  lemma {:induction false} FirstRecord(log: seq<RunRecord>)
    requires Legal(log) && log != []
    ensures Follows(EMPTY, log[0])
  {
    PrefixLegal(log, 1);
    assert log[..0] == [];
  }

  /** Each accepted continuation is followed by its provenance record. */
  lemma {:induction false} AcceptsHaveProvenance(log: seq<RunRecord>)
    requires Legal(log)
    ensures Count(log, IsAccept) ==
            Count(log, IsProvenance) + (if log != [] && IsAccept(log[|log| - 1].payload) then 1 else 0)
  {
    if log != [] {
      var n := |log| - 1;
      PrefixLegal(log, n);
      AcceptsHaveProvenance(log[..n]);
      if n > 0 { Adjacent(log, n); } else { FirstRecord(log); }
      StepAccepts(Summarize(log[..n]), log[n]);
    }
  }

  lemma {:induction false} StepAccepts(s: Summary, b: RunRecord)
    requires Follows(s, b)
    ensures IsAccept(s.last.payload) <==> IsProvenance(b.payload)
  {
  }

  lemma {:induction false} StepStops(s: Summary, b: RunRecord)
    requires Follows(s, b)
    ensures (if IsStop(b.payload) then 1 else 0) + (if EndsStopped(s.last.payload) then 1 else 0)
            == if EndsStopped(b.payload) then 1 else 0
  {
  }

  predicate EndsStopped(p: Payload) {
    IsStop(p) || (p.Terminal? && p.state.Stopped?)
  }

  /** STOP is selected at most once, and nothing but the terminal records of the stopped run follows. */
  lemma {:induction false} StopIsFinal(log: seq<RunRecord>)
    requires Legal(log)
    ensures Count(log, IsStop) ==
            if log != [] && EndsStopped(log[|log| - 1].payload) then 1 else 0
  {
    if log != [] {
      var n := |log| - 1;
      PrefixLegal(log, n);
      StopIsFinal(log[..n]);
      if n > 0 { Adjacent(log, n); } else { FirstRecord(log); }
      StepStops(Summarize(log[..n]), log[n]);
    }
  }

  /** A run that has ended stays ended: a terminal record is followed by copies of itself only, one for
      each further call into the ended run. */
  lemma {:induction false} TerminalIsForever(log: seq<RunRecord>, i: nat, k: nat)
    requires Legal(log) && i < k < |log| && log[i].payload.Terminal?
    ensures log[k].payload == log[i].payload
    decreases k
  {
    if i < k - 1 {
      TerminalIsForever(log, i, k - 1);
    }
    PrefixLegal(log, k);
    Adjacent(log, k);
  }

  /** A terminal record counts the artifacts accepted before it. */
  lemma {:induction false} TerminalCountsAccepted(log: seq<RunRecord>, k: nat)
    requires Legal(log) && k < |log| && log[k].payload.Terminal?
    ensures log[k].payload.acceptedCount == Count(log[..k], IsProvenance)
  {
    PrefixLegal(log, k + 1);
    SummaryCounts(log[..k]);
  }

  /** Sequence numbers run 1, 2, 3, ... */
  lemma {:induction false} SequenceNumbersContiguous(log: seq<RunRecord>, k: nat)
    requires Legal(log) && k < |log|
    ensures log[k].seqNo == k + 1
  {
    PrefixLegal(log, k + 1);
    SummarySize(log[..k]);
  }

  lemma {:induction false} SummarySize(log: seq<RunRecord>)
    ensures Summarize(log).size == |log|
  {
    if log != [] { SummarySize(log[..|log| - 1]); }
  }

  lemma {:induction false} SummaryCounts(log: seq<RunRecord>)
    ensures var s := Summarize(log);
            && s.tasks == Count(log, IsTask) && s.resolutions == Count(log, IsResolution)
            && s.accepts == Count(log, IsAccept) && s.provenances == Count(log, IsProvenance)
            && s.stops == Count(log, IsStop) && |s.patches| == Count(log, IsArtifact)
            && s.objections == Count(log, IsObjection) && s.terminals == Count(log, IsTerminalRecord)
  {
    if log != [] {
      SummaryCounts(log[..|log| - 1]);
      AddCounts(Summarize(log[..|log| - 1]), log[|log| - 1]);
    }
  }

  lemma AddCounts(s: Summary, b: RunRecord)
    ensures var t := s.Add(b);
            && t.tasks == s.tasks + (if IsTask(b.payload) then 1 else 0)
            && t.resolutions == s.resolutions + (if IsResolution(b.payload) then 1 else 0)
            && t.accepts == s.accepts + (if IsAccept(b.payload) then 1 else 0)
            && t.provenances == s.provenances + (if IsProvenance(b.payload) then 1 else 0)
            && t.stops == s.stops + (if IsStop(b.payload) then 1 else 0)
            && t.objections == s.objections + (if IsObjection(b.payload) then 1 else 0)
            && t.terminals == s.terminals + (if IsTerminalRecord(b.payload) then 1 else 0)
            && |t.patches| == |s.patches| + (if IsArtifact(b.payload) then 1 else 0)
  {
  }

  // ---------------------------------------------------------------- one task at a time

  /** How far the handling of a task has come; the larger, the more is left. */
  function Stage(p: Payload): nat {
    match p
    case RunMetadata => 13
    case Task(_, _, _, _) => 12
    case Policy(_, TaskArtifactEvaluation) => 11
    case Entered(PolicyReview, _) => 10
    case Entered(EscalationReview, _) => 10
    case Resolved(PolicyReview, _, _, _) => 9
    case Resolved(EscalationReview, _, _, _) => 9
    case Policy(_, ReviewPlaceholderRequest) => 8
    case Entered(PlaceholderReview, _) => 7
    case Resolved(PlaceholderReview, _, _, _) => 6
    case Artifact(_, _, _, _) => 5
    case Policy(_, ContinuationGate) => 4
    case Entered(ContinuationReview, _) => 3
    case Resolved(ContinuationReview, _, _, _) => 2
    case Continuation(_) => 1
    case Provenance => 0
    case Terminal(_, _, _) => 0
  }

  /** Records i+1 .. j-1 belong to the handling of the task that record i is about. */
  predicate SameTask(log: seq<RunRecord>, i: nat, j: nat) {
    i < j <= |log| && forall k :: i < k < j ==> !log[k].payload.Task? && !log[k].payload.Terminal?
  }

  /** Within one task the records are about that task, and each is at a later stage than the one before:
      no stage is ever repeated, so an artifact, say, is recorded at most once a task. */
  lemma {:induction false} StagesDescend(log: seq<RunRecord>, i: nat, j: nat)
    requires Legal(log) && i < j < |log| && SameTask(log, i, j + 1) && log[i].taskId.Some?
    ensures Stage(log[j].payload) < Stage(log[i].payload) && log[j].taskId == log[i].taskId
  {
    Adjacent(log, j);
    if i < j - 1 {
      StagesDescend(log, i, j - 1);
    }
  }

  /** A review that opens within another one has a smaller rank. */
  lemma {:induction false} NestedReviewsHaveSmallerRank(log: seq<RunRecord>, i: nat, j: nat)
    requires Legal(log) && i < j < |log| && SameTask(log, i, j + 1)
    requires log[i].payload.Entered? && log[j].payload.Entered?
    ensures Guard.Rank(log[j].payload.reason) < Guard.Rank(log[i].payload.reason)
  {
    if i > 0 { Adjacent(log, i); } else { FirstRecord(log); }
    StagesDescend(log, i, j);
  }

  /** Reviews that can still be resolved once the handling of a task has come this far. */
  function ReviewsLeft(p: Payload): nat {
    if Stage(p) >= 10 then 3 else if Stage(p) >= 7 then 2 else if Stage(p) >= 3 then 1 else 0
  }

  lemma {:induction false} StepUsesReviews(s: Summary, b: RunRecord)
    requires Follows(s, b)
    ensures (if IsResolution(b.payload) then 1 else 0) + ReviewsLeft(b.payload)
            <= if IsTask(b.payload) || IsMetadata(b.payload) then 3 else ReviewsLeft(s.last.payload)
  {
  }

  /** At most three reviews are resolved for one task, however they nest. */
  lemma {:induction false} AtMostThreeReviewsPerTask(log: seq<RunRecord>, i: nat, j: nat)
    requires Legal(log) && SameTask(log, i, j) && log[i].payload.Task?
    ensures Count(log[i..j], IsResolution) + ReviewsLeft(log[j - 1].payload) <= 3
    decreases j
  {
    if i < j - 1 {
      AtMostThreeReviewsPerTask(log, i, j - 1);
      Adjacent(log, j - 1);
      StepUsesReviews(Summarize(log[..j - 1]), log[j - 1]);
      assert log[i..j][..j - 1 - i] == log[i..j - 1];
    } else {
      assert log[i..j][..0] == [];
    }
  }

  /** The same bound for the run as a whole. */
  lemma {:induction false} ReviewsBoundedByTasks(log: seq<RunRecord>)
    requires Legal(log)
    ensures Count(log, IsResolution) + (if log == [] then 0 else ReviewsLeft(log[|log| - 1].payload))
            <= 3 * Count(log, IsTask) + (if log != [] && log[|log| - 1].payload.RunMetadata? then 3 else 0)
  {
    if log != [] {
      var n := |log| - 1;
      PrefixLegal(log, n);
      ReviewsBoundedByTasks(log[..n]);
      if n > 0 { Adjacent(log, n); } else { FirstRecord(log); }
      StepUsesReviews(Summarize(log[..n]), log[n]);
    }
  }

  /** The evidence for an artifact: the TASK record of its task, then only records about that task, the
      last of which entitles the run to patch exactly this artifact. */
  lemma {:induction false} ArtifactHasEvidence(log: seq<RunRecord>, k: nat) returns (i: nat)
    requires Legal(log) && k < |log| && log[k].payload.Artifact?
    ensures i < k && log[i].payload.Task? && log[i].taskId == log[k].taskId && SameTask(log, i, k + 1)
    ensures log[i].payload.fallbackDepth == log[k].payload.fallbackDepth
    ensures Authorizes(log[k - 1].payload, log[k].payload)
  {
    if k == 0 { FirstRecord(log); } else { Adjacent(log, k); }
    i := TaskOf(log, k);
    DepthOfTask(log, i, k);
  }

  lemma {:induction false} TaskOf(log: seq<RunRecord>, k: nat) returns (i: nat)
    requires Legal(log) && k < |log| && log[k].taskId.Some?
    ensures i <= k && log[i].payload.Task? && log[i].taskId == log[k].taskId && SameTask(log, i, k + 1)
  {
    i := k;
    if !log[k].payload.Task? {
      if k == 0 {
        FirstRecord(log);
      } else {
        Adjacent(log, k);
        i := TaskOf(log, k - 1);
      }
    }
  }

  /** The provenance of the artifact at `k` is on record. */
  ghost predicate HasProvenance(log: seq<RunRecord>, k: nat) {
    exists j :: k < j < |log| && log[j].payload.Provenance? && SameTask(log, k, j + 1)
  }

  /** The continuation of the artifact at `k` was denied by the gate, withheld in its review, or waits for it. */
  predicate IsHeldBack(log: seq<RunRecord>, k: nat) {
    && k + 1 < |log| && log[k + 1].payload.Policy? && log[k + 1].payload.point.ContinuationGate?
    && match log[k + 1].payload.decision
       case Allow => false
       case Deny => true
       case RequiresReview => k + 3 >= |log| || IsWithheld(log[k + 3].payload)
  }

  /** What becomes of an artifact in a run at rest: it lacks provenance exactly if the gate denied its
      continuation, or a review of it was not validly approved or is still open. */
  lemma {:induction false} ArtifactFate(log: seq<RunRecord>, state: RunState, reason: Option<TerminalReason>, k: nat)
    requires Legal(log) && Reflects(Summarize(log), state, reason) && k < |log| && log[k].payload.Artifact?
    ensures HasProvenance(log, k) <==> !IsHeldBack(log, k)
  {
    NotLast(log, state, reason, k);
    Adjacent(log, k + 1);
    AfterArtifact(Summarize(log[..k + 1]), log[k + 1]);
    if log[k + 1].payload.Continuation? {
      ProvenanceFollows(log, state, reason, k + 1);
      assert SameTask(log, k, k + 3);
    } else {
      FateAfterGate(log, state, reason, k);
    }
  }

  lemma {:induction false} FateAfterGate(log: seq<RunRecord>, state: RunState, reason: Option<TerminalReason>, k: nat)
    requires Legal(log) && Reflects(Summarize(log), state, reason) && k + 1 < |log| && log[k].payload.Artifact?
    requires log[k + 1].payload.Policy? && log[k + 1].payload.point.ContinuationGate?
    ensures HasProvenance(log, k) <==> !IsHeldBack(log, k)
  {
    NotLast(log, state, reason, k + 1);
    Adjacent(log, k + 2);
    match log[k + 1].payload.decision
    case Allow =>
      AllowedGoesOn(log, state, reason, k);
    case Deny =>
      NothingDeniedGoesOn(log, k);
    case RequiresReview =>
      AfterReviewedGate(Summarize(log[..k + 2]), log[k + 2]);
      FateAfterReview(log, state, reason, k);
  }

  lemma {:induction false} AllowedGoesOn(log: seq<RunRecord>, state: RunState, reason: Option<TerminalReason>, k: nat)
    requires Legal(log) && Reflects(Summarize(log), state, reason) && k + 2 < |log| && log[k].payload.Artifact?
    requires log[k + 1].payload == Policy(Allow, ContinuationGate)
    ensures HasProvenance(log, k)
  {
    NotLast(log, state, reason, k + 1);
    Adjacent(log, k + 2);
    AfterOpenGate(Summarize(log[..k + 2]), log[k + 2]);
    ProvenanceFollows(log, state, reason, k + 2);
    assert SameTask(log, k, k + 4);
  }

  /** After a denied continuation no provenance is recorded for the task. */
  lemma {:induction false} NothingDeniedGoesOn(log: seq<RunRecord>, k: nat)
    requires Legal(log) && k + 2 < |log|
    requires log[k + 1].payload == Policy(Deny, ContinuationGate)
    requires !log[k + 2].payload.Task? && !log[k + 2].payload.Terminal?
    ensures !HasProvenance(log, k)
  {
    Adjacent(log, k + 2);
    AfterClosedGate(Summarize(log[..k + 2]), log[k + 2]);
    forall j | k + 2 < j < |log| && SameTask(log, k, j + 1)
      ensures !log[j].payload.Provenance?
    {
      StopEndsTask(log, k + 2, j);
    }
  }

  lemma {:induction false} StopEndsTask(log: seq<RunRecord>, c: nat, j: nat)
    requires Legal(log) && c < j < |log| && SameTask(log, c, j + 1) && IsStop(log[c].payload) && log[c].taskId.Some?
    ensures !log[j].payload.Provenance?
  {
    Adjacent(log, j);
    if c < j - 1 { StagesDescend(log, c, j - 1); }
  }

  lemma {:induction false} FateAfterReview(log: seq<RunRecord>, state: RunState, reason: Option<TerminalReason>, k: nat)
    requires Legal(log) && Reflects(Summarize(log), state, reason) && k + 2 < |log| && log[k].payload.Artifact?
    requires log[k + 1].payload == Policy(RequiresReview, ContinuationGate)
    requires log[k + 2].payload.Entered? && log[k + 2].payload.reason.ContinuationReview? && log[k + 2].taskId.Some?
    ensures HasProvenance(log, k) <==> !IsHeldBack(log, k)
  {
    if k + 3 < |log| {
      Adjacent(log, k + 3);
      AfterContinuationReview(Summarize(log[..k + 3]), log[k + 3]);
      if IsWithheld(log[k + 3].payload) {
        NothingWithheldGoesOn(log, k);
      } else {
        ApprovedGoesOn(log, state, reason, k);
      }
    }
  }

  lemma {:induction false} ApprovedGoesOn(log: seq<RunRecord>, state: RunState, reason: Option<TerminalReason>, k: nat)
    requires Legal(log) && Reflects(Summarize(log), state, reason) && k + 3 < |log| && log[k].payload.Artifact?
    requires forall i :: k < i < k + 3 ==> !log[i].payload.Task? && !log[i].payload.Terminal?
    requires var p := log[k + 3].payload; p.Resolved? && p.reason.ContinuationReview? && !IsWithheld(p)
    ensures HasProvenance(log, k)
  {
    NotLast(log, state, reason, k + 3);
    Adjacent(log, k + 4);
    AfterApproval(Summarize(log[..k + 4]), log[k + 4]);
    ProvenanceFollows(log, state, reason, k + 4);
    assert SameTask(log, k, k + 6);
  }

  /** After a withheld continuation no provenance is recorded for the task. */
  lemma {:induction false} NothingWithheldGoesOn(log: seq<RunRecord>, k: nat)
    requires Legal(log) && k + 3 < |log| && log[k + 3].taskId.Some?
    requires log[k + 1].payload.Policy? && log[k + 2].payload.Entered?
    requires log[k + 3].payload.Resolved? && IsWithheld(log[k + 3].payload)
    ensures !HasProvenance(log, k)
  {
    forall j | k + 3 < j < |log| && SameTask(log, k, j + 1)
      ensures !log[j].payload.Provenance?
    {
      WithheldAt(log, k + 3, j);
    }
  }

  lemma {:induction false} WithheldAt(log: seq<RunRecord>, w: nat, j: nat)
    requires Legal(log) && w < j < |log| && SameTask(log, w, j + 1) && log[w].taskId.Some?
    requires log[w].payload.Resolved? && IsWithheld(log[w].payload)
    ensures !log[j].payload.Provenance?
  {
    Adjacent(log, w + 1);
    AfterWithheld(Summarize(log[..w + 1]), log[w + 1]);
    StagesDescend(log, w, w + 1);
    Adjacent(log, j);
    if w + 1 < j - 1 { StagesDescend(log, w + 1, j - 1); }
  }

  lemma {:induction false} AfterWithheld(s: Summary, b: RunRecord)
    requires Follows(s, b) && s.last.payload.Resolved? && IsWithheld(s.last.payload)
    ensures !IsAccept(b.payload) && !b.payload.Provenance?
  {
  }

  lemma {:induction false} ProvenanceFollows(log: seq<RunRecord>, state: RunState, reason: Option<TerminalReason>,
                                             k: nat)
    requires Legal(log) && Reflects(Summarize(log), state, reason) && k < |log| && IsAccept(log[k].payload)
    ensures k + 1 < |log| && log[k + 1].payload.Provenance? && log[k + 1].taskId == log[k].taskId
  {
    NotLast(log, state, reason, k);
    Adjacent(log, k + 1);
  }

  lemma {:induction false} AfterArtifact(s: Summary, b: RunRecord)
    requires Follows(s, b) && s.last.payload.Artifact?
    ensures b.taskId == s.last.taskId
    ensures IsAccept(b.payload) || (b.payload.Policy? && b.payload.point.ContinuationGate?)
  {
  }

  lemma {:induction false} AfterOpenGate(s: Summary, b: RunRecord)
    requires Follows(s, b) && s.last.payload == Policy(Allow, ContinuationGate)
    ensures b.taskId == s.last.taskId && IsAccept(b.payload)
  {
  }

  lemma {:induction false} AfterClosedGate(s: Summary, b: RunRecord)
    requires Follows(s, b) && s.last.payload == Policy(Deny, ContinuationGate)
    ensures IsStop(b.payload) && b.taskId == s.last.taskId && b.taskId.Some?
  {
  }

  lemma {:induction false} AfterReviewedGate(s: Summary, b: RunRecord)
    requires Follows(s, b) && s.last.payload == Policy(RequiresReview, ContinuationGate)
    ensures b.payload.Entered? && b.payload.reason.ContinuationReview? && b.taskId.Some?
  {
  }

  lemma {:induction false} AfterContinuationReview(s: Summary, b: RunRecord)
    requires Follows(s, b) && s.last.payload.Entered? && s.last.payload.reason.ContinuationReview?
    ensures b.payload.Resolved? && b.payload.reason.ContinuationReview? && b.taskId.Some?
  {
  }

  lemma {:induction false} AfterApproval(s: Summary, b: RunRecord)
    requires Follows(s, b) && s.last.payload.Resolved? && s.last.payload.reason.ContinuationReview?
    requires !IsWithheld(s.last.payload)
    ensures IsAccept(b.payload) && b.taskId == s.last.taskId
  {
  }

  lemma {:induction false} NotLast(log: seq<RunRecord>, state: RunState, reason: Option<TerminalReason>, k: nat)
    requires Legal(log) && Reflects(Summarize(log), state, reason) && k < |log|
    requires var p := log[k].payload;
             || p.Artifact? || IsAccept(p) || (p.Policy? && p.point.ContinuationGate?)
             || (p.Resolved? && p.reason.ContinuationReview? && !IsWithheld(p))
    ensures k + 1 < |log|
  {
    assert log[..|log|] == log;
    LastOfPrefix(log, |log|);
  }

  /** Behind an accepted continuation there is its artifact, with the gate and at most one review in between. */
  lemma {:induction false} ArtifactBehind(log: seq<RunRecord>, c: nat) returns (a: nat)
    requires Legal(log) && c < |log| && LeadsToAccept(log[c].payload)
    ensures a <= c && log[a].payload.Artifact? && log[a].taskId == log[c].taskId && SameTask(log, a, c + 1)
    decreases c
  {
    a := c;
    if !log[c].payload.Artifact? {
      if c == 0 { FirstRecord(log); } else { Adjacent(log, c); }
      BackToArtifact(if c == 0 then EMPTY else Summarize(log[..c]), log[c]);
      a := ArtifactBehind(log, c - 1);
    }
  }

  predicate LeadsToAccept(p: Payload) {
    || p.Artifact? || IsAccept(p)
    || (p.Policy? && p.point.ContinuationGate?)
    || ((p.Entered? || p.Resolved?) && p.reason.ContinuationReview?)
  }

  lemma {:induction false} BackToArtifact(s: Summary, b: RunRecord)
    requires Follows(s, b) && LeadsToAccept(b.payload) && !b.payload.Artifact?
    ensures s.size > 0 || s.last.payload.RunMetadata? ==> LeadsToAccept(s.last.payload) && s.last.taskId == b.taskId
  {
  }

  /** What is on record for every artifact that made it to the end: its task, the artifact, an accepting
      continuation and the provenance, in this order and all about one task. A policy decision is on record
      between the task and the artifact exactly unless the task was escalated and a review supplied a
      replacement, which goes in without one. */
  lemma {:induction false} ProvenanceHasEvidence(log: seq<RunRecord>, p: nat) returns (t: nat, a: nat)
    requires Legal(log) && p < |log| && log[p].payload.Provenance?
    ensures t < a < p - 1 && IsAccept(log[p - 1].payload)
    ensures log[t].payload.Task? && log[a].payload.Artifact?
    ensures SameTask(log, t, p + 1) && log[t].taskId == log[a].taskId == log[p - 1].taskId == log[p].taskId
    ensures (exists q :: t < q < a && log[q].payload.Policy?) <==>
            !(log[t].payload.outcome.Escalated? && log[a].payload.kind.Repair?)
  {
    if p == 0 { FirstRecord(log); } else { Adjacent(log, p); }
    a := ArtifactBehind(log, p - 1);
    if a == 0 { FirstRecord(log); } else { Adjacent(log, a); }
    t := TaskOf(log, a);
    PolicyBeforeArtifact(log, t, a);
  }

  /** The exception occurs: this log is legal, its task is escalated and accepted, and no policy decision is
      on record. */
  lemma EscalatedReplacementNeedsNoPolicy() returns (log: seq<RunRecord>)
    ensures Legal(log) && |log| == 6 && log[5].payload.Provenance?
    ensures log[0].payload.Task? && log[0].payload.outcome.Escalated? && log[3].payload.Artifact?
    ensures forall k :: 0 <= k < |log| ==> !log[k].payload.Policy?
  {
    var allowed := Guard.AllowedFor(EscalationReview);
    var s := EMPTY;
    log := [];
    AccountsEmpty();
    log, s := OneMore(log, s, Task(Escalated, None, None, 0));
    log, s := OneMore(log, s, Entered(EscalationReview, allowed));
    assert allowed[0] == ProvideReplacement;
    log, s := OneMore(log, s, Resolved(EscalationReview, allowed, ProvideReplacement, false));
    log, s := OneMore(log, s, Artifact(Repair, "by simp", Some(Passed), 0));
    log, s := OneMore(log, s, Continuation(ContinuationSelection(Continue, AcceptedArtifact)));
    log, s := OneMore(log, s, Provenance);
  }

  lemma OneMore(log: seq<RunRecord>, s: Summary, payload: Payload) returns (more: seq<RunRecord>, t: Summary)
    requires Accounts(s, log) && MayFollow(s, Some(1), payload)
    ensures more == log + [RunRecord(s.size + 1, Some(1), payload)]
    ensures t == s.Add(RunRecord(s.size + 1, Some(1), payload))
    ensures Accounts(t, more)
  {
    var b := RunRecord(s.size + 1, Some(1), payload);
    AccountsOneMore(s, log, b);
    more, t := log + [b], s.Add(b);
  }

  lemma {:induction false} PolicyBeforeArtifact(log: seq<RunRecord>, t: nat, a: nat)
    requires Legal(log) && t < a < |log| && SameTask(log, t, a + 1) && log[t].payload.Task? && log[a].payload.Artifact?
    ensures (exists q :: t < q < a && log[q].payload.Policy?) <==>
            !(log[t].payload.outcome.Escalated? && log[a].payload.kind.Repair?)
  {
    Adjacent(log, t + 1);
    AfterTask(Summarize(log[..t + 1]), log[t + 1]);
    if log[t + 1].payload.Policy? {
      assert t < t + 1 < a;
    } else {
      if t + 1 < a { StagesDescend(log, t + 1, a); }
      assert log[t + 1].payload.Entered?;
      EscalationAnswered(log, t + 1, a);
    }
  }

  /** An escalated task gets its artifact either straight from the review or by way of the placeholder policy. */
  lemma {:induction false} EscalationAnswered(log: seq<RunRecord>, e: nat, a: nat)
    requires Legal(log) && 0 < e < a < |log| && SameTask(log, e, a + 1) && log[a].payload.Artifact?
    requires log[e].payload.Entered? && log[e].payload.reason.EscalationReview?
    ensures if log[a].payload.kind.Repair? then a == e + 2 && log[e + 1].payload.Resolved?
            else e + 2 < a && log[e + 2].payload.Policy?
  {
    Adjacent(log, e + 1);
    AfterEscalation(Summarize(log[..e + 1]), log[e + 1]);
    assert e + 1 < a;
    Adjacent(log, e + 2);
    AfterEscalationAnswer(Summarize(log[..e + 2]), log[e + 2]);
    if e + 2 < a {
      StagesDescend(log, e + 2, a);
      PlaceholderRequested(log, e + 2, a);
    }
  }

  lemma {:induction false} AfterTask(s: Summary, b: RunRecord)
    requires Follows(s, b) && s.last.payload.Task? && !b.payload.Task? && !b.payload.Terminal?
    ensures if s.last.payload.outcome.Failed? then b.payload.Continuation?
            else if s.last.payload.outcome.Escalated? then b.payload.Entered? && b.payload.reason.EscalationReview?
            else b.payload.Policy?
  {
  }

  lemma {:induction false} AfterEscalation(s: Summary, b: RunRecord)
    requires Follows(s, b) && s.last.payload.Entered? && s.last.payload.reason.EscalationReview?
    requires !b.payload.Task? && !b.payload.Terminal?
    ensures b.payload.Resolved? && b.payload.reason.EscalationReview?
  {
  }

  lemma {:induction false} AfterEscalationAnswer(s: Summary, b: RunRecord)
    requires Follows(s, b) && s.last.payload.Resolved? && s.last.payload.reason.EscalationReview?
    requires !b.payload.Task? && !b.payload.Terminal?
    ensures || (b.payload.Artifact? && b.payload.kind.Repair?)
            || (b.payload.Policy? && b.payload.point.ReviewPlaceholderRequest?)
            || b.payload.Continuation?
  {
  }

  /** A placeholder that a review asked for goes in as a placeholder. */
  lemma {:induction false} PlaceholderRequested(log: seq<RunRecord>, q: nat, a: nat)
    requires Legal(log) && q < a < |log| && SameTask(log, q, a + 1) && log[a].payload.Artifact?
    requires log[q].payload.Policy? && log[q].payload.point.ReviewPlaceholderRequest?
    ensures log[a].payload.kind.CommittedPlaceholder?
  {
    Adjacent(log, q + 1);
    AfterPlaceholderPolicy(Summarize(log[..q + 1]), log[q + 1]);
    if q + 1 < a {
      StagesDescend(log, q + 1, a);
      Adjacent(log, q + 2);
      AfterPlaceholderReview(Summarize(log[..q + 2]), log[q + 2]);
      assert q + 2 < a;
      Adjacent(log, q + 3);
      AfterPlaceholderAnswer(Summarize(log[..q + 3]), log[q + 3]);
      if q + 3 < a { StagesDescend(log, q + 3, a); }
    }
  }

  lemma {:induction false} AfterPlaceholderPolicy(s: Summary, b: RunRecord)
    requires Follows(s, b) && s.last.payload.Policy? && s.last.payload.point.ReviewPlaceholderRequest?
    requires !b.payload.Task? && !b.payload.Terminal?
    ensures || (b.payload.Artifact? && b.payload.kind.CommittedPlaceholder?)
            || (b.payload.Entered? && b.payload.reason.PlaceholderReview?)
  {
  }

  lemma {:induction false} AfterPlaceholderReview(s: Summary, b: RunRecord)
    requires Follows(s, b) && s.last.payload.Entered? && s.last.payload.reason.PlaceholderReview?
    requires !b.payload.Task? && !b.payload.Terminal?
    ensures b.payload.Resolved? && b.payload.reason.PlaceholderReview?
  {
  }

  lemma {:induction false} AfterPlaceholderAnswer(s: Summary, b: RunRecord)
    requires Follows(s, b) && s.last.payload.Resolved? && s.last.payload.reason.PlaceholderReview?
    requires !b.payload.Task? && !b.payload.Terminal?
    ensures (b.payload.Artifact? && b.payload.kind.CommittedPlaceholder?) || b.payload.Continuation?
  {
  }

  /** No task has two ARTIFACT records, whatever ids the engine reports. */
  lemma {:induction false} ArtifactIdsDistinct(log: seq<RunRecord>, i: nat, j: nat)
    requires Legal(log) && i < j < |log| && log[i].payload.Artifact? && log[j].payload.Artifact?
    ensures log[i].taskId != log[j].taskId
  {
    Adjacent(log, j);
    if i > 0 { Adjacent(log, i); } else { FirstRecord(log); }
    ArtifactIdsRemembered(log, i, j);
  }

  lemma {:induction false} ArtifactIdsCounted(log: seq<RunRecord>)
    requires Legal(log)
    ensures |Summarize(log).artifactIds| == Count(log, IsArtifact)
  {
    if log != [] {
      var n := |log| - 1;
      PrefixLegal(log, n);
      assert Follows(Before(log, n), log[n]);
      ArtifactIdsCounted(log[..n]);
      ArtifactIsNew(Summarize(log[..n]), log[n]);
    }
  }

  lemma ArtifactIsNew(s: Summary, b: RunRecord)
    requires b.payload.Artifact? ==> b.taskId.Some? && b.taskId.value !in s.artifactIds
    ensures |s.Add(b).artifactIds| == |s.artifactIds| + if b.payload.Artifact? then 1 else 0
  {
    if b.payload.Artifact? {
      assert s.Add(b).artifactIds == s.artifactIds + {b.taskId.value};
    }
  }

  lemma {:induction false} ArtifactIdsRemembered(log: seq<RunRecord>, i: nat, j: nat)
    requires i < j <= |log| && log[i].payload.Artifact? && log[i].taskId.Some?
    ensures log[i].taskId.value in Summarize(log[..j]).artifactIds
    decreases j
  {
    assert log[..j][..j - 1] == log[..j - 1];
    if i < j - 1 { ArtifactIdsRemembered(log, i, j - 1); }
  }

  /** The m-th patch of the account is the m-th ARTIFACT record, with the record right before it and the
      number of TASK records so far. */
  lemma {:induction false} PatchOfArtifact(log: seq<RunRecord>, k: nat)
    requires 0 < k < |log| && log[k].payload.Artifact?
    ensures var m := Count(log[..k], IsArtifact);
            && m < |Summarize(log).patches|
            && Summarize(log).patches[m] == Patch(log[k - 1].payload, log[k], Count(log[..k], IsTask))
    decreases |log|
  {
    var n := |log| - 1;
    if k < n {
      assert log[..n][..k] == log[..k];
      PatchOfArtifact(log[..n], k);
    } else {
      SummaryCounts(log[..n]);
      LastOfPrefix(log, n);
    }
  }

  /** An artifact comes with the fallback depth of its task. */
  lemma {:induction false} DepthOfTask(log: seq<RunRecord>, i: nat, k: nat)
    requires i < k <= |log| && log[i].payload.Task? && SameTask(log, i, k)
    ensures Summarize(log[..k]).taskDepth == log[i].payload.fallbackDepth
    decreases k
  {
    assert log[..k][..k - 1] == log[..k - 1];
    if i < k - 1 { DepthOfTask(log, i, k - 1); }
  }

  // ---------------------------------------------------------------- a run at rest

  /** Whatever the policy, the hook and the engine answered: the m-th ARTIFACT record is the m-th patch of
      the theory, linked to it; what entitled the run to it is on record right before; a text that came
      from a review was passed by the engine for the task, and any other is the engine's own; and a rule-based
      gate got its way. The task is the one that the localizer reported for the last TASK record before the
      artifact: it is about the line that is patched, quotes a text that fails there, and its failure kind is
      that of the command there. */
  lemma {:induction false} EveryPatchIsJustified(run: TheoryRepairOrchestrator, k: nat)
    requires run.Valid() && k < |run.store.records| && run.store.records[k].payload.Artifact?
    ensures
      var log := run.store.records;
      var m, t := Count(log[..k], IsArtifact), Count(log[..k], IsTask);
      && 0 < k && m < |run.snapshot.replacements| && 0 < t <= |run.localizer.history| == Count(log, IsTask)
      && var entry := run.snapshot.replacements[m];
         var task := run.localizer.history[t - 1];
         var basis, artifact := log[k - 1].payload, log[k].payload;
         && log[k].seqNo == k + 1 && log[k].taskId == log[k - 1].taskId == Some(entry.taskId)
         && artifact.kind == entry.kind && artifact.text == entry.text
         && entry.artifactRecordId == Some(k + 1) && Authorizes(basis, artifact)
         && entry.line == task.line && entry.originalText == task.blockText
         && run.localizer.IsTrueReport(task)
         && (basis.Resolved? && basis.response.ProvideReplacement? ==>
               exists n :: run.env.engineValidate(n, SpecFor(task), entry.text).status.Passed?)
         && (!(basis.Resolved? && basis.response.ProvideReplacement?) ==>
               t <= |run.questions|
               && AnswerTo(run.env, run.localizer.history, run.questions, t - 1).artifactText == Some(entry.text))
         && (run.ruleGate.Some? ==>
               var config := run.ruleGate.value;
               && (config.placeholder.DenyPlaceholder? ==> entry.kind.Repair?)
               && (entry.kind.Repair? && (task.failureKind in config.highRisk || artifact.fallbackDepth > 0) ==>
                     basis.Resolved? && !basis.invalid
                     && (basis.response.Approve? || basis.response.ProvideReplacement?)))
  {
    var log := run.store.records;
    run.LedgerSays();
    AccountsMeans(run.summary, log);
    if k == 0 { FirstRecord(log); } else { Adjacent(log, k); }
    PatchOfArtifact(log, k);
    SequenceNumbersContiguous(log, k);
    SummaryCounts(log);
    assert run.localizer.Consistent(run.snapshot);
    var m := Count(log[..k], IsArtifact);
    assert Justified(run.ruleGate, run.env, run.localizer.history, run.questions, run.summary.patches[m]);
  }

  /** The log tells what happened: the t-th TASK record is what the engine answered to the t-th question, which
      was about the t-th task that the localizer reported, in the state that this task names. The questions
      are queries of the environment, one after the other. A POLICY record is what the gate answered when
      it was told the truth about the last task and the engine's report on it. */
  lemma {:induction false} RecordsAreHonest(run: TheoryRepairOrchestrator, k: nat)
    requires run.Valid() && k < |run.store.records|
    ensures
      var log := run.store.records;
      var t := Count(log[..k], IsTask);
      && |run.questions| == Count(log, IsTask) == |run.localizer.history|
      && WereAsked(run.localizer.history, run.questions, run.localizer.client.issued)
      && (log[k].payload.Task? ==>
            t < |run.questions| && run.questions[t].number < run.env.clock
            && IsRecordOf(log[k], run.localizer.history[t],
                          AnswerTo(run.env, run.localizer.history, run.questions, t)))
      && (log[k].payload.Policy? ==>
            && 0 < t <= |run.questions| && k > 0
            && exists n, context ::
                 && IsAnswerOf(log[k], context, run.env.policy(n, context))
                 && IsContextFor(context, run.localizer.history[t - 1],
                                 AnswerTo(run.env, run.localizer.history, run.questions, t - 1), log[k - 1].payload))
  {
    HonestAt(run, k);
  }

  lemma {:induction false} HonestAt(run: TheoryRepairOrchestrator, k: nat)
    requires run.Valid() && k < |run.store.records|
    ensures
      var log := run.store.records;
      && |run.questions| == Count(log, IsTask) == |run.localizer.history|
      && WereAsked(run.localizer.history, run.questions, run.localizer.client.issued)
      && (run.questions != [] ==> run.questions[|run.questions| - 1].number < run.env.clock)
      && IsHonest(run.env, run.localizer.history, run.questions, Before(log, k), log[k])
      && Before(log, k).tasks == Count(log[..k], IsTask) && Follows(Before(log, k), log[k])
      && (k > 0 ==> Before(log, k).last == log[k - 1]) && (log[k].payload.Policy? ==> k > 0)
  {
    var log := run.store.records;
    run.LedgerSays();
    AccountsMeans(run.summary, log);
    SummaryCounts(log);
    SummaryCounts(log[..k]);
    if k > 0 { Adjacent(log, k); } else { FirstRecord(log); }
  }

  /** How a run goes on after an artifact is what the engine's report asks for, however the artifact got in: by way
      of the gate iff a rerun is asked for after a fallback. */
  lemma {:induction false} ContinuationFollowsReport(run: TheoryRepairOrchestrator, k: nat)
    requires run.Valid() && k + 1 < |run.store.records| && run.store.records[k].payload.Artifact?
    ensures
      var log := run.store.records;
      var t := Count(log[..k], IsTask);
      && 0 < t <= |run.questions| == |run.localizer.history|
      && var report := AnswerTo(run.env, run.localizer.history, run.questions, t - 1);
         var next := log[k + 1].payload;
         if report.requiresRerun && report.fallbackDepth > 0 then next.Policy? && next.point.ContinuationGate?
         else next == Continuation(ContinuationSelection(if report.requiresRerun then RerunThenContinue else Continue,
                                                         AcceptedArtifact))
  {
    var log := run.store.records;
    HonestAt(run, k + 1);
    assert log[..k + 1][..k] == log[..k];
    AfterArtifact(Before(log, k + 1), log[k + 1]);
  }

  /** So does every accepted continuation, with or without the gate and a review in between. */
  lemma {:induction false} AcceptsAsReported(run: TheoryRepairOrchestrator, k: nat)
    requires run.Valid() && k < |run.store.records| && IsAccept(run.store.records[k].payload)
    ensures
      var t := Count(run.store.records[..k], IsTask);
      && 0 < t <= |run.questions| == |run.localizer.history|
      && run.store.records[k].payload.selection.kind ==
         if AnswerTo(run.env, run.localizer.history, run.questions, t - 1).requiresRerun then RerunThenContinue
         else Continue
  {
    HonestAt(run, k);
  }

  /** A gate that allows everything never objects. */
  lemma {:induction false} AllowingGateNeverObjects(run: TheoryRepairOrchestrator)
    requires run.Valid() && forall n, context :: run.env.policy(n, context).kind.Allow?
    ensures run.summary.objections == 0
  {
    var log := run.store.records;
    run.LedgerSays();
    AccountsMeans(run.summary, log);
    forall k | 0 <= k < |log| ensures !IsObjection(log[k].payload) { RecordsAreHonest(run, k); }
    NoneCounted(log, IsObjection);
    SummaryCounts(log);
  }

  lemma {:induction false} NoneCounted(log: seq<RunRecord>, what: Payload -> bool)
    requires forall k :: 0 <= k < |log| ==> !what(log[k].payload)
    ensures Count(log, what) == 0
  {
    if log != [] { NoneCounted(log[..|log| - 1], what); }
  }

  /** A run is stopped for one of three reasons, which is the one it gives: the engine reported a failed task,
      a review asked for it, or the gate denied a continuation. */
  lemma {:induction false} StopsForAReason(run: TheoryRepairOrchestrator) returns (c: nat)
    requires run.Valid() && run.state.Stopped?
    ensures var log := run.store.records;
            && 0 < c < |log| && IsStop(log[c].payload) && log[c].taskId == log[c - 1].taskId
            && run.terminalReason == StopReason(log[c].payload.selection.reason)
            && match log[c].payload.selection.reason
               case TaskFailed =>
                 var t := Count(log[..c - 1], IsTask);
                 && t < |run.questions| <= |run.localizer.history|
                 && AnswerTo(run.env, run.localizer.history, run.questions, t).outcome.Failed?
               case HookRequestedStop => log[c - 1].payload.Resolved? && log[c - 1].payload.response.RequestStop?
               case ContinuationDenied =>
                 exists n, context :: run.env.policy(n, context).kind.Deny? && context.point.ContinuationGate?
               case AcceptedArtifact => false
  {
    var log := run.store.records;
    run.LedgerSays();
    AccountsMeans(run.summary, log);
    assert log[..|log|] == log;
    LastOfPrefix(log, |log|);
    c := StopBehind(log);
    RecordsAreHonest(run, c - 1);
  }

  lemma {:induction false} StopBehind(log: seq<RunRecord>) returns (c: nat)
    requires Legal(log) && log != [] && EndsStopped(log[|log| - 1].payload)
    ensures 0 < c < |log| && IsStop(log[c].payload) && log[c].taskId == log[c - 1].taskId
    ensures LeadsTo(log[c - 1].payload, log[c].payload.selection)
    ensures var last := log[|log| - 1].payload;
            last.Terminal? ==> Some(last.terminalReason) == StopReason(log[c].payload.selection.reason)
    ensures c == |log| - 1 || log[|log| - 1].payload.Terminal?
  {
    var n := |log| - 1;
    if n > 0 { Adjacent(log, n); } else { FirstRecord(log); }
    if IsStop(log[n].payload) {
      c := n;
    } else {
      PrefixLegal(log, n);
      c := StopBehind(log[..n]);
    }
  }

  /** The deterministic engine, asked about a task of the localizer, accepts it iff some candidate that its
      budget covers closes a proof level where the task starts. Without promotion it repairs the task or fails
      it, unless the candidate that it accepts is the empty text. */
  lemma {:induction false} EngineRepairsOrFails(task: LocalizedTask, space: SearchSpace, bench: Bench, budget: int,
                                                promote: bool)
    requires task.fallbackCandidates == DEFAULT_FALLBACKS && space.task == task
    requires bench.entryLevel == bench.state.proofLevel
    ensures
      var trials := space.TrialsFrom(0);
      var report := EngineReport(task, Search(bench, trials, budget), bench, promote);
      && (report.outcome.Accepted? <==>
            exists k :: 0 <= k < Window(|trials|, budget) && Closes(bench, trials[k]))
      && (report.outcome.Accepted? ==>
            IsRepair(bench.exec, report, task, bench.state)
            || (report.artifactText == Some("") && exists k :: 0 <= k < |trials| && trials[k].text == ""))
      && (!report.outcome.Accepted? ==> if promote && !RanOut(report) then report.outcome.Escalated?
                                        else report.outcome.Failed?)
  {
    var trials := space.TrialsFrom(0);
    LocalizedTaskRepairable(space, bench, budget);
    if Search(bench, trials, budget).winner.Some? {
      AcceptedReportsExecute(task, trials, budget, bench, promote);
    }
  }

  /** What the deterministic engine answers to the t-th question of a run. */
  ghost predicate IsEngineAnswer(run: TheoryRepairOrchestrator, t: nat, space: SearchSpace, promote: bool)
    requires t < |run.questions| && t < |run.localizer.history|
    reads run, run.localizer
  {
    && space.task == run.localizer.history[t]
    && AnswerTo(run.env, run.localizer.history, run.questions, t) ==
       EngineReport(space.task, Search(BenchAt(run, t), space.TrialsFrom(0), SpecFor(space.task).maxValidations),
                    BenchAt(run, t), promote)
  }

  ghost predicate IsByEngine(run: TheoryRepairOrchestrator, t: nat)
    requires t < |run.questions| && t < |run.localizer.history|
    reads run, run.localizer
  {
    exists space, promote :: IsEngineAnswer(run, t, space, promote)
  }

  /** Where the candidates for the t-th task are tried. */
  ghost function BenchAt(run: TheoryRepairOrchestrator, t: nat): Bench
    requires t < |run.questions| && t < |run.localizer.history|
    reads run, run.localizer
  {
    Bench(run.localizer.client.exec, run.questions[t].state, run.localizer.history[t].entryProofLevel)
  }

  /** It repairs a task of the run iff one of the first ten candidates closes a proof level where the task starts. */
  lemma {:induction false} RepairedByOneOfTen(run: TheoryRepairOrchestrator, t: nat, space: SearchSpace, promote: bool)
    requires run.Valid() && t < |run.questions| == |run.localizer.history| && IsEngineAnswer(run, t, space, promote)
    ensures AnswerTo(run.env, run.localizer.history, run.questions, t).outcome.Accepted? <==>
            exists k :: 0 <= k < |space.TrialsFrom(0)| && k < 10 && Closes(BenchAt(run, t), space.TrialsFrom(0)[k])
  {
    TaskIsTrueReport(run, t);
    EngineRepairsOrFails(space.task, space, BenchAt(run, t), 10, promote);
  }

  /** It says where it found a repair. */
  lemma {:induction false} RepairSaysWhere(run: TheoryRepairOrchestrator, t: nat, space: SearchSpace, promote: bool)
    requires run.Valid() && t < |run.questions| == |run.localizer.history| && IsEngineAnswer(run, t, space, promote)
    ensures var report := AnswerTo(run.env, run.localizer.history, run.questions, t);
            if report.outcome.Accepted? then SaysWhere(space, BenchAt(run, t), report)
            else report.artifactText.Some? ==> report.outcome.Escalated?
  {
    TaskIsTrueReport(run, t);
    ReportSaysWhere(space, BenchAt(run, t), SpecFor(space.task).maxValidations, promote);
  }

  /** The text was proposed for the step itself, for the proof body around it or for the whole theorem, and none
      that was proposed for the blocks before would do. */
  ghost predicate SaysWhere(space: SearchSpace, bench: Bench, report: TaskReport) {
    var kinds := [TerminalProofStepBlock, WholeProofBodyBlock, TheoremShellBlock];
    && 0 <= report.fallbackDepth < 3 && report.selectedBlockKind == Some(kinds[report.fallbackDepth])
    && report.fallbackOrigin == (if report.fallbackDepth == 0 then None else Some(Fallback))
    && report.artifactText.Some?
    && ProposedFor(space, report.fallbackDepth, kinds[report.fallbackDepth], report.artifactText.value)
    && forall d, text :: 0 <= d < report.fallbackDepth && ProposedFor(space, d, kinds[d], text) ==>
         !Closes(bench, Trial(d, DEFAULT_FALLBACKS[d], text))
  }

  lemma {:induction false} ReportSaysWhere(space: SearchSpace, bench: Bench, budget: int, promote: bool)
    requires space.Blocks() == DEFAULT_FALLBACKS && bench.entryLevel == bench.state.proofLevel
    ensures var report := EngineReport(space.task, Search(bench, space.TrialsFrom(0), budget), bench, promote);
            if report.outcome.Accepted? then SaysWhere(space, bench, report)
            else report.artifactText.Some? ==> report.outcome.Escalated?
  {
    var report := EngineReport(space.task, Search(bench, space.TrialsFrom(0), budget), bench, promote);
    ReportTells(space, bench, budget, promote);
    if report.outcome.Accepted? {
      var d: nat, i: nat :| FoundAt(space, bench, budget, report, d, i);
      forall e, text | 0 <= e < d && ProposedFor(space, e, DEFAULT_FALLBACKS[e].blockKind, text)
        ensures !Closes(bench, Trial(e, DEFAULT_FALLBACKS[e], text))
      {
        EarlierFallsShort(space, bench, d, i, e, text);
      }
    }
  }

  lemma {:induction false} EarlierFallsShort(space: SearchSpace, bench: Bench, d: nat, i: nat, e: nat, text: string)
    requires space.Blocks() == DEFAULT_FALLBACKS && bench.entryLevel == bench.state.proofLevel
    requires e < d < 3 && FallShort(space, bench, |space.Proposed(d)| + i)
    requires ProposedFor(space, e, DEFAULT_FALLBACKS[e].blockKind, text)
    ensures !Closes(bench, Trial(e, DEFAULT_FALLBACKS[e], text))
  {
    var j :| 0 <= j < |space.TextsAt(e)| && space.TextsAt(e)[j] == text;
    assert space.Proposed(e + 1) == space.Proposed(e) + space.TextsAt(e);
    space.ProposedGrows(e + 1, d);
    PassingIsClosing(bench, Trial(e, DEFAULT_FALLBACKS[e], text));
  }

  /** The generator proposes the text for the block of this kind, at this place in the order of blocks. */
  predicate ProposedFor(space: SearchSpace, depth: nat, kind: BlockKind, text: string) {
    text in space.generate(space.clock + depth, space.task.(blockKind := kind))
  }

  /** With it a rule-based gate keeps out, but for reviews, what was not proposed for the failing step itself. */
  lemma {:induction false} FallbackIsReviewed(run: TheoryRepairOrchestrator, k: nat, space: SearchSpace, promote: bool)
    requires run.Valid() && run.ruleGate.Some? && k < |run.store.records|
    requires run.store.records[k].payload.Artifact? && run.store.records[k].payload.kind.Repair?
    requires var t := Count(run.store.records[..k], IsTask);
             0 < t <= |run.questions| && t <= |run.localizer.history| ==> IsEngineAnswer(run, t - 1, space, promote)
    requires !ProposedFor(space, 0, TerminalProofStepBlock, run.store.records[k].payload.text)
    ensures k > 0 && run.store.records[k - 1].payload.Resolved? && !run.store.records[k - 1].payload.invalid
  {
    var log := run.store.records;
    var t := Count(log[..k], IsTask);
    EveryPatchIsJustified(run, k);
    if !IsSupplied(Patch(log[k - 1].payload, log[k], t)) {
      FoundFurtherDown(run, k, space, promote);
    }
  }

  /** What the engine found, but not for the failing step itself, it found for a fallback. */
  lemma {:induction false} FoundFurtherDown(run: TheoryRepairOrchestrator, k: nat, space: SearchSpace, promote: bool)
    requires run.Valid() && 0 < k < |run.store.records|
    requires run.store.records[k].payload.Artifact? && run.store.records[k].payload.kind.Repair?
    requires var t := Count(run.store.records[..k], IsTask);
             0 < t <= |run.questions| && t <= |run.localizer.history| ==> IsEngineAnswer(run, t - 1, space, promote)
    requires !ProposedFor(space, 0, TerminalProofStepBlock, run.store.records[k].payload.text)
    requires !IsSupplied(Patch(run.store.records[k - 1].payload, run.store.records[k],
                               Count(run.store.records[..k], IsTask)))
    ensures run.store.records[k].payload.fallbackDepth > 0
  {
    var t := Count(run.store.records[..k], IsTask);
    RepairInHand(run, k);
    DepthAsReported(run, k);
    RepairSaysWhere(run, t - 1, space, promote);
  }

  /** An artifact comes with the fallback depth that the engine reported. */
  lemma {:induction false} DepthAsReported(run: TheoryRepairOrchestrator, k: nat)
    requires run.Valid() && k < |run.store.records| && run.store.records[k].payload.Artifact?
    ensures var t := Count(run.store.records[..k], IsTask);
            && 0 < t <= |run.questions| == |run.localizer.history|
            && run.store.records[k].payload.fallbackDepth ==
               AnswerTo(run.env, run.localizer.history, run.questions, t - 1).fallbackDepth
  {
    var log := run.store.records;
    run.LedgerSays();
    AccountsMeans(run.summary, log);
    var i := ArtifactHasEvidence(log, k);
    RecordsAreHonest(run, i);
    NoTaskBetween(log, i, k);
    assert log[..i + 1][..i] == log[..i];
  }

  /** And it is never asked about a continuation, for this engine never asks for a rerun. */
  lemma {:induction false} ContinuationsAreNotGated(run: TheoryRepairOrchestrator, k: nat)
    requires run.Valid() && k < |run.store.records|
    requires forall t: nat :: t < |run.questions| && t < |run.localizer.history| ==> IsByEngine(run, t)
    ensures !(run.store.records[k].payload.Policy? && run.store.records[k].payload.point.ContinuationGate?)
  {
    HonestAt(run, k);
    if run.store.records[k].payload.Policy? {
      NeverAsksForRerun(run, Before(run.store.records, k).tasks - 1);
    }
  }

  lemma {:induction false} NeverAsksForRerun(run: TheoryRepairOrchestrator, t: nat)
    requires t < |run.questions| && t < |run.localizer.history| && IsByEngine(run, t)
    ensures !AnswerTo(run.env, run.localizer.history, run.questions, t).requiresRerun
  {
    var space, promote :| IsEngineAnswer(run, t, space, promote);
    ReportTells(space, BenchAt(run, t), SpecFor(space.task).maxValidations, promote);
  }

  /** So the progress of a whole run holds with this engine: what it answers to the run's questions is a repair
      or a failure, if it does not promote and its generator proposes no empty text. */
  lemma {:induction false} DeterministicEngineFitsRun(run: TheoryRepairOrchestrator, t: nat, space: SearchSpace)
    requires run.Valid() && t < |run.questions| == |run.localizer.history| && IsEngineAnswer(run, t, space, false)
    requires forall n, task, text :: text in space.generate(n, task) ==> text != ""
    ensures RepairsOrFailsAt(run.env, run.localizer.client.exec, run.localizer.history, run.questions, t)
  {
    TaskIsTrueReport(run, t);
    EngineRepairsOrFails(space.task, space, BenchAt(run, t), SpecFor(space.task).maxValidations, false);
    forall k | 0 <= k < |space.TrialsFrom(0)| ensures space.TrialsFrom(0)[k].text != "" {
      TrialsAreProposed(space, 0, k);
    }
  }

  /** With that engine every repair that got into the theory works where its task started, by whatever route it
      got in: proposed by the engine, with or without a review, or supplied by a review and validated. */
  lemma {:induction false} DeterministicRepairsWork(run: TheoryRepairOrchestrator, k: nat, space: SearchSpace,
                                                    promote: bool)
    requires run.Valid() && k < |run.store.records|
    requires run.store.records[k].payload.Artifact? && run.store.records[k].payload.kind.Repair?
    requires
      var t := Count(run.store.records[..k], IsTask);
      0 < t <= |run.questions| && t <= |run.localizer.history| ==>
        && IsEngineAnswer(run, t - 1, space, promote)
        && forall n, text ::
             run.env.engineValidate(n, SpecFor(space.task), text) ==
             ReviewVerdict(SpecFor(space.task), BenchAt(run, t - 1), text)
    ensures
      var log := run.store.records;
      k > 0 && Works(run.localizer.client.exec, run.questions,
                     Patch(log[k - 1].payload, log[k], Count(log[..k], IsTask)))
  {
    var log := run.store.records;
    var t := Count(log[..k], IsTask);
    RepairInHand(run, k);
    var bench := BenchAt(run, t - 1);
    if IsSupplied(Patch(log[k - 1].payload, log[k], t)) {
      bench.PassedMeansExecuted(space.task.blockKind, log[k].payload.text);
    } else {
      AcceptedReportsExecute(space.task, space.TrialsFrom(0), SpecFor(space.task).maxValidations, bench, promote);
    }
  }

  /** A repair has a text, which the engine passed for a review or answered without escalating. */
  lemma {:induction false} RepairInHand(run: TheoryRepairOrchestrator, k: nat)
    requires run.Valid() && k < |run.store.records|
    requires run.store.records[k].payload.Artifact? && run.store.records[k].payload.kind.Repair?
    ensures
      var log := run.store.records;
      var t := Count(log[..k], IsTask);
      && k > 0 && 0 < t <= |run.questions| == |run.localizer.history| && log[k].payload.text != ""
      && var patch := Patch(log[k - 1].payload, log[k], t);
         var task, text := run.localizer.history[t - 1], log[k].payload.text;
         if IsSupplied(patch) then exists n :: run.env.engineValidate(n, SpecFor(task), text).status.Passed?
         else IsAnswered(run.env, run.localizer.history, run.questions, patch)
              && !AnswerTo(run.env, run.localizer.history, run.questions, t - 1).outcome.Escalated?
  {
    EveryPatchIsJustified(run, k);
    RecordsAreHonest(run, k);
    RepairHasText(run, k);
    var log := run.store.records;
    var task := run.localizer.history[Count(log[..k], IsTask) - 1];
    var text := run.snapshot.replacements[Count(log[..k], IsArtifact)].text;
    assert text == log[k].payload.text;
    if IsSupplied(Patch(log[k - 1].payload, log[k], 0)) {
      var n :| run.env.engineValidate(n, SpecFor(task), text).status.Passed?;
    } else {
      UnsuppliedRepairIsNotEscalated(run, k);
    }
  }

  lemma RepairHasText(run: TheoryRepairOrchestrator, k: nat)
    requires run.Valid() && k < |run.store.records|
    requires run.store.records[k].payload.Artifact? && run.store.records[k].payload.kind.Repair?
    ensures run.store.records[k].payload.text != ""
  {
    run.SummaryIs();
    run.LedgerSays();
    AccountsMeans(run.summary, run.store.records);
    if run.store.records[k].payload.text == "" {
      var _ := EmptyArtifactIsEscalatedPlaceholder(run.store.records, k);
    }
  }

  /** A repair that no review supplied is the engine's, and the engine did not escalate. */
  lemma {:induction false} UnsuppliedRepairIsNotEscalated(run: TheoryRepairOrchestrator, k: nat)
    requires run.Valid() && 0 < k < |run.store.records|
    requires run.store.records[k].payload.Artifact? && run.store.records[k].payload.kind.Repair?
    requires var basis := run.store.records[k - 1].payload;
             !(basis.Resolved? && basis.response.ProvideReplacement?)
    ensures var t := Count(run.store.records[..k], IsTask);
            && 0 < t <= |run.questions| <= |run.localizer.history|
            && !AnswerTo(run.env, run.localizer.history, run.questions, t - 1).outcome.Escalated?
  {
    var log := run.store.records;
    run.LedgerSays();
    AccountsMeans(run.summary, log);
    var i := ArtifactHasEvidence(log, k);
    RecordsAreHonest(run, i);
    NoTaskBetween(log, i, k);
    assert log[..i + 1][..i] == log[..i];
    if log[i].payload.outcome.Escalated? {
      PolicyBeforeArtifact(log, i, k);
      Adjacent(log, i + 1);
      AfterTask(Summarize(log[..i + 1]), log[i + 1]);
      EscalationAnswered(log, i + 1, k);
      Adjacent(log, i + 2);
      AfterEscalation(Summarize(log[..i + 2]), log[i + 2]);
      assert false;
    }
  }

  lemma {:induction false} NoTaskBetween(log: seq<RunRecord>, i: nat, k: nat)
    requires i < k <= |log| && SameTask(log, i, k)
    ensures Count(log[..k], IsTask) == Count(log[..i + 1], IsTask)
    decreases k
  {
    if i + 1 < k {
      assert log[..k][..k - 1] == log[..k - 1];
      NoTaskBetween(log, i, k - 1);
    }
  }

  lemma TaskIsTrueReport(run: TheoryRepairOrchestrator, t: nat)
    requires run.Valid() && t < |run.questions|
    ensures t < |run.localizer.history| && run.localizer.IsTrueReport(run.localizer.history[t])
    ensures run.localizer.FailsIn(run.localizer.history[t], run.questions[t].state)
  {
    run.LedgerSays();
    assert run.localizer.Consistent(run.snapshot);
    assert run.localizer.history[t] in run.localizer.history;
  }

  lemma {:induction false} TrialsAreProposed(space: SearchSpace, depth: nat, k: nat)
    requires depth <= |space.Blocks()| && k < |space.TrialsFrom(depth)|
    ensures exists n, task :: space.TrialsFrom(depth)[k].text in space.generate(n, task)
    decreases |space.Blocks()| - depth
  {
    var here := space.BlockAt(depth);
    if k >= |here| {
      TrialsAreProposed(space, depth + 1, k - |here|);
    } else {
      var task := Effective(space.task, space.Blocks()[depth]);
      assert here[k].text in space.generate(space.clock + depth, task);
    }
  }

  /** The books of a run at rest, whatever its policy, hook and engine answered. */
  lemma {:induction false} BooksBalance(run: TheoryRepairOrchestrator)
    requires run.Valid()
    ensures var log := run.store.records;
            && Legal(log)
            && |run.snapshot.replacements| == |run.appliedTaskIds| == Count(log, IsArtifact)
            && run.summary.terminals == Count(log, IsTerminalRecord)
            && run.acceptedArtifactCount == Count(log, IsAccept) == Count(log, IsProvenance)
            && Count(log, IsArtifact) ==
               run.acceptedArtifactCount + Count(log, IsDenial) + Count(log, IsWithheld)
               + (if run.state.AwaitingReview?
                   && run.pendingReview.value.context.reason.ContinuationReview? then 1 else 0)
            && Count(log, IsStop) == (if run.state.Stopped? then 1 else 0)
            && run.env.hookCalls <= 3 * Count(log, IsTask)
  {
    var log := run.store.records;
    run.LedgerSays();
    AccountsMeans(run.summary, log);
    ArtifactsAreAccountedFor(log);
    AcceptsHaveProvenance(log);
    StopIsFinal(log);
    SummaryCounts(log);
    ArtifactIdsCounted(log);
    ReviewsBoundedByTasks(log);
    if log != [] {
      assert log[..|log|] == log;
      LastOfPrefix(log, |log|);
    }
  }

  /** An empty text gets into a theory in one way only: as a placeholder that a review asked for when the
      engine had escalated its task. */
  lemma {:induction false} EmptyArtifactIsEscalatedPlaceholder(log: seq<RunRecord>, a: nat) returns (t: nat)
    requires Legal(log) && a < |log| && log[a].payload.Artifact? && log[a].payload.text == ""
    ensures t < a && log[t].payload.Task? && log[t].taskId == log[a].taskId && SameTask(log, t, a + 1)
    ensures log[t].payload.outcome.Escalated? && log[a].payload.kind.CommittedPlaceholder?
  {
    t := ArtifactHasEvidence(log, a);
    Adjacent(log, a);
    OutcomeOfTask(log, t, a);
    PolicyBeforeArtifact(log, t, a);
    Adjacent(log, t + 1);
    AfterTask(Summarize(log[..t + 1]), log[t + 1]);
    assert t + 1 < a;
    EscalationAnswered(log, t + 1, a);
    Adjacent(log, t + 2);
    AfterEscalation(Summarize(log[..t + 2]), log[t + 2]);
  }

  lemma {:induction false} OutcomeOfTask(log: seq<RunRecord>, i: nat, k: nat)
    requires i < k <= |log| && log[i].payload.Task? && SameTask(log, i, k)
    ensures Summarize(log[..k]).escalated == log[i].payload.outcome.Escalated?
    decreases k
  {
    assert log[..k][..k - 1] == log[..k - 1];
    if i < k - 1 { OutcomeOfTask(log, i, k - 1); }
  }

  /** It does get in: this log is legal. */
  lemma EmptyPlaceholderIsLegal() returns (log: seq<RunRecord>)
    ensures Legal(log) && |log| == 5 && log[4].payload == Artifact(CommittedPlaceholder, "", None, 0)
  {
    var allowed := Guard.AllowedFor(EscalationReview);
    var s := EMPTY;
    log := [];
    AccountsEmpty();
    log, s := OneMore(log, s, Task(Escalated, None, None, 0));
    log, s := OneMore(log, s, Entered(EscalationReview, allowed));
    assert allowed[1] == RequestPlaceholder;
    log, s := OneMore(log, s, Resolved(EscalationReview, allowed, RequestPlaceholder, false));
    log, s := OneMore(log, s, Policy(Allow, ReviewPlaceholderRequest));
    log, s := OneMore(log, s, Artifact(CommittedPlaceholder, "", None, 0));
  }

  /** A run can complete below its target: because the theory is clean already, or because no anchor can be
      had, whatever is left to repair. */
  method CompletesBelowTarget(anchored: bool) returns (run: TheoryRepairOrchestrator)
    ensures run.Valid() && run.state.Completed? && run.runMode.TargetBoundary?
    ensures run.targetMaxTasks == Some(3) && run.acceptedArtifactCount == 0
    ensures run.Clean() <==> anchored
  {
    var localizer, snapshot := SmallTheory(anchored);
    var env := new Environment((n: nat, c: PolicyContext) => PolicyDecision(Allow, ArtifactAcceptance, DefaultAllow),
                               (n: nat, c: InterventionContext) => InterventionResponse(Reject, None),
                               (n: nat, spec: TaskSpec, s: ToplevelState) =>
                                 TaskReport(spec.task.taskId, Failed, None, None, false, None, [], None, 0, None),
                               (n: nat, spec: TaskSpec, text: string) => ValidationResult(Inconclusive, NoReason));
    var store := new InMemoryRecordStore();
    var factory := new RunRecordFactory();
    run := new TheoryRepairOrchestrator(localizer, env, store, factory, snapshot, true, TargetBoundary, Some(3), None);
    ghost var anchors, clean := run.localizer.CanAnchor(run.snapshot), run.Clean();
    assert anchors == clean == anchored;
    run.Round();
    assert run.Clean() == clean;
  }

  /** A header that can be had, and nothing else; or a header that cannot be had, and a command that fails. */
  method SmallTheory(anchored: bool) returns (localizer: ReplBlockLocalizer, snapshot: WorkingTheorySnapshot)
    ensures fresh(localizer) && fresh(localizer.client) && fresh(snapshot)
    ensures snapshot.Valid() && snapshot.replacements == [] && snapshot.anchor.None? && localizer.Consistent(snapshot)
    ensures localizer.history == [] && localizer.header == 0 && localizer.DistinctLines()
    ensures localizer.CanAnchor(snapshot) <==> anchored
    ensures localizer.Patched(snapshot).FirstFailure(1) == |localizer.theoryCommands| <==> anchored
  {
    var header, failing := TheoryCommand("theory T", TheoryHeader, 1), TheoryCommand("by simp", By, 2);
    var theory := if anchored then [header] else [header, failing];
    assert theory[0].kind.TheoryHeader?;
    var client := new ReplClient((s: ToplevelState, text: string) => Rejected(false), ToplevelState(Theory, 0, 0),
                                 (n: nat) => anchored, (n: nat) => {});
    localizer := new ReplBlockLocalizer(client, theory);
    snapshot := new WorkingTheorySnapshot(["theory T", "by simp"]);
  }
}
