/** hooks/guard.py: every answer of a review hook passes through here before it counts. */
module ReviewGuard {
  import opened RepairModel

  datatype GuardResult = GuardResult(response: InterventionResponse, invalid: bool)

  /** An answer is let through unchanged exactly when its kind is on offer and a replacement carries a
      text; any other answer counts as a rejection. */
  function Validate(context: InterventionContext, response: InterventionResponse): (g: GuardResult)
    ensures !g.invalid <==> response.kind in context.allowed
                            && (response.kind.ProvideReplacement? ==> NonEmpty(response.replacementText))
    ensures if g.invalid then g.response.kind.Reject? else g.response == response
  {
    if response.kind !in context.allowed then
      Invalid()
    else if response.kind.ProvideReplacement? && !NonEmpty(response.replacementText) then
      Invalid()
    else
      GuardResult(response, false)
  }

  function Invalid(): GuardResult {
    GuardResult(InterventionResponse(Reject, None), true)
  }

  /** Python truth value of an optional text. */
  predicate NonEmpty(text: Option<string>) {
    text.Some? && text.value != ""
  }

  /** Which reviews take which answer: any review can be stopped, what is up for decision can be approved unless
      the task was escalated without an artifact of its own, only an artifact can be rejected, and only a review
      of the engine's work takes another artifact. */
  predicate IsOffered(reason: ReviewReason, kind: ResponseKind) {
    match kind
    case RequestStop => true
    case Approve => !reason.EscalationReview?
    case Reject => reason.PolicyReview? || reason.PlaceholderReview?
    case ProvideReplacement => reason.PolicyReview? || reason.EscalationReview?
    case RequestPlaceholder => reason.PolicyReview? || reason.EscalationReview?
  }

  /** The answer is taken as it is. */
  predicate IsTaken(reason: ReviewReason, answer: InterventionResponse) {
    IsOffered(reason, answer.kind) && (answer.kind.ProvideReplacement? ==> NonEmpty(answer.replacementText))
  }

  /** The response kinds a review of each kind offers. */
  function AllowedFor(reason: ReviewReason): (allowed: seq<ResponseKind>)
    ensures forall kind :: kind in allowed <==> IsOffered(reason, kind)
  {
    match reason
    case PolicyReview => [Approve, Reject, ProvideReplacement, RequestPlaceholder, RequestStop]
    case EscalationReview => [ProvideReplacement, RequestPlaceholder, RequestStop]
    case PlaceholderReview => [Approve, Reject, RequestStop]
    case ContinuationReview => [Approve, RequestStop]
  }

  /** Review kinds nest only from a higher to a lower rank. */
  function Rank(reason: ReviewReason): nat {
    match reason
    case PolicyReview => 3
    case EscalationReview => 3
    case PlaceholderReview => 2
    case ContinuationReview => 1
  }

  /** The review a guarded answer can open, if the policy asks for one: a placeholder request
      opens a placeholder review, an artifact taken up opens a continuation review. */
  predicate CanOpen(outer: ReviewReason, answer: GuardResult, inner: ReviewReason) {
    match inner
    case PolicyReview => false
    case EscalationReview => false
    case PlaceholderReview => !answer.invalid && answer.response.kind.RequestPlaceholder?
    case ContinuationReview =>
      && !answer.invalid
      && !outer.ContinuationReview?
      && answer.response.kind in {Approve, ProvideReplacement, RequestPlaceholder}
  }

  /** Reviews nest exactly as their ranks say: some guarded answer to one review can open another one
      iff the other one has the smaller rank. */
  lemma NestingFollowsRank(outer: InterventionContext, inner: ReviewReason)
    requires outer.allowed == AllowedFor(outer.reason)
    ensures (exists response :: CanOpen(outer.reason, Validate(outer, response), inner)) <==>
            Rank(inner) < Rank(outer.reason)
  {
    var kind := if inner.PlaceholderReview? then RequestPlaceholder
                else if outer.reason.EscalationReview? then ProvideReplacement else Approve;
    var witnessed := InterventionResponse(kind, Some("by simp"));
    assert Rank(inner) < Rank(outer.reason) ==> CanOpen(outer.reason, Validate(outer, witnessed), inner);
    forall response | CanOpen(outer.reason, Validate(outer, response), inner)
      ensures Rank(inner) < Rank(outer.reason)
    {
      assert inner.PlaceholderReview? ==> response.kind in AllowedFor(outer.reason);
    }
  }
}
