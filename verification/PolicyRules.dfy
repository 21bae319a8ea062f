/** policy/rules.py: the rule-based policy gate. */
module PolicyRules {
  import opened RepairModel

  datatype PlaceholderMode = AllowPlaceholder | DenyPlaceholder | ReviewPlaceholder

  datatype PolicyConfig = PolicyConfig(
    highRisk: set<FailureKind>,
    defaultScope: PolicyDecisionScope,
    placeholder: PlaceholderMode)

  predicate ConcernsPlaceholder(context: PolicyContext) {
    context.artifactKind == Some(CommittedPlaceholder) || context.isPlaceholderRequest
  }

  predicate GatesContinuation(context: PolicyContext) {
    context.point.ContinuationGate? && context.continuationKind.Some?
  }

  /** Placeholders are decided by the placeholder mode alone, and nothing else is ever denied. Anything else
      goes through without review iff its failure is not of a risky kind, no fallback repair is at stake, and
      no fallback asks for a continuation. */
  function Decide(config: PolicyConfig, context: PolicyContext): (d: PolicyDecision)
    ensures d.kind.Deny? <==> ConcernsPlaceholder(context) && config.placeholder.DenyPlaceholder?
    ensures ConcernsPlaceholder(context) ==> (d.kind.Allow? <==> config.placeholder.AllowPlaceholder?)
    ensures !ConcernsPlaceholder(context) ==>
      (d.kind.Allow? <==>
        && context.failureKind !in config.highRisk
        && (context.fallbackDepth > 0 ==>
              context.artifactKind != Some(Repair) && !GatesContinuation(context)))
    // the rule named is the one that decided, and it decides the scope
    ensures d.scope == if d.rule.FallbackContinuationRequiresReview? then ContinuationGating else config.defaultScope
    ensures d.rule in {PlaceholderAllow, PlaceholderDeny, PlaceholderRequiresReview} <==> ConcernsPlaceholder(context)
    ensures d.rule.PlaceholderAllow? || d.rule.DefaultAllow? <==> d.kind.Allow?
    ensures d.rule.PlaceholderDeny? <==> d.kind.Deny?
    ensures d.rule.FallbackContinuationRequiresReview? <==>
      !ConcernsPlaceholder(context) && context.fallbackDepth > 0 && GatesContinuation(context)
    ensures d.rule.FallbackAcceptanceRequiresReview? <==>
      && !ConcernsPlaceholder(context) && context.fallbackDepth > 0
      && context.artifactKind == Some(Repair) && !GatesContinuation(context)
    ensures d.rule.HighRiskFailureRequiresReview? <==>
      && !ConcernsPlaceholder(context) && context.failureKind in config.highRisk
      && !(context.fallbackDepth > 0 && (context.artifactKind == Some(Repair) || GatesContinuation(context)))
  {
    if ConcernsPlaceholder(context) then
      PlaceholderDecision(config)
    else if GatesContinuation(context) && context.fallbackDepth > 0 then
      PolicyDecision(RequiresReview, ContinuationGating, FallbackContinuationRequiresReview)
    else if context.fallbackDepth > 0 && context.artifactKind == Some(Repair) then
      PolicyDecision(RequiresReview, config.defaultScope, FallbackAcceptanceRequiresReview)
    else if context.failureKind in config.highRisk then
      PolicyDecision(RequiresReview, config.defaultScope, HighRiskFailureRequiresReview)
    else
      PolicyDecision(Allow, config.defaultScope, DefaultAllow)
  }

  function PlaceholderDecision(config: PolicyConfig): PolicyDecision {
    match config.placeholder
    case DenyPlaceholder => PolicyDecision(Deny, config.defaultScope, PlaceholderDeny)
    case ReviewPlaceholder => PolicyDecision(RequiresReview, config.defaultScope, PlaceholderRequiresReview)
    case AllowPlaceholder => PolicyDecision(Allow, config.defaultScope, PlaceholderAllow)
  }
}
