/** The decision function of internal/engine/engine.go: (state, event) -> decision. */
module Engine {
  import opened Jobs
  import opened Verdicts
  import opened Liveness
  import ContentResults

  datatype SpecState = SpecState(currentHash: string, version: int, authorLens: string, reviewerLens: string)

  /** The snapshot Decide sees. isEpic and costCeilingMicroUSD are the job's columns that no
      event carries. */
  datatype EngineState = EngineState(
    job: Job, isEpic: bool, costCeilingMicroUSD: Option<int>,
    epoch: int, gitHub: Facts, policy: Policy, spec: SpecState, content: Option<ContentResults.Result>)

  datatype EngineEvent =
    | Heartbeat(epoch: int, health: AgentHealth, awaitingInput: bool, agentExited: bool)
    | LivenessVerdict(rungs: RungSet, governorCeilingReached: bool, attemptsExhausted: bool)
    | WorkResult(epoch: int)
    | Release(epoch: int)
    | ReviewClaim(epoch: int, value: string, disposition: string, reviewerPriorRejections: int, priorApprovals: int)
    | MergeDispatch
    | CostMeter(epoch: int)
    | SpecReviewClaim(epoch: int, claim: string, claimBindsTo: string, meetsStyle: bool, meetsRequirements: bool,
        amendedHash: string, amendedVersion: int, reviewerPriorRejections: int)

  datatype Directive = Continue | Cancel
  datatype RejectReason = StaleEpoch | NotActive | WrongState | NoTransition

  /** The ledger kind a transition is recorded as. */
  datatype TransitionKind =
    | KindAgentExited | KindFastCancelled | KindCostEscalated | KindStallEscalated | KindLeaseRevoked
    | KindWorkerStarted | KindResultAccepted | KindLeaseReleased
    | KindReviewApproved | KindVerdictMinted | KindReviewBounced | KindBounceExhausted
    | KindSpecSignoffMinted | KindSpecAmended | KindSpecNeedsDesign | KindSpecSuperseded | KindSpecBounced
    | KindMergeStarted | KindMergeHandoff

  datatype RevokeReason = NotRevoked | AgentGone | AwaitingInput | OverCost | AbsoluteCapHit | HeartbeatSilent | TwoRungStall

  datatype Transition = Transition(
    from: State, to: State, kind: TransitionKind,
    bouncesDelta: int, attemptsDelta: int, verdict: Option<Verdict>, specSignoff: Option<SpecSignoff>,
    stallRevocationsDelta: int, bumpEpoch: bool, revokeReason: RevokeReason)

  datatype Decision = Decision(
    transitions: seq<Transition>, verdictMint: Option<Verdict>, specMint: Option<SpecSignoff>,
    directive: Option<Directive>, reject: Option<RejectReason>)

  const NOTHING := Decision([], None, None, None, None)

  function Rejected(r: RejectReason): Decision { NOTHING.(reject := Some(r)) }

  function Directed(d: Directive): Decision { NOTHING.(directive := Some(d)) }

  /** A plain state move. */
  function Move(from: State, to: State, kind: TransitionKind): Transition {
    Transition(from, to, kind, 0, 0, None, None, 0, false, NotRevoked)
  }

  /** A move that also ends the lease by bumping the epoch. */
  function Revoke(from: State, to: State, kind: TransitionKind, reason: RevokeReason): Transition {
    Move(from, to, kind).(bumpEpoch := true, revokeReason := reason)
  }

  function One(t: Transition): Decision { NOTHING.(transitions := [t]) }

  function RedispatchTarget(from: State): State {
    match from
    case CodeReview => ReviewPending
    case SpecAuthoring => SpecAuthoring
    case SpecReview => SpecAuthoring
    case ResolvingConflict => ResolvingConflict
    case _ => Ready
  }

  function DecideHeartbeat(s: EngineState, ev: EngineEvent): Decision
    requires ev.Heartbeat?
  {
    if ev.epoch != s.epoch then Rejected(StaleEpoch)
    else if !HasActiveLease(s.job.state) then Rejected(NotActive)
    else match EvaluateFastPath(ev.health, ev.awaitingInput, ev.agentExited)
      case FastPathFailed =>
        One(Revoke(s.job.state, Failed, KindAgentExited, AgentGone)).(directive := Some(Cancel))
      case FastPathCancel =>
        One(Revoke(s.job.state, RedispatchTarget(s.job.state), KindFastCancelled, AwaitingInput).(attemptsDelta := 1))
          .(directive := Some(Cancel))
      case FastPathNone =>
        if s.job.overBudget || CostExceeded(s.job.costMicroUSD, s.costCeilingMicroUSD) then Directed(Cancel)
        else Directed(Continue)
  }

  function DecideCostMeter(s: EngineState, epoch: int): Decision {
    if epoch != s.epoch then Rejected(StaleEpoch)
    else if !HasActiveLease(s.job.state) then Rejected(NotActive)
    else if !CostExceeded(s.job.costMicroUSD, s.costCeilingMicroUSD) then Directed(Continue)
    else One(Revoke(s.job.state, NeedsHuman, KindCostEscalated, OverCost)).(directive := Some(Cancel))
  }

  function DecideLiveness(s: EngineState, ev: EngineEvent): Decision
    requires ev.LivenessVerdict?
  {
    var kd := EvaluateKill(ev.rungs);
    if !HasActiveLease(s.job.state) then Rejected(NotActive)
    else if !kd.kill then NOTHING
    else
      var reason :=
        if !kd.unilateral then TwoRungStall
        else if !ev.rungs.rung3.absoluteCap && ev.rungs.rung3.heartbeatStale then HeartbeatSilent
        else AbsoluteCapHit;
      var escalate :=
        if kd.unilateral then ev.attemptsExhausted || ev.governorCeilingReached else ev.governorCeilingReached;
      if escalate then
        One(Revoke(s.job.state, NeedsHuman, KindStallEscalated, reason).(stallRevocationsDelta := 1))
      else
        One(Revoke(s.job.state, RedispatchTarget(s.job.state), KindLeaseRevoked, reason)
              .(attemptsDelta := 1, stallRevocationsDelta := 1))
  }

  function DecideWorkResult(s: EngineState, epoch: int): Decision {
    var landed := Move(Building, ReviewPending, KindResultAccepted);
    if epoch != s.epoch then Rejected(StaleEpoch)
    else if s.job.state == Leased then NOTHING.(transitions := [Move(Leased, Building, KindWorkerStarted), landed])
    else if s.job.state == Building then One(landed)
    else Rejected(WrongState)
  }

  function DecideRelease(s: EngineState, epoch: int): Decision {
    if epoch != s.epoch then Rejected(StaleEpoch)
    else if !HasActiveLease(s.job.state) then Rejected(NotActive)
    else
      var to := if s.job.state == CodeReview then ReviewPending else Ready;
      One(Move(s.job.state, to, KindLeaseReleased).(attemptsDelta := 1))
  }

  /** The transition of a code-review outcome: an approval below the panel size re-arms the gate
      for the next reviewer, the one that completes it mints. */
  function OnReviewOutcome(out: GateOutcome, priorApprovals: int, required: int): Decision {
    match out.trigger
    case TriggerApproved =>
      if priorApprovals + 1 < required then One(Move(CodeReview, ReviewPending, KindReviewApproved))
      else One(Move(CodeReview, Mergeable, KindVerdictMinted).(verdict := out.verdict)).(verdictMint := out.verdict)
    case TriggerBounce => One(Move(CodeReview, Ready, KindReviewBounced).(bouncesDelta := 1))
    case TriggerBounceExhausted => One(Move(CodeReview, NeedsHuman, KindBounceExhausted).(bouncesDelta := 1))
    case _ => Rejected(NoTransition)
  }

  function GateInputsOf(s: EngineState, ev: EngineEvent): GateInputs
    requires ev.ReviewClaim?
  {
    GateInputs(ev.value, ev.disposition, s.gitHub, s.job.counters.bounces, s.job.counters.maxBounces,
               ev.reviewerPriorRejections, s.policy, s.content)
  }

  function DecideReviewClaim(H: Digest, s: EngineState, ev: EngineEvent): Decision
    requires ev.ReviewClaim?
  {
    if ev.epoch != s.epoch then Rejected(StaleEpoch)
    else if s.job.state != CodeReview then Rejected(WrongState)
    else OnReviewOutcome(EvaluateGate(H, GateInputsOf(s, ev)), ev.priorApprovals, s.policy.RequiredReviewersOrDefault())
  }

  function OnSpecOutcome(out: SpecGateOutcome, isEpic: bool): Decision {
    match out.trigger
    case TriggerSpecSignedOff =>
      One(Move(SpecReview, Done, KindSpecSignoffMinted).(specSignoff := out.signoff)).(specMint := out.signoff)
    case TriggerSpecAmended =>
      One(Move(SpecReview, Done, KindSpecAmended).(specSignoff := out.signoff)).(specMint := out.signoff)
    case TriggerSpecNeedsDesign => One(Move(SpecReview, NeedsDesign, KindSpecNeedsDesign))
    case TriggerSpecSuperseded => One(Move(SpecReview, SpecAuthoring, KindSpecSuperseded))
    case TriggerBounce =>
      if isEpic then One(Move(SpecReview, NeedsHuman, KindBounceExhausted).(bouncesDelta := 1))
      else One(Move(SpecReview, SpecAuthoring, KindSpecBounced).(bouncesDelta := 1))
    case TriggerBounceExhausted => One(Move(SpecReview, NeedsHuman, KindBounceExhausted).(bouncesDelta := 1))
    case _ => Rejected(NoTransition)
  }

  function SpecGateInputsOf(s: EngineState, ev: EngineEvent): SpecGateInputs
    requires ev.SpecReviewClaim?
  {
    SpecGateInputs(
      ev.claim, ev.claimBindsTo, ev.meetsStyle, ev.meetsRequirements, s.spec.currentHash, s.spec.version,
      s.spec.reviewerLens, s.spec.authorLens, s.job.counters.bounces, s.job.counters.maxBounces,
      ev.reviewerPriorRejections, ev.amendedHash, ev.amendedVersion)
  }

  function DecideSpecReviewClaim(H: Digest, s: EngineState, ev: EngineEvent): Decision
    requires ev.SpecReviewClaim?
  {
    if ev.epoch != s.epoch then Rejected(StaleEpoch)
    else if s.job.state != SpecReview then Rejected(WrongState)
    else OnSpecOutcome(EvaluateSpecGate(H, SpecGateInputsOf(s, ev)), s.isEpic)
  }

  function DecideMergeDispatch(H: Digest, s: EngineState): Decision {
    if s.job.state != Mergeable then Rejected(WrongState)
    else if s.job.verdict.None? || !MergeReady(s.gitHub)
            || !Verify(H, s.job.verdict.value, s.gitHub.headSHA, s.gitHub.baseSHA) then NOTHING
    else if s.job.verdict.value.disposition == SELF_MERGE
            && SelfMergeEligible(H, s.job.verdict.value, s.gitHub, s.content, s.policy) then
      One(Move(Mergeable, Merging, KindMergeStarted))
    else One(Move(Mergeable, MergeHandoff, KindMergeHandoff))
  }

  function Decide(H: Digest, s: EngineState, e: EngineEvent): Decision {
    match e
    case Heartbeat(_, _, _, _) => DecideHeartbeat(s, e)
    case CostMeter(epoch) => DecideCostMeter(s, epoch)
    case LivenessVerdict(_, _, _) => DecideLiveness(s, e)
    case WorkResult(epoch) => DecideWorkResult(s, epoch)
    case Release(epoch) => DecideRelease(s, epoch)
    case ReviewClaim(_, _, _, _, _) => DecideReviewClaim(H, s, e)
    case SpecReviewClaim(_, _, _, _, _, _, _, _) => DecideSpecReviewClaim(H, s, e)
    case MergeDispatch => DecideMergeDispatch(H, s)
  }
}
