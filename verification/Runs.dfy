/** What holds of every run of the step system whatever the job: every ledger is a path through the
    diagram, and it has no gaps. */
module Runs {
  import opened Jobs
  import opened Verdicts
  import opened Liveness
  import opened Ledger
  import opened Protocol
  import opened Runtime
  import Engine

  // ---- every appended event fits ------------------------------------------------

  /** k carries what the gate's transition hangs on. */
  predicate Agrees(j: Job, k: Job) {
    && k.state == j.state && k.leaseEpoch == j.leaseEpoch && k.kind == j.kind
    && k.counters.bounces == j.counters.bounces && k.counters.maxBounces == j.counters.maxBounces
  }

  /** The moves a code-review claim can make. */
  predicate ReviewMove(j: Job, t: Engine.Transition) {
    && j.state == CodeReview && t.from == CodeReview && !t.bumpEpoch
    && match t.kind
       case KindReviewApproved => t.to == ReviewPending
       case KindVerdictMinted => t.to == Mergeable && t.verdict.Some?
       case KindReviewBounced => t.to == Ready && t.bouncesDelta == 1 && j.counters.bounces + 1 < j.counters.maxBounces
       case KindBounceExhausted => t.to == NeedsHuman && t.bouncesDelta == 1
       case _ => false
  }

  lemma ReviewMoves(H: Digest, es: Engine.EngineState, ev: Engine.EngineEvent)
    requires ev.ReviewClaim?
    ensures var ts := Engine.DecideReviewClaim(H, es, ev).transitions; ts == [] || (|ts| == 1 && ReviewMove(es.job, ts[0]))
  {
    var inp := Engine.GateInputsOf(es, ev);
    if es.job.state == CodeReview {
      ReviewOutcomeMoves(es.job, EvaluateGate(H, inp), ev.priorApprovals, es.policy.RequiredReviewersOrDefault());
    }
  }

  lemma ReviewOutcomeMoves(j: Job, out: GateOutcome, prior: int, required: int)
    requires j.state == CodeReview
    requires out.trigger == TriggerApproved ==> out.verdict.Some?
    requires out.trigger == TriggerBounce ==> j.counters.bounces + 1 < j.counters.maxBounces
    ensures var ts := Engine.OnReviewOutcome(out, prior, required).transitions;
      ts == [] || (|ts| == 1 && ReviewMove(j, ts[0]))
  {
  }

  lemma ReviewMoveFits(ceiling: int, j: Job, k: Job, t: Engine.Transition, ev: Engine.EngineEvent, head: string,
      at: int)
    requires ReviewMove(j, t) && Agrees(j, k)
    ensures Fits(ceiling, k, TransitionEvent(j, t, ev, head, at))
  {
  }

  /** The moves a spec-review claim can make. */
  predicate SpecReviewMove(j: Job, t: Engine.Transition, ev: Engine.EngineEvent) {
    && j.state == SpecReview && t.from == SpecReview && !t.bumpEpoch
    && match t.kind
       case KindSpecSignoffMinted => t.to == Done && t.specSignoff.Some?
       case KindSpecAmended => t.to == Done && t.specSignoff.Some? && ev.SpecReviewClaim? && ev.amendedHash != ""
       case KindSpecNeedsDesign => t.to == NeedsDesign
       case KindSpecSuperseded => t.to == SpecAuthoring
       case KindSpecBounced => t.to == SpecAuthoring && t.bouncesDelta == 1
       case KindBounceExhausted => t.to == NeedsHuman && t.bouncesDelta == 1
       case _ => false
  }

  lemma SpecReviewMoves(H: Digest, es: Engine.EngineState, ev: Engine.EngineEvent)
    requires ev.SpecReviewClaim?
    ensures var ts := Engine.DecideSpecReviewClaim(H, es, ev).transitions; ts == [] || (|ts| == 1 && SpecReviewMove(es.job, ts[0], ev))
  {
    var inp := Engine.SpecGateInputsOf(es, ev);
    if es.job.state == SpecReview {
      SpecOutcomeMoves(es.job, EvaluateSpecGate(H, inp), es.isEpic, ev);
    }
  }

  lemma SpecOutcomeMoves(j: Job, out: SpecGateOutcome, isEpic: bool, ev: Engine.EngineEvent)
    requires j.state == SpecReview && ev.SpecReviewClaim?
    requires out.signoff.Some? <==> (out.trigger == TriggerSpecSignedOff || out.trigger == TriggerSpecAmended)
    requires out.trigger == TriggerSpecAmended ==> ev.amendedHash != ""
    ensures var ts := Engine.OnSpecOutcome(out, isEpic).transitions;
      ts == [] || (|ts| == 1 && SpecReviewMove(j, ts[0], ev))
  {
  }

  lemma SpecReviewMoveFits(ceiling: int, j: Job, k: Job, t: Engine.Transition, ev: Engine.EngineEvent, head: string,
      at: int)
    requires SpecReviewMove(j, t, ev) && Agrees(j, k)
    ensures Fits(ceiling, k, TransitionEvent(j, t, ev, head, at))
  {
  }

  /** Which events can lead to the transition kinds the run theorems turn on. */
  predicate MadeBy(kind: Engine.TransitionKind, ev: Engine.EngineEvent) {
    match kind
    case KindReviewApproved => ev.ReviewClaim?
    case KindVerdictMinted => ev.ReviewClaim?
    case KindMergeStarted => ev.MergeDispatch?
    case KindSpecSignoffMinted => ev.SpecReviewClaim?
    case KindSpecAmended => ev.SpecReviewClaim?
    case _ => true
  }

  predicate KindsAreMade(d: Engine.Decision, ev: Engine.EngineEvent) {
    && |d.transitions| <= 2
    && (forall i :: 0 <= i < |d.transitions| ==> MadeBy(d.transitions[i].kind, ev))
    && (d.verdictMint.Some? ==> ev.ReviewClaim?)
  }

  lemma SpecReviewMintsNoVerdict(H: Digest, es: Engine.EngineState, ev: Engine.EngineEvent)
    requires ev.SpecReviewClaim?
    ensures Engine.DecideSpecReviewClaim(H, es, ev).verdictMint == None
  {
  }

  lemma HeartbeatKinds(es: Engine.EngineState, ev: Engine.EngineEvent)
    requires ev.Heartbeat?
    ensures KindsAreMade(Engine.DecideHeartbeat(es, ev), ev)
  {
  }

  lemma LivenessKinds(es: Engine.EngineState, ev: Engine.EngineEvent)
    requires ev.LivenessVerdict?
    ensures KindsAreMade(Engine.DecideLiveness(es, ev), ev)
  {
  }

  lemma DispatchKinds(H: Digest, es: Engine.EngineState, ev: Engine.EngineEvent)
    requires ev.MergeDispatch?
    ensures KindsAreMade(Engine.DecideMergeDispatch(H, es), ev)
  {
  }

  lemma WorkerKinds(es: Engine.EngineState, ev: Engine.EngineEvent)
    ensures ev.WorkResult? ==> KindsAreMade(Engine.DecideWorkResult(es, ev.epoch), ev)
    ensures ev.Release? ==> KindsAreMade(Engine.DecideRelease(es, ev.epoch), ev)
    ensures ev.CostMeter? ==> KindsAreMade(Engine.DecideCostMeter(es, ev.epoch), ev)
  {
  }

  /** Only a review claim makes the gate approve or mint, only a spec review signs off, only a
      dispatch starts a merge. */
  lemma DecisionKinds(H: Digest, es: Engine.EngineState, ev: Engine.EngineEvent)
    ensures KindsAreMade(Engine.Decide(H, es, ev), ev)
  {
    hide Engine.DecideReviewClaim, Engine.DecideSpecReviewClaim, Engine.DecideHeartbeat, Engine.DecideLiveness,
      Engine.DecideMergeDispatch, Engine.DecideWorkResult, Engine.DecideRelease, Engine.DecideCostMeter;
    match ev
    case ReviewClaim(_, _, _, _, _) => ReviewMoves(H, es, ev);
    case SpecReviewClaim(_, _, _, _, _, _, _, _) =>
      SpecReviewMoves(H, es, ev);
      SpecReviewMintsNoVerdict(H, es, ev);
    case Heartbeat(_, _, _, _) => HeartbeatKinds(es, ev);
    case LivenessVerdict(_, _, _) => LivenessKinds(es, ev);
    case MergeDispatch => DispatchKinds(H, es, ev);
    case _ => WorkerKinds(es, ev);
  }

  /** The moves a heartbeat can make. */
  predicate HeartbeatMove(j: Job, t: Engine.Transition) {
    && t.from == j.state && t.bumpEpoch && HasActiveLease(j.state)
    && match t.kind
       case KindAgentExited => t.to == Failed
       case KindFastCancelled => Rearms(j.state, t.to) && t.attemptsDelta == 1
       case _ => false
  }

  lemma HeartbeatMoves(es: Engine.EngineState, ev: Engine.EngineEvent)
    requires ev.Heartbeat?
    ensures var ts := Engine.DecideHeartbeat(es, ev).transitions; ts == [] || (|ts| == 1 && HeartbeatMove(es.job, ts[0]))
  {
  }

  lemma HeartbeatMoveFits(ceiling: int, j: Job, t: Engine.Transition, ev: Engine.EngineEvent, head: string, at: int)
    requires HeartbeatMove(j, t)
    ensures Fits(ceiling, j, TransitionEvent(j, t, ev, head, at))
  {
  }

  lemma HeartbeatFits(ceiling: int, es: Engine.EngineState, ev: Engine.EngineEvent, head: string, at: int)
    requires ev.Heartbeat?
    ensures var ts := Engine.DecideHeartbeat(es, ev).transitions;
      ts == [] || (|ts| == 1 && Fits(ceiling, es.job, TransitionEvent(es.job, ts[0], ev, head, at)))
  {
    hide Engine.DecideHeartbeat, HeartbeatMove, Fits, TransitionEvent;
    HeartbeatMoves(es, ev);
    var ts := Engine.DecideHeartbeat(es, ev).transitions;
    if ts != [] {
      HeartbeatMoveFits(ceiling, es.job, ts[0], ev, head, at);
    }
  }

  /** The moves a liveness verdict can make. */
  predicate LivenessMove(ceiling: int, j: Job, t: Engine.Transition) {
    && t.from == j.state && t.bumpEpoch && t.stallRevocationsDelta == 1
    && match t.kind
       case KindStallEscalated => t.to == NeedsHuman
       case KindLeaseRevoked =>
         && Rearms(j.state, t.to) && t.attemptsDelta == 1
         && (ceiling > 0 ==> j.counters.stallRevocations + 1 < ceiling)
       case _ => false
  }

  lemma LivenessMoves(ceiling: int, es: Engine.EngineState, ev: Engine.EngineEvent)
    requires ev.LivenessVerdict?
    requires ev.governorCeilingReached == (ceiling > 0 && es.job.counters.stallRevocations + 1 >= ceiling)
    ensures var ts := Engine.DecideLiveness(es, ev).transitions;
      ts == [] || (|ts| == 1 && LivenessMove(ceiling, es.job, ts[0]))
  {
    hide EvaluateKill;
  }

  lemma LivenessMoveFits(ceiling: int, j: Job, t: Engine.Transition, ev: Engine.EngineEvent, head: string, at: int)
    requires LivenessEvaluable(j.state) && LivenessMove(ceiling, j, t)
    ensures Fits(ceiling, j, TransitionEvent(j, t, ev, head, at))
  {
  }

  lemma LivenessFits(ceiling: int, es: Engine.EngineState, ev: Engine.EngineEvent, head: string, at: int)
    requires ev.LivenessVerdict? && LivenessEvaluable(es.job.state)
    requires ev.governorCeilingReached == (ceiling > 0 && es.job.counters.stallRevocations + 1 >= ceiling)
    ensures var ts := Engine.DecideLiveness(es, ev).transitions;
      ts == [] || (|ts| == 1 && Fits(ceiling, es.job, TransitionEvent(es.job, ts[0], ev, head, at)))
  {
    hide EvaluateKill, Engine.DecideLiveness, LivenessMove, Fits, TransitionEvent;
    LivenessMoves(ceiling, es, ev);
    var ts := Engine.DecideLiveness(es, ev).transitions;
    if ts != [] {
      LivenessMoveFits(ceiling, es.job, ts[0], ev, head, at);
    }
  }

  lemma GiveBackIsActive(cfg: Config, s: Sys, seen: Seen, epoch: int)
    requires DecisionOf(cfg, s, seen, Engine.Release(epoch)).reject == None
    ensures HasActiveLease(s.job.state) && epoch == s.job.leaseEpoch
  {
    assert DecisionOf(cfg, s, seen, Engine.Release(epoch))
        == Engine.DecideRelease(EngineStateOf(cfg, s, seen, Engine.Release(epoch)), epoch);
  }

  /** Decide and the store agree on where a release leads, except for a spec review and a conflict. */
  lemma ReleaseTargetsAgreeExactly(es: Engine.EngineState, epoch: int)
    requires HasActiveLease(es.job.state) && epoch == es.epoch
    ensures var d := Engine.DecideRelease(es, epoch);
      |d.transitions| == 1
      && (d.transitions[0].to == ReleaseTarget(es.job.state) <==> es.job.state != SpecReview && es.job.state != ResolvingConflict)
  {
  }

  lemma ReleasedFits(ceiling: int, j: Job, e: Event)
    requires HasActiveLease(j.state) && SameEpoch(j, e) && e.toState == ReleaseTarget(j.state)
    requires e.body == Leasing(LeaseReleased(0)) || e.body == Leasing(LeaseReleased(1))
    ensures Fits(ceiling, j, e)
  {
  }

  lemma ExhaustionFits(ceiling: int, j: Job, e: Event, k: Job, park: Event)
    requires HasActiveLease(j.state) && e.toState == ReleaseTarget(j.state) && SameEpoch(j, e) && Lands(j, e, k)
    requires park.toState == NeedsHuman && park.leaseEpoch == j.leaseEpoch && park.body == Control(StateChanged(false))
    ensures Fits(ceiling, k, park)
  {
  }

  lemma ReleaseIsPath(ceiling: int, j: Job, failed: bool, noPenalty: bool, at: int)
    requires HasActiveLease(j.state)
    ensures Path(ceiling, j, ReleaseEvents(j, failed, noPenalty, at))
  {
    hide Fits, Step, Lands, Path;
    var es := ReleaseEvents(j, failed, noPenalty, at);
    ReleasedFits(ceiling, j, es[0]);
    if |es| == 1 {
      PathOfOne(ceiling, j, es[0]);
    } else {
      EventLands(ceiling, j, es[0]);
      ExhaustionFits(ceiling, j, es[0], Step(j, es[0]), es[1]);
      PathOfTwo(ceiling, j, es[0], es[1]);
    }
  }

  lemma DispatchFits(ceiling: int, H: Digest, es: Engine.EngineState, ev: Engine.EngineEvent, head: string, at: int)
    requires ev.MergeDispatch?
    ensures var ts := Engine.DecideMergeDispatch(H, es).transitions;
      ts == [] || (|ts| == 1 && Fits(ceiling, es.job, TransitionEvent(es.job, ts[0], ev, head, at)))
  {
    hide MergeReady, Verify, SelfMergeEligible;
  }

  /** A result may first start the worker. */
  lemma ResultFits(ceiling: int, es: Engine.EngineState, ev: Engine.EngineEvent, head: string, at: int)
    requires ev.WorkResult?
    ensures ResultMoves(ceiling, es.job, Engine.DecideWorkResult(es, ev.epoch).transitions, ev, head, at)
  {
  }

  lemma MeterFits(ceiling: int, cfg: Config, s: Sys, seen: Seen, epoch: int, delta: int, at: int)
    requires MeterDecision(cfg, s, seen, epoch, delta).reject == None
    ensures var e := MeterEvent(cfg, s, seen, epoch, delta, at);
      && Fits(ceiling, s.job, e) && e.body.Kill?
      && e.body.kill == if CostExceeded(s.job.costMicroUSD + delta, cfg.costCeilingMicroUSD) then CostEscalated(delta) else CostMetered(delta)
  {
    var es := EngineStateOf(cfg, s.(job := s.job.(costMicroUSD := s.job.costMicroUSD + delta)), seen, Engine.CostMeter(epoch));
    assert MeterDecision(cfg, s, seen, epoch, delta) == Engine.DecideCostMeter(es, epoch);
  }

  lemma ClaimFits(ceiling: int, cfg: Config, s: Sys, kind: ClaimKind, lease: Lease, lens: string, at: int)
    requires ClaimAllowed(cfg, s, kind, lease, lens)
    ensures Fits(ceiling, s.job, ClaimEvent(s.job, kind, lease, at))
  {
  }

  lemma HeadMoveFits(ceiling: int, j: Job, m: HeadMove, at: int)
    requires HeadMoveAllowed(j, m)
    ensures Fits(ceiling, j, HeadMoveEvent(j, m, at))
  {
  }

  lemma ControlMoveFits(ceiling: int, j: Job, m: ControlMove, at: int)
    requires ControlAllowed(j, m)
    ensures Fits(ceiling, j, ControlMoveEvent(j, m, at))
  {
  }

  lemma SpecMoveFits(ceiling: int, j: Job, m: SpecMove, at: int)
    requires SpecMoveAllowed(j, m)
    ensures Fits(ceiling, j, SpecMoveEvent(j, m, at))
  {
  }

  lemma PathOfOne(ceiling: int, j: Job, e: Event)
    requires Fits(ceiling, j, e)
    ensures Path(ceiling, j, [e])
  {
  }

  lemma PathOfTwo(ceiling: int, j: Job, d: Event, e: Event)
    requires Fits(ceiling, j, d) && Fits(ceiling, Step(j, d), e)
    ensures Path(ceiling, j, [d, e])
  {
  }

  /** A numbering is all that distinguishes the second event of a step. */
  lemma RenumberedFits(ceiling: int, j: Job, e: Event, n: int)
    requires Fits(ceiling, j, e)
    ensures Fits(ceiling, j, e.(jobSeq := n))
  {
  }

  lemma ClaimRecordFits(ceiling: int, j: Job, value: string, at: int)
    requires j.state == CodeReview
    ensures Fits(ceiling, j, ClaimRecord(j, VerdictClaim(value), at))
  {
  }

  lemma SpecClaimFits(ceiling: int, j: Job, claim: string, at: int)
    requires j.state == SpecReview
    ensures Fits(ceiling, j, ClaimRecord(j, SpecClaim(claim), at))
  {
  }

  lemma ReviewEventsArePath(ceiling: int, j: Job, ts: seq<Engine.Transition>, ev: Engine.EngineEvent, head: string,
      at: int)
    requires ev.ReviewClaim? && (ts == [] || (|ts| == 1 && ReviewMove(j, ts[0])))
    ensures Path(ceiling, j, EventsOf(j, ts, ev, head, at))
  {
  }

  lemma SpecReviewEventsArePath(ceiling: int, j: Job, ts: seq<Engine.Transition>, ev: Engine.EngineEvent,
      head: string, at: int)
    requires ev.SpecReviewClaim? && (ts == [] || (|ts| == 1 && SpecReviewMove(j, ts[0], ev)))
    ensures Path(ceiling, j, EventsOf(j, ts, ev, head, at))
  {
  }

  /** The calls that record nothing but their transitions. */
  predicate ResultMoves(ceiling: int, j: Job, ts: seq<Engine.Transition>, ev: Engine.EngineEvent, head: string,
      at: int) {
    || ts == []
    || (|ts| == 1 && Fits(ceiling, j, TransitionEvent(j, ts[0], ev, head, at)))
    || (|ts| == 2 && Fits(ceiling, j, TransitionEvent(j, ts[0], ev, head, at))
        && ts[0].kind == Engine.KindWorkerStarted && ts[1].kind == Engine.KindResultAccepted
        && ts[0].to == ts[1].from == Building && ts[1].to == ReviewPending && !ts[0].bumpEpoch && !ts[1].bumpEpoch)
  }

  /** Once the worker is started the result fits. */
  lemma LandedFits(ceiling: int, j: Job, started: Engine.Transition, landed: Engine.Transition, ev: Engine.EngineEvent,
      head: string, at: int, k: Job)
    requires Lands(j, TransitionEvent(j, started, ev, head, at), k)
    requires started.to == Building && !started.bumpEpoch && !landed.bumpEpoch
    requires landed.kind == Engine.KindResultAccepted && landed.from == Building && landed.to == ReviewPending
    ensures Fits(ceiling, k, TransitionEvent(j, landed, ev, head, at))
  {
  }

  lemma PlainEventsArePath(ceiling: int, j: Job, ts: seq<Engine.Transition>, ev: Engine.EngineEvent, head: string, at: int)
    requires !ev.ReviewClaim? && !ev.SpecReviewClaim? && ResultMoves(ceiling, j, ts, ev, head, at)
    ensures Path(ceiling, j, EventsOf(j, ts, ev, head, at))
  {
    hide Step, Fits, Lands, TransitionEvent;
    if |ts| == 1 {
      PathOfOne(ceiling, j, TransitionEvent(j, ts[0], ev, head, at));
    } else if |ts| == 2 {
      var started, landed := TransitionEvent(j, ts[0], ev, head, at), TransitionEvent(j, ts[1], ev, head, at);
      EventLands(ceiling, j, started);
      LandedFits(ceiling, j, ts[0], ts[1], ev, head, at, Step(j, started));
      RenumberedFits(ceiling, Step(j, started), landed, landed.jobSeq + 1);
      PathOfTwo(ceiling, j, started, landed.(jobSeq := landed.jobSeq + 1));
    } else if ev.Heartbeat? {
      AuditFits(ceiling, j, at);
      PathOfOne(ceiling, j, Moved(j, j.state, at, "", Note(Recorded)));
    }
  }

  lemma AuditFits(ceiling: int, j: Job, at: int)
    ensures Fits(ceiling, j, Moved(j, j.state, at, "", Note(Recorded)))
  {
  }

  lemma CallIsPath(cfg: Config, s: Sys, seen: Seen, ev: Engine.EngineEvent, head: string, at: int)
    requires !ev.CostMeter? && !ev.Release? && CountsAreCurrent(cfg, s, ev)
    ensures Path(cfg.ceiling, s.job, CallEvents(cfg, s, seen, ev, head, at))
  {
    var es, ts := EngineStateOf(cfg, s, seen, ev), DecisionOf(cfg, s, seen, ev).transitions;
    match ev {
      case ReviewClaim(_, _, _, _, _) => ReviewMoves(cfg.H, es, ev);
      case SpecReviewClaim(_, _, _, _, _, _, _, _) => SpecReviewMoves(cfg.H, es, ev);
      case WorkResult(_) => ResultFits(cfg.ceiling, es, ev, head, at);
      case Heartbeat(_, _, _, _) => HeartbeatFits(cfg.ceiling, es, ev, head, at);
      case LivenessVerdict(_, _, _) => LivenessFits(cfg.ceiling, es, ev, head, at);
      case MergeDispatch => DispatchFits(cfg.ceiling, cfg.H, es, ev, head, at);
    }
    if ev.ReviewClaim? {
      ReviewEventsArePath(cfg.ceiling, s.job, ts, ev, head, at);
    } else if ev.SpecReviewClaim? {
      SpecReviewEventsArePath(cfg.ceiling, s.job, ts, ev, head, at);
    } else {
      PlainEventsArePath(cfg.ceiling, s.job, ts, ev, head, at);
    }
  }

  /** The events of one step lead on from the job, one after the other. */
  lemma EmittedIsPath(cfg: Config, s: Sys, step: StepKind, at: int)
    requires Allowed(cfg, s, step)
    ensures Path(cfg.ceiling, s.job, Emitted(cfg, s, step, at))
  {
    hide Fits, DecisionOf, MeterDecision, Path;
    match step
    case Claim(kind, lease, lens) =>
      ClaimFits(cfg.ceiling, cfg, s, kind, lease, lens, at);
      PathOfOne(cfg.ceiling, s.job, ClaimEvent(s.job, kind, lease, at));
    case Call(seen, ev, head) => CallIsPath(cfg, s, seen, ev, head, at);
    case Meter(seen, epoch, delta) =>
      MeterFits(cfg.ceiling, cfg, s, seen, epoch, delta, at);
      PathOfOne(cfg.ceiling, s.job, MeterEvent(cfg, s, seen, epoch, delta, at));
    case GiveBack(seen, epoch, failed, noPenalty) =>
      GiveBackIsActive(cfg, s, seen, epoch);
      ReleaseIsPath(cfg.ceiling, s.job, failed, noPenalty, at);
    case MoveHead(m) =>
      HeadMoveFits(cfg.ceiling, s.job, m, at);
      PathOfOne(cfg.ceiling, s.job, HeadMoveEvent(s.job, m, at));
    case Operate(m) =>
      ControlMoveFits(cfg.ceiling, s.job, m, at);
      PathOfOne(cfg.ceiling, s.job, ControlMoveEvent(s.job, m, at));
    case Author(m) =>
      SpecMoveFits(cfg.ceiling, s.job, m, at);
      PathOfOne(cfg.ceiling, s.job, SpecMoveEvent(s.job, m, at));
    case Audit(note) => PathOfOne(cfg.ceiling, s.job, Moved(s.job, s.job.state, at, "", Note(note)));
  }

  /** The states that hold a lease are those a claim leads to, where its work goes on, and the two a
      merge waits in. */
  lemma ActiveStatesAreWorked(s: State)
    ensures HasActiveLease(s) <==> (exists kind: ClaimKind :: WorkedIn(kind) == s) || s in {Building, Merging, MergeHandoff}
    ensures LivenessEvaluable(s) <==> (exists kind: ClaimKind :: WorkedIn(kind) == s) || s == Building
  {
    assert WorkedIn(ForBuild) == Leased && WorkedIn(ForReview) == CodeReview && WorkedIn(ForConflict) == ResolvingConflict;
    assert WorkedIn(ForAuthoring) == SpecAuthoring && WorkedIn(ForSpecReview) == SpecReview;
  }

  // ---- which step appends what ----------------------------------------------------

  predicate Reviews(step: StepKind) { step.Call? && step.ev.ReviewClaim? }

  predicate Dispatches(step: StepKind) { step.Call? && step.ev.MergeDispatch? }

  predicate ReviewsSpec(step: StepKind) { step.Call? && step.ev.SpecReviewClaim? }

  predicate Requeues(step: StepKind) { step.Operate? && step.control.Requeue? }

  /** The events the run theorems turn on come from the steps they are meant for. */
  predicate AppendedBy(e: Event, step: StepKind) {
    match e.body
    case Leasing(b) => b.LeaseClaimed? || b.ReviewClaimed? ==> step.Claim? && e.toState == WorkedIn(step.kind)
    case Gate(b) => (b.ReviewApproved? || b.VerdictMinted? ==> Reviews(step)) && (b.MergeStarted? ==> Dispatches(step))
    case Speccing(b) => b.SpecSignoffMinted? || b.SpecAmended? ==> ReviewsSpec(step)
    case Control(b) => Resets(e) ==> Requeues(step)
    case Note(b) => b.VerdictClaim? ==> Reviews(step)
    case _ => true
  }

  lemma TransitionAppended(j: Job, t: Engine.Transition, seen: Seen, ev: Engine.EngineEvent, head: string, at: int,
      n: int)
    requires MadeBy(t.kind, ev)
    ensures AppendedBy(TransitionEvent(j, t, ev, head, at), Call(seen, ev, head))
    ensures AppendedBy(TransitionEvent(j, t, ev, head, at).(jobSeq := n), Call(seen, ev, head))
  {
  }

  lemma EventsAppended(j: Job, ts: seq<Engine.Transition>, seen: Seen, ev: Engine.EngineEvent, head: string, at: int)
    requires |ts| <= 2 && forall i :: 0 <= i < |ts| ==> MadeBy(ts[i].kind, ev)
    ensures var es := EventsOf(j, ts, ev, head, at); forall i :: 0 <= i < |es| ==> AppendedBy(es[i], Call(seen, ev, head))
  {
    hide TransitionEvent, MadeBy;
    if ts != [] {
      TransitionAppended(j, ts[0], seen, ev, head, at, TransitionEvent(j, ts[0], ev, head, at).jobSeq + 1);
      if |ts| == 2 {
        TransitionAppended(j, ts[1], seen, ev, head, at, TransitionEvent(j, ts[1], ev, head, at).jobSeq + 1);
      }
    }
  }

  lemma CallEventsAppended(cfg: Config, s: Sys, seen: Seen, ev: Engine.EngineEvent, head: string, at: int)
    ensures var es := CallEvents(cfg, s, seen, ev, head, at);
      forall i :: 0 <= i < |es| ==> AppendedBy(es[i], Call(seen, ev, head))
  {
    hide Engine.Decide, EventsOf, MadeBy, AppendedBy;
    DecisionKinds(cfg.H, EngineStateOf(cfg, s, seen, ev), ev);
    EventsAppended(s.job, DecisionOf(cfg, s, seen, ev).transitions, seen, ev, head, at);
  }

  lemma EmittedAppended(cfg: Config, s: Sys, step: StepKind, at: int)
    requires Allowed(cfg, s, step)
    ensures var es := Emitted(cfg, s, step, at); forall i :: 0 <= i < |es| ==> AppendedBy(es[i], step)
  {
    hide DecisionOf, MeterDecision, Approvers, CallEvents;
    if step.Call? {
      CallEventsAppended(cfg, s, step.seen, step.ev, step.head, at);
    }
  }

  // ---- the ledger is the job ----------------------------------------------------

  lemma FoldOne(j: Job, e: Event)
    ensures FoldFrom(j, [e]) == Step(j, e)
  {
  }

  lemma FoldNone(j: Job)
    ensures FoldFrom(j, []) == j
  {
  }

  lemma FoldTwo(j: Job, d: Event, e: Event)
    ensures FoldFrom(j, [d, e]) == Step(Step(j, d), e)
  {
    assert [d, e][1..] == [e];
    FoldOne(Step(j, d), e);
  }

  /** The job of the step system is by construction the fold of its ledger; what the store's own row
      has to do with it is the subject of module Rows. */
  lemma {:induction false} ProjectionIsFold(cfg: Config, r: Run)
    ensures JobOf(cfg, r) == FoldFrom(ZERO_JOB, SysOf(cfg, r).ledger)
  {
    match r
    case Start(created) => FoldOne(ZERO_JOB, created);
    case After(before, step, at) =>
      ProjectionIsFold(cfg, before);
      var s := SysOf(cfg, before);
      FoldIsIncremental(ZERO_JOB, s.ledger, Emitted(cfg, s, step, at));
  }

  lemma {:induction false} PathsJoin(ceiling: int, j: Job, earlier: seq<Event>, later: seq<Event>)
    requires Path(ceiling, j, earlier) && Path(ceiling, FoldFrom(j, earlier), later)
    ensures Path(ceiling, j, earlier + later)
    decreases |earlier|
  {
    hide Fits, Step;
    if earlier == [] {
      assert earlier + later == later;
    } else {
      assert (earlier + later)[1..] == earlier[1..] + later;
      PathsJoin(ceiling, Step(j, earlier[0]), earlier[1..], later);
    }
  }

  /** After its first event, which made the job born, the ledger is a path, and it leads to j. */
  predicate Traces(ceiling: int, born: Job, ledger: seq<Event>, j: Job) {
    ledger != [] && Path(ceiling, born, ledger[1..]) && j == FoldFrom(born, ledger[1..])
  }

  /** The job as its first event made it. */
  function Born(r: Run): Job { Step(ZERO_JOB, Created(r)) }

  lemma TailOfConcat(ledger: seq<Event>, es: seq<Event>)
    requires ledger != []
    ensures (ledger + es)[1..] == ledger[1..] + es
  {
  }

  lemma TraceStarts(ceiling: int, created: Event)
    ensures Traces(ceiling, Step(ZERO_JOB, created), [created], Step(ZERO_JOB, created))
  {
  }

  lemma TraceGrows(ceiling: int, born: Job, ledger: seq<Event>, j: Job, es: seq<Event>)
    requires Traces(ceiling, born, ledger, j) && Path(ceiling, j, es)
    ensures Traces(ceiling, born, ledger + es, FoldFrom(j, es))
  {
    var tail := ledger[1..];
    TailOfConcat(ledger, es);
    PathsJoin(ceiling, born, tail, es);
    FoldIsIncremental(born, tail, es);
  }

  /** Every run's ledger is a path through the diagram, and the job is where that path leads. */
  lemma {:induction false} LedgerIsPath(cfg: Config, r: Run)
    requires Legal(cfg, r)
    ensures var s := SysOf(cfg, r);
      && LegalStart(cfg, Created(r)) && s.ledger != [] && s.ledger[0] == Created(r)
      && Traces(cfg.ceiling, Born(r), s.ledger, s.job)
  {
    hide Allowed, Emitted, Traces;
    match r
    case Start(created) => TraceStarts(cfg.ceiling, created);
    case After(before, step, at) =>
      LedgerIsPath(cfg, before);
      var s := SysOf(cfg, before);
      EmittedIsPath(cfg, s, step, at);
      TraceGrows(cfg.ceiling, Born(r), s.ledger, s.job, Emitted(cfg, s, step, at));
  }

  lemma {:induction false} FoldEndsAtLastEvent(j: Job, events: seq<Event>)
    requires events != []
    ensures FoldFrom(j, events).jobSeq == events[|events| - 1].jobSeq
    decreases |events|
  {
    if |events| > 1 {
      FoldEndsAtLastEvent(Step(j, events[0]), events[1..]);
    }
  }

  lemma EmittedAreNumbered(cfg: Config, s: Sys, step: StepKind, at: int)
    ensures var es := Emitted(cfg, s, step, at);
      && |es| <= 2
      && forall i :: 0 <= i < |es| ==> es[i].jobSeq == s.job.jobSeq + i + 1
  {
    hide DecisionOf, MeterDecision;
  }

  /** Events are numbered 1, 2, 3, ... without a gap, and the projection is at the last one. */
  lemma {:induction false} LedgerIsGapless(cfg: Config, r: Run)
    requires Legal(cfg, r)
    ensures var s := SysOf(cfg, r);
      && s.job.jobSeq == |s.ledger|
      && forall i :: 0 <= i < |s.ledger| ==> s.ledger[i].jobSeq == i + 1
  {
    hide Allowed, Emitted;
    match r
    case Start(_) =>
    case After(before, step, at) =>
      LedgerIsGapless(cfg, before);
      var s := SysOf(cfg, before);
      var es := Emitted(cfg, s, step, at);
      EmittedAreNumbered(cfg, s, step, at);
      if es != [] {
        FoldEndsAtLastEvent(s.job, es);
      }
  }

  // ---- the job along its ledger ---------------------------------------------------

  /** The job once the first k events after its creation are folded. */
  function JobAt(born: Job, events: seq<Event>, k: nat): Job
    requires k <= |events|
  {
    FoldFrom(born, events[..k])
  }

  lemma {:induction false} PathSplits(ceiling: int, j: Job, earlier: seq<Event>, later: seq<Event>)
    requires Path(ceiling, j, earlier + later)
    ensures Path(ceiling, FoldFrom(j, earlier), later)
    decreases |earlier|
  {
    hide Fits, Step;
    if earlier == [] {
      assert earlier + later == later;
    } else {
      assert (earlier + later)[1..] == earlier[1..] + later;
      PathSplits(ceiling, Step(j, earlier[0]), earlier[1..], later);
    }
  }

  lemma FoldLast(j: Job, events: seq<Event>, k: nat)
    requires k < |events|
    ensures JobAt(j, events, k + 1) == Step(JobAt(j, events, k), events[k])
  {
    assert events[..k + 1] == events[..k] + [events[k]];
    FoldIsIncremental(j, events[..k], [events[k]]);
    FoldOne(JobAt(j, events, k), events[k]);
  }

  /** Each event of a path fits the job its predecessors lead to, and moves it on. */
  lemma PathStep(ceiling: int, born: Job, events: seq<Event>, k: nat)
    requires Path(ceiling, born, events) && k < |events|
    ensures Fits(ceiling, JobAt(born, events, k), events[k])
    ensures JobAt(born, events, k + 1) == Step(JobAt(born, events, k), events[k])
    ensures Lands(JobAt(born, events, k), events[k], JobAt(born, events, k + 1))
  {
    assert events == events[..k] + events[k..];
    PathSplits(ceiling, born, events[..k], events[k..]);
    assert events[k..][0] == events[k];
    FoldLast(born, events, k);
    EventLands(ceiling, JobAt(born, events, k), events[k]);
  }
}
