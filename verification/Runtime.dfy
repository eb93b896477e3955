/** The outer runtime as a step system: call Decide (or make a claim, or a control-plane move),
    append the resulting events to the ledger, fold. A run is the whole history of one job. Module
    Rows puts the row the store writes beside the fold. */
module Runtime {
  import opened Jobs
  import opened Verdicts
  import opened Ledger
  import opened Protocol
  import Engine
  import ContentResults

  /** What is fixed for a job over a run: the digest, the anti-thrash ceiling, the columns the
      ledger does not carry. */
  datatype Config = Config(
    H: Digest, ceiling: int, isEpic: bool, costCeilingMicroUSD: Option<int>, authorLens: string)

  /** What one Decide call is shown besides the job: facts, policy and content result may
      change from call to call. */
  datatype Seen = Seen(facts: Facts, policy: Policy, content: Option<ContentResults.Result>)

  datatype ClaimKind = ForBuild | ForReview | ForConflict | ForAuthoring | ForSpecReview

  /** The base or head moved under the job. */
  datatype HeadMove =
    | Supersede(baseSHA: string)
    | Rearm(baseSHA: string, headSHA: string)
    | Rebase(baseSHA: string, headSHA: string)
    | DetectConflict(baseSHA: string)
    | ResolveConflict(epoch: int, headSHA: string)

  /** Who parks a job for a human: the watchdog of stalled queues, the reconciler on a pull request
      that merged red or was closed, the sender of a GitHub write that never succeeds. */
  datatype Parker = Watchdog | MergedRed | ClosedPR | DeadLetter

  /** The operator, the janitor, the scheduler or the reconciler moves the job. Evict ends a parked
      job whose pull request was closed. */
  datatype ControlMove =
    | ClearDeps
    | FailCI
    | Unblock
    | Requeue(force: bool)
    | Park(reason: string, parker: Parker)
    | Evict
    | Cancel(force: bool)
    | HandOff(reason: string)
    | CompleteMerged

  datatype SpecMove =
    | Materialize(epoch: int, hash: string, version: int)
    | EditSpec(hash: string, version: int)
    | ResolveDesign(hash: string, version: int)

  datatype StepKind =
    // a lease claim: bumps the epoch and binds a worker
    | Claim(kind: ClaimKind, lease: Lease, lens: string)
    // a call of Decide; head is the commit a result or review reports
    | Call(seen: Seen, ev: Engine.EngineEvent, head: string)
    // a cost report: the meter is advanced before Decide sees it
    | Meter(seen: Seen, epoch: int, delta: int)
    // a worker gives its lease back: Decide says whether it may, the store where the job goes
    | GiveBack(seen: Seen, epoch: int, failed: bool, noPenalty: bool)
    | MoveHead(move: HeadMove)
    | Operate(control: ControlMove)
    | Author(spec: SpecMove)
    // a fact recorded for audit
    | Audit(note: NoteEvent)

  datatype Run =
    | Start(created: Event)
    | After(before: Run, step: StepKind, at: int)

  datatype Sys = Sys(ledger: seq<Event>, job: Job, reviewerLens: string)

  // ---- what the runtime counts from the ledger ---------------------------------

  /** Events that put a new head under review, and so start a new panel round. */
  predicate StartsRound(e: Event) {
    || (e.body.Leasing? && e.body.leasing.ResultAccepted?)
    || (e.body.Head? && (e.body.head.Rebased? || e.body.head.ConflictResolved? || e.body.head.AdoptRearmed?))
  }

  predicate ApprovedClaim(e: Event) {
    e.body.Note? && e.body.note.VerdictClaim? && e.body.note.claim == APPROVED
  }

  /** The distinct reviewers who approved since the head under review was established. */
  function Approvers(ledger: seq<Event>): set<string> {
    if ledger == [] then {}
    else
      var last := ledger[|ledger| - 1];
      if StartsRound(last) then {}
      else Approvers(ledger[..|ledger| - 1]) + (if ApprovedClaim(last) then {last.actor} else {})
  }

  // ---- events ------------------------------------------------------------------

  /** An event that moves the job on its own epoch. */
  function Moved(j: Job, to: State, at: int, why: string, body: Body): Event {
    Event(j.jobSeq + 1, j.state, to, j.leaseEpoch, "system", at, why, body)
  }

  /** An event that moves the job and fences its current lease. */
  function Fenced(j: Job, to: State, at: int, why: string, body: Body): Event {
    Moved(j, to, at, why, body).(leaseEpoch := j.leaseEpoch + 1)
  }

  /** Where a job waits for a claim, and where the claim takes it. */
  function ClaimableIn(kind: ClaimKind): State {
    match kind
    case ForBuild => Ready
    case ForReview => ReviewPending
    case ForConflict => ResolvingConflict
    case ForAuthoring => SpecAuthoring
    case ForSpecReview => SpecReview
  }

  function WorkedIn(kind: ClaimKind): State {
    match kind
    case ForBuild => Leased
    case ForReview => CodeReview
    case ForConflict => ResolvingConflict
    case ForAuthoring => SpecAuthoring
    case ForSpecReview => SpecReview
  }

  function ClaimEvent(j: Job, kind: ClaimKind, lease: Lease, at: int): Event {
    var body := if kind == ForReview || kind == ForSpecReview then LeaseEvent.ReviewClaimed(lease) else LeaseClaimed(lease);
    Fenced(j, WorkedIn(kind), at, "", Leasing(body)).(actor := lease.identity)
  }

  /** The event body a transition is recorded as. */
  function BodyOf(t: Engine.Transition, ev: Engine.EngineEvent, head: string): Body {
    match t.kind
    case KindAgentExited => Kill(AgentExited)
    case KindFastCancelled => Kill(FastCancelled(t.attemptsDelta))
    case KindCostEscalated => Kill(CostEscalated(0))
    case KindStallEscalated => Kill(StallEscalated(t.stallRevocationsDelta))
    case KindLeaseRevoked =>
      Kill(LeaseRevoked(t.attemptsDelta, t.stallRevocationsDelta, if t.to == Ready then EngWorker else NoRole))
    case KindWorkerStarted => Leasing(WorkerStarted)
    case KindResultAccepted => Leasing(ResultAccepted(head))
    case KindLeaseReleased => Leasing(LeaseReleased(t.attemptsDelta))
    case KindReviewApproved => Gate(ReviewApproved(head))
    case KindVerdictMinted => Gate(VerdictMinted(t.verdict))
    case KindReviewBounced => Gate(ReviewBounced(t.bouncesDelta))
    case KindBounceExhausted => Gate(BounceExhausted(t.bouncesDelta))
    case KindMergeStarted => Gate(MergeStarted)
    case KindMergeHandoff => Gate(MergeHandedOff)
    case KindSpecSignoffMinted => Speccing(SpecSignoffMinted(t.specSignoff))
    case KindSpecAmended =>
      if ev.SpecReviewClaim? then Speccing(SpecAmended(ev.amendedHash, ev.amendedVersion, t.specSignoff))
      else Speccing(SpecAmended("", 0, t.specSignoff))
    case KindSpecNeedsDesign => Speccing(SpecNeedsDesign)
    case KindSpecSuperseded => Speccing(SpecSuperseded("", 0))
    case KindSpecBounced => Speccing(SpecBounced(t.bouncesDelta))
  }

  const STALL := "stall"
  const ATTEMPTS := "attempts"
  const COST := "cost"
  const REVIEWER_REJECTIONS := "reviewer_rejections"

  /** Why an escalation was filed, for the human queue. */
  function ReasonOf(t: Engine.Transition, ev: Engine.EngineEvent): string {
    if t.to != NeedsHuman then ""
    else match ev
      case LivenessVerdict(_, governor, attempts) => if attempts && !governor then ATTEMPTS else STALL
      case ReviewClaim(_, value, _, prior, _) =>
        if value == CHANGES_REQUESTED && prior + 1 >= MAX_REVIEWER_REJECTIONS then REVIEWER_REJECTIONS else ""
      case SpecReviewClaim(_, claim, _, _, _, _, _, prior) =>
        if claim == CHANGES_REQUESTED && prior + 1 >= MAX_REVIEWER_REJECTIONS then REVIEWER_REJECTIONS else ""
      case _ => ""
  }

  /** A transition's event: on the live epoch, or on the next one when it ends the lease. */
  function TransitionEvent(j: Job, t: Engine.Transition, ev: Engine.EngineEvent, head: string, at: int): Event {
    Event(j.jobSeq + 1, t.from, t.to, if t.bumpEpoch then j.leaseEpoch + 1 else j.leaseEpoch,
          "system", at, ReasonOf(t, ev), BodyOf(t, ev, head))
  }

  /** The untrusted claim, recorded for audit before the gate's own transition. */
  function ClaimRecord(j: Job, claim: NoteEvent, at: int): Event {
    Moved(j, j.state, at, "", Note(claim)).(actor := j.lease.identity)
  }

  // ---- steps -------------------------------------------------------------------

  /** The store takes CI as red when the facts are about another artifact than the job's. */
  function Vetted(j: Job, facts: Facts): Facts {
    if (j.headSHA != "" && facts.headSHA != j.headSHA) || (j.baseSHA != "" && facts.baseSHA != j.baseSHA)
    then facts.(ciGreen := false) else facts
  }

  function EngineStateOf(cfg: Config, s: Sys, seen: Seen, ev: Engine.EngineEvent): Engine.EngineState {
    Engine.EngineState(s.job, cfg.isEpic, cfg.costCeilingMicroUSD, s.job.leaseEpoch,
      if ev.ReviewClaim? then Vetted(s.job, seen.facts) else seen.facts, seen.policy,
      Engine.SpecState(s.job.spec.contentHash, s.job.spec.version, cfg.authorLens, s.reviewerLens), seen.content)
  }

  function DecisionOf(cfg: Config, s: Sys, seen: Seen, ev: Engine.EngineEvent): Engine.Decision {
    Engine.Decide(cfg.H, EngineStateOf(cfg, s, seen, ev), ev)
  }

  /** The decision over a cost report, taken with the meter already advanced. */
  function MeterDecision(cfg: Config, s: Sys, seen: Seen, epoch: int, delta: int): Engine.Decision {
    var advanced := s.(job := s.job.(costMicroUSD := s.job.costMicroUSD + delta));
    DecisionOf(cfg, advanced, seen, Engine.CostMeter(epoch))
  }

  /** The attempt a release costs: a failed one always, one that abandons a build or a conflict
      unless it is excused. */
  function Penalty(j: Job, failed: bool, noPenalty: bool): int {
    var to := ReleaseTarget(j.state);
    if failed || (!noPenalty && (to == Ready || to == ResolvingConflict)) then 1 else 0
  }

  /** A penalty that uses up the attempts parks the job; no maximum means no cap. */
  predicate Exhausts(j: Job, penalty: int) {
    penalty == 1 && j.counters.maxAttempts > 0 && j.counters.attempts + 1 >= j.counters.maxAttempts
  }

  /** The counts the runtime reads from its own records before a call. */
  predicate CountsAreCurrent(cfg: Config, s: Sys, ev: Engine.EngineEvent) {
    && (ev.ReviewClaim? ==> ev.priorApprovals == |Approvers(s.ledger)|)
    && (ev.LivenessVerdict? ==>
          && LivenessEvaluable(s.job.state)
          && ev.governorCeilingReached == (cfg.ceiling > 0 && s.job.counters.stallRevocations + 1 >= cfg.ceiling)
          && ev.attemptsExhausted == (s.job.counters.attempts + 1 >= s.job.counters.maxAttempts))
  }

  predicate ClaimAllowed(cfg: Config, s: Sys, kind: ClaimKind, lease: Lease, lens: string) {
    && s.job.state == ClaimableIn(kind) && lease.id != ""
    && (kind == ForReview ==> lease.identity !in Approvers(s.ledger))
    && (kind == ForConflict ==> s.job.lease.id == "")
    && (kind == ForSpecReview ==> !(cfg.authorLens != "" && lens == cfg.authorLens))
  }

  predicate HeadMoveAllowed(j: Job, m: HeadMove) {
    if m.ResolveConflict? then j.state == ResolvingConflict && m.epoch == j.leaseEpoch else j.kind == BuildJob
  }

  predicate ControlAllowed(j: Job, m: ControlMove) {
    match m
    case ClearDeps => j.state == Blocked
    case FailCI => j.state == ReviewPending
    case Unblock => j.state == NeedsHuman
    case HandOff(_) => j.state == Merging || j.state == Mergeable
    case CompleteMerged => j.kind == BuildJob
    case Requeue(force) => force || !HasActiveLease(j.state)
    case Evict => j.state == NeedsHuman
    case Park(_, _) => j.state != Done && j.state != Cancelled
    case Cancel(force) => j.state != Done && j.state != Cancelled && (force || !HasActiveLease(j.state))
  }

  predicate SpecMoveAllowed(j: Job, m: SpecMove) {
    match m
    case Materialize(epoch, _, _) => j.state == SpecAuthoring && epoch == j.leaseEpoch
    case EditSpec(hash, _) => j.kind == SpecJob && hash != j.spec.contentHash && hash != ""
    case ResolveDesign(_, _) => j.state == NeedsDesign
  }

  /** When the runtime takes a step. */
  predicate Allowed(cfg: Config, s: Sys, step: StepKind) {
    match step
    case Claim(kind, lease, lens) => ClaimAllowed(cfg, s, kind, lease, lens)
    case Call(seen, ev, _) => !ev.CostMeter? && !ev.Release? && DecisionOf(cfg, s, seen, ev).reject == None && CountsAreCurrent(cfg, s, ev)
    case Meter(seen, epoch, delta) => MeterDecision(cfg, s, seen, epoch, delta).reject == None
    case GiveBack(seen, epoch, _, _) => DecisionOf(cfg, s, seen, Engine.Release(epoch)).reject == None
    case MoveHead(m) => HeadMoveAllowed(s.job, m)
    case Operate(m) => ControlAllowed(s.job, m)
    case Author(m) => SpecMoveAllowed(s.job, m)
    case Audit(note) => !note.VerdictClaim? && !note.SpecClaim?
  }

  /** The events of a call that decided on the transitions ts: a gate's claim is recorded first,
      a result may start the worker first; a heartbeat that changes nothing is still recorded. */
  function EventsOf(j: Job, ts: seq<Engine.Transition>, ev: Engine.EngineEvent, head: string, at: int): seq<Event> {
    if ts == [] then (if ev.Heartbeat? then [Moved(j, j.state, at, "", Note(Recorded))] else [])
    else
      var first := TransitionEvent(j, ts[0], ev, head, at);
      match ev
      case ReviewClaim(_, value, _, _, _) =>
        [ClaimRecord(j, VerdictClaim(value), at), first.(jobSeq := first.jobSeq + 1)]
      case SpecReviewClaim(_, claim, _, _, _, _, _, _) =>
        [ClaimRecord(j, SpecClaim(claim), at), first.(jobSeq := first.jobSeq + 1)]
      case _ =>
        if |ts| == 1 then [first]
        else
          var second := TransitionEvent(j, ts[1], ev, head, at);
          [first, second.(jobSeq := second.jobSeq + 1)]
  }

  function CallEvents(cfg: Config, s: Sys, seen: Seen, ev: Engine.EngineEvent, head: string, at: int): seq<Event> {
    EventsOf(s.job, DecisionOf(cfg, s, seen, ev).transitions, ev, head, at)
  }

  function MeterEvent(cfg: Config, s: Sys, seen: Seen, epoch: int, delta: int, at: int): Event {
    var j, ts := s.job, MeterDecision(cfg, s, seen, epoch, delta).transitions;
    if ts == [] then Moved(j, j.state, at, "", Kill(CostMetered(delta)))
    else Fenced(j, ts[0].to, at, COST, Kill(CostEscalated(delta)))
  }

  /** The release, and the escalation it leads to when it was the last attempt. */
  function ReleaseEvents(j: Job, failed: bool, noPenalty: bool, at: int): seq<Event> {
    var to, penalty := ReleaseTarget(j.state), Penalty(j, failed, noPenalty);
    var released := Moved(j, to, at, "", Leasing(LeaseReleased(penalty))).(actor := j.lease.identity);
    if Exhausts(j, penalty) then
      [released, Event(j.jobSeq + 2, to, NeedsHuman, j.leaseEpoch, "attempts-exhausted", at, ATTEMPTS, Control(StateChanged(false)))]
    else [released]
  }

  function HeadMoveEvent(j: Job, m: HeadMove, at: int): Event {
    match m
    case Supersede(base) => Fenced(j, Ready, at, "", Head(SupersededBy(base)))
    case Rearm(base, head) => Fenced(j, ReviewPending, at, "", Head(AdoptRearmed(base, head)))
    case Rebase(base, head) => Fenced(j, ReviewPending, at, "", Head(Rebased(base, head)))
    case DetectConflict(base) => Fenced(j, ResolvingConflict, at, "", Head(ConflictDetected(base)))
    case ResolveConflict(_, head) => Moved(j, ReviewPending, at, "", Head(ConflictResolved(head)))
  }

  function ControlMoveEvent(j: Job, m: ControlMove, at: int): Event {
    match m
    case ClearDeps => Moved(j, Ready, at, "", Intake(DepsCleared))
    case FailCI =>
      if j.counters.bounces + 1 > j.counters.maxBounces then Moved(j, NeedsHuman, at, "", Gate(BounceExhausted(1)))
      else Moved(j, Ready, at, "", Gate(ReviewBounced(1)))
    case Unblock => Fenced(j, EntryState(j), at, "", Control(JanitorUnblocked))
    case Requeue(_) => Fenced(j, EntryState(j), at, "", Control(StateChanged(true)))
    case Park(why, _) => Moved(j, NeedsHuman, at, why, Control(StateChanged(false)))
    case Evict => Moved(j, Cancelled, at, "", Control(StateChanged(false)))
    case Cancel(_) => Fenced(j, Cancelled, at, "", Control(StateChanged(false)))
    case HandOff(why) => Moved(j, MergeHandoff, at, why, Control(StateChanged(false)))
    case CompleteMerged => Moved(j, Done, at, "", Control(JobCompleted))
  }

  function SpecMoveEvent(j: Job, m: SpecMove, at: int): Event {
    match m
    case Materialize(_, hash, version) => Moved(j, SpecReview, at, "", Speccing(SpecAuthored(hash, version)))
    case EditSpec(hash, version) => Moved(j, SpecReview, at, "", Speccing(SpecSuperseded(hash, version)))
    case ResolveDesign(hash, version) =>
      Moved(j, SpecReview, at, "", Speccing(
        if hash == "" then DesignResolved(j.spec.contentHash, j.spec.version) else DesignResolved(hash, version)))
  }

  /** The events a step appends. */
  function Emitted(cfg: Config, s: Sys, step: StepKind, at: int): seq<Event> {
    match step
    case Claim(kind, lease, _) => [ClaimEvent(s.job, kind, lease, at)]
    case Call(seen, ev, head) => CallEvents(cfg, s, seen, ev, head, at)
    case Meter(seen, epoch, delta) => [MeterEvent(cfg, s, seen, epoch, delta, at)]
    case GiveBack(_, _, failed, noPenalty) => ReleaseEvents(s.job, failed, noPenalty, at)
    case MoveHead(m) => [HeadMoveEvent(s.job, m, at)]
    case Operate(m) => [ControlMoveEvent(s.job, m, at)]
    case Author(m) => [SpecMoveEvent(s.job, m, at)]
    case Audit(note) => [Moved(s.job, s.job.state, at, "", Note(note))]
  }

  /** Append the step's events and fold them. */
  function Next(cfg: Config, s: Sys, step: StepKind, at: int): Sys {
    var es := Emitted(cfg, s, step, at);
    Sys(s.ledger + es, FoldFrom(s.job, es),
        if step.Claim? && step.kind == ForSpecReview then step.lens else s.reviewerLens)
  }

  /** A job enters the ledger as a ready or blocked build, as a spec to author, or as an epic
      barrier already under review. */
  predicate LegalStart(cfg: Config, e: Event) {
    && e.jobSeq == 1 && e.leaseEpoch == 0 && e.escalationReason == ""
    && e.body.Intake? && e.body.intake.JobCreated?
    && match e.body.intake.kind
       case BuildJob => (e.toState == Ready || e.toState == Blocked)
       case SpecJob => e.toState == SpecAuthoring || (cfg.isEpic && e.toState == SpecReview)
       case _ => false
  }

  function SysOf(cfg: Config, r: Run): Sys {
    match r
    case Start(created) => Sys([created], Step(ZERO_JOB, created), "")
    case After(before, step, at) => Next(cfg, SysOf(cfg, before), step, at)
  }

  predicate Legal(cfg: Config, r: Run) {
    match r
    case Start(created) => LegalStart(cfg, created)
    case After(before, step, _) => Legal(cfg, before) && Allowed(cfg, SysOf(cfg, before), step)
  }

  /** The job at the end of a run. */
  function JobOf(cfg: Config, r: Run): Job { SysOf(cfg, r).job }

  /** The event the run began with. */
  function Created(r: Run): Event {
    if r.Start? then r.created else Created(r.before)
  }

  /** p is r, or a point r passed through on its way. */
  predicate PassedThrough(r: Run, p: Run) {
    r == p || (r.After? && PassedThrough(r.before, p))
  }
}
