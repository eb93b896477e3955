/** The transition diagram as the ledger sees it: which event may follow which job. Every event
    a run appends is an edge of this diagram (Runs.LedgerIsPath), so what is proved about its
    paths holds of every run. */
module Protocol {
  import opened Jobs
  import opened Ledger

  /** The stage a parked or requeued job re-enters. */
  function EntryState(j: Job): State {
    if j.kind == SpecJob then SpecAuthoring else Ready
  }

  /** Where a job goes whose worker gives its lease back: a review back to its queue, a conflict to
      the next resolver, anything else to the build queue. */
  function ReleaseTarget(s: State): State {
    match s
    case CodeReview => ReviewPending
    case SpecReview => SpecAuthoring
    case ResolvingConflict => ResolvingConflict
    case _ => Ready
  }

  /** The event keeps the lease epoch. */
  predicate SameEpoch(j: Job, e: Event) { e.leaseEpoch == j.leaseEpoch }

  /** The event fences whoever holds the current epoch. */
  predicate NextEpoch(j: Job, e: Event) { e.leaseEpoch == j.leaseEpoch + 1 }

  predicate Edge(j: Job, e: Event, from: State, to: State) { j.state == from && e.toState == to }

  predicate LeaseFits(j: Job, e: Event, b: LeaseEvent) {
    match b
    case LeaseClaimed(lease) =>
      && NextEpoch(j, e) && lease.id != ""
      && (Edge(j, e, Ready, Leased) || Edge(j, e, SpecAuthoring, SpecAuthoring)
          || (Edge(j, e, ResolvingConflict, ResolvingConflict) && j.lease.id == ""))
    case ReviewClaimed(lease) =>
      NextEpoch(j, e) && lease.id != "" && (Edge(j, e, ReviewPending, CodeReview) || Edge(j, e, SpecReview, SpecReview))
    case WorkerStarted => SameEpoch(j, e) && Edge(j, e, Leased, Building)
    case ResultAccepted(_) => SameEpoch(j, e) && Edge(j, e, Building, ReviewPending)
    case LeaseReleased(attempts) =>
      && SameEpoch(j, e) && HasActiveLease(j.state) && (attempts == 0 || attempts == 1)
      && e.toState == ReleaseTarget(j.state)
  }

  predicate GateFits(j: Job, e: Event, b: GateEvent) {
    SameEpoch(j, e) &&
    match b
    case ReviewApproved(_) => Edge(j, e, CodeReview, ReviewPending)
    case VerdictMinted(minted) => Edge(j, e, CodeReview, Mergeable) && minted.Some?
    case ReviewBounced(delta) =>
      && delta == 1
      && ((Edge(j, e, CodeReview, Ready) && j.counters.bounces + 1 < j.counters.maxBounces)
          || (Edge(j, e, ReviewPending, Ready) && j.counters.bounces + 1 <= j.counters.maxBounces))
    case BounceExhausted(delta) =>
      delta == 1 && e.toState == NeedsHuman && (j.state == CodeReview || j.state == ReviewPending || j.state == SpecReview)
    case MergeStarted => Edge(j, e, Mergeable, Merging)
    case MergeHandedOff => Edge(j, e, Mergeable, MergeHandoff)
  }

  predicate HeadFits(j: Job, e: Event, b: HeadEvent) {
    match b
    case SupersededBy(_) => NextEpoch(j, e) && j.kind == BuildJob && e.toState == Ready
    case AdoptRearmed(_, _) => NextEpoch(j, e) && j.kind == BuildJob && e.toState == ReviewPending
    case Rebased(_, _) => NextEpoch(j, e) && j.kind == BuildJob && e.toState == ReviewPending
    case ConflictDetected(_) => NextEpoch(j, e) && j.kind == BuildJob && e.toState == ResolvingConflict
    case ConflictResolved(_) => SameEpoch(j, e) && Edge(j, e, ResolvingConflict, ReviewPending)
  }

  predicate SpecFits(j: Job, e: Event, b: SpecEvent) {
    SameEpoch(j, e) &&
    match b
    case SpecAuthored(_, _) => Edge(j, e, SpecAuthoring, SpecReview)
    case SpecSignoffMinted(signoff) => Edge(j, e, SpecReview, Done) && signoff.Some?
    case SpecAmended(hash, _, signoff) => Edge(j, e, SpecReview, Done) && signoff.Some? && hash != ""
    case SpecNeedsDesign => Edge(j, e, SpecReview, NeedsDesign)
    case SpecBounced(delta) => Edge(j, e, SpecReview, SpecAuthoring) && delta == 1
    case SpecSuperseded(hash, _) =>
      || (Edge(j, e, SpecReview, SpecAuthoring) && hash == "")
      || (j.kind == SpecJob && e.toState == SpecReview && hash != "" && hash != j.spec.contentHash)
    case DesignResolved(_, _) => Edge(j, e, NeedsDesign, SpecReview)
  }

  /** Where a job goes that is taken from its worker: back to the queue its worker came from, a
      spec under review back to its author. */
  predicate Rearms(from: State, to: State) {
    || (to == Ready && (from == Leased || from == Building || from == Merging || from == MergeHandoff))
    || (to == ReviewPending && from == CodeReview)
    || (to == SpecAuthoring && (from == SpecAuthoring || from == SpecReview))
    || (to == ResolvingConflict && from == ResolvingConflict)
  }

  /** ceiling is the anti-thrash governor: a revocation that would reach it escalates instead. */
  predicate KillFits(ceiling: int, j: Job, e: Event, b: KillEvent) {
    HasActiveLease(j.state) &&
    match b
    case LeaseRevoked(attempts, stalls, _) =>
      && NextEpoch(j, e) && LivenessEvaluable(j.state) && Rearms(j.state, e.toState)
      && attempts == 1 && stalls == 1 && (ceiling > 0 ==> j.counters.stallRevocations + 1 < ceiling)
    case FastCancelled(attempts) => NextEpoch(j, e) && Rearms(j.state, e.toState) && attempts == 1
    case StallEscalated(stalls) => NextEpoch(j, e) && LivenessEvaluable(j.state) && e.toState == NeedsHuman && stalls == 1
    case AgentExited => NextEpoch(j, e) && e.toState == Failed
    case CostEscalated(_) => NextEpoch(j, e) && e.toState == NeedsHuman
    case CostMetered(_) => SameEpoch(j, e) && e.toState == j.state
  }

  predicate ControlFits(j: Job, e: Event, b: ControlEvent) {
    match b
    case StateChanged(reset) =>
      if reset then NextEpoch(j, e) && e.toState == EntryState(j)
      else
        && j.state != Done && j.state != Cancelled
        && ((SameEpoch(j, e) && e.toState == NeedsHuman)
            || (SameEpoch(j, e) && e.toState == MergeHandoff && (j.state == Merging || j.state == Mergeable))
            || (NextEpoch(j, e) && e.toState == Cancelled)
            || (SameEpoch(j, e) && j.state == NeedsHuman && e.toState == Cancelled))
    case JanitorUnblocked => NextEpoch(j, e) && j.state == NeedsHuman && e.toState == EntryState(j)
    case JobCompleted => SameEpoch(j, e) && j.kind == BuildJob && e.toState == Done
  }

  predicate NoteFits(j: Job, e: Event, b: NoteEvent) {
    && SameEpoch(j, e) && e.toState == j.state
    && (b.VerdictClaim? ==> j.state == CodeReview)
    && (b.SpecClaim? ==> j.state == SpecReview)
  }

  /** e is an event the runtime may append to job j. */
  predicate Fits(ceiling: int, j: Job, e: Event) {
    match e.body
    case Intake(b) => b.DepsCleared? && SameEpoch(j, e) && Edge(j, e, Blocked, Ready)
    case Leasing(b) => LeaseFits(j, e, b)
    case Gate(b) => GateFits(j, e, b)
    case Head(b) => HeadFits(j, e, b)
    case Speccing(b) => SpecFits(j, e, b)
    case Kill(b) => KillFits(ceiling, j, e, b)
    case Control(b) => ControlFits(j, e, b)
    case Note(b) => NoteFits(j, e, b)
  }

  /** events lead on from job j, each fitting where the ones before it lead. */
  predicate Path(ceiling: int, j: Job, events: seq<Event>)
    decreases |events|
  {
    events == [] || (Fits(ceiling, j, events[0]) && Path(ceiling, Step(j, events[0]), events[1..]))
  }

  // ---- where an event leads -----------------------------------------------------

  /** Gate and spec outcomes release the lease; so does everything that ends it by force. */
  function LeaseAfter(j: Job, e: Event): Lease {
    match e.body
    case Intake(_) => j.lease
    case Leasing(b) => (
      match b
      case LeaseClaimed(lease) => lease
      case ReviewClaimed(lease) => lease
      case WorkerStarted => j.lease
      case _ => NO_LEASE)
    case Gate(b) => if b.MergeStarted? || b.MergeHandedOff? then j.lease else NO_LEASE
    case Head(_) => NO_LEASE
    case Speccing(b) => if b.DesignResolved? then j.lease else NO_LEASE
    case Kill(b) => if b.CostMetered? then j.lease else NO_LEASE
    case Control(b) => if b.JanitorUnblocked? then NO_LEASE else j.lease
    case Note(_) => j.lease
  }

  predicate Resets(e: Event) { e.body.Control? && e.body.control.StateChanged? && e.body.control.resetCounters }

  function BouncesAfter(j: Job, e: Event): int {
    match e.body
    case Gate(ReviewBounced(n)) => j.counters.bounces + n
    case Gate(BounceExhausted(n)) => j.counters.bounces + n
    case Speccing(SpecBounced(n)) => j.counters.bounces + n
    case _ => if Resets(e) then 0 else j.counters.bounces
  }

  function StallsAfter(j: Job, e: Event): int {
    match e.body
    case Kill(LeaseRevoked(_, n, _)) => j.counters.stallRevocations + n
    case Kill(StallEscalated(n)) => j.counters.stallRevocations + n
    case _ => if Resets(e) then 0 else j.counters.stallRevocations
  }

  function AttemptsAfter(j: Job, e: Event): int {
    match e.body
    case Leasing(LeaseReleased(n)) => j.counters.attempts + n
    case Kill(LeaseRevoked(n, _, _)) => j.counters.attempts + n
    case Kill(FastCancelled(n)) => j.counters.attempts + n
    case _ => if Resets(e) then 0 else j.counters.attempts
  }

  function CostAfter(j: Job, e: Event): int {
    match e.body
    case Kill(CostMetered(n)) => j.costMicroUSD + n
    case Kill(CostEscalated(n)) => j.costMicroUSD + n
    case _ => j.costMicroUSD
  }

  /** k is j moved on by e, as far as the columns a claim or a decision hangs on. */
  predicate Lands(j: Job, e: Event, k: Job) {
    && k.kind == j.kind && k.state == e.toState && k.leaseEpoch == e.leaseEpoch && k.lease == LeaseAfter(j, e)
    && k.counters.bounces == BouncesAfter(j, e) && k.counters.maxBounces == j.counters.maxBounces
    && k.counters.stallRevocations == StallsAfter(j, e)
    && k.counters.attempts == AttemptsAfter(j, e) && k.counters.maxAttempts == j.counters.maxAttempts
    && k.costMicroUSD == CostAfter(j, e)
  }

  lemma LeaseEventLands(j: Job, e: Event)
    requires e.body.Leasing? && LeaseFits(j, e, e.body.leasing)
    ensures Lands(j, e, Derived(AppliedLeasing(j, e, e.body.leasing), e))
  {
  }

  lemma GateEventLands(j: Job, e: Event)
    requires e.body.Gate? && GateFits(j, e, e.body.gate)
    ensures Lands(j, e, Derived(AppliedGate(j, e, e.body.gate), e))
  {
  }

  lemma HeadEventLands(j: Job, e: Event)
    requires e.body.Head? && HeadFits(j, e, e.body.head)
    ensures Lands(j, e, Derived(AppliedHead(j, e, e.body.head), e))
  {
  }

  lemma SpecEventLands(j: Job, e: Event)
    requires e.body.Speccing? && SpecFits(j, e, e.body.speccing)
    ensures Lands(j, e, Derived(AppliedSpec(j, e, e.body.speccing), e))
  {
  }

  lemma KillEventLands(ceiling: int, j: Job, e: Event)
    requires e.body.Kill? && KillFits(ceiling, j, e, e.body.kill)
    ensures Lands(j, e, Derived(AppliedKill(j, e, e.body.kill), e))
  {
  }

  lemma ControlEventLands(j: Job, e: Event)
    requires e.body.Control? && ControlFits(j, e, e.body.control)
    ensures Lands(j, e, Derived(AppliedControl(j, e, e.body.control), e))
  {
  }

  lemma NoteEventLands(j: Job, e: Event)
    requires e.body.Note? && NoteFits(j, e, e.body.note)
    ensures Lands(j, e, Derived(AppliedNote(j, e.body.note), e))
  {
  }

  /** Whatever the kind, the fold of a fitting event puts the job in the event's target state,
      on the event's epoch, and holds exactly the lease its kind leaves. */
  lemma EventLands(ceiling: int, j: Job, e: Event)
    requires Fits(ceiling, j, e)
    ensures Lands(j, e, Step(j, e))
  {
    match e.body
    case Intake(_) =>
    case Leasing(_) => LeaseEventLands(j, e);
    case Gate(_) => GateEventLands(j, e);
    case Head(_) => HeadEventLands(j, e);
    case Speccing(_) => SpecEventLands(j, e);
    case Kill(_) => KillEventLands(ceiling, j, e);
    case Control(_) => ControlEventLands(j, e);
    case Note(_) => NoteEventLands(j, e);
  }

  // ---- leasability -------------------------------------------------------------

  /** The capabilities each claimable build state folds to. */
  predicate CapsMatchState(j: Job) {
    && ((j.state == Ready || j.state == Leased || j.state == Building) ==> j.requiredCapabilities == [RoleTag(EngWorker)])
    && ((j.state == ReviewPending || j.state == CodeReview) ==> j.requiredCapabilities == [RoleTag(CodeReviewer)])
    && (j.state == ResolvingConflict ==> j.requiredCapabilities == [RoleTag(ConflictResolver)])
  }

  /** A build job never enters a stage of the spec flow. */
  predicate BuildStage(j: Job) {
    && j.kind == BuildJob && j.state != Unset && j.state != SpecAuthoring && j.state != SpecReview
    && j.state != NeedsDesign && j.state != Backlog && j.state != Quiescent
  }

  /** What leasability needs of a job, besides where leases are held. */
  predicate Leasable(j: Job) {
    BuildStage(j) && CapsMatchState(j)
  }

  lemma LeaseEventKeepsLeasable(j: Job, e: Event, b: LeaseEvent)
    requires Leasable(j) && LeaseFits(j, e, b)
    ensures Leasable(Derived(AppliedLeasing(j, e, b), e))
  {
  }

  lemma GateEventKeepsLeasable(j: Job, e: Event, b: GateEvent)
    requires Leasable(j) && GateFits(j, e, b)
    ensures Leasable(Derived(AppliedGate(j, e, b), e))
  {
  }

  lemma HeadEventKeepsLeasable(j: Job, e: Event, b: HeadEvent)
    requires Leasable(j) && HeadFits(j, e, b)
    ensures Leasable(Derived(AppliedHead(j, e, b), e))
  {
  }

  lemma KillEventKeepsLeasable(ceiling: int, j: Job, e: Event, b: KillEvent)
    requires Leasable(j) && KillFits(ceiling, j, e, b)
    ensures Leasable(Derived(AppliedKill(j, e, b), e))
  {
  }

  lemma ControlEventKeepsLeasable(j: Job, e: Event, b: ControlEvent)
    requires Leasable(j) && ControlFits(j, e, b)
    ensures Leasable(Derived(AppliedControl(j, e, b), e))
  {
  }

  lemma NoteEventKeepsLeasable(j: Job, e: Event, b: NoteEvent)
    requires Leasable(j) && NoteFits(j, e, b)
    ensures Leasable(Derived(AppliedNote(j, b), e))
  {
  }

  lemma EventKeepsLeasable(ceiling: int, j: Job, e: Event)
    requires Leasable(j) && Fits(ceiling, j, e)
    ensures Leasable(Step(j, e))
  {
    match e.body
    case Intake(b) =>
    case Leasing(b) => LeaseEventKeepsLeasable(j, e, b);
    case Gate(b) => GateEventKeepsLeasable(j, e, b);
    case Head(b) => HeadEventKeepsLeasable(j, e, b);
    case Speccing(b) =>
    case Kill(b) => KillEventKeepsLeasable(ceiling, j, e, b);
    case Control(b) => ControlEventKeepsLeasable(j, e, b);
    case Note(b) => NoteEventKeepsLeasable(j, e, b);
  }

  /** A lease is held only in a state a worker works in. */
  predicate LeaseMatchesState(j: Job) {
    j.lease.id != "" ==> (j.state == Leased || j.state == Building || j.state == CodeReview || j.state == ResolvingConflict)
  }

  /** Events whose fold does not release the lease though the state they lead to has no worker. */
  predicate LeavesLeaseBehind(e: Event) {
    e.body.Control? && (e.body.control.StateChanged? || e.body.control.JobCompleted?)
  }

  /** The lease clause survives an event exactly unless that event leaves a held lease behind. */
  lemma EventKeepsLeaseState(ceiling: int, j: Job, e: Event, k: Job)
    requires BuildStage(j) && LeaseMatchesState(j) && Fits(ceiling, j, e) && Lands(j, e, k)
    ensures LeaseMatchesState(k) <==> !(LeavesLeaseBehind(e) && j.lease.id != "")
  {
  }
}
