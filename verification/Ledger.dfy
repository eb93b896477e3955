/** The event ledger and its fold into the job projection (internal/ledger/ledger.go). The
    event kinds are grouped by the part of the system that appends them. */
module Ledger {
  import opened Jobs

  /** A job enters the ledger, or becomes leasable. */
  datatype IntakeEvent =
    | JobCreated(kind: JobKind, role: Role, baseSHA: string, caps: seq<Capability>, specContentHash: string, specVersion: int)
    | DepsCleared
    | Adopted
    | Backlogged(kind: JobKind, role: Role)
    | Promoted(role: Role)
    | IssueAdopted(role: Role)

  /** A worker takes a lease, works under it, gives it back. */
  datatype LeaseEvent =
    | LeaseClaimed(lease: Lease)
    | ReviewClaimed(lease: Lease)
    | WorkerStarted
    | ResultAccepted(headSHA: string)
    | LeaseReleased(attemptsDelta: int)

  /** Outcomes of the code-review gate and of merge dispatch. */
  datatype GateEvent =
    | VerdictMinted(minted: Option<Verdict>)
    | ReviewBounced(bouncesDelta: int)
    | ReviewApproved(headSHA: string)
    | BounceExhausted(bouncesDelta: int)
    | MergeHandedOff
    | MergeStarted

  /** The base or head under review moved. */
  datatype HeadEvent =
    | SupersededBy(baseSHA: string)
    | AdoptRearmed(baseSHA: string, headSHA: string)
    | Rebased(baseSHA: string, headSHA: string)
    | ConflictDetected(baseSHA: string)
    | ConflictResolved(headSHA: string)

  /** The spec flow. */
  datatype SpecEvent =
    | SpecAuthored(specContentHash: string, specVersion: int)
    | SpecSignoffMinted(signoff: Option<SpecSignoff>)
    | SpecBounced(bouncesDelta: int)
    | SpecSuperseded(specContentHash: string, specVersion: int)
    | SpecAmended(specContentHash: string, specVersion: int, signoff: Option<SpecSignoff>)
    | SpecNeedsDesign
    | DesignResolved(specContentHash: string, specVersion: int)

  /** A lease is taken away, and the meter that may be why. */
  datatype KillEvent =
    | LeaseRevoked(attemptsDelta: int, stallRevocationsDelta: int, role: Role)
    | StallEscalated(stallRevocationsDelta: int)
    | AgentExited
    | FastCancelled(attemptsDelta: int)
    | CostMetered(costDelta: int)
    | CostEscalated(costDelta: int)

  /** An operator, the janitor or the merge reconciler moves the job. */
  datatype ControlEvent =
    | StateChanged(resetCounters: bool)
    | JanitorUnblocked
    | JobCompleted

  /** Recorded without moving the job. `Recorded` stands for the kinds that change no column of
      the model. */
  datatype NoteEvent =
    | VerdictClaim(claim: string)
    | SpecClaim(claim: string)
    | PROpened(headSHA: string)
    | BaseRefreshed(baseSHA: string)
    | Recorded

  datatype Body =
    | Intake(intake: IntakeEvent)
    | Leasing(leasing: LeaseEvent)
    | Gate(gate: GateEvent)
    | Head(head: HeadEvent)
    | Speccing(speccing: SpecEvent)
    | Kill(kill: KillEvent)
    | Control(control: ControlEvent)
    | Note(note: NoteEvent)

  datatype Event = Event(
    jobSeq: int, fromState: State, toState: State, leaseEpoch: int,
    actor: string, createdAt: int, escalationReason: string, body: Body)

  // ---- the fold, kind by kind ----------------------------------------------------

  function OrElse(s: string, fallback: string): string {
    if s != "" then s else fallback
  }

  function AppliedIntake(j: Job, e: Event, b: IntakeEvent): Job {
    match b
    case JobCreated(kind, role, baseSHA, caps, hash, version) =>
      j.(kind := kind, state := e.toState, role := role, requiredCapabilities := caps, baseSHA := baseSHA,
         counters := j.counters.(maxAttempts := DEFAULT_MAX_ATTEMPTS, maxBounces := DEFAULT_MAX_BOUNCES),
         spec := j.spec.(contentHash := hash, version := version))
    case DepsCleared => j.(state := e.toState)
    case Adopted => j.(state := e.toState)
    case Backlogged(kind, role) =>
      j.(kind := kind, state := e.toState, role := role, requiredCapabilities := [RoleTag(role)],
         counters := j.counters.(maxAttempts := DEFAULT_MAX_ATTEMPTS, maxBounces := DEFAULT_MAX_BOUNCES))
    case Promoted(role) => j.(state := e.toState, role := role)
    case IssueAdopted(role) => j.(state := e.toState, role := role)
  }

  function AppliedLeasing(j: Job, e: Event, b: LeaseEvent): Job {
    match b
    case LeaseClaimed(lease) => j.(state := e.toState, leaseEpoch := e.leaseEpoch, lease := lease)
    case ReviewClaimed(lease) =>
      j.(state := e.toState, role := CodeReviewer, leaseEpoch := e.leaseEpoch, lease := lease)
    case WorkerStarted => j.(state := e.toState)
    case ResultAccepted(head) =>
      j.(state := e.toState, requiredCapabilities := [RoleTag(CodeReviewer)], headSHA := head, lease := NO_LEASE)
    case LeaseReleased(n) =>
      j.(state := e.toState, counters := j.counters.(attempts := j.counters.attempts + n), lease := NO_LEASE)
  }

  function AppliedGate(j: Job, e: Event, b: GateEvent): Job {
    match b
    case VerdictMinted(minted) =>
      j.(state := e.toState, verdict := minted, lease := NO_LEASE,
         headSHA := if minted.Some? then minted.value.headSHA else j.headSHA,
         baseSHA := if minted.Some? then OrElse(minted.value.baseSHA, j.baseSHA) else j.baseSHA)
    case ReviewBounced(n) =>
      j.(state := e.toState, role := EngWorker, requiredCapabilities := [RoleTag(EngWorker)], lease := NO_LEASE,
         counters := j.counters.(bounces := j.counters.bounces + n))
    case ReviewApproved(head) =>
      j.(state := e.toState, role := EngWorker, requiredCapabilities := [RoleTag(CodeReviewer)], lease := NO_LEASE,
         headSHA := OrElse(head, j.headSHA))
    case BounceExhausted(n) =>
      j.(state := e.toState, counters := j.counters.(bounces := j.counters.bounces + n), lease := NO_LEASE)
    case MergeHandedOff => j.(state := e.toState)
    case MergeStarted => j.(state := e.toState)
  }

  function AppliedHead(j: Job, e: Event, b: HeadEvent): Job {
    match b
    case SupersededBy(base) =>
      j.(state := e.toState, role := EngWorker, requiredCapabilities := [RoleTag(EngWorker)],
         leaseEpoch := e.leaseEpoch, verdict := None, headSHA := "", baseSHA := OrElse(base, j.baseSHA), lease := NO_LEASE)
    case AdoptRearmed(base, head) =>
      j.(state := e.toState, role := CodeReviewer, requiredCapabilities := [RoleTag(CodeReviewer)],
         leaseEpoch := e.leaseEpoch, verdict := None, headSHA := head, baseSHA := base, lease := NO_LEASE)
    case Rebased(base, head) =>
      j.(state := e.toState, role := EngWorker, requiredCapabilities := [RoleTag(CodeReviewer)],
         leaseEpoch := e.leaseEpoch, verdict := None, headSHA := head, baseSHA := OrElse(base, j.baseSHA), lease := NO_LEASE)
    case ConflictDetected(base) =>
      j.(state := e.toState, role := ConflictResolver, requiredCapabilities := [RoleTag(ConflictResolver)],
         leaseEpoch := e.leaseEpoch, verdict := None, baseSHA := OrElse(base, j.baseSHA), lease := NO_LEASE)
    case ConflictResolved(head) =>
      j.(state := e.toState, role := EngWorker, requiredCapabilities := [RoleTag(CodeReviewer)],
         verdict := None, headSHA := head, lease := NO_LEASE)
  }

  /** Rebind the spec bytes when the event names them. */
  function Rebound(spec: SpecBinding, hash: string, version: int): SpecBinding {
    if hash != "" then spec.(contentHash := hash, version := version) else spec
  }

  const DESIGN_ESCALATION := "design"

  function AppliedSpec(j: Job, e: Event, b: SpecEvent): Job {
    match b
    case SpecAuthored(hash, version) =>
      j.(state := e.toState, spec := j.spec.(contentHash := hash, version := version), lease := NO_LEASE)
    case SpecSignoffMinted(signoff) =>
      j.(state := e.toState, spec := j.spec.(signoff := signoff), lease := NO_LEASE)
    case SpecBounced(n) =>
      j.(state := e.toState, counters := j.counters.(bounces := j.counters.bounces + n), lease := NO_LEASE)
    case SpecSuperseded(hash, version) =>
      j.(state := e.toState, spec := Rebound(j.spec, hash, version).(signoff := None), lease := NO_LEASE)
    case SpecAmended(hash, version, signoff) =>
      j.(state := e.toState, spec := Rebound(j.spec, hash, version).(signoff := signoff), lease := NO_LEASE)
    case SpecNeedsDesign => j.(state := e.toState, escalationReason := DESIGN_ESCALATION, lease := NO_LEASE)
    case DesignResolved(hash, version) =>
      j.(state := e.toState, escalationReason := "", spec := Rebound(j.spec, hash, version))
  }

  function AppliedKill(j: Job, e: Event, b: KillEvent): Job {
    match b
    case LeaseRevoked(n, m, role) =>
      j.(state := e.toState, leaseEpoch := e.leaseEpoch, lease := NO_LEASE,
         counters := j.counters.(attempts := j.counters.attempts + n, stallRevocations := j.counters.stallRevocations + m),
         role := if e.toState == Ready && role != NoRole then role else j.role)
    case StallEscalated(m) =>
      j.(state := e.toState, leaseEpoch := e.leaseEpoch, lease := NO_LEASE,
         counters := j.counters.(stallRevocations := j.counters.stallRevocations + m))
    case AgentExited => j.(state := e.toState, leaseEpoch := e.leaseEpoch, lease := NO_LEASE)
    case FastCancelled(n) =>
      j.(state := e.toState, leaseEpoch := e.leaseEpoch, lease := NO_LEASE,
         counters := j.counters.(attempts := j.counters.attempts + n))
    case CostMetered(delta) => j.(costMicroUSD := j.costMicroUSD + delta)
    case CostEscalated(delta) =>
      j.(state := e.toState, leaseEpoch := e.leaseEpoch, lease := NO_LEASE, costMicroUSD := j.costMicroUSD + delta,
         overBudget := true, escalationReason := e.escalationReason)
  }

  function AppliedControl(j: Job, e: Event, b: ControlEvent): Job {
    match b
    case StateChanged(reset) =>
      var moved := j.(state := e.toState, leaseEpoch := e.leaseEpoch);
      if reset then
        moved.(counters := j.counters.(attempts := 0, bounces := 0, stallRevocations := 0), headSHA := "", verdict := None)
      else moved
    case JanitorUnblocked =>
      j.(state := e.toState, leaseEpoch := e.leaseEpoch, headSHA := "", verdict := None, lease := NO_LEASE)
    case JobCompleted => j.(state := e.toState)
  }

  function AppliedNote(j: Job, b: NoteEvent): Job {
    match b
    case PROpened(head) => j.(headSHA := OrElse(head, j.headSHA))
    case BaseRefreshed(base) => j.(baseSHA := base)
    case VerdictClaim(_) => j
    case SpecClaim(_) => j
    case Recorded => j
  }

  /** What the event kind itself writes. */
  function Applied(j: Job, e: Event): Job {
    match e.body
    case Intake(b) => AppliedIntake(j, e, b)
    case Leasing(b) => AppliedLeasing(j, e, b)
    case Gate(b) => AppliedGate(j, e, b)
    case Head(b) => AppliedHead(j, e, b)
    case Speccing(b) => AppliedSpec(j, e, b)
    case Kill(b) => AppliedKill(j, e, b)
    case Control(b) => AppliedControl(j, e, b)
    case Note(b) => AppliedNote(j, b)
  }

  /** A state where the job waits for a human. */
  predicate HumanGate(s: State) { s == NeedsHuman || s == NeedsDesign }

  /** The role that works a stage with exactly one kind of claimant; NoRole elsewhere. */
  function StageRole(state: State, kind: JobKind): Role {
    if state == Ready && kind == BuildJob then EngWorker
    else if state == SpecAuthoring then SpecAuthor
    else if state == SpecReview then SpecReviewer
    else if state == ResolvingConflict then ConflictResolver
    else NoRole
  }

  /** The columns derived from the state after every event, and the cursor: the human-gate
      columns live only while the job is parked, and a stage with one kind of claimant fixes
      role and capabilities. */
  function Derived(j: Job, e: Event): Job {
    var staffed := StageRole(j.state, j.kind);
    j.(escalationReason := if HumanGate(j.state) then OrElse(e.escalationReason, j.escalationReason) else "",
       overBudget := HumanGate(j.state) && j.overBudget,
       role := if staffed != NoRole then staffed else j.role,
       requiredCapabilities := if staffed != NoRole then [RoleTag(staffed)] else j.requiredCapabilities,
       jobSeq := e.jobSeq)
  }

  /** One turn of the fold. */
  function Step(j: Job, e: Event): Job {
    Derived(Applied(j, e), e)
  }

  /** The projection of a ledger that continues from j. */
  function FoldFrom(j: Job, events: seq<Event>): Job
    decreases |events|
  {
    if events == [] then j else FoldFrom(Step(j, events[0]), events[1..])
  }

  /** Replays a ledger into the projection. */
  method Fold(events: seq<Event>) returns (j: Job)
    ensures j == FoldFrom(ZERO_JOB, events)
  {
    j := ZERO_JOB;
    for i := 0 to |events|
      invariant FoldFrom(j, events[i..]) == FoldFrom(ZERO_JOB, events)
    {
      var e := events[i];
      ghost var before := j;
      j := Applied(j, e);
      if HumanGate(j.state) {
        if e.escalationReason != "" {
          j := j.(escalationReason := e.escalationReason);
        }
      } else {
        j := j.(escalationReason := "", overBudget := false);
      }
      if j.state == Ready && j.kind == BuildJob {
        j := j.(role := EngWorker, requiredCapabilities := [RoleTag(EngWorker)]);
      } else if j.state == SpecAuthoring {
        j := j.(role := SpecAuthor, requiredCapabilities := [RoleTag(SpecAuthor)]);
      } else if j.state == SpecReview {
        j := j.(role := SpecReviewer, requiredCapabilities := [RoleTag(SpecReviewer)]);
      } else if j.state == ResolvingConflict {
        j := j.(role := ConflictResolver, requiredCapabilities := [RoleTag(ConflictResolver)]);
      }
      j := j.(jobSeq := e.jobSeq);
      assert j == Step(before, e);
      assert events[i..][1..] == events[i + 1..];
    }
    assert events[|events|..] == [];
  }

  /** Replaying a ledger in one go equals keeping the projection up to date event by event. */
  lemma {:induction false} FoldIsIncremental(j: Job, earlier: seq<Event>, later: seq<Event>)
    ensures FoldFrom(j, earlier + later) == FoldFrom(FoldFrom(j, earlier), later)
    decreases |earlier|
  {
    if earlier == [] {
      assert earlier + later == later;
    } else {
      assert (earlier + later)[1..] == earlier[1..] + later;
      FoldIsIncremental(Step(j, earlier[0]), earlier[1..], later);
    }
  }
}
