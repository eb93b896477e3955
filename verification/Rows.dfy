/** The jobs row as the store writes it: each step updates columns in place, beside appending its
    events (internal/store). The ledger promises that the row is the fold of the events
    (internal/ledger/ledger.go:223-224); here is exactly when it is. */
module Rows {
  import opened Jobs
  import opened Verdicts
  import opened Liveness
  import opened Ledger
  import opened Protocol
  import opened Runtime
  import opened Runs
  import opened Leases
  import opened SpecFlow
  import opened Tallies
  import opened MergeSafety
  import Engine

  // ---- what each step writes -----------------------------------------------------------

  function Staffed(row: Job, role: Role, caps: Role): Job {
    row.(role := role, requiredCapabilities := [RoleTag(caps)])
  }

  function Unleased(row: Job): Job { row.(lease := NO_LEASE) }

  /** The row a job is inserted as. */
  function Inserted(e: Event): Job {
    if e.body.Intake? then AppliedIntake(ZERO_JOB, e, e.body.intake).(jobSeq := e.jobSeq) else ZERO_JOB
  }

  function ClaimWrite(row: Job, kind: ClaimKind, lease: Lease): Job {
    var bound := row.(state := WorkedIn(kind), leaseEpoch := row.leaseEpoch + 1, lease := lease);
    match kind
    case ForReview => bound.(role := CodeReviewer)
    case ForSpecReview => bound.(role := SpecReviewer)
    case _ => bound
  }

  /** A kill, whatever its reason; a build sent back to the queue is staffed afresh. */
  function RevokeWrite(row: Job, t: Engine.Transition, reason: string): Job {
    var c := row.counters;
    var ended := Unleased(row).(
      state := t.to, leaseEpoch := row.leaseEpoch + (if t.bumpEpoch then 1 else 0),
      counters := c.(attempts := c.attempts + t.attemptsDelta, stallRevocations := c.stallRevocations + t.stallRevocationsDelta),
      escalationReason := OrElse(reason, row.escalationReason));
    if t.to == Ready then Staffed(ended, EngWorker, EngWorker) else ended
  }

  function Bounced(row: Job, t: Engine.Transition): Job {
    Unleased(row).(state := t.to, counters := row.counters.(bounces := row.counters.bounces + t.bouncesDelta))
  }

  function ReviewWrite(row: Job, t: Engine.Transition, head: string, reason: string): Job {
    if t.to == Ready then Staffed(Bounced(row, t), EngWorker, EngWorker)
    else if t.to == ReviewPending then
      Staffed(Unleased(row).(state := t.to, headSHA := OrElse(head, row.headSHA)), EngWorker, CodeReviewer)
    else
      Bounced(row, t).(
        verdict := t.verdict,
        headSHA := if t.verdict.Some? then OrElse(t.verdict.value.headSHA, row.headSHA) else row.headSHA,
        escalationReason := OrElse(reason, row.escalationReason))
  }

  function SpecReviewWrite(row: Job, t: Engine.Transition, reason: string): Job {
    if t.specSignoff.Some? then
      Bounced(row, t).(spec := SpecBinding(t.specSignoff.value.specHash, t.specSignoff.value.specVersion, t.specSignoff))
    else if t.kind == Engine.KindSpecNeedsDesign then Unleased(row).(state := NeedsDesign, escalationReason := DESIGN_ESCALATION)
    else if t.to == SpecAuthoring then Staffed(Bounced(row, t), SpecAuthor, SpecAuthor)
    else Bounced(row, t).(escalationReason := OrElse(reason, row.escalationReason))
  }

  /** What a call of Decide writes; the last transition is where the job ends up. */
  function CallWrite(row: Job, ts: seq<Engine.Transition>, ev: Engine.EngineEvent, head: string): Job {
    if ts == [] then row
    else
      var t := ts[|ts| - 1];
      match ev
      case WorkResult(_) => Staffed(Unleased(row).(state := t.to, headSHA := head), EngWorker, CodeReviewer)
      case ReviewClaim(_, _, _, _, _) => ReviewWrite(row, t, head, ReasonOf(t, ev))
      case SpecReviewClaim(_, _, _, _, _, _, _, _) => SpecReviewWrite(row, t, ReasonOf(t, ev))
      case Heartbeat(_, _, _, _) => RevokeWrite(row, t, "")
      case LivenessVerdict(_, _, _) => RevokeWrite(row, t, ReasonOf(t, ev))
      case _ => row.(state := t.to)
  }

  /** A release, and the park that follows the last attempt. */
  function ReleaseWrite(row: Job, failed: bool, noPenalty: bool): Job {
    var penalty := Penalty(row, failed, noPenalty);
    var released := Unleased(row).(
      state := ReleaseTarget(row.state), counters := row.counters.(attempts := row.counters.attempts + penalty));
    if Exhausts(row, penalty) then released.(state := NeedsHuman, escalationReason := ATTEMPTS) else released
  }

  function MeterWrite(row: Job, ts: seq<Engine.Transition>, delta: int): Job {
    var spent := row.(costMicroUSD := row.costMicroUSD + delta);
    if ts == [] then spent
    else Unleased(spent).(state := ts[0].to, leaseEpoch := row.leaseEpoch + 1, overBudget := true, escalationReason := COST)
  }

  function HeadMoveWrite(row: Job, m: HeadMove): Job {
    var moved := Unleased(row).(verdict := None, leaseEpoch := row.leaseEpoch + (if m.ResolveConflict? then 0 else 1));
    match m
    case Supersede(base) => Staffed(moved.(state := Ready, headSHA := "", baseSHA := OrElse(base, row.baseSHA)), EngWorker, EngWorker)
    case Rearm(base, head) => Staffed(moved.(state := ReviewPending, headSHA := head, baseSHA := base), CodeReviewer, CodeReviewer)
    case Rebase(base, head) => Staffed(moved.(state := ReviewPending, headSHA := head, baseSHA := base), EngWorker, CodeReviewer)
    case DetectConflict(base) => Staffed(moved.(state := ResolvingConflict, baseSHA := base), ConflictResolver, ConflictResolver)
    case ResolveConflict(_, head) => Staffed(moved.(state := ReviewPending, headSHA := head), EngWorker, CodeReviewer)
  }

  /** A fresh start at the job's own entry stage. */
  function Rearmed(row: Job): Job {
    var role := if row.kind == SpecJob then SpecAuthor else EngWorker;
    Staffed(Unleased(row), role, role).(
      state := EntryState(row), leaseEpoch := row.leaseEpoch + 1, headSHA := "", verdict := None,
      escalationReason := "", overBudget := false)
  }

  /** What is left of the lease columns when a parker is done with them. */
  function LeaseParked(lease: Lease, parker: Parker): Lease {
    match parker
    case Watchdog => lease
    case MergedRed => NO_LEASE
    case _ => lease.(id := "", identity := "")
  }

  function ControlWrite(row: Job, m: ControlMove): Job {
    var c := row.counters;
    match m
    case ClearDeps => row.(state := Ready)
    case FailCI =>
      var failed := Unleased(row).(counters := c.(bounces := c.bounces + 1));
      if c.bounces + 1 > c.maxBounces then failed.(state := NeedsHuman) else Staffed(failed.(state := Ready), EngWorker, EngWorker)
    case Unblock => Rearmed(row)
    case Requeue(_) => Rearmed(row).(counters := c.(attempts := 0, bounces := 0, stallRevocations := 0))
    case Park(why, parker) =>
      row.(state := NeedsHuman, lease := LeaseParked(row.lease, parker),
           escalationReason := if parker == Watchdog then OrElse(why, row.escalationReason) else why)
    case Cancel(_) => Unleased(row).(state := Cancelled, leaseEpoch := row.leaseEpoch + 1)
    case Evict => row.(state := Cancelled)
    case HandOff(_) => row.(state := MergeHandoff)
    case CompleteMerged => row.(state := Done)
  }

  function SpecMoveWrite(row: Job, m: SpecMove): Job {
    var review := Staffed(Unleased(row), SpecReviewer, SpecReviewer).(state := SpecReview);
    match m
    case Materialize(_, hash, version) => review.(spec := row.spec.(contentHash := hash, version := version))
    case EditSpec(hash, version) => review.(spec := SpecBinding(hash, version, None))
    case ResolveDesign(hash, version) =>
      review.(escalationReason := "", spec := if hash == "" then row.spec else row.spec.(contentHash := hash, version := version))
  }

  function NoteWrite(row: Job, note: NoteEvent): Job {
    match note
    case PROpened(head) => row.(headSHA := OrElse(head, row.headSHA))
    case BaseRefreshed(base) => row.(baseSHA := base)
    case _ => row
  }

  /** The row after a step. */
  function Written(cfg: Config, s: Sys, step: StepKind, at: int): Job {
    var row := s.job;
    var now := match step
      case Claim(kind, lease, _) => ClaimWrite(row, kind, lease)
      case Call(seen, ev, head) => CallWrite(row, DecisionOf(cfg, s, seen, ev).transitions, ev, head)
      case Meter(seen, epoch, delta) => MeterWrite(row, MeterDecision(cfg, s, seen, epoch, delta).transitions, delta)
      case GiveBack(_, _, failed, noPenalty) => ReleaseWrite(row, failed, noPenalty)
      case MoveHead(m) => HeadMoveWrite(row, m)
      case Operate(m) => ControlWrite(row, m)
      case Author(m) => SpecMoveWrite(row, m)
      case Audit(note) => NoteWrite(row, note);
    now.(jobSeq := row.jobSeq + |Emitted(cfg, s, step, at)|)
  }

  /** The store: it decides on its row, appends the events, and writes the row itself. */
  function Stored(cfg: Config, s: Sys, step: StepKind, at: int): Sys {
    Next(cfg, s, step, at).(job := Written(cfg, s, step, at))
  }

  function StoreOf(cfg: Config, r: Run): Sys {
    match r
    case Start(created) => Sys([created], Inserted(created), "")
    case After(before, step, at) => Stored(cfg, StoreOf(cfg, before), step, at)
  }

  predicate LegalInStore(cfg: Config, r: Run) {
    match r
    case Start(created) => LegalStart(cfg, created)
    case After(before, step, _) => LegalInStore(cfg, before) && Allowed(cfg, StoreOf(cfg, before), step)
  }

  // ---- where the row and the fold part -------------------------------------------------------

  predicate StaffedBy(j: Job, role: Role) { j.role == role && j.requiredCapabilities == [RoleTag(role)] }

  /** The human-gate columns are set: only a requeue, an unblock and a resolved design clear them in
      the row, while the fold clears them whenever the job leaves the gate. */
  predicate GateMarked(j: Job) { j.escalationReason != "" || j.overBudget }

  /** A call's write misses what its events fold to: a result of a job not staffed as a build, a
      killed spec review that keeps the reviewer's staffing, a mint for a job whose base was unknown,
      an exhausted review that drops an older verdict, a stale claim that keeps an older sign-off. */
  predicate CallSlips(j: Job, ts: seq<Engine.Transition>) {
    ts != [] &&
    var t := ts[|ts| - 1];
    match t.kind
    case KindResultAccepted => j.role != EngWorker
    case KindLeaseRevoked =>
      j.state == SpecReview || (t.to == Ready && j.kind == SpecJob && j.requiredCapabilities != [RoleTag(EngWorker)])
    case KindFastCancelled => j.state == SpecReview || (t.to == Ready && j.kind == SpecJob && !StaffedBy(j, EngWorker))
    case KindVerdictMinted => j.baseSHA == ""
    case KindBounceExhausted => j.state == CodeReview && j.verdict.Some?
    case KindSpecSuperseded => j.spec.signoff.Some?
    case _ => false
  }

  /** A release leaves the staffing alone, which is the author's only in the ledger when a spec review
      is given back, and the builder's only there when a merge is. */
  predicate ReleaseSlips(j: Job) {
    j.state == SpecReview || (ReleaseTarget(j.state) == Ready && j.kind == BuildJob && !StaffedBy(j, EngWorker))
  }

  predicate HeadMoveSlips(j: Job, m: HeadMove) {
    GateMarked(j) || ((m.Rebase? || m.DetectConflict?) && m.baseSHA == "" && j.baseSHA != "")
  }

  /** A lease on record that the row drops and the fold keeps, or a mark of the human gate the other
      way round. */
  predicate ControlSlips(j: Job, m: ControlMove) {
    match m
    case ClearDeps => j.kind == BuildJob && !StaffedBy(j, EngWorker)
    case Requeue(_) => j.lease != NO_LEASE
    case Park(why, parker) =>
      LeaseParked(j.lease, parker) != j.lease || (parker != Watchdog && why == "" && j.escalationReason != "")
    case Cancel(_) => j.lease != NO_LEASE || GateMarked(j)
    case Evict => GateMarked(j)
    case CompleteMerged => GateMarked(j)
    case _ => false
  }

  predicate SpecMoveSlips(j: Job, m: SpecMove) {
    match m
    case Materialize(_, _, _) => false
    case EditSpec(_, _) => GateMarked(j)
    case ResolveDesign(_, _) => j.lease != NO_LEASE || j.overBudget
  }

  /** The step writes a row that is not the fold of its events. */
  predicate Slips(cfg: Config, s: Sys, step: StepKind) {
    match step
    case Call(seen, ev, _) => CallSlips(s.job, DecisionOf(cfg, s, seen, ev).transitions)
    case GiveBack(_, _, _, _) => ReleaseSlips(s.job)
    case MoveHead(m) => HeadMoveSlips(s.job, m)
    case Operate(m) => ControlSlips(s.job, m)
    case Author(m) => SpecMoveSlips(s.job, m)
    case _ => false
  }

  /** The job is inserted with another staffing than its first stage's. */
  predicate SlipsAtBirth(e: Event) {
    var staffed := StageRole(Inserted(e).state, Inserted(e).kind);
    staffed != NoRole && !StaffedBy(Inserted(e), staffed)
  }

  // ---- step by step -------------------------------------------------------------------------

  /** What every fold satisfies. */
  predicate Folded(j: Job) {
    && (StageRole(j.state, j.kind) != NoRole ==> StaffedBy(j, StageRole(j.state, j.kind)))
    && (GateMarked(j) ==> HumanGate(j.state))
    && (j.kind == BuildJob || j.kind == SpecJob)
  }

  lemma ClaimWriteIsFold(cfg: Config, s: Sys, kind: ClaimKind, lease: Lease, at: int)
    requires Folded(s.job) && s.job.state == ClaimableIn(kind)
    ensures Step(s.job, ClaimEvent(s.job, kind, lease, at)) == ClaimWrite(s.job, kind, lease).(jobSeq := s.job.jobSeq + 1)
  {
    hide AppliedIntake, AppliedGate, AppliedHead, AppliedSpec, AppliedKill, AppliedControl, AppliedNote;
  }

  lemma HeadStep(j: Job, e: Event)
    requires e.body.Head?
    ensures Step(j, e) == Derived(AppliedHead(j, e, e.body.head), e)
  {
    hide Derived, AppliedHead;
  }

  lemma HeadMoveWriteIsFold(j: Job, m: HeadMove, at: int)
    requires Folded(j) && HeadMoveAllowed(j, m)
    ensures Step(j, HeadMoveEvent(j, m, at)) == HeadMoveWrite(j, m).(jobSeq := j.jobSeq + 1) <==> !HeadMoveSlips(j, m)
  {
    hide Step, Derived, AppliedHead, HeadMoveWrite, HeadMoveSlips, Folded;
    HeadStep(j, HeadMoveEvent(j, m, at));
    match m
    case Supersede(_) => SupersededIsFold(j, m, at);
    case Rearm(_, _) => AdoptedIsFold(j, m, at);
    case Rebase(_, _) => RebasedIsFold(j, m, at);
    case DetectConflict(_) => ConflictIsFold(j, m, at);
    case ResolveConflict(_, _) => ResolvedIsFold(j, m, at);
  }

  predicate HeadFolds(j: Job, m: HeadMove, at: int) {
    var e := HeadMoveEvent(j, m, at);
    Derived(AppliedHead(j, e, e.body.head), e) == HeadMoveWrite(j, m).(jobSeq := j.jobSeq + 1) <==> !HeadMoveSlips(j, m)
  }

  lemma ResolvedIsFold(j: Job, m: HeadMove, at: int)
    requires Folded(j) && m.ResolveConflict? && j.state == ResolvingConflict
    ensures HeadFolds(j, m, at)
  {
  }

  lemma SupersededIsFold(j: Job, m: HeadMove, at: int)
    requires Folded(j) && m.Supersede? && j.kind == BuildJob
    ensures HeadFolds(j, m, at)
  {
  }

  lemma AdoptedIsFold(j: Job, m: HeadMove, at: int)
    requires Folded(j) && m.Rearm? && j.kind == BuildJob
    ensures HeadFolds(j, m, at)
  {
  }

  lemma RebasedIsFold(j: Job, m: HeadMove, at: int)
    requires Folded(j) && m.Rebase? && j.kind == BuildJob
    ensures HeadFolds(j, m, at)
  {
  }

  lemma ConflictIsFold(j: Job, m: HeadMove, at: int)
    requires Folded(j) && m.DetectConflict? && j.kind == BuildJob
    ensures HeadFolds(j, m, at)
  {
  }

  lemma ControlStep(j: Job, e: Event)
    requires e.body.Control?
    ensures Step(j, e) == Derived(AppliedControl(j, e, e.body.control), e)
  {
    hide Derived, AppliedControl;
  }

  lemma GateStep(j: Job, e: Event)
    requires e.body.Gate?
    ensures Step(j, e) == Derived(AppliedGate(j, e, e.body.gate), e)
  {
    hide Derived, AppliedGate;
  }

  lemma RearmIsFold(j: Job, m: ControlMove, at: int)
    requires Folded(j) && (m.Requeue? || (m.Unblock? && j.state == NeedsHuman))
    ensures var e := ControlMoveEvent(j, m, at);
      Derived(AppliedControl(j, e, e.body.control), e) == ControlWrite(j, m).(jobSeq := j.jobSeq + 1) <==> !ControlSlips(j, m)
  {
  }

  lemma ParkIsFold(j: Job, m: ControlMove, at: int)
    requires Folded(j) && m.Park?
    ensures var e := ControlMoveEvent(j, m, at);
      Derived(AppliedControl(j, e, e.body.control), e) == ControlWrite(j, m).(jobSeq := j.jobSeq + 1) <==> !ControlSlips(j, m)
  {
  }

  lemma EndingIsFold(j: Job, m: ControlMove, at: int)
    requires Folded(j) && (m.Cancel? || m.Evict? || m.CompleteMerged? || (m.HandOff? && (j.state == Merging || j.state == Mergeable)))
    ensures var e := ControlMoveEvent(j, m, at);
      Derived(AppliedControl(j, e, e.body.control), e) == ControlWrite(j, m).(jobSeq := j.jobSeq + 1) <==> !ControlSlips(j, m)
  {
  }

  lemma FailCIIsFold(j: Job, at: int)
    requires Folded(j) && j.state == ReviewPending
    ensures var e := ControlMoveEvent(j, FailCI, at);
      e.body.Gate? && Derived(AppliedGate(j, e, e.body.gate), e) == ControlWrite(j, FailCI).(jobSeq := j.jobSeq + 1)
  {
  }

  lemma ClearDepsIsFold(j: Job, at: int)
    requires Folded(j) && j.state == Blocked
    ensures Step(j, ControlMoveEvent(j, ClearDeps, at)) == ControlWrite(j, ClearDeps).(jobSeq := j.jobSeq + 1)
      <==> !ControlSlips(j, ClearDeps)
  {
    hide AppliedLeasing, AppliedGate, AppliedHead, AppliedSpec, AppliedKill, AppliedControl, AppliedNote;
  }

  lemma ControlWriteIsFold(j: Job, m: ControlMove, at: int)
    requires Folded(j) && ControlAllowed(j, m)
    ensures Step(j, ControlMoveEvent(j, m, at)) == ControlWrite(j, m).(jobSeq := j.jobSeq + 1) <==> !ControlSlips(j, m)
  {
    hide Step, Derived, AppliedControl, AppliedGate, ControlWrite, Folded;
    var e := ControlMoveEvent(j, m, at);
    if e.body.Control? {
      ControlStep(j, e);
    } else if e.body.Gate? {
      GateStep(j, e);
    }
    match m
    case ClearDeps => ClearDepsIsFold(j, at);
    case FailCI => FailCIIsFold(j, at);
    case Unblock => RearmIsFold(j, m, at);
    case Requeue(_) => RearmIsFold(j, m, at);
    case Park(_, _) => ParkIsFold(j, m, at);
    case _ => EndingIsFold(j, m, at);
  }

  lemma SpecMoveWriteIsFold(j: Job, m: SpecMove, at: int)
    requires Folded(j) && SpecMoveAllowed(j, m)
    ensures Step(j, SpecMoveEvent(j, m, at)) == SpecMoveWrite(j, m).(jobSeq := j.jobSeq + 1) <==> !SpecMoveSlips(j, m)
  {
    hide AppliedIntake, AppliedLeasing, AppliedGate, AppliedHead, AppliedKill, AppliedControl, AppliedNote;
  }

  lemma NoteWriteIsFold(j: Job, note: NoteEvent, at: int)
    requires Folded(j)
    ensures Step(j, Moved(j, j.state, at, "", Note(note))) == NoteWrite(j, note).(jobSeq := j.jobSeq + 1)
  {
    hide AppliedIntake, AppliedLeasing, AppliedGate, AppliedHead, AppliedSpec, AppliedKill, AppliedControl;
  }

  // ---- calls of Decide --------------------------------------------------------------------------

  /** The shape of a kill's transition. */
  predicate KillMove(j: Job, t: Engine.Transition) {
    && t.from == j.state && t.bumpEpoch && HasActiveLease(j.state)
    && match t.kind
       case KindAgentExited => t.to == Failed && t.attemptsDelta == 0 && t.stallRevocationsDelta == 0
       case KindFastCancelled => t.to == Engine.RedispatchTarget(j.state) && t.attemptsDelta == 1 && t.stallRevocationsDelta == 0
       case KindStallEscalated => t.to == NeedsHuman && t.attemptsDelta == 0 && t.stallRevocationsDelta == 1
       case KindLeaseRevoked =>
         && t.to == Engine.RedispatchTarget(j.state) && t.attemptsDelta == 1 && t.stallRevocationsDelta == 1
         && LivenessEvaluable(j.state)
       case _ => false
  }

  lemma HeartbeatKills(es: Engine.EngineState, ev: Engine.EngineEvent)
    requires ev.Heartbeat?
    ensures var ts := Engine.DecideHeartbeat(es, ev).transitions;
      ts == [] || (|ts| == 1 && KillMove(es.job, ts[0]) && ts[0].to != NeedsHuman)
  {
    hide Engine.RedispatchTarget;
    RedispatchParksNone(es.job.state);
  }

  lemma RedispatchParksNone(from: State)
    ensures Engine.RedispatchTarget(from) != NeedsHuman
  {
  }

  lemma LivenessKills(es: Engine.EngineState, ev: Engine.EngineEvent)
    requires ev.LivenessVerdict? && LivenessEvaluable(es.job.state)
    ensures var ts := Engine.DecideLiveness(es, ev).transitions; ts == [] || (|ts| == 1 && KillMove(es.job, ts[0]))
  {
    hide EvaluateKill, Engine.RedispatchTarget;
  }

  /** The event of a kill, as far as its fold looks at it. */
  function KillEventOf(j: Job, t: Engine.Transition, reason: string, body: KillEvent, at: int): Event {
    Event(j.jobSeq + 1, t.from, t.to, j.leaseEpoch + 1, "system", at, reason, Kill(body))
  }

  lemma KillEventIs(j: Job, t: Engine.Transition, ev: Engine.EngineEvent, head: string, at: int) returns (body: KillEvent)
    requires KillMove(j, t)
    ensures TransitionEvent(j, t, ev, head, at) == KillEventOf(j, t, ReasonOf(t, ev), body, at)
    ensures body == match t.kind
      case KindAgentExited => AgentExited
      case KindFastCancelled => FastCancelled(1)
      case KindStallEscalated => StallEscalated(1)
      case _ => LeaseRevoked(1, 1, if t.to == Ready then EngWorker else NoRole)
  {
    hide ReasonOf;
    body := BodyOf(t, ev, head).kill;
  }

  lemma KillStep(j: Job, e: Event)
    requires e.body.Kill?
    ensures Step(j, e) == Derived(AppliedKill(j, e, e.body.kill), e)
  {
    hide Derived;
  }

  lemma RevokedBuildIsFold(j: Job, t: Engine.Transition, at: int)
    requires Folded(j) && KillMove(j, t) && t.kind == Engine.KindLeaseRevoked && t.to == Ready
    ensures var e := KillEventOf(j, t, "", LeaseRevoked(1, 1, EngWorker), at);
      Derived(AppliedKill(j, e, e.body.kill), e) == RevokeWrite(j, t, "").(jobSeq := j.jobSeq + 1) <==> !CallSlips(j, [t])
  {
  }

  lemma RevokedGateIsFold(j: Job, t: Engine.Transition, at: int)
    requires Folded(j) && KillMove(j, t) && t.kind == Engine.KindLeaseRevoked && t.to != Ready
    ensures var e := KillEventOf(j, t, "", LeaseRevoked(1, 1, NoRole), at);
      Derived(AppliedKill(j, e, e.body.kill), e) == RevokeWrite(j, t, "").(jobSeq := j.jobSeq + 1) <==> !CallSlips(j, [t])
  {
  }

  lemma CancelledIsFold(j: Job, t: Engine.Transition, at: int, reason: string)
    requires Folded(j) && KillMove(j, t) && t.kind == Engine.KindFastCancelled
    requires reason == ""
    ensures var e := KillEventOf(j, t, reason, FastCancelled(1), at);
      Derived(AppliedKill(j, e, e.body.kill), e) == RevokeWrite(j, t, reason).(jobSeq := j.jobSeq + 1) <==> !CallSlips(j, [t])
  {
  }

  lemma ExitIsFold(j: Job, t: Engine.Transition, at: int, reason: string)
    requires Folded(j) && KillMove(j, t) && t.kind == Engine.KindAgentExited && reason == ""
    ensures var e := KillEventOf(j, t, reason, AgentExited, at);
      Derived(AppliedKill(j, e, e.body.kill), e) == RevokeWrite(j, t, reason).(jobSeq := j.jobSeq + 1)
    ensures !CallSlips(j, [t])
  {
  }

  lemma StallIsFold(j: Job, t: Engine.Transition, at: int, reason: string)
    requires Folded(j) && KillMove(j, t) && t.kind == Engine.KindStallEscalated
    ensures var e := KillEventOf(j, t, reason, StallEscalated(1), at);
      Derived(AppliedKill(j, e, e.body.kill), e) == RevokeWrite(j, t, reason).(jobSeq := j.jobSeq + 1)
    ensures !CallSlips(j, [t])
  {
  }

  lemma NoReasonBelowTheGate(t: Engine.Transition, ev: Engine.EngineEvent)
    requires t.to != NeedsHuman
    ensures ReasonOf(t, ev) == ""
  {
  }

  lemma KillLeads(j: Job, t: Engine.Transition)
    requires KillMove(j, t)
    ensures t.to == NeedsHuman <==> t.kind == Engine.KindStallEscalated
    ensures t.kind == Engine.KindStallEscalated || t.kind == Engine.KindAgentExited || t.kind == Engine.KindFastCancelled
      || t.kind == Engine.KindLeaseRevoked
  {
  }

  lemma RevokeWriteIsFold(j: Job, t: Engine.Transition, ev: Engine.EngineEvent, head: string, at: int)
    requires Folded(j) && KillMove(j, t)
    ensures Step(j, TransitionEvent(j, t, ev, head, at)) == RevokeWrite(j, t, ReasonOf(t, ev)).(jobSeq := j.jobSeq + 1)
      <==> !CallSlips(j, [t])
  {
    hide Step, TransitionEvent, RevokeWrite, ReasonOf, CallSlips, AppliedKill, Derived, KillMove, Folded;
    var reason := ReasonOf(t, ev);
    var body := KillEventIs(j, t, ev, head, at);
    KillStep(j, KillEventOf(j, t, reason, body, at));
    KillLeads(j, t);
    match t.kind {
      case KindStallEscalated => StallIsFold(j, t, at, reason);
      case KindAgentExited =>
        NoReasonBelowTheGate(t, ev);
        ExitIsFold(j, t, at, reason);
      case KindFastCancelled =>
        NoReasonBelowTheGate(t, ev);
        CancelledIsFold(j, t, at, reason);
      case KindLeaseRevoked =>
        NoReasonBelowTheGate(t, ev);
        if t.to == Ready {
          RevokedBuildIsFold(j, t, at);
        } else {
          RevokedGateIsFold(j, t, at);
        }
    }
  }

  lemma LoneEvent(j: Job, t: Engine.Transition, ev: Engine.EngineEvent, head: string, at: int)
    requires !ev.ReviewClaim? && !ev.SpecReviewClaim?
    ensures EventsOf(j, [t], ev, head, at) == [TransitionEvent(j, t, ev, head, at)]
  {
  }

  lemma KillWriteIsFold(j: Job, ts: seq<Engine.Transition>, ev: Engine.EngineEvent, head: string, at: int)
    requires Folded(j) && (ts == [] || (|ts| == 1 && KillMove(j, ts[0])))
    requires ev.LivenessVerdict? || (ev.Heartbeat? && (ts != [] ==> ts[0].to != NeedsHuman))
    ensures WriteFits(j, CallWrite(j, ts, ev, head), EventsOf(j, ts, ev, head, at), CallSlips(j, ts))
  {
    hide KillMove, Step, FoldFrom, TransitionEvent, CallSlips, RevokeWrite, Folded;
    if ts == [] {
      if ev.Heartbeat? {
        NoteWriteIsFold(j, Recorded, at);
        FoldOne(j, Moved(j, j.state, at, "", Note(Recorded)));
      } else {
        FoldNone(j);
      }
      assert !CallSlips(j, ts) by { NothingSlips(j); }
    } else {
      assert ts == [ts[0]];
      LoneEvent(j, ts[0], ev, head, at);
      FoldOne(j, TransitionEvent(j, ts[0], ev, head, at));
      RevokeWriteIsFold(j, ts[0], ev, head, at);
      if ev.Heartbeat? {
        NoReasonBelowTheGate(ts[0], ev);
      }
    }
  }

  lemma NothingSlips(j: Job)
    ensures !CallSlips(j, [])
  {
  }

  /** The columns written are the fold of the events, exactly unless the step slips. */
  predicate WriteFits(j: Job, now: Job, es: seq<Event>, slips: bool) {
    FoldFrom(j, es) == now.(jobSeq := j.jobSeq + |es|) <==> !slips
  }

  lemma StartedIs(j: Job, ev: Engine.EngineEvent, head: string, at: int)
    requires Folded(j) && j.state == Leased
    ensures Step(j, TransitionEvent(j, Engine.Move(Leased, Building, Engine.KindWorkerStarted), ev, head, at))
      == j.(state := Building, jobSeq := j.jobSeq + 1)
  {
    hide AppliedIntake, AppliedGate, AppliedHead, AppliedSpec, AppliedKill, AppliedControl, AppliedNote;
  }

  /** A result lands on a building job that carries no mark of the human gate. */
  lemma LandedIs(j: Job, e: Event)
    requires j.state == Building && !GateMarked(j) && e.toState == ReviewPending && e.body.Leasing? && e.body.leasing.ResultAccepted?
    ensures var head := e.body.leasing.headSHA;
      Step(j, e) == Unleased(j).(
        state := ReviewPending, requiredCapabilities := [RoleTag(CodeReviewer)], headSHA := head, jobSeq := e.jobSeq)
  {
    hide AppliedIntake, AppliedGate, AppliedHead, AppliedSpec, AppliedKill, AppliedControl, AppliedNote;
  }

  lemma ResultDecision(es: Engine.EngineState, epoch: int)
    ensures var j, ts := es.job, Engine.DecideWorkResult(es, epoch).transitions;
      var landed := Engine.Move(Building, ReviewPending, Engine.KindResultAccepted);
      || ts == []
      || (j.state == Building && ts == [landed])
      || (j.state == Leased && ts == [Engine.Move(Leased, Building, Engine.KindWorkerStarted), landed])
  {
  }

  lemma ResultWriteIsFold(es: Engine.EngineState, ev: Engine.EngineEvent, head: string, at: int)
    requires Folded(es.job) && ev.WorkResult?
    ensures var j, ts := es.job, Engine.DecideWorkResult(es, ev.epoch).transitions;
      WriteFits(j, CallWrite(j, ts, ev, head), EventsOf(j, ts, ev, head, at), CallSlips(j, ts))
  {
    hide Step, FoldFrom, Engine.DecideWorkResult;
    var j, ts := es.job, Engine.DecideWorkResult(es, ev.epoch).transitions;
    var landed := Engine.Move(Building, ReviewPending, Engine.KindResultAccepted);
    var e := TransitionEvent(j, landed, ev, head, at);
    ResultDecision(es, ev.epoch);
    if ts == [] {
      FoldNone(j);
    } else if ts == [landed] {
      FoldOne(j, e);
      LandedIs(j, e);
    } else {
      var first, second := TransitionEvent(j, ts[0], ev, head, at), e.(jobSeq := e.jobSeq + 1);
      FoldTwo(j, first, second);
      StartedIs(j, ev, head, at);
      LandedIs(j.(state := Building, jobSeq := j.jobSeq + 1), second);
    }
  }

  lemma LeasingStep(j: Job, e: Event)
    requires e.body.Leasing?
    ensures Step(j, e) == Derived(AppliedLeasing(j, e, e.body.leasing), e)
  {
    hide Derived, AppliedLeasing;
  }

  /** After the release event the fold differs from the row in the staffing at most. */
  lemma ReleasedIsFold(j: Job, e: Event, penalty: int)
    requires Folded(j) && HasActiveLease(j.state) && e.toState == ReleaseTarget(j.state) && e.escalationReason == ""
    requires e.body == Leasing(LeaseReleased(penalty))
    ensures var k := Derived(AppliedLeasing(j, e, e.body.leasing), e);
      && k == Unleased(j).(
           state := ReleaseTarget(j.state), counters := j.counters.(attempts := j.counters.attempts + penalty),
           role := k.role, requiredCapabilities := k.requiredCapabilities, jobSeq := e.jobSeq)
      && (k.role == j.role && k.requiredCapabilities == j.requiredCapabilities <==> !ReleaseSlips(j))
      && !GateMarked(k)
  {
  }

  lemma ExhaustedRelease(j: Job, e: Event)
    requires !GateMarked(j) && e.body == Control(StateChanged(false)) && e.toState == NeedsHuman && e.leaseEpoch == j.leaseEpoch
    ensures Derived(AppliedControl(j, e, e.body.control), e) ==
      j.(state := NeedsHuman, escalationReason := e.escalationReason, jobSeq := e.jobSeq)
  {
  }

  lemma ReleaseWriteIsFold(j: Job, failed: bool, noPenalty: bool, at: int)
    requires Folded(j) && HasActiveLease(j.state)
    ensures WriteFits(j, ReleaseWrite(j, failed, noPenalty), ReleaseEvents(j, failed, noPenalty, at), ReleaseSlips(j))
  {
    hide Step, FoldFrom, Derived, AppliedLeasing, AppliedControl, Folded, ReleaseSlips, ReleaseTarget, GateMarked;
    var es := ReleaseEvents(j, failed, noPenalty, at);
    var k := Step(j, es[0]);
    LeasingStep(j, es[0]);
    ReleasedIsFold(j, es[0], Penalty(j, failed, noPenalty));
    if |es| == 1 {
      FoldOne(j, es[0]);
    } else {
      FoldTwo(j, es[0], es[1]);
      ControlStep(k, es[1]);
      ExhaustedRelease(k, es[1]);
    }
  }

  lemma DispatchMoves(H: Digest, es: Engine.EngineState)
    ensures var ts := Engine.DecideMergeDispatch(H, es).transitions;
      ts == [] || (es.job.state == Mergeable
                   && (ts == [Engine.Move(Mergeable, Merging, Engine.KindMergeStarted)]
                       || ts == [Engine.Move(Mergeable, MergeHandoff, Engine.KindMergeHandoff)]))
  {
    hide MergeReady, Verify, SelfMergeEligible;
  }

  lemma DispatchedIsFold(j: Job, e: Event)
    requires Folded(j) && j.state == Mergeable && (e.toState == Merging || e.toState == MergeHandoff)
    requires e.body == Gate(MergeStarted) || e.body == Gate(MergeHandedOff)
    ensures Derived(AppliedGate(j, e, e.body.gate), e) == j.(state := e.toState, jobSeq := e.jobSeq)
  {
  }

  lemma DispatchWriteIsFold(cfg: Config, s: Sys, seen: Seen, ev: Engine.EngineEvent, head: string, at: int)
    requires Folded(s.job) && ev.MergeDispatch?
    ensures var j, ts := s.job, DecisionOf(cfg, s, seen, ev).transitions;
      WriteFits(j, CallWrite(j, ts, ev, head), EventsOf(j, ts, ev, head, at), CallSlips(j, ts))
  {
    hide Step, FoldFrom, Engine.DecideMergeDispatch, Derived, AppliedGate, Folded;
    var j, ts := s.job, Engine.DecideMergeDispatch(cfg.H, EngineStateOf(cfg, s, seen, ev)).transitions;
    DispatchMoves(cfg.H, EngineStateOf(cfg, s, seen, ev));
    if ts == [] {
      FoldNone(j);
    } else {
      var e := TransitionEvent(j, ts[0], ev, head, at);
      FoldOne(j, e);
      GateStep(j, e);
      DispatchedIsFold(j, e);
    }
  }

  // ---- the two gates ----------------------------------------------------------------------------

  /** What a review's transition carries. */
  predicate ReviewCarries(j: Job, t: Engine.Transition) {
    && ReviewMove(j, t)
    && (t.kind == Engine.KindVerdictMinted ==>
          && t.bouncesDelta == 0 && t.verdict.Some? && t.verdict.value.headSHA != "" && t.verdict.value.baseSHA != ""
          && (j.baseSHA == "" || j.baseSHA == t.verdict.value.baseSHA))
    && (t.kind != Engine.KindVerdictMinted ==> t.verdict == None)
  }

  lemma ReviewOutcomeCarries(out: GateOutcome, prior: int, required: int)
    ensures var ts := Engine.OnReviewOutcome(out, prior, required).transitions;
      ts != [] ==>
        if ts[0].kind == Engine.KindVerdictMinted then ts[0].bouncesDelta == 0 && ts[0].verdict == out.verdict
        else ts[0].verdict == None
  {
  }

  lemma ReviewsCarry(cfg: Config, s: Sys, seen: Seen, ev: Engine.EngineEvent)
    requires ev.ReviewClaim?
    ensures var ts := DecisionOf(cfg, s, seen, ev).transitions; ts == [] || (|ts| == 1 && ReviewCarries(s.job, ts[0]))
  {
    hide EvaluateGate, GatePredicate, Vetted, MintVerdict, MergeReady, Engine.OnReviewOutcome, ReviewMove;
    var es := EngineStateOf(cfg, s, seen, ev);
    var ts := DecisionOf(cfg, s, seen, ev).transitions;
    ReviewMoves(cfg.H, es, ev);
    if ts != [] {
      var out := EvaluateGate(cfg.H, Engine.GateInputsOf(es, ev));
      ReviewOutcomeCarries(out, ev.priorApprovals, es.policy.RequiredReviewersOrDefault());
      if ts[0].kind == Engine.KindVerdictMinted {
        MintHasVerdict(s.job, ts[0]);
        GateMintsFrom(cfg.H, Engine.GateInputsOf(es, ev), ts[0].verdict.value);
        VettedFacts(s.job, seen.facts);
        MintBinds(cfg.H, seen.facts, ts[0].verdict.value);
        ReadyFactsHaveSHAs(seen.facts);
      }
    }
  }

  lemma MintHasVerdict(j: Job, t: Engine.Transition)
    requires ReviewMove(j, t) && t.kind == Engine.KindVerdictMinted
    ensures t.verdict.Some?
  {
  }

  lemma ReadyFactsHaveSHAs(f: Facts)
    requires GatePredicate(f)
    ensures f.headSHA != "" && f.baseSHA != ""
  {
  }

  /** e records the review's transition t. */
  predicate RecordsReview(e: Event, t: Engine.Transition, head: string, reason: string) {
    && e.toState == t.to && e.escalationReason == reason
    && match t.kind
       case KindReviewApproved => e.body == Gate(ReviewApproved(head)) && reason == ""
       case KindVerdictMinted => e.body == Gate(VerdictMinted(t.verdict)) && reason == ""
       case KindReviewBounced => e.body == Gate(ReviewBounced(t.bouncesDelta)) && reason == ""
       case KindBounceExhausted => e.body == Gate(BounceExhausted(t.bouncesDelta))
       case _ => false
  }

  predicate ReviewFits(j: Job, e: Event, t: Engine.Transition, head: string, reason: string)
    requires e.body.Gate?
  {
    Derived(AppliedGate(j, e, e.body.gate), e) == ReviewWrite(j, t, head, reason).(jobSeq := e.jobSeq) <==> !CallSlips(j, [t])
  }

  lemma ApprovedIsFold(j: Job, e: Event, t: Engine.Transition, head: string, reason: string)
    requires Folded(j) && ReviewCarries(j, t) && t.kind == Engine.KindReviewApproved && RecordsReview(e, t, head, reason)
    ensures ReviewFits(j, e, t, head, reason)
  {
  }

  lemma MintedIsFold(j: Job, e: Event, t: Engine.Transition, head: string, reason: string)
    requires Folded(j) && ReviewCarries(j, t) && t.kind == Engine.KindVerdictMinted && RecordsReview(e, t, head, reason)
    ensures ReviewFits(j, e, t, head, reason)
  {
  }

  lemma BouncedIsFold(j: Job, e: Event, t: Engine.Transition, head: string, reason: string)
    requires Folded(j) && ReviewCarries(j, t) && t.kind == Engine.KindReviewBounced && RecordsReview(e, t, head, reason)
    ensures ReviewFits(j, e, t, head, reason)
  {
  }

  lemma ExhaustedIsFold(j: Job, e: Event, t: Engine.Transition, head: string, reason: string)
    requires Folded(j) && ReviewCarries(j, t) && t.kind == Engine.KindBounceExhausted && RecordsReview(e, t, head, reason)
    ensures ReviewFits(j, e, t, head, reason)
  {
  }

  lemma ReviewIsRecorded(j: Job, t: Engine.Transition, ev: Engine.EngineEvent, head: string, at: int, n: int)
    requires ReviewCarries(j, t)
    ensures RecordsReview(TransitionEvent(j, t, ev, head, at).(jobSeq := n), t, head, ReasonOf(t, ev))
  {
    hide ReasonOf;
    if t.to != NeedsHuman {
      NoReasonBelowTheGate(t, ev);
    }
  }

  /** A numbering is all that tells i from j. */
  lemma RenumberedReview(j: Job, t: Engine.Transition, e: Event, head: string, reason: string)
    requires Folded(j) && ReviewCarries(j, t) && e.body.Gate?
    ensures var i := j.(jobSeq := j.jobSeq + 1);
      && Folded(i) && ReviewCarries(i, t) && CallSlips(i, [t]) == CallSlips(j, [t])
      && ReviewWrite(i, t, head, reason).(jobSeq := e.jobSeq) == ReviewWrite(j, t, head, reason).(jobSeq := e.jobSeq)
  {
    hide StageRole, HumanGate;
  }

  lemma ReviewOutcomeIsFold(j: Job, t: Engine.Transition, ev: Engine.EngineEvent, head: string, at: int)
    requires Folded(j) && ReviewCarries(j, t) && ev.ReviewClaim?
    ensures var e := TransitionEvent(j, t, ev, head, at);
      var k := Step(j.(jobSeq := j.jobSeq + 1), e.(jobSeq := e.jobSeq + 1));
      k == ReviewWrite(j, t, head, ReasonOf(t, ev)).(jobSeq := j.jobSeq + 2) <==> !CallSlips(j, [t])
  {
    var i, reason := j.(jobSeq := j.jobSeq + 1), ReasonOf(t, ev);
    var e := TransitionEvent(j, t, ev, head, at).(jobSeq := j.jobSeq + 2);
    hide Step, Derived, AppliedGate, Folded, ReasonOf, ReviewWrite, CallSlips, BodyOf;
    ReviewIsRecorded(j, t, ev, head, at, j.jobSeq + 2);
    RenumberedReview(j, t, e, head, reason);
    GateStep(i, e);
    match t.kind {
      case KindReviewApproved => ApprovedIsFold(i, e, t, head, reason);
      case KindVerdictMinted => MintedIsFold(i, e, t, head, reason);
      case KindReviewBounced => BouncedIsFold(i, e, t, head, reason);
      case KindBounceExhausted => ExhaustedIsFold(i, e, t, head, reason);
    }
  }

  lemma ReviewWriteIsFold(cfg: Config, s: Sys, seen: Seen, ev: Engine.EngineEvent, head: string, at: int)
    requires Folded(s.job) && ev.ReviewClaim?
    ensures var j, ts := s.job, DecisionOf(cfg, s, seen, ev).transitions;
      WriteFits(j, CallWrite(j, ts, ev, head), EventsOf(j, ts, ev, head, at), CallSlips(j, ts))
  {
    hide DecisionOf, Step, FoldFrom, TransitionEvent, CallSlips, ReviewWrite, ReviewCarries, Folded, ReasonOf;
    var j, ts := s.job, DecisionOf(cfg, s, seen, ev).transitions;
    ReviewsCarry(cfg, s, seen, ev);
    if ts == [] {
      FoldNone(j);
      NothingSlips(j);
    } else {
      assert ts == [ts[0]];
      var e := TransitionEvent(j, ts[0], ev, head, at);
      NoteWriteIsFold(j, VerdictClaim(ev.value), at);
      ClaimIsANote(j, VerdictClaim(ev.value), at);
      FoldTwo(j, ClaimRecord(j, VerdictClaim(ev.value), at), e.(jobSeq := e.jobSeq + 1));
      ReviewOutcomeIsFold(j, ts[0], ev, head, at);
    }
  }

  lemma ClaimIsANote(j: Job, note: NoteEvent, at: int)
    requires Folded(j) && (note.VerdictClaim? || note.SpecClaim?)
    ensures Step(j, ClaimRecord(j, note, at)) == j.(jobSeq := j.jobSeq + 1)
  {
    hide AppliedIntake, AppliedLeasing, AppliedGate, AppliedHead, AppliedSpec, AppliedKill, AppliedControl;
  }

  /** What a spec review's transition carries. */
  predicate SpecReviewCarries(j: Job, t: Engine.Transition, ev: Engine.EngineEvent)
    requires ev.SpecReviewClaim?
  {
    && SpecReviewMove(j, t, ev)
    && (t.kind == Engine.KindSpecSignoffMinted ==>
          && t.bouncesDelta == 0 && t.specSignoff.value.specHash == j.spec.contentHash
          && t.specSignoff.value.specVersion == j.spec.version)
    && (t.kind == Engine.KindSpecAmended ==>
          && t.bouncesDelta == 0 && t.specSignoff.value.specHash == ev.amendedHash
          && t.specSignoff.value.specVersion == ev.amendedVersion)
    && (t.kind != Engine.KindSpecSignoffMinted && t.kind != Engine.KindSpecAmended ==> t.specSignoff == None)
    && (t.kind == Engine.KindSpecSuperseded ==> t.bouncesDelta == 0)
  }

  lemma SpecOutcomeCarries(out: SpecGateOutcome, isEpic: bool)
    ensures var ts := Engine.OnSpecOutcome(out, isEpic).transitions;
      ts != [] ==>
        && (ts[0].kind == Engine.KindSpecSignoffMinted ==> out.trigger == TriggerSpecSignedOff && ts[0].bouncesDelta == 0)
        && (ts[0].kind == Engine.KindSpecAmended ==> out.trigger == TriggerSpecAmended && ts[0].bouncesDelta == 0)
        && (ts[0].kind == Engine.KindSpecSuperseded ==> ts[0].bouncesDelta == 0)
        && ts[0].specSignoff == if ts[0].kind == Engine.KindSpecSignoffMinted || ts[0].kind == Engine.KindSpecAmended then out.signoff else None
  {
  }

  lemma SpecGateBinds(H: Digest, inp: SpecGateInputs)
    ensures var out := EvaluateSpecGate(H, inp);
      && (out.trigger == TriggerSpecSignedOff && out.signoff.Some? ==>
            out.signoff.value.specHash == inp.currentSpecHash && out.signoff.value.specVersion == inp.specVersion)
      && (out.trigger == TriggerSpecAmended && out.signoff.Some? ==>
            out.signoff.value.specHash == inp.amendedHash && out.signoff.value.specVersion == inp.amendedVersion)
  {
  }

  lemma SpecReviewsCarry(cfg: Config, s: Sys, seen: Seen, ev: Engine.EngineEvent)
    requires ev.SpecReviewClaim?
    ensures var ts := DecisionOf(cfg, s, seen, ev).transitions; ts == [] || (|ts| == 1 && SpecReviewCarries(s.job, ts[0], ev))
  {
    hide EvaluateSpecGate, MintSpecSignoff, Engine.OnSpecOutcome;
    var es := EngineStateOf(cfg, s, seen, ev);
    SpecReviewMoves(cfg.H, es, ev);
    if DecisionOf(cfg, s, seen, ev).transitions != [] {
      SpecOutcomeCarries(EvaluateSpecGate(cfg.H, Engine.SpecGateInputsOf(es, ev)), es.isEpic);
      SpecGateBinds(cfg.H, Engine.SpecGateInputsOf(es, ev));
    }
  }

  lemma SpecStep(j: Job, e: Event)
    requires e.body.Speccing?
    ensures Step(j, e) == Derived(AppliedSpec(j, e, e.body.speccing), e)
  {
    hide Derived, AppliedSpec;
  }

  /** e records the spec review's transition t. */
  predicate RecordsSpecReview(e: Event, t: Engine.Transition, ev: Engine.EngineEvent, reason: string)
    requires ev.SpecReviewClaim?
  {
    && e.toState == t.to && e.escalationReason == reason
    && match t.kind
       case KindSpecSignoffMinted => e.body == Speccing(SpecSignoffMinted(t.specSignoff)) && reason == ""
       case KindSpecAmended => e.body == Speccing(SpecAmended(ev.amendedHash, ev.amendedVersion, t.specSignoff)) && reason == ""
       case KindSpecNeedsDesign => e.body == Speccing(SpecNeedsDesign) && reason == ""
       case KindSpecSuperseded => e.body == Speccing(SpecSuperseded("", 0)) && reason == ""
       case KindSpecBounced => e.body == Speccing(SpecBounced(t.bouncesDelta)) && reason == ""
       case KindBounceExhausted => e.body == Gate(BounceExhausted(t.bouncesDelta))
       case _ => false
  }

  lemma SignedIsFold(j: Job, e: Event, t: Engine.Transition, ev: Engine.EngineEvent)
    requires Folded(j) && ev.SpecReviewClaim? && SpecReviewCarries(j, t, ev) && t.specSignoff.Some? && RecordsSpecReview(e, t, ev, "")
    ensures Derived(AppliedSpec(j, e, e.body.speccing), e) == SpecReviewWrite(j, t, "").(jobSeq := e.jobSeq)
    ensures !CallSlips(j, [t])
  {
  }

  lemma UnsignedIsFold(j: Job, e: Event, t: Engine.Transition, ev: Engine.EngineEvent)
    requires Folded(j) && ev.SpecReviewClaim? && SpecReviewCarries(j, t, ev) && t.specSignoff == None
    requires t.kind != Engine.KindBounceExhausted && RecordsSpecReview(e, t, ev, "")
    ensures Derived(AppliedSpec(j, e, e.body.speccing), e) == SpecReviewWrite(j, t, "").(jobSeq := e.jobSeq) <==> !CallSlips(j, [t])
  {
  }

  lemma SpecExhaustedIsFold(j: Job, e: Event, t: Engine.Transition, ev: Engine.EngineEvent, reason: string)
    requires Folded(j) && ev.SpecReviewClaim? && SpecReviewCarries(j, t, ev) && t.kind == Engine.KindBounceExhausted
    requires RecordsSpecReview(e, t, ev, reason)
    ensures Derived(AppliedGate(j, e, e.body.gate), e) == SpecReviewWrite(j, t, reason).(jobSeq := e.jobSeq)
    ensures !CallSlips(j, [t])
  {
  }

  lemma SpecReviewIsRecorded(j: Job, t: Engine.Transition, ev: Engine.EngineEvent, head: string, at: int, n: int)
    requires ev.SpecReviewClaim? && SpecReviewCarries(j, t, ev)
    ensures RecordsSpecReview(TransitionEvent(j, t, ev, head, at).(jobSeq := n), t, ev, ReasonOf(t, ev))
  {
    hide ReasonOf;
    if t.to != NeedsHuman {
      NoReasonBelowTheGate(t, ev);
    }
  }

  lemma RenumberedSpecReview(j: Job, t: Engine.Transition, ev: Engine.EngineEvent)
    requires Folded(j) && ev.SpecReviewClaim? && SpecReviewCarries(j, t, ev)
    ensures var i := j.(jobSeq := j.jobSeq + 1); Folded(i) && SpecReviewCarries(i, t, ev) && CallSlips(i, [t]) == CallSlips(j, [t])
  {
    hide StageRole, HumanGate;
  }

  lemma RenumberedSpecWrite(j: Job, t: Engine.Transition, n: int, reason: string)
    ensures var i := j.(jobSeq := j.jobSeq + 1); SpecReviewWrite(i, t, reason).(jobSeq := n) == SpecReviewWrite(j, t, reason).(jobSeq := n)
  {
  }

  lemma SpecOutcomeIsFold(j: Job, t: Engine.Transition, ev: Engine.EngineEvent, head: string, at: int)
    requires Folded(j) && ev.SpecReviewClaim? && SpecReviewCarries(j, t, ev)
    ensures var e := TransitionEvent(j, t, ev, head, at);
      var k := Step(j.(jobSeq := j.jobSeq + 1), e.(jobSeq := e.jobSeq + 1));
      k == SpecReviewWrite(j, t, ReasonOf(t, ev)).(jobSeq := j.jobSeq + 2) <==> !CallSlips(j, [t])
  {
    var i, reason := j.(jobSeq := j.jobSeq + 1), ReasonOf(t, ev);
    var e := TransitionEvent(j, t, ev, head, at).(jobSeq := j.jobSeq + 2);
    hide Step, Derived, AppliedGate, AppliedSpec, Folded, ReasonOf, SpecReviewWrite, CallSlips, BodyOf;
    SpecReviewIsRecorded(j, t, ev, head, at, j.jobSeq + 2);
    RenumberedSpecReview(j, t, ev);
    RenumberedSpecWrite(j, t, j.jobSeq + 2, reason);
    if t.kind == Engine.KindBounceExhausted {
      GateStep(i, e);
      SpecExhaustedIsFold(i, e, t, ev, reason);
    } else {
      SpecStep(i, e);
      if t.specSignoff.Some? {
        SignedIsFold(i, e, t, ev);
      } else {
        UnsignedIsFold(i, e, t, ev);
      }
    }
  }

  lemma SpecReviewWriteIsFold(cfg: Config, s: Sys, seen: Seen, ev: Engine.EngineEvent, head: string, at: int)
    requires Folded(s.job) && ev.SpecReviewClaim?
    ensures var j, ts := s.job, DecisionOf(cfg, s, seen, ev).transitions;
      WriteFits(j, CallWrite(j, ts, ev, head), EventsOf(j, ts, ev, head, at), CallSlips(j, ts))
  {
    hide DecisionOf, Step, FoldFrom, TransitionEvent, CallSlips, SpecReviewWrite, SpecReviewCarries, Folded, ReasonOf;
    var j, ts := s.job, DecisionOf(cfg, s, seen, ev).transitions;
    SpecReviewsCarry(cfg, s, seen, ev);
    if ts == [] {
      FoldNone(j);
      NothingSlips(j);
    } else {
      assert ts == [ts[0]];
      var e := TransitionEvent(j, ts[0], ev, head, at);
      ClaimIsANote(j, SpecClaim(ev.claim), at);
      FoldTwo(j, ClaimRecord(j, SpecClaim(ev.claim), at), e.(jobSeq := e.jobSeq + 1));
      SpecOutcomeIsFold(j, ts[0], ev, head, at);
    }
  }

  // ---- every step --------------------------------------------------------------------------------

  lemma CallWriteIsFold(cfg: Config, s: Sys, seen: Seen, ev: Engine.EngineEvent, head: string, at: int)
    requires Folded(s.job) && !ev.CostMeter? && !ev.Release? && CountsAreCurrent(cfg, s, ev)
    ensures var j, ts := s.job, DecisionOf(cfg, s, seen, ev).transitions;
      WriteFits(j, CallWrite(j, ts, ev, head), CallEvents(cfg, s, seen, ev, head, at), CallSlips(j, ts))
  {
    hide WriteFits, CallWrite, EventsOf, CallSlips, Folded;
    var es := EngineStateOf(cfg, s, seen, ev);
    if ev.ReviewClaim? {
      hide DecisionOf;
      ReviewWriteIsFold(cfg, s, seen, ev, head, at);
    } else if ev.SpecReviewClaim? {
      hide DecisionOf;
      SpecReviewWriteIsFold(cfg, s, seen, ev, head, at);
    } else if ev.MergeDispatch? {
      hide DecisionOf;
      DispatchWriteIsFold(cfg, s, seen, ev, head, at);
    } else {
      hide Engine.DecideHeartbeat, Engine.DecideLiveness, Engine.DecideWorkResult, KillMove;
      match ev {
        case Heartbeat(_, _, _, _) =>
          HeartbeatKills(es, ev);
          KillWriteIsFold(s.job, Engine.DecideHeartbeat(es, ev).transitions, ev, head, at);
        case LivenessVerdict(_, _, _) =>
          LivenessKills(es, ev);
          KillWriteIsFold(s.job, Engine.DecideLiveness(es, ev).transitions, ev, head, at);
        case WorkResult(_) => ResultWriteIsFold(es, ev, head, at);
      }
    }
  }

  lemma MeteredIs(j: Job, delta: int, at: int)
    requires Folded(j) && HasActiveLease(j.state)
    ensures Step(j, Moved(j, j.state, at, "", Kill(CostMetered(delta)))) == j.(costMicroUSD := j.costMicroUSD + delta, jobSeq := j.jobSeq + 1)
  {
    hide AppliedIntake, AppliedLeasing, AppliedGate, AppliedHead, AppliedSpec, AppliedControl, AppliedNote;
  }

  lemma EscalatedIs(j: Job, delta: int, at: int)
    ensures Step(j, Fenced(j, NeedsHuman, at, COST, Kill(CostEscalated(delta)))) == Unleased(j).(
      state := NeedsHuman, leaseEpoch := j.leaseEpoch + 1, costMicroUSD := j.costMicroUSD + delta, overBudget := true,
      escalationReason := COST, jobSeq := j.jobSeq + 1)
  {
    hide AppliedIntake, AppliedLeasing, AppliedGate, AppliedHead, AppliedSpec, AppliedControl, AppliedNote;
  }

  lemma MeterDecides(cfg: Config, s: Sys, seen: Seen, epoch: int, delta: int)
    requires MeterDecision(cfg, s, seen, epoch, delta).reject == None
    ensures HasActiveLease(s.job.state)
    ensures var ts := MeterDecision(cfg, s, seen, epoch, delta).transitions; ts == [] || (|ts| == 1 && ts[0].to == NeedsHuman)
  {
    var es := EngineStateOf(cfg, s.(job := s.job.(costMicroUSD := s.job.costMicroUSD + delta)), seen, Engine.CostMeter(epoch));
    assert MeterDecision(cfg, s, seen, epoch, delta) == Engine.DecideCostMeter(es, epoch);
  }

  lemma MeterWriteIsFold(cfg: Config, s: Sys, seen: Seen, epoch: int, delta: int, at: int)
    requires Folded(s.job) && MeterDecision(cfg, s, seen, epoch, delta).reject == None
    ensures Step(s.job, MeterEvent(cfg, s, seen, epoch, delta, at))
      == MeterWrite(s.job, MeterDecision(cfg, s, seen, epoch, delta).transitions, delta).(jobSeq := s.job.jobSeq + 1)
  {
    hide Step, MeterDecision;
    MeterDecides(cfg, s, seen, epoch, delta);
    MeteredIs(s.job, delta, at);
    EscalatedIs(s.job, delta, at);
  }

  /** One step from a row that is a fold: the row written is the fold of the events appended,
      exactly unless the step slips. */
  lemma WriteIsFoldExactly(cfg: Config, s: Sys, step: StepKind, at: int)
    requires Folded(s.job) && Allowed(cfg, s, step)
    ensures Written(cfg, s, step, at) == FoldFrom(s.job, Emitted(cfg, s, step, at)) <==> !Slips(cfg, s, step)
  {
    hide Step, FoldFrom, DecisionOf, MeterDecision, Folded, CallEvents, CallWrite, CallSlips, HeadMoveSlips, ControlSlips,
      SpecMoveSlips, ClaimWrite, MeterWrite, ReleaseWrite, ReleaseSlips, ReleaseEvents, HeadMoveWrite, ControlWrite, SpecMoveWrite, NoteWrite, HeadMoveEvent,
      ControlMoveEvent, SpecMoveEvent, MeterEvent, ClaimEvent, Approvers;
    var j := s.job;
    match step
    case Claim(kind, lease, lens) =>
      ClaimWriteIsFold(cfg, s, kind, lease, at);
      FoldOne(j, ClaimEvent(j, kind, lease, at));
    case Call(seen, ev, head) => CallWriteIsFold(cfg, s, seen, ev, head, at);
    case Meter(seen, epoch, delta) =>
      MeterWriteIsFold(cfg, s, seen, epoch, delta, at);
      FoldOne(j, MeterEvent(cfg, s, seen, epoch, delta, at));
    case GiveBack(seen, epoch, failed, noPenalty) =>
      GiveBackIsActive(cfg, s, seen, epoch);
      ReleaseWriteIsFold(j, failed, noPenalty, at);
    case MoveHead(m) =>
      HeadMoveWriteIsFold(j, m, at);
      FoldOne(j, HeadMoveEvent(j, m, at));
    case Operate(m) =>
      ControlWriteIsFold(j, m, at);
      FoldOne(j, ControlMoveEvent(j, m, at));
    case Author(m) =>
      SpecMoveWriteIsFold(j, m, at);
      FoldOne(j, SpecMoveEvent(j, m, at));
    case Audit(note) =>
      NoteWriteIsFold(j, note, at);
      FoldOne(j, Moved(j, j.state, at, "", Note(note)));
  }

  // ---- over runs ---------------------------------------------------------------------------------

  /** At every point of the run the row is the fold of the whole ledger. */
  predicate AlwaysFold(cfg: Config, r: Run) {
    && StoreOf(cfg, r).job == FoldFrom(ZERO_JOB, StoreOf(cfg, r).ledger)
    && (r.After? ==> AlwaysFold(cfg, r.before))
  }

  /** The job was inserted staffed for its stage, and no step of the run slipped. */
  predicate NeverSlips(cfg: Config, r: Run) {
    match r
    case Start(created) => !SlipsAtBirth(created)
    case After(before, step, _) => NeverSlips(cfg, before) && !Slips(cfg, StoreOf(cfg, before), step)
  }

  lemma InsertedIsFoldExactly(cfg: Config, created: Event)
    requires LegalStart(cfg, created)
    ensures Inserted(created) == FoldFrom(ZERO_JOB, [created]) <==> !SlipsAtBirth(created)
  {
    hide FoldFrom;
    FoldOne(ZERO_JOB, created);
  }

  /** While the row is the fold, the store goes through the very states of the step system, so what
      is proved of runs is proved of the store. */
  lemma {:induction false} StoreFollowsRuns(cfg: Config, r: Run)
    requires LegalInStore(cfg, r) && AlwaysFold(cfg, r)
    ensures StoreOf(cfg, r) == SysOf(cfg, r) && Legal(cfg, r)
  {
    hide Allowed, Written, Emitted, Inserted, LegalStart;
    match r
    case Start(created) => FoldOne(ZERO_JOB, created);
    case After(before, step, at) =>
      StoreFollowsRuns(cfg, before);
      ProjectionIsFold(cfg, r);
  }

  lemma RunsAreFolded(cfg: Config, r: Run)
    requires Legal(cfg, r)
    ensures Folded(JobOf(cfg, r))
  {
    hide Allowed, Emitted, Step, FoldFrom;
    LedgerIsPath(cfg, r);
    LaterLeadsToJob(cfg, r);
    PathKeepsKind(cfg.ceiling, Born(r), Later(cfg, r), |Later(cfg, r)|);
    BornKind(cfg, Created(r));
    ProjectionIsFold(cfg, r);
    FoldIsDerived(SysOf(cfg, r).ledger);
    ParkedAfterAll(ZERO_JOB, SysOf(cfg, r).ledger);
  }

  lemma BornKind(cfg: Config, created: Event)
    requires LegalStart(cfg, created)
    ensures Step(ZERO_JOB, created).kind == BuildJob || Step(ZERO_JOB, created).kind == SpecJob
  {
  }

  lemma FoldIsDerived(ledger: seq<Event>)
    requires ledger != []
    ensures var j := FoldFrom(ZERO_JOB, ledger); StageRole(j.state, j.kind) != NoRole ==> StaffedBy(j, StageRole(j.state, j.kind))
  {
    hide Applied;
    var k := |ledger| - 1;
    FoldLast(ZERO_JOB, ledger, k);
    assert ledger[..k + 1] == ledger;
  }

  /** The row is the fold of its ledger at every point of a run exactly if no step slips: no lease is
      dropped or kept against the events, no mark of the human gate outlives it in the row, and the
      rest Slips lists. */
  lemma {:induction false} RowIsFoldExactly(cfg: Config, r: Run)
    requires LegalInStore(cfg, r)
    ensures AlwaysFold(cfg, r) <==> NeverSlips(cfg, r)
  {
    hide Allowed, Written, Emitted, Inserted, LegalStart, FoldFrom, Slips, SlipsAtBirth, Folded;
    match r
    case Start(created) => InsertedIsFoldExactly(cfg, created);
    case After(before, step, at) =>
      RowIsFoldExactly(cfg, before);
      if AlwaysFold(cfg, before) {
        StoreFollowsRuns(cfg, before);
        RunsAreFolded(cfg, before);
        var s := StoreOf(cfg, before);
        WriteIsFoldExactly(cfg, s, step, at);
        FoldIsIncremental(ZERO_JOB, s.ledger, Emitted(cfg, s, step, at));
      }
  }

  /** No step of the run slips, judged by the fold. */
  predicate Unslipped(cfg: Config, r: Run) {
    match r
    case Start(created) => !SlipsAtBirth(created)
    case After(before, step, _) => Unslipped(cfg, before) && !Slips(cfg, SysOf(cfg, before), step)
  }

  /** A run without slips is one the store can make, through the same states. */
  lemma {:induction false} UnslippedRunIsStored(cfg: Config, r: Run)
    requires Legal(cfg, r) && Unslipped(cfg, r)
    ensures LegalInStore(cfg, r) && NeverSlips(cfg, r) && StoreOf(cfg, r) == SysOf(cfg, r)
  {
    hide Allowed, Written, Emitted, Inserted, LegalStart, Slips, SlipsAtBirth;
    if r.After? {
      UnslippedRunIsStored(cfg, r.before);
    }
    RowIsFoldExactly(cfg, r);
    StoreFollowsRuns(cfg, r);
  }

  // ---- a slip that strands a job ------------------------------------------------------------------

  /** The heartbeat of a worker that waits for input: a clean cancel. */
  function AwaitsInput(epoch: int): Engine.EngineEvent { Engine.Heartbeat(epoch, HealthOK, true, false) }

  lemma CancelledReview(es: Engine.EngineState)
    requires es.job.state == SpecReview && es.epoch == es.job.leaseEpoch
    ensures var d := Engine.DecideHeartbeat(es, AwaitsInput(es.epoch));
      && d.reject == None && |d.transitions| == 1 && d.transitions[0].kind == Engine.KindFastCancelled
      && d.transitions[0].to == SpecAuthoring
  {
  }

  lemma CancelledReviewRow(row: Job, t: Engine.Transition)
    requires t.to == SpecAuthoring && StaffedBy(row, SpecReviewer)
    ensures var k := RevokeWrite(row, t, ""); k.state == SpecAuthoring && StaffedBy(k, SpecReviewer)
  {
  }

  /** A spec under review whose reviewer waits for input goes back to its author in the ledger, but
      its row still asks for a reviewer, so no author can claim it. */
  lemma KilledReviewStrandsRow(cfg: Config, created: Event, author: Lease, hash: string, version: int, seen: Seen, at: int)
    requires LegalStart(cfg, created) && created.body.intake.kind == SpecJob && created.toState == SpecAuthoring
    requires !SlipsAtBirth(created) && author.id != ""
    ensures var authored := After(After(Start(created), Claim(ForAuthoring, author, ""), at), Author(Materialize(1, hash, version)), at);
      var r := After(authored, Call(seen, AwaitsInput(1), ""), at);
      && LegalInStore(cfg, r) && StoreOf(cfg, r).job.state == SpecAuthoring && StaffedBy(StoreOf(cfg, r).job, SpecReviewer)
      && !AlwaysFold(cfg, r)
  {
    hide Step, FoldFrom, LegalStart, SlipsAtBirth, StoreOf, SysOf, Legal, RevokeWrite, StageRole, Approvers, MeterDecision;
    var authored := After(After(Start(created), Claim(ForAuthoring, author, ""), at), Author(Materialize(1, hash, version)), at);
    AuthoredRun(cfg, created, author, hash, version, at);
    AuthoredIsUnslipped(cfg, created, author, hash, version, at);
    UnslippedRunIsStored(cfg, authored);
    RunsAreFolded(cfg, authored);
    StrandedByKill(cfg, authored, seen, at);
  }

  lemma AuthoredIsUnslipped(cfg: Config, created: Event, author: Lease, hash: string, version: int, at: int)
    requires !SlipsAtBirth(created)
    ensures Unslipped(cfg, After(After(Start(created), Claim(ForAuthoring, author, ""), at), Author(Materialize(1, hash, version)), at))
  {
    hide SlipsAtBirth, SysOf;
    var claimed := After(Start(created), Claim(ForAuthoring, author, ""), at);
    assert Unslipped(cfg, Start(created));
    assert Unslipped(cfg, claimed);
  }

  lemma StrandedByKill(cfg: Config, r: Run, seen: Seen, at: int)
    requires LegalInStore(cfg, r) && Folded(StoreOf(cfg, r).job)
    requires StoreOf(cfg, r).job.state == SpecReview && StoreOf(cfg, r).job.leaseEpoch == 1
    ensures var k := After(r, Call(seen, AwaitsInput(1), ""), at);
      && LegalInStore(cfg, k) && StoreOf(cfg, k).job.state == SpecAuthoring && StaffedBy(StoreOf(cfg, k).job, SpecReviewer)
      && !AlwaysFold(cfg, k)
  {
    hide FoldFrom, LegalInStore, StoreOf, RevokeWrite, Engine.DecideHeartbeat, AlwaysFold, NeverSlips;
    var s, ev := StoreOf(cfg, r), AwaitsInput(1);
    var k := After(r, Call(seen, ev, ""), at);
    CancelledReview(EngineStateOf(cfg, s, seen, ev));
    CancelledReviewRow(s.job, DecisionOf(cfg, s, seen, ev).transitions[0]);
    StoreGrows(cfg, r, Call(seen, ev, ""), at);
    RowIsFoldExactly(cfg, k);
  }

  /** So does a claimed spec review whose reviewer lets go of it. */
  lemma ReleasedReviewStrandsRow(cfg: Config, created: Event, author: Lease, hash: string, version: int, reviewer: Lease,
      lens: string, seen: Seen, at: int)
    requires LegalStart(cfg, created) && created.body.intake.kind == SpecJob && created.toState == SpecAuthoring
    requires !SlipsAtBirth(created) && author.id != "" && reviewer.id != "" && !(cfg.authorLens != "" && lens == cfg.authorLens)
    ensures var authored := After(After(Start(created), Claim(ForAuthoring, author, ""), at), Author(Materialize(1, hash, version)), at);
      var r := After(After(authored, Claim(ForSpecReview, reviewer, lens), at), GiveBack(seen, 2, false, false), at);
      && LegalInStore(cfg, r) && StoreOf(cfg, r).job.state == SpecAuthoring && StaffedBy(StoreOf(cfg, r).job, SpecReviewer)
      && !AlwaysFold(cfg, r)
  {
    hide Step, FoldFrom, LegalStart, SlipsAtBirth, StoreOf, SysOf, Legal, StageRole, Approvers, MeterDecision;
    var authored := After(After(Start(created), Claim(ForAuthoring, author, ""), at), Author(Materialize(1, hash, version)), at);
    var claimed := After(authored, Claim(ForSpecReview, reviewer, lens), at);
    AuthoredRun(cfg, created, author, hash, version, at);
    AuthoredIsUnslipped(cfg, created, author, hash, version, at);
    ClaimedForReview(cfg, authored, reviewer, lens, at);
    UnslippedRunIsStored(cfg, claimed);
    RunsAreFolded(cfg, claimed);
    StrandedByRelease(cfg, claimed, seen, at);
  }

  lemma ReleasedReviewRow(row: Job)
    requires Folded(row) && row.state == SpecReview
    ensures var k := ReleaseWrite(row, false, false); k.state == SpecAuthoring && StaffedBy(k, SpecReviewer)
    ensures ReleaseSlips(row)
  {
  }

  lemma StrandedByRelease(cfg: Config, r: Run, seen: Seen, at: int)
    requires LegalInStore(cfg, r) && Folded(StoreOf(cfg, r).job)
    requires StoreOf(cfg, r).job.state == SpecReview && StoreOf(cfg, r).job.leaseEpoch == 2
    ensures var k := After(r, GiveBack(seen, 2, false, false), at);
      && LegalInStore(cfg, k) && StoreOf(cfg, k).job.state == SpecAuthoring && StaffedBy(StoreOf(cfg, k).job, SpecReviewer)
      && !AlwaysFold(cfg, k)
  {
    hide FoldFrom, LegalInStore, StoreOf, ReleaseWrite, ReleaseSlips, AlwaysFold, NeverSlips, Folded;
    var s, step := StoreOf(cfg, r), GiveBack(seen, 2, false, false);
    ReleasedReviewRow(s.job);
    StoreGrows(cfg, r, step, at);
    RowIsFoldExactly(cfg, After(r, step, at));
  }

  lemma StoreGrows(cfg: Config, r: Run, step: StepKind, at: int)
    requires LegalInStore(cfg, r) && Allowed(cfg, StoreOf(cfg, r), step)
    ensures LegalInStore(cfg, After(r, step, at)) && StoreOf(cfg, After(r, step, at)) == Stored(cfg, StoreOf(cfg, r), step, at)
    ensures Slips(cfg, StoreOf(cfg, r), step) ==> !NeverSlips(cfg, After(r, step, at))
  {
    hide Allowed, Slips, Stored;
  }
}
