/** What the folded columns mean, told from the ledger alone: the counters are tallies since the
    last reset, the meter is the sum of the reports, and the artifact columns hold what the last event
    that sets each of them set it to. */
module Tallies {
  import opened Jobs
  import opened Ledger
  import opened Protocol
  import opened Runtime
  import opened Runs
  import opened Leases

  // ---- counters ------------------------------------------------------------------------

  /** An attempt is used up by giving a lease back at a penalty or having it taken for a fresh
      start. */
  function AttemptUsed(e: Event): int {
    if (e.body.Leasing? && e.body.leasing.LeaseReleased? && e.body.leasing.attemptsDelta == 1)
       || (e.body.Kill? && (e.body.kill.LeaseRevoked? || e.body.kill.FastCancelled?)) then 1 else 0
  }

  function StallUsed(e: Event): int {
    if e.body.Kill? && (e.body.kill.LeaseRevoked? || e.body.kill.StallEscalated?) then 1 else 0
  }

  function BounceUsed(e: Event): int {
    if (e.body.Gate? && (e.body.gate.ReviewBounced? || e.body.gate.BounceExhausted?))
       || (e.body.Speccing? && e.body.speccing.SpecBounced?) then 1 else 0
  }

  function Spent(e: Event): int {
    if e.body.Kill? && (e.body.kill.CostMetered? || e.body.kill.CostEscalated?) then e.body.kill.costDelta else 0
  }

  function SinceReset(events: seq<Event>, weigh: Event -> int): int {
    if events == [] then 0
    else
      var last := events[|events| - 1];
      if Resets(last) then 0 else SinceReset(events[..|events| - 1], weigh) + weigh(last)
  }

  function Total(events: seq<Event>, weigh: Event -> int): int {
    if events == [] then 0 else Total(events[..|events| - 1], weigh) + weigh(events[|events| - 1])
  }

  lemma EventTallies(ceiling: int, j: Job, e: Event, k: Job)
    requires Fits(ceiling, j, e) && Lands(j, e, k)
    ensures k.counters.attempts == if Resets(e) then 0 else j.counters.attempts + AttemptUsed(e)
    ensures k.counters.stallRevocations == if Resets(e) then 0 else j.counters.stallRevocations + StallUsed(e)
    ensures k.counters.bounces == if Resets(e) then 0 else j.counters.bounces + BounceUsed(e)
    ensures k.costMicroUSD == j.costMicroUSD + Spent(e)
  {
  }

  predicate Tallied(j: Job, events: seq<Event>) {
    && j.counters.attempts == SinceReset(events, AttemptUsed)
    && j.counters.stallRevocations == SinceReset(events, StallUsed)
    && j.counters.bounces == SinceReset(events, BounceUsed)
    && j.costMicroUSD == Total(events, Spent)
  }

  lemma {:induction false} PathIsTallied(ceiling: int, born: Job, events: seq<Event>, n: nat)
    requires Path(ceiling, born, events) && n <= |events|
    requires Tallied(born, [])
    ensures Tallied(JobAt(born, events, n), events[..n])
  {
    hide Path, Step, JobAt, Fits, Lands, AttemptUsed, StallUsed, BounceUsed, Spent, Resets;
    if n == 0 {
      JobAtStart(born, events);
    } else {
      PathIsTallied(ceiling, born, events, n - 1);
      PathStep(ceiling, born, events, n - 1);
      EventTallies(ceiling, JobAt(born, events, n - 1), events[n - 1], JobAt(born, events, n));
      assert events[..n][..n - 1] == events[..n - 1] && events[..n][n - 1] == events[n - 1];
    }
  }

  /** At every point of every run the attempts, stalls and bounces of a job are the number of
      events that used one up since the last reset, and its meter is the sum of all reports. */
  lemma CountersAreTallies(cfg: Config, r: Run)
    requires Legal(cfg, r)
    ensures Tallied(JobOf(cfg, r), Later(cfg, r))
  {
    hide Allowed, Emitted, Tallied;
    LaterLeadsToJob(cfg, r);
    LedgerIsPath(cfg, r);
    BornUnspent(cfg, Created(r));
    var events := Later(cfg, r);
    PathIsTallied(cfg.ceiling, Born(r), events, |events|);
    assert events[..|events|] == events;
  }

  lemma BornUnspent(cfg: Config, created: Event)
    requires LegalStart(cfg, created)
    ensures Tallied(Step(ZERO_JOB, created), [])
  {
  }

  // ---- the artifact under review ----------------------------------------------------------

  /** Events that void the sign-off over the current artifact. */
  predicate VoidsVerdict(e: Event) {
    e.body.Head? || Resets(e) || (e.body.Control? && e.body.control.JanitorUnblocked?)
  }

  /** What the event sets the verdict to, if it says anything of it. */
  function SetsVerdict(e: Event): Option<Option<Verdict>> {
    if VoidsVerdict(e) then Some(None)
    else if e.body.Gate? && e.body.gate.VerdictMinted? then Some(e.body.gate.minted)
    else None
  }

  function Named(sha: string): Option<string> { if sha == "" then None else Some(sha) }

  /** The commit under review that the event establishes: a result, a head move or a mint names
      one, an opened pull request or an approval may, and a fresh start forgets it. */
  function SetsHead(e: Event): Option<string> {
    match e.body
    case Leasing(ResultAccepted(head)) => Some(head)
    case Gate(VerdictMinted(Some(v))) => Some(v.headSHA)
    case Gate(ReviewApproved(head)) => Named(head)
    case Head(SupersededBy(_)) => Some("")
    case Head(AdoptRearmed(_, head)) => Some(head)
    case Head(Rebased(_, head)) => Some(head)
    case Head(ConflictResolved(head)) => Some(head)
    case Note(PROpened(head)) => Named(head)
    case Control(_) => if VoidsVerdict(e) then Some("") else None
    case _ => None
  }

  /** The base the event puts the work on. */
  function SetsBase(e: Event): Option<string> {
    match e.body
    case Intake(JobCreated(_, _, base, _, _, _)) => Some(base)
    case Gate(VerdictMinted(Some(v))) => Named(v.baseSHA)
    case Head(SupersededBy(base)) => Named(base)
    case Head(AdoptRearmed(base, _)) => Some(base)
    case Head(Rebased(base, _)) => Named(base)
    case Head(ConflictDetected(base)) => Named(base)
    case Note(BaseRefreshed(base)) => Some(base)
    case _ => None
  }

  /** What the last event of the ledger that sets anything sets it to. */
  function LastSet<T>(ledger: seq<Event>, sets: Event -> Option<T>, unset: T): T {
    if ledger == [] then unset
    else
      var last := ledger[|ledger| - 1];
      if sets(last).Some? then sets(last).value else LastSet(ledger[..|ledger| - 1], sets, unset)
  }

  function Updated<T>(before: T, change: Option<T>): T { if change.Some? then change.value else before }

  predicate ArtifactAfter(j: Job, e: Event, k: Job) {
    && k.verdict == Updated(j.verdict, SetsVerdict(e))
    && k.headSHA == Updated(j.headSHA, SetsHead(e))
    && k.baseSHA == Updated(j.baseSHA, SetsBase(e))
  }

  lemma GateArtifacts(j: Job, e: Event)
    requires e.body.Gate?
    ensures ArtifactAfter(j, e, Derived(AppliedGate(j, e, e.body.gate), e))
  {
    hide StageRole;
  }

  lemma HeadArtifacts(j: Job, e: Event)
    requires e.body.Head?
    ensures ArtifactAfter(j, e, Derived(AppliedHead(j, e, e.body.head), e))
  {
    hide StageRole;
  }

  lemma ControlArtifacts(j: Job, e: Event)
    requires e.body.Control?
    ensures ArtifactAfter(j, e, Derived(AppliedControl(j, e, e.body.control), e))
  {
    hide StageRole;
  }

  lemma LeasingArtifacts(j: Job, e: Event)
    requires e.body.Leasing?
    ensures ArtifactAfter(j, e, Derived(AppliedLeasing(j, e, e.body.leasing), e))
  {
    hide StageRole;
  }

  lemma NoteArtifacts(j: Job, e: Event)
    requires e.body.Note?
    ensures ArtifactAfter(j, e, Derived(AppliedNote(j, e.body.note), e))
  {
    hide StageRole;
  }

  lemma OtherArtifacts(j: Job, e: Event)
    requires e.body.Intake? || e.body.Speccing? || e.body.Kill?
    ensures ArtifactAfter(j, e, Step(j, e))
  {
    hide StageRole, AppliedGate, AppliedHead, AppliedControl, AppliedLeasing, AppliedNote;
  }

  lemma EventArtifacts(j: Job, e: Event)
    ensures ArtifactAfter(j, e, Step(j, e))
  {
    hide AppliedIntake, AppliedLeasing, AppliedGate, AppliedHead, AppliedSpec, AppliedKill, AppliedControl, AppliedNote,
      Derived, ArtifactAfter;
    match e.body
    case Gate(_) => GateArtifacts(j, e);
    case Head(_) => HeadArtifacts(j, e);
    case Control(_) => ControlArtifacts(j, e);
    case Leasing(_) => LeasingArtifacts(j, e);
    case Note(_) => NoteArtifacts(j, e);
    case _ => OtherArtifacts(j, e);
  }

  lemma VerdictColumn(j: Job, e: Event)
    ensures Step(j, e).verdict == Updated(j.verdict, SetsVerdict(e))
  {
    hide Step;
    EventArtifacts(j, e);
  }

  lemma {:induction false} ArtifactOfLedger(ledger: seq<Event>)
    ensures var j := FoldFrom(ZERO_JOB, ledger);
      && j.verdict == LastSet(ledger, SetsVerdict, None)
      && j.headSHA == LastSet(ledger, SetsHead, "")
      && j.baseSHA == LastSet(ledger, SetsBase, "")
    decreases |ledger|
  {
    hide Step, SetsVerdict, SetsHead, SetsBase;
    if ledger == [] {
      FoldNone(ZERO_JOB);
    } else {
      var k := |ledger| - 1;
      ArtifactOfLedger(ledger[..k]);
      EventArtifacts(FoldFrom(ZERO_JOB, ledger[..k]), ledger[k]);
      FoldLast(ZERO_JOB, ledger, k);
      assert ledger[..k + 1] == ledger;
    }
  }

  /** In every run the verdict, head and base on record are what the last event that sets each of
      them set it to, found by reading the ledger backwards. */
  lemma ArtifactColumns(cfg: Config, r: Run)
    ensures var j, ledger := JobOf(cfg, r), SysOf(cfg, r).ledger;
      && j.verdict == LastSet(ledger, SetsVerdict, None)
      && j.headSHA == LastSet(ledger, SetsHead, "")
      && j.baseSHA == LastSet(ledger, SetsBase, "")
  {
    hide SysOf, FoldFrom, LastSet;
    ProjectionIsFold(cfg, r);
    ArtifactOfLedger(SysOf(cfg, r).ledger);
  }

  // ---- the human-gate columns ---------------------------------------------------------------

  lemma ParkedAfter(j: Job, e: Event)
    ensures var k := Step(j, e); k.overBudget || k.escalationReason != "" ==> HumanGate(k.state)
  {
    hide Applied;
  }

  lemma {:induction false} ParkedAfterAll(j: Job, events: seq<Event>)
    requires events != []
    ensures var k := FoldFrom(j, events); k.overBudget || k.escalationReason != "" ==> HumanGate(k.state)
    decreases |events|
  {
    hide Step;
    ParkedAfter(j, events[0]);
    if |events| > 1 {
      ParkedAfterAll(Step(j, events[0]), events[1..]);
    }
  }

  /** In every run the over-budget mark and the escalation reason are set in the fold only while the
      job waits for a human, never while a worker holds it. */
  lemma ParkedColumns(cfg: Config, r: Run)
    requires Legal(cfg, r)
    ensures JobOf(cfg, r).overBudget || JobOf(cfg, r).escalationReason != "" ==> HumanGate(JobOf(cfg, r).state)
    ensures HasActiveLease(JobOf(cfg, r).state) ==> !JobOf(cfg, r).overBudget
  {
    hide Allowed, Emitted, Step, FoldFrom;
    LedgerIsPath(cfg, r);
    ProjectionIsFold(cfg, r);
    ParkedAfterAll(ZERO_JOB, SysOf(cfg, r).ledger);
  }
}
