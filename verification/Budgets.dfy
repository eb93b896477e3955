/** What bounds rework: the bounce budget, the reviewer panel and the number of leases a build
    can take. */
module Budgets {
  import opened Jobs
  import opened Verdicts
  import opened Ledger
  import opened Protocol
  import opened Runtime
  import opened Runs
  import opened Leases
  import Engine

  // ---- the bounce budget -----------------------------------------------------------

  predicate IsBounce(e: Event) { e.body.Gate? && e.body.gate.ReviewBounced? }

  /** One more event: bounces recorded since the counters were last reset. */
  function BouncedBy(bounced: nat, e: Event): nat {
    if Resets(e) then 0 else bounced + (if IsBounce(e) then 1 else 0)
  }

  function BouncedSinceReset(events: seq<Event>): nat {
    if events == [] then 0
    else BouncedBy(BouncedSinceReset(events[..|events| - 1]), events[|events| - 1])
  }

  /** Red CI bounced the job, not a reviewer. */
  predicate CIBounce(j: Job, e: Event) { IsBounce(e) && j.state == ReviewPending }

  lemma EventKeepsBounceBudget(ceiling: int, j: Job, e: Event, k: Job, bounced: nat)
    requires Fits(ceiling, j, e) && Lands(j, e, k) && j.counters.maxBounces >= 1
    requires bounced <= j.counters.bounces && bounced <= j.counters.maxBounces
    ensures var after := BouncedBy(bounced, e);
      && k.counters.maxBounces == j.counters.maxBounces
      && after <= k.counters.bounces && after <= k.counters.maxBounces
      && (bounced < j.counters.maxBounces && !CIBounce(j, e) ==> after < k.counters.maxBounces)
  {
  }

  lemma {:induction false} BounceBudgetOnPaths(ceiling: int, born: Job, events: seq<Event>, n: nat)
    requires Path(ceiling, born, events) && n <= |events|
    requires born.counters.bounces == 0 && born.counters.maxBounces >= 1
    ensures var j := JobAt(born, events, n);
      && j.counters.maxBounces == born.counters.maxBounces
      && BouncedSinceReset(events[..n]) <= j.counters.bounces
      && BouncedSinceReset(events[..n]) <= born.counters.maxBounces
      && ((forall k: nat :: k < n ==> !CIBounce(JobAt(born, events, k), events[k]))
            ==> BouncedSinceReset(events[..n]) < born.counters.maxBounces)
  {
    hide Path, Step, JobAt, Fits, Lands, CIBounce, BouncedBy;
    if n == 0 {
      JobAtStart(born, events);
    } else {
      BounceBudgetOnPaths(ceiling, born, events, n - 1);
      PathStep(ceiling, born, events, n - 1);
      assert events[..n][..n - 1] == events[..n - 1] && events[..n][n - 1] == events[n - 1];
      EventKeepsBounceBudget(ceiling, JobAt(born, events, n - 1), events[n - 1], JobAt(born, events, n),
                             BouncedSinceReset(events[..n - 1]));
    }
  }

  /** Between two counter resets a build is bounced at most MaxBounces times, and by reviewers
      alone at most MaxBounces - 1 times. */
  lemma BounceBudget(cfg: Config, r: Run, n: nat)
    requires Legal(cfg, r) && IsBuild(r) && n <= |Later(cfg, r)|
    ensures var events := Later(cfg, r);
      && BouncedSinceReset(events[..n]) <= DEFAULT_MAX_BOUNCES
      && ((forall k: nat :: k < n ==> !CIBounce(JobAt(Born(r), events, k), events[k]))
            ==> BouncedSinceReset(events[..n]) <= DEFAULT_MAX_BOUNCES - 1)
  {
    hide Allowed, Emitted;
    LaterLeadsToJob(cfg, r);
    BuildIsBornLeasable(cfg, r);
    BounceBudgetOnPaths(cfg.ceiling, Born(r), Later(cfg, r), n);
  }

  // ---- the panel -------------------------------------------------------------------

  predicate IsApproval(e: Event) { e.body.Gate? && e.body.gate.ReviewApproved? }

  /** Sub-threshold approvals since the head under review was established. */
  function RoundApprovals(ledger: seq<Event>): nat {
    if ledger == [] then 0
    else
      var last := ledger[|ledger| - 1];
      if StartsRound(last) then 0
      else RoundApprovals(ledger[..|ledger| - 1]) + (if IsApproval(last) then 1 else 0)
  }

  lemma PanelAfter(ledger: seq<Event>, e: Event)
    ensures Approvers(ledger + [e]) ==
      if StartsRound(e) then {} else Approvers(ledger) + (if ApprovedClaim(e) then {e.actor} else {})
    ensures RoundApprovals(ledger + [e]) == if StartsRound(e) then 0 else RoundApprovals(ledger) + (if IsApproval(e) then 1 else 0)
  {
  }

  /** While a head is under review, its approvals are by that many distinct reviewers, fewer than
      the panel needs, and whoever reviews now has not approved it yet. */
  predicate PanelOpen(panel: int, approvers: set<string>, approvals: nat, j: Job) {
    && approvals < panel
    && (j.state == ReviewPending || j.state == CodeReview ==> |approvers| == approvals)
    && (j.state == CodeReview ==> j.lease.identity !in approvers)
  }

  /** Any event but an approval, or a claim by someone who approved, keeps the panel in order. */
  lemma QuietEventKeepsPanel(ceiling: int, panel: int, approvers: set<string>, approvals: nat, j: Job, e: Event, k: Job)
    requires PanelOpen(panel, approvers, approvals, j) && Fits(ceiling, j, e) && Lands(j, e, k)
    requires !ApprovedClaim(e) && !IsApproval(e)
    requires IsClaim(e) && e.toState == CodeReview ==> LeaseAfter(j, e).identity !in approvers
    ensures if StartsRound(e) then PanelOpen(panel, {}, 0, k) else PanelOpen(panel, approvers, approvals, k)
  {
  }

  predicate PanelInOrder(panel: int, ledger: seq<Event>, j: Job) {
    PanelOpen(panel, Approvers(ledger), RoundApprovals(ledger), j)
  }

  lemma QuietStepKeepsPanel(ceiling: int, panel: int, ledger: seq<Event>, j: Job, e: Event)
    requires PanelInOrder(panel, ledger, j) && Fits(ceiling, j, e)
    requires !ApprovedClaim(e) && !IsApproval(e)
    requires IsClaim(e) && e.toState == CodeReview ==> LeaseAfter(j, e).identity !in Approvers(ledger)
    ensures PanelInOrder(panel, ledger + [e], Step(j, e))
  {
    hide Fits, Step, StartsRound;
    EventLands(ceiling, j, e);
    QuietEventKeepsPanel(ceiling, panel, Approvers(ledger), RoundApprovals(ledger), j, e, Step(j, e));
    PanelAfter(ledger, e);
  }

  /** The event is no part of a review. */
  predicate Quiet(e: Event) {
    !ApprovedClaim(e) && !IsApproval(e) && !(IsClaim(e) && e.toState == CodeReview)
  }

  lemma QuietPathKeepsPanel(ceiling: int, panel: int, ledger: seq<Event>, j: Job, es: seq<Event>)
    requires PanelInOrder(panel, ledger, j) && Path(ceiling, j, es)
    requires forall i :: 0 <= i < |es| ==> Quiet(es[i])
    ensures PanelInOrder(panel, ledger + es, FoldFrom(j, es))
    decreases |es|
  {
    hide Fits, Step, PanelInOrder, ApprovedClaim, IsApproval, IsClaim;
    if es == [] {
      assert ledger + es == ledger;
    } else {
      QuietStepKeepsPanel(ceiling, panel, ledger, j, es[0]);
      QuietPathKeepsPanel(ceiling, panel, ledger + [es[0]], Step(j, es[0]), es[1..]);
      assert ledger + [es[0]] + es[1..] == ledger + es;
    }
  }

  /** A gate outcome takes the job out of code_review, and only an approval back into the queue. */
  lemma OutcomeLeavesReview(ceiling: int, j: Job, e: Event, k: Job)
    requires Fits(ceiling, j, e) && Lands(j, e, k) && e.body.Gate? && j.state == CodeReview
    ensures k.state != CodeReview && (k.state == ReviewPending ==> IsApproval(e))
    ensures !StartsRound(e) && !ApprovedClaim(e)
  {
  }

  lemma NoteChangesNoReview(ceiling: int, j: Job, e: Event, k: Job)
    requires Fits(ceiling, j, e) && Lands(j, e, k) && e.body.Note?
    ensures k.state == j.state && !StartsRound(e) && !IsApproval(e)
  {
  }

  /** A review's two events: the recorded claim, then what the gate made of it. */
  lemma ReviewKeepsPanel(ceiling: int, panel: int, ledger: seq<Event>, j: Job, claimed: Event, outcome: Event)
    requires PanelInOrder(panel, ledger, j) && j.state == CodeReview
    requires Fits(ceiling, j, claimed) && claimed.body.Note? && claimed.actor == j.lease.identity
    requires Fits(ceiling, Step(j, claimed), outcome) && outcome.body.Gate?
    requires IsApproval(outcome) ==> ApprovedClaim(claimed) && RoundApprovals(ledger) + 1 < panel
    ensures PanelInOrder(panel, ledger + [claimed] + [outcome], Step(Step(j, claimed), outcome))
  {
    hide Step, ApprovedClaim, IsApproval, StartsRound, Fits, Lands, Approvers, RoundApprovals;
    var k := Step(j, claimed);
    EventLands(ceiling, j, claimed);
    NoteChangesNoReview(ceiling, j, claimed, k);
    EventLands(ceiling, k, outcome);
    OutcomeLeavesReview(ceiling, k, outcome, Step(k, outcome));
    PanelAfter(ledger, claimed);
    PanelAfter(ledger + [claimed], outcome);
  }

  lemma AppendedQuietly(e: Event, step: StepKind)
    requires AppendedBy(e, step) && !Reviews(step) && !(step.Claim? && step.kind == ForReview)
    ensures Quiet(e)
  {
  }

  /** What a review claim's transition says about the panel. */
  predicate PanelMove(t: Engine.Transition, ev: Engine.EngineEvent, required: int)
    requires ev.ReviewClaim?
  {
    && (t.kind == Engine.KindReviewApproved ==> ev.value == APPROVED && ev.priorApprovals + 1 < required)
    && (t.kind == Engine.KindVerdictMinted ==> ev.value == APPROVED && ev.priorApprovals + 1 >= required)
  }

  lemma ReviewClaimPanelMove(H: Digest, es: Engine.EngineState, ev: Engine.EngineEvent)
    requires ev.ReviewClaim?
    ensures var d := Engine.DecideReviewClaim(H, es, ev);
      && (d.transitions != [] ==> PanelMove(d.transitions[0], ev, es.policy.RequiredReviewersOrDefault()))
      && (d.verdictMint.Some? ==> d.transitions != [] && d.transitions[0].kind == Engine.KindVerdictMinted)
  {
    hide GatePredicate, SelfMergeEligible, MintVerdict;
  }

  lemma ReviewEventsKeepPanel(ceiling: int, panel: int, ledger: seq<Event>, j: Job, ts: seq<Engine.Transition>,
                              ev: Engine.EngineEvent, head: string, at: int)
    requires ev.ReviewClaim? && (ts == [] || (|ts| == 1 && ReviewMove(j, ts[0]) && PanelMove(ts[0], ev, panel)))
    requires PanelInOrder(panel, ledger, j) && ev.priorApprovals == |Approvers(ledger)|
    ensures var es := EventsOf(j, ts, ev, head, at); PanelInOrder(panel, ledger + es, FoldFrom(j, es))
  {
    hide Fits, Step, Approvers, RoundApprovals, TransitionEvent, FoldFrom, ApprovedClaim, PanelMove;
    if ts == [] {
      assert ledger + [] == ledger;
      FoldNone(j);
    } else {
      var claimed := ClaimRecord(j, VerdictClaim(ev.value), at);
      var outcome := TransitionEvent(j, ts[0], ev, head, at);
      ClaimRecordFits(ceiling, j, ev.value, at);
      var second := outcome.(jobSeq := outcome.jobSeq + 1);
      EventLands(ceiling, j, claimed);
      ReviewMoveFits(ceiling, j, Step(j, claimed), ts[0], ev, head, at);
      RenumberedFits(ceiling, Step(j, claimed), outcome, outcome.jobSeq + 1);
      ApprovalIsOfApproved(panel, j, ts[0], ev, head, at);
      ReviewKeepsPanel(ceiling, panel, ledger, j, claimed, second);
      FoldTwo(j, claimed, second);
      assert ledger + [claimed] + [second] == ledger + [claimed, second];
    }
  }

  lemma ApprovalIsOfApproved(panel: int, j: Job, t: Engine.Transition, ev: Engine.EngineEvent, head: string, at: int)
    requires ev.ReviewClaim? && ReviewMove(j, t) && PanelMove(t, ev, panel)
    ensures var outcome := TransitionEvent(j, t, ev, head, at);
      && outcome.body.Gate?
      && (IsApproval(outcome) ==> ApprovedClaim(ClaimRecord(j, VerdictClaim(ev.value), at)) && ev.priorApprovals + 1 < panel)
  {
  }

  /** Every step of the runtime keeps the panel in order, with the policy's panel size fixed. */
  lemma StepKeepsPanel(cfg: Config, panel: int, s: Sys, step: StepKind, at: int)
    requires Allowed(cfg, s, step) && PanelInOrder(panel, s.ledger, s.job)
    requires step.Call? ==> step.seen.policy.RequiredReviewersOrDefault() == panel
    ensures PanelInOrder(panel, Next(cfg, s, step, at).ledger, Next(cfg, s, step, at).job)
  {
    hide Approvers, RoundApprovals, EvaluateGate, EvaluateSpecGate, Path, Step;
    var es := Emitted(cfg, s, step, at);
    EmittedIsPath(cfg, s, step, at);
    if step.Call? && step.ev.ReviewClaim? {
      var state := EngineStateOf(cfg, s, step.seen, step.ev);
      ReviewMoves(cfg.H, state, step.ev);
      ReviewClaimPanelMove(cfg.H, state, step.ev);
      ReviewEventsKeepPanel(cfg.ceiling, panel, s.ledger, s.job,
                            DecisionOf(cfg, s, step.seen, step.ev).transitions, step.ev, step.head, at);
    } else if step.Claim? && step.kind == ForReview {
      FoldOne(s.job, es[0]);
      QuietStepKeepsPanel(cfg.ceiling, panel, s.ledger, s.job, es[0]);
    } else {
      EmittedAppended(cfg, s, step, at);
      forall i | 0 <= i < |es| ensures Quiet(es[i]) {
        AppendedQuietly(es[i], step);
      }
      QuietPathKeepsPanel(cfg.ceiling, panel, s.ledger, s.job, es);
    }
  }

  /** Every call along the run saw a policy with this panel size. */
  predicate FixedPanel(r: Run, panel: int) {
    match r
    case Start(_) => true
    case After(before, step, _) =>
      FixedPanel(before, panel) && (step.Call? ==> step.seen.policy.RequiredReviewersOrDefault() == panel)
  }

  /** In every round at most panel - 1 approvals are banked, each by a different reviewer. */
  lemma {:induction false} PanelHolds(cfg: Config, panel: int, r: Run)
    requires Legal(cfg, r) && FixedPanel(r, panel) && panel >= 1
    ensures PanelInOrder(panel, SysOf(cfg, r).ledger, JobOf(cfg, r))
  {
    hide Allowed, Next, PanelInOrder;
    match r
    case Start(created) => BirthIsInOrder(cfg, panel, created);
    case After(before, step, at) =>
      PanelHolds(cfg, panel, before);
      StepKeepsPanel(cfg, panel, SysOf(cfg, before), step, at);
  }

  lemma BirthIsInOrder(cfg: Config, panel: int, created: Event)
    requires LegalStart(cfg, created) && panel >= 1
    ensures PanelInOrder(panel, [created], Step(ZERO_JOB, created))
  {
  }

  /** A verdict is minted exactly on the panel-th distinct approval of the round: panel - 1
      approvals are banked, and the approver whose claim mints is none of those. */
  lemma MintCompletesPanel(cfg: Config, panel: int, r: Run, seen: Seen, ev: Engine.EngineEvent, head: string)
    requires Legal(cfg, r) && FixedPanel(r, panel) && panel >= 1
    requires Allowed(cfg, SysOf(cfg, r), Call(seen, ev, head)) && seen.policy.RequiredReviewersOrDefault() == panel
    requires DecisionOf(cfg, SysOf(cfg, r), seen, ev).verdictMint.Some?
    ensures RoundApprovals(SysOf(cfg, r).ledger) == panel - 1
    ensures |Approvers(SysOf(cfg, r).ledger) + {JobOf(cfg, r).lease.identity}| == panel
  {
    hide Approvers, RoundApprovals, Legal, EvaluateGate, EvaluateSpecGate;
    PanelHolds(cfg, panel, r);
    var s := SysOf(cfg, r);
    if ev.ReviewClaim? {
      var state := EngineStateOf(cfg, s, seen, ev);
      ReviewMoves(cfg.H, state, ev);
      ReviewClaimPanelMove(cfg.H, state, ev);
    } else {
      DecisionKinds(cfg.H, EngineStateOf(cfg, s, seen, ev), ev);
    }
  }

  // ---- how many leases a build takes --------------------------------------------------

  function Claims(ledger: seq<Event>): nat {
    if ledger == [] then 0
    else Claims(ledger[..|ledger| - 1]) + (if IsClaim(ledger[|ledger| - 1]) then 1 else 0)
  }

  predicate IsRelease(e: Event) { e.body.Leasing? && e.body.leasing.LeaseReleased? }

  function Releases(ledger: seq<Event>): nat {
    if ledger == [] then 0
    else Releases(ledger[..|ledger| - 1]) + (if IsRelease(ledger[|ledger| - 1]) then 1 else 0)
  }

  /** Leases taken and not given back. */
  function Kept(ledger: seq<Event>): int { Claims(ledger) - Releases(ledger) }

  function KeptBy(e: Event): int { (if IsClaim(e) then 1 else 0) - (if IsRelease(e) then 1 else 0) }

  /** The event does not re-arm the job from outside or out of a merge. A bounce for red CI is allowed
      where the reconciler is given one bounce more than the reviewers. */
  predicate Undisturbed(extra: nat, j: Job, e: Event) {
    match e.body
    case Leasing(b) => b.LeaseReleased? ==> InPlay(j.state)
    case Gate(_) => extra > 0 || !CIBounce(j, e)
    case Head(_) => false
    case Kill(b) => !b.FastCancelled?
    case Control(b) => !b.JanitorUnblocked? && !Resets(e)
    case _ => true
  }

  /** Leases that `bounces` full review cycles can take: a build, panel - 1 approvals, a bounce. */
  function Cycles(panel: int, bounces: int): int { bounces * (panel + 1) }

  lemma CyclesGrow(panel: int, b: int, c: int)
    requires b <= c && panel >= 0
    ensures Cycles(panel, b + 1) == Cycles(panel, b) + panel + 1
    ensures Cycles(panel, b) <= Cycles(panel, c)
  {
  }

  function LeaseCap(panel: int, cycles: int, ceiling: int): int {
    Cycles(panel, cycles) + ceiling - 1
  }

  /** The state still leads back to work. */
  predicate InPlay(s: State) {
    s == Blocked || s == Ready || s == Leased || s == Building || s == ReviewPending || s == CodeReview
  }

  /** Leases taken in the current cycle. */
  function ThisCycle(s: State, approvals: nat): nat {
    if s == Leased || s == Building then 1
    else if s == ReviewPending then 1 + approvals
    else if s == CodeReview then 2 + approvals
    else 0
  }

  /** Every lease kept is paid for by a bounce, a kill or an approval. extra is what the reconciler may
      bounce beyond the reviewers' budget. */
  predicate LeasesAccounted(extra: nat, ceiling: int, panel: int, j: Job, kept: int, approvals: nat) {
    var c := j.counters;
    if InPlay(j.state) then
      && 0 <= c.bounces < c.maxBounces + extra && 0 <= c.stallRevocations < ceiling
      && kept <= Cycles(panel, c.bounces) + c.stallRevocations + ThisCycle(j.state, approvals)
    else
      && j.state != ResolvingConflict
      && kept <= LeaseCap(panel, c.maxBounces + extra, ceiling)
  }

  lemma AccountsGiveCap(extra: nat, ceiling: int, panel: int, j: Job, kept: int, approvals: nat)
    requires LeasesAccounted(extra, ceiling, panel, j, kept, approvals) && approvals < panel
    ensures kept <= LeaseCap(panel, j.counters.maxBounces + extra, ceiling)
  {
    hide Cycles;
    if InPlay(j.state) {
      CyclesGrow(panel, j.counters.bounces, j.counters.bounces);
      CyclesGrow(panel, j.counters.bounces + 1, j.counters.maxBounces + extra);
    }
  }

  /** The accounts after an event. */
  predicate AccountsAfter(extra: nat, ceiling: int, panel: int, e: Event, k: Job, kept: int, approvals: nat) {
    LeasesAccounted(extra, ceiling, panel, k, kept + KeptBy(e),
                    if StartsRound(e) then 0 else approvals + (if IsApproval(e) then 1 else 0))
  }

  lemma LeaseEventKeepsAccounts(extra: nat, ceiling: int, panel: int, j: Job, e: Event, k: Job, kept: int, approvals: nat)
    requires BuildStage(j) && Fits(ceiling, j, e) && Lands(j, e, k) && Undisturbed(extra, j, e) && e.body.Leasing?
    requires LeasesAccounted(extra, ceiling, panel, j, kept, approvals)
    ensures AccountsAfter(extra, ceiling, panel, e, k, kept, approvals)
  {
    hide Cycles;
  }

  lemma GateEventKeepsAccounts(extra: nat, ceiling: int, panel: int, j: Job, e: Event, k: Job, kept: int, approvals: nat)
    requires ceiling >= 1 && approvals < panel && e.body.Gate?
    requires BuildStage(j) && Fits(ceiling, j, e) && Lands(j, e, k) && Undisturbed(extra, j, e)
    requires LeasesAccounted(extra, ceiling, panel, j, kept, approvals)
    requires kept <= LeaseCap(panel, j.counters.maxBounces + extra, ceiling)
    requires Cycles(panel, j.counters.bounces + 1) == Cycles(panel, j.counters.bounces) + panel + 1
    requires IsApproval(e) ==> approvals + 1 < panel
    ensures AccountsAfter(extra, ceiling, panel, e, k, kept, approvals)
  {
    hide Cycles;
  }

  lemma KillEventKeepsAccounts(extra: nat, ceiling: int, panel: int, j: Job, e: Event, k: Job, kept: int, approvals: nat)
    requires ceiling >= 1 && e.body.Kill?
    requires BuildStage(j) && Fits(ceiling, j, e) && Lands(j, e, k) && Undisturbed(extra, j, e)
    requires LeasesAccounted(extra, ceiling, panel, j, kept, approvals)
    requires kept <= LeaseCap(panel, j.counters.maxBounces + extra, ceiling)
    ensures AccountsAfter(extra, ceiling, panel, e, k, kept, approvals)
  {
    hide Cycles;
  }

  lemma OtherEventKeepsAccounts(extra: nat, ceiling: int, panel: int, j: Job, e: Event, k: Job, kept: int, approvals: nat)
    requires e.body.Intake? || e.body.Control? || e.body.Note?
    requires BuildStage(j) && Fits(ceiling, j, e) && Lands(j, e, k) && Undisturbed(extra, j, e)
    requires LeasesAccounted(extra, ceiling, panel, j, kept, approvals)
    requires kept <= LeaseCap(panel, j.counters.maxBounces + extra, ceiling)
    ensures AccountsAfter(extra, ceiling, panel, e, k, kept, approvals)
  {
    hide Cycles;
  }

  lemma NoSpecEventInBuild(ceiling: int, j: Job, e: Event, k: Job)
    requires BuildStage(j) && Fits(ceiling, j, e) && Lands(j, e, k)
    ensures !e.body.Speccing?
  {
  }

  lemma EventKeepsAccounts(extra: nat, ceiling: int, panel: int, j: Job, e: Event, k: Job, kept: int, approvals: nat)
    requires ceiling >= 1 && approvals < panel
    requires BuildStage(j) && Fits(ceiling, j, e) && Lands(j, e, k) && Undisturbed(extra, j, e)
    requires LeasesAccounted(extra, ceiling, panel, j, kept, approvals)
    requires IsApproval(e) ==> approvals + 1 < panel
    ensures AccountsAfter(extra, ceiling, panel, e, k, kept, approvals)
  {
    hide Cycles, Fits, Lands, AccountsAfter, LeasesAccounted, BuildStage, IsApproval, LeaseCap;
    CyclesGrow(panel, j.counters.bounces, j.counters.bounces);
    AccountsGiveCap(extra, ceiling, panel, j, kept, approvals);
    NoSpecEventInBuild(ceiling, j, e, k);
    match e.body
    case Leasing(_) => LeaseEventKeepsAccounts(extra, ceiling, panel, j, e, k, kept, approvals);
    case Gate(_) => GateEventKeepsAccounts(extra, ceiling, panel, j, e, k, kept, approvals);
    case Kill(_) => KillEventKeepsAccounts(extra, ceiling, panel, j, e, k, kept, approvals);
    case _ => OtherEventKeepsAccounts(extra, ceiling, panel, j, e, k, kept, approvals);
  }

  lemma KeptAfter(ledger: seq<Event>, e: Event)
    ensures Kept(ledger + [e]) == Kept(ledger) + KeptBy(e)
  {
  }

  /** No prefix of the ledger shows a round with a full panel of banked approvals. */
  predicate RoundsStayOpen(panel: int, ledger: seq<Event>) {
    forall k: nat :: k <= |ledger| ==> RoundApprovals(ledger[..k]) < panel
  }

  predicate UndisturbedRun(extra: nat, born: Job, events: seq<Event>) {
    forall k: nat :: k < |events| ==> Undisturbed(extra, JobAt(born, events, k), events[k])
  }

  lemma {:induction false} AccountsOnPaths(extra: nat, ceiling: int, panel: int, born: Job, ledger: seq<Event>, n: nat)
    requires ceiling >= 1 && ledger != [] && n < |ledger|
    requires Path(ceiling, born, ledger[1..]) && Leasable(born)
    requires RoundsStayOpen(panel, ledger) && UndisturbedRun(extra, born, ledger[1..])
    requires LeasesAccounted(extra, ceiling, panel, born, Kept(ledger[..1]), RoundApprovals(ledger[..1]))
    ensures LeasesAccounted(extra, ceiling, panel, JobAt(born, ledger[1..], n), Kept(ledger[..n + 1]), RoundApprovals(ledger[..n + 1]))
  {
    hide Path, Step, JobAt, Fits, Lands, Leasable, LeasesAccounted, Kept, KeptBy, RoundApprovals, Undisturbed, IsClaim, IsApproval,
      StartsRound, CapsMatchState, BuildStage;
    var events := ledger[1..];
    if n == 0 {
      JobAtStart(born, events);
    } else {
      AccountsOnPaths(extra, ceiling, panel, born, ledger, n - 1);
      var j, e, k := JobAt(born, events, n - 1), events[n - 1], JobAt(born, events, n);
      assert ledger[..n + 1] == ledger[..n] + [e];
      assert RoundApprovals(ledger[..n]) < panel && RoundApprovals(ledger[..n + 1]) < panel;
      PathStep(ceiling, born, events, n - 1);
      BothInBuild(ceiling, born, events, n - 1);
      KeptAfter(ledger[..n], e);
      PanelAfter(ledger[..n], e);
      ApprovalStartsNoRound(e);
      EventKeepsAccounts(extra, ceiling, panel, j, e, k, Kept(ledger[..n]), RoundApprovals(ledger[..n]));
    }
  }

  lemma ApprovalStartsNoRound(e: Event)
    ensures !(IsApproval(e) && StartsRound(e))
  {
  }

  lemma BothInBuild(ceiling: int, born: Job, events: seq<Event>, k: nat)
    requires Path(ceiling, born, events) && Leasable(born) && k < |events|
    ensures BuildStage(JobAt(born, events, k)) && BuildStage(JobAt(born, events, k + 1))
  {
    hide Path, JobAt;
    PathKeepsLeasable(ceiling, born, events, k);
    PathKeepsLeasable(ceiling, born, events, k + 1);
  }

  lemma FirstOfTwoIsNoApproval(cfg: Config, s: Sys, step: StepKind, at: int)
    requires Allowed(cfg, s, step) && |Emitted(cfg, s, step, at)| == 2
    ensures !IsApproval(Emitted(cfg, s, step, at)[0])
  {
    hide DecisionOf, Approvers;
    EmittedAppended(cfg, s, step, at);
  }

  lemma RoundsStayOpenAStep(panel: int, ledger: seq<Event>, es: seq<Event>)
    requires RoundsStayOpen(panel, ledger) && |es| <= 2 && (|es| == 2 ==> !IsApproval(es[0]))
    requires RoundApprovals(ledger + es) < panel
    ensures RoundsStayOpen(panel, ledger + es)
  {
    hide RoundApprovals, StartsRound, IsApproval;
    assert ledger[..|ledger|] == ledger;
    forall k: nat | k <= |ledger + es| ensures RoundApprovals((ledger + es)[..k]) < panel {
      if k <= |ledger| {
        assert (ledger + es)[..k] == ledger[..k];
      } else if k == |ledger + es| {
        assert (ledger + es)[..k] == ledger + es;
      } else {
        assert (ledger + es)[..k] == ledger + [es[0]];
        PanelAfter(ledger, es[0]);
      }
    }
  }

  lemma {:induction false} RoundsStayOpenOverRuns(cfg: Config, panel: int, r: Run)
    requires Legal(cfg, r) && FixedPanel(r, panel) && panel >= 1
    ensures RoundsStayOpen(panel, SysOf(cfg, r).ledger)
  {
    hide Allowed, RoundApprovals, Approvers, Step, FoldFrom, LegalStart, RoundsStayOpen, Emitted;
    PanelHolds(cfg, panel, r);
    match r
    case Start(created) => OneEventStaysOpen(panel, created);
    case After(before, step, at) =>
      RoundsStayOpenOverRuns(cfg, panel, before);
      var s := SysOf(cfg, before);
      EmittedAreNumbered(cfg, s, step, at);
      if |Emitted(cfg, s, step, at)| == 2 {
        FirstOfTwoIsNoApproval(cfg, s, step, at);
      }
      RoundsStayOpenAStep(panel, s.ledger, Emitted(cfg, s, step, at));
  }

  lemma OneEventStaysOpen(panel: int, e: Event)
    requires panel >= 1 && RoundApprovals([e]) < panel
    ensures RoundsStayOpen(panel, [e])
  {
  }

  lemma BirthIsAccounted(extra: nat, cfg: Config, panel: int, created: Event)
    requires LegalStart(cfg, created) && cfg.ceiling >= 1 && panel >= 1 && created.body.intake.kind == BuildJob
    ensures LeasesAccounted(extra, cfg.ceiling, panel, Step(ZERO_JOB, created), Kept([created]), RoundApprovals([created]))
  {
    assert [created][..0] == [] && Claims([created]) == Claims([]) && Releases([created]) == Releases([]);
  }

  /** A build keeps at most (MaxBounces + extra) * (panel + 1) + ceiling - 1 leases, extra being the
      bounces beyond the reviewers' budget that red CI may add: none or one. */
  lemma LeaseBoundWith(extra: nat, cfg: Config, panel: int, r: Run)
    requires Legal(cfg, r) && IsBuild(r) && FixedPanel(r, panel) && panel >= 1 && cfg.ceiling >= 1
    requires UndisturbedRun(extra, Born(r), Later(cfg, r))
    ensures Kept(SysOf(cfg, r).ledger) <= LeaseCap(panel, DEFAULT_MAX_BOUNCES + extra, cfg.ceiling)
  {
    hide Allowed, Emitted, Cycles;
    var ledger := SysOf(cfg, r).ledger;
    LedgerIsPath(cfg, r);
    BuildIsBornLeasable(cfg, r);
    RoundsStayOpenOverRuns(cfg, panel, r);
    BirthIsAccounted(extra, cfg, panel, Created(r));
    LeaseBoundOnLedger(extra, cfg.ceiling, panel, Born(r), ledger);
  }

  lemma LeaseBoundOnLedger(extra: nat, ceiling: int, panel: int, born: Job, ledger: seq<Event>)
    requires ceiling >= 1 && ledger != [] && Path(ceiling, born, ledger[1..]) && Leasable(born)
    requires born.counters.maxBounces == DEFAULT_MAX_BOUNCES && born.counters.bounces == 0
    requires RoundsStayOpen(panel, ledger) && UndisturbedRun(extra, born, ledger[1..])
    requires LeasesAccounted(extra, ceiling, panel, born, Kept([ledger[0]]), RoundApprovals([ledger[0]]))
    ensures Kept(ledger) <= LeaseCap(panel, DEFAULT_MAX_BOUNCES + extra, ceiling)
  {
    hide Path, Step, JobAt, Leasable, LeasesAccounted, Kept, RoundApprovals, UndisturbedRun, Cycles;
    var n: nat := |ledger| - 1;
    assert ledger[..1] == [ledger[0]] && ledger[..n + 1] == ledger;
    AccountsOnPaths(extra, ceiling, panel, born, ledger, n);
    BounceBudgetOnPaths(ceiling, born, ledger[1..], n);
    AccountsGiveCap(extra, ceiling, panel, JobAt(born, ledger[1..], n), Kept(ledger), RoundApprovals(ledger));
  }

  /** Besides one for every release, a build takes at most (MaxBounces + 1) * (panel + 1) + ceiling - 1
      leases in any run without a fast-cancel, head move, re-arm or released merge, however often its
      CI is red. */
  lemma LeaseBound(cfg: Config, panel: int, r: Run)
    requires Legal(cfg, r) && IsBuild(r) && FixedPanel(r, panel) && panel >= 1 && cfg.ceiling >= 1
    requires UndisturbedRun(1, Born(r), Later(cfg, r))
    ensures Claims(SysOf(cfg, r).ledger)
      <= (DEFAULT_MAX_BOUNCES + 1) * (panel + 1) + cfg.ceiling - 1 + Releases(SysOf(cfg, r).ledger)
  {
    hide Legal, Later, Claims, Releases, SysOf, FixedPanel;
    LeaseBoundWith(1, cfg, panel, r);
  }

  /** One cycle less when no bounce is for red CI: the reviewers' budget is compared strictly. */
  lemma LeaseBoundByReview(cfg: Config, panel: int, r: Run)
    requires Legal(cfg, r) && IsBuild(r) && FixedPanel(r, panel) && panel >= 1 && cfg.ceiling >= 1
    requires UndisturbedRun(0, Born(r), Later(cfg, r))
    ensures Claims(SysOf(cfg, r).ledger)
      <= DEFAULT_MAX_BOUNCES * (panel + 1) + cfg.ceiling - 1 + Releases(SysOf(cfg, r).ledger)
  {
    hide Legal, Later, Claims, Releases, SysOf, FixedPanel;
    LeaseBoundWith(0, cfg, panel, r);
  }

  // ---- penalised releases --------------------------------------------------------------------

  /** The release is charged to the attempts. */
  predicate Penalised(e: Event) { e.body.Leasing? && e.body.leasing == LeaseReleased(1) }

  /** The release uses up the last attempt. */
  predicate LastAttempt(j: Job, e: Event) { IsRelease(e) && e.body.leasing.attemptsDelta == 1 && Exhausts(j, 1) }

  predicate Parks(e: Event) { e.body == Control(StateChanged(false)) && e.toState == NeedsHuman }

  /** Whoever uses up the last attempt parks the job with the next event. */
  predicate LastAttemptsPark(born: Job, events: seq<Event>) {
    forall k: nat :: k < |events| && LastAttempt(JobAt(born, events, k), events[k]) ==> k + 1 < |events| && Parks(events[k + 1])
  }

  /** In play the penalised releases are fewer than the attempts allowed; last says that the final one
      has just been used up. */
  predicate ReleasesAccounted(j: Job, releases: nat, last: bool) {
    var c := j.counters;
    if InPlay(j.state) && !last then releases <= c.attempts && releases < c.maxAttempts else releases <= c.maxAttempts
  }

  lemma EventKeepsReleases(ceiling: int, extra: nat, j: Job, e: Event, k: Job, releases: nat, last: bool)
    requires BuildStage(j) && BuildStage(k) && Fits(ceiling, j, e) && Lands(j, e, k) && Undisturbed(extra, j, e)
    requires j.state != ResolvingConflict && (IsRelease(e) ==> Penalised(e)) && (last ==> Parks(e))
    requires ReleasesAccounted(j, releases, last) && j.counters.maxAttempts > 0
    ensures ReleasesAccounted(k, releases + (if IsRelease(e) then 1 else 0), LastAttempt(j, e))
    ensures k.counters.maxAttempts == j.counters.maxAttempts && k.state != ResolvingConflict
  {
  }

  lemma ReleasesAfter(events: seq<Event>, n: nat)
    requires n < |events|
    ensures Releases(events[..n + 1]) == Releases(events[..n]) + (if IsRelease(events[n]) then 1 else 0)
  {
    assert events[..n + 1][..n] == events[..n];
  }

  lemma {:induction false} ReleasesOnPaths(ceiling: int, extra: nat, born: Job, events: seq<Event>, n: nat)
    requires Path(ceiling, born, events) && Leasable(born) && n <= |events|
    requires UndisturbedRun(extra, born, events) && LastAttemptsPark(born, events)
    requires forall k: nat :: k < |events| && IsRelease(events[k]) ==> Penalised(events[k])
    requires born.counters.attempts == 0 && born.counters.maxAttempts > 0 && born.state != ResolvingConflict
    ensures JobAt(born, events, n).counters.maxAttempts == born.counters.maxAttempts
    ensures JobAt(born, events, n).state != ResolvingConflict
    ensures ReleasesAccounted(JobAt(born, events, n), Releases(events[..n]),
                              n > 0 && LastAttempt(JobAt(born, events, n - 1), events[n - 1]))
  {
    hide Path, Step, JobAt, Fits, Lands, Leasable, Undisturbed, IsRelease, LastAttempt, Penalised, Parks, BuildStage, ReleasesAccounted;
    if n == 0 {
      JobAtStart(born, events);
      NoReleasesYet(born);
    } else {
      ReleasesOnPaths(ceiling, extra, born, events, n - 1);
      PathStep(ceiling, born, events, n - 1);
      BothInBuild(ceiling, born, events, n - 1);
      ReleasesAfter(events, n - 1);
      EventKeepsReleases(ceiling, extra, JobAt(born, events, n - 1), events[n - 1], JobAt(born, events, n), Releases(events[..n - 1]),
                         n > 1 && LastAttempt(JobAt(born, events, n - 2), events[n - 2]));
    }
  }

  lemma NoReleasesYet(born: Job)
    requires born.counters.attempts == 0 && born.counters.maxAttempts > 0
    ensures ReleasesAccounted(born, Releases([]), false)
  {
  }

  // ---- over runs: the last attempt parks -------------------------------------------------------

  lemma ReleasesComeFromGiveBacks(cfg: Config, s: Sys, step: StepKind, at: int)
    requires Allowed(cfg, s, step) && !step.GiveBack?
    ensures forall i :: 0 <= i < |Emitted(cfg, s, step, at)| ==> !IsRelease(Emitted(cfg, s, step, at)[i])
  {
    hide DecisionOf, MeterDecision, Approvers, CallEvents;
    if step.Call? {
      CallsReleaseNothing(cfg, s, step.seen, step.ev, step.head, at);
    }
  }

  lemma CallsReleaseNothing(cfg: Config, s: Sys, seen: Seen, ev: Engine.EngineEvent, head: string, at: int)
    requires !ev.Release?
    ensures var es := CallEvents(cfg, s, seen, ev, head, at); forall i :: 0 <= i < |es| ==> !IsRelease(es[i])
  {
    hide Engine.Decide, EventsOf;
    var es := EngineStateOf(cfg, s, seen, ev);
    OnlyReleasesRelease(cfg.H, es, ev);
    UnreleasedEvents(s.job, Engine.Decide(cfg.H, es, ev).transitions, ev, head, at);
  }

  predicate NoneReleases(ts: seq<Engine.Transition>) {
    |ts| <= 2 && forall i :: 0 <= i < |ts| ==> ts[i].kind != Engine.KindLeaseReleased
  }

  lemma UnreleasedEvents(j: Job, ts: seq<Engine.Transition>, ev: Engine.EngineEvent, head: string, at: int)
    requires NoneReleases(ts)
    ensures var es := EventsOf(j, ts, ev, head, at); forall i :: 0 <= i < |es| ==> !IsRelease(es[i])
  {
  }

  lemma OnlyReleasesRelease(H: Digest, es: Engine.EngineState, ev: Engine.EngineEvent)
    requires !ev.Release?
    ensures NoneReleases(Engine.Decide(H, es, ev).transitions)
  {
    hide Engine.DecideReviewClaim, Engine.DecideSpecReviewClaim, Engine.DecideHeartbeat, Engine.DecideLiveness,
      Engine.DecideMergeDispatch;
    match ev
    case ReviewClaim(_, _, _, _, _) => ReviewMoves(H, es, ev);
    case SpecReviewClaim(_, _, _, _, _, _, _, _) => SpecReviewMoves(H, es, ev);
    case Heartbeat(_, _, _, _) => HeartbeatReleasesNone(es, ev);
    case LivenessVerdict(_, _, _) => LivenessReleasesNone(es, ev);
    case MergeDispatch => DispatchReleasesNone(H, es);
    case _ =>
  }

  lemma HeartbeatReleasesNone(es: Engine.EngineState, ev: Engine.EngineEvent)
    requires ev.Heartbeat?
    ensures NoneReleases(Engine.DecideHeartbeat(es, ev).transitions)
  {
  }

  lemma LivenessReleasesNone(es: Engine.EngineState, ev: Engine.EngineEvent)
    requires ev.LivenessVerdict?
    ensures NoneReleases(Engine.DecideLiveness(es, ev).transitions)
  {
  }

  lemma DispatchReleasesNone(H: Digest, es: Engine.EngineState)
    ensures NoneReleases(Engine.DecideMergeDispatch(H, es).transitions)
  {
  }

  lemma GiveBackParks(cfg: Config, s: Sys, step: StepKind, at: int)
    requires step.GiveBack?
    ensures var es := Emitted(cfg, s, step, at);
      && (LastAttempt(s.job, es[0]) ==> |es| == 2 && Parks(es[1]))
      && (|es| == 2 ==> !IsRelease(es[1]))
  {
  }

  lemma LastAttemptsParkOn(born: Job, earlier: seq<Event>, es: seq<Event>)
    requires LastAttemptsPark(born, earlier) && |es| <= 2
    requires es != [] && LastAttempt(JobAt(born, earlier, |earlier|), es[0]) ==> |es| == 2 && Parks(es[1])
    requires |es| == 2 ==> !IsRelease(es[1])
    ensures LastAttemptsPark(born, earlier + es)
  {
    hide JobAt, Parks, IsRelease;
    var all := earlier + es;
    forall k: nat | k < |all| && LastAttempt(JobAt(born, all, k), all[k]) ensures k + 1 < |all| && Parks(all[k + 1]) {
      if k <= |earlier| {
        SamePrefix(born, earlier, es, k);
      }
    }
  }

  lemma SamePrefix(born: Job, earlier: seq<Event>, es: seq<Event>, k: nat)
    requires k <= |earlier|
    ensures JobAt(born, earlier + es, k) == JobAt(born, earlier, k)
  {
    assert (earlier + es)[..k] == earlier[..k];
  }

  lemma {:induction false} RunsParkLastAttempts(cfg: Config, r: Run)
    requires Legal(cfg, r)
    ensures LastAttemptsPark(Born(r), Later(cfg, r))
  {
    hide Allowed, Emitted, LastAttemptsPark, JobAt, Parks, IsRelease, LastAttempt;
    LedgerIsPath(cfg, r);
    match r
    case Start(created) => NothingToPark(Born(r));
    case After(before, step, at) =>
      RunsParkLastAttempts(cfg, before);
      LaterLeadsToJob(cfg, before);
      LedgerIsPath(cfg, before);
      var s := SysOf(cfg, before);
      var es := Emitted(cfg, s, step, at);
      EmittedAreNumbered(cfg, s, step, at);
      TailOfConcat(s.ledger, es);
      if step.GiveBack? {
        GiveBackParks(cfg, s, step, at);
      } else {
        ReleasesComeFromGiveBacks(cfg, s, step, at);
        if es != [] {
          NoReleaseNoLast(s.job, es[0]);
        }
      }
      LastAttemptsParkOn(Born(r), Later(cfg, before), es);
  }

  lemma NothingToPark(born: Job)
    ensures LastAttemptsPark(born, [])
  {
  }

  lemma NoReleaseNoLast(j: Job, e: Event)
    requires !IsRelease(e)
    ensures !LastAttempt(j, e)
  {
  }

  lemma {:induction false} ReleasesOfTail(ledger: seq<Event>)
    requires ledger != [] && !IsRelease(ledger[0])
    ensures Releases(ledger) == Releases(ledger[1..])
    decreases |ledger|
  {
    var n := |ledger| - 1;
    if n > 0 {
      ReleasesOfTail(ledger[..n]);
      assert ledger[..n][1..] == ledger[1..][..n - 1];
    } else {
      assert ledger[..0] == [];
    }
  }

  /** If every release is charged to the attempts, a build takes at most
      (MaxBounces + 1) * (panel + 1) + ceiling - 1 + MaxAttempts leases: the last attempt parks it. */
  lemma PenalisedLeaseBound(cfg: Config, panel: int, r: Run)
    requires Legal(cfg, r) && IsBuild(r) && FixedPanel(r, panel) && panel >= 1 && cfg.ceiling >= 1
    requires UndisturbedRun(1, Born(r), Later(cfg, r))
    requires forall k: nat :: k < |Later(cfg, r)| && IsRelease(Later(cfg, r)[k]) ==> Penalised(Later(cfg, r)[k])
    ensures Claims(SysOf(cfg, r).ledger) <= (DEFAULT_MAX_BOUNCES + 1) * (panel + 1) + cfg.ceiling - 1 + DEFAULT_MAX_ATTEMPTS
  {
    hide Allowed, Emitted, Claims, Releases, FixedPanel, UndisturbedRun, LastAttemptsPark, Penalised, JobAt;
    var events := Later(cfg, r);
    LeaseBound(cfg, panel, r);
    LaterLeadsToJob(cfg, r);
    LedgerIsPath(cfg, r);
    BuildIsBornLeasable(cfg, r);
    RunsParkLastAttempts(cfg, r);
    ReleasesOnPaths(cfg.ceiling, 1, Born(r), events, |events|);
    assert events[..|events|] == events;
    ReleasesOfTail(SysOf(cfg, r).ledger);
  }
}
