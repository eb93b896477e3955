/** Leases over whole runs: who may claim a job, when a lease is held, and why a worker whose
    lease ended stays fenced. */
module Leases {
  import opened Jobs
  import opened Ledger
  import opened Protocol
  import opened Runtime
  import opened Runs
  import Engine
  import Liveness
  import Verdicts

  predicate IsBuild(r: Run) {
    Created(r).body.Intake? && Created(r).body.intake.JobCreated? && Created(r).body.intake.kind == BuildJob
  }

  /** The events of a run after its creation. */
  function Later(cfg: Config, r: Run): seq<Event>
    requires Legal(cfg, r)
  {
    LedgerIsPath(cfg, r);
    SysOf(cfg, r).ledger[1..]
  }

  lemma LaterLeadsToJob(cfg: Config, r: Run)
    requires Legal(cfg, r)
    ensures Path(cfg.ceiling, Born(r), Later(cfg, r))
    ensures JobAt(Born(r), Later(cfg, r), |Later(cfg, r)|) == JobOf(cfg, r)
  {
    hide Allowed, Emitted;
    LedgerIsPath(cfg, r);
    var events := Later(cfg, r);
    assert events[..|events|] == events;
  }

  lemma BuildIsBornLeasable(cfg: Config, r: Run)
    requires Legal(cfg, r) && IsBuild(r)
    ensures Leasable(Born(r)) && Born(r).lease == NO_LEASE && !HasActiveLease(Born(r).state)
    ensures Born(r).counters == Counters(0, DEFAULT_MAX_ATTEMPTS, 0, DEFAULT_MAX_BOUNCES, 0)
  {
    hide Allowed, Emitted;
    LedgerIsPath(cfg, r);
  }

  // ---- leasability ---------------------------------------------------------------

  lemma {:induction false} PathKeepsLeasable(ceiling: int, born: Job, events: seq<Event>, k: nat)
    requires Path(ceiling, born, events) && Leasable(born) && k <= |events|
    ensures Leasable(JobAt(born, events, k))
  {
    if k > 0 {
      PathKeepsLeasable(ceiling, born, events, k - 1);
      PathStep(ceiling, born, events, k - 1);
      EventKeepsLeasable(ceiling, JobAt(born, events, k - 1), events[k - 1]);
    }
  }

  /** No run of a build job strands it: each claimable state folds to the capabilities of the
      one kind of worker that can take it from there. */
  lemma BuildStaysLeasable(cfg: Config, r: Run, k: nat)
    requires Legal(cfg, r) && IsBuild(r) && k <= |Later(cfg, r)|
    ensures CapsMatchState(JobAt(Born(r), Later(cfg, r), k)) && CapsMatchState(JobOf(cfg, r))
  {
    hide Allowed, Emitted;
    LaterLeadsToJob(cfg, r);
    BuildIsBornLeasable(cfg, r);
    PathKeepsLeasable(cfg.ceiling, Born(r), Later(cfg, r), k);
    PathKeepsLeasable(cfg.ceiling, Born(r), Later(cfg, r), |Later(cfg, r)|);
  }

  /** The k-th event takes a leased job where no worker is, without releasing the lease. */
  predicate StrandsLease(born: Job, events: seq<Event>, k: nat)
    requires k < |events|
  {
    LeavesLeaseBehind(events[k]) && JobAt(born, events, k).lease.id != ""
  }

  lemma JobAtStart(born: Job, events: seq<Event>)
    ensures JobAt(born, events, 0) == born
  {
  }

  lemma LeaseClauseStep(ceiling: int, born: Job, events: seq<Event>, k: nat)
    requires Path(ceiling, born, events) && Leasable(born) && k < |events|
    requires LeaseMatchesState(JobAt(born, events, k))
    ensures LeaseMatchesState(JobAt(born, events, k + 1)) <==> !StrandsLease(born, events, k)
  {
    hide Path;
    PathKeepsLeasable(ceiling, born, events, k);
    PathStep(ceiling, born, events, k);
    EventKeepsLeaseState(ceiling, JobAt(born, events, k), events[k], JobAt(born, events, k + 1));
  }

  lemma {:induction false} UnstrandedLeases(ceiling: int, born: Job, events: seq<Event>, n: nat)
    requires Path(ceiling, born, events) && Leasable(born) && LeaseMatchesState(born) && n <= |events|
    requires forall k: nat :: k < n ==> !StrandsLease(born, events, k)
    ensures LeaseMatchesState(JobAt(born, events, n))
  {
    hide Path, LeaseMatchesState, StrandsLease, JobAt;
    if n == 0 {
      JobAtStart(born, events);
    } else {
      UnstrandedLeases(ceiling, born, events, n - 1);
      LeaseClauseStep(ceiling, born, events, n - 1);
    }
  }

  /** Along a path the lease clause holds at every point exactly when no event strands a lease. */
  lemma LeaseClauseOnPaths(ceiling: int, born: Job, events: seq<Event>)
    requires Path(ceiling, born, events) && Leasable(born) && LeaseMatchesState(born)
    ensures (forall k: nat :: k <= |events| ==> LeaseMatchesState(JobAt(born, events, k)))
       <==> (forall k: nat :: k < |events| ==> !StrandsLease(born, events, k))
  {
    hide Path, LeaseMatchesState, StrandsLease, JobAt;
    if forall k: nat :: k <= |events| ==> LeaseMatchesState(JobAt(born, events, k)) {
      forall k: nat | k < |events| ensures !StrandsLease(born, events, k) {
        LeaseClauseStep(ceiling, born, events, k);
      }
    }
    if forall k: nat :: k < |events| ==> !StrandsLease(born, events, k) {
      forall n: nat | n <= |events| ensures LeaseMatchesState(JobAt(born, events, n)) {
        UnstrandedLeases(ceiling, born, events, n);
      }
    }
  }

  /** A lease is recorded only where a worker works, all along a run, exactly when no forced
      operator move, park or merge completion hits the job while a lease is held. */
  lemma LeaseHeldOnlyAtWork(cfg: Config, r: Run)
    requires Legal(cfg, r) && IsBuild(r)
    ensures var born, events := Born(r), Later(cfg, r);
      (forall k: nat :: k <= |events| ==> LeaseMatchesState(JobAt(born, events, k)))
      <==> (forall k: nat :: k < |events| ==> !StrandsLease(born, events, k))
  {
    hide Allowed, Emitted;
    LaterLeadsToJob(cfg, r);
    BuildIsBornLeasable(cfg, r);
    LeaseClauseOnPaths(cfg.ceiling, Born(r), Later(cfg, r));
  }

  lemma FoldOfFitting(ceiling: int, j: Job, e: Event)
    requires Fits(ceiling, j, e)
    ensures Lands(j, e, FoldFrom(j, [e]))
  {
    hide Fits, Step;
    FoldOne(j, e);
    EventLands(ceiling, j, e);
  }

  /** The exception is real: requeueing a leased build by force folds to a ready job that still
      carries its old lease. */
  lemma ForcedRequeueStrandsLease(cfg: Config, created: Event, lease: Lease, lens: string, at: int)
    requires LegalStart(cfg, created) && created.body.intake.kind == BuildJob && created.toState == Ready && lease.id != ""
    ensures var r := After(After(Start(created), Claim(ForBuild, lease, lens), at), Operate(Requeue(true)), at);
      Legal(cfg, r) && JobOf(cfg, r).state == Ready && JobOf(cfg, r).lease == lease
  {
    hide FoldFrom, Approvers, DecisionOf, MeterDecision, Step, Fits, CapsMatchState;
    var r0 := Start(created);
    var r1 := After(r0, Claim(ForBuild, lease, lens), at);
    BuildIsBornLeasable(cfg, r0);
    var j0, j1 := JobOf(cfg, r0), JobOf(cfg, r1);
    assert j0.state == Ready by { BornReady(created); }
    ClaimFits(cfg.ceiling, cfg, SysOf(cfg, r0), ForBuild, lease, lens, at);
    FoldOfFitting(cfg.ceiling, j0, ClaimEvent(j0, ForBuild, lease, at));
    ControlMoveFits(cfg.ceiling, j1, Requeue(true), at);
    FoldOfFitting(cfg.ceiling, j1, ControlMoveEvent(j1, Requeue(true), at));
  }

  lemma BornReady(created: Event)
    requires created.body.Intake? && created.body.intake.JobCreated?
    ensures Step(ZERO_JOB, created).state == created.toState
  {
  }

  // ---- epochs --------------------------------------------------------------------

  predicate IsClaim(e: Event) {
    e.body.Leasing? && (e.body.leasing.LeaseClaimed? || e.body.leasing.ReviewClaimed?)
  }

  lemma {:induction false} EpochsOnlyGrow(ceiling: int, born: Job, events: seq<Event>, i: nat, k: nat)
    requires Path(ceiling, born, events) && i <= k <= |events|
    ensures JobAt(born, events, i).leaseEpoch <= JobAt(born, events, k).leaseEpoch
    decreases k
  {
    hide Path, Fits, Step;
    if i < k {
      EpochsOnlyGrow(ceiling, born, events, i, k - 1);
      PathStep(ceiling, born, events, k - 1);
      EventKeepsEpoch(ceiling, JobAt(born, events, k - 1), events[k - 1]);
    }
  }

  lemma EventKeepsEpoch(ceiling: int, j: Job, e: Event)
    requires Fits(ceiling, j, e)
    ensures SameEpoch(j, e) || NextEpoch(j, e)
    ensures IsClaim(e) ==> NextEpoch(j, e)
  {
  }

  lemma GrantsOnPaths(ceiling: int, born: Job, events: seq<Event>, i: nat, k: nat)
    requires Path(ceiling, born, events) && i < k < |events| && IsClaim(events[i]) && IsClaim(events[k])
    ensures events[i].leaseEpoch < events[k].leaseEpoch
  {
    hide Path, Step, JobAt;
    PathStep(ceiling, born, events, i);
    PathStep(ceiling, born, events, k);
    EpochsOnlyGrow(ceiling, born, events, i + 1, k);
    EventKeepsEpoch(ceiling, JobAt(born, events, k), events[k]);
  }

  /** In every run each epoch is granted to at most one lease: later grants carry larger epochs. */
  lemma GrantsHaveFreshEpochs(cfg: Config, r: Run, i: nat, k: nat)
    requires Legal(cfg, r) && i < k < |Later(cfg, r)|
    requires IsClaim(Later(cfg, r)[i]) && IsClaim(Later(cfg, r)[k])
    ensures Later(cfg, r)[i].leaseEpoch < Later(cfg, r)[k].leaseEpoch
  {
    hide Allowed, Emitted;
    LaterLeadsToJob(cfg, r);
    GrantsOnPaths(cfg.ceiling, Born(r), Later(cfg, r), i, k);
  }

  // ---- fencing ---------------------------------------------------------------------

  /** The lease granted at epoch e is still held. */
  predicate Live(j: Job, e: int) {
    j.leaseEpoch == e && HasActiveLease(j.state) && j.lease.id != ""
  }

  /** Nobody can act on epoch e any more. */
  predicate Dead(j: Job, e: int) {
    j.leaseEpoch > e || (j.leaseEpoch == e && !HasActiveLease(j.state))
  }

  /** The resolver of a conflict gave its lease of epoch e back, and nobody took the conflict since:
      the job still counts as active, on the very epoch that was given back. */
  predicate Dangling(j: Job, e: int) {
    j.leaseEpoch == e && j.state == ResolvingConflict && j.lease.id == ""
  }

  predicate Ended(j: Job, e: int) { Dead(j, e) || Dangling(j, e) }

  /** What holds from the grant of e on: an unleased job that still counts as active is waiting
      for a conflict resolver. */
  predicate GrantedAt(j: Job, e: int) {
    && BuildStage(j) && j.leaseEpoch >= e
    && (HasActiveLease(j.state) && j.lease.id == "" ==> j.leaseEpoch > e || j.state == ResolvingConflict)
  }

  /** The event hands the job to the merge machinery. */
  predicate EntersMerge(e: Event) {
    e.toState == Merging || e.toState == MergeHandoff
  }

  lemma EventKeepsGrant(ceiling: int, j: Job, e: Event, k: Job, epoch: int)
    requires GrantedAt(j, epoch) && Fits(ceiling, j, e) && Lands(j, e, k) && BuildStage(k) && !EntersMerge(e)
    ensures GrantedAt(k, epoch)
    ensures !Live(k, epoch) ==> Ended(k, epoch)
    ensures Ended(j, epoch) ==> Ended(k, epoch)
  {
  }

  predicate NoMerge(events: seq<Event>) {
    forall k :: 0 <= k < |events| ==> !EntersMerge(events[k])
  }

  lemma {:induction false} GrantHoldsOn(ceiling: int, born: Job, events: seq<Event>, g: nat, n: nat)
    requires Path(ceiling, born, events) && Leasable(born) && NoMerge(events)
    requires g < n <= |events| && IsClaim(events[g])
    ensures GrantedAt(JobAt(born, events, n), events[g].leaseEpoch)
  {
    hide Path, Step, JobAt, Leasable, Fits, Lands, CapsMatchState, GrantedAt;
    PathKeepsLeasable(ceiling, born, events, n);
    PathStep(ceiling, born, events, n - 1);
    if g == n - 1 {
      ClaimGrants(ceiling, JobAt(born, events, g), events[g], JobAt(born, events, n));
    } else {
      GrantHoldsOn(ceiling, born, events, g, n - 1);
      EventKeepsGrant(ceiling, JobAt(born, events, n - 1), events[n - 1], JobAt(born, events, n), events[g].leaseEpoch);
    }
  }

  lemma ClaimGrants(ceiling: int, j: Job, e: Event, k: Job)
    requires Fits(ceiling, j, e) && Lands(j, e, k) && IsClaim(e) && Leasable(k)
    ensures GrantedAt(k, e.leaseEpoch)
  {
  }

  lemma GrantedOrEnded(j: Job, e: int)
    requires GrantedAt(j, e) && !Live(j, e)
    ensures Ended(j, e)
  {
  }

  /** Once the lease granted at an epoch is not live at some point, it is not live from there on. */
  lemma {:induction false} EndedLeaseStaysEnded(ceiling: int, born: Job, events: seq<Event>, g: nat, m: nat, n: nat)
    requires Path(ceiling, born, events) && Leasable(born) && NoMerge(events)
    requires g < m <= n <= |events| && IsClaim(events[g]) && !Live(JobAt(born, events, m), events[g].leaseEpoch)
    ensures Ended(JobAt(born, events, n), events[g].leaseEpoch)
    decreases n
  {
    hide Path, Step, JobAt, Leasable, Fits, Lands, CapsMatchState, GrantedAt, Ended;
    GrantHoldsOn(ceiling, born, events, g, n);
    if m == n {
      GrantedOrEnded(JobAt(born, events, n), events[g].leaseEpoch);
    } else {
      EndedLeaseStaysEnded(ceiling, born, events, g, m, n - 1);
      GrantHoldsOn(ceiling, born, events, g, n - 1);
      PathKeepsLeasable(ceiling, born, events, n);
      PathStep(ceiling, born, events, n - 1);
      EventKeepsGrant(ceiling, JobAt(born, events, n - 1), events[n - 1], JobAt(born, events, n), events[g].leaseEpoch);
    }
  }

  /** The epoch a worker's call presents. */
  function EpochOf(ev: Engine.EngineEvent): Option<int> {
    match ev
    case LivenessVerdict(_, _, _) => None
    case MergeDispatch => None
    case _ => Some(ev.epoch)
  }

  /** The decision refuses the call and does nothing else. */
  predicate Refuses(d: Engine.Decision) {
    d.reject.Some? && d.transitions == [] && d.verdictMint == None && d.specMint == None && d.directive == None
  }

  /** A call on a dead epoch decides nothing. */
  lemma DeadEpochIsRejected(H: Verdicts.Digest, es: Engine.EngineState, ev: Engine.EngineEvent)
    requires EpochOf(ev).Some? && es.epoch == es.job.leaseEpoch && Dead(es.job, EpochOf(ev).value)
    ensures Refuses(Engine.Decide(H, es, ev))
  {
  }

  /** No call that presents epoch e gets a transition, a mint or a directive. */
  ghost predicate FencedOff(cfg: Config, s: Sys, e: int) {
    forall seen: Seen, ev: Engine.EngineEvent :: EpochOf(ev) == Some(e) ==> Refuses(DecisionOf(cfg, s, seen, ev))
  }

  lemma HeartbeatIsHeard(cfg: Config, s: Sys, seen: Seen)
    requires HasActiveLease(s.job.state)
    ensures var ev := Engine.Heartbeat(s.job.leaseEpoch, Liveness.HealthOK, false, false);
      EpochOf(ev) == Some(s.job.leaseEpoch) && !Refuses(DecisionOf(cfg, s, seen, ev))
  {
  }

  const NOTHING_SEEN := Seen(
    Verdicts.Facts(false, 0, "", "", false, false, ""), Verdicts.Policy(false, 0), None)

  /** Fencing over runs: up to the merge, once the lease granted at epoch e has ended (by result,
      release, bounce, approval, revocation, escalation or control move), no later call of Decide
      that presents e gets a transition, a mint or a directive - exactly unless it is the lease of a
      conflict resolver who gave it back and nobody took the conflict since. */
  lemma EndedLeaseIsFenced(cfg: Config, r: Run, g: nat, m: nat)
    requires Legal(cfg, r) && IsBuild(r) && NoMerge(Later(cfg, r))
    requires g < m <= |Later(cfg, r)| && IsClaim(Later(cfg, r)[g])
    requires !Live(JobAt(Born(r), Later(cfg, r), m), Later(cfg, r)[g].leaseEpoch)
    ensures FencedOff(cfg, SysOf(cfg, r), Later(cfg, r)[g].leaseEpoch) <==> !Dangling(JobOf(cfg, r), Later(cfg, r)[g].leaseEpoch)
  {
    hide Allowed, Emitted, DecisionOf, FoldFrom, Path, Legal, SysOf;
    LaterLeadsToJob(cfg, r);
    BuildIsBornLeasable(cfg, r);
    var e := Later(cfg, r)[g].leaseEpoch;
    EndedLeaseStaysEnded(cfg.ceiling, Born(r), Later(cfg, r), g, m, |Later(cfg, r)|);
    EndedEpochIsFenced(cfg, SysOf(cfg, r), e);
  }

  lemma EndedEpochIsFenced(cfg: Config, s: Sys, e: int)
    requires Ended(s.job, e)
    ensures FencedOff(cfg, s, e) <==> !Dangling(s.job, e)
  {
    hide Engine.Decide;
    if Dangling(s.job, e) {
      HeartbeatIsHeard(cfg, s, NOTHING_SEEN);
    } else {
      forall seen: Seen, ev: Engine.EngineEvent | EpochOf(ev) == Some(e) ensures Refuses(DecisionOf(cfg, s, seen, ev)) {
        DeadEpochIsRejected(cfg.H, EngineStateOf(cfg, s, seen, ev), ev);
      }
    }
  }

  // ---- the exception is real ------------------------------------------------------------------

  lemma StepLands(cfg: Config, r: Run, step: StepKind, at: int, e: Event)
    requires Emitted(cfg, SysOf(cfg, r), step, at) == [e] && Fits(cfg.ceiling, JobOf(cfg, r), e)
    ensures Lands(JobOf(cfg, r), e, JobOf(cfg, After(r, step, at)))
  {
    hide Emitted, Fits, Lands, Step;
    FoldOfFitting(cfg.ceiling, JobOf(cfg, r), e);
  }

  lemma RunGrows(cfg: Config, r: Run, step: StepKind, at: int)
    requires Legal(cfg, r) && Allowed(cfg, SysOf(cfg, r), step)
    ensures Legal(cfg, After(r, step, at))
    ensures SysOf(cfg, After(r, step, at)) == Next(cfg, SysOf(cfg, r), step, at)
  {
  }

  /** A build in conflict, and its resolver's claim. */
  lemma ResolverClaims(cfg: Config, r: Run, base: string, lease: Lease, at: int)
    requires Legal(cfg, r) && JobOf(cfg, r).kind == BuildJob && lease.id != ""
    ensures var k := After(After(r, MoveHead(DetectConflict(base)), at), Claim(ForConflict, lease, ""), at);
      && Legal(cfg, k) && JobOf(cfg, k).state == ResolvingConflict && JobOf(cfg, k).kind == BuildJob
      && JobOf(cfg, k).leaseEpoch == JobOf(cfg, r).leaseEpoch + 2 && JobOf(cfg, k).lease == lease
      && JobOf(cfg, k).counters.attempts == JobOf(cfg, r).counters.attempts
  {
    hide Step, Fits, FoldFrom, Legal, SysOf, Approvers, DecisionOf, MeterDecision;
    var j, found := JobOf(cfg, r), MoveHead(DetectConflict(base));
    RunGrows(cfg, r, found, at);
    HeadMoveFits(cfg.ceiling, j, DetectConflict(base), at);
    StepLands(cfg, r, found, at, HeadMoveEvent(j, DetectConflict(base), at));
    var conflict := After(r, found, at);
    RunGrows(cfg, conflict, Claim(ForConflict, lease, ""), at);
    ClaimFits(cfg.ceiling, cfg, SysOf(cfg, conflict), ForConflict, lease, "", at);
    StepLands(cfg, conflict, Claim(ForConflict, lease, ""), at, ClaimEvent(JobOf(cfg, conflict), ForConflict, lease, at));
  }

  lemma ReleaseIsHeard(cfg: Config, s: Sys, seen: Seen)
    requires HasActiveLease(s.job.state)
    ensures DecisionOf(cfg, s, seen, Engine.Release(s.job.leaseEpoch)).reject == None
  {
  }

  /** A resolver who gives its lease back, excused, leaves it dangling. */
  lemma ResolverGivesBack(cfg: Config, r: Run, seen: Seen, at: int)
    requires Legal(cfg, r) && JobOf(cfg, r).state == ResolvingConflict
    ensures var e := JobOf(cfg, r).leaseEpoch;
      var k := After(r, GiveBack(seen, e, false, true), at);
      Legal(cfg, k) && Dangling(JobOf(cfg, k), e)
  {
    hide Step, Fits, FoldFrom, Legal, SysOf, Approvers, MeterDecision, DecisionOf;
    var j := JobOf(cfg, r);
    var e := ReleaseEvents(j, false, true, at)[0];
    ReleaseIsHeard(cfg, SysOf(cfg, r), seen);
    RunGrows(cfg, r, GiveBack(seen, j.leaseEpoch, false, true), at);
    ReleasedFits(cfg.ceiling, j, e);
    StepLands(cfg, r, GiveBack(seen, j.leaseEpoch, false, true), at, e);
  }

  /** A resolver that gave its lease back can still hand in a resolution on it, and the job goes to
      review with that. */
  lemma ReleasedResolverStillLands(cfg: Config, r: Run, base: string, lease: Lease, seen: Seen, head: string, at: int)
    requires Legal(cfg, r) && JobOf(cfg, r).kind == BuildJob && lease.id != ""
    ensures var e := JobOf(cfg, r).leaseEpoch + 2;
      var released := After(After(After(r, MoveHead(DetectConflict(base)), at), Claim(ForConflict, lease, ""), at), GiveBack(seen, e, false, true), at);
      var landed := After(released, MoveHead(ResolveConflict(e, head)), at);
      && Dangling(JobOf(cfg, released), e)
      && Legal(cfg, landed) && JobOf(cfg, landed).state == ReviewPending
  {
    hide Step, Fits, FoldFrom, Legal, SysOf, Approvers, DecisionOf, MeterDecision;
    ResolverClaims(cfg, r, base, lease, at);
    var claimed := After(After(r, MoveHead(DetectConflict(base)), at), Claim(ForConflict, lease, ""), at);
    ResolverGivesBack(cfg, claimed, seen, at);
    var e := JobOf(cfg, claimed).leaseEpoch;
    var released := After(claimed, GiveBack(seen, e, false, true), at);
    RunGrows(cfg, released, MoveHead(ResolveConflict(e, head)), at);
    HeadMoveFits(cfg.ceiling, JobOf(cfg, released), ResolveConflict(e, head), at);
    StepLands(cfg, released, MoveHead(ResolveConflict(e, head)), at, HeadMoveEvent(JobOf(cfg, released), ResolveConflict(e, head), at));
  }
}
