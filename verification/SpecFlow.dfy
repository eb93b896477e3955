/** The spec flow over whole runs: a sign-off on record covers the bytes on record, and nobody
    signs off with the author's own lens. */
module SpecFlow {
  import opened Jobs
  import opened Verdicts
  import opened Ledger
  import opened Protocol
  import opened Runtime
  import opened Runs
  import opened Leases
  import Engine

  /** A sign-off on record means: a finished spec job, bytes that match, an independent lens. */
  predicate SignoffSound(cfg: Config, j: Job) {
    j.spec.signoff.Some? ==>
      && j.kind == SpecJob && j.state == Done
      && VerifySignoff(cfg.H, j.spec.signoff.value, j.spec.contentHash)
      && (cfg.authorLens != "" ==> j.spec.signoff.value.reviewerLens != cfg.authorLens)
  }

  predicate IsSignoff(e: Event) {
    e.body.Speccing? && (e.body.speccing.SpecSignoffMinted? || e.body.speccing.SpecAmended?)
  }

  lemma OnlySpecEventsTouchSpec(ceiling: int, j: Job, e: Event)
    requires Fits(ceiling, j, e) && !e.body.Speccing?
    ensures Step(j, e).spec == j.spec
  {
    hide AppliedSpec, StageRole;
  }

  lemma SpecEventAfter(j: Job, e: Event)
    requires e.body.Speccing? && SpecFits(j, e, e.body.speccing) && !IsSignoff(e)
    ensures var spec := Derived(AppliedSpec(j, e, e.body.speccing), e).spec;
      && (spec.signoff == None || spec.signoff == j.spec.signoff)
      && (j.state == Done ==> spec.signoff == None)
  {
  }

  lemma SpecEventStep(j: Job, e: Event)
    requires e.body.Speccing?
    ensures Step(j, e) == Derived(AppliedSpec(j, e, e.body.speccing), e)
  {
  }

  /** From a signed-off spec job only a requeue or a spec event leads anywhere. */
  lemma DoneSpecMoves(ceiling: int, j: Job, e: Event)
    requires Fits(ceiling, j, e) && j.kind == SpecJob && j.state == Done && !e.body.Speccing?
    ensures Resets(e) || e.toState == Done
    ensures Resets(e) ==> e.toState == SpecAuthoring
  {
  }

  /** Every event keeps the sign-off sound, but one: requeueing a signed-off job leaves its
      sign-off on record. */
  lemma EventKeepsSignoff(cfg: Config, j: Job, e: Event)
    requires SignoffSound(cfg, j) && Fits(cfg.ceiling, j, e) && !IsSignoff(e)
    ensures SignoffSound(cfg, Step(j, e)) <==> !(Resets(e) && j.spec.signoff.Some?)
  {
    hide Step, VerifySignoff;
    EventLands(cfg.ceiling, j, e);
    if e.body.Speccing? {
      SpecEventStep(j, e);
      SpecEventAfter(j, e);
    } else {
      OnlySpecEventsTouchSpec(cfg.ceiling, j, e);
      if j.spec.signoff.Some? {
        DoneSpecMoves(cfg.ceiling, j, e);
      }
    }
  }

  /** The event neither signs off nor resets the counters. */
  predicate Ordinary(e: Event) { !IsSignoff(e) && !Resets(e) }

  lemma {:induction false} OrdinaryPath(cfg: Config, j: Job, es: seq<Event>)
    requires SignoffSound(cfg, j) && Path(cfg.ceiling, j, es) && forall i :: 0 <= i < |es| ==> Ordinary(es[i])
    ensures SignoffSound(cfg, FoldFrom(j, es))
    decreases |es|
  {
    hide SignoffSound, Fits, Step, IsSignoff;
    if es != [] {
      EventKeepsSignoff(cfg, j, es[0]);
      OrdinaryPath(cfg, Step(j, es[0]), es[1..]);
    }
  }

  // ---- which events a step appends ---------------------------------------------------

  lemma OrdinaryTransition(j: Job, t: Engine.Transition, ev: Engine.EngineEvent, head: string, at: int, n: int)
    requires t.kind != Engine.KindSpecSignoffMinted && t.kind != Engine.KindSpecAmended
    ensures Ordinary(TransitionEvent(j, t, ev, head, at)) && Ordinary(TransitionEvent(j, t, ev, head, at).(jobSeq := n))
  {
  }

  // ---- what the gate signs -------------------------------------------------------------

  /** The transitions of a spec review, with what a sign-off among them covers. */
  predicate SignsSoundly(cfg: Config, j: Job, t: Engine.Transition, ev: Engine.EngineEvent)
    requires ev.SpecReviewClaim?
  {
    t.specSignoff.Some? ==>
      && (cfg.authorLens != "" ==> t.specSignoff.value.reviewerLens != cfg.authorLens)
      && (t.kind == Engine.KindSpecSignoffMinted ==> VerifySignoff(cfg.H, t.specSignoff.value, j.spec.contentHash))
      && (t.kind == Engine.KindSpecAmended ==> VerifySignoff(cfg.H, t.specSignoff.value, ev.amendedHash))
  }

  lemma GateSignsSoundly(cfg: Config, inp: SpecGateInputs)
    ensures var out := EvaluateSpecGate(cfg.H, inp);
      out.signoff.Some? ==>
        && (inp.authorLens != "" ==> out.signoff.value.reviewerLens != inp.authorLens)
        && (out.trigger == TriggerSpecSignedOff ==> VerifySignoff(cfg.H, out.signoff.value, inp.currentSpecHash))
        && (out.trigger == TriggerSpecAmended ==> VerifySignoff(cfg.H, out.signoff.value, inp.amendedHash))
  {
  }

  lemma SpecReviewSignsSoundly(cfg: Config, s: Sys, seen: Seen, ev: Engine.EngineEvent)
    requires ev.SpecReviewClaim?
    ensures var ts := DecisionOf(cfg, s, seen, ev).transitions;
      |ts| <= 1 && (ts != [] ==> SignsSoundly(cfg, s.job, ts[0], ev))
  {
    var es := EngineStateOf(cfg, s, seen, ev);
    hide EvaluateSpecGate, VerifySignoff;
    GateSignsSoundly(cfg, Engine.SpecGateInputsOf(es, ev));
    assert DecisionOf(cfg, s, seen, ev) == Engine.DecideSpecReviewClaim(cfg.H, es, ev);
  }

  lemma SignoffEventAfter(cfg: Config, j: Job, k: Job, t: Engine.Transition, ev: Engine.EngineEvent, head: string,
      at: int, n: int)
    requires ev.SpecReviewClaim? && SpecReviewMove(j, t, ev) && SignsSoundly(cfg, j, t, ev)
    requires k.kind == SpecJob && k.spec == j.spec
    requires t.kind == Engine.KindSpecSignoffMinted || t.kind == Engine.KindSpecAmended
    ensures var e := TransitionEvent(j, t, ev, head, at).(jobSeq := n);
      e.body.Speccing? && SignoffSound(cfg, Derived(AppliedSpec(k, e, e.body.speccing), e))
  {
    hide VerifySignoff, StageRole;
  }

  lemma SpecReviewEventsKeepSignoff(cfg: Config, j: Job, ts: seq<Engine.Transition>, ev: Engine.EngineEvent,
      head: string, at: int)
    requires ev.SpecReviewClaim? && SignoffSound(cfg, j) && j.kind == SpecJob
    requires ts == [] || (|ts| == 1 && SpecReviewMove(j, ts[0], ev) && SignsSoundly(cfg, j, ts[0], ev))
    ensures SignoffSound(cfg, FoldFrom(j, EventsOf(j, ts, ev, head, at)))
  {
    hide Fits, Step, FoldFrom, TransitionEvent, SignsSoundly, SignoffSound, Ordinary;
    if ts == [] {
      FoldNone(j);
    } else {
      var claimed := ClaimRecord(j, SpecClaim(ev.claim), at);
      var first := TransitionEvent(j, ts[0], ev, head, at);
      var outcome := first.(jobSeq := first.jobSeq + 1);
      SpecClaimFits(cfg.ceiling, j, ev.claim, at);
      ClaimIsOrdinary(j, ev.claim, at);
      EventLands(cfg.ceiling, j, claimed);
      EventKeepsSignoff(cfg, j, claimed);
      OnlySpecEventsTouchSpec(cfg.ceiling, j, claimed);
      FoldTwo(j, claimed, outcome);
      if ts[0].kind == Engine.KindSpecSignoffMinted || ts[0].kind == Engine.KindSpecAmended {
        SignoffEventAfter(cfg, j, Step(j, claimed), ts[0], ev, head, at, outcome.jobSeq);
        SpecEventStep(Step(j, claimed), outcome);
      } else {
        SpecReviewMoveFits(cfg.ceiling, j, Step(j, claimed), ts[0], ev, head, at);
        RenumberedFits(cfg.ceiling, Step(j, claimed), first, outcome.jobSeq);
        OrdinaryTransition(j, ts[0], ev, head, at, outcome.jobSeq);
        OrdinaryKeepsSignoff(cfg, Step(j, claimed), outcome);
      }
    }
  }

  lemma ClaimIsOrdinary(j: Job, claim: string, at: int)
    ensures var e := ClaimRecord(j, SpecClaim(claim), at); !IsSignoff(e) && !Resets(e) && !e.body.Speccing?
  {
  }

  lemma OrdinaryKeepsSignoff(cfg: Config, j: Job, e: Event)
    requires SignoffSound(cfg, j) && Fits(cfg.ceiling, j, e) && Ordinary(e)
    ensures SignoffSound(cfg, Step(j, e))
  {
    hide SignoffSound, Fits, Step;
    EventKeepsSignoff(cfg, j, e);
  }

  // ---- over runs -------------------------------------------------------------------------

  lemma {:induction false} PathKeepsKind(ceiling: int, born: Job, events: seq<Event>, n: nat)
    requires Path(ceiling, born, events) && n <= |events|
    ensures JobAt(born, events, n).kind == born.kind
  {
    hide Path, JobAt, Fits, Step;
    if n == 0 {
      JobAtStart(born, events);
    } else {
      PathKeepsKind(ceiling, born, events, n - 1);
      PathStep(ceiling, born, events, n - 1);
    }
  }

  lemma UnderSpecReviewIsSpec(cfg: Config, r: Run)
    requires Legal(cfg, r) && JobOf(cfg, r).state == SpecReview
    ensures JobOf(cfg, r).kind == SpecJob
  {
    hide Allowed, Emitted;
    LedgerIsPath(cfg, r);
    LaterLeadsToJob(cfg, r);
    PathKeepsKind(cfg.ceiling, Born(r), Later(cfg, r), |Later(cfg, r)|);
    if IsBuild(r) {
      BuildIsBornLeasable(cfg, r);
      PathKeepsLeasable(cfg.ceiling, Born(r), Later(cfg, r), |Later(cfg, r)|);
    }
  }

  lemma StepKeepsSignoff(cfg: Config, s: Sys, step: StepKind, at: int)
    requires Allowed(cfg, s, step) && SignoffSound(cfg, s.job)
    requires s.job.state == SpecReview ==> s.job.kind == SpecJob
    ensures SignoffSound(cfg, Next(cfg, s, step, at).job) <==> !(Requeues(step) && s.job.spec.signoff.Some?)
  {
    hide SignoffSound, DecisionOf, Approvers;
    var es := Emitted(cfg, s, step, at);
    EmittedIsPath(cfg, s, step, at);
    if step.Call? && step.ev.SpecReviewClaim? {
      CallKeepsSignoff(cfg, s, step.seen, step.ev, step.head, at);
    } else if Requeues(step) {
      FoldOne(s.job, es[0]);
      EventKeepsSignoff(cfg, s.job, es[0]);
    } else {
      OtherStepIsOrdinary(cfg, s, step, at);
      OrdinaryPath(cfg, s.job, es);
    }
  }

  lemma CallKeepsSignoff(cfg: Config, s: Sys, seen: Seen, ev: Engine.EngineEvent, head: string, at: int)
    requires ev.SpecReviewClaim? && SignoffSound(cfg, s.job)
    requires s.job.state == SpecReview ==> s.job.kind == SpecJob
    ensures SignoffSound(cfg, FoldFrom(s.job, CallEvents(cfg, s, seen, ev, head, at)))
  {
    hide SignoffSound, EvaluateSpecGate, FoldFrom, SignsSoundly, EventsOf;
    var ts := DecisionOf(cfg, s, seen, ev).transitions;
    SpecReviewMoves(cfg.H, EngineStateOf(cfg, s, seen, ev), ev);
    SpecReviewSignsSoundly(cfg, s, seen, ev);
    if ts == [] {
      SilentReview(s.job, ev, head, at);
    } else {
      SpecReviewEventsKeepSignoff(cfg, s.job, ts, ev, head, at);
    }
  }

  lemma SilentReview(j: Job, ev: Engine.EngineEvent, head: string, at: int)
    requires ev.SpecReviewClaim?
    ensures FoldFrom(j, EventsOf(j, [], ev, head, at)) == j
  {
  }

  lemma OtherStepIsOrdinary(cfg: Config, s: Sys, step: StepKind, at: int)
    requires Allowed(cfg, s, step) && !ReviewsSpec(step) && !Requeues(step)
    ensures forall i :: 0 <= i < |Emitted(cfg, s, step, at)| ==> Ordinary(Emitted(cfg, s, step, at)[i])
  {
    hide Emitted, Allowed;
    EmittedAppended(cfg, s, step, at);
  }

  /** Somewhere along the run an operator requeued a job that had been signed off. */
  predicate RequeuedSigned(cfg: Config, r: Run) {
    r.After? && (RequeuedSigned(cfg, r.before) || (Requeues(r.step) && JobOf(cfg, r.before).spec.signoff.Some?))
  }

  /** Whenever a sign-off is on record the spec job is done, the sign-off covers the folded spec
      bytes (the amended ones after an amendment), and its reviewer's lens is not the author's:
      at each point this holds exactly as long as no signed-off job was requeued. */
  lemma {:induction false} SignoffHolds(cfg: Config, r: Run)
    requires Legal(cfg, r) && (r.After? ==> !RequeuedSigned(cfg, r.before))
    ensures SignoffSound(cfg, JobOf(cfg, r)) <==> !RequeuedSigned(cfg, r)
  {
    hide Allowed, SignoffSound, Next;
    match r
    case Start(created) => UnsignedAtBirth(cfg, created);
    case After(before, step, at) =>
      SignoffHolds(cfg, before);
      if JobOf(cfg, before).state == SpecReview {
        UnderSpecReviewIsSpec(cfg, before);
      }
      StepKeepsSignoff(cfg, SysOf(cfg, before), step, at);
  }

  lemma UnsignedAtBirth(cfg: Config, created: Event)
    requires LegalStart(cfg, created)
    ensures SignoffSound(cfg, Step(ZERO_JOB, created))
  {
  }

  // ---- the exception is real -----------------------------------------------------------------

  lemma OneEventStep(cfg: Config, r: Run, step: StepKind, at: int, e: Event)
    requires Emitted(cfg, SysOf(cfg, r), step, at) == [e] && Fits(cfg.ceiling, JobOf(cfg, r), e)
    ensures JobOf(cfg, After(r, step, at)) == Step(JobOf(cfg, r), e)
    ensures Lands(JobOf(cfg, r), e, JobOf(cfg, After(r, step, at)))
  {
    hide Emitted, Fits, Lands, Step;
    FoldOne(JobOf(cfg, r), e);
    EventLands(cfg.ceiling, JobOf(cfg, r), e);
  }

  lemma RunStarts(cfg: Config, created: Event)
    requires LegalStart(cfg, created)
    ensures Legal(cfg, Start(created)) && JobOf(cfg, Start(created)) == Step(ZERO_JOB, created)
  {
  }

  /** A job under authoring is claimed and its spec committed. */
  lemma AuthoredRun(cfg: Config, created: Event, author: Lease, hash: string, version: int, at: int)
    requires LegalStart(cfg, created) && created.body.intake.kind == SpecJob && created.toState == SpecAuthoring
    requires author.id != ""
    ensures var r := After(After(Start(created), Claim(ForAuthoring, author, ""), at), Author(Materialize(1, hash, version)), at);
      && Legal(cfg, r) && JobOf(cfg, r).state == SpecReview && JobOf(cfg, r).leaseEpoch == 1
      && JobOf(cfg, r).kind == SpecJob && JobOf(cfg, r).spec == SpecBinding(hash, version, None)
  {
    hide Step, Fits, Lands, FoldFrom, Approvers, DecisionOf, MeterDecision, Legal, SysOf;
    var r0 := Start(created);
    RunStarts(cfg, created);
    BornToAuthor(cfg, created);
    var j0, claim := JobOf(cfg, r0), Claim(ForAuthoring, author, "");
    ClaimFits(cfg.ceiling, cfg, SysOf(cfg, r0), ForAuthoring, author, "", at);
    OneEventStep(cfg, r0, claim, at, ClaimEvent(j0, ForAuthoring, author, at));
    OnlySpecEventsTouchSpec(cfg.ceiling, j0, ClaimEvent(j0, ForAuthoring, author, at));
    var r1 := After(r0, claim, at);
    RunGrows(cfg, r0, claim, at);
    ClaimLands(j0, ForAuthoring, author, at, JobOf(cfg, r1));
    var j1, commit := JobOf(cfg, r1), Materialize(1, hash, version);
    RunGrows(cfg, r1, Author(commit), at);
    SpecMoveFits(cfg.ceiling, j1, commit, at);
    OneEventStep(cfg, r1, Author(commit), at, SpecMoveEvent(j1, commit, at));
    CommitLands(j1, hash, version, at);
  }

  lemma BornToAuthor(cfg: Config, created: Event)
    requires LegalStart(cfg, created) && created.body.intake.kind == SpecJob && created.toState == SpecAuthoring
    ensures var j := Step(ZERO_JOB, created); j.state == SpecAuthoring && j.leaseEpoch == 0 && j.kind == SpecJob && j.spec.signoff == None
  {
  }

  lemma ClaimLands(j: Job, kind: ClaimKind, lease: Lease, at: int, k: Job)
    requires Lands(j, ClaimEvent(j, kind, lease, at), k)
    ensures k.state == WorkedIn(kind) && k.leaseEpoch == j.leaseEpoch + 1 && k.kind == j.kind
  {
  }

  lemma CommitLands(j: Job, hash: string, version: int, at: int)
    requires j.spec.signoff == None
    ensures var k := Step(j, SpecMoveEvent(j, Materialize(j.leaseEpoch, hash, version), at));
      k.state == SpecReview && k.leaseEpoch == j.leaseEpoch && k.kind == j.kind && k.spec == SpecBinding(hash, version, None)
  {
    hide AppliedIntake, AppliedLeasing, AppliedGate, AppliedHead, AppliedKill, AppliedControl;
  }

  lemma ClaimedForReview(cfg: Config, r: Run, reviewer: Lease, lens: string, at: int)
    requires Legal(cfg, r) && JobOf(cfg, r).state == SpecReview
    requires reviewer.id != "" && !(cfg.authorLens != "" && lens == cfg.authorLens)
    ensures var claimed := After(r, Claim(ForSpecReview, reviewer, lens), at);
      && Legal(cfg, claimed) && SysOf(cfg, claimed).reviewerLens == lens
      && JobOf(cfg, claimed).state == SpecReview && JobOf(cfg, claimed).leaseEpoch == JobOf(cfg, r).leaseEpoch + 1
      && JobOf(cfg, claimed).kind == JobOf(cfg, r).kind && JobOf(cfg, claimed).spec == JobOf(cfg, r).spec
  {
    hide Step, Fits, Lands, FoldFrom, Approvers, MeterDecision, DecisionOf, Legal, SysOf;
    var j, claim := JobOf(cfg, r), Claim(ForSpecReview, reviewer, lens);
    RunGrows(cfg, r, claim, at);
    ClaimFits(cfg.ceiling, cfg, SysOf(cfg, r), ForSpecReview, reviewer, lens, at);
    OneEventStep(cfg, r, claim, at, ClaimEvent(j, ForSpecReview, reviewer, at));
    OnlySpecEventsTouchSpec(cfg.ceiling, j, ClaimEvent(j, ForSpecReview, reviewer, at));
    ClaimLands(j, ForSpecReview, reviewer, at, JobOf(cfg, After(r, claim, at)));
  }

  /** A reviewer with a lens of its own claims the spec and signs it off. */
  lemma SignedRun(cfg: Config, r: Run, reviewer: Lease, lens: string, seen: Seen, at: int)
    requires Legal(cfg, r) && JobOf(cfg, r).state == SpecReview && JobOf(cfg, r).kind == SpecJob
    requires reviewer.id != "" && !(cfg.authorLens != "" && lens == cfg.authorLens)
    ensures var claimed := After(r, Claim(ForSpecReview, reviewer, lens), at);
      var signed := After(claimed, Call(seen, SignOff(JobOf(cfg, r)), ""), at);
      && Legal(cfg, signed) && JobOf(cfg, signed).kind == SpecJob && JobOf(cfg, signed).state == Done
      && JobOf(cfg, signed).spec.signoff.Some?
  {
    hide Step, Fits, Lands, FoldFrom, Approvers, MeterDecision, EvaluateSpecGate, EventsOf, DecisionOf, Legal, SysOf;
    var j, claimed := JobOf(cfg, r), After(r, Claim(ForSpecReview, reviewer, lens), at);
    ClaimedForReview(cfg, r, reviewer, lens, at);
    SignOffDecision(cfg, SysOf(cfg, claimed), seen, SignOff(j));
    RunGrows(cfg, claimed, Call(seen, SignOff(j), ""), at);
    var ts := DecisionOf(cfg, SysOf(cfg, claimed), seen, SignOff(j)).transitions;
    assert ts == [ts[0]];
    SignOffLands(JobOf(cfg, claimed), ts[0], SignOff(j), at);
  }

  /** A sign-off of the spec on record by the reviewer who claims it next. */
  function SignOff(j: Job): Engine.EngineEvent {
    Engine.SpecReviewClaim(j.leaseEpoch + 1, SIGNED_OFF, j.spec.contentHash, true, true, "", 0, 0)
  }

  lemma SignOffDecision(cfg: Config, s: Sys, seen: Seen, ev: Engine.EngineEvent)
    requires s.job.state == SpecReview && !(cfg.authorLens != "" && s.reviewerLens == cfg.authorLens)
    requires ev == Engine.SpecReviewClaim(s.job.leaseEpoch, SIGNED_OFF, s.job.spec.contentHash, true, true, "", 0, 0)
    ensures var d := DecisionOf(cfg, s, seen, ev);
      && d.reject == None && |d.transitions| == 1 && d.transitions[0].specSignoff.Some?
      && d.transitions[0].to == Done && d.transitions[0].kind == Engine.KindSpecSignoffMinted
  {
  }

  lemma SignOffLands(j: Job, t: Engine.Transition, ev: Engine.EngineEvent, at: int)
    requires ev.SpecReviewClaim? && t.specSignoff.Some? && t.to == Done && t.kind == Engine.KindSpecSignoffMinted
    ensures var k := FoldFrom(j, EventsOf(j, [t], ev, "", at)); k.state == Done && k.spec.signoff.Some? && k.kind == j.kind
  {
    hide AppliedIntake, AppliedLeasing, AppliedGate, AppliedHead, AppliedKill, AppliedControl, HumanGate, FoldFrom;
    var claimed, outcome := ClaimRecord(j, SpecClaim(ev.claim), at), TransitionEvent(j, t, ev, "", at);
    FoldTwo(j, claimed, outcome.(jobSeq := outcome.jobSeq + 1));
  }

  lemma RequeueKeepsSignoff(cfg: Config, r: Run, at: int)
    requires Legal(cfg, r) && JobOf(cfg, r).kind == SpecJob && JobOf(cfg, r).state == Done && JobOf(cfg, r).spec.signoff.Some?
    ensures var k := JobOf(cfg, After(r, Operate(Requeue(false)), at));
      && Legal(cfg, After(r, Operate(Requeue(false)), at))
      && k.state == SpecAuthoring && k.spec.signoff.Some? && !SignoffSound(cfg, k)
  {
    hide Step, Fits, FoldFrom, Legal, SysOf;
    var j := JobOf(cfg, r);
    RunGrows(cfg, r, Operate(Requeue(false)), at);
    ControlMoveFits(cfg.ceiling, j, Requeue(false), at);
    OneEventStep(cfg, r, Operate(Requeue(false)), at, ControlMoveEvent(j, Requeue(false), at));
    OnlySpecEventsTouchSpec(cfg.ceiling, j, ControlMoveEvent(j, Requeue(false), at));
  }

  /** Requeueing a signed-off spec, which needs no force, puts it back under authoring with its
      sign-off still on record. */
  lemma RequeuedSignoffStays(cfg: Config, created: Event, author: Lease, hash: string, version: int, reviewer: Lease,
      lens: string, seen: Seen, at: int)
    requires LegalStart(cfg, created) && created.body.intake.kind == SpecJob && created.toState == SpecAuthoring
    requires author.id != "" && reviewer.id != "" && !(cfg.authorLens != "" && lens == cfg.authorLens)
    ensures var authored := After(After(Start(created), Claim(ForAuthoring, author, ""), at), Author(Materialize(1, hash, version)), at);
      var signed := After(After(authored, Claim(ForSpecReview, reviewer, lens), at), Call(seen, SignOff(JobOf(cfg, authored)), ""), at);
      var r := After(signed, Operate(Requeue(false)), at);
      && Legal(cfg, r) && JobOf(cfg, r).state == SpecAuthoring && JobOf(cfg, r).spec.signoff.Some?
      && !SignoffSound(cfg, JobOf(cfg, r))
  {
    hide Legal, SysOf, LegalStart, SignoffSound;
    var authored := After(After(Start(created), Claim(ForAuthoring, author, ""), at), Author(Materialize(1, hash, version)), at);
    AuthoredRun(cfg, created, author, hash, version, at);
    SignedRun(cfg, authored, reviewer, lens, seen, at);
    RequeueKeepsSignoff(cfg, After(After(authored, Claim(ForSpecReview, reviewer, lens), at), Call(seen, SignOff(JobOf(cfg, authored)), ""), at), at);
  }

  /** A released author sends the spec to the build queue: the transition table has no edge for it. */
  lemma ReleasedAuthoringIsQueued(cfg: Config, r: Run, seen: Seen, at: int)
    requires Legal(cfg, r) && JobOf(cfg, r).state == SpecAuthoring
    ensures var k := After(r, GiveBack(seen, JobOf(cfg, r).leaseEpoch, false, true), at);
      Legal(cfg, k) && JobOf(cfg, k).state == Ready && JobOf(cfg, k).kind == JobOf(cfg, r).kind
  {
    hide Step, Fits, FoldFrom, Legal, SysOf, Approvers, MeterDecision;
    var j := JobOf(cfg, r);
    var e := ReleaseEvents(j, false, true, at)[0];
    assert DecisionOf(cfg, SysOf(cfg, r), seen, Engine.Release(j.leaseEpoch)).reject == None;
    hide DecisionOf;
    RunGrows(cfg, r, GiveBack(seen, j.leaseEpoch, false, true), at);
    ReleasedFits(cfg.ceiling, j, e);
    OneEventStep(cfg, r, GiveBack(seen, j.leaseEpoch, false, true), at, e);
  }

  /** A review claim bound to other bytes than the ones on record signs nothing: it re-arms
      authoring, on the same spec and the same budget. */
  lemma StaleClaimOnlyRearms(cfg: Config, r: Run, seen: Seen, ev: Engine.EngineEvent, head: string, at: int)
    requires Legal(cfg, r) && ev.SpecReviewClaim? && Allowed(cfg, SysOf(cfg, r), Call(seen, ev, head))
    requires ev.claimBindsTo != JobOf(cfg, r).spec.contentHash
    ensures DecisionOf(cfg, SysOf(cfg, r), seen, ev).specMint == None
    ensures var j, k := JobOf(cfg, r), JobOf(cfg, After(r, Call(seen, ev, head), at));
      && k.state == SpecAuthoring && k.spec == j.spec.(signoff := None)
      && k.counters == j.counters && k.lease == NO_LEASE && k.leaseEpoch == j.leaseEpoch
  {
    hide Legal, FoldFrom, Approvers, EventsOf;
    var s := SysOf(cfg, r);
    var es := EngineStateOf(cfg, s, seen, ev);
    assert EvaluateSpecGate(cfg.H, Engine.SpecGateInputsOf(es, ev)) == SpecGateOutcome(TriggerSpecSuperseded, None);
    StaleOutcome(s.job, ev, head, at);
  }

  lemma StaleOutcome(j: Job, ev: Engine.EngineEvent, head: string, at: int)
    requires ev.SpecReviewClaim? && j.state == SpecReview
    ensures var k := FoldFrom(j, EventsOf(j, [Engine.Move(SpecReview, SpecAuthoring, Engine.KindSpecSuperseded)], ev, head, at));
      && k.state == SpecAuthoring && k.spec == j.spec.(signoff := None)
      && k.counters == j.counters && k.lease == NO_LEASE && k.leaseEpoch == j.leaseEpoch
  {
    hide AppliedIntake, AppliedLeasing, AppliedGate, AppliedHead, AppliedKill, AppliedControl, FoldFrom, HumanGate;
    var t := Engine.Move(SpecReview, SpecAuthoring, Engine.KindSpecSuperseded);
    var claimed, outcome := ClaimRecord(j, SpecClaim(ev.claim), at), TransitionEvent(j, t, ev, head, at);
    FoldTwo(j, claimed, outcome.(jobSeq := outcome.jobSeq + 1));
  }
}
