/** What Decide answers each call with, said of the call, the facts and the job alone. Every call
    but a result makes at most one move. */
module Decisions {
  import opened Jobs
  import opened Verdicts
  import opened Liveness
  import opened Engine
  import opened Ledger
  import opened Runtime
  import Protocol
  import Runs

  /** d refuses the call and does nothing else. */
  predicate Refuses(d: Decision, why: RejectReason) { d == NOTHING.(reject := Some(why)) }

  /** d makes one move and accepts the call. */
  predicate MovesOnce(d: Decision) { |d.transitions| == 1 && d.reject == None }

  /** The facts show an open pull request with green checks and a known head and base. */
  predicate Green(f: Facts) { f.prExists && !f.merged && f.ciGreen && f.headSHA != "" && f.baseSHA != "" }

  // ---- code review -----------------------------------------------------------------------

  /** The reviewer approved and the facts bear it out. */
  predicate Earned(ev: EngineEvent, f: Facts)
    requires ev.ReviewClaim?
  {
    ev.value == APPROVED && Green(f)
  }

  /** One more bounce is one too many, or this reviewer keeps asking for changes. */
  predicate Spent(ev: EngineEvent, c: Counters)
    requires ev.ReviewClaim?
  {
    c.bounces + 1 >= c.maxBounces
    || (ev.value == CHANGES_REQUESTED && ev.reviewerPriorRejections + 1 >= MAX_REVIEWER_REJECTIONS)
  }

  /** The panel wants more approvals than this one and those before it; any panel wants one. */
  predicate PanelShort(ev: EngineEvent, p: Policy)
    requires ev.ReviewClaim?
  {
    ev.priorApprovals + 1 < p.requiredReviewers || ev.priorApprovals < 0
  }

  /** What a review that leads to a state is recorded as. */
  function ReviewKind(to: State): TransitionKind {
    match to
    case NeedsHuman => KindBounceExhausted
    case Ready => KindReviewBounced
    case ReviewPending => KindReviewApproved
    case _ => KindVerdictMinted
  }

  lemma ReviewOutcomeMoves(out: GateOutcome, prior: int, required: int)
    requires out.trigger == TriggerApproved || out.trigger == TriggerBounce || out.trigger == TriggerBounceExhausted
    requires out.verdict.Some? <==> out.trigger == TriggerApproved
    ensures var d := OnReviewOutcome(out, prior, required);
      && MovesOnce(d) && d.directive == None && d.specMint == None
      && d.verdictMint == (if out.verdict.Some? && prior + 1 >= required then out.verdict else None)
      && d.transitions[0] == Move(CodeReview, d.transitions[0].to, ReviewKind(d.transitions[0].to))
           .(bouncesDelta := if out.verdict.Some? then 0 else 1, verdict := d.verdictMint)
      && d.transitions[0].to == (
           match out.trigger
           case TriggerBounce => Ready
           case TriggerBounceExhausted => NeedsHuman
           case _ => if prior + 1 < required then ReviewPending else Mergeable)
  {
  }

  /** A review claim at the live epoch makes exactly one move. An approval over green facts re-arms
      the review while the panel is short and mints when it is not; anything else costs a bounce,
      and parks the job exactly when the bounces or the reviewer's rejections are used up. */
  lemma ReviewIsDecided(H: Digest, s: EngineState, ev: EngineEvent)
    requires ev.ReviewClaim?
    ensures var d, earned, spent, short := Decide(H, s, ev), Earned(ev, s.gitHub), Spent(ev, s.job.counters), PanelShort(ev, s.policy);
      && (ev.epoch != s.epoch ==> Refuses(d, StaleEpoch))
      && (ev.epoch == s.epoch && s.job.state != CodeReview ==> Refuses(d, WrongState))
      && (ev.epoch == s.epoch && s.job.state == CodeReview ==>
            && MovesOnce(d) && d.directive == None && d.specMint == None
            && var t := d.transitions[0];
               && t.from == CodeReview && t.specSignoff == None && t.attemptsDelta == t.stallRevocationsDelta == 0 && !t.bumpEpoch
               && t.bouncesDelta == (if earned then 0 else 1)
               && t.to == (if !earned then (if spent then NeedsHuman else Ready) else if short then ReviewPending else Mergeable)
               && t.kind == ReviewKind(t.to)
               && t.verdict == d.verdictMint
               && (d.verdictMint.Some? <==> earned && !short)
               && (d.verdictMint.Some? ==>
                     && Verify(H, d.verdictMint.value, s.gitHub.headSHA, s.gitHub.baseSHA)
                     && d.verdictMint.value.value == APPROVED
                     && (d.verdictMint.value.disposition == SELF_MERGE <==>
                           && ev.disposition == SELF_MERGE && s.policy.allowSelfMerge && MergeReady(s.gitHub)
                           && s.content.Some? && s.content.value.Eligible())))
  {
    hide EvaluateGate, Verify, MergeReady, OnReviewOutcome;
    assert |APPROVED| != |CHANGES_REQUESTED|;
    var out := EvaluateGate(H, GateInputsOf(s, ev));
    GateMintsExactly(H, GateInputsOf(s, ev));
    ReviewOutcomeMoves(out, ev.priorApprovals, s.policy.RequiredReviewersOrDefault());
  }

  /** A move of the review gate, and the fold of the two events it is recorded as. */
  lemma ReviewMoveFolds(j: Job, t: Transition, ev: EngineEvent, head: string, at: int)
    requires ev.ReviewClaim? && j.state == CodeReview && !t.bumpEpoch && t.from == CodeReview
    requires t.kind in {KindBounceExhausted, KindReviewBounced, KindReviewApproved, KindVerdictMinted}
    requires t.kind == KindVerdictMinted ==> t.verdict.Some? && t.verdict.value.baseSHA != ""
    ensures var k := FoldFrom(j, EventsOf(j, [t], ev, head, at));
      && k.state == t.to && k.lease == NO_LEASE && k.leaseEpoch == j.leaseEpoch && k.jobSeq == j.jobSeq + 2
      && k.counters == (if t.kind in {KindBounceExhausted, KindReviewBounced}
                        then j.counters.(bounces := j.counters.bounces + t.bouncesDelta) else j.counters)
      && k.verdict == (if t.kind == KindVerdictMinted then t.verdict else j.verdict)
      && k.baseSHA == (if t.kind == KindVerdictMinted then t.verdict.value.baseSHA else j.baseSHA)
      && (t.kind == KindVerdictMinted ==> k.headSHA == t.verdict.value.headSHA)
      && k.escalationReason == (if HumanGate(t.to) then ReasonOf(t, ev) else "")
  {
    hide Step, FoldFrom, ReasonOf;
    var claim, move := ClaimRecord(j, VerdictClaim(ev.value), at), TransitionEvent(j, t, ev, head, at);
    var last := move.(jobSeq := move.jobSeq + 1);
    assert EventsOf(j, [t], ev, head, at) == [claim, last];
    Runs.FoldTwo(j, claim, last);
    ClaimSteps(j, ev.value, at);
    GateSteps(Step(j, claim), last);
  }

  lemma ClaimSteps(j: Job, value: string, at: int)
    requires j.state == CodeReview
    ensures Step(j, ClaimRecord(j, VerdictClaim(value), at)) == j.(jobSeq := j.jobSeq + 1, escalationReason := "", overBudget := false)
  {
  }

  lemma GateSteps(j: Job, e: Event)
    requires e.body.Gate? && j.escalationReason == ""
    requires e.body.gate.BounceExhausted? || e.body.gate.ReviewBounced? || e.body.gate.ReviewApproved?
      || (e.body.gate.VerdictMinted? && e.body.gate.minted.Some? && e.body.gate.minted.value.baseSHA != "")
    ensures var k, g := Step(j, e), e.body.gate;
      && k.state == e.toState && k.lease == NO_LEASE && k.leaseEpoch == j.leaseEpoch && k.jobSeq == e.jobSeq
      && k.counters == (if g.BounceExhausted? || g.ReviewBounced?
                        then j.counters.(bounces := j.counters.bounces + g.bouncesDelta) else j.counters)
      && k.verdict == (if g.VerdictMinted? then g.minted else j.verdict)
      && k.baseSHA == (if g.VerdictMinted? then g.minted.value.baseSHA else j.baseSHA)
      && (g.VerdictMinted? ==> k.headSHA == g.minted.value.headSHA)
      && k.escalationReason == (if HumanGate(e.toState) then e.escalationReason else "")
  {
  }

  /** What that makes of the folded job: the lease is over, the counters move by one bounce or not
      at all, and the job is parked, rebuilt, re-reviewed or mergeable accordingly; the standoff of
      one reviewer, and nothing else, is named as the reason. */
  lemma ReviewLands(cfg: Config, s: Sys, seen: Seen, ev: EngineEvent, head: string, at: int)
    requires ev.ReviewClaim? && Allowed(cfg, s, Call(seen, ev, head))
    ensures var k, facts := Next(cfg, s, Call(seen, ev, head), at).job, Vetted(s.job, seen.facts);
      var earned, spent, short := Earned(ev, facts), Spent(ev, s.job.counters), PanelShort(ev, seen.policy);
      && k.lease == NO_LEASE && k.leaseEpoch == s.job.leaseEpoch && k.jobSeq == s.job.jobSeq + 2
      && k.counters == (if earned then s.job.counters else s.job.counters.(bounces := s.job.counters.bounces + 1))
      && k.state == (if !earned then (if spent then NeedsHuman else Ready) else if short then ReviewPending else Mergeable)
      && (k.state == Mergeable ==>
            && k.verdict.Some? && Verify(cfg.H, k.verdict.value, facts.headSHA, facts.baseSHA)
            && k.headSHA == facts.headSHA && k.baseSHA == facts.baseSHA)
      && (k.state != Mergeable ==> k.verdict == s.job.verdict && k.baseSHA == s.job.baseSHA)
      && k.escalationReason == (
           if k.state == NeedsHuman && ev.value == CHANGES_REQUESTED && ev.reviewerPriorRejections + 1 >= MAX_REVIEWER_REJECTIONS
           then "reviewer_rejections" else "")
  {
    hide Decide, VerdictHash, Vetted, Earned, Spent, PanelShort, FoldFrom, EventsOf, ReasonOf;
    var es, d := EngineStateOf(cfg, s, seen, ev), DecisionOf(cfg, s, seen, ev);
    ReviewIsDecided(cfg.H, es, ev);
    var t := d.transitions[0];
    assert d.transitions == [t];
    if Earned(ev, es.gitHub) {
      EarnedIsGreen(ev, es.gitHub);
    }
    ReviewMoveFolds(s.job, t, ev, head, at);
    if t.to == NeedsHuman {
      ReviewReason(t, ev);
    }
  }

  lemma ReviewReason(t: Transition, ev: EngineEvent)
    requires ev.ReviewClaim? && t.to == NeedsHuman
    ensures ReasonOf(t, ev) == if ev.value == CHANGES_REQUESTED && ev.reviewerPriorRejections + 1 >= MAX_REVIEWER_REJECTIONS
                               then "reviewer_rejections" else ""
  {
  }

  lemma EarnedIsGreen(ev: EngineEvent, f: Facts)
    requires ev.ReviewClaim? && Earned(ev, f)
    ensures f.baseSHA != ""
  {
  }

  // ---- spec review -----------------------------------------------------------------------

  /** Where a spec review recorded as such leads. */
  function SpecReviewTarget(kind: TransitionKind): State {
    match kind
    case KindSpecNeedsDesign => NeedsDesign
    case KindSpecAmended => Done
    case KindSpecSignoffMinted => Done
    case KindBounceExhausted => NeedsHuman
    case _ => SpecAuthoring
  }

  lemma SpecClaimsDiffer(s: EngineState, ev: EngineEvent)
    requires ev.SpecReviewClaim?
    ensures var inp := SpecGateInputsOf(s, ev);
      && (BoundClaim(inp) <==>
            ev.claimBindsTo == s.spec.currentHash && (s.spec.authorLens == "" || s.spec.reviewerLens != s.spec.authorLens))
      && (AmendsSpec(inp) <==> ev.claim == AMENDED && ev.amendedHash != "" && ev.amendedHash != s.spec.currentHash)
      && (PassesSpec(inp) <==> ev.claim == SIGNED_OFF && ev.meetsStyle && ev.meetsRequirements)
      && (AmendsSpec(inp) || PassesSpec(inp) ==> inp.claim != NEEDS_DESIGN)
  {
    assert |AMENDED| != |NEEDS_DESIGN| && |SIGNED_OFF| != |NEEDS_DESIGN|;
  }

  lemma SpecOutcomeMoves(out: SpecGateOutcome, isEpic: bool)
    requires out.trigger != TriggerApproved
    requires out.signoff.Some? <==> out.trigger == TriggerSpecSignedOff || out.trigger == TriggerSpecAmended
    ensures var d := OnSpecOutcome(out, isEpic);
      && MovesOnce(d) && d.directive == None && d.verdictMint == None && d.specMint == out.signoff
      && d.transitions[0] == Move(SpecReview, SpecReviewTarget(d.transitions[0].kind), d.transitions[0].kind)
           .(bouncesDelta := if out.trigger == TriggerBounce || out.trigger == TriggerBounceExhausted then 1 else 0,
             specSignoff := out.signoff)
      && d.transitions[0].kind == (
           match out.trigger
           case TriggerSpecSignedOff => KindSpecSignoffMinted
           case TriggerSpecAmended => KindSpecAmended
           case TriggerSpecNeedsDesign => KindSpecNeedsDesign
           case TriggerSpecSuperseded => KindSpecSuperseded
           case _ => if out.trigger == TriggerBounceExhausted || isEpic then KindBounceExhausted else KindSpecBounced)
  {
  }

  /** A spec-review claim at the live epoch makes exactly one move. Judged on other bytes it only
      re-arms authoring, for free. Bound, it goes to design when it asks for that, is done when it
      amends or passes the spec - with a sign-off over exactly the amended or current bytes - and
      otherwise costs a bounce, as does the author's own lens whatever it says; a bounce goes to a
      human from an epic, which has no author, and when the budget is used up, but the author's
      lens uses up none. */
  lemma SpecReviewIsDecided(H: Digest, s: EngineState, ev: EngineEvent)
    requires ev.SpecReviewClaim?
    ensures var d, stale := Decide(H, s, ev), ev.claimBindsTo != s.spec.currentHash;
      var bound := !stale && (s.spec.authorLens == "" || s.spec.reviewerLens != s.spec.authorLens);
      var amends := ev.claim == AMENDED && ev.amendedHash != "" && ev.amendedHash != s.spec.currentHash;
      var signs := bound && (amends || (ev.claim == SIGNED_OFF && ev.meetsStyle && ev.meetsRequirements));
      var design := bound && ev.claim == NEEDS_DESIGN;
      var spent := s.job.counters.bounces + 1 >= s.job.counters.maxBounces || ev.reviewerPriorRejections + 1 >= MAX_REVIEWER_REJECTIONS;
      && (ev.epoch != s.epoch ==> Refuses(d, StaleEpoch))
      && (ev.epoch == s.epoch && s.job.state != SpecReview ==> Refuses(d, WrongState))
      && (ev.epoch == s.epoch && s.job.state == SpecReview ==>
            && MovesOnce(d) && d.directive == None && d.verdictMint == None
            && var t := d.transitions[0];
               && t.from == SpecReview && t.verdict == None && t.attemptsDelta == t.stallRevocationsDelta == 0 && !t.bumpEpoch
               && t.bouncesDelta == (if stale || design || signs then 0 else 1)
               && t.kind == (
                    if stale then KindSpecSuperseded else if design then KindSpecNeedsDesign
                    else if signs then (if amends then KindSpecAmended else KindSpecSignoffMinted)
                    else if s.isEpic || (bound && spent) then KindBounceExhausted else KindSpecBounced)
               && t.to == SpecReviewTarget(t.kind)
               && t.specSignoff == d.specMint
               && (d.specMint.Some? <==> signs)
               && (d.specMint.Some? ==>
                     && VerifySignoff(H, d.specMint.value, if amends then ev.amendedHash else s.spec.currentHash)
                     && d.specMint.value.specVersion == (if amends then ev.amendedVersion else s.spec.version)
                     && d.specMint.value.reviewerLens == s.spec.reviewerLens))
  {
    hide EvaluateSpecGate, VerifySignoff, AmendsSpec, PassesSpec, BoundClaim, OnSpecOutcome;
    var inp := SpecGateInputsOf(s, ev);
    SpecGateSignsExactly(H, inp);
    SpecOutcomeMoves(EvaluateSpecGate(H, inp), s.isEpic);
    SpecClaimsDiffer(s, ev);
  }

  // ---- the worker's calls ------------------------------------------------------------------

  /** Back to the queue the job was claimed from; a spec goes back to its author. */
  predicate BackToItsQueue(from: State, to: State) {
    match from
    case CodeReview => to == ReviewPending
    case SpecAuthoring => to == SpecAuthoring
    case SpecReview => to == SpecAuthoring
    case ResolvingConflict => to == ResolvingConflict
    case _ => to == Ready
  }

  /** A job at work, heard at its live epoch, and what refuses it otherwise. */
  predicate RefusesOutsiders(d: Decision, s: EngineState, epoch: int) {
    && (epoch != s.epoch ==> Refuses(d, StaleEpoch))
    && (epoch == s.epoch && !HasActiveLease(s.job.state) ==> Refuses(d, NotActive))
  }

  /** The lease is over and its epoch fenced. */
  predicate EndsLease(t: Transition, from: State) { t.from == from && t.bumpEpoch && t.verdict == None && t.specSignoff == None }

  /** A heartbeat of a live lease fails the job when its agent is gone, hands it on at the cost of
      an attempt when the agent waits for input, and otherwise moves nothing; the worker is told to
      go on exactly when its agent is fine and the job is within its budget. */
  lemma HeartbeatIsDecided(H: Digest, s: EngineState, ev: EngineEvent)
    requires ev.Heartbeat?
    ensures var d, gone := Decide(H, s, ev), ev.agentExited || ev.health == Zombie;
      && RefusesOutsiders(d, s, ev.epoch)
      && (ev.epoch == s.epoch && HasActiveLease(s.job.state) ==>
            && d.reject == None && d.verdictMint == None && d.specMint == None
            && (d.transitions == [] <==> !gone && !ev.awaitingInput)
            && (d.transitions != [] ==>
                  && MovesOnce(d) && var t := d.transitions[0];
                     && EndsLease(t, s.job.state) && t.bouncesDelta == t.stallRevocationsDelta == 0
                     && t.attemptsDelta == (if gone then 0 else 1)
                     && (gone ==> t.to == Failed && t.kind == KindAgentExited)
                     && (!gone ==> BackToItsQueue(s.job.state, t.to) && t.kind == KindFastCancelled))
            && d.directive == Some(
                 if !gone && !ev.awaitingInput && !s.job.overBudget
                    && (s.costCeilingMicroUSD.None? || s.job.costMicroUSD < s.costCeilingMicroUSD.value)
                 then Continue else Directive.Cancel))
  {
  }

  /** A cost report of a live lease parks the job exactly when the meter has reached the ceiling. */
  lemma CostIsDecided(H: Digest, s: EngineState, epoch: int)
    ensures var d := Decide(H, s, CostMeter(epoch));
      && RefusesOutsiders(d, s, epoch)
      && (epoch == s.epoch && HasActiveLease(s.job.state) ==>
            var over := s.costCeilingMicroUSD.Some? && s.job.costMicroUSD >= s.costCeilingMicroUSD.value;
            && d.reject == None && d.directive == Some(if over then Directive.Cancel else Continue)
            && (!over ==> d.transitions == [])
            && (over ==>
                  && MovesOnce(d) && var t := d.transitions[0];
                     && EndsLease(t, s.job.state) && t.to == NeedsHuman && t.kind == KindCostEscalated
                     && t.attemptsDelta == t.bouncesDelta == t.stallRevocationsDelta == 0))
  {
  }

  /** A result of a live build goes to review, through building if the worker never said it began. */
  lemma ResultIsDecided(H: Digest, s: EngineState, epoch: int)
    ensures var d := Decide(H, s, WorkResult(epoch));
      && (epoch != s.epoch ==> Refuses(d, StaleEpoch))
      && (epoch == s.epoch && s.job.state != Leased && s.job.state != Building ==> Refuses(d, WrongState))
      && (epoch == s.epoch && (s.job.state == Leased || s.job.state == Building) ==>
            && d.reject == None && |d.transitions| == (if s.job.state == Leased then 2 else 1)
            && (forall i :: 0 <= i < |d.transitions| ==>
                  var t := d.transitions[i];
                  && t.from == (if i == 0 then s.job.state else Building)
                  && t.to == (if i == |d.transitions| - 1 then ReviewPending else Building)
                  && t.kind == (if t.to == ReviewPending then KindResultAccepted else KindWorkerStarted)
                  && t.attemptsDelta == t.bouncesDelta == t.stallRevocationsDelta == 0 && !t.bumpEpoch))
  {
  }

  /** A live lease given back costs an attempt; a review goes back to its queue, anything else to
      the build queue, and the epoch stays. */
  lemma ReleaseIsDecided(H: Digest, s: EngineState, epoch: int)
    ensures var d := Decide(H, s, Release(epoch));
      && RefusesOutsiders(d, s, epoch)
      && (epoch == s.epoch && HasActiveLease(s.job.state) ==>
            && MovesOnce(d) && d.directive == None
            && var t := d.transitions[0];
               && t.from == s.job.state && t.kind == KindLeaseReleased && !t.bumpEpoch
               && t.attemptsDelta == 1 && t.bouncesDelta == t.stallRevocationsDelta == 0
               && t.to == (if s.job.state == CodeReview then ReviewPending else Ready))
  {
  }

  /** A kill ends the lease. The job is parked exactly when the governor's ceiling is reached or, on
      the wall clock alone, when the attempts are used up; otherwise it goes back to its queue at
      the cost of an attempt. Every kill is counted as a stall. */
  lemma LivenessOutcome(H: Digest, s: EngineState, ev: EngineEvent)
    requires ev.LivenessVerdict?
    ensures var d := Decide(H, s, ev);
      var clock := ev.rungs.rung3.absoluteCap || ev.rungs.rung3.heartbeatStale;
      var kill := clock || (!ev.rungs.circuitBreakerTripped && Signals(ev.rungs) >= 2);
      var parks := ev.governorCeilingReached || (clock && ev.attemptsExhausted);
      && (!HasActiveLease(s.job.state) ==> Refuses(d, NotActive))
      && (HasActiveLease(s.job.state) && !kill ==> d == NOTHING)
      && (HasActiveLease(s.job.state) && kill ==>
            && MovesOnce(d) && d.directive == None && d.verdictMint == None && d.specMint == None
            && var t := d.transitions[0];
               && EndsLease(t, s.job.state) && t.stallRevocationsDelta == 1 && t.bouncesDelta == 0
               && t.attemptsDelta == (if parks then 0 else 1)
               && (parks ==> t.to == NeedsHuman && t.kind == KindStallEscalated)
               && (!parks ==> BackToItsQueue(s.job.state, t.to) && t.kind == KindLeaseRevoked)
               && (t.revokeReason == AbsoluteCapHit <==> ev.rungs.rung3.absoluteCap)
               && (t.revokeReason == HeartbeatSilent <==> clock && !ev.rungs.rung3.absoluteCap)
               && (t.revokeReason == TwoRungStall <==> !clock))
  {
    TwoRungsKill(ev.rungs);
  }

  /** So, through the recorded event and its fold, the job is off its lease and on the next epoch, one
      stall heavier, and either parked - on record as out of attempts exactly when only the attempts
      ran out - or back in its queue at the cost of an attempt. */
  lemma LivenessLands(cfg: Config, s: Sys, seen: Seen, ev: EngineEvent, head: string, at: int)
    requires ev.LivenessVerdict? && Allowed(cfg, s, Call(seen, ev, head)) && EvaluateKill(ev.rungs).kill
    ensures var k := Next(cfg, s, Call(seen, ev, head), at).job;
      var parks := ev.governorCeilingReached || (EvaluateKill(ev.rungs).unilateral && ev.attemptsExhausted);
      && k.lease == NO_LEASE && k.leaseEpoch == s.job.leaseEpoch + 1
      && k.counters == s.job.counters.(stallRevocations := s.job.counters.stallRevocations + 1,
                                       attempts := s.job.counters.attempts + if parks then 0 else 1)
      && (parks ==> k.state == NeedsHuman)
      && (parks ==> k.escalationReason == if ev.attemptsExhausted && !ev.governorCeilingReached then "attempts" else "stall")
      && (!parks ==> BackToItsQueue(s.job.state, k.state))
  {
    hide Decide, FoldFrom, EventsOf, EvaluateKill, CountsAreCurrent, Signals, BackToItsQueue, HasActiveLease;
    var es, d := EngineStateOf(cfg, s, seen, ev), DecisionOf(cfg, s, seen, ev);
    LivenessOutcome(cfg.H, es, ev);
    TwoRungsKill(ev.rungs);
    var t := d.transitions[0];
    assert d.transitions == [t];
    LivenessMoveFolds(s.job, t, ev, head, at);
    if t.to == NeedsHuman {
      ParkReason(t, ev);
    }
  }

  lemma LivenessMoveFolds(j: Job, t: Transition, ev: EngineEvent, head: string, at: int)
    requires ev.LivenessVerdict? && t.bumpEpoch && t.stallRevocationsDelta == 1
    requires (t.kind == KindStallEscalated && t.to == NeedsHuman) || (t.kind == KindLeaseRevoked && t.to != NeedsHuman)
    ensures var k := FoldFrom(j, EventsOf(j, [t], ev, head, at));
      && k.state == t.to && k.lease == NO_LEASE && k.leaseEpoch == j.leaseEpoch + 1
      && k.counters == j.counters.(stallRevocations := j.counters.stallRevocations + 1,
                                   attempts := j.counters.attempts + if t.kind == KindLeaseRevoked then t.attemptsDelta else 0)
      && (t.to == NeedsHuman ==> k.escalationReason == ReasonOf(t, ev))
  {
    hide FoldFrom, ReasonOf;
    var e := TransitionEvent(j, t, ev, head, at);
    assert EventsOf(j, [t], ev, head, at) == [e];
    Runs.FoldOne(j, e);
    KillSteps(j, e);
    if t.to == NeedsHuman {
      ParkReason(t, ev);
    }
  }

  lemma ParkReason(t: Transition, ev: EngineEvent)
    requires ev.LivenessVerdict? && t.to == NeedsHuman
    ensures ReasonOf(t, ev) == (if ev.attemptsExhausted && !ev.governorCeilingReached then "attempts" else "stall") != ""
  {
  }

  lemma KillSteps(j: Job, e: Event)
    requires e.body.Kill? && (e.body.kill.StallEscalated? || e.body.kill.LeaseRevoked?)
    ensures var k, m := Step(j, e), e.body.kill;
      && k.state == e.toState && k.lease == NO_LEASE && k.leaseEpoch == e.leaseEpoch
      && k.counters == j.counters.(
           stallRevocations := j.counters.stallRevocations + m.stallRevocationsDelta,
           attempts := j.counters.attempts + if m.LeaseRevoked? then m.attemptsDelta else 0)
      && (e.toState == NeedsHuman && e.escalationReason != "" ==> k.escalationReason == e.escalationReason)
  {
  }

  /** A lease given back costs an attempt when the work failed, or when it abandons a build, an
      authoring, a merge or a conflict and is not excused; the job is parked exactly when that uses
      up a limited budget of attempts, and otherwise goes where its next worker finds it. */
  lemma ReleaseLands(cfg: Config, s: Sys, seen: Seen, epoch: int, failed: bool, noPenalty: bool, at: int)
    requires Allowed(cfg, s, GiveBack(seen, epoch, failed, noPenalty))
    ensures var j, k := s.job, Next(cfg, s, GiveBack(seen, epoch, failed, noPenalty), at).job;
      var charged := failed || (!noPenalty && j.state != CodeReview && j.state != SpecReview);
      var parks := charged && j.counters.maxAttempts > 0 && j.counters.attempts + 1 >= j.counters.maxAttempts;
      && epoch == j.leaseEpoch == k.leaseEpoch && k.lease == NO_LEASE
      && k.counters == j.counters.(attempts := j.counters.attempts + if charged then 1 else 0)
      && k.state == (if parks then NeedsHuman else
                       match j.state
                       case CodeReview => ReviewPending
                       case SpecReview => SpecAuthoring
                       case ResolvingConflict => ResolvingConflict
                       case _ => Ready)
      && (parks ==> k.escalationReason == "attempts")
  {
    hide FoldFrom, Decide, Approvers;
    ReleaseIsDecided(cfg.H, EngineStateOf(cfg, s, seen, Release(epoch)), epoch);
    ReleaseFolds(s.job, failed, noPenalty, at);
  }

  lemma ReleaseFolds(j: Job, failed: bool, noPenalty: bool, at: int)
    ensures var k := FoldFrom(j, ReleaseEvents(j, failed, noPenalty, at));
      var penalty := Penalty(j, failed, noPenalty);
      && k.leaseEpoch == j.leaseEpoch && k.lease == NO_LEASE
      && k.counters == j.counters.(attempts := j.counters.attempts + penalty)
      && k.state == (if Exhausts(j, penalty) then NeedsHuman else Protocol.ReleaseTarget(j.state))
      && (Exhausts(j, penalty) ==> k.escalationReason == ATTEMPTS)
  {
    hide Penalty, Exhausts, Protocol.ReleaseTarget;
    var es := ReleaseEvents(j, failed, noPenalty, at);
    if Exhausts(j, Penalty(j, failed, noPenalty)) {
      Runs.FoldTwo(j, es[0], es[1]);
    } else {
      Runs.FoldOne(j, es[0]);
    }
  }

  // ---- merge dispatch ------------------------------------------------------------------------

  /** The two texts are equal letter by letter, case aside. */
  predicate EqualFold(s: string, lower: string)
    requires forall i :: 0 <= i < |lower| ==> 'a' <= lower[i] <= 'z'
  {
    |s| == |lower| && forall i :: 0 <= i < |s| ==> FoldsTo(s[i], lower[i])
  }

  /** GitHub has settled on a head that still satisfies the gate. */
  predicate Settled(f: Facts) { Green(f) && !EqualFold(f.mergeableState, "unknown") }

  /** Dispatch of a mergeable job makes one move if its verdict verifies over settled facts, and none
      otherwise; it starts the merge exactly of a self_merge verdict while policy allows it and the
      content gate clears the diff, and else hands off. */
  lemma DispatchIsDecided(H: Digest, s: EngineState)
    ensures var d, v := Decide(H, s, MergeDispatch), s.job.verdict;
      var holds := v.Some? && Settled(s.gitHub) && Verify(H, v.value, s.gitHub.headSHA, s.gitHub.baseSHA);
      && (s.job.state != Mergeable ==> Refuses(d, WrongState))
      && (s.job.state == Mergeable && !holds ==> d == NOTHING)
      && (s.job.state == Mergeable && holds ==>
            && MovesOnce(d) && d.directive == None && d.verdictMint == None && d.specMint == None
            && var selfMerges := v.value.disposition == SELF_MERGE && s.policy.allowSelfMerge
                                 && s.content.Some? && s.content.value.Eligible();
               d.transitions[0] == Move(Mergeable, if selfMerges then Merging else MergeHandoff,
                                        if selfMerges then KindMergeStarted else KindMergeHandoff))
  {
    hide Verify, FoldsTo;
    ReadyIsSettled(s.gitHub);
  }

  lemma ReadyIsSettled(f: Facts)
    ensures MergeReady(f) <==> Settled(f)
  {
    hide FoldsTo;
    var s, unknown := f.mergeableState, "unknown";
    assert unknown[0] == 'u' && unknown[1] == 'n' && unknown[2] == 'k' && unknown[3] == 'n' && unknown[4] == 'o'
      && unknown[5] == 'w' && unknown[6] == 'n';
    assert EqualFold(s, unknown) <== IsUnknown(s);
  }

  /** A verdict changed after it was minted, whatever was changed and whatever facts are shown,
      moves nothing: short of a digest collision, no rewriting of a handoff can make it merge. */
  lemma TamperedVerdictStays(H: Digest, s: EngineState, v: Verdict, headSHA: string, baseSHA: string)
    requires Verify(H, v, headSHA, baseSHA) && s.job.verdict.Some?
    requires s.job.verdict.value.integrityHash == v.integrityHash && s.job.verdict.value != v
    requires !CollidesOn(H, VerdictPreimage(v), VerdictPreimage(s.job.verdict.value))
    ensures Decide(H, s, MergeDispatch).transitions == []
  {
    hide Verify;
    VerdictIsSealed(H, v, headSHA, baseSHA, s.job.verdict.value, s.gitHub.headSHA, s.gitHub.baseSHA);
  }
}
