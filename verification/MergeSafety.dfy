/** No job is merged without a minted, content-cleared, policy-allowed self-merge sign-off over
    the very commit GitHub reports ready. */
module MergeSafety {
  import opened Jobs
  import opened Verdicts
  import opened Ledger
  import opened Protocol
  import opened Runtime
  import opened Runs
  import opened Tallies
  import Engine

  predicate IsMint(e: Event) { e.body.Gate? && e.body.gate.VerdictMinted? }

  predicate IsDispatch(e: Event) { e.body.Gate? && e.body.gate.MergeStarted? }

  // ---- where verdicts and merges come from -----------------------------------------

  /** Folding an event keeps the verdict, drops it, or takes the one the event carries. */
  lemma VerdictAfter(j: Job, e: Event)
    ensures var v := Step(j, e).verdict;
      v == None || v == j.verdict || (IsMint(e) && v == e.body.gate.minted)
  {
    hide Step;
    VerdictColumn(j, e);
  }

  /** Merging is entered by a dispatch event only. */
  lemma MergingAfter(ceiling: int, j: Job, e: Event, k: Job)
    requires Fits(ceiling, j, e) && Lands(j, e, k) && k.state == Merging
    ensures j.state == Merging || (IsDispatch(e) && j.state == Mergeable)
  {
  }

  /** No event that leads to merging touches the verdict. */
  lemma MergingKeepsVerdict(ceiling: int, j: Job, e: Event)
    requires Fits(ceiling, j, e) && Step(j, e).state == Merging
    ensures Step(j, e).verdict == j.verdict
  {
    hide Step;
    EventLands(ceiling, j, e);
    VerdictColumn(j, e);
  }

  /** The event neither mints nor dispatches. */
  predicate Inert(e: Event) { !IsMint(e) && !IsDispatch(e) }

  lemma {:induction false} InertPath(ceiling: int, j: Job, es: seq<Event>)
    requires Path(ceiling, j, es) && forall i :: 0 <= i < |es| ==> Inert(es[i])
    ensures FoldFrom(j, es).verdict == None || FoldFrom(j, es).verdict == j.verdict
    ensures FoldFrom(j, es).state == Merging ==> j.state == Merging && FoldFrom(j, es).verdict == j.verdict
    decreases |es|
  {
    hide Fits, Step, Lands;
    if es != [] {
      VerdictAfter(j, es[0]);
      EventLands(ceiling, j, es[0]);
      if Step(j, es[0]).state == Merging {
        MergingKeepsVerdict(ceiling, j, es[0]);
        MergingAfter(ceiling, j, es[0], Step(j, es[0]));
      }
      InertPath(ceiling, Step(j, es[0]), es[1..]);
    }
  }

  lemma InertTransition(j: Job, t: Engine.Transition, ev: Engine.EngineEvent, head: string, at: int, n: int)
    requires t.kind != Engine.KindVerdictMinted && t.kind != Engine.KindMergeStarted
    ensures Inert(TransitionEvent(j, t, ev, head, at).(jobSeq := n))
  {
  }

  lemma OtherEventsAreInert(cfg: Config, s: Sys, step: StepKind, at: int)
    requires Allowed(cfg, s, step) && !Reviews(step) && !Dispatches(step)
    ensures forall i :: 0 <= i < |Emitted(cfg, s, step, at)| ==> Inert(Emitted(cfg, s, step, at)[i])
  {
    hide Emitted, Allowed;
    EmittedAppended(cfg, s, step, at);
  }

  // ---- what a mint and a dispatch saw ------------------------------------------------

  /** v is the sign-off a review claim mints when it is shown these facts, for this job. */
  predicate MintableFrom(H: Digest, j: Job, seen: Seen, v: Verdict) {
    && GatePredicate(seen.facts)
    && v == MintVerdict(H, APPROVED, v.disposition, seen.facts.headSHA, seen.facts.baseSHA)
    && (v.disposition == SELF_MERGE ==>
          && seen.policy.allowSelfMerge && MergeReady(seen.facts)
          && seen.content.Some? && seen.content.value.Eligible())
    && (j.headSHA == "" || j.headSHA == v.headSHA) && (j.baseSHA == "" || j.baseSHA == v.baseSHA)
  }

  /** p ends with an approved review claim that put v, minted from what it saw, on record. */
  predicate MintedAt(cfg: Config, p: Run, v: Verdict) {
    && p.After? && p.step.Call? && p.step.ev.ReviewClaim? && p.step.ev.value == APPROVED
    && JobOf(cfg, p.before).state == CodeReview
    && JobOf(cfg, p).verdict == Some(v) && JobOf(cfg, p.before).verdict != Some(v)
    && MintableFrom(cfg.H, JobOf(cfg, p.before), p.step.seen, v)
  }

  lemma VettedFacts(j: Job, facts: Facts)
    requires GatePredicate(Vetted(j, facts))
    ensures Vetted(j, facts) == facts
    ensures (j.headSHA == "" || j.headSHA == facts.headSHA) && (j.baseSHA == "" || j.baseSHA == facts.baseSHA)
  {
  }

  lemma GateMintsFrom(H: Digest, inp: GateInputs, v: Verdict)
    requires EvaluateGate(H, inp).verdict == Some(v)
    ensures inp.claim == APPROVED && GatePredicate(inp.facts)
    ensures v == MintVerdict(H, APPROVED, v.disposition, inp.facts.headSHA, inp.facts.baseSHA)
    ensures v.disposition == SELF_MERGE ==>
      && inp.policy.allowSelfMerge && MergeReady(inp.facts) && inp.content.Some? && inp.content.value.Eligible()
  {
  }

  /** A review claim's decision carries a verdict only if the gate minted it. */
  lemma ReviewMints(H: Digest, es: Engine.EngineState, ev: Engine.EngineEvent)
    requires ev.ReviewClaim?
    ensures var d := Engine.DecideReviewClaim(H, es, ev);
      && (d.verdictMint.Some? ==> es.job.state == CodeReview && d.verdictMint == EvaluateGate(H, Engine.GateInputsOf(es, ev)).verdict)
      && (d.transitions != [] && d.transitions[0].kind == Engine.KindVerdictMinted ==> d.transitions[0].verdict == d.verdictMint)
  {
    hide GatePredicate, SelfMergeEligible, MintVerdict;
  }

  lemma MintEvent(j: Job, t: Engine.Transition, ev: Engine.EngineEvent, head: string, at: int, n: int)
    requires ReviewMove(j, t)
    ensures var e := TransitionEvent(j, t, ev, head, at).(jobSeq := n);
      && !IsDispatch(e) && e.toState != Merging
      && (IsMint(e) ==> t.kind == Engine.KindVerdictMinted && e.body.gate.minted == t.verdict)
  {
  }

  /** A review claim changes the verdict only to what it minted, and does not merge. */
  lemma ReviewEventsMint(ceiling: int, j: Job, ts: seq<Engine.Transition>, ev: Engine.EngineEvent, head: string,
      at: int, minted: Option<Verdict>)
    requires ev.ReviewClaim? && (ts == [] || (|ts| == 1 && ReviewMove(j, ts[0])))
    requires ts != [] && ts[0].kind == Engine.KindVerdictMinted ==> ts[0].verdict == minted
    ensures var k := FoldFrom(j, EventsOf(j, ts, ev, head, at));
      && (k.verdict == None || k.verdict == j.verdict || k.verdict == minted)
      && (k.state == Merging ==> k == j)
  {
    hide Fits, Step, TransitionEvent, ReviewMove, IsMint, IsDispatch, FoldFrom, Lands;
    if ts == [] {
      FoldNone(j);
    } else {
      var claimed := ClaimRecord(j, VerdictClaim(ev.value), at);
      var outcome := TransitionEvent(j, ts[0], ev, head, at).(jobSeq := TransitionEvent(j, ts[0], ev, head, at).jobSeq + 1);
      MintEvent(j, ts[0], ev, head, at, outcome.jobSeq);
      ClaimMintsNothing(j, ev.value, at);
      VerdictAfter(j, claimed);
      VerdictAfter(Step(j, claimed), outcome);
      FoldTwo(j, claimed, outcome);
      ReviewEndsIn(ceiling, j, ts[0], ev, head, at, claimed, outcome);
    }
  }

  lemma ClaimMintsNothing(j: Job, value: string, at: int)
    ensures !IsMint(ClaimRecord(j, VerdictClaim(value), at))
  {
  }

  lemma ReviewEndsIn(ceiling: int, j: Job, t: Engine.Transition, ev: Engine.EngineEvent, head: string, at: int,
      claimed: Event, outcome: Event)
    requires ReviewMove(j, t) && claimed == ClaimRecord(j, VerdictClaim(if ev.ReviewClaim? then ev.value else ""), at)
    requires outcome == TransitionEvent(j, t, ev, head, at).(jobSeq := outcome.jobSeq)
    ensures Step(Step(j, claimed), outcome).state != Merging
  {
    hide Step, Fits, TransitionEvent;
    var first := TransitionEvent(j, t, ev, head, at);
    ClaimRecordFits(ceiling, j, if ev.ReviewClaim? then ev.value else "", at);
    EventLands(ceiling, j, claimed);
    ReviewMoveFits(ceiling, j, Step(j, claimed), t, ev, head, at);
    RenumberedFits(ceiling, Step(j, claimed), first, outcome.jobSeq);
    EventLands(ceiling, Step(j, claimed), outcome);
    MintEvent(j, t, ev, head, at, outcome.jobSeq);
  }

  /** What merge dispatch saw when it started the merge of v. */
  predicate DispatchableFrom(j: Job, seen: Seen, v: Verdict) {
    && j.state == Mergeable && j.verdict == Some(v) && v.disposition == SELF_MERGE
    && MergeReady(seen.facts) && seen.facts.headSHA == v.headSHA && seen.facts.baseSHA == v.baseSHA
    && seen.policy.allowSelfMerge && seen.content.Some? && seen.content.value.Eligible()
  }

  /** p ends with the dispatch that started the merge of v. */
  predicate DispatchedAt(cfg: Config, p: Run, v: Verdict) {
    && p.After? && p.step.Call? && p.step.ev.MergeDispatch?
    && DispatchableFrom(JobOf(cfg, p.before), p.step.seen, v)
  }

  /** Dispatch starts the merge exactly of an intact self_merge sign-off over the ready head, with
      policy on and content eligible; it hands off when only that is missing, and otherwise leaves
      the job where it is. */
  lemma DispatchSees(H: Digest, es: Engine.EngineState)
    ensures var ts := Engine.DecideMergeDispatch(H, es).transitions;
      && |ts| <= 1
      && (ts != [] ==> ts[0].kind == Engine.KindMergeStarted || ts[0].kind == Engine.KindMergeHandoff)
      && (ts != [] && ts[0].kind == Engine.KindMergeStarted <==>
            && es.job.verdict.Some? && Verify(H, es.job.verdict.value, es.gitHub.headSHA, es.gitHub.baseSHA)
            && DispatchableFrom(es.job, Seen(es.gitHub, es.policy, es.content), es.job.verdict.value))
      && (ts == [] <==>
            || es.job.state != Mergeable || es.job.verdict.None? || !MergeReady(es.gitHub)
            || !Verify(H, es.job.verdict.value, es.gitHub.headSHA, es.gitHub.baseSHA))
  {
  }

  lemma DispatchEvents(ceiling: int, j: Job, ts: seq<Engine.Transition>, ev: Engine.EngineEvent, head: string, at: int)
    requires ev.MergeDispatch? && |ts| <= 1 && Path(ceiling, j, EventsOf(j, ts, ev, head, at))
    requires ts != [] ==> ts[0].kind == Engine.KindMergeStarted || ts[0].kind == Engine.KindMergeHandoff
    ensures var k := FoldFrom(j, EventsOf(j, ts, ev, head, at));
      && (k.verdict == None || k.verdict == j.verdict)
      && (k.state == Merging ==> j.state == Merging || (ts != [] && ts[0].kind == Engine.KindMergeStarted))
      && (k.state == Merging ==> k.verdict == j.verdict)
  {
    hide Fits, Step, FoldFrom, Path, Lands, TransitionEvent, IsMint, IsDispatch, Inert;
    if ts == [] {
      FoldNone(j);
    } else {
      var e := TransitionEvent(j, ts[0], ev, head, at);
      FoldOne(j, e);
      VerdictAfter(j, e);
      assert !IsMint(e) by { DispatchMintsNothing(j, ts[0], ev, head, at); }
      PathHead(ceiling, j, e);
      if Step(j, e).state == Merging {
        MergingKeepsVerdict(ceiling, j, e);
      }
      if ts[0].kind == Engine.KindMergeHandoff {
        InertTransition(j, ts[0], ev, head, at, e.jobSeq);
        assert e.(jobSeq := e.jobSeq) == e;
        InertPath(ceiling, j, [e]);
      }
    }
  }

  lemma PathHead(ceiling: int, j: Job, e: Event)
    requires Path(ceiling, j, [e])
    ensures Fits(ceiling, j, e)
  {
  }

  lemma DispatchMintsNothing(j: Job, t: Engine.Transition, ev: Engine.EngineEvent, head: string, at: int)
    requires t.kind == Engine.KindMergeStarted || t.kind == Engine.KindMergeHandoff
    ensures !IsMint(TransitionEvent(j, t, ev, head, at))
  {
  }

  /** What one step does to the sign-off and the merge: only a review mints, only a dispatch
      starts a merge, and each only from what it is shown. */
  predicate MergeStep(cfg: Config, s: Sys, step: StepKind, k: Job) {
    && (k.verdict.Some? && k.verdict != s.job.verdict ==>
          && step.Call? && step.ev.ReviewClaim? && step.ev.value == APPROVED && s.job.state == CodeReview
          && MintableFrom(cfg.H, s.job, step.seen, k.verdict.value))
    && (k.state == Merging && s.job.state != Merging ==>
          && step.Call? && step.ev.MergeDispatch?
          && s.job.verdict.Some? && DispatchableFrom(s.job, step.seen, s.job.verdict.value))
    && (k.state == Merging ==> k.verdict == s.job.verdict)
  }

  lemma ReviewStepIsMergeStep(cfg: Config, s: Sys, seen: Seen, ev: Engine.EngineEvent, head: string, at: int)
    requires ev.ReviewClaim?
    ensures MergeStep(cfg, s, Call(seen, ev, head), FoldFrom(s.job, CallEvents(cfg, s, seen, ev, head, at)))
  {
    hide EvaluateGate, GatePredicate, Vetted, FoldFrom, EventsOf, MintVerdict, MergeReady;
    var state, d := EngineStateOf(cfg, s, seen, ev), DecisionOf(cfg, s, seen, ev);
    ReviewMoves(cfg.H, state, ev);
    ReviewMints(cfg.H, state, ev);
    ReviewEventsMint(cfg.ceiling, s.job, d.transitions, ev, head, at, d.verdictMint);
    if d.verdictMint.Some? {
      GateMintsFrom(cfg.H, Engine.GateInputsOf(state, ev), d.verdictMint.value);
      VettedFacts(s.job, seen.facts);
      MintBinds(cfg.H, seen.facts, d.verdictMint.value);
    }
  }

  lemma MintBinds(H: Digest, facts: Facts, v: Verdict)
    requires v == MintVerdict(H, APPROVED, v.disposition, facts.headSHA, facts.baseSHA)
    ensures v.headSHA == facts.headSHA && v.baseSHA == facts.baseSHA
  {
  }

  lemma DispatchStepIsMergeStep(cfg: Config, s: Sys, seen: Seen, ev: Engine.EngineEvent, head: string, at: int)
    requires ev.MergeDispatch?
    ensures MergeStep(cfg, s, Call(seen, ev, head), FoldFrom(s.job, CallEvents(cfg, s, seen, ev, head, at)))
  {
    hide FoldFrom, EventsOf, MintableFrom, Path, MergeReady, Vetted;
    DispatchSees(cfg.H, EngineStateOf(cfg, s, seen, ev));
    CallIsPath(cfg, s, seen, ev, head, at);
    DispatchEvents(cfg.ceiling, s.job, DecisionOf(cfg, s, seen, ev).transitions, ev, head, at);
  }

  lemma EveryStepIsMergeStep(cfg: Config, s: Sys, step: StepKind, at: int)
    requires Allowed(cfg, s, step)
    ensures MergeStep(cfg, s, step, Next(cfg, s, step, at).job)
  {
    if step.Call? && step.ev.ReviewClaim? {
      hide DecisionOf, CallEvents, MergeStep;
      ReviewStepIsMergeStep(cfg, s, step.seen, step.ev, step.head, at);
    } else if step.Call? && step.ev.MergeDispatch? {
      hide DecisionOf, CallEvents, MergeStep;
      DispatchStepIsMergeStep(cfg, s, step.seen, step.ev, step.head, at);
    } else {
      hide Allowed, Emitted, MintableFrom, DispatchableFrom, Inert;
      EmittedIsPath(cfg, s, step, at);
      OtherEventsAreInert(cfg, s, step, at);
      InertPath(cfg.ceiling, s.job, Emitted(cfg, s, step, at));
    }
  }

  // ---- over runs -----------------------------------------------------------------------

  predicate Minted(cfg: Config, r: Run, v: Verdict) {
    MintedAt(cfg, r, v) || (r.After? && Minted(cfg, r.before, v))
  }

  /** The job has been merging v, its verdict, ever since a dispatch that started the merge of v,
      and v had been minted before that dispatch. */
  predicate MergingSinceDispatch(cfg: Config, r: Run, v: Verdict) {
    && r.After? && JobOf(cfg, r).state == Merging && JobOf(cfg, r).verdict == Some(v)
    && if JobOf(cfg, r.before).state == Merging then MergingSinceDispatch(cfg, r.before, v)
       else DispatchedAt(cfg, r, v) && Minted(cfg, r.before, v)
  }

  /** The folded verdict of a job was minted by its own gate, from an approved claim on the
      artifact under review over facts that satisfied the gate. */
  lemma {:induction false} VerdictWasMinted(cfg: Config, r: Run)
    requires Legal(cfg, r) && JobOf(cfg, r).verdict.Some?
    ensures Minted(cfg, r, JobOf(cfg, r).verdict.value)
  {
    hide Allowed, MintableFrom, Next, DispatchableFrom;
    match r
    case Start(created) => NoVerdictAtBirth(cfg, created);
    case After(before, step, at) =>
      EveryStepIsMergeStep(cfg, SysOf(cfg, before), step, at);
      if JobOf(cfg, before).verdict == JobOf(cfg, r).verdict {
        VerdictWasMinted(cfg, before);
      }
  }

  lemma NoVerdictAtBirth(cfg: Config, created: Event)
    requires LegalStart(cfg, created)
    ensures Step(ZERO_JOB, created).verdict == None && Step(ZERO_JOB, created).state != Merging
  {
  }

  /** Merge safety: a job is merging only since a dispatch that saw the head and base of its
      verdict ready to merge, with policy on and content eligible, and only if its gate had minted
      that self_merge verdict before, from facts that satisfied the gate, again with policy on and
      content eligible. It is this merge's dispatch, whatever merges the job went through before. */
  lemma {:induction false} MergeSafety(cfg: Config, r: Run)
    requires Legal(cfg, r) && JobOf(cfg, r).state == Merging
    ensures JobOf(cfg, r).verdict.Some? && JobOf(cfg, r).verdict.value.disposition == SELF_MERGE
    ensures MergingSinceDispatch(cfg, r, JobOf(cfg, r).verdict.value)
  {
    hide Allowed, MintableFrom, Next, Minted, MintedAt;
    match r
    case Start(created) => NoVerdictAtBirth(cfg, created);
    case After(before, step, at) =>
      EveryStepIsMergeStep(cfg, SysOf(cfg, before), step, at);
      if JobOf(cfg, before).state == Merging {
        MergeSafety(cfg, before);
      } else {
        VerdictWasMinted(cfg, before);
      }
  }

  /** No step of the run asks for a merge dispatch. */
  predicate NoDispatchCall(r: Run) {
    r.After? ==> !(r.step.Call? && r.step.ev.MergeDispatch?) && NoDispatchCall(r.before)
  }

  lemma {:induction false} DispatchIsACall(cfg: Config, r: Run, v: Verdict)
    requires MergingSinceDispatch(cfg, r, v)
    ensures !NoDispatchCall(r)
  {
    hide DispatchableFrom, Minted;
    if JobOf(cfg, r.before).state == Merging {
      DispatchIsACall(cfg, r.before, v);
    }
  }

  /** No sequence of claims, results, reviews and other moves merges without the dispatcher. */
  lemma ClaimsAloneNeverMerge(cfg: Config, r: Run)
    requires Legal(cfg, r) && NoDispatchCall(r)
    ensures JobOf(cfg, r).state != Merging
  {
    if JobOf(cfg, r).state == Merging {
      MergeSafety(cfg, r);
      DispatchIsACall(cfg, r, JobOf(cfg, r).verdict.value);
    }
  }
}
