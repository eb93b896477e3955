/** Flow resolution (internal/flow/resolve.go and identity.go): who staffs each stage, under the
    precedence role < flow < epic < job, with anti-affinity across a reviewer fan-out. */
module Staffing {
  import opened Bytes

  datatype Result<T> = Success(value: T) | Failure(error: Error)

  datatype Error = NoIdentity | UnknownIdentity(id: string) | AntiAffinity(stage: string) | UnknownDecision(rule: string)

  datatype Identity = Identity(id: string, role: string, modelFamily: string, reviewLens: string)

  /** The identities by id. */
  type Registry = map<string, Identity>

  predicate KeyedById(reg: Registry) { forall k :: k in reg ==> reg[k].id == k }

  datatype Slot = Slot(identity: string, lens: string)

  datatype StageDoc = StageDoc(role: string, gate: bool, optional: bool, decision: string, identity: string, reviewers: seq<Slot>)

  datatype Options = Options(
    epicOverrides: map<string, string>, jobOverrides: map<string, string>,
    keepsAll: bool, includeOptional: map<string, bool>, requireDistinctFamily: bool)

  datatype Actor = Actor(stage: string, role: string, lens: string, identity: Identity)

  datatype ResolvedStage = ResolvedStage(
    name: string, role: string, gate: bool, decision: string, actors: seq<Actor>, skipped: bool, system: bool)

  const ALL_PASS := "all_pass"

  function Lookup(m: map<string, string>, key: string): string { if key in m then m[key] else "" }

  // ---- one identity -----------------------------------------------------------------------

  /** The first layer, most specific first, that names an identity. */
  function Winning(layers: seq<string>): string {
    if layers == [] then "" else if layers[0] != "" then layers[0] else Winning(layers[1..])
  }

  function Resolved(reg: Registry, layers: seq<string>): Result<Identity> {
    var id := Winning(layers);
    if id == "" then Failure(NoIdentity)
    else if id in reg then Success(reg[id])
    else Failure(UnknownIdentity(id))
  }

  /** The layers of a stage, most specific first. */
  function Layers(opt: Options, stage: string, flowLevel: string, roleDefault: string): seq<string> {
    [Lookup(opt.jobOverrides, stage), Lookup(opt.epicOverrides, stage), flowLevel, roleDefault]
  }

  /** Whom role < flow < epic < job puts on a stage or slot; "" if every layer is silent. */
  function Preferred(opt: Options, stage: string, flowLevel: string, roleDefault: string): string {
    if stage in opt.jobOverrides && opt.jobOverrides[stage] != "" then opt.jobOverrides[stage]
    else if stage in opt.epicOverrides && opt.epicOverrides[stage] != "" then opt.epicOverrides[stage]
    else if flowLevel != "" then flowLevel
    else roleDefault
  }

  /** role < flow < epic < job: each layer counts only where every more specific one is silent. */
  lemma Precedence(opt: Options, stage: string, flowLevel: string, roleDefault: string)
    ensures var id, job, epic := Winning(Layers(opt, stage, flowLevel, roleDefault)), Lookup(opt.jobOverrides, stage), Lookup(opt.epicOverrides, stage);
      && (job != "" ==> id == job)
      && (job == "" && epic != "" ==> id == epic)
      && (job == "" && epic == "" && flowLevel != "" ==> id == flowLevel)
      && (job == "" && epic == "" && flowLevel == "" ==> id == roleDefault)
      && id == Preferred(opt, stage, flowLevel, roleDefault)
  {
    var layers := Layers(opt, stage, flowLevel, roleDefault);
    var below: seq<string>, bottom: seq<string> := [flowLevel, roleDefault], [roleDefault];
    assert layers[1..] == [Lookup(opt.epicOverrides, stage)] + below && layers[1..][1..] == below;
    assert below[1..] == bottom && bottom[1..] == [];
    if Lookup(opt.jobOverrides, stage) == "" {
      assert Winning(layers) == Winning(layers[1..]);
      if Lookup(opt.epicOverrides, stage) == "" {
        assert Winning(layers) == Winning(below);
        assert flowLevel == "" ==> Winning(below) == Winning(bottom) == roleDefault;
      }
    }
  }

  /** The override a stage has above the flow document, if any. */
  function Override(opt: Options, stage: string): string {
    if Lookup(opt.jobOverrides, stage) != "" then Lookup(opt.jobOverrides, stage) else Lookup(opt.epicOverrides, stage)
  }

  method ResolveIdentity(reg: Registry, layers: seq<string>) returns (r: Result<Identity>)
    ensures r == Resolved(reg, layers)
  {
    for i := 0 to |layers|
      invariant Resolved(reg, layers[i..]) == Resolved(reg, layers)
    {
      assert layers[i..][0] == layers[i] && layers[i..][1..] == layers[i + 1..];
      if layers[i] == "" {
        continue;
      }
      if layers[i] !in reg {
        return Failure(UnknownIdentity(layers[i]));
      }
      return Success(reg[layers[i]]);
    }
    return Failure(NoIdentity);
  }

  // ---- anti-affinity ------------------------------------------------------------------------

  /** No two reviewers are the same identity, nor - when families must differ - of one family. */
  predicate PairwiseDistinct(actors: seq<Actor>, requireDistinctFamily: bool) {
    forall i, k :: 0 <= i < k < |actors| ==>
      && actors[i].identity.id != actors[k].identity.id
      && (requireDistinctFamily ==>
            actors[i].identity.modelFamily == "" || actors[i].identity.modelFamily != actors[k].identity.modelFamily)
  }

  method CheckAntiAffinity(actors: seq<Actor>, requireDistinctFamily: bool) returns (ok: bool)
    ensures ok <==> PairwiseDistinct(actors, requireDistinctFamily)
  {
    var seenID: set<string>, seenFamily: set<string> := {}, {};
    for n := 0 to |actors|
      invariant forall id :: id in seenID <==> exists i :: 0 <= i < n && actors[i].identity.id == id
      invariant forall f :: f in seenFamily <==>
        exists i :: 0 <= i < n && requireDistinctFamily && f != "" && actors[i].identity.modelFamily == f
      invariant PairwiseDistinct(actors[..n], requireDistinctFamily)
    {
      var a := actors[n].identity;
      assert actors[..n + 1][..n] == actors[..n];
      if a.id in seenID {
        return false;
      }
      seenID := seenID + {a.id};
      if requireDistinctFamily && a.modelFamily != "" {
        if a.modelFamily in seenFamily {
          return false;
        }
        seenFamily := seenFamily + {a.modelFamily};
      }
    }
    assert actors[..|actors|] == actors;
    return true;
  }

  // ---- one stage ----------------------------------------------------------------------------

  function SlotActors(reg: Registry, opt: Options, name: string, role: string, roleDefault: string,
      slots: seq<Slot>): Result<seq<Actor>>
    decreases |slots|
  {
    if slots == [] then Success([])
    else
      var n := |slots| - 1;
      var before := SlotActors(reg, opt, name, role, roleDefault, slots[..n]);
      var last := Resolved(reg, Layers(opt, name, slots[n].identity, roleDefault));
      if before.Failure? then before
      else if last.Failure? then Failure(last.error)
      else Success(before.value + [Actor(name, role, slots[n].lens, last.value)])
  }

  predicate Dropped(opt: Options, name: string, st: StageDoc) {
    st.optional && !opt.keepsAll && !(name in opt.includeOptional && opt.includeOptional[name])
  }

  function Decision(d: string): string { if d == "" then ALL_PASS else d }

  function StageOf(reg: Registry, roleDefaults: map<string, string>, opt: Options, name: string,
      st: StageDoc): Result<ResolvedStage> {
    var roleDefault := Lookup(roleDefaults, st.role);
    var bare := ResolvedStage(name, st.role, st.gate, Decision(st.decision), [], false, false);
    if Dropped(opt, name, st) then Success(bare.(decision := "", skipped := true))
    else if st.reviewers != [] then
      var actors := SlotActors(reg, opt, name, st.role, roleDefault, st.reviewers);
      if actors.Failure? then Failure(actors.error)
      else if PairwiseDistinct(actors.value, opt.requireDistinctFamily) then Success(bare.(actors := actors.value))
      else Failure(AntiAffinity(name))
    else
      var layers := Layers(opt, name, st.identity, roleDefault);
      var id := Resolved(reg, layers);
      if Winning(layers) == "" then Success(bare.(system := true))
      else if id.Failure? then Failure(id.error)
      else Success(bare.(actors := [Actor(name, st.role, id.value.reviewLens, id.value)]))
  }

  function StagesOf(reg: Registry, roleDefaults: map<string, string>, opt: Options, doc: map<string, StageDoc>,
      names: seq<string>):
      Result<seq<ResolvedStage>>
    requires forall n :: n in names ==> n in doc
    decreases |names|
  {
    if names == [] then Success([])
    else
      var n := |names| - 1;
      var before := StagesOf(reg, roleDefaults, opt, doc, names[..n]);
      var last := StageOf(reg, roleDefaults, opt, names[n], doc[names[n]]);
      if before.Failure? then before
      else if last.Failure? then Failure(last.error)
      else Success(before.value + [last.value])
  }

  // ---- the resolver -------------------------------------------------------------------------

  method ResolveStage(reg: Registry, roleDefaults: map<string, string>, opt: Options, name: string, st: StageDoc)
    returns (r: Result<ResolvedStage>)
    ensures r == StageOf(reg, roleDefaults, opt, name, st)
  {
    hide PairwiseDistinct, Resolved, Winning, Layers, Lookup, Dropped, Decision;
    var roleDefault := Lookup(roleDefaults, st.role);
    if Dropped(opt, name, st) {
      return Success(ResolvedStage(name, st.role, st.gate, "", [], true, false));
    }
    if st.reviewers != [] {
      var actors: seq<Actor> := [];
      for i := 0 to |st.reviewers|
        invariant SlotActors(reg, opt, name, st.role, roleDefault, st.reviewers[..i]) == Success(actors)
      {
        assert st.reviewers[..i + 1][..i] == st.reviewers[..i];
        var id := ResolveIdentity(reg, Layers(opt, name, st.reviewers[i].identity, roleDefault));
        if id.Failure? {
          SlotFailureSpreads(reg, opt, name, st.role, roleDefault, st.reviewers, i + 1);
          return Failure(id.error);
        }
        actors := actors + [Actor(name, st.role, st.reviewers[i].lens, id.value)];
      }
      assert st.reviewers[..|st.reviewers|] == st.reviewers;
      var ok := CheckAntiAffinity(actors, opt.requireDistinctFamily);
      if !ok {
        return Failure(AntiAffinity(name));
      }
      return Success(ResolvedStage(name, st.role, st.gate, Decision(st.decision), actors, false, false));
    }
    var layers := Layers(opt, name, st.identity, roleDefault);
    if Winning(layers) == "" {
      return Success(ResolvedStage(name, st.role, st.gate, Decision(st.decision), [], false, true));
    }
    var id := ResolveIdentity(reg, layers);
    if id.Failure? {
      return Failure(id.error);
    }
    var actor := Actor(name, st.role, id.value.reviewLens, id.value);
    return Success(ResolvedStage(name, st.role, st.gate, Decision(st.decision), [actor], false, false));
  }

  lemma {:induction false} SlotFailureSpreads(reg: Registry, opt: Options, name: string, role: string,
      roleDefault: string, slots: seq<Slot>, i: nat)
    requires i <= |slots| && SlotActors(reg, opt, name, role, roleDefault, slots[..i]).Failure?
    ensures SlotActors(reg, opt, name, role, roleDefault, slots) == SlotActors(reg, opt, name, role, roleDefault, slots[..i])
    decreases |slots|
  {
    hide Resolved, Layers;
    if i == |slots| {
      assert slots[..i] == slots;
    } else {
      var n := |slots| - 1;
      assert slots[..n][..i] == slots[..i];
      SlotFailureSpreads(reg, opt, name, role, roleDefault, slots[..n], i);
    }
  }

  lemma {:induction false} StageFailureSpreads(reg: Registry, roleDefaults: map<string, string>, opt: Options,
      doc: map<string, StageDoc>, names: seq<string>, i: nat)
    requires (forall n :: n in names ==> n in doc) && i <= |names|
    requires StagesOf(reg, roleDefaults, opt, doc, names[..i]).Failure?
    ensures StagesOf(reg, roleDefaults, opt, doc, names) == StagesOf(reg, roleDefaults, opt, doc, names[..i])
    decreases |names|
  {
    hide StageOf;
    if i == |names| {
      assert names[..i] == names;
    } else {
      var n := |names| - 1;
      assert names[..n][..i] == names[..i];
      StageFailureSpreads(reg, roleDefaults, opt, doc, names[..n], i);
    }
  }

  method SortedNames(doc: map<string, StageDoc>) returns (names: seq<string>)
    ensures StrictlySorted(names) && Elements(names) == doc.Keys
  {
    var rest, unsorted := doc.Keys, [];
    while rest != {}
      invariant rest <= doc.Keys && Elements(unsorted) == doc.Keys - rest
      decreases |rest|
    {
      var k :| k in rest;
      rest := rest - {k};
      assert Elements(unsorted + [k]) == Elements(unsorted) + {k} by {
        assert forall x :: x in unsorted + [k] <==> x in unsorted || x == k;
      }
      unsorted := unsorted + [k];
    }
    names := Sort(unsorted);
  }

  method ResolveStages(reg: Registry, roleDefaults: map<string, string>, opt: Options, doc: map<string, StageDoc>,
      names: seq<string>)
    returns (r: Result<seq<ResolvedStage>>)
    requires forall n :: n in names ==> n in doc
    ensures r == StagesOf(reg, roleDefaults, opt, doc, names)
  {
    hide StageOf;
    var out: seq<ResolvedStage> := [];
    for i := 0 to |names|
      invariant StagesOf(reg, roleDefaults, opt, doc, names[..i]) == Success(out)
    {
      assert names[..i + 1][..i] == names[..i];
      var st := ResolveStage(reg, roleDefaults, opt, names[i], doc[names[i]]);
      if st.Failure? {
        StageFailureSpreads(reg, roleDefaults, opt, doc, names, i + 1);
        return Failure(st.error);
      }
      out := out + [st.value];
    }
    assert names[..|names|] == names;
    return Success(out);
  }

  // ---- who staffs what ------------------------------------------------------------------------

  /** The id names an identity of the registry. */
  predicate Names(reg: Registry, id: string) { id != "" && id in reg }

  function Misnaming(id: string): Error { if id == "" then NoIdentity else UnknownIdentity(id) }

  lemma ResolvedIsPreferred(reg: Registry, opt: Options, stage: string, flowLevel: string, roleDefault: string)
    ensures var id := Preferred(opt, stage, flowLevel, roleDefault);
      && Winning(Layers(opt, stage, flowLevel, roleDefault)) == id
      && Resolved(reg, Layers(opt, stage, flowLevel, roleDefault))
         == if Names(reg, id) then Success(reg[id]) else Failure(Misnaming(id))
  {
    hide Layers, Winning, Preferred;
    Precedence(opt, stage, flowLevel, roleDefault);
  }

  predicate SlotNamed(reg: Registry, opt: Options, name: string, roleDefault: string, slot: Slot) {
    Names(reg, Preferred(opt, name, slot.identity, roleDefault))
  }

  function SlotActor(reg: Registry, opt: Options, name: string, role: string, roleDefault: string, slot: Slot): Actor
    requires SlotNamed(reg, opt, name, roleDefault, slot)
  {
    Actor(name, role, slot.lens, reg[Preferred(opt, name, slot.identity, roleDefault)])
  }

  /** The slots resolve exactly if each one's preferred id names an identity, and then to these, in
      order. */
  lemma {:induction false} SlotsFollowPrecedence(reg: Registry, opt: Options, name: string, role: string,
      roleDefault: string, slots: seq<Slot>)
    ensures var r := SlotActors(reg, opt, name, role, roleDefault, slots);
      && (r.Success? <==> forall i :: 0 <= i < |slots| ==> SlotNamed(reg, opt, name, roleDefault, slots[i]))
      && (r.Success? ==>
            && |r.value| == |slots|
            && forall i :: 0 <= i < |slots| ==> r.value[i] == SlotActor(reg, opt, name, role, roleDefault, slots[i]))
    decreases |slots|
  {
    hide Resolved, Layers, Preferred;
    if slots != [] {
      var n := |slots| - 1;
      SlotsFollowPrecedence(reg, opt, name, role, roleDefault, slots[..n]);
      ResolvedIsPreferred(reg, opt, name, slots[n].identity, roleDefault);
    }
  }

  /** Otherwise the first slot that names nobody decides the error. */
  lemma {:induction false} FirstMisnamedSlotFails(reg: Registry, opt: Options, name: string, role: string,
      roleDefault: string, slots: seq<Slot>, i: nat)
    requires i < |slots| && !SlotNamed(reg, opt, name, roleDefault, slots[i])
    requires forall k :: 0 <= k < i ==> SlotNamed(reg, opt, name, roleDefault, slots[k])
    ensures SlotActors(reg, opt, name, role, roleDefault, slots)
      == Failure(Misnaming(Preferred(opt, name, slots[i].identity, roleDefault)))
    decreases |slots|
  {
    hide Resolved, Layers, Preferred;
    var n := |slots| - 1;
    if i < n {
      FirstMisnamedSlotFails(reg, opt, name, role, roleDefault, slots[..n], i);
    } else {
      SlotsFollowPrecedence(reg, opt, name, role, roleDefault, slots[..n]);
      ResolvedIsPreferred(reg, opt, name, slots[n].identity, roleDefault);
    }
  }

  /** The stage cannot be staffed: its one actor is not in the registry, or a slot's is not, or two
      slots go to the same identity (or family, when families must differ). */
  predicate Unstaffable(reg: Registry, roleDefaults: map<string, string>, opt: Options, name: string, st: StageDoc) {
    var default := if st.role in roleDefaults then roleDefaults[st.role] else "";
    && (st.optional && !opt.keepsAll ==> name in opt.includeOptional && opt.includeOptional[name])
    && if st.reviewers == [] then
         var id := Preferred(opt, name, st.identity, default);
         id != "" && id !in reg
       else
         || (exists i :: 0 <= i < |st.reviewers| && !SlotNamed(reg, opt, name, default, st.reviewers[i]))
         || (exists i, k :: 0 <= i < k < |st.reviewers| && SameReviewer(reg, opt, name, default, st.reviewers[i], st.reviewers[k]))
  }

  predicate SameReviewer(reg: Registry, opt: Options, name: string, roleDefault: string, s: Slot, t: Slot) {
    && SlotNamed(reg, opt, name, roleDefault, s) && SlotNamed(reg, opt, name, roleDefault, t)
    && var a, b := reg[Preferred(opt, name, s.identity, roleDefault)], reg[Preferred(opt, name, t.identity, roleDefault)];
       a.id == b.id || (opt.requireDistinctFamily && a.modelFamily != "" && a.modelFamily == b.modelFamily)
  }

  /** Who staffs a stage: nobody if it is dropped; otherwise one actor per reviewer slot or, without
      slots, the stage's one actor - each the preferred one of its layers; and the system exactly
      when there are no slots and every layer is silent. */
  predicate StaffedBy(reg: Registry, roleDefaults: map<string, string>, opt: Options, name: string, st: StageDoc,
      rs: ResolvedStage) {
    var default := if st.role in roleDefaults then roleDefaults[st.role] else "";
    && rs.name == name && rs.role == st.role && rs.gate == st.gate
    && rs.skipped == (st.optional && !opt.keepsAll && (name !in opt.includeOptional || !opt.includeOptional[name]))
    && rs.decision == (if rs.skipped then "" else if st.decision == "" then ALL_PASS else st.decision)
    && (rs.system <==> !rs.skipped && st.reviewers == [] && Preferred(opt, name, st.identity, default) == "")
    && (rs.skipped || rs.system ==> rs.actors == [])
    && (!rs.skipped && !rs.system && st.reviewers == [] ==>
          var id := Preferred(opt, name, st.identity, default);
          id in reg && rs.actors == [Actor(name, st.role, reg[id].reviewLens, reg[id])])
    && (!rs.skipped && st.reviewers != [] ==>
          && |rs.actors| == |st.reviewers|
          && forall i :: 0 <= i < |st.reviewers| ==>
               && SlotNamed(reg, opt, name, default, st.reviewers[i])
               && rs.actors[i] == SlotActor(reg, opt, name, st.role, default, st.reviewers[i]))
  }

  lemma StageFollowsPrecedence(reg: Registry, roleDefaults: map<string, string>, opt: Options, name: string,
      st: StageDoc)
    ensures var r := StageOf(reg, roleDefaults, opt, name, st);
      && (r.Failure? <==> Unstaffable(reg, roleDefaults, opt, name, st))
      && (r.Success? ==> StaffedBy(reg, roleDefaults, opt, name, st, r.value))
  {
    hide Resolved, Winning, Layers, SlotActors, Preferred;
    var default := Lookup(roleDefaults, st.role);
    ResolvedIsPreferred(reg, opt, name, st.identity, default);
    SlotsFollowPrecedence(reg, opt, name, st.role, default, st.reviewers);
  }

  /** A flow resolves exactly if every stage of it can be staffed, and then every stage is staffed by
      whom its own layers prefer. */
  lemma {:induction false} ResolutionFollowsPrecedence(reg: Registry, roleDefaults: map<string, string>, opt: Options,
      doc: map<string, StageDoc>, names: seq<string>)
    requires forall n :: n in names ==> n in doc
    ensures var r := StagesOf(reg, roleDefaults, opt, doc, names);
      && (r.Failure? <==> exists n :: n in names && Unstaffable(reg, roleDefaults, opt, n, doc[n]))
      && (r.Success? ==>
            && |r.value| == |names|
            && forall i :: 0 <= i < |names| ==> StaffedBy(reg, roleDefaults, opt, names[i], doc[names[i]], r.value[i]))
    decreases |names|
  {
    hide StageOf, Unstaffable, StaffedBy;
    if names != [] {
      var n := |names| - 1;
      ResolutionFollowsPrecedence(reg, roleDefaults, opt, doc, names[..n]);
      StageFollowsPrecedence(reg, roleDefaults, opt, names[n], doc[names[n]]);
      assert names == names[..n] + [names[n]];
    }
  }

  /** Resolves every stage of a flow document, in ascending order of stage names: each is staffed by
      whom its layers prefer, or the first that cannot be staffed fails the flow. */
  method Resolve(reg: Registry, roleDefaults: map<string, string>, opt: Options, doc: map<string, StageDoc>)
    returns (names: seq<string>, r: Result<seq<ResolvedStage>>)
    ensures StrictlySorted(names) && Elements(names) == doc.Keys && forall n :: n in names <==> n in doc
    ensures r == StagesOf(reg, roleDefaults, opt, doc, names)
    ensures r.Failure? <==> exists n :: n in doc && Unstaffable(reg, roleDefaults, opt, n, doc[n])
    ensures r.Success? ==>
      && |r.value| == |names|
      && forall i :: 0 <= i < |names| ==> StaffedBy(reg, roleDefaults, opt, names[i], doc[names[i]], r.value[i])
  {
    hide StagesOf, StrictlySorted, Unstaffable, StaffedBy;
    names := SortedNames(doc);
    assert forall n :: n in names <==> n in Elements(names);
    r := ResolveStages(reg, roleDefaults, opt, doc, names);
    ResolutionFollowsPrecedence(reg, roleDefaults, opt, doc, names);
  }

  // ---- what a resolution guarantees -----------------------------------------------------------

  /** A staffed stage has an actor, and a fan-out's reviewers are different identities. */
  predicate WellStaffed(opt: Options, st: StageDoc, rs: ResolvedStage) {
    && (!rs.skipped && !rs.system ==> rs.actors != [])
    && PairwiseDistinct(rs.actors, opt.requireDistinctFamily)
    && (st.reviewers != [] && !rs.skipped ==> !rs.system && |rs.actors| == |st.reviewers|)
    && (forall a :: a in rs.actors ==> a.stage == rs.name && a.role == st.role)
    && (st.reviewers != [] && !rs.skipped ==> forall i :: 0 <= i < |rs.actors| ==> rs.actors[i].lens == st.reviewers[i].lens)
  }

  lemma StageIsWellStaffed(reg: Registry, roleDefaults: map<string, string>, opt: Options, name: string, st: StageDoc)
    ensures var r := StageOf(reg, roleDefaults, opt, name, st);
      r.Success? ==> r.value.name == name && WellStaffed(opt, st, r.value) && (r.value.skipped <==> Dropped(opt, name, st))
  {
    hide Resolved, Winning, Layers, SlotActors, Preferred;
    StageFollowsPrecedence(reg, roleDefaults, opt, name, st);
  }

  /** One resolved stage per document stage, in the order of the names, each well staffed. */
  lemma {:induction false} ResolutionIsSound(reg: Registry, roleDefaults: map<string, string>, opt: Options,
      doc: map<string, StageDoc>, names: seq<string>)
    requires forall n :: n in names ==> n in doc
    ensures var r := StagesOf(reg, roleDefaults, opt, doc, names);
      r.Success? ==>
        && |r.value| == |names|
        && forall i :: 0 <= i < |names| ==> r.value[i].name == names[i] && WellStaffed(opt, doc[names[i]], r.value[i])
    decreases |names|
  {
    hide StageOf, WellStaffed;
    if names != [] {
      var n := |names| - 1;
      ResolutionIsSound(reg, roleDefaults, opt, doc, names[..n]);
      StageIsWellStaffed(reg, roleDefaults, opt, names[n], doc[names[n]]);
    }
  }

  /** A kept fan-out of two or more reviewers resolves only if no epic or job override names its
      stage. */
  lemma OverriddenFanOutFails(reg: Registry, roleDefaults: map<string, string>, opt: Options, name: string,
      st: StageDoc)
    requires |st.reviewers| >= 2 && !Dropped(opt, name, st)
    requires Override(opt, name) != ""
    ensures StageOf(reg, roleDefaults, opt, name, st).Failure?
  {
    hide StageOf;
    StageFollowsPrecedence(reg, roleDefaults, opt, name, st);
    var default := Lookup(roleDefaults, st.role);
    assert SlotNamed(reg, opt, name, default, st.reviewers[0]) ==>
      SameReviewer(reg, opt, name, default, st.reviewers[0], st.reviewers[1]);
  }

  /** So one such stage makes the whole resolution fail. */
  lemma {:induction false} OverriddenFanOutFailsTheFlow(reg: Registry, roleDefaults: map<string, string>,
      opt: Options, doc: map<string, StageDoc>, names: seq<string>, name: string)
    requires (forall n :: n in names ==> n in doc) && name in names
    requires |doc[name].reviewers| >= 2 && !Dropped(opt, name, doc[name])
    requires Override(opt, name) != ""
    ensures StagesOf(reg, roleDefaults, opt, doc, names).Failure?
    decreases |names|
  {
    hide StageOf;
    var n := |names| - 1;
    if names[n] == name {
      OverriddenFanOutFails(reg, roleDefaults, opt, name, doc[name]);
    } else {
      assert name in names[..n];
      OverriddenFanOutFailsTheFlow(reg, roleDefaults, opt, doc, names[..n], name);
    }
  }

  // ---- a fan-out's verdict ------------------------------------------------------------------------

  const MAJORITY := "majority"
  const ANY_VETO := "any_veto"

  /** Every reviewer either passed or failed. */
  lemma {:induction false} PassesAndFails(passes: seq<bool>)
    ensures multiset(passes)[true] + multiset(passes)[false] == |passes|
  {
    if passes == [] {
      assert multiset(passes) == multiset{};
    } else {
      PassesAndFails(passes[1..]);
      assert passes == [passes[0]] + passes[1..];
      assert multiset(passes) == multiset(passes[1..]) + (if passes[0] then multiset{true} else multiset{false});
    }
  }

  /** An unknown rule is reported as such. Unanimity and veto agree; a majority is strict, so nobody at all is
      unanimous but no majority. */
  method AggregateVerdicts(decision: string, passes: seq<bool>) returns (r: Result<bool>)
    ensures r.Success? <==> decision in ["", ALL_PASS, ANY_VETO, MAJORITY]
    ensures r.Failure? ==> r.error == UnknownDecision(decision)
    ensures r.Success? && decision != MAJORITY ==> r.value == (false !in passes)
    ensures r.Success? && decision == MAJORITY ==> r.value == (multiset(passes)[true] > multiset(passes)[false])
  {
    var pass := 0;
    for i := 0 to |passes|
      invariant pass == multiset(passes[..i])[true]
    {
      assert passes[..i + 1] == passes[..i] + [passes[i]];
      if passes[i] {
        pass := pass + 1;
      }
    }
    assert passes[..|passes|] == passes;
    PassesAndFails(passes);
    assert false in passes <==> false in multiset(passes);
    var rule := Decision(decision);
    if rule == ALL_PASS || rule == ANY_VETO {
      RulesDiffer(rule);
      return Success(pass == |passes|);
    }
    if rule == MAJORITY {
      return Success(2 * pass > |passes|);
    }
    return Failure(UnknownDecision(decision));
  }

  lemma RulesDiffer(rule: string)
    requires rule == ALL_PASS || rule == ANY_VETO
    ensures rule != MAJORITY
  {
    assert MAJORITY[0] == 'm' && ALL_PASS[0] == 'a' && ANY_VETO[0] == 'a';
  }

  // ---- role defaults ----------------------------------------------------------------------------

  /** id is the one identity of the role. */
  predicate Sole(reg: Registry, role: string, id: string) {
    role != "" && id in reg && reg[id].role == role && forall k :: k in reg && reg[k].role == role ==> k == id
  }

  /** Maps each role that exactly one identity has to that identity. */
  method RoleDefaults(reg: Registry) returns (defaults: map<string, string>)
    requires KeyedById(reg)
    ensures forall role, id :: role in defaults && defaults[role] == id <==> Sole(reg, role, id)
  {
    var rest := reg.Keys;
    var first: map<string, string>, several: set<string> := map[], {};
    while rest != {}
      invariant rest <= reg.Keys
      invariant forall role :: role in first <==> role != "" && exists k :: k in reg && k !in rest && reg[k].role == role
      invariant forall role :: role in first ==>
        first[role] in reg && first[role] !in rest && reg[first[role]].role == role
      invariant forall role :: role in several <==>
        role in first && exists k :: k in reg && k !in rest && reg[k].role == role && k != first[role]
      decreases |rest|
    {
      var k :| k in rest;
      rest := rest - {k};
      var role := reg[k].role;
      if role != "" {
        if role in first {
          several := several + {role};
        } else {
          first := first[role := reg[k].id];
        }
      }
    }
    defaults := map role | role in first && role !in several :: first[role];
  }
}
