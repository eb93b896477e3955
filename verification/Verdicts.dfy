/** The gates of internal/job/verdict.go. The digest (SHA-256 in the source) is the
    parameter H, so every statement here holds whatever the digest computes. */
module Verdicts {
  import opened Jobs
  import opened Encoding
  import ContentResults

  type Digest = string -> string

  const APPROVED := "approved"
  const CHANGES_REQUESTED := "changes_requested"
  const SIGNED_OFF := "signed_off"
  const AMENDED := "amended"
  const NEEDS_DESIGN := "needs_design"

  const SELF_MERGE := "self_merge"
  const HANDOFF := "handoff"

  const RECONCILED := "reconciled"
  const MINTED := "minted"

  // ---- minting and verifying ---------------------------------------------------

  const VERDICT_HEADER := "flowbee-verdict-v1\n"
  const SIGNOFF_HEADER := "flowbee-spec-signoff-v1\n"
  const VERSION_TAG := "version:"

  function VerdictFields(v: Verdict): seq<string> {
    [v.value, v.disposition, v.headSHA, v.baseSHA, v.provenance]
  }

  function VerdictPreimage(v: Verdict): string {
    VERDICT_HEADER + Frames(VerdictFields(v))
  }

  function VerdictHash(H: Digest, v: Verdict): string {
    "sha256:" + H(VerdictPreimage(v))
  }

  function MintVerdict(H: Digest, value: string, disposition: string, headSHA: string, baseSHA: string): Verdict {
    var v := Verdict(value, disposition, headSHA, baseSHA, RECONCILED, true, "");
    v.(integrityHash := VerdictHash(H, v))
  }

  predicate Verify(H: Digest, v: Verdict, headSHA: string, baseSHA: string) {
    && v.tamperEvident
    && v.provenance == RECONCILED
    && v.integrityHash == VerdictHash(H, v)
    && v.headSHA == headSHA && v.baseSHA == baseSHA
  }

  /** A record verifies for exactly the pair it was minted for, and only if it was minted. */
  lemma VerifyIffMinted(H: Digest, v: Verdict, headSHA: string, baseSHA: string)
    ensures Verify(H, v, headSHA, baseSHA) <==> v == MintVerdict(H, v.value, v.disposition, headSHA, baseSHA)
  {
  }

  /** The hashed text determines every bound field, whatever bytes the fields hold. */
  lemma VerdictPreimageInjective(v: Verdict, w: Verdict)
    requires VerdictPreimage(v) == VerdictPreimage(w)
    ensures v.value == w.value && v.disposition == w.disposition
    ensures v.headSHA == w.headSHA && v.baseSHA == w.baseSHA && v.provenance == w.provenance
  {
    var fs, gs := VerdictFields(v), VerdictFields(w);
    DropPrefix(VERDICT_HEADER, Frames(fs), Frames(gs));
    FramesInjective(fs, gs);
    assert fs[0] == gs[0] && fs[1] == gs[1] && fs[2] == gs[2] && fs[3] == gs[3] && fs[4] == gs[4];
  }

  /** The digest maps these two different texts alike. */
  predicate CollidesOn(H: Digest, x: string, y: string) { x != y && H(x) == H(y) }

  lemma SameHash(H: Digest, x: string, y: string)
    requires "sha256:" + H(x) == "sha256:" + H(y) && !CollidesOn(H, x, y)
    ensures x == y
  {
    DropPrefix("sha256:", H(x), H(y));
  }

  /** The hash seals the record: two records that verify, wherever and for whatever pair, and carry
      the same hash are the same record, unless the digest collides on their two texts. So a record
      that verifies does not once anything in it - its value, its disposition, a SHA - is changed
      and the hash kept. */
  lemma VerdictIsSealed(H: Digest, v: Verdict, headSHA: string, baseSHA: string, w: Verdict, headSHA': string, baseSHA': string)
    requires Verify(H, v, headSHA, baseSHA) && w.integrityHash == v.integrityHash
    requires !CollidesOn(H, VerdictPreimage(v), VerdictPreimage(w))
    ensures Verify(H, w, headSHA', baseSHA') <==> w == v && headSHA' == headSHA && baseSHA' == baseSHA
  {
    if Verify(H, w, headSHA', baseSHA') {
      SameHash(H, VerdictPreimage(v), VerdictPreimage(w));
      VerdictPreimageInjective(v, w);
    }
  }

  function SignoffPreimage(s: SpecSignoff): string {
    SIGNOFF_HEADER + Frame(s.value) + Frame(s.specHash)
    + VERSION_TAG + SignedDecimal(s.specVersion) + "\n"
    + Frame(s.reviewerLens) + Frame(s.provenance)
  }

  function SignoffHash(H: Digest, s: SpecSignoff): string {
    "sha256:" + H(SignoffPreimage(s))
  }

  function MintSpecSignoff(H: Digest, specHash: string, version: int, lens: string): SpecSignoff {
    var s := SpecSignoff(SIGNED_OFF, specHash, version, lens, MINTED, true, "");
    s.(integrityHash := SignoffHash(H, s))
  }

  predicate VerifySignoff(H: Digest, s: SpecSignoff, currentSpecHash: string) {
    && s.tamperEvident
    && s.provenance == MINTED
    && s.integrityHash == SignoffHash(H, s)
    && s.specHash == currentSpecHash
  }

  /** The version line and what follows it. */
  function SignoffTail(s: SpecSignoff): string {
    SignedDecimal(s.specVersion) + ['\n'] + Frames([s.reviewerLens, s.provenance])
  }

  lemma SignoffPreimageSplits(s: SpecSignoff)
    ensures SignoffPreimage(s) == SIGNOFF_HEADER + (Frame(s.value) + (Frame(s.specHash) + (VERSION_TAG + SignoffTail(s))))
  {
    FramesOfTwo(s.reviewerLens, s.provenance);
    Regroup(SIGNOFF_HEADER, Frame(s.value), Frame(s.specHash), VERSION_TAG, SignedDecimal(s.specVersion), "\n",
            Frame(s.reviewerLens), Frame(s.provenance));
  }

  lemma Regroup(a: string, b: string, c: string, d: string, e: string, f: string, g: string, h: string)
    ensures a + b + c + d + e + f + g + h == a + (b + (c + (d + (e + f + (g + h)))))
  {
  }

  /** The hashed text of a spec sign-off determines every bound field. */
  lemma SignoffPreimageInjective(s: SpecSignoff, t: SpecSignoff)
    requires SignoffPreimage(s) == SignoffPreimage(t)
    ensures s.value == t.value && s.specHash == t.specHash && s.specVersion == t.specVersion
    ensures s.reviewerLens == t.reviewerLens && s.provenance == t.provenance
  {
    SignoffPreimageSplits(s);
    SignoffPreimageSplits(t);
    var sTail, tTail := VERSION_TAG + SignoffTail(s), VERSION_TAG + SignoffTail(t);
    var sRest, tRest := Frame(s.specHash) + sTail, Frame(t.specHash) + tTail;
    DropPrefix(SIGNOFF_HEADER, Frame(s.value) + sRest, Frame(t.value) + tRest);
    FrameSplits(s.value, sRest, t.value, tRest);
    FrameSplits(s.specHash, sTail, t.specHash, tTail);
    DropPrefix(VERSION_TAG, SignoffTail(s), SignoffTail(t));
    SplitAtSeparator(SignedDecimal(s.specVersion), Frames([s.reviewerLens, s.provenance]),
                     SignedDecimal(t.specVersion), Frames([t.reviewerLens, t.provenance]), '\n');
    SignedDecimalInjective(s.specVersion, t.specVersion);
    FramesInjective([s.reviewerLens, s.provenance], [t.reviewerLens, t.provenance]);
    assert [s.reviewerLens, s.provenance][0] == [t.reviewerLens, t.provenance][0];
    assert [s.reviewerLens, s.provenance][1] == [t.reviewerLens, t.provenance][1];
  }

  /** The same of the spec gate's record. */
  lemma SignoffIsSealed(H: Digest, s: SpecSignoff, specHash: string, t: SpecSignoff, specHash': string)
    requires VerifySignoff(H, s, specHash) && t.integrityHash == s.integrityHash
    requires !CollidesOn(H, SignoffPreimage(s), SignoffPreimage(t))
    ensures VerifySignoff(H, t, specHash') <==> t == s && specHash' == specHash
  {
    hide SignoffPreimage;
    if VerifySignoff(H, t, specHash') {
      SameHash(H, SignoffPreimage(s), SignoffPreimage(t));
      SignoffPreimageInjective(s, t);
    }
  }

  // ---- the code-review gate ----------------------------------------------------

  datatype Policy = Policy(allowSelfMerge: bool, requiredReviewers: int) {
    function RequiredReviewersOrDefault(): int {
      if requiredReviewers < 1 then 1 else requiredReviewers
    }
  }

  /** The reconciled GitHub facts. */
  datatype Facts = Facts(
    prExists: bool, prNumber: int, headSHA: string, baseSHA: string,
    ciGreen: bool, merged: bool, mergeableState: string)

  predicate GatePredicate(f: Facts) {
    f.prExists && f.ciGreen && !f.merged && f.headSHA != "" && f.baseSHA != ""
  }

  /** Simple case folding onto a lower-case letter of "unknown" (k also folds from the Kelvin sign). */
  predicate FoldsTo(c: char, lower: char)
    requires 'a' <= lower <= 'z'
  {
    c == lower || c == lower - 'a' + 'A' || (lower == 'k' && c == '\U{212A}')
  }

  predicate IsUnknown(s: string) {
    |s| == 7 && FoldsTo(s[0], 'u') && FoldsTo(s[1], 'n') && FoldsTo(s[2], 'k') && FoldsTo(s[3], 'n')
    && FoldsTo(s[4], 'o') && FoldsTo(s[5], 'w') && FoldsTo(s[6], 'n')
  }

  predicate MergeReady(f: Facts) {
    GatePredicate(f) && !IsUnknown(f.mergeableState)
  }

  predicate SelfMergeEligible(H: Digest, v: Verdict, f: Facts, chk: Option<ContentResults.Result>, p: Policy) {
    && p.allowSelfMerge
    && chk.Some? && chk.value.Eligible()
    && MergeReady(f)
    && Verify(H, v, f.headSHA, f.baseSHA)
  }

  datatype Trigger =
    | TriggerApproved | TriggerBounce | TriggerBounceExhausted
    | TriggerSpecSignedOff | TriggerSpecAmended | TriggerSpecNeedsDesign | TriggerSpecSuperseded

  datatype GateInputs = GateInputs(
    claim: string, disp: string, facts: Facts, bounces: int, maxBounce: int,
    reviewerRejections: int, policy: Policy, content: Option<ContentResults.Result>)

  datatype GateOutcome = GateOutcome(trigger: Trigger, verdict: Option<Verdict>)

  const MAX_REVIEWER_REJECTIONS := 6

  function EvaluateGate(H: Digest, inp: GateInputs): (out: GateOutcome)
    ensures (out.trigger == TriggerApproved || out.trigger == TriggerBounce || out.trigger == TriggerBounceExhausted)
    ensures out.verdict.Some? <==> out.trigger == TriggerApproved
    ensures out.trigger == TriggerApproved ==> inp.claim == APPROVED && GatePredicate(inp.facts)
    ensures out.trigger == TriggerBounce ==> inp.bounces + 1 < inp.maxBounce
  {
    var exhausted := inp.bounces + 1 >= inp.maxBounce;
    var bounce := GateOutcome(if exhausted then TriggerBounceExhausted else TriggerBounce, None);
    if inp.claim == CHANGES_REQUESTED then
      if inp.reviewerRejections + 1 >= MAX_REVIEWER_REJECTIONS then GateOutcome(TriggerBounceExhausted, None)
      else bounce
    else if inp.claim == APPROVED then
      if !GatePredicate(inp.facts) then bounce
      else
        var provisional := MintVerdict(H, APPROVED, SELF_MERGE, inp.facts.headSHA, inp.facts.baseSHA);
        var disp :=
          if inp.disp == SELF_MERGE && SelfMergeEligible(H, provisional, inp.facts, inp.content, inp.policy)
          then SELF_MERGE else HANDOFF;
        GateOutcome(TriggerApproved, Some(MintVerdict(H, APPROVED, disp, inp.facts.headSHA, inp.facts.baseSHA)))
    else bounce
  }

  /** What the gate decides, in full: an approval is minted exactly from an approved claim over
      green facts, bound to those facts; it carries self_merge exactly when the reviewer asked,
      policy allows, the content gate cleared the diff and GitHub reports a settled PR. What is
      not minted goes to a human exactly when the bounce budget or the reviewer's is used up. */
  lemma GateMintsExactly(H: Digest, inp: GateInputs)
    ensures var out := EvaluateGate(H, inp);
      && (out.verdict.Some? <==> inp.claim == APPROVED && GatePredicate(inp.facts))
      && (out.verdict.Some? ==>
            && Verify(H, out.verdict.value, inp.facts.headSHA, inp.facts.baseSHA)
            && out.verdict.value.value == APPROVED
            && (out.verdict.value.disposition == SELF_MERGE <==>
                  && inp.disp == SELF_MERGE && inp.policy.allowSelfMerge && MergeReady(inp.facts)
                  && inp.content.Some? && inp.content.value.Eligible()))
      && (out.trigger == TriggerBounceExhausted <==>
            && out.verdict.None?
            && (inp.bounces + 1 >= inp.maxBounce
                || (inp.claim == CHANGES_REQUESTED && inp.reviewerRejections + 1 >= MAX_REVIEWER_REJECTIONS)))
  {
  }

  // ---- the spec gate -----------------------------------------------------------

  datatype SpecGateInputs = SpecGateInputs(
    claim: string, claimBindsTo: string, meetsStyle: bool, meetsRequirements: bool,
    currentSpecHash: string, specVersion: int, reviewerLens: string, authorLens: string,
    bounces: int, maxBounce: int, reviewerRejections: int, amendedHash: string, amendedVersion: int)

  datatype SpecGateOutcome = SpecGateOutcome(trigger: Trigger, signoff: Option<SpecSignoff>)

  function EvaluateSpecGate(H: Digest, inp: SpecGateInputs): (out: SpecGateOutcome)
    ensures out.trigger != TriggerApproved
    ensures out.signoff.Some? <==> (out.trigger == TriggerSpecSignedOff || out.trigger == TriggerSpecAmended)
    ensures out.trigger == TriggerSpecAmended ==> inp.amendedHash != ""
  {
    if inp.claimBindsTo != inp.currentSpecHash then SpecGateOutcome(TriggerSpecSuperseded, None)
    else if inp.authorLens != "" && inp.reviewerLens == inp.authorLens then SpecGateOutcome(TriggerBounce, None)
    else if inp.claim == NEEDS_DESIGN then SpecGateOutcome(TriggerSpecNeedsDesign, None)
    else if inp.claim == AMENDED && inp.amendedHash != "" && inp.amendedHash != inp.currentSpecHash then
      SpecGateOutcome(TriggerSpecAmended, Some(MintSpecSignoff(H, inp.amendedHash, inp.amendedVersion, inp.reviewerLens)))
    else if inp.claim == SIGNED_OFF && inp.meetsStyle && inp.meetsRequirements then
      SpecGateOutcome(TriggerSpecSignedOff, Some(MintSpecSignoff(H, inp.currentSpecHash, inp.specVersion, inp.reviewerLens)))
    else if inp.reviewerRejections + 1 >= MAX_REVIEWER_REJECTIONS then SpecGateOutcome(TriggerBounceExhausted, None)
    else if inp.bounces + 1 >= inp.maxBounce then SpecGateOutcome(TriggerBounceExhausted, None)
    else SpecGateOutcome(TriggerBounce, None)
  }

  /** The reviewer judged the current bytes, under a lens other than the author's. */
  predicate BoundClaim(inp: SpecGateInputs) {
    inp.claimBindsTo == inp.currentSpecHash && (inp.authorLens == "" || inp.reviewerLens != inp.authorLens)
  }

  predicate AmendsSpec(inp: SpecGateInputs) {
    inp.claim == AMENDED && inp.amendedHash != "" && inp.amendedHash != inp.currentSpecHash
  }

  predicate PassesSpec(inp: SpecGateInputs) { inp.claim == SIGNED_OFF && inp.meetsStyle && inp.meetsRequirements }

  /** The spec gate signs exactly a bound claim that either amends the bytes or signs them off with
      both checks passed. A claim on other bytes is superseded, a bound one that asks for design
      goes there, and what is left is a bounce, exhausted exactly when a bound claim finds the
      bounces or the reviewer's rejections used up. */
  lemma SpecGateSignsExactly(H: Digest, inp: SpecGateInputs)
    ensures var out := EvaluateSpecGate(H, inp);
      var spent := inp.bounces + 1 >= inp.maxBounce || inp.reviewerRejections + 1 >= MAX_REVIEWER_REJECTIONS;
      && (out.signoff.Some? <==> BoundClaim(inp) && (AmendsSpec(inp) || PassesSpec(inp)))
      && (out.signoff.Some? ==>
            && VerifySignoff(H, out.signoff.value, if AmendsSpec(inp) then inp.amendedHash else inp.currentSpecHash)
            && out.signoff.value.specVersion == (if AmendsSpec(inp) then inp.amendedVersion else inp.specVersion)
            && out.signoff.value.reviewerLens == inp.reviewerLens
            && out.trigger == (if AmendsSpec(inp) then TriggerSpecAmended else TriggerSpecSignedOff))
      && (out.signoff.None? ==>
            out.trigger == (
              if inp.claimBindsTo != inp.currentSpecHash then TriggerSpecSuperseded
              else if BoundClaim(inp) && inp.claim == NEEDS_DESIGN then TriggerSpecNeedsDesign
              else if BoundClaim(inp) && spent then TriggerBounceExhausted
              else TriggerBounce))
  {
    hide SignoffHash, VerifySignoff;
    assert |AMENDED| != |NEEDS_DESIGN| && |SIGNED_OFF| != |NEEDS_DESIGN| && |AMENDED| != |SIGNED_OFF|;
    MintedSignoffVerifies(H, inp.amendedHash, inp.amendedVersion, inp.reviewerLens, inp.amendedHash);
    MintedSignoffVerifies(H, inp.currentSpecHash, inp.specVersion, inp.reviewerLens, inp.currentSpecHash);
  }

  /** A minted sign-off verifies against the bytes it was minted for, and no others. */
  lemma MintedSignoffVerifies(H: Digest, specHash: string, version: int, lens: string, current: string)
    ensures VerifySignoff(H, MintSpecSignoff(H, specHash, version, lens), current) <==> current == specHash
  {
  }
}
