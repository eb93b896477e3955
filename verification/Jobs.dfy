/** The domain types of internal/job: states, roles, the gate records and the job
    projection. Fields that only carry human-facing text through are not modelled. */
module Jobs {
  datatype Option<+T> = None | Some(value: T)

  /** The state catalogue. `Unset` is the zero value of a job no event has created yet. */
  datatype State =
    | Unset
    | SpecAuthoring | SpecReview
    | Ready | Leased | Building | ReviewPending | CodeReview
    | Mergeable | Merging | MergeHandoff
    | Done | Blocked | NeedsHuman | Superseded | Cancelled | Failed
    | NeedsDesign | Backlog | Quiescent | ResolvingConflict

  datatype Role =
    | NoRole | SpecAuthor | SpecReviewer | EngWorker | CodeReviewer
    | Merger | ConflictResolver | Tester

  datatype JobKind = NoKind | SpecJob | BuildJob | TestJob

  /** A capability tag a worker must attest: "role:<role>", or any other tag. */
  datatype Capability = RoleTag(role: Role) | OtherTag(text: string)

  /** States that hold the one active-lease slot of a job. */
  predicate HasActiveLease(s: State) {
    || s == Leased || s == Building || s == CodeReview || s == Merging || s == MergeHandoff
    || s == SpecAuthoring || s == SpecReview || s == ResolvingConflict
  }

  /** Active-lease states that have a bound worker to be alive. */
  predicate LivenessEvaluable(s: State) {
    HasActiveLease(s) && s != MergeHandoff && s != Merging
  }

  predicate CostExceeded(costMicroUSD: int, ceiling: Option<int>) {
    ceiling.Some? && costMicroUSD >= ceiling.value
  }

  const DEFAULT_MAX_ATTEMPTS := 5
  const DEFAULT_MAX_BOUNCES := 4

  /** The SHA-bound sign-off of the code-review gate. */
  datatype Verdict = Verdict(
    value: string, disposition: string, headSHA: string, baseSHA: string,
    provenance: string, tamperEvident: bool, integrityHash: string)

  /** The content-hash-bound sign-off of the spec gate. */
  datatype SpecSignoff = SpecSignoff(
    value: string, specHash: string, specVersion: int, reviewerLens: string,
    provenance: string, tamperEvident: bool, integrityHash: string)

  /** The live lease columns. */
  datatype Lease = Lease(id: string, identity: string, modelFamily: string)

  const NO_LEASE := Lease("", "", "")

  datatype Counters = Counters(
    attempts: int, maxAttempts: int, bounces: int, maxBounces: int, stallRevocations: int)

  /** The spec bytes a job is bound to, and the sign-off over them. */
  datatype SpecBinding = SpecBinding(contentHash: string, version: int, signoff: Option<SpecSignoff>)

  /** The job projection: the columns of the record the ledger folds into that some decision reads. */
  datatype Job = Job(
    kind: JobKind, state: State, role: Role, requiredCapabilities: seq<Capability>,
    leaseEpoch: int, lease: Lease, counters: Counters, spec: SpecBinding,
    baseSHA: string, headSHA: string, verdict: Option<Verdict>,
    costMicroUSD: int, overBudget: bool, escalationReason: string,
    jobSeq: int)

  /** The projection before the first event. */
  const ZERO_JOB := Job(
    NoKind, Unset, NoRole, [], 0, NO_LEASE, Counters(0, 0, 0, 0, 0), SpecBinding("", 0, None),
    "", "", None, 0, false, "", 0)
}
