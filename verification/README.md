# Flowbee: a verified model of its decision core

Flowbee leases jobs to workers it does not trust. One pure function decides every transition, an
event ledger records it, and a fold of the ledger is the job. This project models that core in
Dafny, together with the four other components whose correctness is not obvious from one body, and
proves what their documentation and tests promise.

## How it is organised

The lease / review / merge protocol:

- `Jobs`, `Liveness`, `Verdicts`, `Encoding`, `ContentResults`, `Engine` - the job record, the kill
  ladder, the gates with their tamper-evident records, and `Decide`, arm by arm.
- `Ledger` - the events and the fold. `Fold` replays them the way the source does, one job variable
  overwritten event by event; `FoldFrom` is the function it is proved equal to.
- `Runtime` - the step system around `Decide`: claim a lease, or call `Decide`, or make a move of the
  control plane; append one event per transition; fold. A `Run` is the whole history of one job.
  Which events each caller appends, and when it may call, follows internal/store (flow.go, queries.go,
  liveness.go, conflict.go, spec.go, janitor.go, requeue.go, cost.go, reconcile.go, adopt.go).
- `Protocol` - the transition diagram: which event may follow which job (`Fits`), and where each
  leads (`Lands`). `Runs` proves that every ledger of every run is a path through it.
- `Decisions` - what `Decide` answers each call with, said of the call, the facts and the job alone.
- `Tallies`, `Leases`, `Budgets`, `MergeSafety`, `SpecFlow` - the theorems over whole runs.
- `Rows` - the jobs row as the store writes it, update by update, decided on and kept beside the
  ledger; and exactly when that row is the fold the other theorems speak of.

The content gate: `Bytes`, `Quoting`, `Paths`, `Diffs`, `Completeness`, `ContentGate`, with the exact
conditions of its two completeness properties in `Locating` and `Joining`.
The two loops against a moving remote: `Boards`, `Branches`.
Scope reservation: `Scopes`, `Registry`.
Staffing, the whole-word scanner and the event feed: `Staffing`, `Words`, `Broker`.

## What is assumed

- The digest (SHA-256) is a parameter `H`: every statement holds for every function. So is case
  folding, the denylist classes and the static checks of the content gate.
- Strings are byte strings where the source works on bytes (hashed records, diffs); lengths are byte
  counts.
- The store makes a check and the write that depends on it in one transaction. Timers, clocks, HTTP
  and SQL are not modelled; what they deliver (a liveness verdict, facts, a head SHA) is an arbitrary
  argument of the step, and may differ from call to call.
- The runtime passes the folded spec hash as the current one, counts prior approvals from the ledger,
  evaluates liveness only where a worker is bound, and takes CI as red when the facts are about
  another artifact than the job's (internal/store/flow.go:303-310).
- A ref update that the remote reports as failed was not applied; the other writers of a branch
  fast-forward it too.
- Git prints a name in its C-quoted form exactly when it holds a control byte, a quotation mark, a
  backslash, a byte 0x7F or above; the escapes are its one-letter ones and three octal digits.

## Where the code does less than its comments say

- The row is not always the fold of its events (`Rows.RowIsFoldExactly`). It first differs exactly after an
  insertion or a step that `Rows.SlipsAtBirth` or `Rows.Slips` lists, chiefly: a requeue, a cancel or a clearing park of a job with a lease on record
  (the row drops it, the fold keeps it); a cancel, eviction, completion or head move of a parked job
  (the row keeps the escalation reason and the over-budget mark); a spec review that is killed or
  released (the row goes back to authoring but still asks for a reviewer, `Rows.KilledReviewStrandsRow`,
  `Rows.ReleasedReviewStrandsRow`); a released merge; a mint for a job whose base was unknown; an
  exhausted review that drops an older verdict; a stale spec claim that keeps an older sign-off; a
  rebase or conflict reported without a base; a result accepted under another staffing than a build's.
- A conflict resolver that gives its lease back is not fenced: nothing bumps the epoch, and the job stays
  in an active-lease state, so its late calls are heard and its late resolution lands
  (`Leases.EndedLeaseIsFenced`, `Leases.ReleasedResolverStillLands`).
- A released spec author sends the spec to the build queue (`SpecFlow.ReleasedAuthoringIsQueued`); the
  store's comment says back to its gate state.
- So the fold alone can show a lease where no worker is (`Leases.ForcedRequeueStrandsLease`);
  `Leases.LeaseHeldOnlyAtWork` states exactly when the fold's lease clause holds.
- Requeueing a finished spec job keeps its sign-off on record (`SpecFlow.RequeuedSignoffStays`);
  `SpecFlow.SignoffHolds` states exactly when the sign-off invariant holds.
- `MarkEpicLaunched` does not look at the state it replaces, so an epic abandoned while it is being
  launched comes back, perhaps on a host that was given away (`Registry.AbandonedLaunchRevives`).
- A name git quotes and that holds a space is missed by `TouchedPaths` when its change prints no file
  header, and a deleted one that starts with `b/` is recorded without it (`Locating.LocatedExactly`).
- Two diffs put together anywhere but at a line end can lose a path and its denylist hit
  (`Joining.HidesNothingExactly`, `Joining.ClearsThePartsExactly`).
- `PutFiles` reports success with nothing committed when the remote answers a created tree without its
  id (`Branches.PutFiles`).
- A failed verification at merge dispatch leaves the job where it is; the comment speaks of a handoff.

## Model

The main results come first, then the rows they build on.

| member | source | states |
|---|---|---|
| MergeSafety.MergeSafety | internal/engine/engine.go:546-571 | A job is merging only since a dispatch that saw the head and base of its present verdict ready to merge, with policy on and content eligible, and its gate had minted that self_merge verdict before, again with policy on and content eligible |
| MergeSafety.VerdictWasMinted | internal/engine/engine.go:428-449 | A folded verdict was put on record by a step that minted it: the job's own gate, from an approved claim on the artifact under review, over facts that satisfied the gate |
| MergeSafety.ClaimsAloneNeverMerge | internal/engine/engine.go:546-571 | No sequence of steps without a dispatch call reaches merging |
| MergeSafety.DispatchSees | internal/engine/engine.go:546-571 | Dispatch starts a merge exactly of an intact self_merge sign-off over the ready head with policy on and content eligible, and does nothing exactly when the sign-off is missing, stale or the head not ready |
| Decisions.ReviewIsDecided | internal/engine/engine.go:406-462 | A review claim at the live epoch makes one move: an approval borne out by green facts re-arms the review while the panel is short and mints, over those facts, when it is not; anything else costs one bounce and parks the job exactly when the bounces or this reviewer's rejections are used up |
| Decisions.ReviewLands | internal/engine/engine.go:406-462 | So, through the recorded events and their fold, the job is parked, rebuilt, re-reviewed or mergeable with the minted verdict, off its lease and with one more bounce or none |
| Decisions.LivenessLands | internal/store/liveness.go:201-330 | After a kill the folded job is off its lease, on the next epoch, one stall heavier, and either parked - as out of attempts exactly when only the attempts ran out - or back in its queue at the cost of an attempt |
| Decisions.ReleaseLands | internal/store/queries.go:602-687 | After a release the folded job is charged exactly for a failure or an unexcused abandon of anything but a review, parked exactly when that uses up a limited budget, and otherwise where its next worker finds it |
| Decisions.TamperedVerdictStays | internal/engine/engine.go:546-571 | A verdict in which anything was changed after minting moves nothing at dispatch, short of a digest collision |
| Decisions.DispatchIsDecided | internal/engine/engine.go:546-571 | Dispatch of a mergeable job makes one move exactly if its verdict verifies over green facts whose mergeable state is not unknown in any letter case; to merging exactly of a self_merge verdict with policy on and content eligible, else to the handoff |
| Leases.EndedLeaseIsFenced | internal/engine/engine.go:228-462 | Up to the merge, once the lease granted at an epoch has ended, no later call presenting that epoch gets a transition, a mint or a directive - exactly unless a conflict resolver gave that lease back and nobody took the conflict since |
| Leases.ReleasedResolverStillLands | internal/store/conflict.go:596-672 | From any build run, a legal continuation in which a resolver gives its lease back and still lands its resolution |
| Leases.GrantsHaveFreshEpochs | internal/store/queries.go:192-340 | In every run each epoch is granted to at most one lease; later grants carry larger epochs |
| Leases.BuildStaysLeasable | internal/ledger/ledger.go:811-824 | In every run of a build job each claimable state folds to the capabilities of the one kind of worker that can claim it |
| Leases.LeaseHeldOnlyAtWork | internal/ledger/ledger.go:294-312 | A lease is folded only in leased, building, code_review or resolving_conflict along a run exactly when no state change or completion hits a held lease |
| Leases.ForcedRequeueStrandsLease | internal/store/requeue.go:39-105 | A forced requeue of a leased build folds to a ready job that still carries the lease |
| Rows.RowIsFoldExactly | internal/ledger/ledger.go:223-224 | Along a run of the store the row is the fold of its ledger at every point exactly if the job was inserted staffed for its stage and no step slips, a condition on the row before each step |
| Rows.StoreFollowsRuns | internal/ledger/ledger.go:223-224 | While the row is the fold, the store, which decides on its row, goes through the very states of the step system, so the theorems about runs are theorems about its rows |
| Rows.UnslippedRunIsStored | internal/store/flow.go:275-560 | Conversely a run without slips is one the store makes, through the same states |
| Rows.WriteIsFoldExactly | internal/store/queries.go:190-300 | From a row that is a fold, the row one step writes is the fold of the events it appends exactly unless the step slips |
| Rows.KilledReviewStrandsRow | internal/store/liveness.go:252-325 | A legal run of the store, ending in a kill, after which the row waits for an author but asks for a reviewer |
| Rows.ReleasedReviewStrandsRow | internal/store/queries.go:602-687 | The same after a claimed spec review is released |
| Budgets.LeaseBound | internal/engine/engine.go:314-459 | Besides one for every release, a build takes at most (MaxBounces + 1) * (panel + 1) + ceiling - 1 leases in every run without a fast-cancel, head move, re-arm or released merge, however often its CI is red |
| Budgets.LeaseBoundByReview | internal/engine/engine.go:314-459 | One review cycle less if no bounce is for red CI |
| Budgets.PenalisedLeaseBound | internal/store/queries.go:602-687 | If every release is charged to the attempts, (MaxBounces + 1) * (panel + 1) + ceiling - 1 + MaxAttempts leases in all, because the last attempt parks the job |
| Budgets.BounceBudget | internal/engine/engine.go:428-459 | Between two counter resets a build is bounced at most MaxBounces times, by reviewers alone at most MaxBounces - 1 times |
| Budgets.MintCompletesPanel | internal/engine/engine.go:428-449 | A verdict is minted exactly with panel - 1 approvals banked, by a reviewer who gave none of them |
| Budgets.PanelHolds | internal/store/flow.go:352-371 | In every run every round banks at most panel - 1 approvals, by that many different reviewers |
| SpecFlow.SignoffHolds | internal/ledger/ledger.go:472-536 | A sign-off on record means the spec job is done, the sign-off covers the folded bytes and its lens is not the author's - exactly as long as no signed-off job was requeued |
| SpecFlow.RequeuedSignoffStays | internal/store/requeue.go:39-105 | A legal run, without force, after which a spec is under authoring with a sign-off on record |
| SpecFlow.ReleasedAuthoringIsQueued | internal/store/queries.go:602-650 | A spec under authoring whose author lets go of it is a ready job |
| SpecFlow.StaleClaimOnlyRearms | internal/job/verdict.go:381-386 | A review claim bound to other bytes than those on record mints nothing and only re-arms authoring |
| Tallies.CountersAreTallies | internal/ledger/ledger.go:288-312 | At every point of every run attempts, stalls and bounces are the number of events that used one up since the last reset, and the meter is the sum of all reports |
| Tallies.ArtifactColumns | internal/ledger/ledger.go:358-470 | In every run verdict, head and base are what the last event of the ledger that sets each of them set it to, reading backwards |
| Verdicts.VerdictIsSealed | internal/job/verdict.go:59-98 | Unless the digest collides on their two hashed texts, of all records with one integrity hash exactly the minted one verifies, and for its own SHA pair only; a changed value, disposition or SHA does not |
| Verdicts.SignoffIsSealed | internal/job/verdict.go:295-331 | The same of the spec gate's sign-off, its version and lens included |
| Verdicts.VerdictPreimageInjective | internal/job/verdict.go:75-85 | The hashed text of a verdict determines value, disposition, head, base and provenance |
| Verdicts.SignoffPreimageInjective | internal/job/verdict.go:308-317 | The hashed text of a spec sign-off determines every bound field, the signed version line included |
| Verdicts.VerifyIffMinted | internal/job/verdict.go:59-98 | A record verifies for a SHA pair exactly when it is what minting yields for that pair |
| Verdicts.MintedSignoffVerifies | internal/job/verdict.go:295-331 | A minted sign-off verifies against the bytes it was minted for and no others |
| Verdicts.GateMintsExactly | internal/job/verdict.go:177-276 | The gate mints exactly from an approved claim over satisfied facts, bound to those facts, and grants self_merge exactly when asked, allowed, content-cleared and GitHub has settled |
| Verdicts.SpecGateSignsExactly | internal/job/verdict.go:380-437 | The spec gate signs exactly a claim bound to the current bytes, under another lens than the author's, that amends them or signs them off with both checks passed; what it signs verifies for those bytes, and of the rest each outcome has its exact condition |
| Decisions.SpecReviewIsDecided | internal/engine/engine.go:464-544 | A spec-review claim at the live epoch makes one move: re-arm for free on other bytes, done with a sign-off over exactly the amended or current bytes, to design on request, and otherwise a bounce, to a human from an epic or when the budget is used up |
| Quoting.UnquoteInvertsQuote | internal/content/content.go:773-831 | Decoding inverts git's quoting on every byte string, quoted or not, names followed by digits included |
| Completeness.PrintedPathsAreTouched | internal/content/content.go:656-772 | Every locatable path of every change in a diff git prints is among the touched paths, whatever the other changes, the extended headers (before and after a rename's) and the hunks are |
| Completeness.NewHeaderReadsBack | internal/content/content.go:755-772 | The new-side header printed for any name parses back to the name, unless an unquoted one ends in a space |
| Locating.LocatedExactly | internal/content/content.go:722-772 | In the diff of one change whose other lines name nothing, a changed path in normal form is found exactly if it is locatable |
| Locating.QuotedModeChangeIsMissed | internal/content/content.go:722-753 | A name whose mode change is missed |
| Locating.QuotedDeleteLosesItsSide | internal/content/content.go:700-711 | A deleted quoted name that starts with b/ is recorded without it |
| Diffs.TouchedPaths | internal/content/content.go:656-698 | The result is strictly sorted and is exactly the set of normalized paths the lines name or delete |
| Joining.HidesNothingExactly | internal/content/content.go:656-711 | A diff put before another hides no path of either, whatever the other is, exactly if it is empty or ends its last line |
| Joining.ClearsThePartsExactly | internal/content/content.go:162-187 | A clearance of the whole is one of each part, for every policy, declaration and second diff, exactly if the first is empty or ends its last line |
| ContentGate.CheckWithPolicy | internal/content/content.go:162-187 | Each condition of the gate says what it says of every touched path, and the static checks see exactly the touched paths |
| ContentGate.DenylistClearExactly | internal/content/content.go:162-187 | The denylist is clear exactly if no touched path, letter case aside, is denied by a class - the own-source class excepted where policy allows it - or lies at or beneath a configured prefix |
| ContentGate.PrefixesOnlyAddHits | internal/content/content.go:320-383 | Configured prefixes only ever add hits |
| Paths.CoverIsSegmentPrefix | internal/content/content.go:428-447 | The textual cover test is exactly the segment-prefix relation |
| Paths.DeclaresBySegments | internal/content/content.go:428-447 | What a declaration covers, segment by segment |
| Paths.TraversalCancels | internal/content/content.go:847-871 | Cleaning resolves a path: ".." cancels the segment before it, "." and empty segments drop out, and above the root there is nothing |
| Boards.StillBoardIsRead | internal/github/github.go:743-781 | A board that stands still and fits the page cap comes back whole: every open pull request and every open issue exactly once, and - when no number is both merged and closed - besides them exactly the merged ones, unmarked, and the closed ones, marked |
| Boards.BoardHoldsWhatWasListed | internal/github/github.go:695-781 | Against any server a returned board holds, of every number an answered page lists, exactly the entry it was first listed with, flag and all, merged and closed connections included |
| Boards.BoardOnlyIfAllAnswered | internal/github/github.go:743-781 | A board comes back exactly if every query is answered until both connections are at their end or the page cap is reached |
| Boards.BoardsRepeatNothing | internal/github/github.go:695-781 | Against any server a returned board lists no number twice |
| Branches.PutFiles | internal/github/github.go:1370-1438 | The branch only fast-forwards; success means a tip of the call held every file, unless a created tree came back without an id; at most one commit landed, of exactly these files on the tip it replaced, and none on an error. It errs exactly on the first failure that is not a refused ref update, with its status, or on the refusal of the fifth attempt; a refusal nobody injected means the branch moved during that attempt, so with no call failing only a branch that moves in all five defeats it |
| Scopes.OverlapIsSound | internal/epicspec/scope.go:32-54 | If some path matches a glob of each list, letter case aside, the test reports overlap |
| Scopes.FreeExactly | internal/epicspec/scope.go:32-54 | Two lists are free of each other exactly if any two of their globs differ, letter case aside, in a character both spell out before their first wildcard |
| Scopes.TreesOverlapExactly | internal/epicspec/scope.go:32-54 | Among globs that claim whole trees the test is exact: it reports an overlap only if some path is claimed twice |
| Registry.ReservationsHoldExactly | internal/store/epicrun.go:69-157 | Along a run no two active epics ever clash exactly when no operation revives a clashing one |
| Registry.ReservationsHold | cmd/flowbee/epic.go:166-207 | In every registry reached without such a revival no host holds two active epics and no path is claimed by two active epics of a repository |
| Registry.AbandonedLaunchRevives | cmd/flowbee/epic.go:296-343 | Abandoning an epic during its launch can leave two active epics on one host |
| Staffing.ResolutionFollowsPrecedence | internal/flow/resolve.go:98-161 | A flow resolves exactly if every kept stage's preferred identities - job, else epic, else flow, else role default, per stage or reviewer slot - are in the registry and pairwise distinct in a fan-out; then each stage has exactly these actors, and is the system's exactly when it has no slots and all four layers are silent |
| Staffing.ResolutionIsSound | internal/flow/resolve.go:98-161 | Every stage that is neither skipped nor a system stage has an actor, and every fan-out has pairwise distinct identities (and families when required) |
| Staffing.OverriddenFanOutFailsTheFlow | internal/flow/resolve.go:120-137 | A kept fan-out of two or more reviewers resolves only if no epic or job override names its stage |
| Words.ContainsWord | internal/flow/flow.go:210-229 | The scan finds the word exactly when some occurrence stands alone, overlapping and rejected earlier ones notwithstanding |
| Broker.FeedDelivers | internal/api/sse.go:27-88 | At any moment each client has read, in order, a subsequence of what was published while it was subscribed, at most 64 messages wait, every other one was dropped, and if none was it has read all but what waits |
| Encoding.FramesInjective | internal/job/verdict.go:78-82 | Texts built from the same number of length-prefixed fields agree only if every field does, whatever bytes (colons, digits, newlines) the fields hold |
| Verdicts.EvaluateGate | internal/job/verdict.go:221-276 | Which outcomes the review gate has, that a verdict comes only with an approval over satisfied facts, and that a plain bounce leaves budget |
| Verdicts.EvaluateSpecGate | internal/job/verdict.go:380-437 | A sign-off comes exactly with the signed-off and amended outcomes, and an amendment names its bytes |
| Liveness.TwoRungsKill | internal/liveness/liveness.go:159-217 | A lease is killed on the wall clock alone or, with the breaker untripped, on two of the three softer signals; no single one suffices |
| Ledger.Fold | internal/ledger/ledger.go:225-828 | Replaying a ledger event by event, kind-specific writes and then the state-derived columns, yields the fold function of the whole ledger |
| Protocol.EventLands | internal/ledger/ledger.go:257-418 | Whatever its kind, a fitting event puts the job in its target state, on its epoch, with exactly the lease and counters its kind leaves |
| Protocol.EventKeepsLeasable | internal/ledger/ledger.go:805-824 | Every fitting event leaves a claimable build state with the capabilities of its one kind of worker |
| Protocol.EventKeepsLeaseState | internal/ledger/ledger.go:294-297 | An event keeps leases where workers work exactly unless it leaves a held lease behind |
| Decisions.LivenessOutcome | internal/engine/engine.go:314-367 | A liveness verdict moves exactly on a kill - the wall clock alone or, breaker untripped, two softer signals -, fences the lease, parks the job exactly when the governor's ceiling is reached or, on the clock, the attempts are used up, and else sends it back to its queue at the cost of an attempt |
| Decisions.HeartbeatIsDecided | internal/engine/engine.go:242-284 | A live heartbeat fails the job of a dead agent, hands on that of one waiting for input at the cost of an attempt, and tells the worker to go on exactly when its agent is fine and the job within budget |
| Decisions.CostIsDecided | internal/engine/engine.go:286-312 | A live cost report parks the job exactly when the meter has reached the ceiling |
| Decisions.ResultIsDecided | internal/engine/engine.go:369-388 | A result of a live build goes to review, through building if it was only leased; anything else is refused |
| Decisions.ReleaseIsDecided | internal/engine/engine.go:390-404 | A live lease given back costs an attempt and leads a review back to its queue, anything else to the build queue |
| Runs.ReleaseTargetsAgreeExactly | internal/store/queries.go:614-623 | Decide and the store agree on where a release leads exactly outside spec_review and resolving_conflict |
| Runs.ActiveStatesAreWorked | internal/job/job.go:100-169 | The lease-holding states are those a claim leads to, building and the two a merge waits in; liveness watches all but these two |
| Runs.LedgerIsPath | internal/store/queries.go:450-560 | Every ledger of every run is a path through the diagram, and the job is where it leads |
| Runs.LedgerIsGapless | internal/store/flow.go:384-395 | Events are numbered 1, 2, 3, ... and the job is at the last one |
| Tallies.ParkedColumns | internal/ledger/ledger.go:757-788 | The over-budget mark and the escalation reason are folded only while the job waits for a human |
| Leases.EndedLeaseStaysEnded | internal/ledger/ledger.go:257-612 | An epoch whose lease is not live at some point of the ledger is not live from there on: dead, or dangling at an unclaimed conflict |
| Leases.DeadEpochIsRejected | internal/engine/engine.go:228-404 | A call on a dead epoch decides nothing |
| Budgets.StepKeepsPanel | internal/store/flow.go:121-200 | Every step keeps the banked approvals of a round distinct, below the panel size, and the current reviewer not among them |
| Budgets.RoundsStayOpenOverRuns | internal/store/flow.go:352-371 | No prefix of a ledger shows a round with a full panel of banked approvals |
| Budgets.EventKeepsAccounts | internal/engine/engine.go:314-459 | Every lease taken and not given back is paid for by a bounce, a kill, an approval or the current cycle |
| MergeSafety.EveryStepIsMergeStep | internal/store/flow.go:275-620 | Only a review mints and only a dispatch starts a merge, each only from what it was shown, and nothing that leaves a job merging touches its verdict |
| SpecFlow.EventKeepsSignoff | internal/ledger/ledger.go:472-536 | Every event but a sign-off keeps the invariant, and a requeue of a signed-off job is the one that breaks it |
| SpecFlow.GateSignsSoundly | internal/job/verdict.go:387-420 | What the spec gate signs verifies against the reviewed or amended bytes, and never under the author's lens |
| Quoting.UnquoteGitPath | internal/content/content.go:781-831 | The index-and-builder decoder computes the decoding function on every text |
| Quoting.ReadOctal | internal/content/content.go:816-824 | The octal escape reads the longest run of up to three octal digits |
| Paths.CleanIsIdempotent | internal/content/content.go:858-869 | Cleaning twice is cleaning once and keeps rootedness; the segments left are canonical, so no traversal survives |
| Paths.NormalFormEndsPlain | internal/content/content.go:847-871 | A normal form ends in a slash only if it is the root |
| Paths.NormalizeShrinks | internal/content/content.go:847-871 | A normal form is no longer than the path |
| Paths.DeclarationCovers | internal/content/content.go:428-447 | The loop answers whether some declared path covers the touched one |
| Diffs.ScanDeletes | internal/content/content.go:700-711 | The second pass adds exactly the old names of files whose new side is /dev/null |
| Completeness.PlainGitLine | internal/content/content.go:738-753 | The symmetric header recovers an unquoted name, spaces and all |
| Locating.MiscutIsNotTheName | internal/content/content.go:738-753 | The half a quoted header line is cut down to never normalizes to the name, whatever stands before it |
| ContentGate.DenylistHitsWith | internal/content/content.go:324-357 | The hits are exactly those of each touched path under the classes and the configured prefixes, sorted |
| ContentGate.UndeclaredPaths | internal/content/content.go:412-426 | The undeclared paths are exactly the touched ones no declaration covers, sorted |
| Boards.BoardSweep | internal/github/github.go:743-781 | The two-cursor page loop computes the sweep function of the server, an error giving no board |
| Boards.AccumulatePRs | internal/github/github.go:695-717 | Merging a page skips every number already seen |
| Branches.LandsOnItsParent | internal/github/github.go:1398-1436 | A commit built on an earlier tip can land on that very tip only |
| Scopes.ScopeOverlap | internal/epicspec/scope.go:32-43 | The nested loop reports overlap exactly when two globs conflict, and names two that do |
| Scopes.OverlapIsSymmetric | internal/epicspec/scope.go:32-43 | It does not matter which list comes first |
| Registry.EpicRegistry.Add | internal/store/epicrun.go:69-117 | Check and registration: the first failing check decides, and only success adds a launching row |
| Registry.EpicRegistry.Start | cmd/flowbee/epic.go:157-343 | Starting an epic refuses for the first failing check, and any failure, a failed launch included, leaves nothing reserved |
| Registry.EpicRegistry.Delete | internal/store/epicrun.go:137-140 | The named row is cut out of the list, the others stand in order, and exclusion survives |
| Registry.EpicRegistry.Abandon | internal/store/epicrun.go:354-385 | The named epic, if there is one, lets go of its reservations; nothing else about it or any other changes, and exclusion cannot suffer |
| Registry.EpicRegistry.MarkLaunched | internal/store/epicrun.go:146-157 | Only the named epic's state changes, whatever it was, and exclusion survives exactly unless that revives a clashing epic |
| Registry.EpicRegistry.Ingest | internal/store/epicrun.go:259-316 | A status reading changes only the named epic's state, and exclusion survives exactly unless that revives a clashing epic |
| Registry.ReportedState | internal/store/epicrun.go:311-346 | Which reading leaves an epic in which state: only the exact word done, or being done, makes it done; an achieved session makes it achieved otherwise; unknown words change nothing |
| Registry.AddKeepsExclusion | internal/store/epicrun.go:69-117 | A registration keeps hosts and scopes exclusive, and a new epic is added exactly if it clashes with no active one; a refusal names what it clashes over |
| Registry.SetStateKeepsExclusion | internal/store/epicrun.go:146-157 | A state change keeps exclusion exactly when it does not revive an epic that clashes with an active one |
| Staffing.Resolve | internal/flow/resolve.go:98-161 | Stages resolve in strictly ascending name order, one per document stage, each staffed by whom its layers prefer; an error is returned exactly when some stage cannot be staffed |
| Staffing.FirstMisnamedSlotFails | internal/flow/identity.go:142-164 | The first reviewer slot whose preferred id names nobody decides the error |
| Staffing.CheckAntiAffinity | internal/flow/resolve.go:195-213 | The seen-maps scan accepts exactly the pairwise distinct fan-outs |
| Staffing.ResolveIdentity | internal/flow/identity.go:142-164 | The most specific non-empty layer wins, and an unknown id fails there |
| Staffing.Precedence | internal/flow/identity.go:126-164 | role < flow < epic < job: each layer counts only where every more specific one is silent |
| Staffing.AggregateVerdicts | internal/flow/resolve.go:238-253 | Unanimity and veto pass exactly without a fail, a majority needs more passes than fails, and exactly an unknown rule is reported |
| Staffing.RoleDefaults | internal/flow/identity.go:106-123 | A role has a default exactly when one identity has that role, and it is that identity |
| Words.NonEmptyWordStandsAnywhere | internal/flow/flow.go:207-229 | For a non-empty word any position counts |
| Words.FindProviderLiteral | internal/flow/flow.go:192-205 | The first listed literal that stands in the text, or nothing when none does |
| Broker.Feed.Subscribe | internal/api/sse.go:31-39 | Ids are never reused and a new queue is empty |
| Broker.Feed.Publish | internal/api/sse.go:74-88 | Every subscriber is offered the message; it is dropped exactly where 64 wait and else waits behind the others; nobody is kept waiting |
| Broker.Feed.Unsubscribe | internal/api/sse.go:41-48 | A client leaves and no queue changes |
| Broker.Feed.Receive | internal/api/sse.go:103-117 | A client takes the oldest message of its own queue |

## Left out

- The HTTP layer, the CLI, YAML loading, GraphQL and REST decoding, git subprocesses: input and output.
- internal/scheduler, internal/project, internal/reconcile, internal/watchdog: only the events they append appear, as steps.
- Runtime and Rows: the store is a step system on values (a ledger and a row), not a class over tables; it updates one row in a transaction, so nothing of aliasing is lost.
- Rows: the watchdogs that repair the role and capabilities of ready builds, the lease audit table and the timers; a requeue of anything but a build or a spec.
- Adopted, backlogged and promoted jobs: their events are folded, but runs start from a created build or spec, not a test job.
- Registry.EpicRegistry.Start: the ssh preflight, the host's registration and the fast-feedback reads are not modelled; Add repeats the latter inside its transaction.
- Columns no decision reads (stage, queue clocks, texts, GitHub numbers, provenance, the janitor's counters) are not in the job record, and the event kinds that write only those are one kind.
- Builder anti-affinity at review claims rests on a store column the ledger does not carry.
- Runtime.Allowed: the claim's panel check excludes approvers since the last head event; the source also excludes some earlier ones after a re-armed adoption, which allows fewer runs.
- Releases follow the store (job.Next, the penalty, the escalation after the last attempt); Decide only says whether one is allowed.
- The epic_reviewed event behind an epic's sign-off: it changes no modelled column, and a recorded note stands for it.
- Leases.EndedLeaseIsFenced: stops at the merge, because merging and merge_handoff are entered without a new epoch.
- Budgets.LeaseBound: excludes fast-cancels, head moves, re-arms and released merges, and counts releases: each of them can repeat without bound, a release when it is excused or of a review.
- Completeness.PrintedPathsAreTouched: one direction, because with several changes another one's lines can name the path; Locating.LocatedExactly has both directions for one change. Copies (git diff -C) are not printed.
- Secret scanning and the entropy check are inside the static-checks parameter.
- LintNeutrality, backoff, priorities and display helpers: easy.
- ContentGate.DenylistHitsWith: two hits that spell the same text are one; class names hold no colon in the source, so none do.
- Boards: check rollups and labels travel inside an item's content.
- Concurrency in Registry and Broker: each method is one critical section or transaction.
