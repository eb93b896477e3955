/** The registry of epics: one epic per host, disjoint scopes per repository
    (internal/store/epicrun.go, and cmd/flowbee/epic.go, which drives it). */
module Registry {
  import opened Scopes

  datatype EpicState = Launching | Running | Blocked | Done | Achieved | Abandoned

  datatype Epic = Epic(id: string, repo: string, host: string, scope: seq<string>, state: EpicState)

  /** The state still holds its host and scope. */
  predicate Active(s: EpicState) { s == Launching || s == Running || s == Blocked }

  datatype AddResult = Added | NoId | HostBusy | ScopeTaken | Exists

  datatype StartResult = Started | Refused(why: AddResult) | NoHost | LaunchFailed

  predicate DistinctIds(rows: seq<Epic>) {
    forall i, k :: 0 <= i < k < |rows| ==> rows[i].id != rows[k].id
  }

  /** Two epics cannot be active at once. */
  predicate Clash(fold: Fold, a: Epic, b: Epic) {
    (a.host != "" && a.host == b.host) || (a.repo == b.repo && Overlap(fold, a.scope, b.scope))
  }

  /** No two active epics clash. */
  predicate Exclusive(fold: Fold, rows: seq<Epic>) {
    forall i, k :: 0 <= i < |rows| && 0 <= k < |rows| && i != k && Active(rows[i].state) && Active(rows[k].state)
      ==> !Clash(fold, rows[i], rows[k])
  }

  /** No active epic but row i itself clashes with row i. */
  predicate FreeFor(fold: Fold, rows: seq<Epic>, i: nat)
    requires i < |rows|
  {
    forall k :: 0 <= k < |rows| && k != i && Active(rows[k].state) ==> !Clash(fold, rows[i], rows[k])
  }

  predicate Known(rows: seq<Epic>, id: string) { exists i :: 0 <= i < |rows| && rows[i].id == id }

  // ---- what each operation does to the rows ----------------------------------------------

  function WithState(rows: seq<Epic>, id: string, s: EpicState): (r: seq<Epic>)
    ensures |r| == |rows|
    ensures forall i :: 0 <= i < |rows| ==> r[i] == if rows[i].id == id then rows[i].(state := s) else rows[i]
  {
    if rows == [] then []
    else [if rows[0].id == id then rows[0].(state := s) else rows[0]] + WithState(rows[1..], id, s)
  }

  function Without(rows: seq<Epic>, id: string): (r: seq<Epic>)
    ensures |r| <= |rows| && forall e :: e in r <==> e in rows && e.id != id
  {
    if rows == [] then [] else (if rows[0].id == id then [] else [rows[0]]) + Without(rows[1..], id)
  }

  predicate HostFree(rows: seq<Epic>, host: string) {
    forall i :: 0 <= i < |rows| && Active(rows[i].state) ==> host == "" || rows[i].host != host
  }

  predicate ScopeFree(fold: Fold, rows: seq<Epic>, repo: string, scope: seq<string>) {
    forall i :: 0 <= i < |rows| && Active(rows[i].state) && rows[i].repo == repo ==> !Overlap(fold, scope, rows[i].scope)
  }

  function AddOutcome(fold: Fold, rows: seq<Epic>, e: Epic): AddResult {
    if e.id == "" then NoId
    else if !HostFree(rows, e.host) then HostBusy
    else if !ScopeFree(fold, rows, e.repo, e.scope) then ScopeTaken
    else if Known(rows, e.id) then Exists
    else Added
  }

  /** The words an agent reports its state with, already trimmed and lower-cased. */
  function NextEpicState(cur: EpicState, word: string): EpicState {
    if word == "done" then Done
    else if word == "blocked" then Blocked
    else if word == "building" || word == "pursuing" || word == "working" || word == "running" then Running
    else cur
  }

  function IngestedState(cur: EpicState, word: string, sessionAchieved: bool): EpicState {
    var next := NextEpicState(cur, word);
    if sessionAchieved && next != Done then Achieved else next
  }

  /** The words that say something about an epic; any other leaves it as it is. */
  predicate Tells(word: string) { word in ["done", "blocked", "building", "pursuing", "working", "running"] }

  /** When a reading leaves an epic in which state, and when it makes an epic let go of its host and
      scope. Only "done" itself, or being done already, makes it done; a session that reached its
      goal makes it achieved whatever else is reported; no reading makes one launching or abandoned. */
  lemma ReportedState(cur: EpicState, word: string, achieved: bool)
    ensures var r, kept := IngestedState(cur, word, achieved), !Tells(word);
      && (r == Done <==> word == "done" || (kept && cur == Done))
      && (r == Achieved <==> r != Done && (achieved || (kept && cur == Achieved)))
      && (r == Blocked <==> !achieved && (word == "blocked" || (kept && cur == Blocked)))
      && (r == Running <==> !achieved && (word in ["building", "pursuing", "working", "running"] || (kept && cur == Running)))
      && (r == Launching || r == Abandoned ==> kept && cur == r)
      && (Active(cur) ==> (!Active(r) <==> word == "done" || achieved))
  {
    assert |"done"| == 4 && |"blocked"| == |"working"| == |"running"| == 7 && |"building"| == |"pursuing"| == 8;
    assert "blocked"[0] == 'b' && "working"[0] == 'w' && "running"[0] == 'r';
  }

  class EpicRegistry {
    const fold: Fold
    var rows: seq<Epic>

    ghost predicate Valid()
      reads this
    {
      DistinctIds(rows)
    }

    constructor (fold: Fold)
      ensures Valid() && rows == [] && this.fold == fold
    {
      this.fold := fold;
      rows := [];
    }

    /** Checks and registers in one transaction. */
    method Add(e: Epic) returns (r: AddResult)
      requires Valid()
      modifies this
      ensures Valid() && r == AddOutcome(fold, old(rows), e)
      ensures rows == if r == Added then old(rows) + [e.(state := Launching)] else old(rows)
    {
      if e.id == "" {
        return NoId;
      }
      for i := 0 to |rows|
        invariant forall k :: 0 <= k < i && Active(rows[k].state) ==> e.host == "" || rows[k].host != e.host
      {
        if e.host != "" && rows[i].host == e.host && Active(rows[i].state) {
          return HostBusy;
        }
      }
      for i := 0 to |rows|
        invariant rows == old(rows)
        invariant forall k :: 0 <= k < i && Active(rows[k].state) && rows[k].repo == e.repo ==> !Overlap(fold, e.scope, rows[k].scope)
      {
        if rows[i].repo == e.repo && Active(rows[i].state) {
          var overlaps, ga, gb := ScopeOverlap(fold, e.scope, rows[i].scope);
          if overlaps {
            return ScopeTaken;
          }
        }
      }
      for i := 0 to |rows|
        invariant forall k :: 0 <= k < i ==> rows[k].id != e.id
      {
        if rows[i].id == e.id {
          return Exists;
        }
      }
      rows := rows + [e.(state := Launching)];
      return Added;
    }

    /** Rolls a failed launch back: the row is gone, the others stand as they stood, and a
        registration that kept exclusion still does. */
    method Delete(id: string)
      requires Valid()
      modifies this
      ensures Valid() && rows == Applied(fold, old(rows), Deleting(id))
      ensures !Known(old(rows), id) ==> rows == old(rows)
      ensures forall i :: 0 <= i < |old(rows)| && old(rows)[i].id == id ==> rows == old(rows)[..i] + old(rows)[i + 1..]
      ensures Exclusive(fold, old(rows)) ==> Exclusive(fold, rows)
    {
      WithoutKeepsIds(rows, id);
      WithoutRemoves(rows, id);
      if Exclusive(fold, rows) {
        DeleteKeepsExclusion(fold, rows, id);
      }
      rows := Without(rows, id);
    }

    /** Gives up an epic: it lets go of its host and scope, nothing else changes, and exclusion
        cannot suffer. */
    method Abandon(id: string) returns (found: bool)
      requires Valid()
      modifies this
      ensures Valid() && rows == Applied(fold, old(rows), Abandoning(id))
      ensures found <==> Known(old(rows), id)
      ensures OnlyMoves(old(rows), rows, id, Abandoned)
      ensures Exclusive(fold, old(rows)) ==> Exclusive(fold, rows)
    {
      hide Exclusive, WithState, Known, OnlyMoves, DistinctIds, FreeFor, Find;
      StateOperationIf(fold, rows, Abandoning(id));
      found := SetState(id, Abandoned);
    }

    /** The last step of a launch. It does not look at the state it replaces, so it keeps exclusion
        exactly when the epic still held its reservation or nobody took it in the meantime. */
    method MarkLaunched(id: string) returns (found: bool)
      requires Valid()
      modifies this
      ensures Valid() && rows == Applied(fold, old(rows), Launched(id))
      ensures found <==> Known(old(rows), id)
      ensures OnlyMoves(old(rows), rows, id, Running)
      ensures Exclusive(fold, old(rows)) ==> (Exclusive(fold, rows) <==> !Revives(fold, old(rows), Launched(id)))
    {
      hide Exclusive, WithState, Known, OnlyMoves, DistinctIds, FreeFor, Find;
      StateOperationIf(fold, rows, Launched(id));
      found := SetState(id, Running);
    }

    /** Sets one epic's state, whatever it was. */
    method SetState(id: string, s: EpicState) returns (found: bool)
      requires Valid()
      modifies this
      ensures Valid() && found == (Find(old(rows), id) < |old(rows)|) == Known(old(rows), id)
      ensures OnlyMoves(old(rows), rows, id, s)
      ensures rows == if found then WithState(old(rows), id, s) else old(rows)
    {
      found := Find(rows, id) < |rows|;
      MovesOne(rows, id, s);
      if found {
        rows := WithState(rows, id, s);
      }
    }

    /** Starts an epic: register it, launch its session, then mark it running - or roll the
        registration back. Whatever goes wrong, nothing stays reserved. */
    method Start(e: Epic, launches: bool) returns (r: StartResult)
      requires Valid()
      modifies this
      ensures Valid()
      ensures r == if Known(old(rows), e.id) then Refused(Exists)
                   else if e.host == "" then NoHost
                   else if AddOutcome(fold, old(rows), e) != Added then Refused(AddOutcome(fold, old(rows), e))
                   else if launches then Started else LaunchFailed
      ensures rows == if r == Started then old(rows) + [e.(state := Running)] else old(rows)
    {
      for i := 0 to |rows|
        invariant forall k :: 0 <= k < i ==> rows[k].id != e.id
      {
        if rows[i].id == e.id {
          return Refused(Exists);
        }
      }
      if e.host == "" {
        return NoHost;
      }
      ghost var before := rows;
      var added := Add(e);
      if added != Added {
        return Refused(added);
      }
      assert rows[|before|].id == e.id && rows[..|before|] == before;
      if !launches {
        Delete(e.id);
        return LaunchFailed;
      }
      var found := MarkLaunched(e.id);
      assert rows == before + [e.(state := Running)];
      return Started;
    }

    /** Folds one reading of the agent's status file, and of its session, into the state: done when
        the agent says so, else achieved when its session is, else what its word stands for. */
    method Ingest(id: string, word: string, sessionAchieved: bool) returns (found: bool)
      requires Valid()
      modifies this
      ensures Valid() && rows == Applied(fold, old(rows), Ingesting(id, word, sessionAchieved))
      ensures found <==> Known(old(rows), id)
      ensures forall i :: 0 <= i < |old(rows)| && old(rows)[i].id == id ==>
        OnlyMoves(old(rows), rows, id, IngestedState(old(rows)[i].state, word, sessionAchieved))
      ensures Exclusive(fold, old(rows)) ==>
        (Exclusive(fold, rows) <==> !Revives(fold, old(rows), Ingesting(id, word, sessionAchieved)))
    {
      hide Exclusive, WithState, OnlyMoves, FreeFor, IngestedState;
      StateOperationIf(fold, rows, Ingesting(id, word, sessionAchieved));
      var i := Find(rows, id);
      if i == |rows| {
        return false;
      }
      found := SetState(id, IngestedState(rows[i].state, word, sessionAchieved));
    }
  }

  /** The named epic is in state s; nothing else about it, and nothing about any other, changed. */
  predicate OnlyMoves(before: seq<Epic>, now: seq<Epic>, id: string, s: EpicState) {
    && |now| == |before|
    && forall i :: 0 <= i < |before| ==> now[i] == if before[i].id == id then before[i].(state := s) else before[i]
  }

  /** Found or not, setting a state moves the named row only. */
  lemma MovesOne(rows: seq<Epic>, id: string, s: EpicState)
    requires DistinctIds(rows)
    ensures Find(rows, id) < |rows| <==> Known(rows, id)
    ensures DistinctIds(WithState(rows, id, s)) && OnlyMoves(rows, WithState(rows, id, s), id, s)
    ensures !Known(rows, id) ==> OnlyMoves(rows, rows, id, s)
  {
  }

  /** Without the named row nothing is left out, and the order stays. */
  lemma {:induction false} WithoutNone(rows: seq<Epic>, id: string)
    requires forall i :: 0 <= i < |rows| ==> rows[i].id != id
    ensures Without(rows, id) == rows
  {
    if rows != [] {
      WithoutNone(rows[1..], id);
      assert [rows[0]] + rows[1..] == rows;
    }
  }

  lemma {:induction false} WithoutOne(rows: seq<Epic>, id: string, i: nat)
    requires DistinctIds(rows) && i < |rows| && rows[i].id == id
    ensures Without(rows, id) == rows[..i] + rows[i + 1..]
  {
    if i == 0 {
      WithoutNone(rows[1..], id);
      assert rows[..0] + rows[1..] == rows[1..];
    } else {
      WithoutOne(rows[1..], id, i - 1);
      assert [rows[0]] + (rows[1..][..i - 1] + rows[1..][i..]) == rows[..i] + rows[i + 1..];
    }
  }

  /** Deleting takes the named row out of the list. */
  lemma WithoutRemoves(rows: seq<Epic>, id: string)
    requires DistinctIds(rows)
    ensures !Known(rows, id) ==> Without(rows, id) == rows
    ensures forall i :: 0 <= i < |rows| && rows[i].id == id ==> Without(rows, id) == rows[..i] + rows[i + 1..]
  {
    if !Known(rows, id) {
      WithoutNone(rows, id);
    }
    forall i | 0 <= i < |rows| && rows[i].id == id ensures Without(rows, id) == rows[..i] + rows[i + 1..] {
      WithoutOne(rows, id, i);
    }
  }

  lemma {:induction false} WithoutKeepsIds(rows: seq<Epic>, id: string)
    requires DistinctIds(rows)
    ensures DistinctIds(Without(rows, id))
  {
    if rows != [] {
      WithoutKeepsIds(rows[1..], id);
      var rest := Without(rows[1..], id);
      forall k | 0 <= k < |rest| ensures rest[k].id != rows[0].id {
        assert rest[k] in rest;
        var m :| 0 <= m < |rows[1..]| && rows[1..][m] == rest[k];
        assert rows[m + 1] == rest[k];
      }
    }
  }

  // ---- exclusion ---------------------------------------------------------------------------

  lemma ClashIsSymmetric(fold: Fold, a: Epic, b: Epic)
    ensures Clash(fold, a, b) <==> Clash(fold, b, a)
  {
  }

  /** A registration keeps exclusion, and none is refused that would have: with a new id an epic is
      added exactly if it clashes with no active one, and a refusal names what it clashes over. */
  lemma AddKeepsExclusion(fold: Fold, rows: seq<Epic>, e: Epic)
    requires Exclusive(fold, rows)
    ensures var r := AddOutcome(fold, rows, e);
      && (r == Added <==> e.id != "" && !Known(rows, e.id) && Exclusive(fold, rows + [e.(state := Launching)]))
      && (r == HostBusy ==> exists i :: 0 <= i < |rows| && Active(rows[i].state) && rows[i].host == e.host != "")
      && (r == ScopeTaken ==>
            exists i :: 0 <= i < |rows| && Active(rows[i].state) && rows[i].repo == e.repo && Overlap(fold, e.scope, rows[i].scope))
      && (r == NoId <==> e.id == "")
      && (r == Exists ==> Known(rows, e.id))
  {
    hide Overlap;
    var n := |rows|;
    var all := rows + [e.(state := Launching)];
    forall i | 0 <= i < n ensures Clash(fold, all[n], rows[i]) == Clash(fold, rows[i], all[n]) == Clash(fold, e, rows[i]) {
      ClashIsSymmetric(fold, all[n], rows[i]);
    }
    assert forall i :: 0 <= i < n ==> all[i] == rows[i];
    assert Exclusive(fold, all) <==> forall i :: 0 <= i < n && Active(rows[i].state) ==> !Clash(fold, rows[i], e) by {
      forall i | 0 <= i < n && Active(rows[i].state) ensures Exclusive(fold, all) ==> !Clash(fold, rows[i], e) {
        if Exclusive(fold, all) {
          assert Active(all[i].state) && Active(all[n].state) && !Clash(fold, all[i], all[n]);
        }
      }
    }
  }

  /** Setting an epic's state keeps exclusion exactly when the state is not an active one, the
      epic was active already, or nothing active clashes with it. */
  lemma SetStateKeepsExclusion(fold: Fold, rows: seq<Epic>, i: nat, s: EpicState)
    requires DistinctIds(rows) && Exclusive(fold, rows) && i < |rows|
    ensures Exclusive(fold, WithState(rows, rows[i].id, s))
      <==> (!Active(s) || Active(rows[i].state) || FreeFor(fold, rows, i))
  {
    hide Clash;
    var next := WithState(rows, rows[i].id, s);
    assert forall k :: 0 <= k < |rows| && k != i ==> next[k] == rows[k];
    forall k | 0 <= k < |rows| && k != i
      ensures Clash(fold, next[i], rows[k]) == Clash(fold, rows[k], next[i]) == Clash(fold, rows[i], rows[k])
    {
      ClashIsSymmetric(fold, next[i], rows[k]);
      ClashIgnoresState(fold, rows[i], rows[k], s);
    }
    if Active(s) && !Active(rows[i].state) && !FreeFor(fold, rows, i) {
      var k :| 0 <= k < |rows| && k != i && Active(rows[k].state) && Clash(fold, rows[i], rows[k]);
      assert Active(next[i].state) && Active(next[k].state) && Clash(fold, next[i], next[k]);
    }
  }

  lemma ClashIgnoresState(fold: Fold, a: Epic, b: Epic, s: EpicState)
    ensures Clash(fold, a.(state := s), b) == Clash(fold, a, b)
  {
  }

  lemma {:induction false} DeleteKeepsExclusion(fold: Fold, rows: seq<Epic>, id: string)
    requires DistinctIds(rows) && Exclusive(fold, rows)
    ensures Exclusive(fold, Without(rows, id))
  {
    hide Clash;
    var next := Without(rows, id);
    WithoutKeepsIds(rows, id);
    forall i, k | 0 <= i < |next| && 0 <= k < |next| && i != k && Active(next[i].state) && Active(next[k].state)
      ensures !Clash(fold, next[i], next[k])
    {
      assert next[i] in next && next[k] in next;
      var m :| 0 <= m < |rows| && rows[m] == next[i];
      var n :| 0 <= n < |rows| && rows[n] == next[k];
      assert next[i].id != next[k].id;
    }
  }

  // ---- over runs -----------------------------------------------------------------------------

  datatype Operation =
    | Registering(epic: Epic)
    | Deleting(id: string)
    | Abandoning(id: string)
    | Launched(id: string)
    | Ingesting(id: string, word: string, sessionAchieved: bool)

  function Find(rows: seq<Epic>, id: string): (i: nat)
    ensures i <= |rows| && (i < |rows| ==> rows[i].id == id) && (forall k :: 0 <= k < i ==> rows[k].id != id)
  {
    if rows == [] || rows[0].id == id then 0
    else
      var i := Find(rows[1..], id);
      assert forall k :: 1 <= k < i + 1 ==> rows[k] == rows[1..][k - 1];
      i + 1
  }

  /** The state an operation puts a listed epic in. */
  function StateSet(op: Operation, cur: EpicState): EpicState
    requires !op.Registering? && !op.Deleting?
  {
    match op
    case Abandoning(_) => Abandoned
    case Launched(_) => Running
    case Ingesting(_, word, achieved) => IngestedState(cur, word, achieved)
  }

  function Applied(fold: Fold, rows: seq<Epic>, op: Operation): seq<Epic> {
    match op
    case Registering(e) => if AddOutcome(fold, rows, e) == Added then rows + [e.(state := Launching)] else rows
    case Deleting(id) => Without(rows, id)
    case _ =>
      var i := Find(rows, op.id);
      if i == |rows| then rows else WithState(rows, op.id, StateSet(op, rows[i].state))
  }

  function Registered(fold: Fold, ops: seq<Operation>): seq<Epic> {
    if ops == [] then [] else Applied(fold, Registered(fold, ops[..|ops| - 1]), ops[|ops| - 1])
  }

  /** The operation reactivates an epic that had let go of its host and scope, while another
      active epic holds one of them. */
  predicate Revives(fold: Fold, rows: seq<Epic>, op: Operation) {
    !op.Registering? && !op.Deleting? &&
    var i := Find(rows, op.id);
    i < |rows| && !Active(rows[i].state) && Active(StateSet(op, rows[i].state)) && !FreeFor(fold, rows, i)
  }

  lemma AddKeepsIds(rows: seq<Epic>, e: Epic)
    requires DistinctIds(rows) && !Known(rows, e.id)
    ensures DistinctIds(rows + [e.(state := Launching)])
  {
  }

  lemma StateOperation(fold: Fold, rows: seq<Epic>, op: Operation)
    requires !op.Registering? && !op.Deleting? && DistinctIds(rows) && Exclusive(fold, rows)
    ensures DistinctIds(Applied(fold, rows, op))
    ensures Exclusive(fold, Applied(fold, rows, op)) <==> !Revives(fold, rows, op)
  {
    hide FreeFor, StateSet, Exclusive, AddOutcome, Without;
    var i := Find(rows, op.id);
    if i < |rows| {
      SetStateKeepsExclusion(fold, rows, i, StateSet(op, rows[i].state));
    }
  }

  lemma StateOperationIf(fold: Fold, rows: seq<Epic>, op: Operation)
    requires !op.Registering? && !op.Deleting? && DistinctIds(rows)
    ensures Exclusive(fold, rows) ==> (Exclusive(fold, Applied(fold, rows, op)) <==> !Revives(fold, rows, op))
  {
    hide Exclusive, Revives, Applied;
    if Exclusive(fold, rows) {
      StateOperation(fold, rows, op);
    }
  }

  lemma OperationKeepsExclusion(fold: Fold, rows: seq<Epic>, op: Operation)
    requires DistinctIds(rows) && Exclusive(fold, rows)
    ensures DistinctIds(Applied(fold, rows, op))
    ensures Exclusive(fold, Applied(fold, rows, op)) <==> !Revives(fold, rows, op)
  {
    hide StateSet, Exclusive, HostFree, ScopeFree, DistinctIds, Known, WithState;
    match op
    case Registering(e) =>
      if AddOutcome(fold, rows, e) == Added {
        AddKeepsExclusion(fold, rows, e);
        AddKeepsIds(rows, e);
      }
    case Deleting(id) =>
      WithoutKeepsIds(rows, id);
      DeleteKeepsExclusion(fold, rows, id);
    case _ => StateOperation(fold, rows, op);
  }

  /** No operation of the run revives a clashing epic. */
  predicate NothingRevived(fold: Fold, ops: seq<Operation>) {
    forall n: nat :: n < |ops| ==> !Revives(fold, Registered(fold, ops[..n]), ops[n])
  }

  /** Exclusion holds at every point of the run. */
  predicate AlwaysExclusive(fold: Fold, ops: seq<Operation>) {
    forall n: nat :: n <= |ops| ==> Exclusive(fold, Registered(fold, ops[..n]))
  }

  /** One more operation keeps ids distinct, and exclusion exactly when it revives nothing. */
  lemma RunStep(fold: Fold, ops: seq<Operation>, n: nat)
    requires n < |ops| && DistinctIds(Registered(fold, ops[..n])) && Exclusive(fold, Registered(fold, ops[..n]))
    ensures DistinctIds(Registered(fold, ops[..n + 1]))
    ensures Exclusive(fold, Registered(fold, ops[..n + 1])) <==> !Revives(fold, Registered(fold, ops[..n]), ops[n])
  {
    hide Revives, Applied, DistinctIds, Exclusive, Registered;
    RunExtends(fold, ops[..n], ops[n]);
    assert ops[..n] + [ops[n]] == ops[..n + 1];
    OperationKeepsExclusion(fold, Registered(fold, ops[..n]), ops[n]);
  }

  lemma {:induction false} UnrevivedStaysExclusive(fold: Fold, ops: seq<Operation>, n: nat)
    requires NothingRevived(fold, ops) && n <= |ops|
    ensures DistinctIds(Registered(fold, ops[..n])) && Exclusive(fold, Registered(fold, ops[..n]))
  {
    hide Revives, DistinctIds, Exclusive;
    if n == 0 {
      NothingClashes(fold);
    } else {
      hide Registered;
      UnrevivedStaysExclusive(fold, ops, n - 1);
      RunStep(fold, ops, n - 1);
    }
  }

  lemma {:induction false} ExclusiveKeepsIds(fold: Fold, ops: seq<Operation>, n: nat)
    requires AlwaysExclusive(fold, ops) && n <= |ops|
    ensures DistinctIds(Registered(fold, ops[..n]))
  {
    hide Revives, DistinctIds, Exclusive;
    if n == 0 {
      NothingClashes(fold);
    } else {
      hide Registered;
      ExclusiveKeepsIds(fold, ops, n - 1);
      RunStep(fold, ops, n - 1);
    }
  }

  /** Along a run no two active epics ever clash exactly when no operation revives a clashing
      one. */
  lemma ReservationsHoldExactly(fold: Fold, ops: seq<Operation>)
    ensures AlwaysExclusive(fold, ops) <==> NothingRevived(fold, ops)
  {
    hide Revives, DistinctIds, Exclusive, Registered;
    if NothingRevived(fold, ops) {
      forall n: nat | n <= |ops| ensures Exclusive(fold, Registered(fold, ops[..n])) {
        UnrevivedStaysExclusive(fold, ops, n);
      }
    }
    if AlwaysExclusive(fold, ops) {
      forall n: nat | n < |ops| ensures !Revives(fold, Registered(fold, ops[..n]), ops[n]) {
        ExclusiveKeepsIds(fold, ops, n);
        RunStep(fold, ops, n);
      }
    }
  }

  lemma NothingClashes(fold: Fold)
    ensures DistinctIds([]) && Exclusive(fold, [])
  {
  }

  /** In every reachable registry no host holds two active epics, and no path is claimed by two
      active epics of one repository - as long as no operation revived an epic in the meantime. */
  lemma ReservationsHold(fold: Fold, ops: seq<Operation>, i: nat, k: nat)
    requires NothingRevived(fold, ops)
    requires i < |Registered(fold, ops)| && k < |Registered(fold, ops)| && i != k
    requires Active(Registered(fold, ops)[i].state) && Active(Registered(fold, ops)[k].state)
    ensures var a, b := Registered(fold, ops)[i], Registered(fold, ops)[k];
      && (a.host != "" ==> a.host != b.host)
      && (a.repo == b.repo ==> !ShareAPath(fold, a.scope, b.scope))
  {
    hide Registered, Overlap, ShareAPath;
    UnrevivedStaysExclusive(fold, ops, |ops|);
    assert ops[..|ops|] == ops;
    var a, b := Registered(fold, ops)[i], Registered(fold, ops)[k];
    if ShareAPath(fold, a.scope, b.scope) {
      OverlapIsSound(fold, a.scope, b.scope);
    }
  }

  /** The gap is real: an epic abandoned while its launch is still under way comes back running,
      on a host that was given away in between. */
  lemma AbandonedLaunchRevives(fold: Fold, a: Epic, b: Epic)
    requires a.id != "" && b.id != "" && a.id != b.id && a.host != "" && a.host == b.host
    ensures var rows := Registered(fold, [Registering(a), Abandoning(a.id), Registering(b), Launched(a.id)]);
      |rows| == 2 && rows[0] == a.(state := Running) && rows[1] == b.(state := Launching) && !Exclusive(fold, rows)
  {
    hide Registered, Applied, WithState, AddOutcome;
    var ops1 := [] + [Registering(a)];
    var ops2 := ops1 + [Abandoning(a.id)];
    var ops3 := ops2 + [Registering(b)];
    var ops4 := ops3 + [Launched(a.id)];
    assert ops4 == [Registering(a), Abandoning(a.id), Registering(b), Launched(a.id)];
    var gone, r3 := a.(state := Abandoned), [a.(state := Abandoned), b.(state := Launching)];
    RunExtends(fold, [], Registering(a));
    FirstRegisters(fold, a);
    RunExtends(fold, ops1, Abandoning(a.id));
    FirstIsSet(fold, [a.(state := Launching)], Abandoning(a.id));
    assert Registered(fold, ops2) == [gone];
    RunExtends(fold, ops2, Registering(b));
    SecondRegisters(fold, gone, b);
    RunExtends(fold, ops3, Launched(a.id));
    FirstIsSet(fold, r3, Launched(a.id));
    var r4 := [a.(state := Running), b.(state := Launching)];
    assert Registered(fold, ops4) == r4;
    assert Active(r4[0].state) && Active(r4[1].state) && Clash(fold, r4[0], r4[1]);
  }

  lemma RunExtends(fold: Fold, ops: seq<Operation>, op: Operation)
    ensures Registered(fold, ops + [op]) == Applied(fold, Registered(fold, ops), op)
  {
  }

  lemma FirstRegisters(fold: Fold, a: Epic)
    requires a.id != ""
    ensures Applied(fold, Registered(fold, []), Registering(a)) == [a.(state := Launching)]
  {
  }

  lemma SecondRegisters(fold: Fold, gone: Epic, b: Epic)
    requires b.id != "" && gone.id != b.id && !Active(gone.state)
    ensures Applied(fold, [gone], Registering(b)) == [gone, b.(state := Launching)]
  {
  }

  lemma FirstIsSet(fold: Fold, rows: seq<Epic>, op: Operation)
    requires rows != [] && DistinctIds(rows) && (op.Abandoning? || op.Launched?) && op.id == rows[0].id
    ensures Applied(fold, rows, op) == [rows[0].(state := StateSet(op, rows[0].state))] + rows[1..]
  {
  }
}
