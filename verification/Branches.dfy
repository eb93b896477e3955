/** The optimistic commit loop over the Git data API (internal/github/github.go, PutFiles),
    against a branch that other writers move between any two calls. */
module Branches {
  import opened Jobs

  type Tree = map<string, string>

  /** A commit and its history. Trees and commits are content-addressed, so equality of ids is
      equality of contents. */
  datatype Commit = Commit(tree: Tree, parent: Option<Commit>)

  /** d is c or one of its ancestors. */
  predicate Descends(c: Commit, d: Commit) {
    c == d || (c.parent.Some? && Descends(c.parent.value, d))
  }

  const UNPROCESSABLE := 422
  const MAX_ATTEMPTS := 5

  predicate Holds(tree: Tree, files: Tree) {
    forall p :: p in files ==> p in tree && tree[p] == files[p]
  }

  /** A call that failed: whether it was the ref update, whether the failure was injected (the one
      other is an update that lost the race), its status, and how many tips the branch had had. */
  datatype Failure = Failure(update: bool, injected: bool, status: int, tips: nat)

  /** The ref update was answered with 422: as for a branch that moved. */
  predicate Retryable(f: Failure) { f.update && f.status == UNPROCESSABLE }

  /** The failures after one more call, answered with status when the branch had had that many tips. */
  function Grown(fs: seq<Failure>, update: bool, injected: bool, status: int, tips: nat): seq<Failure> {
    if status == 0 then fs else fs + [Failure(update, injected, status, tips)]
  }

  /** The remote branch. `others` is what other writers commit before each call, `faults` the
      status a call fails with (0 for none), `unnamed` whether a tree created by the call is
      answered without its id; all are arbitrary. A ref update that fails is not applied. */
  class Remote {
    const others: nat -> seq<Tree>
    const faults: nat -> int
    const unnamed: nat -> bool
    var calls: nat
    var tip: Commit
    /** How many created trees were answered without an id. */
    var lost: nat
    /** Every tip the branch has had, and which of them this client put there. */
    ghost var history: seq<Commit>
    ghost var ours: set<nat>
    ghost var failures: seq<Failure>

    /** The branch has only ever fast-forwarded: each tip descends from the one before it, so no
        commit that was ever on it is lost. */
    ghost predicate Valid()
      reads this
    {
      && history != [] && history[|history| - 1] == tip
      && (forall i :: 0 < i < |history| ==> Descends(history[i], history[i - 1]))
      && (forall k :: k in ours ==> 0 < k < |history|)
    }

    constructor (tip: Commit, others: nat -> seq<Tree>, faults: nat -> int, unnamed: nat -> bool)
      ensures Valid() && this.tip == tip && history == [tip] && ours == {} && lost == 0 && failures == []
    {
      this.tip, this.others, this.faults, this.unnamed, calls, lost := tip, others, faults, unnamed, 0, 0;
      history, ours, failures := [tip], {}, [];
    }

    /** Other writers' commits land, each on the tip of its moment. */
    method Interfere()
      requires Valid()
      modifies this
      ensures Valid() && old(history) <= history && ours == old(ours) && calls == old(calls) + 1 && lost == old(lost)
      ensures failures == old(failures)
    {
      var trees := others(calls);
      calls := calls + 1;
      for i := 0 to |trees|
        invariant Valid() && old(history) <= history && ours == old(ours) && calls == old(calls) + 1 && lost == old(lost)
        invariant failures == old(failures)
      {
        tip := Commit(trees[i], Some(tip));
        history := history + [tip];
      }
    }

    method ReadRef() returns (status: int, c: Commit)
      requires Valid()
      modifies this
      ensures Valid() && old(history) <= history && ours == old(ours) && lost == old(lost)
      ensures status == 0 ==> c == tip
      ensures failures == Grown(old(failures), false, true, status, |history|)
    {
      status := faults(calls);
      Interfere();
      failures := Grown(failures, false, true, status, |history|);
      c := tip;
    }

    /** A call that reads or creates an object: it can fail, and time passes. */
    method Touch() returns (status: int)
      requires Valid()
      modifies this
      ensures Valid() && old(history) <= history && ours == old(ours) && lost == old(lost)
      ensures failures == Grown(old(failures), false, true, status, |history|)
    {
      status := faults(calls);
      Interfere();
      failures := Grown(failures, false, true, status, |history|);
    }

    /** Creates a tree: the base with the files put on top. */
    method CreateTree(base: Tree, files: Tree) returns (status: int, tree: Option<Tree>)
      requires Valid()
      modifies this
      ensures Valid() && old(history) <= history && ours == old(ours)
      ensures status == 0 && tree.Some? ==> tree.value == base + files
      ensures lost == if status == 0 && tree.None? then old(lost) + 1 else old(lost)
      ensures failures == Grown(old(failures), false, true, status, |history|)
    {
      var noId := unnamed(calls);
      status := faults(calls);
      Interfere();
      failures := Grown(failures, false, true, status, |history|);
      if status != 0 || noId {
        tree := None;
        lost := if status == 0 then lost + 1 else lost;
      } else {
        tree := Some(base + files);
      }
    }

    /** Moves the branch to c if that is a fast-forward; otherwise 422. */
    method UpdateRef(c: Commit) returns (status: int, ghost injected: bool)
      requires Valid()
      modifies this
      ensures Valid() && old(history) <= history && lost == old(lost)
      ensures status != 0 ==> ours == old(ours)
      ensures status == 0 ==> tip == c && (ours == old(ours) || Landed(old(|history|), old(ours), c))
      ensures failures == Grown(old(failures), true, injected, status, |history|)
      ensures status != 0 && !injected ==> status == UNPROCESSABLE && !Descends(c, tip)
    {
      status := faults(calls);
      injected := status != 0;
      Interfere();
      if status == 0 && tip != c {
        if Descends(c, tip) {
          tip := c;
          history := history + [c];
          ours := ours + {|history| - 1};
        } else {
          status := UNPROCESSABLE;
        }
      }
      failures := Grown(failures, true, injected, status, |history|);
    }

    /** c is the newest tip, put there by this client after the first n, on top of another. */
    ghost predicate Landed(n: nat, before: set<nat>, c: Commit)
      reads this
    {
      var k := |history| - 1;
      n <= k && k >= 1 && ours == before + {k} && history[k] == c && history[k - 1] != c && Descends(c, history[k - 1])
    }
  }

  // ---- ancestry --------------------------------------------------------------------------

  function Depth(c: Commit): nat {
    if c.parent.None? then 0 else 1 + Depth(c.parent.value)
  }

  lemma {:induction false} DescentIsDeeper(c: Commit, d: Commit)
    requires Descends(c, d)
    ensures Depth(d) <= Depth(c) && (Depth(d) == Depth(c) ==> c == d)
  {
    if c != d {
      DescentIsDeeper(c.parent.value, d);
    }
  }

  lemma {:induction false} DescentChains(b: Commit, c: Commit, d: Commit)
    requires Descends(b, c) && Descends(c, d)
    ensures Descends(b, d)
  {
    if b != c {
      DescentChains(b.parent.value, c, d);
    }
  }

  lemma {:induction false} TipsDescend(history: seq<Commit>, i: nat, k: nat)
    requires forall j :: 0 < j < |history| ==> Descends(history[j], history[j - 1])
    requires i <= k < |history|
    ensures Descends(history[k], history[i])
    decreases k
  {
    if i < k {
      TipsDescend(history, i, k - 1);
      DescentChains(history[k], history[k - 1], history[i]);
    }
  }

  /** A commit built on an earlier tip can only land on that very tip. */
  lemma LandsOnItsParent(c: Commit, parent: Commit, tip: Commit)
    requires c.parent == Some(parent) && Descends(c, tip) && c != tip && Descends(tip, parent)
    ensures tip == parent
  {
    DescentIsDeeper(parent, tip);
    DescentIsDeeper(tip, parent);
  }

  // ---- the commit loop ---------------------------------------------------------------------

  /** Entry k of the history is a commit of exactly these files on the tip before it. */
  predicate CommitsFiles(history: seq<Commit>, k: nat, files: Tree)
    requires 0 < k < |history|
  {
    history[k] == Commit(history[k - 1].tree + files, Some(history[k - 1]))
  }

  /** What the failures of a call make of its result: refused ref updates are retried, up to the
      last attempt, and nothing else is. */
  predicate Answers(fs: seq<Failure>, err: int) {
    if err == 0 then |fs| < MAX_ATTEMPTS && forall f :: f in fs ==> Retryable(f)
    else
      && 0 < |fs| <= MAX_ATTEMPTS && err == fs[|fs| - 1].status
      && (forall f :: f in fs[..|fs| - 1] ==> Retryable(f))
      && (Retryable(fs[|fs| - 1]) ==> |fs| == MAX_ATTEMPTS)
  }

  /** The tips the branch had had when attempt i began. */
  function TipsBefore(fs: seq<Failure>, i: nat, tips: nat): nat
    requires i <= |fs|
  {
    if i == 0 then tips else fs[i - 1].tips
  }

  /** A failure that nobody injected is a ref update refused because the branch moved since the
      failure before it, or since it had had that many tips. */
  predicate RacesAreMoves(fs: seq<Failure>, tips: nat) {
    forall i :: 0 <= i < |fs| && !fs[i].injected ==> Retryable(fs[i]) && fs[i].tips > TipsBefore(fs, i, tips)
  }

  /** The failures of a call that is still trying, from a branch of `from` tips to one of `to`. */
  predicate Trying(fs: seq<Failure>, from: nat, to: nat) {
    from <= to && RacesAreMoves(fs, from) && forall f :: f in fs ==> Retryable(f) && f.tips <= to
  }

  lemma OneMoreFailure(fs: seq<Failure>, from: nat, to: nat, f: Failure)
    requires Trying(fs, from, to) && |fs| < MAX_ATTEMPTS
    requires f.status != 0 && f.tips >= to && (f.injected || (Retryable(f) && f.tips > to))
    ensures RacesAreMoves(fs + [f], from) && forall g :: g in fs + [f] ==> g.tips <= f.tips
    ensures Retryable(f) ==> Trying(fs + [f], from, f.tips)
    ensures !Retryable(f) || |fs + [f]| == MAX_ATTEMPTS ==> Answers(fs + [f], f.status)
  {
    var all := fs + [f];
    assert all[..|all| - 1] == fs;
    assert fs != [] ==> fs[|fs| - 1] in fs;
    assert forall i :: 0 <= i < |fs| ==> all[i] == fs[i] && TipsBefore(all, i, from) == TipsBefore(fs, i, from);
  }

  lemma {:induction false} RacesAddUp(fs: seq<Failure>, from: nat, n: nat)
    requires RacesAreMoves(fs, from) && n <= |fs| && forall i :: 0 <= i < |fs| ==> !fs[i].injected
    ensures TipsBefore(fs, n, from) >= from + n
  {
    if n > 0 {
      RacesAddUp(fs, from, n - 1);
    }
  }

  /** When no call fails of itself, only a branch that moves in every one of the attempts defeats a
      commit. */
  lemma OnlyMovesDefeat(fs: seq<Failure>, err: int, from: nat, to: nat)
    requires Answers(fs, err) && RacesAreMoves(fs, from) && forall f :: f in fs ==> !f.injected && f.tips <= to
    ensures err == 0 || (err == UNPROCESSABLE && |fs| == MAX_ATTEMPTS && to >= from + MAX_ATTEMPTS)
  {
    if err != 0 {
      var n := |fs| - 1;
      assert fs[n] in fs;
      RacesAddUp(fs, from, |fs|);
    }
  }

  /** The history after an attempt that started at `from` tips holds its commit, if it made one. */
  ghost predicate Committed(r: Remote, files: Tree, from: nat, before: set<nat>)
    reads r
    requires from > 0
  {
    r.ours == before || exists k :: from <= k < |r.history| && r.ours == before + {k} && CommitsFiles(r.history, k, files)
  }

  /** At some instant since then the tip held every file. */
  ghost predicate HeldSince(r: Remote, files: Tree, from: nat)
    reads r
  {
    exists i :: from <= i < |r.history| && Holds(r.history[i].tree, files)
  }

  /** One attempt: read the tip, build on it, move the ref. status is 0 or that of the call that
      failed, refused whether that was the ref update. */
  method TryOnce(r: Remote, files: Tree) returns (refused: bool, status: int, ghost injected: bool)
    requires r.Valid()
    modifies r
    ensures r.Valid() && old(r.history) <= r.history
    ensures status == 0 && r.lost == old(r.lost) ==> HeldSince(r, files, |old(r.history)| - 1)
    ensures r.lost != old(r.lost) ==> status == 0 && r.lost == old(r.lost) + 1 && r.ours == old(r.ours)
    ensures Committed(r, files, |old(r.history)|, old(r.ours))
    ensures status != 0 ==> r.ours == old(r.ours)
    ensures r.failures == Grown(old(r.failures), refused, injected, status, |r.history|)
    ensures status != 0 && !injected ==> refused && status == UNPROCESSABLE && |r.history| > |old(r.history)|
  {
    refused, injected := false, true;
    var parent;
    status, parent := r.ReadRef();
    if status != 0 {
      return;
    }
    ghost var seen := |r.history| - 1;
    assert r.history[seen] == parent;
    status := r.Touch();
    if status != 0 {
      return;
    }
    var tree;
    status, tree := r.CreateTree(parent.tree, files);
    if status != 0 || tree.None? {
      return;
    }
    assert r.history[seen] == parent;
    if tree.value == parent.tree {
      assert Holds(r.history[seen].tree, files) by { Unchanged(parent.tree, files); }
      return;
    }
    status := r.Touch();
    if status != 0 {
      return;
    }
    var c := Commit(tree.value, Some(parent));
    refused := true;
    status, injected := r.UpdateRef(c);
    ghost var last := |r.history| - 1;
    if status == 0 {
      assert Holds(r.history[last].tree, files);
      if r.ours != old(r.ours) {
        TipsDescend(r.history, seen, last - 1);
        LandsOnItsParent(c, parent, r.history[last - 1]);
        assert CommitsFiles(r.history, last, files);
      }
    } else if !injected {
      assert Descends(c, parent);
    }
  }

  /** Commits a set of files in one commit on the branch tip, retrying when the tip moved. A
      result of 0 is success, anything else the failing status. */
  method PutFiles(r: Remote, files: Tree) returns (err: int)
    requires r.Valid()
    modifies r
    // the branch only fast-forwards, whoever moves it
    ensures r.Valid() && old(r.history) <= r.history
    // success: at some instant during the call the tip held every file - unless the remote
    // answered a created tree without its id, which ends the call in success with nothing done
    ensures err == 0 && r.lost == old(r.lost) ==> HeldSince(r, files, |old(r.history)| - 1)
    ensures r.lost != old(r.lost) ==> err == 0 && r.lost == old(r.lost) + 1 && r.ours == old(r.ours)
    // at most one commit landed, made of exactly these files on the tip it replaced
    ensures Committed(r, files, |old(r.history)|, old(r.ours))
    // an error means none did
    ensures err != 0 ==> r.ours == old(r.ours)
    // it errs exactly on a failure that is not a refused update, with its status, or on the refusal
    // of the last attempt; a refusal nobody injected is a race lost during that very attempt
    ensures old(r.failures) <= r.failures && Answers(r.failures[|old(r.failures)|..], err)
    ensures RacesAreMoves(r.failures[|old(r.failures)|..], |old(r.history)|)
    // so with no call failing of itself, only a branch that moves in every attempt defeats it
    ensures err == 0 || (exists f :: f in r.failures[|old(r.failures)|..] && f.injected)
      || (err == UNPROCESSABLE && |r.history| >= |old(r.history)| + MAX_ATTEMPTS)
  {
    hide Answers, Trying, RacesAreMoves, Committed, HeldSince;
    ghost var from, n := |r.history|, |r.failures|;
    ghost var fs: seq<Failure> := [];
    assert Trying(fs, from, from) && Answers(fs, 0) && RacesAreMoves(fs, from) && Committed(r, files, from, r.ours) by {
      NoFailures(from);
      NothingCommitted(r, files, from);
    }
    assert r.failures[n..] == fs;
    if files == map[] {
      assert HeldSince(r, files, from - 1) by { NoFilesHeld(r); }
      return 0;
    }
    var attempt := 0;
    while attempt < MAX_ATTEMPTS
      invariant 0 <= attempt < MAX_ATTEMPTS
      invariant r.Valid() && old(r.history) <= r.history && r.ours == old(r.ours) && r.lost == old(r.lost)
      invariant old(r.failures) <= r.failures && r.failures[n..] == fs && |fs| == attempt
      invariant Trying(fs, from, |r.history|)
      decreases MAX_ATTEMPTS - attempt
    {
      ghost var tips := |r.history|;
      var refused, status, injected := TryOnce(r, files);
      if status == 0 {
        CommittedEarlier(r, files, from, tips, old(r.ours));
        StillAnswers(fs, from, tips);
        return 0;
      }
      ghost var f := Failure(refused, injected, status, |r.history|);
      OneMoreFailure(fs, from, tips, f);
      fs := fs + [f];
      assert r.failures[n..] == fs;
      NothingCommitted(r, files, from);
      if attempt < MAX_ATTEMPTS - 1 && refused && status == UNPROCESSABLE {
        attempt := attempt + 1;
        continue;
      }
      if forall g :: g in fs ==> !g.injected {
        OnlyMovesDefeat(fs, status, from, |r.history|);
      }
      return status;
    }
    return UNPROCESSABLE;
  }

  lemma NoFailures(from: nat)
    ensures Trying([], from, from) && Answers([], 0) && RacesAreMoves([], from)
  {
  }

  lemma StillAnswers(fs: seq<Failure>, from: nat, to: nat)
    requires Trying(fs, from, to) && |fs| < MAX_ATTEMPTS
    ensures Answers(fs, 0) && RacesAreMoves(fs, from)
  {
  }

  lemma NothingCommitted(r: Remote, files: Tree, from: nat)
    requires from > 0
    ensures Committed(r, files, from, r.ours)
  {
  }

  lemma CommittedEarlier(r: Remote, files: Tree, from: nat, later: nat, before: set<nat>)
    requires 0 < from <= later
    ensures Committed(r, files, later, before) ==> Committed(r, files, from, before)
    ensures HeldSince(r, files, later - 1) ==> HeldSince(r, files, from - 1)
  {
  }

  lemma NoFilesHeld(r: Remote)
    requires r.Valid()
    ensures HeldSince(r, map[], |r.history| - 1)
  {
    assert Holds(r.history[|r.history| - 1].tree, map[]);
  }

  lemma Unchanged(base: Tree, files: Tree)
    requires base + files == base
    ensures Holds(base, files)
  {
  }
}
