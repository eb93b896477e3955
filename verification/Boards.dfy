/** The batched board read (internal/github/github.go, BoardSweep and accumulate): two cursors
    advance over one server at once, and pages are merged without repeating a number. */
module Boards {
  import opened Jobs

  datatype Item = Item(number: int, content: string)

  /** A pull request in the snapshot; the flag marks one closed without merging. */
  datatype Entry = Entry(item: Item, closedUnmerged: bool)

  datatype Snapshot = Snapshot(prs: seq<Entry>, issues: seq<Item>)

  /** One page of a connection. */
  datatype Connection = Connection(nodes: seq<Item>, hasNext: bool, endCursor: string)

  datatype Reply =
    | Failed
    | Page(prs: Connection, merged: seq<Item>, closed: seq<Item>, issues: Connection)

  /** What the server answers to the k-th query with these two cursors; the flag asks for the
      merged and closed connections too. */
  type Server = (nat, Option<string>, Option<string>, bool) -> Reply

  datatype Outcome = Swept(board: Snapshot) | Error

  const SWEEP_MAX_PAGES := 1000

  // ---- merging a page ---------------------------------------------------------------

  function PRNumbers(es: seq<Entry>): set<int> { set e | e in es :: e.item.number }

  function IssueNumbers(items: seq<Item>): set<int> { set i | i in items :: i.number }

  function WithPR(es: seq<Entry>, item: Item, closed: bool): seq<Entry> {
    if item.number in PRNumbers(es) then es else es + [Entry(item, closed)]
  }

  function WithPRs(es: seq<Entry>, items: seq<Item>, closed: bool): seq<Entry>
    decreases |items|
  {
    if items == [] then es else WithPRs(WithPR(es, items[0], closed), items[1..], closed)
  }

  function WithIssue(known: seq<Item>, item: Item): seq<Item> {
    if item.number in IssueNumbers(known) then known else known + [item]
  }

  function WithIssues(known: seq<Item>, items: seq<Item>): seq<Item>
    decreases |items|
  {
    if items == [] then known else WithIssues(WithIssue(known, items[0]), items[1..])
  }

  /** A page folded into the snapshot: open pull requests first, then merged, then closed. */
  function Merged(snap: Snapshot, page: Reply): Snapshot
    requires page.Page?
  {
    Snapshot(
      WithPRs(WithPRs(WithPRs(snap.prs, page.prs.nodes, false), page.merged, false), page.closed, true),
      WithIssues(snap.issues, page.issues.nodes))
  }

  method AccumulatePRs(es0: seq<Entry>, seen0: set<int>, items: seq<Item>, closed: bool)
    returns (es: seq<Entry>, seen: set<int>)
    requires seen0 == PRNumbers(es0)
    ensures es == WithPRs(es0, items, closed) && seen == PRNumbers(es)
  {
    es, seen := es0, seen0;
    for i := 0 to |items|
      invariant seen == PRNumbers(es) && WithPRs(es, items[i..], closed) == WithPRs(es0, items, closed)
    {
      assert items[i..][0] == items[i] && items[i..][1..] == items[i + 1..];
      if items[i].number !in seen {
        ghost var before := es;
        seen := seen + {items[i].number};
        es := es + [Entry(items[i], closed)];
        assert PRNumbers(es) == PRNumbers(before) + {items[i].number} by {
          assert forall e :: e in es <==> e in before || e == Entry(items[i], closed);
        }
      }
    }
  }

  method AccumulateIssues(known0: seq<Item>, seen0: set<int>, items: seq<Item>) returns (known: seq<Item>,
      seen: set<int>)
    requires seen0 == IssueNumbers(known0)
    ensures known == WithIssues(known0, items) && seen == IssueNumbers(known)
  {
    known, seen := known0, seen0;
    for i := 0 to |items|
      invariant seen == IssueNumbers(known) && WithIssues(known, items[i..]) == WithIssues(known0, items)
    {
      assert items[i..][0] == items[i] && items[i..][1..] == items[i + 1..];
      if items[i].number !in seen {
        ghost var before := known;
        seen := seen + {items[i].number};
        known := known + [items[i]];
        assert IssueNumbers(known) == IssueNumbers(before) + {items[i].number} by {
          assert forall k :: k in known <==> k in before || k == items[i];
        }
      }
    }
  }

  // ---- the sweep ----------------------------------------------------------------------

  datatype Sweep = Sweep(
    page: nat, prCursor: Option<string>, issueCursor: Option<string>, prMore: bool, issueMore: bool, snap: Snapshot)

  const FIRST := Sweep(0, None, None, true, true, Snapshot([], []))

  function Advanced(cursor: Option<string>, end: string): Option<string> {
    if end != "" then Some(end) else cursor
  }

  function NextSweep(s: Sweep, page: Reply): Sweep
    requires page.Page?
  {
    Sweep(s.page + 1, Advanced(s.prCursor, page.prs.endCursor), Advanced(s.issueCursor, page.issues.endCursor),
          page.prs.hasNext, page.issues.hasNext, Merged(s.snap, page))
  }

  predicate Running(s: Sweep) { (s.prMore || s.issueMore) && s.page < SWEEP_MAX_PAGES }

  function SweepFrom(server: Server, s: Sweep): Outcome
    decreases SWEEP_MAX_PAGES - s.page
  {
    if !Running(s) then Swept(s.snap)
    else match server(s.page, s.prCursor, s.issueCursor, s.page == 0)
      case Failed => Error
      case Page(prs, merged, closed, issues) => SweepFrom(server, NextSweep(s, Page(prs, merged, closed, issues)))
  }

  method BoardSweep(server: Server) returns (r: Outcome)
    ensures r == SweepFrom(server, FIRST)
  {
    var prs: seq<Entry>, issues: seq<Item> := [], [];
    var seenPR: set<int>, seenIssue: set<int> := {}, {};
    var prCursor: Option<string>, issueCursor: Option<string> := None, None;
    var prMore, issueMore := true, true;
    var page: nat := 0;
    while (prMore || issueMore) && page < SWEEP_MAX_PAGES
      invariant seenPR == PRNumbers(prs) && seenIssue == IssueNumbers(issues)
      invariant SweepFrom(server, Sweep(page, prCursor, issueCursor, prMore, issueMore, Snapshot(prs, issues)))
        == SweepFrom(server, FIRST)
      decreases SWEEP_MAX_PAGES - page
    {
      hide WithPRs, WithIssues, PRNumbers, IssueNumbers;
      var reply := server(page, prCursor, issueCursor, page == 0);
      if reply.Failed? {
        return Error;
      }
      ghost var before := Sweep(page, prCursor, issueCursor, prMore, issueMore, Snapshot(prs, issues));
      prs, seenPR := AccumulatePRs(prs, seenPR, reply.prs.nodes, false);
      prs, seenPR := AccumulatePRs(prs, seenPR, reply.merged, false);
      prs, seenPR := AccumulatePRs(prs, seenPR, reply.closed, true);
      issues, seenIssue := AccumulateIssues(issues, seenIssue, reply.issues.nodes);
      prMore, issueMore := reply.prs.hasNext, reply.issues.hasNext;
      if reply.prs.endCursor != "" {
        prCursor := Some(reply.prs.endCursor);
      }
      if reply.issues.endCursor != "" {
        issueCursor := Some(reply.issues.endCursor);
      }
      page := page + 1;
      assert Sweep(page, prCursor, issueCursor, prMore, issueMore, Snapshot(prs, issues)) == NextSweep(before, reply);
    }
    return Swept(Snapshot(prs, issues));
  }

  // ---- against any server: what was listed first ------------------------------------------

  /** The items of a connection as entries. */
  function Marked(items: seq<Item>, closed: bool): (es: seq<Entry>)
    ensures |es| == |items| && forall i :: 0 <= i < |items| ==> es[i] == Entry(items[i], closed)
  {
    seq(|items|, i requires 0 <= i < |items| => Entry(items[i], closed))
  }

  /** Everything a page lists, repeats and all: open, merged, then closed pull requests. */
  function Listing(page: Reply): Snapshot
    requires page.Page?
  {
    Snapshot(Marked(page.prs.nodes, false) + Marked(page.merged, false) + Marked(page.closed, true), page.issues.nodes)
  }

  /** Everything the pages answered from s on list, in order, repeats and all. */
  function ListedFrom(server: Server, s: Sweep): Snapshot
    decreases SWEEP_MAX_PAGES - s.page
  {
    if !Running(s) then Snapshot([], [])
    else
      var page := server(s.page, s.prCursor, s.issueCursor, s.page == 0);
      if page.Failed? then Snapshot([], [])
      else
        var now, later := Listing(page), ListedFrom(server, NextSweep(s, page));
        Snapshot(now.prs + later.prs, now.issues + later.issues)
  }

  /** Entry i is the first one with its number. */
  predicate FirstMet(met: seq<Entry>, i: nat)
    requires i < |met|
  {
    forall k :: 0 <= k < i ==> met[k].item.number != met[i].item.number
  }

  predicate DistinctPRs(es: seq<Entry>) {
    forall i, k :: 0 <= i < k < |es| ==> es[i].item.number != es[k].item.number
  }

  predicate DistinctIssues(items: seq<Item>) {
    forall i, k :: 0 <= i < k < |items| ==> items[i].number != items[k].number
  }

  /** The list without the entries whose number was met before. */
  function FirstOnes(met: seq<Entry>): seq<Entry> {
    if met == [] then []
    else
      var n := |met| - 1;
      FirstOnes(met[..n]) + (if FirstMet(met, n) then [met[n]] else [])
  }

  lemma NumbersOf(before: seq<Entry>, e: Entry)
    ensures PRNumbers(before + [e]) == PRNumbers(before) + {e.item.number}
    ensures FirstMet(before + [e], |before|) <==> e.item.number !in PRNumbers(before)
  {
    var all := before + [e];
    assert forall i :: 0 <= i < |before| ==> all[i] == before[i];
    assert forall x :: x in all <==> x in before || x == e;
  }

  lemma {:induction false} FirstOnesAreDistinct(met: seq<Entry>)
    ensures DistinctPRs(FirstOnes(met)) && PRNumbers(FirstOnes(met)) == PRNumbers(met)
  {
    hide FirstMet;
    if met != [] {
      var n := |met| - 1;
      var before := met[..n];
      assert met == before + [met[n]];
      FirstOnesAreDistinct(before);
      NumbersOf(before, met[n]);
      DistinctAppend(FirstOnes(before), met[n]);
    }
  }

  lemma DistinctAppend(es: seq<Entry>, e: Entry)
    requires DistinctPRs(es)
    ensures PRNumbers(es + [e]) == PRNumbers(es) + {e.item.number}
    ensures e.item.number !in PRNumbers(es) ==> DistinctPRs(es + [e])
  {
    NumbersOf(es, e);
    assert forall i :: 0 <= i < |es| ==> es[i].item.number in PRNumbers(es);
  }

  /** e is in the list, ahead of all others with its number. */
  predicate IsFirst(met: seq<Entry>, e: Entry) { exists i :: 0 <= i < |met| && met[i] == e && FirstMet(met, i) }

  lemma FirstAfter(before: seq<Entry>, x: Entry, e: Entry)
    ensures IsFirst(before + [x], e) <==> IsFirst(before, e) || (e == x && FirstMet(before + [x], |before|))
  {
    var all := before + [x];
    assert forall i :: 0 <= i < |before| ==> all[i] == before[i] && (FirstMet(all, i) <==> FirstMet(before, i));
    if IsFirst(before, e) {
      var i :| 0 <= i < |before| && before[i] == e && FirstMet(before, i);
      assert all[i] == e && FirstMet(all, i);
    }
    if e == x && FirstMet(all, |before|) {
      assert all[|before|] == e;
    }
  }

  lemma {:induction false} FirstOnesAre(met: seq<Entry>, e: Entry)
    ensures e in FirstOnes(met) <==> IsFirst(met, e)
  {
    if met != [] {
      hide FirstMet, IsFirst;
      var n := |met| - 1;
      assert met == met[..n] + [met[n]];
      FirstOnesAre(met[..n], e);
      FirstAfter(met[..n], met[n], e);
    } else {
      assert !IsFirst(met, e);
    }
  }

  lemma {:induction false} DistinctAreFirst(met: seq<Entry>)
    requires DistinctPRs(met)
    ensures FirstOnes(met) == met
  {
    if met != [] {
      var n := |met| - 1;
      DistinctAreFirst(met[..n]);
      assert met == met[..n] + [met[n]];
    }
  }

  lemma OneMoreMet(met: seq<Entry>, item: Item, closed: bool)
    ensures WithPR(FirstOnes(met), item, closed) == FirstOnes(met + [Entry(item, closed)])
  {
    var more := met + [Entry(item, closed)];
    assert more[..|met|] == met;
    NumbersOf(met, Entry(item, closed));
    FirstOnesAreDistinct(met);
  }

  /** Merging the items of a connection keeps what was met first. */
  lemma {:induction false} MergingKeepsFirstOnes(met: seq<Entry>, items: seq<Item>, closed: bool)
    ensures WithPRs(FirstOnes(met), items, closed) == FirstOnes(met + Marked(items, closed))
    decreases |items|
  {
    hide FirstOnes, WithPR;
    if items == [] {
      assert met + Marked(items, closed) == met;
    } else {
      OneMoreMet(met, items[0], closed);
      MergingKeepsFirstOnes(met + [Entry(items[0], closed)], items[1..], closed);
      assert met + [Entry(items[0], closed)] + Marked(items[1..], closed) == met + Marked(items, closed);
    }
  }

  /** Issues are merged as pull requests are. */
  lemma {:induction false} IssuesMergeAlike(known: seq<Item>, items: seq<Item>)
    ensures Marked(WithIssues(known, items), false) == WithPRs(Marked(known, false), items, false)
    decreases |items|
  {
    if items != [] {
      var es := Marked(known, false);
      assert IssueNumbers(known) == PRNumbers(es) by {
        assert forall n :: n in PRNumbers(es) <==> exists i :: 0 <= i < |es| && es[i].item.number == n;
        assert forall n :: n in IssueNumbers(known) <==> exists i :: 0 <= i < |known| && known[i].number == n;
        assert forall i :: 0 <= i < |es| ==> es[i].item == known[i];
      }
      assert Marked(WithIssue(known, items[0]), false) == WithPR(es, items[0], false);
      IssuesMergeAlike(WithIssue(known, items[0]), items[1..]);
    }
  }

  /** The snapshot holds the first ones of all that was listed. */
  ghost predicate HoldsFirstOnes(snap: Snapshot, met: Snapshot) {
    snap.prs == FirstOnes(met.prs) && Marked(snap.issues, false) == FirstOnes(Marked(met.issues, false))
  }

  function Joined(a: Snapshot, b: Snapshot): Snapshot { Snapshot(a.prs + b.prs, a.issues + b.issues) }

  lemma PageKeepsFirstOnes(snap: Snapshot, met: Snapshot, page: Reply)
    requires page.Page? && HoldsFirstOnes(snap, met)
    ensures HoldsFirstOnes(Merged(snap, page), Joined(met, Listing(page)))
  {
    hide FirstOnes, WithPRs, WithIssues;
    var open, merged, closed := Marked(page.prs.nodes, false), Marked(page.merged, false), Marked(page.closed, true);
    MergingKeepsFirstOnes(met.prs, page.prs.nodes, false);
    MergingKeepsFirstOnes(met.prs + open, page.merged, false);
    MergingKeepsFirstOnes(met.prs + open + merged, page.closed, true);
    assert met.prs + open + merged + closed == met.prs + (open + merged + closed);
    IssuesMergeAlike(snap.issues, page.issues.nodes);
    MergingKeepsFirstOnes(Marked(met.issues, false), page.issues.nodes, false);
    assert Marked(met.issues, false) + Marked(page.issues.nodes, false) == Marked(met.issues + page.issues.nodes, false);
  }

  lemma {:induction false} SweepKeepsFirstOnes(server: Server, s: Sweep, met: Snapshot)
    requires HoldsFirstOnes(s.snap, met)
    ensures var r := SweepFrom(server, s); r.Swept? ==> HoldsFirstOnes(r.board, Joined(met, ListedFrom(server, s)))
    decreases SWEEP_MAX_PAGES - s.page
  {
    hide HoldsFirstOnes, Merged, Listing;
    if !Running(s) {
      assert Joined(met, Snapshot([], [])) == met;
    } else {
      var page := server(s.page, s.prCursor, s.issueCursor, s.page == 0);
      if page.Page? {
        var next, now := NextSweep(s, page), Listing(page);
        PageKeepsFirstOnes(s.snap, met, page);
        SweepKeepsFirstOnes(server, next, Joined(met, now));
        ghost var later := ListedFrom(server, next);
        assert met.prs + now.prs + later.prs == met.prs + (now.prs + later.prs);
        assert met.issues + now.issues + later.issues == met.issues + (now.issues + later.issues);
      }
    }
  }

  lemma SweptBoard(server: Server)
    ensures var r := SweepFrom(server, FIRST); r.Swept? ==> HoldsFirstOnes(r.board, ListedFrom(server, FIRST))
  {
    var none := Snapshot([], []);
    SweepKeepsFirstOnes(server, FIRST, none);
    assert Joined(none, ListedFrom(server, FIRST)) == ListedFrom(server, FIRST);
  }

  lemma MarkedIn(items: seq<Item>, x: Item, closed: bool)
    ensures Entry(x, closed) in Marked(items, closed) <==> x in items
    ensures Entry(x, !closed) !in Marked(items, closed)
  {
    if x in items {
      var i :| 0 <= i < |items| && items[i] == x;
      assert Marked(items, closed)[i] == Entry(x, closed);
    }
  }

  /** Whatever a server answers, a board that comes back holds, of every number any answered page
      lists, exactly the entry it was first listed with - contents, flag and all. */
  lemma BoardHoldsWhatWasListed(server: Server)
    ensures var r, met := SweepFrom(server, FIRST), ListedFrom(server, FIRST);
      r.Swept? ==>
        && (forall e :: e in r.board.prs <==> IsFirst(met.prs, e))
        && (forall x :: x in r.board.issues <==> IsFirst(Marked(met.issues, false), Entry(x, false)))
  {
    hide SweepFrom, ListedFrom, IsFirst, FirstOnes;
    var r, met := SweepFrom(server, FIRST), ListedFrom(server, FIRST);
    SweptBoard(server);
    if r.Swept? {
      forall e {
        FirstOnesAre(met.prs, e);
      }
      forall x ensures x in r.board.issues <==> IsFirst(Marked(met.issues, false), Entry(x, false)) {
        FirstOnesAre(Marked(met.issues, false), Entry(x, false));
        MarkedIn(r.board.issues, x, false);
      }
    }
  }

  /** And it lists no number twice. */
  lemma BoardsRepeatNothing(server: Server)
    ensures var r := SweepFrom(server, FIRST); r.Swept? ==> DistinctPRs(r.board.prs) && DistinctIssues(r.board.issues)
  {
    hide SweepFrom, ListedFrom, FirstOnes, PRNumbers;
    var r, met := SweepFrom(server, FIRST), ListedFrom(server, FIRST);
    SweptBoard(server);
    FirstOnesAreDistinct(met.prs);
    FirstOnesAreDistinct(Marked(met.issues, false));
    if r.Swept? {
      var issues := Marked(r.board.issues, false);
      assert forall i :: 0 <= i < |issues| ==> issues[i].item == r.board.issues[i];
    }
  }

  /** The sweep passes through t on its way from s. */
  predicate Reaches(server: Server, s: Sweep, t: Sweep)
    decreases SWEEP_MAX_PAGES - s.page
  {
    || s == t
    || (Running(s) && var page := server(s.page, s.prCursor, s.issueCursor, s.page == 0);
                      page.Page? && Reaches(server, NextSweep(s, page), t))
  }

  /** Where the sweep ends: nothing more to read or the page cap reached, or a query failed. */
  predicate EndsAt(server: Server, t: Sweep) {
    !Running(t) || server(t.page, t.prCursor, t.issueCursor, t.page == 0).Failed?
  }

  lemma {:induction false} SweepReachesItsEnd(server: Server, s: Sweep) returns (t: Sweep)
    ensures Reaches(server, s, t) && EndsAt(server, t)
    decreases SWEEP_MAX_PAGES - s.page
  {
    t := s;
    if !EndsAt(server, s) {
      t := SweepReachesItsEnd(server, NextSweep(s, server(s.page, s.prCursor, s.issueCursor, s.page == 0)));
    }
  }

  lemma {:induction false} SweepPassesThrough(server: Server, s: Sweep, t: Sweep)
    requires Reaches(server, s, t)
    ensures SweepFrom(server, s) == SweepFrom(server, t)
    decreases SWEEP_MAX_PAGES - s.page
  {
    if s != t {
      SweepPassesThrough(server, NextSweep(s, server(s.page, s.prCursor, s.issueCursor, s.page == 0)), t);
    }
  }

  /** A board comes back exactly if every query on the way is answered, until both connections say
      they have no more or the page cap is reached; one failed query and there is none. */
  lemma BoardOnlyIfAllAnswered(server: Server) returns (t: Sweep)
    ensures Reaches(server, FIRST, t)
    ensures SweepFrom(server, FIRST).Swept? <==> (!t.prMore && !t.issueMore) || t.page >= SWEEP_MAX_PAGES
    ensures SweepFrom(server, FIRST).Error? <==>
      (t.prMore || t.issueMore) && t.page < SWEEP_MAX_PAGES && server(t.page, t.prCursor, t.issueCursor, t.page == 0).Failed?
  {
    t := SweepReachesItsEnd(server, FIRST);
    SweepPassesThrough(server, FIRST, t);
  }

  // ---- against a board that stands still: everything once -------------------------------

  const PAGE_SIZE := 50

  datatype Board = Board(prs: seq<Item>, issues: seq<Item>, merged: seq<Item>, closed: seq<Item>)

  /** How the server names positions in its lists, and reads the names back. */
  datatype Cursors = Cursors(name: nat -> string, position: string -> nat)
  {
    ghost predicate Valid() { forall k :: name(k) != "" && position(name(k)) == k }

    function At(cursor: Option<string>): nat {
      if cursor.None? then 0 else position(cursor.value)
    }
  }

  function Reached(total: nat, pages: nat): (n: nat)
    ensures n <= total
  {
    if PAGE_SIZE * pages < total then PAGE_SIZE * pages else total
  }

  /** The page from position k on; past the end it is empty and names no cursor. */
  function PageFrom(c: Cursors, items: seq<Item>, k: nat): Connection {
    if k >= |items| then Connection([], false, "")
    else
      var n := if k + PAGE_SIZE < |items| then k + PAGE_SIZE else |items|;
      Connection(items[k..n], n < |items|, c.name(n))
  }

  function StillServer(b: Board, c: Cursors): Server {
    (k, prCursor, issueCursor, includeMerged) =>
      Page(PageFrom(c, b.prs, c.At(prCursor)), if includeMerged then b.merged else [],
           if includeMerged then b.closed else [], PageFrom(c, b.issues, c.At(issueCursor)))
  }

  /** Open pull requests are different ones from each other and from the merged and closed, and
      so are issues. */
  predicate Consistent(b: Board) {
    && DistinctIssues(b.prs) && DistinctIssues(b.issues)
    && (forall p :: p in b.prs ==> p.number !in IssueNumbers(b.merged) && p.number !in IssueNumbers(b.closed))
  }

  /** And so are the merged and the closed. */
  predicate Settled(b: Board) {
    && Consistent(b) && DistinctIssues(b.merged) && DistinctIssues(b.closed)
    && (forall p :: p in b.merged ==> p.number !in IssueNumbers(b.closed))
  }

  predicate FitsCap(b: Board) {
    |b.prs| <= PAGE_SIZE * SWEEP_MAX_PAGES && |b.issues| <= PAGE_SIZE * SWEEP_MAX_PAGES
  }

  /** After s.page pages each cursor stands where its connection has been read to. */
  ghost predicate OnCourse(b: Board, c: Cursors, s: Sweep) {
    var a, i := Reached(|b.prs|, s.page), Reached(|b.issues|, s.page);
    && s.page <= SWEEP_MAX_PAGES
    && c.At(s.prCursor) == a && c.At(s.issueCursor) == i
    && s.prMore == (a < |b.prs| || s.page == 0) && s.issueMore == (i < |b.issues| || s.page == 0)
  }

  lemma OnePageOn(c: Cursors, items: seq<Item>, pages: nat, cursor: Option<string>)
    requires c.Valid() && c.At(cursor) == Reached(|items|, pages)
    ensures var k, n, p := Reached(|items|, pages), Reached(|items|, pages + 1), PageFrom(c, items, c.At(cursor));
      && k <= n && p.nodes == items[k..n] && p.hasNext == (n < |items|)
      && c.At(Advanced(cursor, p.endCursor)) == n
  {
  }

  lemma StillPageKeepsCourse(b: Board, c: Cursors, s: Sweep)
    requires c.Valid() && OnCourse(b, c, s) && Running(s)
    ensures var page := StillServer(b, c)(s.page, s.prCursor, s.issueCursor, s.page == 0);
      && OnCourse(b, c, NextSweep(s, page)) && NextSweep(s, page).page == s.page + 1
      && Reached(|b.prs|, s.page) <= Reached(|b.prs|, s.page + 1) && Reached(|b.issues|, s.page) <= Reached(|b.issues|, s.page + 1)
      && page.prs.nodes == b.prs[Reached(|b.prs|, s.page)..Reached(|b.prs|, s.page + 1)]
      && page.issues.nodes == b.issues[Reached(|b.issues|, s.page)..Reached(|b.issues|, s.page + 1)]
      && page.merged == (if s.page == 0 then b.merged else []) && page.closed == (if s.page == 0 then b.closed else [])
  {
    hide PageFrom, Advanced, Reached;
    OnePageOn(c, b.prs, s.page, s.prCursor);
    OnePageOn(c, b.issues, s.page, s.issueCursor);
  }

  /** What is still to be listed after that many pages. */
  function Ahead(b: Board, pages: nat): Snapshot {
    var a := Reached(|b.prs|, pages);
    if pages > 0 then Snapshot(Marked(b.prs[a..], false), b.issues[Reached(|b.issues|, pages)..])
    else
      var n := Reached(|b.prs|, 1);
      Snapshot(Marked(b.prs[..n], false) + Marked(b.merged, false) + Marked(b.closed, true) + Marked(b.prs[n..], false), b.issues)
  }

  lemma PageIsAhead(b: Board, pages: nat, page: Reply)
    requires Reached(|b.prs|, pages) <= Reached(|b.prs|, pages + 1) && Reached(|b.issues|, pages) <= Reached(|b.issues|, pages + 1)
    requires page.Page? && page.prs.nodes == b.prs[Reached(|b.prs|, pages)..Reached(|b.prs|, pages + 1)]
    requires page.issues.nodes == b.issues[Reached(|b.issues|, pages)..Reached(|b.issues|, pages + 1)]
    requires page.merged == (if pages == 0 then b.merged else []) && page.closed == (if pages == 0 then b.closed else [])
    ensures Ahead(b, pages) == Joined(Listing(page), Ahead(b, pages + 1))
  {
    var a, n := Reached(|b.prs|, pages), Reached(|b.prs|, pages + 1);
    var i, m := Reached(|b.issues|, pages), Reached(|b.issues|, pages + 1);
    hide Reached;
    assert b.issues[i..] == b.issues[i..m] + b.issues[m..];
    if pages == 0 {
      assert b.issues[i..] == b.issues by { NothingReached(|b.issues|); }
      assert b.prs[a..n] == b.prs[..n] by { NothingReached(|b.prs|); }
    } else {
      MarkedSplits(b.prs, a, n);
      assert Marked(b.prs[a..n], false) + [] + [] == Marked(b.prs[a..n], false);
    }
  }

  lemma NothingReached(total: nat)
    ensures Reached(total, 0) == 0
  {
  }

  lemma MarkedSplits(items: seq<Item>, a: nat, n: nat)
    requires a <= n <= |items|
    ensures Marked(items[a..], false) == Marked(items[a..n], false) + Marked(items[n..], false)
    ensures Marked([], false) == [] && Marked([], true) == []
  {
  }

  lemma NothingAhead(b: Board, c: Cursors, s: Sweep)
    requires c.Valid() && OnCourse(b, c, s) && FitsCap(b) && !Running(s)
    ensures s.page > 0 && Ahead(b, s.page) == Snapshot([], [])
  {
  }

  lemma {:induction false} StillSweepLists(b: Board, c: Cursors, s: Sweep)
    requires c.Valid() && OnCourse(b, c, s) && FitsCap(b)
    ensures SweepFrom(StillServer(b, c), s).Swept? && ListedFrom(StillServer(b, c), s) == Ahead(b, s.page)
    decreases SWEEP_MAX_PAGES - s.page
  {
    if !Running(s) {
      NothingAhead(b, c, s);
    } else {
      hide OnCourse, NextSweep, Ahead, Listing;
      var page := StillServer(b, c)(s.page, s.prCursor, s.issueCursor, s.page == 0);
      StillPageKeepsCourse(b, c, s);
      StillSweepLists(b, c, NextSweep(s, page));
      PageIsAhead(b, s.page, page);
    }
  }

  /** A board that does not change while it is read, and fits the page cap, comes back whole: every
      open pull request exactly once and not marked closed, every open issue exactly once and in
      order, however unequal the two lists are. When no number is both merged and closed, the
      merged ones come back unmarked, the closed ones marked, and there is nothing else. */
  lemma StillBoardIsRead(b: Board, c: Cursors)
    requires Consistent(b) && c.Valid() && FitsCap(b)
    ensures var r := SweepFrom(StillServer(b, c), FIRST);
      && r.Swept? && r.board.issues == b.issues && DistinctPRs(r.board.prs)
      && (forall p :: p in b.prs ==> Entry(p, false) in r.board.prs)
      && (Settled(b) ==> forall e :: e in r.board.prs <==>
            if e.closedUnmerged then e.item in b.closed else e.item in b.prs || e.item in b.merged)
  {
    hide SweepFrom, ListedFrom, FirstOnes, IsFirst, OnCourse, Consistent, Settled, Ahead;
    var r, met := SweepFrom(StillServer(b, c), FIRST), Ahead(b, 0);
    assert OnCourse(b, c, FIRST) by { FirstIsOnCourse(b, c); }
    StillSweepLists(b, c, FIRST);
    SweptBoard(StillServer(b, c));
    FirstOnesAreDistinct(met.prs);
    StillIssues(b, r.board.issues);
    forall e ensures e in r.board.prs <==> IsFirst(met.prs, e) {
      FirstOnesAre(met.prs, e);
    }
    OpenAreFirst(b);
    if Settled(b) {
      AllAreFirst(b);
    }
  }

  lemma FirstIsOnCourse(b: Board, c: Cursors)
    ensures OnCourse(b, c, FIRST)
  {
  }

  lemma StillIssues(b: Board, issues: seq<Item>)
    requires Consistent(b) && Marked(issues, false) == FirstOnes(Marked(Ahead(b, 0).issues, false))
    ensures issues == b.issues
  {
    DistinctAreFirst(Marked(b.issues, false));
    assert |issues| == |b.issues|;
    assert forall i :: 0 <= i < |issues| ==> Marked(issues, false)[i] == Marked(b.issues, false)[i];
  }

  /** Open pull request j, in its place in the listing of a still board. */
  lemma OpenIsFirst(b: Board, j: nat)
    requires Consistent(b) && j < |b.prs|
    ensures IsFirst(Ahead(b, 0).prs, Entry(b.prs[j], false))
  {
    var met, n := Ahead(b, 0).prs, Reached(|b.prs|, 1);
    var m, c := n + |b.merged|, n + |b.merged| + |b.closed|;
    var i := if j < n then j else c + (j - n);
    assert b.prs[j] in b.prs;
    assert forall k :: 0 <= k < |b.merged| ==> b.merged[k].number in IssueNumbers(b.merged);
    assert forall k :: 0 <= k < |b.closed| ==> b.closed[k].number in IssueNumbers(b.closed);
    forall k | 0 <= k < i ensures met[k].item.number != b.prs[j].number {
      if k < n {
        assert met[k].item == b.prs[k];
      } else if k < m {
        assert met[k].item == b.merged[k - n];
      } else if k < c {
        assert met[k].item == b.closed[k - m];
      } else {
        assert met[k].item == b.prs[n + (k - c)];
      }
    }
    assert met[i] == Entry(b.prs[j], false) && FirstMet(met, i);
  }

  lemma OpenAreFirst(b: Board)
    requires Consistent(b)
    ensures forall p :: p in b.prs ==> IsFirst(Ahead(b, 0).prs, Entry(p, false))
  {
    hide IsFirst, Ahead, Consistent;
    forall p | p in b.prs ensures IsFirst(Ahead(b, 0).prs, Entry(p, false)) {
      var j :| 0 <= j < |b.prs| && b.prs[j] == p;
      OpenIsFirst(b, j);
    }
  }

  lemma DistinctConcat(a: seq<Entry>, b: seq<Entry>)
    requires DistinctPRs(a) && DistinctPRs(b) && PRNumbers(a) !! PRNumbers(b)
    ensures DistinctPRs(a + b) && PRNumbers(a + b) == PRNumbers(a) + PRNumbers(b)
  {
    var all := a + b;
    assert forall i :: 0 <= i < |a| ==> a[i].item.number in PRNumbers(a);
    assert forall i :: 0 <= i < |b| ==> b[i].item.number in PRNumbers(b);
    assert forall e :: e in all <==> e in a || e in b;
  }

  lemma MarkedNumbers(items: seq<Item>, closed: bool)
    ensures PRNumbers(Marked(items, closed)) == IssueNumbers(items)
    ensures DistinctIssues(items) ==> DistinctPRs(Marked(items, closed))
  {
    var es := Marked(items, closed);
    forall n ensures n in PRNumbers(es) <==> n in IssueNumbers(items) {
      if n in IssueNumbers(items) {
        var i :| 0 <= i < |items| && items[i].number == n;
        assert es[i].item.number == n;
      }
    }
  }

  lemma DistinctMembersAreFirst(met: seq<Entry>, e: Entry)
    requires DistinctPRs(met)
    ensures IsFirst(met, e) <==> e in met
  {
  }

  lemma AllAreFirst(b: Board)
    requires Settled(b)
    ensures forall e :: IsFirst(Ahead(b, 0).prs, e) <==>
              if e.closedUnmerged then e.item in b.closed else e.item in b.prs || e.item in b.merged
  {
    var met, n := Ahead(b, 0).prs, Reached(|b.prs|, 1);
    var first, merged, closed, rest := Marked(b.prs[..n], false), Marked(b.merged, false), Marked(b.closed, true), Marked(b.prs[n..], false);
    assert DistinctPRs(met) by {
      MarkedNumbers(b.prs[..n], false);
      MarkedNumbers(b.merged, false);
      MarkedNumbers(b.closed, true);
      MarkedNumbers(b.prs[n..], false);
      DistinctConcat(first, merged);
      DistinctConcat(first + merged, closed);
      DistinctConcat(first + merged + closed, rest);
    }
    forall e
      ensures IsFirst(met, e) <==> if e.closedUnmerged then e.item in b.closed else e.item in b.prs || e.item in b.merged
    {
      DistinctMembersAreFirst(met, e);
      assert b.prs == b.prs[..n] + b.prs[n..];
      assert e in met <==> e in first || e in merged || e in closed || e in rest;
      MarkedIn(b.prs[..n], e.item, false);
      MarkedIn(b.merged, e.item, false);
      MarkedIn(b.closed, e.item, true);
      MarkedIn(b.prs[n..], e.item, false);
    }
  }
}
