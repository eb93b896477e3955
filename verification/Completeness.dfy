/** Print and parse: whatever list of changes git prints, and whatever the hunks say, the parser
    finds the changed paths. */
module Completeness {
  import opened Bytes
  import opened Quoting
  import opened Paths
  import opened Diffs

  // ---- git's output ---------------------------------------------------------------------

  /** One file's change. meta are the extended header lines (modes, index), hunks the body; an empty
      body prints no file headers (a pure mode change, rename or empty file). early are the extended
      header lines git prints before the two of a rename (modes, similarity). */
  datatype Change =
    | Modified(path: string, meta: seq<string>, hunks: seq<string>)
    | Added(path: string, meta: seq<string>, hunks: seq<string>)
    | Deleted(path: string, meta: seq<string>, hunks: seq<string>)
    | Renamed(path: string, to: string, early: seq<string>, meta: seq<string>, hunks: seq<string>)

  predicate OneLine(s: string) { '\n' !in s }

  predicate Printable(c: Change) {
    && IsBytes(c.path) && (c.Renamed? ==> IsBytes(c.to))
    && (c.Renamed? ==> forall i :: 0 <= i < |c.early| ==> OneLine(c.early[i]))
    && (forall i :: 0 <= i < |c.meta| ==> OneLine(c.meta[i]))
    && (forall i :: 0 <= i < |c.hunks| ==> OneLine(c.hunks[i]))
  }

  function GitLine(a: string, b: string): string
    requires IsBytes(a) && IsBytes(b)
  {
    DIFF_GIT + GitQuote("a/" + a) + " " + GitQuote("b/" + b)
  }

  /** A file header's label; git marks the end of a name holding a space with a tab. */
  function Label(prefix: string, p: string): string
    requires IsBytes(prefix) && IsBytes(p)
  {
    GitQuote(prefix + p) + (if ' ' in p then "\t" else "")
  }

  function FileHeaders(before: string, next: string): seq<string> { [OLD_FILE + before, NEW_FILE + next] }

  function Body(c: Change): seq<string>
    requires Printable(c)
  {
    if c.hunks == [] then []
    else match c
      case Modified(p, _, hunks) => FileHeaders(Label("a/", p), Label("b/", p)) + hunks
      case Added(p, _, hunks) => FileHeaders(DEV_NULL, Label("b/", p)) + hunks
      case Deleted(p, _, hunks) => FileHeaders(Label("a/", p), DEV_NULL) + hunks
      case Renamed(p, q, _, _, hunks) => FileHeaders(Label("a/", p), Label("b/", q)) + hunks
  }

  function RenameLines(c: Change): seq<string>
    requires Printable(c)
  {
    if c.Renamed? then c.early + [RENAME_FROM + GitQuote(c.path), RENAME_TO + GitQuote(c.to)] else []
  }

  function ChangeLines(c: Change): seq<string>
    requires Printable(c)
  {
    [GitLine(c.path, if c.Renamed? then c.to else c.path)] + RenameLines(c) + c.meta + Body(c)
  }

  function DiffLines(changes: seq<Change>): seq<string>
    requires forall i :: 0 <= i < |changes| ==> Printable(changes[i])
  {
    if changes == [] then [] else ChangeLines(changes[0]) + DiffLines(changes[1..])
  }

  function Print(changes: seq<Change>): string
    requires forall i :: 0 <= i < |changes| ==> Printable(changes[i])
  {
    Join(DiffLines(changes) + [""], '\n')
  }

  // ---- quoted text is safe to cut --------------------------------------------------------

  lemma QuoteByteIsSafe(c: char)
    requires c as int < 256
    ensures '\n' !in QuoteByte(c) && '\t' !in QuoteByte(c) && (c != ' ' ==> ' ' !in QuoteByte(c))
  {
  }

  lemma {:induction false} QuoteBodyIsSafe(p: string)
    requires IsBytes(p)
    ensures '\n' !in QuoteBody(p) && '\t' !in QuoteBody(p) && (' ' !in p ==> ' ' !in QuoteBody(p))
    decreases p
  {
    if p != "" {
      QuoteByteIsSafe(p[0]);
      QuoteBodyIsSafe(p[1..]);
    }
  }

  /** A printed name has no newline or tab, and no space its name does not have. */
  lemma QuoteIsSafe(p: string)
    requires IsBytes(p)
    ensures '\n' !in GitQuote(p) && '\t' !in GitQuote(p) && (' ' !in p ==> ' ' !in GitQuote(p))
  {
    QuoteBodyIsSafe(p);
    if !NeedsQuotes(p) {
      assert forall i :: 0 <= i < |p| ==> PlainByte(p[i]);
    }
  }

  lemma QuotedEnds(p: string)
    requires IsBytes(p) && NeedsQuotes(p)
    ensures IsQuoted(GitQuote(p)) && Trimmed(GitQuote(p)) && GitQuote(p) != ""
  {
  }

  lemma PrefixedQuotes(prefix: string, p: string)
    requires IsBytes(p) && (prefix == "a/" || prefix == "b/")
    ensures IsBytes(prefix + p) && (NeedsQuotes(prefix + p) <==> NeedsQuotes(p))
  {
    if NeedsQuotes(p) {
      var i :| 0 <= i < |p| && !PlainByte(p[i]);
      assert (prefix + p)[i + 2] == p[i];
    }
    if NeedsQuotes(prefix + p) {
      var i :| 0 <= i < |prefix + p| && !PlainByte((prefix + p)[i]);
      assert i >= 2 && (prefix + p)[i] == p[i - 2];
    }
  }

  lemma TrimTrailingTab(p: string)
    requires Trimmed(p) && p != ""
    ensures TrimSpace(p + "\t") == p
  {
    var s := p + "\t";
    assert s[..|s| - 1] == p;
    assert SpaceAtStart(s) == 0 by {
      assert s[0] == p[0] && (|p| >= 2 ==> s[1] == p[1]) && (|p| >= 3 ==> s[2] == p[2]);
      assert |p| == 1 ==> s[1] == '\t';
      assert |p| == 2 ==> s[2] == '\t';
    }
    assert TrimLeft(s) == s && SpaceAtEnd(s) == 1;
    assert TrimRight(s) == TrimRight(p);
  }

  /** The label of a quoted name reads back as the name, with the side's prefix still on. */
  lemma LabelReadsBack(prefix: string, p: string)
    requires IsBytes(p) && NeedsQuotes(p) && (prefix == "a/" || prefix == "b/")
    ensures IsBytes(prefix + p)
    ensures Unquote(TrimSpace(BeforeTab(TrimSpace(Label(prefix, p))))) == prefix + p
  {
    hide GitQuote, Unquote, TrimSpace, BeforeTab, Trimmed, NeedsQuotes, IsBytes;
    var name := prefix + p;
    PrefixedQuotes(prefix, p);
    QuotedEnds(name);
    QuoteIsSafe(name);
    var q := GitQuote(name);
    TrimOfTrimmed(q);
    TrimTrailingTab(q);
    assert q + "" == q;
    NoTabToCut(q);
    UnquoteInvertsQuote(name);
  }

  // ---- what each printed line yields ---------------------------------------------------

  /** An unquoted name is recovered from the header line, spaces and all. */
  lemma PlainGitLine(p: string)
    requires IsBytes(p) && !NeedsQuotes(p) && p != ""
    ensures p in NamedBy(GitLine(p, p))
  {
    PrefixedQuotes("a/", p);
    PrefixedQuotes("b/", p);
    hide GitQuote, NeedsQuotes, StripDiffPathPrefix, IndexOf;
    var rest := "a/" + p + " b/" + p;
    assert GitLine(p, p) == DIFF_GIT + rest by { PlainNames(p); }
    assert TrimPrefix(GitLine(p, p), DIFF_GIT) == rest;
    SymmetricRecovers(p);
  }

  lemma PlainNames(p: string)
    requires IsBytes(p) && !NeedsQuotes(p)
    ensures IsBytes("a/" + p) && IsBytes("b/" + p)
    ensures DIFF_GIT + GitQuote("a/" + p) + " " + GitQuote("b/" + p) == DIFF_GIT + ("a/" + p + " b/" + p)
  {
    PrefixedQuotes("a/", p);
    PrefixedQuotes("b/", p);
    assert " " + "b/" == " b/";
  }

  lemma SymmetricRecovers(p: string)
    requires p != ""
    ensures SymmetricDiffGitPath("a/" + p + " b/" + p) == p
  {
  }

  lemma CutAtSpace(a: string, b: string)
    requires ' ' !in a
    ensures IndexOf(a + " " + b, ' ') == |a|
  {
    var s := a + " " + b;
    var i := IndexOf(s, ' ');
    assert s[|a|] == ' ';
    assert forall k :: 0 <= k < |a| ==> s[k] != ' ' by { assert s[..|a|] == a; }
    assert forall k :: 0 <= k < i ==> s[k] == s[..i][k];
  }

  lemma SidePrefixes(p: string)
    ensures "b/" + p != DEV_NULL && TrimPrefix(TrimPrefix("b/" + p, "a/"), "b/") == p
    ensures "a/" + p != DEV_NULL && TrimPrefix("a/" + p, "a/") == p
  {
    var a, b := "a/" + p, "b/" + p;
    assert a[0] == 'a' && a[2..] == p && a[..2] == "a/";
    assert b[0] == 'b' && b[2..] == p && b[..2] == "b/";
  }

  /** Stripping a quoted "b/P" gives P. */
  lemma StripQuotedNew(p: string)
    requires IsBytes(p) && NeedsQuotes(p)
    ensures StripDiffPathPrefix(TrimSpace(Label("b/", p))) == p
  {
    hide Label, TrimSpace, BeforeTab, Unquote, TrimPrefix, NeedsQuotes;
    LabelReadsBack("b/", p);
    SidePrefixes(p);
  }

  /** Stripping a quoted "a/P" gives P, unless P itself starts with "b/". */
  lemma StripQuotedOld(p: string)
    requires IsBytes(p) && NeedsQuotes(p)
    ensures StripDiffPathPrefix(TrimSpace(Label("a/", p))) == TrimPrefix(p, "b/")
  {
    hide Label, TrimSpace, BeforeTab, Unquote, TrimPrefix, NeedsQuotes;
    LabelReadsBack("a/", p);
    SidePrefixes(p);
  }

  /** The new-side header git prints for a name parses back to the name, quoted or not, as long as
      an unquoted one does not end in a space. */
  lemma NewHeaderReadsBack(p: string)
    requires IsBytes(p) && (NeedsQuotes(p) || p == "" || p[|p| - 1] != ' ')
    ensures IsBytes("b/" + p) && StripDiffPathPrefix(TrimSpace(Label("b/", p))) == p
  {
    PrefixedQuotes("b/", p);
    if NeedsQuotes(p) {
      StripQuotedNew(p);
    } else {
      PlainLabel(p);
      SidePrefixes(p);
      PlainNameStrips("b/" + p);
    }
  }

  /** The label of a plain name, trimmed, is the prefixed name. */
  lemma PlainLabel(p: string)
    requires IsBytes(p) && !NeedsQuotes(p) && (p == "" || p[|p| - 1] != ' ')
    ensures IsBytes("b/" + p) && TrimSpace(Label("b/", p)) == "b/" + p
    ensures Trimmed("b/" + p) && '\t' !in "b/" + p
  {
    hide Trimmed, TrimSpace, NeedsQuotes, IsBytes;
    var name := "b/" + p;
    PrefixedQuotes("b/", p);
    assert name[|name| - 1] == if p == "" then '/' else p[|p| - 1];
    PlainIsTrimmed(name);
    PlainLabelIs(p);
    TrimOfTrimmed(name);
    TrimTrailingTab(name);
  }

  lemma PlainLabelIs(p: string)
    requires IsBytes(p) && !NeedsQuotes(p)
    ensures IsBytes("b/" + p) && (Label("b/", p) == "b/" + p || Label("b/", p) == "b/" + p + "\t")
  {
    PrefixedQuotes("b/", p);
    hide NeedsQuotes, IsBytes;
    assert "b/" + p + "" == "b/" + p;
  }

  lemma PlainIsTrimmed(name: string)
    requires !NeedsQuotes(name) && name != "" && name[0] != ' ' && name[|name| - 1] != ' '
    ensures Trimmed(name) && '\t' !in name
  {
    assert forall i :: 0 <= i < |name| ==> PlainByte(name[i]);
  }

  lemma PlainNameStrips(name: string)
    requires Trimmed(name) && '\t' !in name && name != "" && name[0] == 'b'
    ensures StripDiffPathPrefix(name) == TrimPrefix(TrimPrefix(name, "a/"), "b/")
  {
    hide Trimmed, TrimSpace, BeforeTab, TrimPrefix;
    NoTabToCut(name);
    TrimOfTrimmed(name);
  }

  lemma LabelWithoutSpace(p: string)
    requires IsBytes(p) && NeedsQuotes(p) && ' ' !in p
    ensures IsBytes("b/" + p) && Label("b/", p) == GitQuote("b/" + p)
    ensures StripDiffPathPrefix(GitQuote("b/" + p)) == p
  {
    PrefixedQuotes("b/", p);
    QuotedEnds("b/" + p);
    StripQuotedNew(p);
    hide GitQuote, StripDiffPathPrefix, NeedsQuotes, Trimmed, TrimSpace;
    assert GitQuote("b/" + p) + "" == GitQuote("b/" + p);
    TrimOfTrimmed(GitQuote("b/" + p));
  }

  lemma DropHeader(header: string, x: string)
    ensures HasPrefix(header + x, header) && (header + x)[|header|..] == x
  {
  }

  lemma GitLineNames(rest: string)
    ensures NamedBy(DIFF_GIT + rest) ==
      var sides := ParseDiffGit(DIFF_GIT + rest); if sides.b == "" then {sides.b, sides.a} else {sides.b}
  {
  }

  lemma FallbackSides(a: string, b: string)
    requires ' ' !in a && a != "" && a[0] == '"'
    ensures ParseDiffGit(DIFF_GIT + (a + " " + b)) == Sides(StripDiffPathPrefix(a), StripDiffPathPrefix(b))
  {
    hide StripDiffPathPrefix, IndexOf;
    var rest := a + " " + b;
    DropHeader(DIFF_GIT, rest);
    CutAtSpace(a, b);
    assert rest[0] == '"' && rest[|a| + 1..] == b && rest[..|a|] == a;
  }

  lemma QuotedGitLine(p: string)
    requires IsBytes(p) && NeedsQuotes(p) && ' ' !in p
    ensures p in NamedBy(GitLine(p, p))
  {
    hide GitQuote, StripDiffPathPrefix, NeedsQuotes, Trimmed, IsBytes, Label, ParseDiffGit, NamedBy;
    PrefixedQuotes("a/", p);
    PrefixedQuotes("b/", p);
    QuotedEnds("a/" + p);
    QuoteIsSafe("a/" + p);
    LabelWithoutSpace(p);
    SomethingToQuote(p);
    var a, b := GitQuote("a/" + p), GitQuote("b/" + p);
    assert GitLine(p, p) == DIFF_GIT + (a + " " + b);
    FallbackSides(a, b);
    GitLineNames(a + " " + b);
  }

  lemma SomethingToQuote(p: string)
    requires NeedsQuotes(p)
    ensures p != ""
  {
  }

  lemma NewFileNames(x: string)
    ensures NamedBy(NEW_FILE + x) == {StripDiffPathPrefix(TrimSpace(x))}
  {
    hide StripDiffPathPrefix, TrimSpace, ParseDiffGit;
    DropHeader(NEW_FILE, x);
    assert (NEW_FILE + x)[0] == '+';
  }

  lemma NewFileLine(p: string)
    requires IsBytes(p) && NeedsQuotes(p)
    ensures p in NamedBy(NEW_FILE + Label("b/", p))
  {
    hide Label, StripDiffPathPrefix, TrimSpace, NamedBy;
    StripQuotedNew(p);
    NewFileNames(Label("b/", p));
  }

  lemma HeadersDelete(x: string)
    ensures DeletedBy(OLD_FILE + x, NEW_FILE + DEV_NULL) ==
      if StripDiffPathPrefix(TrimSpace(x)) != DEV_NULL then {StripDiffPathPrefix(TrimSpace(x))} else {}
  {
    hide StripDiffPathPrefix, TrimSpace;
    StripOfDevNull();
    DropHeader(OLD_FILE, x);
    DropHeader(NEW_FILE, DEV_NULL);
  }

  lemma DeletedLines(p: string)
    requires IsBytes(p) && NeedsQuotes(p) && !HasPrefix(p, "b/") && p != DEV_NULL
    ensures p in DeletedBy(OLD_FILE + Label("a/", p), NEW_FILE + DEV_NULL)
  {
    hide Label, StripDiffPathPrefix, TrimSpace, DeletedBy;
    StripQuotedOld(p);
    HeadersDelete(Label("a/", p));
  }

  lemma StripOfDevNull()
    ensures StripDiffPathPrefix(TrimSpace(DEV_NULL)) == DEV_NULL
  {
    TrimOfTrimmed(DEV_NULL);
    NoTabToCut(DEV_NULL);
  }

  lemma TrimAgain(s: string)
    ensures TrimSpace(TrimSpace(s)) == TrimSpace(s)
  {
    var t := TrimLeft(s);
    var u := TrimRight(t);
    assert SpaceAtStart(u) == 0 by { PrefixStartsPlain(t, u); }
    TrimOfTrimmed(u);
  }

  lemma PrefixStartsPlain(t: string, u: string)
    requires u <= t && SpaceAtStart(t) == 0
    ensures SpaceAtStart(u) == 0
  {
  }

  lemma RenameNames(header: string, x: string)
    requires header == RENAME_TO || header == RENAME_FROM
    ensures NamedBy(header + x) == {Unquote(TrimSpace(x))}
  {
    hide Unquote, TrimSpace, ParseDiffGit, StripDiffPathPrefix;
    DropHeader(header, x);
    assert (header + x)[0] == 'r' && (header + x)[7] == header[7];
  }

  /** A rename header yields the name up to surrounding space, whichever way git printed it. */
  lemma RenameLine(header: string, q: string)
    requires IsBytes(q) && (header == RENAME_TO || header == RENAME_FROM)
    ensures exists raw :: raw in NamedBy(header + GitQuote(q)) && NormalizePath(raw) == NormalizePath(q)
  {
    hide GitQuote, Unquote, TrimSpace, NormalizePath, NamedBy;
    RenameNormalizes(q);
    RenameNames(header, GitQuote(q));
    assert Unquote(TrimSpace(GitQuote(q))) in NamedBy(header + GitQuote(q));
  }

  lemma RenameNormalizes(q: string)
    requires IsBytes(q)
    ensures NormalizePath(Unquote(TrimSpace(GitQuote(q)))) == NormalizePath(q)
  {
    if NeedsQuotes(q) {
      QuotedEnds(q);
      TrimOfTrimmed(GitQuote(q));
      UnquoteInvertsQuote(q);
    } else {
      TrimmedPlain(q);
      NormalizeTrims(q);
    }
  }

  lemma NormalizeTrims(q: string)
    ensures NormalizePath(TrimSpace(q)) == NormalizePath(q)
  {
    hide TrimSpace, Clean, SlashesOf, TrimPrefix;
    TrimAgain(q);
  }

  lemma TrimmedPlain(q: string)
    requires !NeedsQuotes(q)
    ensures Unquote(TrimSpace(q)) == TrimSpace(q)
  {
    TrimLeftIsSuffix(q);
    var t := TrimSpace(q);
    assert t != "" ==> t[0] == q[|q| - |TrimLeft(q)|];
  }

  // ---- whole diffs ------------------------------------------------------------------------

  predicate AllOneLine(lines: seq<string>) { forall i :: 0 <= i < |lines| ==> OneLine(lines[i]) }

  lemma GitLineIsOneLine(a: string, b: string)
    requires IsBytes(a) && IsBytes(b)
    ensures OneLine(GitLine(a, b))
  {
    PrefixIsBytes("a/", a);
    PrefixIsBytes("b/", b);
    QuoteIsSafe("a/" + a);
    QuoteIsSafe("b/" + b);
  }

  lemma LabelIsOneLine(prefix: string, p: string)
    requires IsBytes(p) && (prefix == "a/" || prefix == "b/")
    ensures IsBytes(prefix + p) && OneLine(Label(prefix, p))
  {
    PrefixIsBytes(prefix, p);
    QuoteIsSafe(prefix + p);
  }

  lemma SidesAreOneLine(before: string, next: string)
    requires OneLine(before) && OneLine(next)
    ensures AllOneLine(FileHeaders(before, next))
  {
  }

  lemma HunksAreOneLine(c: Change)
    requires Printable(c)
    ensures AllOneLine(c.hunks) && OneLine(DEV_NULL)
  {
  }

  lemma BodyIsOneLine(c: Change)
    requires Printable(c)
    ensures AllOneLine(Body(c))
  {
    LabelIsOneLine("a/", c.path);
    LabelIsOneLine("b/", if c.Renamed? then c.to else c.path);
    hide Label, AllOneLine, OneLine, FileHeaders;
    HunksAreOneLine(c);
    if c.hunks == [] {
      NoLines();
    } else {
      var before := if c.Added? then DEV_NULL else Label("a/", c.path);
      var next := if c.Deleted? then DEV_NULL else Label("b/", if c.Renamed? then c.to else c.path);
      SidesAreOneLine(before, next);
      AllOneLineConcat(FileHeaders(before, next), c.hunks);
    }
  }

  lemma LinesAreOneLine(c: Change)
    requires Printable(c)
    ensures AllOneLine(ChangeLines(c))
  {
    GitLineIsOneLine(c.path, if c.Renamed? then c.to else c.path);
    BodyIsOneLine(c);
    QuoteIsSafe(c.path);
    if c.Renamed? {
      QuoteIsSafe(c.to);
    }
    hide GitLine, GitQuote, Body, IsBytes, AllOneLine, OneLine;
    var first, renames := [GitLine(c.path, if c.Renamed? then c.to else c.path)], RenameLines(c);
    assert AllOneLine(first) by { LineIsOneLine(first[0]); }
    assert AllOneLine(renames) by {
      if c.Renamed? {
        EarlyIsOneLine(c);
        HeadersAreOneLine(GitQuote(c.path), GitQuote(c.to));
        AllOneLineConcat(c.early, [RENAME_FROM + GitQuote(c.path), RENAME_TO + GitQuote(c.to)]);
      } else {
        NoLines();
      }
    }
    assert AllOneLine(c.meta) by { MetaIsOneLine(c); }
    AllOneLineConcat(first, renames);
    AllOneLineConcat(first + renames, c.meta);
    AllOneLineConcat(first + renames + c.meta, Body(c));
  }

  lemma LineIsOneLine(line: string)
    requires OneLine(line)
    ensures AllOneLine([line])
  {
  }

  lemma NoLines()
    ensures AllOneLine([])
  {
  }

  lemma MetaIsOneLine(c: Change)
    requires Printable(c)
    ensures AllOneLine(c.meta)
  {
  }

  lemma EarlyIsOneLine(c: Change)
    requires Printable(c) && c.Renamed?
    ensures AllOneLine(c.early)
  {
  }

  lemma HeadersAreOneLine(from: string, to: string)
    requires '\n' !in from && '\n' !in to
    ensures AllOneLine([RENAME_FROM + from, RENAME_TO + to])
  {
  }

  lemma AllOneLineConcat(a: seq<string>, b: seq<string>)
    requires AllOneLine(a) && AllOneLine(b)
    ensures AllOneLine(a + b)
  {
  }

  lemma PrefixIsBytes(prefix: string, p: string)
    requires IsBytes(p) && (prefix == "a/" || prefix == "b/")
    ensures IsBytes(prefix + p)
  {
  }

  /** The lines of mine stand in all from at on. */
  predicate Block(all: seq<string>, at: nat, mine: seq<string>) {
    at + |mine| <= |all| && all[at..at + |mine|] == mine
  }

  lemma BlockShifts(head: seq<string>, tail: seq<string>, at: nat, mine: seq<string>)
    requires Block(tail, at, mine)
    ensures Block(head + tail, |head| + at, mine)
  {
  }

  lemma {:induction false} DiffLinesHold(changes: seq<Change>, n: nat)
    requires forall i :: 0 <= i < |changes| ==> Printable(changes[i])
    requires n < |changes|
    ensures AllOneLine(DiffLines(changes))
    ensures exists at: nat :: Block(DiffLines(changes), at, ChangeLines(changes[n]))
    decreases |changes|
  {
    hide ChangeLines, Printable, Block, OneLine;
    var head, tail := ChangeLines(changes[0]), DiffLines(changes[1..]);
    LinesAreOneLine(changes[0]);
    assert DiffLines(changes) == head + tail;
    if |changes| > 1 {
      DiffLinesHold(changes[1..], if n == 0 then 0 else n - 1);
    }
    if n == 0 {
      BlockAtStart(head, tail);
    } else {
      assert changes[1..][n - 1] == changes[n];
      var at: nat :| Block(tail, at, ChangeLines(changes[n]));
      BlockShifts(head, tail, at, ChangeLines(changes[n]));
    }
  }

  lemma BlockAtStart(head: seq<string>, tail: seq<string>)
    ensures Block(head + tail, 0, head)
  {
  }

  lemma BlockAt(all: seq<string>, at: nat, mine: seq<string>, i: nat)
    requires Block(all, at, mine) && i < |mine|
    ensures at + i < |all| && (all + [""])[at + i] == mine[i]
  {
  }

  lemma OneLineParts(lines: seq<string>)
    requires AllOneLine(lines)
    ensures forall i :: 0 <= i < |lines + [""]| ==> '\n' !in (lines + [""])[i]
  {
  }

  lemma JoinedLinesSplit(lines: seq<string>)
    requires AllOneLine(lines)
    ensures Split(Join(lines + [""], '\n'), '\n') == lines + [""]
  {
    OneLineParts(lines);
    SplitOfJoin(lines + [""], '\n');
  }

  /** The lines of a printed diff are the ones it was printed from, and an empty last one. */
  lemma PrintedLines(changes: seq<Change>)
    requires changes != [] && forall k :: 0 <= k < |changes| ==> Printable(changes[k])
    ensures Split(Print(changes), '\n') == DiffLines(changes) + [""]
  {
    hide DiffLines, Printable, Split, Join, Block, AllOneLine, ChangeLines;
    DiffLinesHold(changes, 0);
    JoinedLinesSplit(DiffLines(changes));
  }

  /** A line of a printed change that names a path makes it touched. */
  lemma PrintedNameCounts(changes: seq<Change>, n: nat, i: nat, raw: string)
    requires forall k :: 0 <= k < |changes| ==> Printable(changes[k])
    requires n < |changes| && i < |ChangeLines(changes[n])| && Counts(raw)
    requires raw in NamedBy(ChangeLines(changes[n])[i])
    ensures NormalizePath(raw) in TouchedSet(Print(changes))
  {
    hide ChangeLines, Printable, NamedBy, NormalizePath, Counts, Print, DiffLines, Block, NamedIn, DeletedIn;
    var mine, all := ChangeLines(changes[n]), DiffLines(changes);
    DiffLinesHold(changes, n);
    var at: nat :| Block(all, at, mine);
    PrintedLines(changes);
    BlockAt(all, at, mine, i);
    NamedIsTouched(all + [""], |all| + 1, at + i, raw);
  }

  /** Two adjacent lines of a printed change that delete a path make it touched. */
  lemma PrintedDeleteCounts(changes: seq<Change>, n: nat, i: nat, raw: string)
    requires forall k :: 0 <= k < |changes| ==> Printable(changes[k])
    requires n < |changes| && i + 1 < |ChangeLines(changes[n])| && Counts(raw)
    requires raw in DeletedBy(ChangeLines(changes[n])[i], ChangeLines(changes[n])[i + 1])
    ensures NormalizePath(raw) in TouchedSet(Print(changes))
  {
    hide ChangeLines, Printable, DeletedBy, NormalizePath, Counts, Print, DiffLines, Block, NamedIn, DeletedIn;
    var mine, all := ChangeLines(changes[n]), DiffLines(changes);
    DiffLinesHold(changes, n);
    var at: nat :| Block(all, at, mine);
    PrintedLines(changes);
    BlockAt(all, at, mine, i);
    BlockAt(all, at, mine, i + 1);
    DeletedIsTouched(all + [""], |all|, at + i, raw);
  }

  // ---- completeness -------------------------------------------------------------------------

  /** The paths a change is about. */
  function ChangedPaths(c: Change): set<string> {
    if c.Renamed? then {c.path, c.to} else {c.path}
  }

  /** Enough of the path reaches the parser: git printed it plainly or without a space, or the
      change carries a rename header, a new-side header, or (for a delete) an old-side one that the
      prefix strip leaves alone. */
  predicate Locatable(c: Change, p: string) {
    || !NeedsQuotes(p) || ' ' !in p || c.Renamed?
    || (c.hunks != [] && (c.Deleted? ==> !HasPrefix(p, "b/")))
  }

  lemma HeaderLineIsFirst(c: Change)
    requires Printable(c)
    ensures ChangeLines(c) != [] && ChangeLines(c)[0] == GitLine(c.path, if c.Renamed? then c.to else c.path)
  {
  }

  lemma RenameHeadersFollow(c: Change)
    requires Printable(c) && c.Renamed?
    ensures var i := 1 + |c.early|;
      && |ChangeLines(c)| > i + 1
      && ChangeLines(c)[i] == RENAME_FROM + GitQuote(c.path) && ChangeLines(c)[i + 1] == RENAME_TO + GitQuote(c.to)
  {
    hide GitLine, Body;
  }

  lemma FileHeadersAt(c: Change, i: nat)
    requires Printable(c) && c.hunks != [] && !c.Renamed? && i == 1 + |c.meta|
    ensures |ChangeLines(c)| > i + 1 && |Body(c)| >= 2
    ensures ChangeLines(c)[i] == Body(c)[0] && ChangeLines(c)[i + 1] == Body(c)[1]
  {
  }

  lemma FileHeadersAre(c: Change)
    requires Printable(c) && c.hunks != [] && !c.Renamed?
    ensures IsBytes("a/" + c.path) && IsBytes("b/" + c.path) && |Body(c)| >= 2
    ensures c.Deleted? ==> Body(c)[0] == OLD_FILE + Label("a/", c.path) && Body(c)[1] == NEW_FILE + DEV_NULL
    ensures !c.Deleted? ==> Body(c)[1] == NEW_FILE + Label("b/", c.path)
  {
  }

  /** Print and parse: every locatable path of every change in a printed diff is among the touched
      ones, whatever the other changes, the extended headers and the hunks are. */
  lemma PrintedPathsAreTouched(changes: seq<Change>, n: nat, p: string)
    requires forall k :: 0 <= k < |changes| ==> Printable(changes[k])
    requires n < |changes| && p in ChangedPaths(changes[n]) && Locatable(changes[n], p) && Counts(p)
    ensures NormalizePath(p) in TouchedSet(Print(changes))
  {
    hide GitLine, GitQuote, Label, NormalizePath, NamedBy, DeletedBy, NeedsQuotes, ChangeLines, IsBytes, Body;
    var c := changes[n];
    HeaderLineIsFirst(c);
    if c.Renamed? {
      var header := if p == c.path then RENAME_FROM else RENAME_TO;
      RenameHeadersFollow(c);
      RenameLine(header, p);
      var raw :| raw in NamedBy(header + GitQuote(p)) && NormalizePath(raw) == NormalizePath(p);
      PrintedNameCounts(changes, n, if p == c.path then 1 + |c.early| else 2 + |c.early|, raw);
    } else if !NeedsQuotes(p) {
      assert p != "" by { EmptyDoesNotCount(); }
      PlainGitLine(p);
      PrintedNameCounts(changes, n, 0, p);
    } else if ' ' !in p {
      QuotedGitLine(p);
      PrintedNameCounts(changes, n, 0, p);
    } else if c.Deleted? {
      FileHeadersAt(c, 1 + |c.meta|);
      FileHeadersAre(c);
      assert p != DEV_NULL by { DevNullDoesNotCount(); }
      DeletedLines(p);
      PrintedDeleteCounts(changes, n, 1 + |c.meta|, p);
    } else {
      FileHeadersAt(c, 1 + |c.meta|);
      FileHeadersAre(c);
      NewFileLine(p);
      PrintedNameCounts(changes, n, 2 + |c.meta|, p);
    }
  }

  lemma EmptyDoesNotCount()
    ensures !Counts("")
  {
  }

  lemma DevNullDoesNotCount()
    ensures !Counts(DEV_NULL)
  {
    TrimOfTrimmed(DEV_NULL);
  }
}
