/** Exactly which changed paths the parser finds, in a diff of one change whose other lines name
    nothing. */
module Locating {
  import opened Bytes
  import opened Quoting
  import opened Paths
  import opened Diffs
  import opened ContentGate
  import opened Completeness

  /** A line no part of the parser reads a name from. */
  predicate SilentLine(line: string) {
    && !HasPrefix(line, DIFF_GIT) && !HasPrefix(line, NEW_FILE)
    && !HasPrefix(line, RENAME_TO) && !HasPrefix(line, RENAME_FROM)
  }

  predicate Silent(lines: seq<string>) { forall i :: 0 <= i < |lines| ==> SilentLine(lines[i]) }

  // ---- a quoted name miscut is never the name --------------------------------------------

  lemma {:induction false} QuoteBodyConcat(p: string, q: string)
    requires IsBytes(p) && IsBytes(q)
    ensures IsBytes(p + q) && QuoteBody(p + q) == QuoteBody(p) + QuoteBody(q)
    decreases p
  {
    if p == "" {
      assert p + q == q;
    } else {
      hide QuoteByte;
      assert (p + q)[0] == p[0] && (p + q)[1..] == p[1..] + q;
      QuoteBodyConcat(p[1..], q);
      assert QuoteByte(p[0]) + (QuoteBody(p[1..]) + QuoteBody(q)) == QuoteByte(p[0]) + QuoteBody(p[1..]) + QuoteBody(q);
    }
  }

  /** Segments of one quotation mark each, the last of two. */
  function Pile(k: nat): string { if k == 0 then "\"\"" else "\"/" + Pile(k - 1) }

  /** What such a pile becomes when its quoted form, with one more mark, is slashed. */
  function Spread(k: nat): string { if k == 0 then "\"/\"\"" else "\"//" + Spread(k - 1) }

  lemma {:induction false} PileLength(k: nat)
    ensures |Pile(k)| == 2 * k + 2
  {
    if k > 0 {
      PileLength(k - 1);
    }
  }

  lemma QuotedMark()
    ensures IsBytes("\"") && QuoteBody("\"") == "\\\"" && IsBytes("/") && QuoteBody("/") == "/"
    ensures IsBytes("") && QuoteBody("") == ""
  {
    assert "\""[1..] == "" && "/"[1..] == "";
    assert QuoteByte('"') == "\\\"" && QuoteByte('/') == "/";
    assert "\\\"" + "" == "\\\"" && "/" + "" == "/";
  }

  lemma SlashedMarks()
    ensures SlashesOf("\"") == "\"" && SlashesOf("\\\"\"") == "/\"\"" && SlashesOf("\\\"/") == "/\"/"
  {
    assert SlashesOf("\"") == "\"" && SlashesOf("/") == "/";
    assert "\\\"\""[1..] == "\"\"" && "\"\""[1..] == "\"" && "\\\"/"[1..] == "\"/" && "\"/"[1..] == "/";
    assert SlashesOf("\"\"") == ['"'] + SlashesOf("\"") && SlashesOf("\"/") == ['"'] + SlashesOf("/");
  }

  lemma {:induction false} PileQuoted(k: nat)
    ensures IsBytes(Pile(k)) && SlashesOf(QuoteBody(Pile(k)) + "\"") == "/" + Spread(k)
  {
    QuotedMark();
    SlashedMarks();
    hide QuoteBody, SlashesOf, IsBytes;
    if k == 0 {
      assert Pile(0) == "\"" + "\"";
      QuoteBodyConcat("\"", "\"");
      assert QuoteBody(Pile(0)) + "\"" == "\\\"" + "\\\"\"";
      SlashesConcat("\\\"", "\\\"\"");
      SlashesConcat("\\\"", "\"");
      assert "\\\"" + "\"" == "\\\"\"" && SlashesOf("\\\"") == "/\"" by { SlashedMark(); }
    } else {
      PileQuoted(k - 1);
      QuoteBodyConcat("\"", "/");
      QuoteBodyConcat("\"" + "/", Pile(k - 1));
      assert Pile(k) == ("\"" + "/") + Pile(k - 1);
      assert QuoteBody(Pile(k)) + "\"" == "\\\"/" + (QuoteBody(Pile(k - 1)) + "\"");
      SlashesConcat("\\\"/", QuoteBody(Pile(k - 1)) + "\"");
    }
  }

  lemma SlashedMark()
    ensures SlashesOf("\\\"") == "/\""
  {
    assert "\\\""[1..] == "\"" && SlashesOf("\"") == "\"";
  }

  lemma SpreadStart()
    ensures Split(Spread(0), '/') == ["\"", "\"\""]
    ensures Solid(["\"", "\"\""]) == ["\"", "\"\""] && Join(["\"", "\"\""], '/') == Pile(1)
  {
    SplitOfPart("\"", '/');
    SplitOfPart("\"\"", '/');
    SplitAt("\"", "\"\"", '/');
    hide Split;
    var parts, last := ["\"", "\"\""], ["\"\""];
    assert Spread(0) == "\"" + ['/'] + "\"\"" && ["\""] + last == parts;
    assert parts[1..] == last && last[1..] == [];
    assert Solid(last) == last + [] && Solid(parts) == ["\""] + Solid(last);
    assert Join(last, '/') == "\"\"" && Pile(0) == "\"\"";
  }

  lemma SpreadMore(k: nat)
    requires k > 0
    ensures Split(Spread(k), '/') == ["\""] + ([""] + Split(Spread(k - 1), '/'))
  {
    SplitOfPart("\"", '/');
    SplitOfPart("", '/');
    hide Split;
    SplitAt("\"", "" + ['/'] + Spread(k - 1), '/');
    SplitAt("", Spread(k - 1), '/');
    assert Spread(k) == "\"" + ['/'] + ("" + ['/'] + Spread(k - 1));
  }

  lemma SolidMore(rest: seq<string>)
    requires Solid(rest) != []
    ensures var parts := ["\""] + ([""] + rest);
      Solid(parts) == ["\""] + Solid(rest) && Join(Solid(parts), '/') == "\"/" + Join(Solid(rest), '/')
  {
    var tail := [""] + rest;
    var parts := ["\""] + tail;
    assert parts[1..] == tail && tail[1..] == rest;
    assert Solid(tail) == [] + Solid(rest) && Solid(parts) == ["\""] + Solid(tail);
    hide Solid;
    assert (["\""] + Solid(rest))[1..] == Solid(rest);
  }

  lemma {:induction false} SpreadSegments(k: nat)
    ensures var parts := Split(Spread(k), '/');
      && (forall i :: 0 <= i < |parts| ==> parts[i] != "." && parts[i] != "..")
      && Solid(parts) != [] && Join(Solid(parts), '/') == Pile(k + 1)
  {
    hide Split, Solid, Join, Spread;
    if k == 0 {
      SpreadStart();
    } else {
      SpreadSegments(k - 1);
      SpreadMore(k);
      SolidMore(Split(Spread(k - 1), '/'));
    }
  }

  /** The second half of the header line of a quoted name, from the mark that closes the first. */
  function SecondHalf(p: string): string
    requires IsBytes(p)
  {
    "\" \"b/" + (QuoteBody(p) + "\"")
  }

  /** Text before a second half is slashed and cleaned, nothing more. */
  lemma NormalOfHalf(x: string, p: string) returns (v: string)
    requires IsBytes(p)
    ensures NormalizePath(x + SecondHalf(p)) ==
      var c := Clean(v + SlashesOf(QuoteBody(p) + "\"")); if c == "." then "" else c
  {
    hide NormalizePath, Clean, SlashesOf, QuoteBody;
    var t := SecondHalf(p);
    assert t[|t| - 1] == '"';
    var w := NormalAcross(x, t);
    SlashesConcat("\" \"b/", QuoteBody(p) + "\"");
    v := w + SlashesOf("\" \"b/");
    assert v + SlashesOf(QuoteBody(p) + "\"") == w + SlashesOf(t);
  }

  lemma SlashedSuffix(y: string, t: string)
    requires IsBytes(y) && IsBytes(t)
    ensures IsBytes(y + t)
    ensures SlashesOf(QuoteBody(y + t) + "\"") == SlashesOf(QuoteBody(y)) + SlashesOf(QuoteBody(t) + "\"")
  {
    hide SlashesOf, QuoteBody;
    QuoteBodyConcat(y, t);
    assert QuoteBody(y + t) + "\"" == QuoteBody(y) + (QuoteBody(t) + "\"");
    SlashesConcat(QuoteBody(y), QuoteBody(t) + "\"");
  }

  lemma SuffixIsBytes(p: string, n: nat)
    requires IsBytes(p) && n <= |p|
    ensures IsBytes(p[..n]) && IsBytes(p[n..])
  {
  }

  /** The normal form ends in a quotation mark; in two if the name ends in one. */
  lemma HalfEndsInMark(x: string, p: string)
    requires IsBytes(p)
    ensures EndsWith(NormalizePath(x + SecondHalf(p)), "\"")
    ensures EndsWith(p, "\"") ==> EndsWith(NormalizePath(x + SecondHalf(p)), Pile(0))
  {
    hide NormalizePath, Clean, SlashesOf, QuoteBody, SecondHalf, IsBytes;
    QuotedMark();
    SlashedMarks();
    var v := NormalOfHalf(x, p);
    SlashedSuffix(p, "");
    assert p + "" == p && "" + "\"" == "\"";
    CleanKeepsEnd(v + SlashesOf(QuoteBody(p)), "\"");
    assert v + SlashesOf(QuoteBody(p)) + "\"" == v + (SlashesOf(QuoteBody(p)) + "\"");
    if EndsWith(p, "\"") {
      var y := p[..|p| - 1];
      SuffixIsBytes(p, |p| - 1);
      SlashedSuffix(y, "\"");
      assert y + "\"" == p && "\\\"" + "\"" == "\\\"\"";
      CleanKeepsEnd(v + SlashesOf(QuoteBody(y)) + "/", "\"\"");
      assert v + SlashesOf(QuoteBody(y)) + "/" + "\"\"" == v + (SlashesOf(QuoteBody(y)) + "/\"\"");
    }
  }

  /** A name that ends in a pile has a normal form, miscut, that ends in a larger one. */
  lemma HalfGrowsPile(x: string, p: string, k: nat)
    requires IsBytes(p) && EndsWith(p, Pile(k))
    ensures EndsWith(NormalizePath(x + SecondHalf(p)), Pile(k + 1))
  {
    hide NormalizePath, Clean, SlashesOf, QuoteBody, SecondHalf, IsBytes, Pile, Spread, Split, Solid, Join;
    var n := |p| - |Pile(k)|;
    var y := p[..n];
    SuffixIsBytes(p, n);
    assert p == y + Pile(k);
    var v := NormalOfHalf(x, p);
    PileQuoted(k);
    SlashedSuffix(y, Pile(k));
    var w := v + SlashesOf(QuoteBody(y));
    assert v + (SlashesOf(QuoteBody(y)) + ("/" + Spread(k))) == w + ['/'] + Spread(k);
    SplitAt(w, Spread(k), '/');
    SpreadSegments(k);
    CleanKeepsTail(w + ['/'] + Spread(k), Split(w, '/'), Split(Spread(k), '/'));
    PileLength(k + 1);
  }

  lemma {:induction false} PilesUp(x: string, p: string, k: nat)
    requires IsBytes(p) && NormalizePath(x + SecondHalf(p)) == p
    ensures EndsWith(p, Pile(k))
  {
    hide NormalizePath, SecondHalf, Pile, IsBytes;
    if k == 0 {
      HalfEndsInMark(x, p);
    } else {
      PilesUp(x, p, k - 1);
      HalfGrowsPile(x, p, k - 1);
    }
  }

  /** Whatever precedes it, the second half of a name's header line does not normalize to the name:
      it would have to end in ever more quotation marks. */
  lemma MiscutIsNotTheName(x: string, p: string)
    requires IsBytes(p)
    ensures NormalizePath(x + SecondHalf(p)) != p
  {
    hide NormalizePath, SecondHalf, Pile, IsBytes;
    if NormalizePath(x + SecondHalf(p)) == p {
      PilesUp(x, p, |p|);
      PileLength(|p|);
      assert false;
    }
  }

  // ---- the header line of a quoted name with a space -----------------------------------------

  lemma {:induction false} QuotedHead(p: string)
    requires IsBytes(p) && p != "" && p[|p| - 1] != ' '
    ensures TrimLeft(QuoteBody(p)) != "" && TrimLeft(QuoteBody(p))[0] != '"'
    decreases p
  {
    var q := QuoteBody(p);
    if p[0] == ' ' {
      assert QuoteByte(' ') == " ";
      assert q == " " + QuoteBody(p[1..]) && q[1..] == QuoteBody(p[1..]) && SpaceAtStart(q) == 1;
      QuotedHead(p[1..]);
    } else {
      assert q[0] == QuoteByte(p[0])[0];
      assert Visible(q[0]);
    }
  }

  /** The line's only name is the second half, with some text before it. */
  lemma SpacedGitLine(p: string) returns (x: string)
    requires IsBytes(p) && NeedsQuotes(p) && ' ' in p && p[|p| - 1] != ' '
    ensures NamedBy(GitLine(p, p)) == {x + SecondHalf(p)}
  {
    hide NamedBy, ParseDiffGit, StripDiffPathPrefix, TrimLeft, NeedsQuotes, QuoteBody, IsBytes, IndexOf, GitLine, SecondHalf;
    var n := IndexOf(p, ' ');
    var p1, p2 := p[..n], p[n + 1..];
    SpaceInside(p);
    SuffixIsBytes(p, n);
    SuffixIsBytes(p, n + 1);
    QuotedAtSpace(p1, p2);
    SpacedLine(p, p1, p2);
    QuotedHead(p2);
    x := HalvesOf(p1, p2, p);
  }

  /** Cut at its first space, the rest of the line has one usable side. */
  lemma HalvesOf(p1: string, p2: string, p: string) returns (x: string)
    requires IsBytes(p1) && IsBytes(p2) && IsBytes(p) && ' ' !in p1
    requires TrimLeft(QuoteBody(p2)) != "" && TrimLeft(QuoteBody(p2))[0] != '"'
    ensures NamedBy(DIFF_GIT + (("\"a/" + QuoteBody(p1)) + " " + (QuoteBody(p2) + SecondHalf(p)))) == {x + SecondHalf(p)}
  {
    hide NamedBy, ParseDiffGit, StripDiffPathPrefix, TrimLeft, QuoteBody, IsBytes;
    QuoteBodyIsSafe(p1);
    QuoteBodyIsSafe(p2);
    QuoteBodyIsSafe(p);
    var a, b := "\"a/" + QuoteBody(p1), QuoteBody(p2) + SecondHalf(p);
    FallbackSides(a, b);
    GitLineNames(a + " " + b);
    assert SecondHalf(p)[|SecondHalf(p)| - 1] == '"';
    x := StripAcross(QuoteBody(p2), SecondHalf(p));
  }

  lemma SpaceInside(p: string)
    requires ' ' in p && p[|p| - 1] != ' '
    ensures var n := IndexOf(p, ' '); n + 1 < |p| && p == p[..n] + " " + p[n + 1..] && p[n + 1..][|p| - n - 2] != ' '
  {
    hide IndexOf;
    var n := IndexOf(p, ' ');
    assert p[..|p|] == p;
    assert n < |p|;
    assert [p[n]] == " ";
  }

  lemma QuotedAtSpace(p1: string, p2: string)
    requires IsBytes(p1) && IsBytes(p2)
    ensures IsBytes(p1 + " " + p2) && QuoteBody(p1 + " " + p2) == QuoteBody(p1) + " " + QuoteBody(p2)
  {
    assert IsBytes(" ") && QuoteBody(" ") == " " by { assert " "[1..] == "" && QuoteByte(' ') == " "; }
    hide QuoteBody, IsBytes;
    QuoteBodyConcat(p1, " ");
    QuoteBodyConcat(p1 + " ", p2);
  }

  lemma QuotedSide(side: string, p: string)
    requires IsBytes(p) && NeedsQuotes(p) && (side == "a/" || side == "b/")
    ensures IsBytes(side + p) && GitQuote(side + p) == "\"" + (side + QuoteBody(p)) + "\""
  {
    PrefixedQuotes(side, p);
    assert IsBytes(side) && QuoteBody(side) == side by {
      assert side[1..] == "/" && "/"[1..] == "" && QuoteByte('/') == "/" && QuoteByte(side[0]) == [side[0]];
    }
    hide QuoteBody, NeedsQuotes, IsBytes;
    QuoteBodyConcat(side, p);
  }

  lemma SpacedLine(p: string, p1: string, p2: string)
    requires IsBytes(p) && IsBytes(p1) && IsBytes(p2) && NeedsQuotes(p)
    requires QuoteBody(p) == QuoteBody(p1) + " " + QuoteBody(p2)
    ensures GitLine(p, p) == DIFF_GIT + (("\"a/" + QuoteBody(p1)) + " " + (QuoteBody(p2) + SecondHalf(p)))
  {
    hide QuoteBody, NeedsQuotes, IsBytes, GitQuote;
    QuotedSide("a/", p);
    QuotedSide("b/", p);
    var q1, q2, q := QuoteBody(p1), QuoteBody(p2), QuoteBody(p);
    var first, second := "\"" + ("a/" + q) + "\"", "\"" + ("b/" + q) + "\"";
    assert first + " " + second == ("\"a/" + q1) + " " + (q2 + ("\" \"b/" + (q + "\"")));
    assert DIFF_GIT + first + " " + second == DIFF_GIT + (first + " " + second);
  }

  // ---- the other lines ----------------------------------------------------------------------

  /** No name the line gives counts as p. */
  predicate MuteOn(line: string, p: string) { forall q :: q in NamedBy(line) && Counts(q) ==> NormalizePath(q) != p }

  lemma SilentIsMute(line: string, p: string)
    requires SilentLine(line)
    ensures MuteOn(line, p)
  {
  }

  lemma OldSideIsMute(x: string, p: string)
    ensures MuteOn(OLD_FILE + x, p) && MuteOn("", p)
  {
    assert (OLD_FILE + x)[0] == '-';
  }

  lemma DeletedSideIsMute(p: string)
    ensures MuteOn(NEW_FILE + DEV_NULL, p)
  {
    hide NormalizePath, StripDiffPathPrefix, TrimSpace, NamedBy;
    NewFileNames(DEV_NULL);
    StripOfDevNull();
    assert !Counts(DEV_NULL) by { DevNullDoesNotCount(); }
  }

  lemma GitLineIsMute(p: string)
    requires IsBytes(p) && NeedsQuotes(p) && ' ' in p && Trimmed(p)
    ensures MuteOn(GitLine(p, p), p)
  {
    assert p[|p| - 1] != ' ';
    hide NormalizePath, NamedBy, GitLine, NeedsQuotes, IsBytes, Trimmed, SecondHalf;
    var x := SpacedGitLine(p);
    MiscutIsNotTheName(x, p);
  }

  /** Only a new-side header deletes, together with the line before it. */
  lemma OnlyNewSideDeletes(before: string, line: string)
    requires !HasPrefix(line, NEW_FILE)
    ensures DeletedBy(before, line) == {}
  {
  }

  /** A deleted quoted name that starts with "b/" is recorded without it. */
  lemma QuotedDeleteLosesItsSide(p: string)
    requires IsBytes(p) && NeedsQuotes(p)
    ensures IsBytes("a/" + p)
    ensures DeletedBy(OLD_FILE + Label("a/", p), NEW_FILE + DEV_NULL) <= {TrimPrefix(p, "b/")}
  {
    hide Label, StripDiffPathPrefix, TrimSpace, DeletedBy, NeedsQuotes;
    PrefixedQuotes("a/", p);
    StripQuotedOld(p);
    HeadersDelete(Label("a/", p));
  }

  /** Nothing in the lines touches p. */
  lemma MuteLinesTouchNothing(lines: seq<string>, p: string)
    requires forall i :: 0 <= i < |lines| ==> MuteOn(lines[i], p)
    requires forall i, q :: 0 <= i < |lines| - 1 && q in DeletedBy(lines[i], lines[i + 1]) ==> NormalizePath(q) != p
    ensures !Touches(lines, p)
  {
    hide NamedBy, DeletedBy, NormalizePath, Counts;
  }

  /** The lines of a change the parser cannot locate are all mute on its path. */
  lemma UnlocatedIsMute(c: Change)
    requires Printable(c) && !Locatable(c, c.path) && Silent(c.meta) && Silent(c.hunks)
    requires Trimmed(c.path) && NormalizePath(c.path) == c.path
    ensures !Touches(ChangeLines(c) + [""], c.path)
  {
    hide NormalizePath, NeedsQuotes, NamedBy, DeletedBy, GitLine, Label, IsBytes, SilentLine, Trimmed, MuteOn, GitQuote, TrimPrefix;
    var p, body := c.path, Body(c);
    var lines := [GitLine(p, p)] + c.meta + body + [""];
    assert ChangeLines(c) + [""] == lines by { assert [GitLine(p, p)] + [] + c.meta == [GitLine(p, p)] + c.meta; }
    GitLineIsMute(p);
    OldSideIsMute("", p);
    BodyIsMute(c);
    forall i | 0 <= i < |lines| ensures MuteOn(lines[i], p) && (HasPrefix(lines[i], NEW_FILE) ==> body != [] && i == 2 + |c.meta|) {
      if i == 0 {
        GitLineIsNoNewSide(p);
      } else if i <= |c.meta| {
        assert lines[i] == c.meta[i - 1];
        SilentIsMute(lines[i], p);
        SilentIsNoNewSide(lines[i]);
      } else if i < 1 + |c.meta| + |body| {
        assert lines[i] == body[i - 1 - |c.meta|];
      } else {
        assert lines[i] == "";
      }
    }
    forall i, q | 0 <= i < |lines| - 1 && q in DeletedBy(lines[i], lines[i + 1]) ensures NormalizePath(q) != p {
      if !HasPrefix(lines[i + 1], NEW_FILE) {
        OnlyNewSideDeletes(lines[i], lines[i + 1]);
        assert false;
      }
      assert lines[i] == body[0] && lines[i + 1] == body[1];
      FileHeadersAre(c);
      QuotedDeleteLosesItsSide(p);
      LostSideIsNotTheName(p);
    }
    MuteLinesTouchNothing(lines, p);
  }

  lemma LostSideIsNotTheName(p: string)
    requires HasPrefix(p, "b/")
    ensures NormalizePath(TrimPrefix(p, "b/")) != p
  {
    hide NormalizePath;
    NormalizeShrinks(TrimPrefix(p, "b/"));
  }

  lemma GitLineIsNoNewSide(p: string)
    requires IsBytes(p)
    ensures IsBytes("a/" + p) && IsBytes("b/" + p) && !HasPrefix(GitLine(p, p), NEW_FILE)
  {
    PrefixIsBytes("a/", p);
    PrefixIsBytes("b/", p);
    hide GitQuote;
    assert GitLine(p, p)[0] == 'd';
  }

  lemma SilentIsNoNewSide(line: string)
    requires SilentLine(line)
    ensures !HasPrefix(line, NEW_FILE)
  {
  }

  lemma BodyIsMute(c: Change)
    requires Printable(c) && !Locatable(c, c.path) && Silent(c.hunks)
    ensures var body := Body(c);
      && (body != [] ==> c.hunks != [] && c.Deleted? && HasPrefix(c.path, "b/") && |body| >= 2)
      && forall k :: 0 <= k < |body| ==> MuteOn(body[k], c.path) && (HasPrefix(body[k], NEW_FILE) ==> k == 1)
  {
    hide NormalizePath, NeedsQuotes, NamedBy, Label, SilentLine, MuteOn;
    if c.hunks != [] {
      PrefixIsBytes("a/", c.path);
      FileHeadersAre(c);
      var body := Body(c);
      assert body == FileHeaders(Label("a/", c.path), DEV_NULL) + c.hunks;
      OldSideIsMute(Label("a/", c.path), c.path);
      DeletedSideIsMute(c.path);
      assert (OLD_FILE + Label("a/", c.path))[0] == '-';
      forall k | 0 <= k < |body| ensures MuteOn(body[k], c.path) && (HasPrefix(body[k], NEW_FILE) ==> k == 1) {
        if k >= 2 {
          assert body[k] == c.hunks[k - 2];
          SilentIsMute(body[k], c.path);
          SilentIsNoNewSide(body[k]);
        }
      }
    }
  }

  /** In the diff of one change whose other lines name nothing, the parser finds a changed path in
      normal form exactly if it is locatable. */
  lemma LocatedExactly(c: Change, p: string)
    requires Printable(c) && p in ChangedPaths(c) && Silent(c.meta) && Silent(c.hunks)
    requires Trimmed(p) && NormalizePath(p) == p && Counts(p)
    ensures p in TouchedSet(Print([c])) <==> Locatable(c, p)
  {
    hide NormalizePath, Counts, Printable, NamedIn, DeletedIn, Touches, Trimmed, NeedsQuotes;
    if Locatable(c, p) {
      PrintedPathsAreTouched([c], 0, p);
    } else {
      hide Locatable;
      NotRenamed(c, p);
      UnlocatedIsMute(c);
      PrintedLines([c]);
      OneChange(c);
      TouchedByLines(ChangeLines(c) + [""], p);
    }
  }

  lemma NotRenamed(c: Change, p: string)
    requires p in ChangedPaths(c) && !Locatable(c, p)
    ensures !c.Renamed? && p == c.path
  {
  }

  lemma OneChange(c: Change)
    requires Printable(c)
    ensures DiffLines([c]) == ChangeLines(c)
  {
    hide ChangeLines;
    assert [c][1..] == [] && DiffLines([]) == [];
  }

  lemma ModeLinesAreSilent()
    ensures SilentLine("old mode 100644") && SilentLine("new mode 100755")
    ensures OneLine("old mode 100644") && OneLine("new mode 100755")
  {
    var o, n := "old mode 100644", "new mode 100755";
    assert o[0] == 'o' && n[0] == 'n';
  }

  lemma SpacedMark()
    ensures var p := "\" x"; IsBytes(p) && NeedsQuotes(p) && Trimmed(p) && ' ' in p && '/' !in p && '\\' !in p
  {
    var p := "\" x";
    assert !PlainByte(p[0]) && p[1] == ' ' && p[2] == 'x';
  }

  /** The condition is needed: a mode change of this name is invisible. */
  lemma QuotedModeChangeIsMissed()
    ensures var c := Modified("\" x", ["old mode 100644", "new mode 100755"], []);
      Printable(c) && Counts(c.path) && NormalizePath(c.path) == c.path && c.path !in TouchedSet(Print([c]))
  {
    hide NormalizePath, TouchedSet, Print, Trimmed, SilentLine, OneLine, IsBytes, NeedsQuotes;
    var p := "\" x";
    var c := Modified(p, ["old mode 100644", "new mode 100755"], []);
    ModeLinesAreSilent();
    SpacedMark();
    PlainNormal(p);
    assert |p| == 3 && |DEV_NULL| == 9;
    LocatedExactly(c, p);
  }
}
