/** When two diffs may be put together: exactly at a line end. Anywhere else some second diff loses
    a path, and with it the gate's objection to it. */
module Joining {
  import opened Bytes
  import opened Quoting
  import opened Paths
  import opened Diffs
  import opened ContentGate
  import opened Completeness

  /** The diff is empty or ends its last line. */
  predicate EndsLine(diff: string) { diff == "" || diff[|diff| - 1] == '\n' }

  // ---- a name no diff foresees -------------------------------------------------------------

  /** A name of n letters. */
  function Name(n: nat): (s: string)
    ensures |s| == n && forall i :: 0 <= i < n ==> s[i] == 'x'
  {
    if n == 0 then "" else ['x'] + Name(n - 1)
  }

  /** The one-line diff that renames something to that name, and the end of that line. */
  function Renaming(n: nat): string { RENAME_TO + Name(n) }

  function Ending(n: nat): string { "to " + Name(n) }

  lemma EndingFacts(n: nat)
    requires n > 0
    ensures Anchor(Ending(n)) && '/' !in Ending(n) && '\\' !in Ending(n) && '\t' !in Ending(n) && '\n' !in Ending(n)
    ensures Ending(n)[0] == 't' && Ending(n)[|Ending(n)| - 1] == 'x' && |Ending(n)| == n + 3
  {
    assert forall c :: c in Ending(n) ==> c in "to " || c == 'x';
  }

  lemma RenamingFacts(n: nat)
    requires n > 0
    ensures Renaming(n) == "rename " + Ending(n)
    ensures '/' !in Renaming(n) && '\t' !in Renaming(n) && '\n' !in Renaming(n)
    ensures |Renaming(n)| == n + 10 && Renaming(n)[0] == 'r' && Renaming(n)[1] == 'e' && Renaming(n)[|Renaming(n)| - 1] == 'x'
    ensures EndsWith(Renaming(n), Ending(n))
  {
    assert RENAME_TO == "rename " + "to ";
    assert forall c :: c in Renaming(n) ==> c in RENAME_TO || c == 'x';
  }

  /** A path that ends so does not normalize to a name of at most n letters. */
  lemma EndingStays(q: string, n: nat)
    requires n > 0 && EndsWith(q, Ending(n))
    ensures EndsWith(NormalizePath(q), Ending(n)) && |NormalizePath(q)| > n
  {
    hide NormalizePath, Anchor;
    EndingFacts(n);
    var w := q[..|q| - |Ending(n)|];
    assert q == w + Ending(n);
    NormalKeepsEnd(w, Ending(n));
  }

  lemma NameIsTouched(n: nat)
    requires n > 0
    ensures NormalizePath(Name(n)) == Name(n) && Name(n) in TouchedSet(Renaming(n))
  {
    var w := Name(n);
    assert w[0] == 'x' && w[n - 1] == 'x' && Trimmed(w) && '/' !in w && '\\' !in w && w != DEV_NULL;
    hide NormalizePath, NamedBy, Unquote, TrimSpace, Trimmed, Name;
    PlainNormal(w);
    TrimOfTrimmed(w);
    assert Unquote(w) == w by { NoMark(w); }
    RenameNames(RENAME_TO, w);
    RenamingFacts(n);
    SplitOfPart(Renaming(n), '\n');
    NamedIsTouched([Renaming(n)], 1, 0, w);
  }

  lemma NoMark(w: string)
    requires w == "" || w[0] != '"'
    ensures Unquote(w) == w
  {
  }

  // ---- what the line the two diffs share names ------------------------------------------------

  /** What the line's own text names, whatever name the renaming brings. */
  function Fixed(last: string): set<string> {
    if HasPrefix(last, DIFF_GIT) then
      var rest := last[|DIFF_GIT|..];
      var i := IndexOf(rest, ' ');
      if i < |rest| then {StripDiffPathPrefix(rest[..i]), StripDiffPathPrefix(rest[i + 1..])} else {}
    else if HasPrefix(last, NEW_FILE) then {StripDiffPathPrefix(TrimLeft(last[4..]))}
    else {}
  }

  function FixedDelete(before: string): set<string> {
    if HasPrefix(before, OLD_FILE) then {StripDiffPathPrefix(TrimSpace(before[4..]))} else {}
  }

  /** No header starts in one diff and ends in the other. */
  lemma HeaderStays(last: string, header: string, t: string)
    requires last != "" && |t| >= 2 && t[0] == 'r' && t[1] == 'e'
    requires forall k :: 1 <= k < |header| && header[k] == 'r' ==> k + 1 < |header| && header[k + 1] != 'e'
    ensures HasPrefix(last + t, header) <==> HasPrefix(last, header)
  {
    var s, k := last + t, |last|;
    assert s[k] == 'r' && s[k + 1] == 'e' && s[..k] == last;
    if |header| <= k {
      assert s[..|header|] == last[..|header|];
    } else {
      assert header[k] != s[k] || (k + 1 < |header| && header[k + 1] != s[k + 1]);
    }
  }

  lemma HeadersStay(last: string, n: nat)
    requires last != "" && n > 0
    ensures var line := last + Renaming(n);
      && (HasPrefix(line, DIFF_GIT) <==> HasPrefix(last, DIFF_GIT))
      && (HasPrefix(line, NEW_FILE) <==> HasPrefix(last, NEW_FILE))
      && (HasPrefix(line, RENAME_TO) <==> HasPrefix(last, RENAME_TO))
      && (HasPrefix(line, RENAME_FROM) <==> HasPrefix(last, RENAME_FROM))
  {
    RenamingFacts(n);
    hide Renaming, HasPrefix;
    assert RENAME_TO == ['r', 'e', 'n', 'a', 'm', 'e', ' ', 't', 'o', ' '];
    assert RENAME_FROM == ['r', 'e', 'n', 'a', 'm', 'e', ' ', 'f', 'r', 'o', 'm', ' '];
    assert DIFF_GIT == ['d', 'i', 'f', 'f', ' ', '-', '-', 'g', 'i', 't', ' '];
    HeaderStays(last, DIFF_GIT, Renaming(n));
    HeaderStays(last, NEW_FILE, Renaming(n));
    HeaderStays(last, RENAME_TO, Renaming(n));
    HeaderStays(last, RENAME_FROM, Renaming(n));
  }

  lemma EndsFurther(x: string, t: string, e: string)
    requires EndsWith(t, e)
    ensures EndsWith(x + t, e)
  {
  }

  /** A stripped side either was cut before the renaming or ends with it. */
  lemma StrippedSide(w: string, t: string, n: nat)
    requires n > 0 && (t == Renaming(n) || t == Ending(n))
    ensures StripDiffPathPrefix(w + t) == StripDiffPathPrefix(w) || EndsWith(StripDiffPathPrefix(w + t), Ending(n))
  {
    RenamingFacts(n);
    EndingFacts(n);
    if '\t' in w {
      BeforeTabAcross(w, t);
    } else {
      hide StripDiffPathPrefix, Renaming, Ending;
      var x := StripAcross(w, t);
      EndsFurther(x, t, Ending(n));
    }
  }

  lemma InTheEnd(s: string, t: string, k: int)
    requires EndsWith(s, t) && 0 <= k < |s| && |s| - |t| <= k
    ensures s[k] in t
  {
    assert s[|s| - |t|..][k - (|s| - |t|)] == s[k];
  }

  /** An end without a slash lies behind the last slash. */
  lemma EndsBehindSlash(h: string, p: string, t: string)
    requires EndsWith(h + "/" + p, t) && '/' !in t
    ensures EndsWith(p, t)
  {
    var s := h + "/" + p;
    assert s[|h|] == '/' && s[|h| + 1..] == p;
    if |s| - |t| <= |h| {
      InTheEnd(s, t, |h|);
    } else {
      assert p[|p| - |t|..] == s[|s| - |t|..];
    }
  }

  lemma SymmetricEnds(rest: string, t: string)
    requires EndsWith(rest, t) && '/' !in t && SymmetricDiffGitPath(rest) != ""
    ensures EndsWith(SymmetricDiffGitPath(rest), t)
  {
    var p := SymmetricDiffGitPath(rest);
    assert rest == "a/" + p + " b/" + p;
    hide SymmetricDiffGitPath, EndsWith;
    assert " b/" == " b" + "/";
    assert rest == ("a/" + p + " b") + "/" + p;
    EndsBehindSlash("a/" + p + " b", p, t);
  }

  /** The header line of a file, run on into a renaming. */
  lemma MergedGitLine(rest: string, n: nat, q: string)
    requires n > 0 && q in NamedBy(DIFF_GIT + (rest + Renaming(n)))
    ensures q in Fixed(DIFF_GIT + rest) || EndsWith(q, Ending(n))
  {
    hide StripDiffPathPrefix, SymmetricDiffGitPath, NamedBy, IndexOf, Renaming, Ending, Fixed;
    RenamingFacts(n);
    EndingFacts(n);
    var line := rest + Renaming(n);
    DropHeader(DIFF_GIT, line);
    GitLineNames(line);
    EndsFurther(rest, Renaming(n), Ending(n));
    if SymmetricDiffGitPath(line) != "" {
      assert '/' !in Ending(n);
      SymmetricEnds(line, Ending(n));
    } else {
      MergedSides(rest, n);
    }
  }

  lemma FirstSpace(a: string, b: string)
    ensures var i, k := IndexOf(a + b, ' '), IndexOf(a, ' '); i == if k < |a| then k else |a| + IndexOf(b, ' ')
  {
    hide IndexOf;
    var s := a + b;
    var i, k, m := IndexOf(s, ' '), IndexOf(a, ' '), IndexOf(b, ' ');
    assert forall j :: 0 <= j < k ==> s[j] == a[j] && a[j] == a[..k][j];
    assert forall j :: 0 <= j < m ==> s[|a| + j] == b[j] && b[j] == b[..m][j];
    assert k < |a| ==> s[k] == ' ';
    assert m < |b| ==> s[|a| + m] == ' ';
    assert forall j :: 0 <= j < i ==> s[j] == s[..i][j];
  }

  lemma MergedSides(rest: string, n: nat)
    requires n > 0 && SymmetricDiffGitPath(rest + Renaming(n)) == ""
    ensures var sides := ParseDiffGit(DIFF_GIT + (rest + Renaming(n)));
      || EndsWith(sides.b, Ending(n))
      || (sides.b in Fixed(DIFF_GIT + rest) && sides.a in Fixed(DIFF_GIT + rest))
  {
    hide StripDiffPathPrefix, SymmetricDiffGitPath, IndexOf, Ending, Renaming;
    RenamingFacts(n);
    var line, k := rest + Renaming(n), IndexOf(rest, ' ');
    DropHeader(DIFF_GIT, line);
    DropHeader(DIFF_GIT, rest);
    FirstSpace(rest, Renaming(n));
    if k < |rest| {
      assert line[..k] == rest[..k] && line[k + 1..] == rest[k + 1..] + Renaming(n);
      StrippedSide(rest[k + 1..], Renaming(n), n);
    } else {
      FirstSpace("rename ", Ending(n));
      assert IndexOf("rename ", ' ') == 6 by { RenameSpace(); }
      assert line[|rest| + 7..] == "" + Ending(n);
      EndingAlone(n);
    }
  }

  lemma RenameSpace()
    ensures IndexOf("rename ", ' ') == 6
  {
    hide IndexOf;
    var s, i := "rename ", IndexOf("rename ", ' ');
    assert s[6] == ' ' && forall j :: 0 <= j < 6 ==> s[j] != ' ';
    assert s[..7] == s;
  }

  lemma EndingAlone(n: nat)
    requires n > 0
    ensures EndsWith(StripDiffPathPrefix("" + Ending(n)), Ending(n))
  {
    EndingFacts(n);
    hide StripDiffPathPrefix, Ending;
    var x := StripAcross("", Ending(n));
    EndsFurther(x, Ending(n), Ending(n));
  }

  lemma MergedNewSide(x: string, n: nat, q: string)
    requires n > 0 && q in NamedBy(NEW_FILE + (x + Renaming(n)))
    ensures q in Fixed(NEW_FILE + x) || EndsWith(q, Ending(n))
  {
    hide StripDiffPathPrefix, TrimLeft, TrimSpace, NamedBy, Renaming, Ending;
    RenamingFacts(n);
    NewFileNames(x + Renaming(n));
    TrimSpaceAcross(x, Renaming(n));
    StrippedSide(TrimLeft(x), Renaming(n), n);
    DropHeader(NEW_FILE, x);
    assert (NEW_FILE + x)[0] == '+';
  }

  lemma MergedRename(header: string, x: string, n: nat, q: string)
    requires n > 0 && (header == RENAME_TO || header == RENAME_FROM) && q in NamedBy(header + (x + Renaming(n)))
    ensures EndsWith(q, Ending(n))
  {
    hide TrimLeft, TrimSpace, NamedBy, UnquoteBody, Renaming, Ending;
    RenamingFacts(n);
    RenameNames(header, x + Renaming(n));
    TrimSpaceAcross(x, Renaming(n));
    EndsFurther(TrimLeft(x), Renaming(n), Ending(n));
    var t := TrimLeft(x) + Renaming(n);
    assert t[|t| - 1] == 'x';
  }

  lemma HeaderOf(line: string, q: string) returns (header: string)
    requires q in NamedBy(line)
    ensures header == DIFF_GIT || header == NEW_FILE || header == RENAME_TO || header == RENAME_FROM
    ensures HasPrefix(line, header)
  {
    hide ParseDiffGit, StripDiffPathPrefix, Unquote, TrimSpace;
    header := if HasPrefix(line, DIFF_GIT) then DIFF_GIT else if HasPrefix(line, NEW_FILE) then NEW_FILE
              else if HasPrefix(line, RENAME_TO) then RENAME_TO else RENAME_FROM;
  }

  /** What a line names once a renaming runs on from it. */
  lemma MergedNames(last: string, n: nat, q: string)
    requires last != "" && n > 0 && q in NamedBy(last + Renaming(n))
    ensures q in Fixed(last) || EndsWith(q, Ending(n))
  {
    hide Fixed, Renaming, Ending, NamedBy;
    HeadersStay(last, n);
    var header := HeaderOf(last + Renaming(n), q);
    var x := last[|header|..];
    assert last == header + x && last + Renaming(n) == header + (x + Renaming(n));
    if header == DIFF_GIT {
      MergedGitLine(x, n, q);
    } else if header == NEW_FILE {
      MergedNewSide(x, n, q);
    } else {
      MergedRename(header, x, n, q);
    }
  }

  // ---- nothing the joined diffs touch is the new name ------------------------------------------

  lemma {:induction false} LongerThanAll(s: set<string>) returns (n: nat)
    ensures n > 0 && forall x :: x in s ==> |x| < n
    decreases |s|
  {
    if s == {} {
      n := 1;
    } else {
      var x :| x in s;
      n := LongerThanAll(s - {x});
      n := if |x| < n then n else |x| + 1;
    }
  }

  /** The paths that do not depend on the name: those of the first diff, and what its last line and
      the one before it fix. */
  function Foreseen(first: string): set<string> {
    var parts := Split(first, '\n');
    var n := |parts| - 1;
    TouchedSet(first) + Kept(Fixed(parts[n])) + (if n > 0 then Kept(FixedDelete(parts[n - 1])) else {})
  }

  lemma KeptMember(raw: set<string>, q: string) returns (r: string)
    requires q in Kept(raw)
    ensures r in raw && Counts(r) && q == NormalizePath(r)
  {
    r :| r in raw && Counts(r) && q == NormalizePath(r);
  }

  lemma MergedDelete(before: string, line: string)
    ensures DeletedBy(before, line) <= FixedDelete(before)
  {
    hide StripDiffPathPrefix, TrimSpace;
  }

  lemma KeptGrows(a: set<string>, b: set<string>)
    requires a <= b
    ensures Kept(a) <= Kept(b)
  {
    hide NormalizePath;
  }

  lemma LastLine(first: string)
    requires !EndsLine(first)
    ensures var parts := Split(first, '\n'); parts[|parts| - 1] != ""
  {
    var front, c := first[..|first| - 1], first[|first| - 1];
    assert first == front + [c];
    hide Split;
    SplitAppend(front, [c], '\n');
  }

  /** Everything the joined diffs touch was foreseen or runs on. */
  lemma JoinedTouches(first: string, n: nat, q: string)
    requires !EndsLine(first) && n > 0 && q in TouchedSet(first + Renaming(n))
    ensures q in Foreseen(first) || EndsWith(q, Ending(n))
  {
    hide Split, NamedBy, DeletedBy, Kept, NamedIn, DeletedIn, Fixed, FixedDelete, Renaming, Ending, EndsLine, Touches;
    var parts := Split(first, '\n');
    var m := |parts| - 1;
    LastLine(first);
    RenamingFacts(n);
    SplitAppend(first, Renaming(n), '\n');
    var lines := parts[..m] + [parts[m] + Renaming(n)];
    TouchedByLines(lines, q);
    TouchedByLines(parts, q);
    if q !in TouchedSet(first) {
      LineTouches(parts, lines, m, n, q);
    }
  }

  lemma LineTouches(parts: seq<string>, lines: seq<string>, m: nat, n: nat, q: string)
    requires |parts| == m + 1 && parts[m] != "" && n > 0 && lines == parts[..m] + [parts[m] + Renaming(n)]
    requires Touches(lines, q) && !Touches(parts, q)
    ensures q in Kept(Fixed(parts[m])) || (m > 0 && q in Kept(FixedDelete(parts[m - 1]))) || EndsWith(q, Ending(n))
  {
    hide NamedBy, DeletedBy, Kept, Fixed, FixedDelete, Renaming, Ending;
    var i: nat :| NamesAt(lines, i, q) || DeletesAt(lines, i, q);
    assert i < m ==> lines[i] == parts[i];
    assert i + 1 < m ==> lines[i + 1] == parts[i + 1];
    if NamesAt(lines, i, q) {
      assert i < m ==> NamesAt(parts, i, q);
      MergedLineNames(parts[m], n, q);
    } else {
      assert i + 1 < m ==> DeletesAt(parts, i, q);
      MergedDelete(lines[i], lines[i + 1]);
      KeptGrows(DeletedBy(lines[i], lines[i + 1]), FixedDelete(lines[i]));
    }
  }

  lemma MergedLineNames(last: string, n: nat, q: string)
    requires last != "" && n > 0 && q in Kept(NamedBy(last + Renaming(n)))
    ensures q in Kept(Fixed(last)) || EndsWith(q, Ending(n))
  {
    hide NormalizePath, NamedBy, Fixed, Renaming, Ending;
    var r := KeptMember(NamedBy(last + Renaming(n)), q);
    MergedNames(last, n, r);
    if EndsWith(r, Ending(n)) {
      EndingStays(r, n);
    }
  }

  /** A name longer than any path foreseen is not touched by the joined diffs, nor does anything
      they touch normalize to it. */
  lemma NameIsLost(first: string) returns (n: nat)
    requires !EndsLine(first)
    ensures n > 0 && forall q :: q in TouchedSet(first + Renaming(n)) ==> NormalizePath(q) != Name(n) && q != Name(n)
  {
    hide TouchedSet, Foreseen, NormalizePath, Renaming, Ending, Name;
    n := LongerThanAll(Foreseen(first));
    EndingFacts(n);
    forall q | q in TouchedSet(first + Renaming(n)) ensures NormalizePath(q) != Name(n) && q != Name(n) {
      JoinedTouches(first, n, q);
      if EndsWith(q, Ending(n)) {
        EndingStays(q, n);
      } else {
        NormalizeShrinks(q);
      }
    }
  }

  // ---- the exact condition ----------------------------------------------------------------------

  /** Whatever follows the diff, no path of either is hidden. */
  ghost predicate HidesNothing(first: string) {
    forall second: string :: TouchedSet(first) + TouchedSet(second) <= TouchedSet(first + second)
  }

  /** A diff put before another hides no path of either, whatever the other is, exactly if it is
      empty or ends its last line. */
  lemma HidesNothingExactly(first: string)
    ensures HidesNothing(first) <==> EndsLine(first)
  {
    hide TouchedSet, Renaming;
    if EndsLine(first) {
      forall second: string ensures TouchedSet(first) + TouchedSet(second) <= TouchedSet(first + second) {
        ConcatTouchesBoth(first, second);
      }
    } else {
      var n := NameIsLost(first);
      NameIsTouched(n);
      assert !(TouchedSet(first) + TouchedSet(Renaming(n)) <= TouchedSet(first + Renaming(n)));
    }
  }

  predicate Passes(p: Policy, declared: seq<string>, diff: string) {
    DenylistClear(p, diff) && BlastConsistent(declared, diff)
  }

  /** Whatever follows the diff, and whatever the policy and the declaration, a clearance of the
      whole is one of each part. */
  ghost predicate ClearsTheParts(first: string) {
    forall p: Policy, declared: seq<string>, second: string ::
      Passes(p, declared, first + second) ==> Passes(p, declared, first) && Passes(p, declared, second)
  }

  /** The policy that denies one name and nothing else. */
  function DenyOnly(name: string): Policy {
    Policy([DenyClass("denied", path => path == name)], [], false, path => path, (diff, touched) => [])
  }

  lemma DenyOnlyHits(name: string, raw: string)
    requires name != ""
    ensures HitsOf(DenyOnly(name), raw) == if NormalizePath(raw) == name then {"denied:" + name} else {}
  {
    hide NormalizePath;
    var p, np := DenyOnly(name), NormalizePath(raw);
    assert !MatchesAny(p.lower, p.lower(np), p.extraPrefixes);
    assert p.classes[0].denies(np) == (np == name) && p.classes[0].name == "denied";
    assert ClassHits(p.classes, 1, np, np) == ClassHits(p.classes, 0, np, np) + (if np == name then {"denied:" + np} else {});
    assert "denied" + ":" + np == "denied:" + np;
  }

  lemma {:induction false} Listed(s: set<string>) returns (ss: seq<string>)
    ensures forall x :: x in s <==> x in ss
    decreases |s|
  {
    if s == {} {
      ss := [];
    } else {
      var x :| x in s;
      ss := Listed(s - {x});
      ss := [x] + ss;
    }
  }

  lemma DeclaresItself(declared: seq<string>, raw: string)
    requires raw in declared
    ensures !Undeclared(declared, raw)
  {
    hide NormalizePath;
    var i :| 0 <= i < |declared| && declared[i] == raw;
    assert CoveredBy(NormalizePath(raw), NormalizePath(declared[i]));
  }

  /** A clearance of two diffs put together is one of each, whatever the policy, exactly if the
      first is empty or ends its last line. */
  lemma ClearsThePartsExactly(first: string)
    ensures ClearsTheParts(first) <==> EndsLine(first)
  {
    if EndsLine(first) {
      hide DenylistClear, BlastConsistent;
      forall p: Policy, declared: seq<string>, second: string | Passes(p, declared, first + second)
        ensures Passes(p, declared, first) && Passes(p, declared, second)
      {
        PartsInheritClearance(p, declared, first, second);
      }
    } else {
      hide TouchedSet, Renaming, Name, NormalizePath, HitsOf, Undeclared, DenyOnly, ClearsTheParts;
      var n := NameIsLost(first);
      NameIsTouched(n);
      UnclearedPart(first, Renaming(n), Name(n));
    }
  }

  lemma UnclearedPart(first: string, second: string, name: string)
    requires name != "" && name in TouchedSet(second) && NormalizePath(name) == name
    requires forall q :: q in TouchedSet(first + second) ==> NormalizePath(q) != name
    ensures !ClearsTheParts(first)
  {
    hide TouchedSet, NormalizePath, HitsOf, Undeclared, DenyOnly;
    var p := DenyOnly(name);
    var declared := Listed(TouchedSet(first + second));
    assert !p.allowOwnSource by { DenyOnlyIsStrict(name); }
    forall raw ensures HitsOf(p, raw) == if NormalizePath(raw) == name then {"denied:" + name} else {} {
      DenyOnlyHits(name, raw);
    }
    forall raw | raw in TouchedSet(first + second) ensures !Undeclared(declared, raw) {
      DeclaresItself(declared, raw);
    }
    assert "denied:" + name in HitsOf(p, name);
    assert !ClearPath(p, name);
    assert Passes(p, declared, first + second) && !Passes(p, declared, second);
  }

  lemma DenyOnlyIsStrict(name: string)
    ensures !DenyOnly(name).allowOwnSource
  {
  }
}
