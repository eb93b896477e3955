/** The touched paths of a git diff (internal/content/content.go, TouchedPaths and its helpers). */
module Diffs {
  import opened Bytes
  import opened Quoting
  import opened Paths

  const DIFF_GIT := "diff --git "
  const NEW_FILE := "+++ "
  const OLD_FILE := "--- "
  const RENAME_TO := "rename to "
  const RENAME_FROM := "rename from "

  function BeforeTab(p: string): (q: string)
    ensures q <= p && '\t' !in q
  {
    if p == "" || p[0] == '\t' then "" else [p[0]] + BeforeTab(p[1..])
  }

  function StripDiffPathPrefix(p: string): string {
    var q := Unquote(TrimSpace(BeforeTab(p)));
    if q == DEV_NULL then q else TrimPrefix(TrimPrefix(q, "a/"), "b/")
  }

  /** P when rest reads "a/P b/P", else "". */
  function SymmetricDiffGitPath(rest: string): string {
    var n := |rest| - 5;
    if !HasPrefix(rest, "a/") || n < 2 || n % 2 != 0 then ""
    else
      var p := rest[2..2 + n / 2];
      if rest == "a/" + p + " b/" + p then p else ""
  }

  function IndexOf(s: string, c: char): (i: nat)
    ensures i <= |s| && c !in s[..i] && (i < |s| ==> s[i] == c)
  {
    if s == "" || s[0] == c then 0
    else
      var i := 1 + IndexOf(s[1..], c);
      assert s[..i] == [s[0]] + s[1..][..i - 1];
      i
  }

  datatype Sides = Sides(a: string, b: string)

  function ParseDiffGit(line: string): Sides {
    var rest := TrimPrefix(line, DIFF_GIT);
    var p := SymmetricDiffGitPath(rest);
    var i := IndexOf(rest, ' ');
    if p != "" then Sides(p, p)
    else if i == |rest| then Sides("", "")
    else Sides(StripDiffPathPrefix(rest[..i]), StripDiffPathPrefix(rest[i + 1..]))
  }

  // ---- what the lines name --------------------------------------------------------------

  /** The raw paths one line names. */
  function NamedBy(line: string): set<string> {
    if HasPrefix(line, DIFF_GIT) then
      var sides := ParseDiffGit(line);
      if sides.b == "" then {sides.b, sides.a} else {sides.b}
    else if HasPrefix(line, NEW_FILE) then {StripDiffPathPrefix(TrimSpace(line[4..]))}
    else if HasPrefix(line, OLD_FILE) then {}
    else if HasPrefix(line, RENAME_TO) then {Unquote(TrimSpace(line[|RENAME_TO|..]))}
    else if HasPrefix(line, RENAME_FROM) then {Unquote(TrimSpace(line[|RENAME_FROM|..]))}
    else {}
  }

  /** The raw path two adjacent lines delete. */
  function DeletedBy(before: string, next: string): set<string> {
    if HasPrefix(before, OLD_FILE) && HasPrefix(next, NEW_FILE) then
      var from := StripDiffPathPrefix(TrimSpace(before[4..]));
      var to := StripDiffPathPrefix(TrimSpace(next[4..]));
      if to == DEV_NULL && from != DEV_NULL then {from} else {}
    else {}
  }

  /** A raw path counts unless it normalizes away. */
  predicate Counts(p: string) { NormalizePath(p) != "" && NormalizePath(p) != DEV_NULL }

  function Kept(raw: set<string>): set<string> { set p | p in raw && Counts(p) :: NormalizePath(p) }

  /** What the lines from i on name and delete, up to n. */
  function NamedIn(lines: seq<string>, n: nat): set<string>
    requires n <= |lines|
  {
    if n == 0 then {} else NamedIn(lines, n - 1) + Kept(NamedBy(lines[n - 1]))
  }

  function DeletedIn(lines: seq<string>, n: nat): set<string>
    requires n < |lines|
  {
    if n == 0 then {} else DeletedIn(lines, n - 1) + Kept(DeletedBy(lines[n - 1], lines[n]))
  }

  /** The normalized paths a diff touches. */
  function TouchedSet(diff: string): set<string> {
    var lines := Split(diff, '\n');
    NamedIn(lines, |lines|) + DeletedIn(lines, |lines| - 1)
  }

  // ---- the parser ---------------------------------------------------------------------------

  /** Records a path once, if it counts. */
  method Add(seen: set<string>, out: seq<string>, p: string) returns (seen': set<string>, out': seq<string>)
    requires seen == Elements(out)
    ensures seen' == Elements(out') == seen + Kept({p})
  {
    hide NormalizePath, Kept;
    KeptOfOne(p);
    var np := NormalizePath(p);
    if np == "" || np == DEV_NULL || np in seen {
      return seen, out;
    }
    return seen + {np}, out + [np];
  }

  lemma KeptOfOne(p: string)
    ensures Kept({p}) == if Counts(p) then {NormalizePath(p)} else {}
  {
  }

  lemma KeptOfTwo(p: string, q: string)
    ensures Kept({p, q}) == Kept({p}) + Kept({q})
  {
  }

  method TouchedPaths(diff: string) returns (paths: seq<string>)
    ensures StrictlySorted(paths) && Elements(paths) == TouchedSet(diff)
  {
    hide NormalizePath, StripDiffPathPrefix, ParseDiffGit, Unquote, TrimSpace, Counts, Kept;
    var lines := Split(diff, '\n');
    var seen: set<string>, out: seq<string> := {}, [];
    for i := 0 to |lines|
      invariant seen == Elements(out) == NamedIn(lines, i)
    {
      var line := lines[i];
      if HasPrefix(line, DIFF_GIT) {
        var sides := ParseDiffGit(line);
        seen, out := Add(seen, out, sides.b);
        if sides.b == "" {
          seen, out := Add(seen, out, sides.a);
          KeptOfTwo(sides.b, sides.a);
        }
      } else if HasPrefix(line, NEW_FILE) {
        seen, out := Add(seen, out, StripDiffPathPrefix(TrimSpace(line[4..])));
      } else if HasPrefix(line, OLD_FILE) {
        NothingKept();
      } else if HasPrefix(line, RENAME_TO) {
        seen, out := Add(seen, out, Unquote(TrimSpace(line[|RENAME_TO|..])));
      } else if HasPrefix(line, RENAME_FROM) {
        seen, out := Add(seen, out, Unquote(TrimSpace(line[|RENAME_FROM|..])));
      } else {
        NothingKept();
      }
    }
    seen, out := ScanDeletes(lines, seen, out);
    paths := Sort(out);
  }

  lemma NothingKept()
    ensures Kept({}) == {}
  {
  }

  /** Adds the old name of every file whose new side is /dev/null. */
  method ScanDeletes(lines: seq<string>, seen: set<string>, out: seq<string>) returns (seen': set<string>,
      out': seq<string>)
    requires lines != [] && seen == Elements(out)
    ensures seen' == Elements(out') == seen + DeletedIn(lines, |lines| - 1)
  {
    hide StripDiffPathPrefix, TrimSpace, Kept;
    seen', out' := seen, out;
    for i := 0 to |lines| - 1
      invariant seen' == Elements(out') == seen + DeletedIn(lines, i)
    {
      NothingKept();
      if HasPrefix(lines[i], OLD_FILE) && HasPrefix(lines[i + 1], NEW_FILE) {
        var from := StripDiffPathPrefix(TrimSpace(lines[i][4..]));
        var to := StripDiffPathPrefix(TrimSpace(lines[i + 1][4..]));
        if to == DEV_NULL && from != DEV_NULL {
          seen', out' := Add(seen', out', from);
        }
      }
    }
  }

  // ---- where the line cuts leave text alone ----------------------------------------------------

  lemma {:induction false} BeforeTabAcross(a: string, b: string)
    requires '\t' !in b
    ensures BeforeTab(a + b) == if '\t' in a then BeforeTab(a) else a + b
    decreases a
  {
    if a == "" {
      assert a + b == b;
      NoTabToCut(b);
    } else {
      assert (a + b)[0] == a[0] && (a + b)[1..] == a[1..] + b;
      BeforeTabAcross(a[1..], b);
      assert [a[0]] + (a[1..] + b) == a + b;
    }
  }

  lemma {:induction false} NoTabToCut(p: string)
    requires '\t' !in p
    ensures BeforeTab(p) == p
    decreases p
  {
    if p != "" {
      NoTabToCut(p[1..]);
    }
  }

  /** Stripping a path ends in t if t marks where the strip stops: visible at both ends, no part of
      a prefix, and nothing a quoted name is made of. */
  lemma StripAcross(w: string, t: string) returns (x: string)
    requires '\t' !in w && '\t' !in t
    requires t != "" && Visible(t[0]) && t[0] !in "ab/" && Visible(t[|t| - 1])
    requires t[|t| - 1] != '"' || (TrimLeft(w) != "" && TrimLeft(w)[0] != '"')
    ensures StripDiffPathPrefix(w + t) == x + t
  {
    hide TrimLeft, TrimSpace, TrimPrefix, BeforeTab, UnquoteBody;
    BeforeTabAcross(w, t);
    TrimSpaceAcross(w, t);
    var q := TrimLeft(w) + t;
    assert q[|q| - 1] == t[|t| - 1] && (TrimLeft(w) != "" ==> q[0] == TrimLeft(w)[0]);
    TrimPrefixAcross(TrimLeft(w), t, "a/");
    TrimPrefixAcross(TrimPrefix(TrimLeft(w), "a/"), t, "b/");
    x := if q == DEV_NULL then TrimLeft(w) else TrimPrefix(TrimPrefix(TrimLeft(w), "a/"), "b/");
  }

  // ---- membership ---------------------------------------------------------------------------

  lemma {:induction false} NamedIsTouched(lines: seq<string>, n: nat, i: nat, p: string)
    requires i < n <= |lines| && p in NamedBy(lines[i]) && Counts(p)
    ensures NormalizePath(p) in NamedIn(lines, n)
  {
    hide NamedBy, NormalizePath;
    if i + 1 < n {
      NamedIsTouched(lines, n - 1, i, p);
    }
  }

  lemma {:induction false} DeletedIsTouched(lines: seq<string>, n: nat, i: nat, p: string)
    requires i < n < |lines| && p in DeletedBy(lines[i], lines[i + 1]) && Counts(p)
    ensures NormalizePath(p) in DeletedIn(lines, n)
  {
    hide DeletedBy, NormalizePath;
    if i + 1 < n {
      DeletedIsTouched(lines, n - 1, i, p);
    }
  }
}
