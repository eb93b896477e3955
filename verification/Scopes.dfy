/** Scope reservation (internal/epicspec/scope.go): a cheap prefix test that over-approximates
    whether two lists of globs can match a common path. Case folding is a parameter, applied
    character by character. */
module Scopes {
  type Fold = char -> char

  function Folded(fold: Fold, s: string): (t: string)
    ensures |t| == |s| && forall i :: 0 <= i < |s| ==> t[i] == fold(s[i])
  {
    if s == "" then "" else [fold(s[0])] + Folded(fold, s[1..])
  }

  predicate IsWildcard(c: char) { c == '*' || c == '?' || c == '[' }

  /** The literal text before a glob's first wildcard. */
  function GlobPrefix(glob: string): (p: string)
    ensures p <= glob && forall i :: 0 <= i < |p| ==> !IsWildcard(p[i])
    ensures p == glob || IsWildcard(glob[|p|])
  {
    if glob == "" || IsWildcard(glob[0]) then "" else [glob[0]] + GlobPrefix(glob[1..])
  }

  /** One literal prefix is a text prefix of the other, letter case aside. */
  predicate Conflict(fold: Fold, ga: string, gb: string) {
    var pa, pb := Folded(fold, GlobPrefix(ga)), Folded(fold, GlobPrefix(gb));
    pa == "" || pb == "" || pb <= pa || pa <= pb
  }

  predicate Overlap(fold: Fold, a: seq<string>, b: seq<string>) {
    exists i, k :: 0 <= i < |a| && 0 <= k < |b| && Conflict(fold, a[i], b[k])
  }

  method ScopeOverlap(fold: Fold, a: seq<string>, b: seq<string>) returns (overlaps: bool, globA: string, globB: string)
    ensures overlaps <==> Overlap(fold, a, b)
    ensures overlaps ==> globA in a && globB in b && Conflict(fold, globA, globB)
  {
    hide Conflict;
    for i := 0 to |a|
      invariant forall m, k :: 0 <= m < i && 0 <= k < |b| ==> !Conflict(fold, a[m], b[k])
    {
      for k := 0 to |b|
        invariant forall m :: 0 <= m < k ==> !Conflict(fold, a[i], b[m])
      {
        if Conflict(fold, a[i], b[k]) {
          return true, a[i], b[k];
        }
      }
    }
    return false, "", "";
  }

  // ---- what a glob matches ------------------------------------------------------------

  /** The end of a bracket class that starts after its '[': the next ']' past the first place. */
  function ClassEnd(s: string, from: nat): (n: nat)
    ensures from <= n && (n <= |s| || n == from)
    decreases |s| - from
  {
    if from >= |s| || s[from] == ']' then from else ClassEnd(s, from + 1)
  }

  /** c is listed in the class body, singly or in a range; a leading '!' or '^' negates. */
  predicate Listed(fold: Fold, body: string, c: char) {
    if body == "" then false
    else if |body| >= 3 && body[1] == '-' then
      fold(body[0]) <= fold(c) <= fold(body[2]) || Listed(fold, body[3..], c)
    else fold(body[0]) == fold(c) || Listed(fold, body[1..], c)
  }

  predicate InClass(fold: Fold, body: string, c: char) {
    if body != "" && (body[0] == '!' || body[0] == '^') then !Listed(fold, body[1..], c) else Listed(fold, body, c)
  }

  /** path matches glob: '**' any text, '*' any text within a segment, '?' one character of a
      segment, '[...]' one listed character, anything else itself; letter case aside. */
  predicate Matches(fold: Fold, glob: string, path: string)
    decreases |glob|, |path|
  {
    if glob == "" then path == ""
    else if glob[0] == '*' && |glob| >= 2 && glob[1] == '*' then
      Matches(fold, glob[2..], path) || (path != "" && Matches(fold, glob, path[1..]))
    else if glob[0] == '*' then
      Matches(fold, glob[1..], path) || (path != "" && path[0] != '/' && Matches(fold, glob, path[1..]))
    else if path == "" then false
    else if glob[0] == '?' then path[0] != '/' && Matches(fold, glob[1..], path[1..])
    else if glob[0] == '[' then
      var end := ClassEnd(glob, 2);
      end < |glob| && path[0] != '/' && InClass(fold, glob[1..end], path[0]) && Matches(fold, glob[end + 1..], path[1..])
    else fold(path[0]) == fold(glob[0]) && Matches(fold, glob[1..], path[1..])
  }

  /** What a glob matches starts with its literal prefix. */
  lemma {:induction false} MatchKeepsPrefix(fold: Fold, glob: string, path: string)
    requires Matches(fold, glob, path)
    ensures Folded(fold, GlobPrefix(glob)) <= Folded(fold, path)
    decreases |glob|
  {
    if glob != "" && !IsWildcard(glob[0]) {
      MatchKeepsPrefix(fold, glob[1..], path[1..]);
      var p, q := Folded(fold, GlobPrefix(glob[1..])), Folded(fold, path[1..]);
      assert Folded(fold, path) == [fold(path[0])] + q;
      assert GlobPrefix(glob)[1..] == GlobPrefix(glob[1..]);
      assert Folded(fold, GlobPrefix(glob)) == [fold(glob[0])] + p;
      assert q[..|p|] == p;
      assert ([fold(path[0])] + q)[..1 + |p|] == [fold(path[0])] + p;
    }
  }

  /** Some path is claimed by both lists. */
  ghost predicate ShareAPath(fold: Fold, a: seq<string>, b: seq<string>) {
    exists path: string, i, k ::
      0 <= i < |a| && 0 <= k < |b| && Matches(fold, a[i], path) && Matches(fold, b[k], path)
  }

  /** The prefix test never misses a common path. */
  lemma OverlapIsSound(fold: Fold, a: seq<string>, b: seq<string>)
    requires ShareAPath(fold, a, b)
    ensures Overlap(fold, a, b)
  {
    hide Folded, GlobPrefix;
    var path: string, i, k :|
      0 <= i < |a| && 0 <= k < |b| && Matches(fold, a[i], path) && Matches(fold, b[k], path);
    MatchKeepsPrefix(fold, a[i], path);
    MatchKeepsPrefix(fold, b[k], path);
    var pa, pb, p := Folded(fold, GlobPrefix(a[i])), Folded(fold, GlobPrefix(b[k])), Folded(fold, path);
    assert pa == p[..|pa|] && pb == p[..|pb|];
    if |pa| <= |pb| {
      assert pa == pb[..|pa|];
    } else {
      assert pb == pa[..|pb|];
    }
    assert Conflict(fold, a[i], b[k]);
  }

  /** It does not matter which list comes first. */
  lemma OverlapIsSymmetric(fold: Fold, a: seq<string>, b: seq<string>)
    ensures Overlap(fold, a, b) <==> Overlap(fold, b, a)
  {
  }

  // ---- when two lists are free of each other ---------------------------------------------

  /** Both globs spell out their character n, and differently, before any wildcard. */
  predicate PartsAt(fold: Fold, ga: string, gb: string, n: nat) {
    && n < |ga| && n < |gb| && fold(ga[n]) != fold(gb[n])
    && forall i :: 0 <= i <= n ==> !IsWildcard(ga[i]) && !IsWildcard(gb[i])
  }

  predicate Part(fold: Fold, ga: string, gb: string) { exists n: nat :: n < |ga| && PartsAt(fold, ga, gb, n) }

  lemma {:induction false} FirstDifference(p: string, q: string) returns (n: nat)
    requires !(p <= q) && !(q <= p)
    ensures n < |p| && n < |q| && p[n] != q[n]
  {
    n := 0;
    if p[0] == q[0] {
      assert p == [p[0]] + p[1..] && q == [q[0]] + q[1..];
      n := FirstDifference(p[1..], q[1..]);
      n := n + 1;
    }
  }

  lemma GlobsConflictOrPart(fold: Fold, ga: string, gb: string)
    ensures Conflict(fold, ga, gb) <==> !Part(fold, ga, gb)
  {
    hide GlobPrefix, Folded;
    var pa, pb := GlobPrefix(ga), GlobPrefix(gb);
    if Part(fold, ga, gb) {
      var n: nat :| n < |ga| && PartsAt(fold, ga, gb, n);
      assert n < |pa| && n < |pb|;
      assert Folded(fold, pa)[n] != Folded(fold, pb)[n];
    }
    if !Conflict(fold, ga, gb) {
      var n := FirstDifference(Folded(fold, pa), Folded(fold, pb));
      assert forall i :: 0 <= i <= n ==> pa[i] == ga[i] && pb[i] == gb[i];
      assert PartsAt(fold, ga, gb, n);
    }
  }

  /** Two lists are free of each other exactly if any two of their globs differ, letter case aside,
      in a character both spell out before their first wildcard. */
  lemma FreeExactly(fold: Fold, a: seq<string>, b: seq<string>)
    ensures !Overlap(fold, a, b) <==> forall i, k :: 0 <= i < |a| && 0 <= k < |b| ==> Part(fold, a[i], b[k])
  {
    hide Conflict, Part;
    forall i, k | 0 <= i < |a| && 0 <= k < |b| ensures Conflict(fold, a[i], b[k]) <==> !Part(fold, a[i], b[k]) {
      GlobsConflictOrPart(fold, a[i], b[k]);
    }
  }

  /** A glob that claims everything that begins with a literal text. */
  predicate ClaimsTree(glob: string) {
    |glob| >= 2 && glob[|glob| - 2..] == "**" && forall i :: 0 <= i < |glob| - 2 ==> !IsWildcard(glob[i])
  }

  lemma {:induction false} AnyMatches(fold: Fold, path: string)
    ensures Matches(fold, "**", path)
    decreases path
  {
    assert "**"[2..] == "";
    if path != "" {
      AnyMatches(fold, path[1..]);
    }
  }

  lemma {:induction false} TreeMatches(fold: Fold, glob: string, path: string)
    requires ClaimsTree(glob) && Folded(fold, glob[..|glob| - 2]) <= Folded(fold, path)
    ensures Matches(fold, glob, path)
    decreases |glob|
  {
    if |glob| == 2 {
      AnyMatches(fold, path);
    } else {
      var literal := glob[..|glob| - 2];
      var rest := glob[1..];
      assert rest[..|rest| - 2] == literal[1..] && rest[|rest| - 2..] == "**";
      assert Folded(fold, literal)[0] == Folded(fold, path)[0];
      assert Folded(fold, literal)[1..] == Folded(fold, literal[1..]) && Folded(fold, path)[1..] == Folded(fold, path[1..]);
      assert Folded(fold, literal)[1..] <= Folded(fold, path)[1..];
      TreeMatches(fold, rest, path[1..]);
    }
  }

  lemma ConflictingTreesShare(fold: Fold, ga: string, gb: string) returns (path: string)
    requires ClaimsTree(ga) && ClaimsTree(gb) && Conflict(fold, ga, gb)
    ensures Matches(fold, ga, path) && Matches(fold, gb, path)
  {
    var la, lb := ga[..|ga| - 2], gb[..|gb| - 2];
    assert ga[|ga| - 2] == ga[|ga| - 2..][0] && gb[|gb| - 2] == gb[|gb| - 2..][0];
    assert GlobPrefix(ga) == la && GlobPrefix(gb) == lb;
    path := if Folded(fold, la) <= Folded(fold, lb) then lb else la;
    TreeMatches(fold, ga, path);
    TreeMatches(fold, gb, path);
  }

  /** Among globs that claim whole trees the test is exact: it reports an overlap only if some path
      is claimed by both lists. */
  lemma TreesOverlapExactly(fold: Fold, a: seq<string>, b: seq<string>)
    requires (forall g :: g in a ==> ClaimsTree(g)) && (forall g :: g in b ==> ClaimsTree(g))
    ensures Overlap(fold, a, b) <==> ShareAPath(fold, a, b)
  {
    hide Matches, Conflict, ClaimsTree;
    if Overlap(fold, a, b) {
      var i, k :| 0 <= i < |a| && 0 <= k < |b| && Conflict(fold, a[i], b[k]);
      var path := ConflictingTreesShare(fold, a[i], b[k]);
    } else if ShareAPath(fold, a, b) {
      OverlapIsSound(fold, a, b);
    }
  }
}
