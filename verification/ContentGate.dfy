/** The content-integrity gate over a diff: denylist, declared blast radius, static checks
    (internal/content/content.go, CheckWithPolicy). The denylist classes, case folding and the
    static checks are parameters: arbitrary functions of the lower-cased path, the text and the
    patch. */
module ContentGate {
  import opened Bytes
  import opened Paths
  import opened Diffs
  import ContentResults
  import Encoding

  datatype DenyClass = DenyClass(name: string, denies: string -> bool)

  datatype Policy = Policy(
    classes: seq<DenyClass>, extraPrefixes: seq<string>, allowOwnSource: bool,
    lower: string -> string, staticFailures: (string, seq<string>) -> seq<string>)

  const CONFIGURED := "configured"
  const OWN_SOURCE := "flowbee_source:"

  // ---- the denylist ---------------------------------------------------------------------

  /** The lower-cased path is, or sits beneath, the configured prefix. */
  predicate UnderPrefix(lower: string -> string, path: string, raw: string) {
    lower(NormalizePath(raw)) != "" && CoveredBy(path, lower(NormalizePath(raw)))
  }

  predicate MatchesAny(lower: string -> string, path: string, prefixes: seq<string>) {
    exists i :: 0 <= i < |prefixes| && UnderPrefix(lower, path, prefixes[i])
  }

  function ClassHits(classes: seq<DenyClass>, n: nat, lp: string, np: string): set<string>
    requires n <= |classes|
  {
    if n == 0 then {}
    else ClassHits(classes, n - 1, lp, np)
         + (if classes[n - 1].denies(lp) then {classes[n - 1].name + ":" + np} else {})
  }

  /** The hits of one touched path. */
  function HitsOf(p: Policy, raw: string): set<string> {
    var np := NormalizePath(raw);
    if np == "" then {}
    else ClassHits(p.classes, |p.classes|, p.lower(np), np)
         + (if MatchesAny(p.lower, p.lower(np), p.extraPrefixes) then {CONFIGURED + ":" + np} else {})
  }

  function HitsIn(p: Policy, touched: seq<string>, n: nat): set<string>
    requires n <= |touched|
  {
    if n == 0 then {} else HitsIn(p, touched, n - 1) + HitsOf(p, touched[n - 1])
  }

  method MatchesAnyPrefix(lower: string -> string, path: string, prefixes: seq<string>) returns (m: bool)
    ensures m <==> MatchesAny(lower, path, prefixes)
  {
    hide NormalizePath, EndsInSlash, HasPrefix;
    for i := 0 to |prefixes|
      invariant forall k :: 0 <= k < i ==> !UnderPrefix(lower, path, prefixes[k])
    {
      var np := lower(NormalizePath(prefixes[i]));
      if np == "" {
        continue;
      }
      if path == np || HasPrefix(path, if EndsInSlash(np) then np else np + "/") {
        assert UnderPrefix(lower, path, prefixes[i]);
        return true;
      }
    }
    return false;
  }

  method AddHit(hits: set<string>, out: seq<string>, h: string) returns (hits': set<string>, out': seq<string>)
    requires hits == Elements(out)
    ensures hits' == Elements(out') == hits + {h}
  {
    if h in hits {
      return hits, out;
    }
    return hits + {h}, out + [h];
  }

  /** Every denylist hit of the touched paths, sorted. */
  method DenylistHitsWith(p: Policy, touched: seq<string>) returns (sorted: seq<string>)
    ensures StrictlySorted(sorted) && Elements(sorted) == HitsIn(p, touched, |touched|)
  {
    hide NormalizePath, MatchesAny;
    var seen: set<string>, out: seq<string> := {}, [];
    for i := 0 to |touched|
      invariant seen == Elements(out) == HitsIn(p, touched, i)
    {
      var np := NormalizePath(touched[i]);
      if np == "" {
        continue;
      }
      var lp := p.lower(np);
      for m := 0 to |p.classes|
        invariant seen == Elements(out) == HitsIn(p, touched, i) + ClassHits(p.classes, m, lp, np)
      {
        if p.classes[m].denies(lp) {
          seen, out := AddHit(seen, out, p.classes[m].name + ":" + np);
        }
      }
      var configured := MatchesAnyPrefix(p.lower, lp, p.extraPrefixes);
      if configured {
        seen, out := AddHit(seen, out, CONFIGURED + ":" + np);
      }
    }
    sorted := Sort(out);
  }

  /** Drops the hits of one class. */
  method WithoutClass(hits: seq<string>, prefix: string) returns (kept: seq<string>)
    ensures Elements(kept) == set h | h in hits && !HasPrefix(h, prefix)
  {
    kept := [];
    for i := 0 to |hits|
      invariant forall h :: h in kept <==> h in hits[..i] && !HasPrefix(h, prefix)
    {
      hide HasPrefix;
      assert hits[..i + 1] == hits[..i] + [hits[i]];
      if !HasPrefix(hits[i], prefix) {
        kept := kept + [hits[i]];
      }
    }
    assert hits[..|hits|] == hits;
  }

  // ---- the blast radius -----------------------------------------------------------------

  /** The touched path is one the declaration does not cover. */
  predicate Undeclared(declared: seq<string>, raw: string) {
    NormalizePath(raw) != "" && !Declares(declared, NormalizePath(raw))
  }

  function UndeclaredIn(declared: seq<string>, touched: seq<string>, n: nat): set<string>
    requires n <= |touched|
  {
    if n == 0 then {}
    else UndeclaredIn(declared, touched, n - 1)
         + (if Undeclared(declared, touched[n - 1]) then {NormalizePath(touched[n - 1])} else {})
  }

  method UndeclaredPaths(touched: seq<string>, declared: seq<string>) returns (sorted: seq<string>)
    ensures StrictlySorted(sorted) && Elements(sorted) == UndeclaredIn(declared, touched, |touched|)
  {
    hide NormalizePath, Declares;
    var out: seq<string> := [];
    for i := 0 to |touched|
      invariant Elements(out) == UndeclaredIn(declared, touched, i)
    {
      var nt := NormalizePath(touched[i]);
      if nt == "" {
        continue;
      }
      var covered := DeclarationCovers(nt, declared);
      if !covered {
        out := out + [nt];
      }
    }
    sorted := Sort(out);
  }

  // ---- the gate ---------------------------------------------------------------------------

  /** A touched path may pass the denylist. */
  predicate ClearPath(p: Policy, raw: string) {
    forall h :: h in HitsOf(p, raw) ==> p.allowOwnSource && HasPrefix(h, OWN_SOURCE)
  }

  predicate DenylistClear(p: Policy, diff: string) {
    forall raw :: raw in TouchedSet(diff) ==> ClearPath(p, raw)
  }

  predicate BlastConsistent(declared: seq<string>, diff: string) {
    forall raw :: raw in TouchedSet(diff) ==> !Undeclared(declared, raw)
  }

  lemma {:induction false} HitsComeFromPaths(p: Policy, touched: seq<string>, n: nat, h: string)
    requires n <= |touched|
    ensures h in HitsIn(p, touched, n) <==> exists i :: 0 <= i < n && h in HitsOf(p, touched[i])
  {
    hide HitsOf;
    if n > 0 {
      HitsComeFromPaths(p, touched, n - 1, h);
    }
  }

  lemma {:induction false} UndeclaredComeFromPaths(declared: seq<string>, touched: seq<string>, n: nat)
    requires n <= |touched|
    ensures UndeclaredIn(declared, touched, n) == {} <==> forall i :: 0 <= i < n ==> !Undeclared(declared, touched[i])
  {
    hide Undeclared, NormalizePath;
    if n > 0 {
      UndeclaredComeFromPaths(declared, touched, n - 1);
    }
  }

  /** The gate's verdict on a patch: each condition says what it says of every touched path. */
  method CheckWithPolicy(p: Policy, diff: string, declared: seq<string>) returns (r: ContentResults.Result)
    ensures r.denylistClear <==> DenylistClear(p, diff)
    ensures r.blastRadiusConsistent <==> BlastConsistent(declared, diff)
    ensures r.denylistClear <==> r.denylistHits == []
    ensures r.blastRadiusConsistent <==> r.undeclaredPaths == []
    ensures r.staticChecksPass <==> r.staticFailures == []
    ensures exists touched ::
      StrictlySorted(touched) && Elements(touched) == TouchedSet(diff) && r.staticFailures == p.staticFailures(diff, touched)
  {
    hide TouchedSet, HitsOf, Undeclared, NormalizePath, StrictlySorted;
    var touched := TouchedPaths(diff);
    var hits := DenylistHitsWith(p, touched);
    ghost var all := hits;
    if p.allowOwnSource {
      hits := WithoutClass(hits, OWN_SOURCE);
    }
    var undeclared := UndeclaredPaths(touched, declared);
    var failures := p.staticFailures(diff, touched);
    r := ContentResults.Result(hits == [], undeclared == [], failures == [], hits, undeclared, failures);
    ClearIffNoHits(p, diff, touched, all, hits);
    UndeclaredComeFromPaths(declared, touched, |touched|);
    EmptyElements(undeclared);
    forall raw ensures raw in TouchedSet(diff) <==> exists i :: 0 <= i < |touched| && touched[i] == raw {
      assert raw in Elements(touched) <==> raw in touched;
    }
  }

  lemma EmptyElements(ss: seq<string>)
    ensures ss == [] <==> Elements(ss) == {}
  {
    if ss != [] {
      assert ss[0] in Elements(ss);
    }
  }

  lemma ClearIffNoHits(p: Policy, diff: string, touched: seq<string>, all: seq<string>, hits: seq<string>)
    requires Elements(touched) == TouchedSet(diff) && Elements(all) == HitsIn(p, touched, |touched|)
    requires if p.allowOwnSource then Elements(hits) == set h | h in all && !HasPrefix(h, OWN_SOURCE) else hits == all
    ensures hits == [] <==> DenylistClear(p, diff)
  {
    hide TouchedSet, HitsOf, HitsIn, HasPrefix;
    EmptyElements(hits);
    forall h ensures h in all <==> exists i :: 0 <= i < |touched| && h in HitsOf(p, touched[i]) {
      HitsComeFromPaths(p, touched, |touched|, h);
      assert h in Elements(all) <==> h in all;
    }
    forall raw ensures raw in TouchedSet(diff) <==> raw in touched {
      assert raw in Elements(touched) <==> raw in touched;
    }
    forall h ensures h in hits <==> h in all && !(p.allowOwnSource && HasPrefix(h, OWN_SOURCE)) {
      assert h in Elements(hits) <==> h in hits;
    }
    if hits == [] {
      forall raw | raw in TouchedSet(diff) ensures ClearPath(p, raw) {
        var i :| 0 <= i < |touched| && touched[i] == raw;
        forall h | h in HitsOf(p, raw) ensures p.allowOwnSource && HasPrefix(h, OWN_SOURCE) {
          assert h in HitsOf(p, touched[i]);
          assert h !in hits;
        }
      }
    } else {
      var h := hits[0];
      assert h in hits;
      var i :| 0 <= i < |touched| && h in HitsOf(p, touched[i]);
      assert touched[i] in TouchedSet(diff);
      assert !ClearPath(p, touched[i]);
    }
  }

  // ---- what a clear denylist says ------------------------------------------------------------

  const OWN_CLASS := "flowbee_source"

  /** No class denies the path, the own-source class aside where policy allows it, and it is not at
      or beneath a configured prefix; letter case aside. */
  predicate Unprotected(p: Policy, np: string) {
    && (forall i :: 0 <= i < |p.classes| && p.classes[i].denies(p.lower(np)) ==>
          p.allowOwnSource && p.classes[i].name == OWN_CLASS)
    && (forall i :: 0 <= i < |p.extraPrefixes| ==>
          var dir := p.lower(NormalizePath(p.extraPrefixes[i])); dir == "" || !CoveredBy(p.lower(np), dir))
  }

  lemma {:induction false} ClassHitsAre(classes: seq<DenyClass>, n: nat, lp: string, np: string, h: string)
    requires n <= |classes|
    ensures h in ClassHits(classes, n, lp, np) <==> exists i :: 0 <= i < n && classes[i].denies(lp) && h == classes[i].name + ":" + np
  {
    if n > 0 {
      ClassHitsAre(classes, n - 1, lp, np, h);
    }
  }

  lemma OwnSourceHit(name: string, np: string)
    requires ':' !in name
    ensures HasPrefix(name + ":" + np, OWN_SOURCE) <==> name == OWN_CLASS
    ensures !HasPrefix(CONFIGURED + ":" + np, OWN_SOURCE)
  {
    var hit := name + ":" + np;
    assert OWN_SOURCE == OWN_CLASS + ":";
    if HasPrefix(hit, OWN_SOURCE) {
      assert hit == OWN_CLASS + [':'] + hit[|OWN_SOURCE|..] && hit == name + [':'] + np;
      Encoding.SplitAtSeparator(name, np, OWN_CLASS, hit[|OWN_SOURCE|..], ':');
    }
    assert (CONFIGURED + ":" + np)[0] == 'c' && OWN_SOURCE[0] == 'f';
  }

  lemma ClearPathExactly(p: Policy, raw: string)
    requires forall i :: 0 <= i < |p.classes| ==> ':' !in p.classes[i].name
    ensures ClearPath(p, raw) <==> NormalizePath(raw) == "" || Unprotected(p, NormalizePath(raw))
  {
    hide NormalizePath, ClassHits, CoveredBy, HasPrefix;
    var np := NormalizePath(raw);
    var lp := p.lower(np);
    forall i | 0 <= i < |p.classes| ensures HasPrefix(p.classes[i].name + ":" + np, OWN_SOURCE) <==> p.classes[i].name == OWN_CLASS {
      OwnSourceHit(p.classes[i].name, np);
    }
    OwnSourceHit("", np);
    forall h ensures h in ClassHits(p.classes, |p.classes|, lp, np) <==>
      exists i :: 0 <= i < |p.classes| && p.classes[i].denies(lp) && h == p.classes[i].name + ":" + np
    {
      ClassHitsAre(p.classes, |p.classes|, lp, np, h);
    }
    if np != "" && ClearPath(p, raw) {
      forall i | 0 <= i < |p.classes| && p.classes[i].denies(lp) ensures p.allowOwnSource && p.classes[i].name == OWN_CLASS {
        assert p.classes[i].name + ":" + np in HitsOf(p, raw);
      }
      forall i | 0 <= i < |p.extraPrefixes|
        ensures var dir := p.lower(NormalizePath(p.extraPrefixes[i])); dir == "" || !CoveredBy(lp, dir)
      {
        assert UnderPrefix(p.lower, lp, p.extraPrefixes[i]) ==> CONFIGURED + ":" + np in HitsOf(p, raw);
      }
    }
  }

  /** The denylist is clear exactly if every touched path is unprotected. */
  lemma DenylistClearExactly(p: Policy, diff: string)
    requires forall i :: 0 <= i < |p.classes| ==> ':' !in p.classes[i].name
    ensures DenylistClear(p, diff)
      <==> forall raw :: raw in TouchedSet(diff) ==> NormalizePath(raw) == "" || Unprotected(p, NormalizePath(raw))
  {
    hide NormalizePath, TouchedSet, ClearPath, Unprotected;
    forall raw ensures ClearPath(p, raw) <==> NormalizePath(raw) == "" || Unprotected(p, NormalizePath(raw)) {
      ClearPathExactly(p, raw);
    }
  }

  // ---- what concatenation and policy growth do --------------------------------------------

  predicate NamesAt(lines: seq<string>, i: nat, q: string) {
    i < |lines| && q in Kept(NamedBy(lines[i]))
  }

  predicate DeletesAt(lines: seq<string>, i: nat, q: string) {
    i + 1 < |lines| && q in Kept(DeletedBy(lines[i], lines[i + 1]))
  }

  lemma {:induction false} NamedComeFromLines(lines: seq<string>, n: nat, q: string)
    requires n <= |lines|
    ensures q in NamedIn(lines, n) <==> exists i: nat :: i < n && NamesAt(lines, i, q)
  {
    hide NamedBy, Kept;
    if n > 0 {
      NamedComeFromLines(lines, n - 1, q);
      assert q in Kept(NamedBy(lines[n - 1])) <==> NamesAt(lines, n - 1, q);
    }
  }

  lemma {:induction false} DeletedComeFromLines(lines: seq<string>, n: nat, q: string)
    requires n < |lines|
    ensures q in DeletedIn(lines, n) <==> exists i: nat :: i < n && DeletesAt(lines, i, q)
  {
    hide DeletedBy, Kept;
    if n > 0 {
      DeletedComeFromLines(lines, n - 1, q);
      assert q in Kept(DeletedBy(lines[n - 1], lines[n])) <==> DeletesAt(lines, n - 1, q);
    }
  }

  /** Some line, or two adjacent ones, touch q. */
  ghost predicate Touches(lines: seq<string>, q: string) {
    exists i: nat :: NamesAt(lines, i, q) || DeletesAt(lines, i, q)
  }

  lemma TouchedByLines(lines: seq<string>, q: string)
    requires lines != []
    ensures q in NamedIn(lines, |lines|) + DeletedIn(lines, |lines| - 1) <==> Touches(lines, q)
  {
    hide NamedBy, DeletedBy, Kept, NamedIn, DeletedIn;
    NamedComeFromLines(lines, |lines|, q);
    DeletedComeFromLines(lines, |lines| - 1, q);
  }

  /** Lines found among others touch what they touch alone. */
  lemma BlockTouches(mine: seq<string>, all: seq<string>, at: nat, q: string)
    requires at + |mine| <= |all| && all[at..at + |mine|] == mine && Touches(mine, q)
    ensures Touches(all, q)
  {
    hide NamedBy, DeletedBy, Kept;
    var i: nat :| NamesAt(mine, i, q) || DeletesAt(mine, i, q);
    assert all[at + i] == all[at..at + |mine|][i];
    if NamesAt(mine, i, q) {
      assert NamesAt(all, at + i, q);
    } else {
      assert all[at + i + 1] == all[at..at + |mine|][i + 1];
      assert DeletesAt(all, at + i, q);
    }
  }

  lemma EmptyLineNamesNothing(line: string)
    ensures NamedBy("") == {} && DeletedBy(line, "") == {}
  {
  }

  lemma EmptyLineTouchesNothing(lines: seq<string>, q: string)
    requires lines != [] && Touches(lines + [""], q)
    ensures Touches(lines, q)
  {
    hide NamedBy, DeletedBy, NormalizePath;
    EmptyLineNamesNothing(lines[|lines| - 1]);
    var i: nat :| NamesAt(lines + [""], i, q) || DeletesAt(lines + [""], i, q);
    if NamesAt(lines + [""], i, q) {
      assert NamesAt(lines, i, q);
    } else {
      assert DeletesAt(lines, i, q);
    }
  }

  /** A diff that is empty or ends its last line, put before another, hides none of the paths of
      either. */
  lemma ConcatTouchesBoth(first: string, second: string)
    requires first == "" || first[|first| - 1] == '\n'
    ensures TouchedSet(first) + TouchedSet(second) <= TouchedSet(first + second)
  {
    hide NamedIn, DeletedIn, Split, Touches;
    if first == "" {
      assert first + second == second;
      NothingTouched();
    } else {
      var body := first[..|first| - 1];
      var a, b := Split(body, '\n'), Split(second, '\n');
      assert first == body + ['\n'] + "" && first + second == body + ['\n'] + second;
      SplitAt(body, "", '\n');
      SplitAt(body, second, '\n');
      SplitOfPart("", '\n');
      assert (a + b)[0..0 + |a|] == a && (a + b)[|a|..|a| + |b|] == b;
      forall q | q in TouchedSet(first) + TouchedSet(second) ensures q in TouchedSet(first + second) {
        TouchedByLines(a + [""], q);
        TouchedByLines(b, q);
        TouchedByLines(a + b, q);
        if q in TouchedSet(first) {
          EmptyLineTouchesNothing(a, q);
          BlockTouches(a, a + b, 0, q);
        } else {
          BlockTouches(b, a + b, |a|, q);
        }
      }
    }
  }

  lemma NothingTouched()
    ensures TouchedSet("") == {}
  {
  }

  /** If the concatenation of two diffs clears the denylist and its declaration, each part does. */
  lemma PartsInheritClearance(p: Policy, declared: seq<string>, first: string, second: string)
    requires first == "" || first[|first| - 1] == '\n'
    requires DenylistClear(p, first + second) && BlastConsistent(declared, first + second)
    ensures DenylistClear(p, first) && BlastConsistent(declared, first)
    ensures DenylistClear(p, second) && BlastConsistent(declared, second)
  {
    hide TouchedSet, ClearPath, Undeclared;
    ConcatTouchesBoth(first, second);
  }

  lemma MorePrefixesMatch(lower: string -> string, path: string, prefixes: seq<string>, more: seq<string>)
    requires MatchesAny(lower, path, prefixes)
    ensures MatchesAny(lower, path, prefixes + more)
  {
    hide UnderPrefix;
    var i :| 0 <= i < |prefixes| && UnderPrefix(lower, path, prefixes[i]);
    assert (prefixes + more)[i] == prefixes[i];
  }

  lemma MorePrefixesMoreHits(p: Policy, more: seq<string>, raw: string)
    ensures HitsOf(p, raw) <= HitsOf(p.(extraPrefixes := p.extraPrefixes + more), raw)
  {
    hide NormalizePath, MatchesAny, ClassHits;
    var lp := p.lower(NormalizePath(raw));
    if MatchesAny(p.lower, lp, p.extraPrefixes) {
      MorePrefixesMatch(p.lower, lp, p.extraPrefixes, more);
    }
  }

  /** Configured prefixes only ever add hits. */
  lemma {:induction false} PrefixesOnlyAddHits(p: Policy, more: seq<string>, touched: seq<string>, n: nat)
    requires n <= |touched|
    ensures HitsIn(p, touched, n) <= HitsIn(p.(extraPrefixes := p.extraPrefixes + more), touched, n)
  {
    hide HitsOf;
    if n > 0 {
      PrefixesOnlyAddHits(p, more, touched, n - 1);
      MorePrefixesMoreHits(p, more, touched[n - 1]);
    }
  }
}
