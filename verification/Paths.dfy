/** Path normal forms and the declared-blast-radius test (internal/content/content.go,
    normalizePath and declarationCovers). */
module Paths {
  import opened Bytes

  const DEV_NULL := "/dev/null"

  function SlashesOf(s: string): (t: string)
    ensures |t| == |s|
  {
    if s == "" then "" else [if s[0] == '\\' then '/' else s[0]] + SlashesOf(s[1..])
  }

  /** The segments left once ".", "" and resolvable ".." are gone; out holds those kept so far. */
  function CleanSegments(segments: seq<string>, rooted: bool, out: seq<string>): seq<string>
    decreases |segments|
  {
    if segments == [] then out
    else
      var s, rest := segments[0], segments[1..];
      if s == "" || s == "." then CleanSegments(rest, rooted, out)
      else if s == ".." then
        if out != [] && out[|out| - 1] != ".." then CleanSegments(rest, rooted, out[..|out| - 1])
        else if rooted then CleanSegments(rest, rooted, out)
        else CleanSegments(rest, rooted, out + [s])
      else CleanSegments(rest, rooted, out + [s])
  }

  /** The shortest equivalent path (the library routine path.Clean). */
  function Clean(p: string): string {
    var rooted := HasPrefix(p, "/");
    var kept := Join(CleanSegments(Split(p, '/'), rooted, []), '/');
    if rooted then "/" + kept else if kept == "" then "." else kept
  }

  function NormalizePath(p: string): string {
    var t := TrimSpace(p);
    if t == DEV_NULL then t
    else
      var u := TrimPrefix(TrimPrefix(SlashesOf(t), "./"), "/");
      if u == "" then ""
      else
        var c := Clean(u);
        if c == "." then "" else c
  }

  // ---- declared directories ---------------------------------------------------------

  predicate EndsInSlash(p: string) { p != "" && p[|p| - 1] == '/' }

  /** path is the declared path, or sits beneath it. */
  predicate CoveredBy(path: string, declared: string) {
    path == declared || HasPrefix(path, if EndsInSlash(declared) then declared else declared + "/")
  }

  function Segments(p: string): seq<string> { Split(p, '/') }

  lemma {:induction false} JoinConcat(a: seq<string>, b: seq<string>, sep: char)
    requires a != [] && b != []
    ensures Join(a + b, sep) == Join(a, sep) + [sep] + Join(b, sep)
    decreases |a|
  {
    assert (a + b)[1..] == a[1..] + b;
    if |a| > 1 {
      JoinConcat(a[1..], b, sep);
      assert a[0] + [sep] + (Join(a[1..], sep) + [sep] + Join(b, sep)) == a[0] + [sep] + Join(a[1..], sep) + [sep] + Join(b, sep);
    }
  }

  /** On a declaration that does not end in a slash, the textual test is exactly the
      segment-by-segment one: no sibling that merely shares a prefix is covered. */
  lemma CoverIsSegmentPrefix(path: string, declared: string)
    requires !EndsInSlash(declared)
    ensures CoveredBy(path, declared) <==> Segments(declared) <= Segments(path)
  {
    if HasPrefix(path, declared + "/") {
      var rest := path[|declared| + 1..];
      assert path == declared + ['/'] + rest;
      SplitAt(declared, rest, '/');
    }
    JoinOfSplit(declared, '/');
    JoinOfSplit(path, '/');
    if Segments(declared) <= Segments(path) {
      var rest := Segments(path)[|Segments(declared)|..];
      assert Segments(path) == Segments(declared) + rest;
      if rest == [] {
        assert Segments(path) == Segments(declared);
      } else {
        JoinConcat(Segments(declared), rest, '/');
        assert path == (declared + "/") + Join(rest, '/');
      }
    }
  }

  /** The segments of a clean path: none empty or ".", and ".." only at the front of a relative
      one. */
  predicate Canonical(parts: seq<string>, rooted: bool) {
    && (forall i :: 0 <= i < |parts| ==> parts[i] != "" && parts[i] != "." && '/' !in parts[i])
    && (forall i :: 0 <= i < |parts| && parts[i] == ".." ==> !rooted && (i == 0 || parts[i - 1] == ".."))
  }

  lemma CanonicalPrefix(parts: seq<string>, rooted: bool, n: nat)
    requires Canonical(parts, rooted) && n <= |parts|
    ensures Canonical(parts[..n], rooted)
  {
  }

  lemma {:induction false} CleanSegmentsAreCanonical(segments: seq<string>, rooted: bool, out: seq<string>)
    requires Canonical(out, rooted) && forall i :: 0 <= i < |segments| ==> '/' !in segments[i]
    ensures Canonical(CleanSegments(segments, rooted, out), rooted)
    decreases |segments|
  {
    if segments != [] {
      var s, rest := segments[0], segments[1..];
      if s == "" || s == "." {
        CleanSegmentsAreCanonical(rest, rooted, out);
      } else if s == ".." && out != [] && out[|out| - 1] != ".." {
        CanonicalPrefix(out, rooted, |out| - 1);
        CleanSegmentsAreCanonical(rest, rooted, out[..|out| - 1]);
      } else if s == ".." && rooted {
        CleanSegmentsAreCanonical(rest, rooted, out);
      } else {
        CleanSegmentsAreCanonical(rest, rooted, out + [s]);
      }
    }
  }

  /** Cleaning a clean path changes nothing. */
  lemma {:induction false} CanonicalStays(parts: seq<string>, rooted: bool, out: seq<string>)
    requires Canonical(out + parts, rooted)
    ensures CleanSegments(parts, rooted, out) == out + parts
    decreases |parts|
  {
    if parts == [] {
      assert out + parts == out;
    } else {
      var s, rest := parts[0], parts[1..];
      assert (out + parts)[|out|] == s;
      assert out != [] ==> (out + parts)[|out| - 1] == out[|out| - 1];
      assert (out + [s]) + rest == out + parts;
      CanonicalStays(rest, rooted, out + [s]);
    }
  }

  lemma {:induction false} JoinedPartsEndPlain(parts: seq<string>, rooted: bool)
    requires Canonical(parts, rooted) && parts != []
    ensures Join(parts, '/') != "" && !EndsInSlash(Join(parts, '/')) && !HasPrefix(Join(parts, '/'), "/")
    decreases |parts|
  {
    if |parts| == 1 {
      assert parts[0][|parts[0]| - 1] in parts[0] && parts[0][0] in parts[0];
    } else {
      assert parts[0][0] in parts[0];
      forall i | 0 <= i < |parts[1..]| && parts[1..][i] == ".." ensures i == 0 || parts[1..][i - 1] == ".." {
        assert parts[i + 1] == "..";
      }
      JoinedPartsEndPlain(parts[1..], rooted);
    }
  }

  /** What cleaning makes of a path: its canonical segments, joined. */
  lemma CleanJoinsCanonical(p: string)
    ensures var parts := CleanSegments(Split(p, '/'), HasPrefix(p, "/"), []); Canonical(parts, HasPrefix(p, "/"))
  {
    hide Split, CleanSegments;
    JoinOfSplit(p, '/');
    CleanSegmentsAreCanonical(Split(p, '/'), HasPrefix(p, "/"), []);
  }

  /** A cleaned path ends in a slash only if it is the root. */
  lemma CleanEndsPlain(u: string)
    ensures Clean(u) == "/" || !EndsInSlash(Clean(u))
  {
    hide Split, CleanSegments, Join, Canonical;
    var rooted := HasPrefix(u, "/");
    var parts := CleanSegments(Split(u, '/'), rooted, []);
    CleanJoinsCanonical(u);
    if parts != [] {
      JoinedPartsEndPlain(parts, rooted);
    } else {
      assert Join(parts, '/') == "" by { NothingJoined(); }
    }
  }

  lemma NothingJoined()
    ensures Join([], '/') == ""
  {
  }

  /** Cleaning is idempotent, and no traversal survives it: of a path that is more than "/" or "."
      only canonical segments are left, so ".." stands only at the front of a relative one. */
  lemma CleanIsIdempotent(p: string)
    ensures Clean(Clean(p)) == Clean(p)
    ensures HasPrefix(Clean(p), "/") == HasPrefix(p, "/")
    ensures Clean(p) == "/" || Clean(p) == "." || Canonical(Segments(TrimPrefix(Clean(p), "/")), HasPrefix(p, "/"))
  {
    hide Split, CleanSegments, Join, Canonical;
    var rooted := HasPrefix(p, "/");
    var parts := CleanSegments(Split(p, '/'), rooted, []);
    CleanJoinsCanonical(p);
    if parts == [] {
      NothingJoined();
      CleanOfTrivial();
    } else {
      JoinedPartsEndPlain(parts, rooted);
      assert [] + parts == parts;
      CanonicalStays(parts, rooted, []);
      RejoinedSplit(parts, rooted);
      var kept := Join(parts, '/');
      assert Clean(p) == (if rooted then "/" else "") + kept by { assert "" + kept == kept; }
      assert HasPrefix(Clean(p), "/") == rooted by { assert rooted ==> ("/" + kept)[..1] == "/"; }
      assert TrimPrefix(Clean(p), "/") == kept by { assert rooted ==> ("/" + kept)[1..] == kept; }
      SegmentsRejoin(parts, rooted);
    }
  }

  lemma SegmentsRejoin(parts: seq<string>, rooted: bool)
    requires Canonical(parts, rooted) && parts != []
    ensures Segments(Join(parts, '/')) == parts
  {
    SplitOfJoin(parts, '/');
  }

  lemma CleanOfTrivial()
    ensures Clean("/") == "/" && Clean(".") == "."
  {
    SplitAt("", "", '/');
    SplitOfPart("", '/');
    SplitOfPart(".", '/');
    assert "" + ['/'] + "" == "/";
    assert Split("/", '/') == [""] + [""];
    assert ([""] + [""])[1..] == [""] && [""][1..] == [] && ["."][1..] == [];
  }

  /** Splitting a joined clean path, root and all, and cleaning again gives its segments back. */
  lemma RejoinedSplit(parts: seq<string>, rooted: bool)
    requires Canonical(parts, rooted) && parts != [] && CleanSegments(parts, rooted, []) == parts
    ensures var joined := (if rooted then "/" else "") + Join(parts, '/');
      CleanSegments(Split(joined, '/'), rooted, []) == parts
  {
    SplitOfJoin(parts, '/');
    if rooted {
      SplitAt("", Join(parts, '/'), '/');
      SplitOfPart("", '/');
      assert "/" + Join(parts, '/') == "" + ['/'] + Join(parts, '/');
      assert ([""] + parts)[0] == "" && ([""] + parts)[1..] == parts;
    } else {
      assert "" + Join(parts, '/') == Join(parts, '/');
    }
  }

  /** A normal form ends in a slash only if it is the root itself. */
  lemma NormalFormEndsPlain(p: string)
    ensures NormalizePath(p) == "" || NormalizePath(p) == "/" || !EndsInSlash(NormalizePath(p))
  {
    hide Clean, TrimSpace, SlashesOf, TrimPrefix;
    CleanEndsPlain(TrimPrefix(TrimPrefix(SlashesOf(TrimSpace(p)), "./"), "/"));
  }

  /** Some declared path covers the touched one. */
  predicate Declares(declared: seq<string>, path: string) {
    exists i :: 0 <= i < |declared| && NormalizePath(declared[i]) != "" && CoveredBy(path, NormalizePath(declared[i]))
  }

  /** What a declaration covers, segment by segment: the root covers absolute paths, any other
      declared path the ones its segments lead to. */
  lemma DeclaresBySegments(declared: seq<string>, path: string)
    ensures Declares(declared, path) <==>
      exists i :: 0 <= i < |declared| && NormalizePath(declared[i]) != ""
        && if NormalizePath(declared[i]) == "/" then HasPrefix(path, "/") else Segments(NormalizePath(declared[i])) <= Segments(path)
  {
    forall i | 0 <= i < |declared| && NormalizePath(declared[i]) != ""
      ensures CoveredBy(path, NormalizePath(declared[i])) <==>
        if NormalizePath(declared[i]) == "/" then HasPrefix(path, "/") else Segments(NormalizePath(declared[i])) <= Segments(path)
    {
      NormalFormEndsPlain(declared[i]);
      if NormalizePath(declared[i]) != "/" {
        CoverIsSegmentPrefix(path, NormalizePath(declared[i]));
      }
    }
  }

  method DeclarationCovers(path: string, declared: seq<string>) returns (covers: bool)
    ensures covers <==> Declares(declared, path)
  {
    hide NormalizePath;
    for i := 0 to |declared|
      invariant forall k :: 0 <= k < i ==>
        NormalizePath(declared[k]) == "" || !CoveredBy(path, NormalizePath(declared[k]))
    {
      var nd := NormalizePath(declared[i]);
      if nd == "" {
        continue;
      }
      var prefix := nd;
      if !EndsInSlash(nd) {
        prefix := prefix + "/";
      }
      if path == nd || HasPrefix(path, prefix) {
        assert CoveredBy(path, NormalizePath(declared[i]));
        return true;
      }
    }
    return false;
  }

  // ---- what a normal form keeps --------------------------------------------------------

  lemma {:induction false} SlashesConcat(a: string, b: string)
    ensures SlashesOf(a + b) == SlashesOf(a) + SlashesOf(b)
    decreases a
  {
    if a == "" {
      assert a + b == b;
    } else {
      assert (a + b)[0] == a[0] && (a + b)[1..] == a[1..] + b;
      SlashesConcat(a[1..], b);
    }
  }

  lemma {:induction false} NoSlashesOf(s: string)
    requires '\\' !in s
    ensures SlashesOf(s) == s
    decreases s
  {
    if s != "" {
      assert s[0] in s;
      NoSlashesOf(s[1..]);
      assert [s[0]] + s[1..] == s;
    }
  }

  lemma {:induction false} CleanSegmentsConcat(a: seq<string>, b: seq<string>, rooted: bool, out: seq<string>)
    ensures CleanSegments(a + b, rooted, out) == CleanSegments(b, rooted, CleanSegments(a, rooted, out))
    decreases |a|
  {
    if a == [] {
      assert a + b == b;
    } else {
      var s, rest := a[0], a[1..];
      assert (a + b)[0] == s && (a + b)[1..] == rest + b;
      if s == "" || s == "." {
        CleanSegmentsConcat(rest, b, rooted, out);
      } else if s == ".." && out != [] && out[|out| - 1] != ".." {
        CleanSegmentsConcat(rest, b, rooted, out[..|out| - 1]);
      } else if s == ".." && rooted {
        CleanSegmentsConcat(rest, b, rooted, out);
      } else {
        CleanSegmentsConcat(rest, b, rooted, out + [s]);
      }
    }
  }

  predicate Ordinary(s: string) { s != "" && s != "." && s != ".." && '/' !in s }

  lemma SegmentsDrop(a: seq<string>, mid: seq<string>, b: seq<string>, rooted: bool)
    requires CleanSegments(mid, rooted, CleanSegments(a, rooted, [])) == CleanSegments(a, rooted, [])
    ensures CleanSegments(a + mid + b, rooted, []) == CleanSegments(a + b, rooted, [])
  {
    hide CleanSegments;
    CleanSegmentsConcat(a + mid, b, rooted, []);
    CleanSegmentsConcat(a, mid, rooted, []);
    CleanSegmentsConcat(a, b, rooted, []);
  }

  lemma Cancelled(s: string, rooted: bool, out: seq<string>)
    requires Ordinary(s)
    ensures CleanSegments([s, ".."], rooted, out) == out
    ensures CleanSegments(["."], rooted, out) == out && CleanSegments([""], rooted, out) == out
    ensures CleanSegments([".."], true, []) == []
  {
    assert [s, ".."][1..] == [".."] && [".."][1..] == [] && ["."][1..] == [] && [""][1..] == [];
    assert (out + [s])[..|out|] == out;
    assert CleanSegments([s, ".."], rooted, out) == CleanSegments([".."], rooted, out + [s]);
  }

  /** A path cut in two at a slash, the front's root showing. */
  lemma CleanOfParts(p: string, mid: string, q: string)
    ensures Clean(p + "/" + mid + "/" + q)
      == (var rooted := HasPrefix(p + "/", "/");
          var kept := Join(CleanSegments(Split(p, '/') + Split(mid, '/') + Split(q, '/'), rooted, []), '/');
          if rooted then "/" + kept else if kept == "" then "." else kept)
    ensures Clean(p + "/" + q)
      == (var rooted := HasPrefix(p + "/", "/");
          var kept := Join(CleanSegments(Split(p, '/') + Split(q, '/'), rooted, []), '/');
          if rooted then "/" + kept else if kept == "" then "." else kept)
  {
    hide CleanSegments, Join, Split;
    var long, short := p + "/" + mid + "/" + q, p + "/" + q;
    assert long == (p + ['/'] + mid) + ['/'] + q && short == p + ['/'] + q;
    SplitAt(p + ['/'] + mid, q, '/');
    SplitAt(p, mid, '/');
    SplitAt(p, q, '/');
    assert long[0] == (p + "/")[0] && short[0] == (p + "/")[0];
    assert forall t: string :: t != "" ==> (HasPrefix(t, "/") <==> t[0] == '/');
  }

  /** Cleaning resolves a path: ".." cancels the segment before it, "." and empty segments drop out,
      and above the root there is nothing. */
  lemma TraversalCancels(p: string, s: string, q: string)
    requires Ordinary(s)
    ensures Clean(p + "/" + (s + "/..") + "/" + q) == Clean(p + "/" + q)
    ensures Clean(p + "/" + "." + "/" + q) == Clean(p + "/" + q)
    ensures Clean(p + "/" + "" + "/" + q) == Clean(p + "/" + q)
    ensures Clean("" + "/" + ".." + "/" + q) == Clean("" + "/" + q)
  {
    hide Clean, CleanSegments, Join, Split;
    var rooted := HasPrefix(p + "/", "/");
    var a, b := Split(p, '/'), Split(q, '/');
    CleanOfParts(p, s + "/..", q);
    CleanOfParts(p, ".", q);
    CleanOfParts(p, "", q);
    CleanOfParts("", "..", q);
    assert s + "/.." == s + ['/'] + "..";
    SplitAt(s, "..", '/');
    SplitOfPart(s, '/');
    SplitOfPart("..", '/');
    SplitOfPart(".", '/');
    SplitOfPart("", '/');
    assert [s] + [".."] == [s, ".."];
    Cancelled(s, rooted, CleanSegments(a, rooted, []));
    SegmentsDrop(a, [s, ".."], b, rooted);
    SegmentsDrop(a, ["."], b, rooted);
    SegmentsDrop(a, [""], b, rooted);
    Cancelled(s, true, []);
    assert CleanSegments([""], true, []) == [];
    SegmentsDrop([""], [".."], b, true);
  }

  /** The segments that are not empty. */
  function Solid(parts: seq<string>): seq<string> {
    if parts == [] then [] else (if parts[0] == "" then [] else [parts[0]]) + Solid(parts[1..])
  }

  lemma SolidStep(parts: seq<string>, rooted: bool, out: seq<string>)
    requires parts != [] && parts[0] != "." && parts[0] != ".."
    ensures var rest := parts[1..];
      && Solid(parts) == (if parts[0] == "" then [] else [parts[0]]) + Solid(rest)
      && CleanSegments(parts, rooted, out) == CleanSegments(rest, rooted, if parts[0] == "" then out else out + [parts[0]])
  {
  }

  lemma {:induction false} SolidStay(parts: seq<string>, rooted: bool, out: seq<string>)
    requires forall i :: 0 <= i < |parts| ==> parts[i] != "." && parts[i] != ".."
    ensures CleanSegments(parts, rooted, out) == out + Solid(parts)
    decreases |parts|
  {
    if parts == [] {
      assert out + [] == out;
    } else {
      hide CleanSegments, Solid;
      SolidStep(parts, rooted, out);
      SolidStay(parts[1..], rooted, if parts[0] == "" then out else out + [parts[0]]);
      assert (out + [parts[0]]) + Solid(parts[1..]) == out + ([parts[0]] + Solid(parts[1..]));
    }
  }

  lemma JoinedTail(a: seq<string>, b: seq<string>, sep: char)
    requires b != []
    ensures EndsWith(Join(a + b, sep), Join(b, sep))
  {
    if a == [] {
      assert a + b == b;
    } else {
      JoinConcat(a, b, sep);
    }
  }

  /** Cleaning keeps what follows the last traversal. */
  lemma CleanKeepsTail(u: string, a: seq<string>, b: seq<string>)
    requires Split(u, '/') == a + b && Solid(b) != []
    requires forall i :: 0 <= i < |b| ==> b[i] != "." && b[i] != ".."
    ensures EndsWith(Clean(u), Join(Solid(b), '/'))
  {
    hide Split, CleanSegments, Join, Solid;
    var rooted := HasPrefix(u, "/");
    CleanSegmentsConcat(a, b, rooted, []);
    SolidStay(b, rooted, CleanSegments(a, rooted, []));
    JoinedTail(CleanSegments(a, rooted, []), Solid(b), '/');
  }

  /** Text at the end of the last segment stays at the end. */
  lemma CleanKeepsEnd(v: string, t: string)
    requires t != "" && '/' !in t && t[0] != '.'
    ensures EndsWith(Clean(v + t), t)
  {
    hide Clean, Split, Join, Solid;
    var parts := Split(v, '/');
    var n := |parts| - 1;
    var last := parts[n] + t;
    SplitAppend(v, t, '/');
    assert last[|parts[n]|] == t[0] && last != "." && last != "..";
    SolidOne(last);
    CleanKeepsTail(v + t, parts[..n], [last]);
  }

  lemma SolidOne(s: string)
    requires s != ""
    ensures Solid([s]) == [s] && Join([s], '/') == s
  {
  }

  /** A visible character no prefix of the path reaches marks where normalizing leaves text alone. */
  predicate Anchor(t: string) {
    t != "" && Visible(t[0]) && t[0] !in "./\\" && Visible(t[|t| - 1]) && t[|t| - 1] != 'l'
  }

  /** Behind an anchor the path is only slashed and cleaned. */
  lemma NormalAcross(w: string, t: string) returns (v: string)
    requires Anchor(t)
    ensures NormalizePath(w + t) == var c := Clean(v + SlashesOf(t)); if c == "." then "" else c
  {
    hide TrimLeft, SlashesOf, Clean, TrimPrefix, TrimSpace;
    TrimSpaceAcross(w, t);
    var z := TrimLeft(w);
    assert (z + t)[|z + t| - 1] == t[|t| - 1];
    SlashesConcat(z, t);
    SlashesStart(t);
    var x := SlashesOf(z);
    TrimPrefixAcross(x, SlashesOf(t), "./");
    TrimPrefixAcross(TrimPrefix(x, "./"), SlashesOf(t), "/");
    v := TrimPrefix(TrimPrefix(x, "./"), "/");
  }

  lemma SlashesStart(t: string)
    requires t != "" && t[0] !in "./\\"
    ensures SlashesOf(t) != "" && SlashesOf(t)[0] !in "./"
  {
  }

  /** The end of the last segment survives normalizing. */
  lemma NormalKeepsEnd(w: string, t: string)
    requires Anchor(t) && '/' !in t && '\\' !in t
    ensures EndsWith(NormalizePath(w + t), t)
  {
    hide NormalizePath, Clean, SlashesOf;
    var v := NormalAcross(w, t);
    NoSlashesOf(t);
    CleanKeepsEnd(v, t);
  }

  /** A name without slashes or backslashes is its own normal form. */
  lemma PlainNormal(p: string)
    requires Trimmed(p) && p != "" && p != "." && p != ".." && '/' !in p && '\\' !in p
    ensures NormalizePath(p) == p
  {
    TrimOfTrimmed(p);
    NoSlashesOf(p);
    assert p[0] != '/' && !HasPrefix(p, "./") by {
      assert |p| >= 2 ==> p[1] in p;
      assert p[0] in p;
    }
    SplitOfPart(p, '/');
    assert CleanSegments([p], false, []) == [p] by {
      assert [p][1..] == [] && [] + [p] == [p];
    }
  }

  // ---- normalizing never lengthens -------------------------------------------------------

  /** The length of the segments, each with a separator. */
  function Weight(parts: seq<string>): nat {
    if parts == [] then 0 else |parts[0]| + 1 + Weight(parts[1..])
  }

  lemma {:induction false} WeightConcat(a: seq<string>, b: seq<string>)
    ensures Weight(a + b) == Weight(a) + Weight(b)
    decreases |a|
  {
    if a == [] {
      assert a + b == b;
    } else {
      assert (a + b)[0] == a[0] && (a + b)[1..] == a[1..] + b;
      WeightConcat(a[1..], b);
    }
  }

  lemma {:induction false} JoinWeighs(parts: seq<string>, sep: char)
    ensures |Join(parts, sep)| == if parts == [] then 0 else Weight(parts) - 1
    decreases |parts|
  {
    if |parts| > 1 {
      JoinWeighs(parts[1..], sep);
    }
  }

  lemma {:induction false} CleanSegmentsWeigh(segments: seq<string>, rooted: bool, out: seq<string>)
    ensures Weight(CleanSegments(segments, rooted, out)) <= Weight(out) + Weight(segments)
    decreases |segments|
  {
    if segments != [] {
      var s, rest := segments[0], segments[1..];
      if s == "" || s == "." {
        CleanSegmentsWeigh(rest, rooted, out);
      } else if s == ".." && out != [] && out[|out| - 1] != ".." {
        var n := |out| - 1;
        assert out == out[..n] + out[n..];
        WeightConcat(out[..n], out[n..]);
        CleanSegmentsWeigh(rest, rooted, out[..n]);
      } else if s == ".." && rooted {
        CleanSegmentsWeigh(rest, rooted, out);
      } else {
        WeightConcat(out, [s]);
        assert Weight([s]) == |s| + 1 + Weight([]);
        CleanSegmentsWeigh(rest, rooted, out + [s]);
      }
    }
  }

  lemma CleanShrinks(u: string)
    requires u != ""
    ensures |Clean(u)| <= |u|
  {
    hide Split, CleanSegments, Join;
    var rooted, parts := HasPrefix(u, "/"), Split(u, '/');
    JoinOfSplit(u, '/');
    JoinWeighs(parts, '/');
    CleanSegmentsWeigh(parts, rooted, []);
    JoinWeighs(CleanSegments(parts, rooted, []), '/');
    if rooted {
      RootSegment(u);
      CleanSegmentsWeigh(parts[1..], rooted, []);
    }
  }

  lemma RootSegment(u: string)
    requires HasPrefix(u, "/")
    ensures var parts := Split(u, '/');
      && parts[0] == "" && Weight(parts) == 1 + Weight(parts[1..])
      && CleanSegments(parts, true, []) == CleanSegments(parts[1..], true, [])
  {
  }

  lemma TrimShrinks(s: string)
    ensures |TrimSpace(s)| <= |s|
  {
    TrimLeftIsSuffix(s);
  }

  lemma NormalizeShrinks(p: string)
    ensures |NormalizePath(p)| <= |p|
  {
    hide TrimSpace, Clean;
    TrimShrinks(p);
    var u := TrimPrefix(TrimPrefix(SlashesOf(TrimSpace(p)), "./"), "/");
    if u != "" {
      CleanShrinks(u);
    }
  }
}
