/** Byte strings and the few library routines over them that the content gate leans on: split,
    prefix tests, white-space trimming and sorting. A Go string is a `string` whose characters
    are its bytes. */
module Bytes {
  predicate IsBytes(s: string) { forall i :: 0 <= i < |s| ==> s[i] as int < 256 }

  predicate HasPrefix(s: string, p: string) { p <= s }

  function TrimPrefix(s: string, p: string): string {
    if HasPrefix(s, p) then s[|p|..] else s
  }

  // ---- splitting and joining -------------------------------------------------------

  function Split(s: string, sep: char): (parts: seq<string>)
    ensures |parts| >= 1
  {
    if s == "" then [""]
    else
      var rest := Split(s[1..], sep);
      if s[0] == sep then [""] + rest else [[s[0]] + rest[0]] + rest[1..]
  }

  function Join(parts: seq<string>, sep: char): string {
    if parts == [] then ""
    else if |parts| == 1 then parts[0]
    else parts[0] + [sep] + Join(parts[1..], sep)
  }

  /** Splitting distributes over a separator. */
  lemma {:induction false} SplitAt(a: string, b: string, sep: char)
    ensures Split(a + [sep] + b, sep) == Split(a, sep) + Split(b, sep)
    decreases a
  {
    var whole := a + [sep] + b;
    if a == "" {
      assert whole[1..] == b;
    } else {
      assert whole[1..] == a[1..] + [sep] + b;
      SplitAt(a[1..], b, sep);
    }
  }

  lemma {:induction false} SplitOfPart(s: string, sep: char)
    requires sep !in s
    ensures Split(s, sep) == [s]
    decreases s
  {
    if s != "" {
      SplitOfPart(s[1..], sep);
      assert [s[0]] + s[1..] == s;
    }
  }

  /** Splitting undoes joining. */
  lemma {:induction false} SplitOfJoin(parts: seq<string>, sep: char)
    requires parts != [] && forall i :: 0 <= i < |parts| ==> sep !in parts[i]
    ensures Split(Join(parts, sep), sep) == parts
    decreases |parts|
  {
    SplitOfPart(parts[0], sep);
    if |parts| > 1 {
      SplitAt(parts[0], Join(parts[1..], sep), sep);
      SplitOfJoin(parts[1..], sep);
      assert [parts[0]] + parts[1..] == parts;
    }
  }

  /** Joining undoes splitting. */
  lemma {:induction false} JoinOfSplit(s: string, sep: char)
    ensures Join(Split(s, sep), sep) == s
    ensures forall i :: 0 <= i < |Split(s, sep)| ==> sep !in Split(s, sep)[i]
    decreases s
  {
    if s != "" {
      JoinOfSplit(s[1..], sep);
      var rest := Split(s[1..], sep);
      assert s == [s[0]] + s[1..];
      if s[0] == sep {
        assert Split(s, sep)[1..] == rest;
      } else {
        assert Split(s, sep)[1..] == rest[1..];
        if |rest| > 1 {
          assert [s[0]] + (rest[0] + [sep] + Join(rest[1..], sep)) == [s[0]] + rest[0] + [sep] + Join(rest[1..], sep);
        }
      }
    }
  }

  lemma {:induction false} JoinAppend(parts: seq<string>, t: string, sep: char)
    requires parts != []
    ensures var n := |parts| - 1; Join(parts[..n] + [parts[n] + t], sep) == Join(parts, sep) + t
    decreases |parts|
  {
    var n := |parts| - 1;
    if n == 0 {
      assert parts[..0] + [parts[0] + t] == [parts[0] + t];
    } else {
      var rest := parts[1..];
      JoinAppend(rest, t, sep);
      assert (parts[..n] + [parts[n] + t])[1..] == rest[..n - 1] + [rest[n - 1] + t];
      assert parts[0] + [sep] + (Join(rest, sep) + t) == parts[0] + [sep] + Join(rest, sep) + t;
    }
  }

  /** Text without a separator lengthens the last part. */
  lemma SplitAppend(s: string, t: string, sep: char)
    requires sep !in t
    ensures var parts := Split(s, sep); var n := |parts| - 1; Split(s + t, sep) == parts[..n] + [parts[n] + t]
  {
    hide Split, Join;
    var parts := Split(s, sep);
    var n := |parts| - 1;
    JoinOfSplit(s, sep);
    JoinAppend(parts, t, sep);
    SplitOfJoin(parts[..n] + [parts[n] + t], sep);
  }

  // ---- white space -------------------------------------------------------------------

  predicate IsASCIISpace(c: char) { ('\t' <= c <= '\r') || c == ' ' }

  /** The two-byte UTF-8 encodings of a Unicode space: U+0085 and U+00A0. */
  predicate IsWideSpace2(a: char, b: char) { a as int == 0xC2 && (b as int == 0x85 || b as int == 0xA0) }

  /** The three-byte ones: U+1680, U+2000 to U+200A, U+2028, U+2029, U+202F, U+205F, U+3000. */
  predicate IsWideSpace3(a: char, b: char, c: char) {
    || (a as int == 0xE1 && b as int == 0x9A && c as int == 0x80)
    || (a as int == 0xE2 && b as int == 0x80
        && (0x80 <= c as int <= 0x8A || c as int == 0xA8 || c as int == 0xA9 || c as int == 0xAF))
    || (a as int == 0xE2 && b as int == 0x81 && c as int == 0x9F)
    || (a as int == 0xE3 && b as int == 0x80 && c as int == 0x80)
  }

  /** How many bytes the white-space character takes that s starts with; 0 if it starts with none. */
  function SpaceAtStart(s: string): (n: nat)
    ensures n <= |s|
  {
    if |s| >= 1 && IsASCIISpace(s[0]) then 1
    else if |s| >= 2 && IsWideSpace2(s[0], s[1]) then 2
    else if |s| >= 3 && IsWideSpace3(s[0], s[1], s[2]) then 3
    else 0
  }

  function SpaceAtEnd(s: string): (n: nat)
    ensures n <= |s|
  {
    var k := |s|;
    if k >= 1 && IsASCIISpace(s[k - 1]) then 1
    else if k >= 2 && IsWideSpace2(s[k - 2], s[k - 1]) then 2
    else if k >= 3 && IsWideSpace3(s[k - 3], s[k - 2], s[k - 1]) then 3
    else 0
  }

  function TrimLeft(s: string): (t: string)
    ensures SpaceAtStart(t) == 0
    decreases |s|
  {
    if SpaceAtStart(s) == 0 then s else TrimLeft(s[SpaceAtStart(s)..])
  }

  lemma SuffixOfSuffix(s: string, n: nat, m: nat)
    requires n + m <= |s|
    ensures s[n..][m..] == s[n + m..]
  {
  }

  lemma {:induction false} TrimLeftIsSuffix(s: string)
    ensures |TrimLeft(s)| <= |s| && s[|s| - |TrimLeft(s)|..] == TrimLeft(s)
    decreases |s|
  {
    var n := SpaceAtStart(s);
    if n > 0 {
      var rest, t := s[n..], TrimLeft(s[n..]);
      assert TrimLeft(s) == t;
      hide SpaceAtStart, TrimLeft;
      TrimLeftIsSuffix(rest);
      SuffixOfSuffix(s, n, |rest| - |t|);
    }
  }

  function TrimRight(s: string): (t: string)
    ensures SpaceAtEnd(t) == 0 && t <= s
    decreases |s|
  {
    if SpaceAtEnd(s) == 0 then s else TrimRight(s[..|s| - SpaceAtEnd(s)])
  }

  function TrimSpace(s: string): string { TrimRight(TrimLeft(s)) }

  /** Text with no white space at either end. */
  predicate Trimmed(s: string) { SpaceAtStart(s) == 0 && SpaceAtEnd(s) == 0 }

  lemma TrimOfTrimmed(s: string)
    requires Trimmed(s)
    ensures TrimSpace(s) == s
  {
  }

  /** A printing ASCII character other than the space. */
  predicate Visible(c: char) { 0x21 <= c as int < 0x7F }

  /** Trimming stops at a visible character. */
  lemma {:induction false} TrimLeftAcross(a: string, b: string)
    requires b != "" && Visible(b[0])
    ensures TrimLeft(a + b) == TrimLeft(a) + b
    decreases a
  {
    var s, n := a + b, SpaceAtStart(a);
    assert SpaceAtStart(s) == n by {
      assert a != "" ==> s[0] == a[0];
      assert |a| == 1 ==> s[1] == b[0];
      assert |a| >= 2 ==> s[1] == a[1];
      assert |a| == 2 ==> s[2] == b[0];
      assert |a| >= 3 ==> s[2] == a[2];
    }
    if n > 0 {
      hide SpaceAtStart;
      assert s[n..] == a[n..] + b;
      TrimLeftAcross(a[n..], b);
    }
  }

  lemma TrimSpaceAcross(a: string, b: string)
    requires b != "" && Visible(b[0]) && Visible(b[|b| - 1])
    ensures TrimSpace(a + b) == TrimLeft(a) + b
  {
    hide TrimLeft, SpaceAtStart, TrimRight;
    TrimLeftAcross(a, b);
    TrimRightStops(TrimLeft(a) + b);
  }

  lemma TrimRightStops(s: string)
    requires s != "" && Visible(s[|s| - 1])
    ensures TrimRight(s) == s
  {
  }

  predicate EndsWith(s: string, t: string) { |t| <= |s| && s[|s| - |t|..] == t }

  /** A prefix that cannot reach into b is cut from a. */
  lemma TrimPrefixAcross(a: string, b: string, prefix: string)
    requires b != "" && b[0] !in prefix
    ensures TrimPrefix(a + b, prefix) == TrimPrefix(a, prefix) + b
  {
    var s := a + b;
    assert s[|a|] == b[0] && s[..|a|] == a;
    assert |prefix| > |a| ==> prefix[|a|] != s[|a|];
    if |prefix| <= |a| {
      assert s[..|prefix|] == a[..|prefix|];
      assert s[|prefix|..] == a[|prefix|..] + b;
    }
  }

  // ---- order and sorting ----------------------------------------------------------------

  /** Byte-wise lexicographic order. */
  predicate Below(a: string, b: string) {
    if a == "" then b != ""
    else if b == "" then false
    else a[0] < b[0] || (a[0] == b[0] && Below(a[1..], b[1..]))
  }

  lemma {:induction false} BelowIsTotal(a: string, b: string)
    ensures a == b || Below(a, b) || Below(b, a)
    decreases a
  {
    if a != "" && b != "" && a[0] == b[0] {
      BelowIsTotal(a[1..], b[1..]);
      if a[1..] == b[1..] {
        assert a == [a[0]] + a[1..] && b == [b[0]] + b[1..];
      }
    }
  }

  lemma {:induction false} BelowIsTransitive(a: string, b: string, c: string)
    requires Below(a, b) && Below(b, c)
    ensures Below(a, c)
    decreases a
  {
    if a != "" && b != "" && c != "" && a[0] == b[0] && b[0] == c[0] {
      BelowIsTransitive(a[1..], b[1..], c[1..]);
    }
  }

  predicate StrictlySorted(ss: seq<string>) {
    forall i, k :: 0 <= i < k < |ss| ==> Below(ss[i], ss[k])
  }

  function Elements(ss: seq<string>): set<string> { set s | s in ss }

  /** The list with one more element in its place, once. */
  function Insert(ss: seq<string>, x: string): seq<string> {
    if ss == [] then [x]
    else if x == ss[0] then ss
    else if Below(x, ss[0]) then [x] + ss
    else [ss[0]] + Insert(ss[1..], x)
  }

  lemma {:induction false} InsertAdds(ss: seq<string>, x: string, y: string)
    ensures y in Insert(ss, x) <==> y == x || y in ss
  {
    if ss != [] {
      InsertAdds(ss[1..], x, y);
      assert y in ss <==> y == ss[0] || y in ss[1..];
    }
  }

  lemma SortedPrepend(x: string, ss: seq<string>)
    requires StrictlySorted(ss) && (ss != [] ==> Below(x, ss[0]))
    ensures StrictlySorted([x] + ss)
  {
    forall k | 0 <= k < |ss| ensures Below(x, ss[k]) {
      if k > 0 {
        BelowIsTransitive(x, ss[0], ss[k]);
      }
    }
  }

  lemma {:induction false} InsertKeepsOrder(ss: seq<string>, x: string)
    requires StrictlySorted(ss)
    ensures StrictlySorted(Insert(ss, x))
  {
    hide Below;
    if ss == [] {
    } else if Below(x, ss[0]) {
      SortedPrepend(x, ss);
    } else if x != ss[0] {
      BelowIsTotal(x, ss[0]);
      InsertKeepsOrder(ss[1..], x);
      var rest := Insert(ss[1..], x);
      if rest != [] {
        InsertAdds(ss[1..], x, rest[0]);
      }
      SortedPrepend(ss[0], rest);
    }
  }

  /** Sorts distinct strings. */
  method Sort(ss: seq<string>) returns (sorted: seq<string>)
    ensures StrictlySorted(sorted) && Elements(sorted) == Elements(ss)
  {
    sorted := [];
    for i := 0 to |ss|
      invariant StrictlySorted(sorted) && Elements(sorted) == Elements(ss[..i])
    {
      InsertKeepsOrder(sorted, ss[i]);
      var next := Insert(sorted, ss[i]);
      assert ss[..i + 1] == ss[..i] + [ss[i]];
      forall y ensures y in next <==> y in ss[..i + 1] {
        InsertAdds(sorted, ss[i], y);
        assert y in sorted <==> y in Elements(sorted);
        assert y in ss[..i] <==> y in Elements(ss[..i]);
      }
      sorted := next;
    }
    assert ss[..|ss|] == ss;
  }
}
