/** The byte encodings the sign-off hashes are computed over: decimal numbers and
    "<length>:<text>\n" frames. */
module Encoding {
  predicate IsDigit(c: char) { '0' <= c <= '9' }

  function Digit(n: nat): (c: char)
    requires n < 10
    ensures IsDigit(c) && c as int == n + '0' as int
  {
    '0' + n as char
  }

  /** The decimal spelling of a natural number (the verb %d). */
  function Decimal(n: nat): (s: string)
    ensures |s| > 0 && forall i :: 0 <= i < |s| ==> IsDigit(s[i])
  {
    if n < 10 then [Digit(n)] else Decimal(n / 10) + [Digit(n % 10)]
  }

  function Value(s: string): nat
    requires forall i :: 0 <= i < |s| ==> IsDigit(s[i])
  {
    if s == "" then 0
    else
      assert IsDigit(s[|s| - 1]);
      10 * Value(s[..|s| - 1]) + (s[|s| - 1] as int - '0' as int)
  }

  lemma {:induction false} ValueOfDecimal(n: nat)
    ensures Value(Decimal(n)) == n
  {
    if n >= 10 {
      ValueOfDecimal(n / 10);
      var s := Decimal(n);
      assert s[..|s| - 1] == Decimal(n / 10);
    } else {
      assert Decimal(n)[..0] == "";
    }
  }

  /** The decimal spelling of an integer, negative ones included. */
  function SignedDecimal(n: int): (s: string)
    ensures forall i :: 0 <= i < |s| ==> s[i] != '\n'
  {
    if n < 0 then "-" + Decimal(-n) else Decimal(n)
  }

  lemma SignedDecimalInjective(m: int, n: int)
    requires SignedDecimal(m) == SignedDecimal(n)
    ensures m == n
  {
    assert m < 0 <==> SignedDecimal(m)[0] == '-';
    assert n < 0 <==> SignedDecimal(n)[0] == '-';
    if m < 0 {
      assert SignedDecimal(m)[1..] == Decimal(-m) && SignedDecimal(n)[1..] == Decimal(-n);
      ValueOfDecimal(-m);
      ValueOfDecimal(-n);
    } else {
      ValueOfDecimal(m);
      ValueOfDecimal(n);
    }
  }

  /** If two texts split at the first occurrence of a separator agree, so do their parts. */
  lemma SplitAtSeparator(a: string, x: string, b: string, y: string, sep: char)
    requires a + [sep] + x == b + [sep] + y
    requires sep !in a && sep !in b
    ensures a == b && x == y
  {
    var whole := a + [sep] + x;
    assert whole[|a|] == sep && whole[|b|] == sep;
    assert forall i :: 0 <= i < |a| ==> whole[i] == a[i];
    assert forall i :: 0 <= i < |b| ==> whole[i] == b[i];
    assert whole[..|a|] == a && whole[..|b|] == b;
    assert whole[|a| + 1..] == x && whole[|b| + 1..] == y;
  }

  lemma DropPrefix(p: string, x: string, y: string)
    requires p + x == p + y
    ensures x == y
  {
    assert (p + x)[|p|..] == x && (p + y)[|p|..] == y;
  }

  /** One hashed field: its length in decimal, a colon, its bytes, a newline. */
  function Frame(f: string): string {
    Decimal(|f|) + ":" + f + "\n"
  }

  /** A frame is self-delimiting: two framed texts agree only field by field. */
  lemma FrameSplits(f: string, x: string, g: string, y: string)
    requires Frame(f) + x == Frame(g) + y
    ensures f == g && x == y
  {
    var fx, gy := f + "\n" + x, g + "\n" + y;
    assert Frame(f) + x == Decimal(|f|) + [':'] + fx;
    assert Frame(g) + y == Decimal(|g|) + [':'] + gy;
    SplitAtSeparator(Decimal(|f|), fx, Decimal(|g|), gy, ':');
    ValueOfDecimal(|f|);
    ValueOfDecimal(|g|);
    assert fx[..|f|] == f && gy[..|g|] == g;
    assert fx[|f| + 1..] == x && gy[|g| + 1..] == y;
  }

  function Frames(fields: seq<string>): string {
    if fields == [] then "" else Frame(fields[0]) + Frames(fields[1..])
  }

  lemma FramesOfTwo(f: string, g: string)
    ensures Frames([f, g]) == Frame(f) + Frame(g)
  {
    assert [f, g][1..] == [g] && [g][1..] == [];
    assert Frames([g]) == Frame(g) + Frames([]);
  }

  lemma {:induction false} FramesInjective(fs: seq<string>, gs: seq<string>)
    requires |fs| == |gs| && Frames(fs) == Frames(gs)
    ensures fs == gs
  {
    if fs != [] {
      FrameSplits(fs[0], Frames(fs[1..]), gs[0], Frames(gs[1..]));
      FramesInjective(fs[1..], gs[1..]);
      assert fs == [fs[0]] + fs[1..] && gs == [gs[0]] + gs[1..];
    }
  }
}
