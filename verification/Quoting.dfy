/** Git's C-style quoting of path names (core.quotePath) and the decoder the diff parser uses
    (internal/content/content.go, unquoteGitPath). */
module Quoting {
  import opened Bytes

  // ---- the decoder --------------------------------------------------------------------

  predicate IsOctal(c: char) { '0' <= c <= '7' }

  /** How many octal digits s starts with, up to a limit. */
  function OctalRun(s: string, limit: nat): (n: nat)
    ensures n <= limit && n <= |s| && forall i :: 0 <= i < n ==> IsOctal(s[i])
  {
    if limit == 0 || s == "" || !IsOctal(s[0]) then 0 else 1 + OctalRun(s[1..], limit - 1)
  }

  function OctalValue(s: string): nat
    requires forall i :: 0 <= i < |s| ==> IsOctal(s[i])
  {
    if s == "" then 0
    else
      assert IsOctal(s[|s| - 1]);
      8 * OctalValue(s[..|s| - 1]) + (s[|s| - 1] as int - '0' as int)
  }

  function ByteOf(n: nat): char { (n % 256) as char }

  /** The byte a one-letter escape stands for; an unknown escape stands for itself. */
  function ShortEscape(c: char): char {
    match c
    case 'a' => 7 as char
    case 'b' => 8 as char
    case 't' => 9 as char
    case 'n' => 10 as char
    case 'v' => 11 as char
    case 'f' => 12 as char
    case 'r' => 13 as char
    case _ => c
  }

  /** The body of a quoted name, decoded. */
  function UnquoteBody(s: string): string
    decreases |s|
  {
    if s == "" then ""
    else if s[0] != '\\' then [s[0]] + UnquoteBody(s[1..])
    else if |s| == 1 then "\\"
    else if IsOctal(s[1]) then
      var n := OctalRun(s[1..], 3);
      [ByteOf(OctalValue(s[1..1 + n]))] + UnquoteBody(s[1 + n..])
    else [ShortEscape(s[1])] + UnquoteBody(s[2..])
  }

  predicate IsQuoted(p: string) { |p| >= 2 && p[0] == '"' && p[|p| - 1] == '"' }

  function Unquote(p: string): string {
    if IsQuoted(p) then UnquoteBody(p[1..|p| - 1]) else p
  }

  lemma LiteralStep(body: string, i: nat)
    requires i < |body| && body[i] != '\\'
    ensures UnquoteBody(body[i..]) == [body[i]] + UnquoteBody(body[i + 1..])
  {
  }

  lemma LetterStep(body: string, i: nat)
    requires i + 1 < |body| && body[i] == '\\' && !IsOctal(body[i + 1])
    ensures UnquoteBody(body[i..]) == [ShortEscape(body[i + 1])] + UnquoteBody(body[i + 2..])
  {
  }

  lemma OctalStep(body: string, i: nat, n: nat)
    requires i + 1 < |body| && body[i] == '\\' && IsOctal(body[i + 1])
    requires n == OctalRun(body[i + 1..], 3)
    ensures i + 1 + n <= |body| && forall k :: i + 1 <= k < i + 1 + n ==> IsOctal(body[k])
    ensures UnquoteBody(body[i..]) == [ByteOf(OctalValue(body[i + 1..i + 1 + n]))] + UnquoteBody(body[i + 1 + n..])
  {
    var rest := body[i..];
    assert rest[1..] == body[i + 1..];
    assert body[i + 1..][..n] == body[i + 1..i + 1 + n];
    assert forall k :: i + 1 <= k < i + 1 + n ==> body[k] == body[i + 1..][k - i - 1];
    assert rest[1..1 + n] == body[i + 1..i + 1 + n] && rest[1 + n..] == body[i + 1 + n..];
  }

  lemma NoDigits()
    ensures OctalValue("") == 0
  {
  }

  lemma OctalAppend(s: string, c: char)
    requires (forall i :: 0 <= i < |s| ==> IsOctal(s[i])) && IsOctal(c)
    ensures (forall i :: 0 <= i < |s + [c]| ==> IsOctal((s + [c])[i]))
    ensures OctalValue(s + [c]) == 8 * OctalValue(s) + (c as int - '0' as int)
  {
    assert (s + [c])[..|s|] == s;
  }

  /** Reads the octal digits of an escape: up to three, from a first one at i. */
  method ReadOctal(body: string, i: nat) returns (val: nat, last: nat)
    requires i < |body| && IsOctal(body[i])
    ensures i <= last < |body| && OctalRun(body[i..], 3) == last - i + 1
    ensures forall m :: i <= m <= last ==> IsOctal(body[m])
    ensures val == OctalValue(body[i..last + 1])
  {
    hide OctalRun, OctalValue;
    val, last := body[i] as int - '0' as int, i;
    NoDigits();
    OctalAppend("", body[i]);
    assert body[i..i + 1] == "" + [body[i]];
    var k := 0;
    while k < 2 && last + 1 < |body| && IsOctal(body[last + 1])
      invariant 0 <= k <= 2 && i + k == last < |body|
      invariant forall m :: i <= m <= last ==> IsOctal(body[m])
      invariant val == OctalValue(body[i..last + 1])
      decreases 2 - k
    {
      OctalAppend(body[i..last + 1], body[last + 1]);
      assert body[i..last + 2] == body[i..last + 1] + [body[last + 1]];
      last := last + 1;
      val := val * 8 + (body[last] as int - '0' as int);
      k := k + 1;
    }
    RunLength(body[i..], k);
  }

  /** Decodes the escape at i, which is not the last byte. */
  method DecodeEscape(body: string, i: nat) returns (c: char, next: nat)
    requires i + 1 < |body| && body[i] == '\\'
    ensures i < next <= |body| && UnquoteBody(body[i..]) == [c] + UnquoteBody(body[next..])
  {
    hide UnquoteBody, OctalRun, OctalValue, ShortEscape;
    var e := body[i + 1];
    if IsOctal(e) {
      var val, last := ReadOctal(body, i + 1);
      OctalStep(body, i, last - i);
      c, next := ByteOf(val), last + 1;
    } else {
      LetterStep(body, i);
      c, next := ShortEscape(e), i + 2;
    }
  }

  lemma Shift(r: string, c: char, rest: string)
    ensures r + ([c] + rest) == (r + [c]) + rest
  {
  }

  /** The decoder as the source runs it: one index over the body, one growing buffer. */
  method UnquoteGitPath(p: string) returns (r: string)
    ensures r == Unquote(p)
  {
    if |p| < 2 || p[0] != '"' || p[|p| - 1] != '"' {
      return p;
    }
    var body := p[1..|p| - 1];
    r := "";
    var i := 0;
    assert body[0..] == body;
    while i < |body|
      invariant 0 <= i <= |body|
      invariant r + UnquoteBody(body[i..]) == UnquoteBody(body)
    {
      hide UnquoteBody;
      if body[i] != '\\' {
        LiteralStep(body, i);
        Shift(r, body[i], UnquoteBody(body[i + 1..]));
        r, i := r + [body[i]], i + 1;
      } else if i + 1 >= |body| {
        LoneBackslash(body);
        Shift(r, '\\', UnquoteBody(body[i + 1..]));
        r, i := r + "\\", i + 1;
      } else {
        var c, next := DecodeEscape(body, i);
        Shift(r, c, UnquoteBody(body[next..]));
        r, i := r + [c], next;
      }
    }
    assert body[i..] == "";
  }

  lemma LoneBackslash(body: string)
    requires body != "" && body[|body| - 1] == '\\'
    ensures UnquoteBody(body[|body| - 1..]) == "\\" + UnquoteBody(body[|body|..])
  {
  }

  /** An octal run ends where its digits or its three places do. */
  lemma RunLength(s: string, k: nat)
    requires k <= 2 && k < |s| && forall i :: 0 <= i <= k ==> IsOctal(s[i])
    requires k == 2 || k + 1 >= |s| || !IsOctal(s[k + 1])
    ensures OctalRun(s, 3) == k + 1
  {
    assert OctalRun(s, 3) == 1 + OctalRun(s[1..], 2);
    if k >= 1 {
      assert OctalRun(s[1..], 2) == 1 + OctalRun(s[2..], 1) by { assert s[1..][1..] == s[2..]; }
      if k == 2 {
        assert OctalRun(s[2..], 1) == 1 + OctalRun(s[3..], 0) by { assert s[2..][1..] == s[3..]; }
      }
    }
  }

  // ---- git's quoting ------------------------------------------------------------------

  function OctalDigit(n: nat): (c: char)
    requires n < 8
    ensures IsOctal(c) && c as int - '0' as int == n
  {
    '0' + n as char
  }

  /** The letter git escapes a byte with, if it has one. */
  function EscapeLetter(c: char): string {
    match c as int
    case 7 => "a"
    case 8 => "b"
    case 9 => "t"
    case 10 => "n"
    case 11 => "v"
    case 12 => "f"
    case 13 => "r"
    case _ => if c == '"' || c == '\\' then [c] else ""
  }

  predicate PlainByte(c: char) { 0x20 <= c as int < 0x7F && c != '"' && c != '\\' }

  function QuoteByte(c: char): string
    requires c as int < 256
  {
    var n := c as int;
    if PlainByte(c) then [c]
    else if EscapeLetter(c) != "" then "\\" + EscapeLetter(c)
    else "\\" + [OctalDigit(n / 64), OctalDigit(n / 8 % 8), OctalDigit(n % 8)]
  }

  function QuoteBody(s: string): string
    requires IsBytes(s)
  {
    if s == "" then "" else QuoteByte(s[0]) + QuoteBody(s[1..])
  }

  predicate NeedsQuotes(p: string) { exists i :: 0 <= i < |p| && !PlainByte(p[i]) }

  /** A path name as git prints it. */
  function GitQuote(p: string): string
    requires IsBytes(p)
  {
    if NeedsQuotes(p) then "\"" + QuoteBody(p) + "\"" else p
  }

  lemma ByteSurvives(c: char, rest: string)
    requires c as int < 256
    ensures UnquoteBody(QuoteByte(c) + rest) == [c] + UnquoteBody(rest)
  {
    var s := QuoteByte(c) + rest;
    if PlainByte(c) {
      LiteralStep(s, 0);
      assert s[1..] == rest && s[0..] == s;
    } else if EscapeLetter(c) != "" {
      LetterStep(s, 0);
      assert s[2..] == rest && s[0..] == s;
    } else {
      OctalSurvives(c, rest);
    }
  }

  lemma ThreeDigits(d: string)
    requires |d| == 3 && IsOctal(d[0]) && IsOctal(d[1]) && IsOctal(d[2])
    ensures OctalValue(d) == 64 * (d[0] as int - '0' as int) + 8 * (d[1] as int - '0' as int) + (d[2] as int - '0' as int)
  {
    hide OctalValue;
    var one, two := "" + [d[0]], "" + [d[0]] + [d[1]];
    OctalAppend("", d[0]);
    OctalAppend(one, d[1]);
    OctalAppend(two, d[2]);
    assert d == two + [d[2]];
    assert OctalValue("") == 0 by { NoDigits(); }
  }

  lemma OctalSurvives(c: char, rest: string)
    requires c as int < 256
    ensures var n := c as int;
      UnquoteBody("\\" + [OctalDigit(n / 64), OctalDigit(n / 8 % 8), OctalDigit(n % 8)] + rest) == [c] + UnquoteBody(rest)
  {
    hide OctalValue, UnquoteBody, OctalRun;
    var n := c as int;
    var d := [OctalDigit(n / 64), OctalDigit(n / 8 % 8), OctalDigit(n % 8)];
    var s := "\\" + d + rest;
    assert forall i :: 0 <= i < 3 ==> s[1..][i] == d[i];
    RunLength(s[1..], 2);
    OctalStep(s, 0, 3);
    assert s[1..4] == d && s[4..] == rest && s[0..] == s;
    ThreeDigits(d);
    assert n == 64 * (n / 64) + 8 * (n / 8 % 8) + n % 8;
  }

  lemma {:induction false} BodySurvives(p: string)
    requires IsBytes(p)
    ensures UnquoteBody(QuoteBody(p)) == p
    decreases p
  {
    if p != "" {
      ByteSurvives(p[0], QuoteBody(p[1..]));
      BodySurvives(p[1..]);
      assert [p[0]] + p[1..] == p;
    }
  }

  /** The decoder inverts git's quoting on every name, quoted or not. */
  lemma UnquoteInvertsQuote(p: string)
    requires IsBytes(p)
    ensures Unquote(GitQuote(p)) == p
  {
    if NeedsQuotes(p) {
      assert GitQuote(p)[1..|GitQuote(p)| - 1] == QuoteBody(p);
      BodySurvives(p);
    } else {
      assert |p| > 0 ==> PlainByte(p[0]);
    }
  }
}
