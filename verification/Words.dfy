/** The whole-word scanner behind the provider-neutrality lint (internal/flow/flow.go). */
module Words {
  predicate IsAlphaNum(b: char) { ('a' <= b <= 'z') || ('A' <= b <= 'Z') || ('0' <= b <= '9') }

  predicate OccursAt(s: string, word: string, start: nat) {
    start + |word| <= |s| && s[start..start + |word|] == word
  }

  /** word stands at start with nothing alphanumeric on either side. */
  predicate StandsAt(s: string, word: string, start: nat) {
    && OccursAt(s, word, start)
    && (start == 0 || !IsAlphaNum(s[start - 1]))
    && (start + |word| == |s| || !IsAlphaNum(s[start + |word|]))
  }

  /** The first occurrence of word in s from a position on, or -1. */
  method Index(s: string, word: string, from: nat) returns (i: int)
    requires from <= |s|
    ensures i == -1 ==> forall k: nat :: from <= k ==> !OccursAt(s, word, k)
    ensures i != -1 ==> from <= i && OccursAt(s, word, i) && forall k: nat :: from <= k < i ==> !OccursAt(s, word, k)
  {
    i := from;
    while i + |word| <= |s|
      invariant from <= i <= |s| + 1
      invariant forall k: nat :: from <= k < i ==> !OccursAt(s, word, k)
    {
      if s[i..i + |word|] == word {
        return;
      }
      i := i + 1;
    }
    return -1;
  }

  /** The word stands somewhere in s. The scan looks at every start but the one past the last
      byte, where only the empty word could stand. */
  ghost predicate Stands(s: string, word: string) {
    exists start: nat :: (start == 0 || start < |s|) && StandsAt(s, word, start)
  }

  /** True exactly when some occurrence stands alone, overlapping and rejected earlier ones
      notwithstanding. */
  method ContainsWord(s: string, word: string) returns (found: bool)
    ensures found <==> Stands(s, word)
  {
    hide OccursAt, IsAlphaNum;
    var idx := 0;
    while true
      invariant 0 <= idx && (idx == 0 || idx < |s|)
      invariant forall k: nat :: k < idx ==> !StandsAt(s, word, k)
      decreases |s| - idx
    {
      var start := Index(s, word, idx);
      if start < 0 {
        return false;
      }
      var end := start + |word|;
      EndInside(s, word, start);
      var leftOK := start == 0 || !IsAlphaNum(s[start - 1]);
      var rightOK := end == |s| || !IsAlphaNum(s[end]);
      if leftOK && rightOK {
        StartInside(s, word, start, idx);
        assert StandsAt(s, word, start);
        return true;
      }
      idx := start + 1;
      if idx >= |s| {
        return false;
      }
    }
  }

  lemma EndInside(s: string, word: string, start: nat)
    requires OccursAt(s, word, start)
    ensures start + |word| <= |s|
  {
  }

  lemma StartInside(s: string, word: string, start: nat, idx: nat)
    requires OccursAt(s, word, start) && idx <= start && (idx == 0 || idx < |s|)
    requires forall k: nat :: idx <= k < start ==> !OccursAt(s, word, k)
    ensures start == 0 || start < |s|
  {
    assert word == "" ==> OccursAt(s, word, idx);
  }

  /** For a word with at least one byte there is no exception: a match is found exactly if the
      word stands anywhere. */
  lemma NonEmptyWordStandsAnywhere(s: string, word: string)
    requires word != ""
    ensures Stands(s, word) <==> exists start: nat :: StandsAt(s, word, start)
  {
  }

  /** The first listed literal that stands in the lower-cased text, or "" when none does. */
  method FindProviderLiteral(lower: string -> string, literals: seq<string>, s: string) returns (p: string)
    ensures s == "" ==> p == ""
    ensures s != "" ==>
      || (p == "" && forall q :: q in literals ==> !Stands(lower(s), q))
      || exists i :: 0 <= i < |literals| && p == literals[i] && Stands(lower(s), p)
                     && forall k :: 0 <= k < i ==> !Stands(lower(s), literals[k])
  {
    hide Stands;
    if s == "" {
      return "";
    }
    var text := lower(s);
    for i := 0 to |literals|
      invariant forall k :: 0 <= k < i ==> !Stands(text, literals[k])
    {
      var found := ContainsWord(text, literals[i]);
      if found {
        assert literals[i] in literals;
        return literals[i];
      }
    }
    assert forall q :: q in literals ==> !Stands(text, q);
    return "";
  }
}
