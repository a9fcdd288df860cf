/** Boundary-exact, case-insensitive token search of the evidence matchers. */
module TokenSearch {
  import opened Text

  predicate IsAlnum(c: char) {
    'a' <= c <= 'z' || 'A' <= c <= 'Z' || '0' <= c <= '9'
  }

  predicate IsAlnumUnderscore(c: char) {
    IsAlnum(c) || c == '_'
  }

  /** ASCII lower case. */
  function Lower(c: char): char {
    if 'A' <= c <= 'Z' then c - 'A' + 'a' else c
  }

  /** Only the two cases of a letter are told to be alike. */
  lemma LettersAlike(c: char, d: char)
    ensures Lower(c) == Lower(d) <==> c == d || ('A' <= c <= 'Z' && d as int == c as int + 32) || ('A' <= d <= 'Z' && c as int == d as int + 32)
    ensures !('A' <= c <= 'Z') ==> Lower(c) == c
  {}

  function ToLower(s: string): string {
    if s == "" then "" else [Lower(s[0])] + ToLower(s[1..])
  }

  lemma {:induction false} ToLowerAt(s: string)
    ensures |ToLower(s)| == |s| && forall i | 0 <= i < |s| :: ToLower(s)[i] == Lower(s[i])
  {
    if s != "" {
      ToLowerAt(s[1..]);
    }
  }

  /** n stands in h at position k. */
  predicate OccursAt(h: string, n: string, k: int) {
    0 <= k && k + |n| <= |h| && h[k..k + |n|] == n
  }

  /** strings.Index: the first occurrence, or -1. */
  method Index(h: string, n: string) returns (idx: int)
    ensures idx >= 0 ==> OccursAt(h, n, idx)
    ensures forall k | 0 <= k < (if idx < 0 then |h| + 1 else idx) :: !OccursAt(h, n, k)
  {
    idx := 0;
    while idx + |n| <= |h|
      invariant 0 <= idx
      invariant forall k | 0 <= k < idx :: !OccursAt(h, n, k)
    {
      if h[idx..idx + |n|] == n {
        return;
      }
      idx := idx + 1;
    }
    return -1;
  }

  /** An occurrence of the needle, ignoring case, that neither continues a token on
      its left nor is continued by one on its right. */
  ghost predicate Present(haystack: string, needle: string, k: int, continues: char -> bool) {
    && 0 <= k && k + |needle| <= |haystack|
    && (forall i | 0 <= i < |needle| :: Lower(haystack[k + i]) == Lower(needle[i]))
    && (k == 0 || !continues(Lower(haystack[k - 1])))
    && (k + |needle| == |haystack| || !continues(Lower(haystack[k + |needle|])))
  }

  /** The scan finds a bounded occurrence whenever there is one, also when an
      earlier, overlapping occurrence is not bounded. */
  method TokenPresent(haystack: string, needle: string, continues: char -> bool) returns (found: bool)
    ensures found <==> needle != "" && exists k :: Present(haystack, needle, k, continues)
  {
    hide Present, ToLower, Lower;
    var h, n := ToLower(haystack), ToLower(needle);
    LowerSearch(haystack, needle, continues);
    ToLowerAt(needle);
    if n == "" {
      return false;
    }
    var from := 0;
    while from + |n| <= |h|
      invariant 0 <= from
      invariant NoneBefore(h, n, from, continues)
      decreases |h| - from
    {
      var idx := Index(h[from..], n);
      SkipTo(h, n, from, idx, continues);
      if idx < 0 {
        return false;
      }
      var start := from + idx;
      var end := start + |n|;
      var beforeOk := start == 0 || !continues(h[start - 1]);
      var afterOk := end == |h| || !continues(h[end]);
      if beforeOk && afterOk {
        assert Bounded(h, n, start, continues);
        return true;
      }
      assert !Bounded(h, n, start, continues);
      from := start + 1;
    }
    return false;
  }

  ghost predicate NoneBefore(h: string, n: string, to: int, continues: char -> bool) {
    forall k | 0 <= k < to :: !Bounded(h, n, k, continues)
  }

  ghost predicate Bounded(h: string, n: string, k: int, continues: char -> bool) {
    && OccursAt(h, n, k)
    && (k == 0 || !continues(h[k - 1]))
    && (k + |n| == |h| || !continues(h[k + |n|]))
  }

  /** A search of the rest of the text says where the next occurrence is. */
  lemma SkipTo(h: string, n: string, from: nat, idx: int, continues: char -> bool)
    requires from <= |h| && NoneBefore(h, n, from, continues)
    requires idx >= 0 ==> OccursAt(h[from..], n, idx)
    requires forall k | 0 <= k < (if idx < 0 then |h| - from + 1 else idx) :: !OccursAt(h[from..], n, k)
    ensures idx >= 0 ==> OccursAt(h, n, from + idx)
    ensures NoneBefore(h, n, if idx < 0 then |h| + 1 else from + idx, continues)
  {
    if idx >= 0 { Shift(h, n, from, idx); }
    forall k | from <= k < (if idx < 0 then |h| + 1 else from + idx)
      ensures !OccursAt(h, n, k)
    {
      Shift(h, n, from, k - from);
    }
  }

  lemma Shift(h: string, n: string, from: nat, k: int)
    requires from <= |h| && 0 <= k
    ensures OccursAt(h[from..], n, k) <==> OccursAt(h, n, from + k)
  {
    if from + k + |n| <= |h| {
      assert h[from..][k..k + |n|] == h[from + k..from + k + |n|];
    }
  }

  lemma LowerOccurrence(haystack: string, needle: string, k: int, continues: char -> bool)
    ensures Present(haystack, needle, k, continues) <==> Bounded(ToLower(haystack), ToLower(needle), k, continues)
  {
    ToLowerAt(haystack);
    ToLowerAt(needle);
    LowerSlice(haystack, needle, ToLower(haystack), ToLower(needle), k);
  }

  lemma LowerSlice(haystack: string, needle: string, h: string, n: string, k: int)
    requires |h| == |haystack| && forall i | 0 <= i < |h| :: h[i] == Lower(haystack[i])
    requires |n| == |needle| && forall i | 0 <= i < |n| :: n[i] == Lower(needle[i])
    ensures OccursAt(h, n, k) <==> (
              && 0 <= k && k + |needle| <= |haystack|
              && forall i | 0 <= i < |needle| :: Lower(haystack[k + i]) == Lower(needle[i]))
  {
    if 0 <= k && k + |n| <= |h| {
      var cut := h[k..k + |n|];
      assert forall i | 0 <= i < |n| :: cut[i] == h[k + i];
    }
  }

  lemma LowerSearch(haystack: string, needle: string, continues: char -> bool)
    ensures (exists k :: Present(haystack, needle, k, continues))
       <==> (exists k :: Bounded(ToLower(haystack), ToLower(needle), k, continues))
  {
    if k :| Present(haystack, needle, k, continues) {
      LowerOccurrence(haystack, needle, k, continues);
    }
    if k :| Bounded(ToLower(haystack), ToLower(needle), k, continues) {
      LowerOccurrence(haystack, needle, k, continues);
    }
  }

  method ExpectedTextMatch(expected: string, observed: string) returns (matched: bool)
    ensures matched <==> Blank(expected) || exists k :: Present(observed, Trim(expected), k, IsAlnum)
  {
    var needle := Trim(expected);
    TrimBlank(expected);
    if needle == "" {
      return true;
    }
    matched := TokenPresent(observed, needle, IsAlnum);
  }

  method GameStateJSONContainsID(jsonStr: string, id: string) returns (matched: bool)
    ensures matched <==> !Blank(jsonStr) && !Blank(id) && exists k :: Present(jsonStr, Trim(id), k, IsAlnumUnderscore)
  {
    TrimBlank(jsonStr);
    TrimBlank(id);
    if Trim(jsonStr) == "" || Trim(id) == "" {
      return false;
    }
    matched := TokenPresent(jsonStr, Trim(id), IsAlnumUnderscore);
  }

  /** The id boundary is the stricter one, and only by the underscore. */
  lemma IdMatchIsTextMatch(haystack: string, needle: string, k: int)
    ensures Present(haystack, needle, k, IsAlnumUnderscore)
       <==> && Present(haystack, needle, k, IsAlnum)
            && (k == 0 || haystack[k - 1] != '_')
            && (k + |needle| == |haystack| || haystack[k + |needle|] != '_')
  {}

  /** Case plays no part, in the text or in the token. */
  lemma {:induction false} CaseDoesNotMatter(h1: string, h2: string, n1: string, n2: string, k: int, continues: char -> bool)
    requires ToLower(h1) == ToLower(h2) && ToLower(n1) == ToLower(n2)
    ensures Present(h1, n1, k, continues) <==> Present(h2, n2, k, continues)
  {
    LowerOccurrence(h1, n1, k, continues);
    LowerOccurrence(h2, n2, k, continues);
  }
}
