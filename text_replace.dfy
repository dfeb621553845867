/** Literal, global string replacement: what JavaScript's `s.replace(/p/g, r)`
    does when `p` has no regular-expression metacharacters other than braces,
    its braces do not form a `{n}`, `{n,}` or `{n,m}` quantifier (so JavaScript's
    lenient grammar without the `u` flag reads them literally), and `r` has no
    `$` replacement patterns. */
module TextReplace {

  /** `p` occurs somewhere in `s`. */
  predicate Contains(s: string, p: string)
    decreases |s|
  {
    |p| <= |s| && (s[..|p|] == p || Contains(s[1..], p))
  }

  /** Scan `s` from the left; replace each occurrence of `p` by `r` and go on
      after it, so occurrences do not overlap and inserted text is not scanned.
      Replacing a pattern by itself leaves the text as it was. */
  function ReplaceAll(s: string, p: string, r: string): (res: string)
    requires p != []
    ensures r == p ==> res == s
    decreases |s|
  {
    if |s| < |p| then s
    else if s[..|p|] == p then
      assert s == s[..|p|] + s[|p|..];
      r + ReplaceAll(s[|p|..], p, r)
    else
      assert s == [s[0]] + s[1..];
      [s[0]] + ReplaceAll(s[1..], p, r)
  }

  /** Nothing to replace leaves the text as it was. */
  lemma {:induction false} ReplaceAllAbsent(s: string, p: string, r: string)
    requires p != [] && !Contains(s, p)
    ensures ReplaceAll(s, p, r) == s
  {
    if |s| >= |p| {
      ReplaceAllAbsent(s[1..], p, r);
    }
  }

  /** Every character `c` of `s` replaced by `r`, the others kept. */
  function ReplaceChar(s: string, c: char, r: string): string
  {
    if s == [] then [] else (if s[0] == c then r else [s[0]]) + ReplaceChar(s[1..], c, r)
  }

  /** For a one-character pattern, the scan is a character-by-character map. */
  lemma {:induction false} ReplaceAllOneChar(s: string, c: char, r: string)
    ensures ReplaceAll(s, [c], r) == ReplaceChar(s, c, r)
  {
    if s != [] {
      ReplaceAllOneChar(s[1..], c, r);
      assert s[..1] == [s[0]];
    }
  }

  /** No `c` survives when `r` has none. */
  lemma {:induction false} ReplaceCharRemoves(s: string, c: char, r: string)
    requires c !in r
    ensures c !in ReplaceChar(s, c, r)
  {
    if s != [] {
      ReplaceCharRemoves(s[1..], c, r);
    }
  }

  /** Text without `c` is left as it was. */
  lemma {:induction false} ReplaceCharAbsent(s: string, c: char, r: string)
    ensures c !in s ==> ReplaceChar(s, c, r) == s
  {
    if s != [] && c !in s {
      assert c !in s[1..];
      ReplaceCharAbsent(s[1..], c, r);
      assert s == [s[0]] + s[1..];
    }
  }

  /** The number of `c` in `s`. */
  function Occurrences(s: string, c: char): nat
  {
    if s == [] then 0 else (if s[0] == c then 1 else 0) + Occurrences(s[1..], c)
  }

  /** Each `c` grows the text by `|r| - 1` characters. */
  lemma {:induction false} ReplaceCharLength(s: string, c: char, r: string)
    ensures |ReplaceChar(s, c, r)| == |s| + Occurrences(s, c) * (|r| - 1)
  {
    if s != [] {
      ReplaceCharLength(s[1..], c, r);
    }
  }
}
