/** Model of `src/util.rs`: character-based truncation with a "..." suffix. */
module Util {

  /** The suffix written in place of the cut-off characters. */
  const DOTS: string := "..."

  /** `iter.take(n)`: the first `n` characters, or all of them when there are fewer. */
  function Take(s: string, n: nat): (r: string)
    ensures |r| == if n <= |s| then n else |s|
    ensures r <= s
  {
    if n <= |s| then s[..n] else s
  }

  /** `usize::saturating_sub`: subtraction clamped at zero. */
  function SaturatingSub(a: nat, b: nat): (r: nat)
    ensures r + b >= a && (r == 0 || r + b == a)
  {
    if a >= b then a - b else 0
  }

  /**
   * `truncate_str(s, max_n)`. Counting and slicing are in characters (Unicode scalar
   * values), so a multi-byte character is never split.
   */
  function TruncateStr(s: string, maxN: nat): (r: string)
    // the length is the smaller of the input length and the limit
    ensures |r| == if |s| <= maxN then |s| else maxN
    // short enough: returned unchanged
    ensures |s| <= maxN ==> r == s
    // too long, room for the dots: a prefix of s followed by "..."
    ensures |s| > maxN && maxN >= 3 ==> r == s[..maxN - 3] + DOTS
    // too long, no room for the dots: a prefix of "..." only
    ensures |s| > maxN && maxN < 3 ==> r == DOTS[..maxN]
  {
    var sN := |s|;
    var (n, m) := if sN > maxN then (SaturatingSub(maxN, |DOTS|), maxN) else (sN, sN);
    Take(Take(s, n) + DOTS, m)
  }

  /** The result is always a character prefix of `s` followed by a prefix of "...". */
  lemma TruncateStrIsPrefixPlusDots(s: string, maxN: nat)
    ensures exists k, j :: 0 <= k <= |s| && 0 <= j <= |DOTS| && TruncateStr(s, maxN) == s[..k] + DOTS[..j]
  {
    var r := TruncateStr(s, maxN);
    if |s| <= maxN {
      assert r == s[..|s|] + DOTS[..0];
    } else if maxN >= 3 {
      assert r == s[..maxN - 3] + DOTS[..3];
    } else {
      assert r == s[..0] + DOTS[..maxN];
    }
  }

  /** The unit test of `src/util.rs`, on a string of five multi-byte characters. */
  lemma TruncateStrTest()
    ensures TruncateStr("おはよう。", 6) == "おはよう。"
    ensures TruncateStr("おはよう。", 5) == "おはよう。"
    ensures TruncateStr("おはよう。", 4) == "お..."
    ensures TruncateStr("おはよう。", 3) == "..."
    ensures TruncateStr("おはよう。", 2) == ".."
    ensures TruncateStr("おはよう。", 1) == "."
    ensures TruncateStr("おはよう。", 0) == ""
  {
  }
}
