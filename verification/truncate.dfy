/** Fixed-width left truncation of the COMMAND column (truncateLeft in main.go).
    Strings are sequences of code points, as the source converts to runes first. */
module Truncate {
  import opened Cells

  const Ellipsis: string := "..."

  /** `t` is a suffix of `s`. */
  predicate IsSuffix(t: string, s: string)
  {
    |t| <= |s| && s[|s| - |t|..] == t
  }

  /** The independent description of a left truncation of `s` to `maxWidth` columns:
      `r` has min(|s|, max(maxWidth, 0)) code points; it is `s` itself when `s` is
      kept whole, and otherwise its first min(|r|, 3) code points are dots and the
      rest is a suffix of `s`. */
  predicate IsLeftTruncation(s: string, maxWidth: int, r: string)
  {
    && |r| == Min(|s|, Max(maxWidth, 0))
    && (|r| == |s| ==> r == s)
    && (|r| < |s| ==>
          && (forall i :: 0 <= i < Min(|r|, 3) ==> r[i] == '.')
          && IsSuffix(r[Min(|r|, 3)..], s))
  }

  /** truncateLeft: empty for a non-positive width, `s` when it fits, a prefix of
      "..." when the width is at most 3, and otherwise "..." followed by the last
      maxWidth-3 code points of `s`. */
  function TruncateLeft(s: string, maxWidth: int): (r: string)
    ensures IsLeftTruncation(s, maxWidth, r)
    ensures maxWidth <= 0 ==> r == ""
    ensures |s| <= maxWidth ==> r == s
  {
    if maxWidth <= 0 then ""
    else if |s| <= maxWidth then s
    else if maxWidth <= 3 then Ellipsis[..maxWidth]
    else Ellipsis + s[|s| - (maxWidth - 3)..]
  }

  /** The description above pins the result down: TruncateLeft is the only string
      that is a left truncation of `s` to `maxWidth`. */
  lemma TruncateLeftUnique(s: string, maxWidth: int, r: string)
    ensures IsLeftTruncation(s, maxWidth, r) <==> r == TruncateLeft(s, maxWidth)
  {
    if IsLeftTruncation(s, maxWidth, r) {
      var t := TruncateLeft(s, maxWidth);
      if |r| < |s| {
        var k := Min(|r|, 3);
        assert r[k..] == s[|s| - (|r| - k)..] == t[k..];
        DotsThenSame(r, t, k);
      }
    }
  }

  /** Two strings of one length that both open with k dots and agree after them are equal. */
  lemma DotsThenSame(r: string, t: string, k: int)
    requires |r| == |t| && 0 <= k <= |r|
    requires forall i :: 0 <= i < k ==> r[i] == '.' && t[i] == '.'
    requires r[k..] == t[k..]
    ensures r == t
  {
    forall i | k <= i < |r|
      ensures r[i] == t[i]
    {
      assert r[i] == r[k..][i - k];
      assert t[i] == t[k..][i - k];
    }
  }

  /** Truncating an already truncated command changes nothing more. */
  lemma TruncateLeftIdempotent(s: string, maxWidth: int)
    ensures TruncateLeft(TruncateLeft(s, maxWidth), maxWidth) == TruncateLeft(s, maxWidth)
  {
  }

  /** A truncation to more than three columns keeps the last maxWidth-3 code points of `s`. */
  lemma TruncateLeftKeepsTail(s: string, maxWidth: int)
    requires maxWidth > 3
    ensures IsSuffix(s[|s| - Min(|s|, maxWidth - 3)..], TruncateLeft(s, maxWidth))
  {
  }

  /** The truncation vectors of the repository's tests where the width is small or `s` fits. */
  lemma TruncateLeftShortVectors()
    ensures TruncateLeft("/usr/bin/test", 20) == "/usr/bin/test"
    ensures TruncateLeft("/usr/bin/test", 13) == "/usr/bin/test"
    ensures TruncateLeft("/usr/bin/test", 5) == "...st"
    ensures TruncateLeft("/usr/bin/test", 3) == "..."
    ensures TruncateLeft("/usr/bin/test", 2) == ".."
    ensures TruncateLeft("/usr/bin/test", 0) == ""
  {
    assert "/usr/bin/test"[11..] == "st";
  }

  /** A string more than three code points longer than its last maxWidth-3 is cut to
      "..." followed by those code points. */
  lemma TruncateLeftDropsPrefix(dropped: string, kept: string, maxWidth: int)
    requires maxWidth > 3 && |kept| == maxWidth - 3 && |dropped| > 3
    ensures TruncateLeft(dropped + kept, maxWidth) == Ellipsis + kept
  {
    var s := dropped + kept;
    assert s[|s| - (maxWidth - 3)..] == kept;
  }

  /** The truncation vector of the repository's tests on "/very/long/path/to/executable". */
  lemma TruncateLeftLongVector()
    ensures TruncateLeft("/very/long/path/to/executable", 20) == "...ath/to/executable"
  {
    LongPathSplits();
    LongResultSplits();
    TruncateLeftDropsPrefix("/very/long/p", "ath/to/executable", 20);
  }

  /** The truncation vector of the repository's tests on a 39-code-point path. */
  lemma TruncateLeftLongerVector()
    ensures TruncateLeft("/path/to/some/very/long/executable/name", 25) == "...y/long/executable/name"
  {
    LongerPathSplits();
    LongerResultSplits();
    TruncateLeftDropsPrefix("/path/to/some/ver", "y/long/executable/name", 25);
  }

  /** Truncation keeps whole CJK code points (the test's "/path/to/\u6587\u4ef6/executable"). */
  lemma TruncateLeftUnicodeVector()
    ensures TruncateLeft("/path/to/\U{6587}\U{4EF6}/executable", 15) == "...\U{4EF6}/executable"
  {
    UnicodePathSplits();
    UnicodeResultSplits();
    TruncateLeftDropsPrefix("/path/to/\U{6587}", "\U{4EF6}/executable", 15);
  }

  // Each test path as the part truncation drops and the part it keeps, and each
  // expected result as the ellipsis and that kept part (one literal per lemma).

  lemma LongPathSplits()
    ensures "/very/long/path/to/executable" == "/very/long/p" + "ath/to/executable"
  {
  }

  lemma LongResultSplits()
    ensures "...ath/to/executable" == Ellipsis + "ath/to/executable"
  {
  }

  lemma LongerPathSplits()
    ensures "/path/to/some/very/long/executable/name" == "/path/to/some/ver" + "y/long/executable/name"
  {
  }

  lemma LongerResultSplits()
    ensures "...y/long/executable/name" == Ellipsis + "y/long/executable/name"
  {
  }

  lemma UnicodePathSplits()
    ensures "/path/to/\U{6587}\U{4EF6}/executable" == "/path/to/\U{6587}" + "\U{4EF6}/executable"
  {
  }

  lemma UnicodeResultSplits()
    ensures "...\U{4EF6}/executable" == Ellipsis + "\U{4EF6}/executable"
  {
  }
}
