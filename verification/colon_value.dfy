/** extractValueAfterLastColon of main.go, which pulls the value out of a rocm-smi
    line such as "GPU[0]  : GPU use (%): 25", with the whitespace trimming it uses. */
module ColonValue {

  /** White space as Go's unicode.IsSpace defines it (the set strings.TrimSpace trims). */
  predicate IsSpace(c: char)
  {
    || c == '\t' || c == '\n' || c == '\U{000B}' || c == '\U{000C}' || c == '\r' || c == ' '
    || c == '\U{0085}' || c == '\U{00A0}' || c == '\U{1680}'
    || ('\U{2000}' <= c <= '\U{200A}')
    || c == '\U{2028}' || c == '\U{2029}' || c == '\U{202F}' || c == '\U{205F}' || c == '\U{3000}'
  }

  /** Every code point of `s` from `lo` up to (not including) `hi` is white space. */
  predicate SpaceBetween(s: string, lo: nat, hi: nat)
    requires lo <= hi <= |s|
  {
    forall i :: lo <= i < hi ==> IsSpace(s[i])
  }

  /** Number of leading white-space code points of `s`. */
  function LeadingSpace(s: string): (k: nat)
    ensures k <= |s|
    ensures SpaceBetween(s, 0, k)
    ensures k < |s| ==> !IsSpace(s[k])
  {
    if |s| == 0 || !IsSpace(s[0]) then 0
    else
      var k := 1 + LeadingSpace(s[1..]);
      SpaceShift(s, 1, 0, k - 1);
      k
  }

  /** Number of trailing white-space code points of `s`. */
  function TrailingSpace(s: string): (k: nat)
    ensures k <= |s|
    ensures SpaceBetween(s, |s| - k, |s|)
    ensures k < |s| ==> !IsSpace(s[|s| - k - 1])
  {
    if |s| == 0 || !IsSpace(s[|s| - 1]) then 0
    else
      var init := s[..|s| - 1];
      var k := 1 + TrailingSpace(init);
      assert forall i :: |s| - k <= i < |s| - 1 ==> s[i] == init[i];
      k
  }

  /** White space in a suffix of `s` is white space in `s`, shifted by where the suffix starts. */
  lemma SpaceShift(s: string, from: nat, lo: nat, hi: nat)
    requires from <= |s| && lo <= hi <= |s| - from
    requires SpaceBetween(s[from..], lo, hi)
    ensures SpaceBetween(s, from + lo, from + hi)
  {
    forall i | from + lo <= i < from + hi
      ensures IsSpace(s[i])
    {
      assert s[i] == s[from..][i - from];
    }
  }

  /** strings.TrimSpace: `s` with its leading and trailing white space removed. The
      result is a piece of `s` framed by white space only, and it neither starts nor
      ends with white space. */
  function TrimSpace(s: string): (r: string)
    ensures LeadingSpace(s) + |r| <= |s|
    ensures r != [] ==> !IsSpace(r[0]) && !IsSpace(r[|r| - 1])
    ensures r == s[LeadingSpace(s)..LeadingSpace(s) + |r|]
    ensures SpaceBetween(s, 0, LeadingSpace(s)) && SpaceBetween(s, LeadingSpace(s) + |r|, |s|)
  {
    var front := LeadingSpace(s);
    var rest := s[front..];
    var back := TrailingSpace(rest);
    SpaceShift(s, front, |rest| - back, |rest|);
    assert front < |s| - back ==> s[|s| - back - 1] == rest[|rest| - back - 1];
    s[front..|s| - back]
  }

  /** A string without surrounding white space is its own trim. */
  lemma TrimSpaceFixes(s: string)
    requires s == [] || (!IsSpace(s[0]) && !IsSpace(s[|s| - 1]))
    ensures TrimSpace(s) == s
  {
    if s != [] {
      assert LeadingSpace(s) == 0;
      assert TrailingSpace(s) == 0;
    }
  }

  /** Trimming twice is trimming once. */
  lemma TrimSpaceIdempotent(s: string)
    ensures TrimSpace(TrimSpace(s)) == TrimSpace(s)
  {
    TrimSpaceFixes(TrimSpace(s));
  }

  /** strings.LastIndex for one character: the position of its last occurrence, or -1. */
  function LastIndexOf(s: string, c: char): (k: int)
    ensures -1 <= k < |s|
    ensures k == -1 <==> c !in s
    ensures 0 <= k ==> s[k] == c && c !in s[k + 1..]
  {
    if |s| == 0 then -1
    else if s[|s| - 1] == c then |s| - 1
    else
      var init := s[..|s| - 1];
      var k := LastIndexOf(init, c);
      LastIndexPastLast(init, s[|s| - 1], c, k);
      assert s == init + [s[|s| - 1]];
      k
  }

  /** A last byte other than c leaves the last occurrence of c where it was. */
  lemma LastIndexPastLast(init: string, last: char, c: char, k: int)
    requires last != c && -1 <= k < |init|
    requires k == -1 <==> c !in init
    requires 0 <= k ==> init[k] == c && c !in init[k + 1..]
    ensures k == -1 <==> c !in init + [last]
    ensures 0 <= k ==> (init + [last])[k] == c && c !in (init + [last])[k + 1..]
  {
    if 0 <= k {
      assert (init + [last])[k + 1..] == init[k + 1..] + [last];
    }
  }

  /** extractValueAfterLastColon: ("", false) when the line has no colon, otherwise the
      trimmed text after the last colon and true. The second guard of main.go,
      lastColonIdx+1 > len(line), is kept although LastIndexOf's bound rules it out. */
  function ExtractValueAfterLastColon(line: string): (r: (string, bool))
    ensures !r.1 <==> ':' !in line
    ensures !r.1 ==> r.0 == ""
    ensures r.1 ==> exists k :: 0 <= k < |line| && line[k] == ':' && ':' !in line[k + 1..] && r.0 == TrimSpace(line[k + 1..])
  {
    var lastColon := LastIndexOf(line, ':');
    if lastColon == -1 || lastColon + 1 > |line| then ("", false)
    else
      var value := TrimSpace(line[lastColon + 1..]);
      ColonWitness(line, lastColon, value);
      (value, true)
  }

  /** A colon with none after it, and the trimmed text that follows it. */
  lemma ColonWitness(line: string, k: int, value: string)
    requires 0 <= k < |line| && line[k] == ':' && ':' !in line[k + 1..]
    requires value == TrimSpace(line[k + 1..])
    ensures exists j :: 0 <= j < |line| && line[j] == ':' && ':' !in line[j + 1..] && value == TrimSpace(line[j + 1..])
  {
  }

  predicate ColonAfter(line: string, j: int)
    requires -1 <= j < |line|
  {
    ':' in line[j + 1..]
  }

  /** Whatever precedes the last colon, the value is the trimmed text after it. */
  lemma ExtractAfterSplit(before: string, after: string)
    requires ':' !in after
    ensures ExtractValueAfterLastColon(before + ":" + after) == (TrimSpace(after), true)
  {
    var line := before + ":" + after;
    assert line[|before|] == ':';
    assert line[|before| + 1..] == after;
    assert forall j :: |before| < j < |line| ==> line[j] == after[j - |before| - 1];
    forall j | 0 <= j < |before|
      ensures ColonAfter(line, j)
    {
      assert line[j + 1..][|before| - j - 1] == ':';
    }
    assert !ColonAfter(line, LastIndexOf(line, ':'));
  }

  /** A rocm-smi GPU use line yields its number. */
  lemma ExtractRocmLine()
    ensures ExtractValueAfterLastColon("GPU[0]\t\t: GPU use (%): 25") == ("25", true)
  {
    var before, after := "GPU[0]\t\t: GPU use (%)", " 25";
    assert before + ":" + after == "GPU[0]\t\t: GPU use (%): 25";
    assert ':' !in after;
    ExtractAfterSplit(before, after);
    TrimSpaceNumber();
  }

  lemma TrimSpaceNumber()
    ensures TrimSpace(" 25") == "25"
  {
    var v := " 25";
    assert LeadingSpace(v[1..]) == 0;
    assert LeadingSpace(v) == 1;
    assert v[1..] == "25";
    assert TrailingSpace("25") == 0;
  }

  /** A colon at the very end gives an empty value, still reported as found. */
  lemma ExtractEmptyValue(before: string)
    ensures ExtractValueAfterLastColon(before + ":") == ("", true)
  {
    var line := before + ":";
    assert line == before + ":" + "";
    ExtractAfterSplit(before, "");
    TrimSpaceFixes("");
  }
}
