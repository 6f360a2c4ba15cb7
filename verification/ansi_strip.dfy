/** stripAnsiCodes of main_test.go: a byte scanner that drops every escape sequence
    ESC '[' ... 'm' from rendered text, used to measure the visible width of a line. */
module AnsiStrip {

  newtype byte = x: int | 0 <= x < 256

  const Esc: byte := 0x1b
  const LeftBracket: byte := 0x5b   // '['
  const LetterM: byte := 0x6d       // 'm'

  /** `a` can be obtained from `b` by deleting bytes. */
  predicate IsSubsequence(a: seq<byte>, b: seq<byte>)
    decreases |b|
  {
    |a| == 0 || (|b| > 0 && ((a[0] == b[0] && IsSubsequence(a[1..], b[1..])) || IsSubsequence(a, b[1..])))
  }

  lemma {:induction false} SubsequenceOfLonger(a: seq<byte>, b: seq<byte>, prefix: seq<byte>)
    requires IsSubsequence(a, b)
    ensures IsSubsequence(a, prefix + b)
    decreases |prefix|
  {
    if prefix != [] {
      SubsequenceOfLonger(a, b, prefix[1..]);
      var longer := prefix + b;
      assert longer[1..] == prefix[1..] + b;
      assert IsSubsequence(a, longer[1..]);
      if |a| > 0 {
        assert |longer| > 0;
        assert IsSubsequence(a, longer);
      }
    } else {
      assert prefix + b == b;
    }
  }

  /** What is left of `t` after the first 'm' (the scan of an escape body); nothing
      when `t` has no 'm'. */
  function AfterM(t: seq<byte>): (rest: seq<byte>)
    ensures |rest| < |t| || rest == []
    ensures rest == t[|t| - |rest|..]
    ensures LetterM !in t ==> rest == []
  {
    if |t| == 0 then []
    else if t[0] == LetterM then t[1..]
    else
      var rest := AfterM(t[1..]);
      assert t[1..][|t| - 1 - |rest|..] == t[|t| - |rest|..];
      rest
  }

  /** stripAnsiCodes as a recursive definition over the remaining input: an ESC followed
      by '[' starts a sequence that is dropped up to and including the next 'm' (or to
      the end of the input); every other byte is copied. The result is never longer
      than the input, and when nothing was dropped it is the input itself. */
  function Strip(s: seq<byte>): (r: seq<byte>)
    ensures |r| <= |s|
    ensures |r| == |s| ==> r == s
    decreases |s|
  {
    if |s| == 0 then []
    else if s[0] == Esc && |s| > 1 && s[1] == LeftBracket then Strip(AfterM(s[2..]))
    else [s[0]] + Strip(s[1..])
  }

  /** Input without ESC comes back unchanged. */
  lemma {:induction false} StripWithoutEscape(s: seq<byte>)
    requires Esc !in s
    ensures Strip(s) == s
    decreases |s|
  {
    if |s| > 0 {
      assert s[0] != Esc;
      StripWithoutEscape(s[1..]);
    }
  }

  /** The stripped text is obtained from the input by deleting bytes only. */
  lemma {:induction false} StripIsSubsequence(s: seq<byte>)
    ensures IsSubsequence(Strip(s), s)
    decreases |s|
  {
    if |s| == 0 {
    } else if s[0] == Esc && |s| > 1 && s[1] == LeftBracket {
      var rest := AfterM(s[2..]);
      StripIsSubsequence(rest);
      assert s == s[..|s| - |rest|] + rest;
      SubsequenceOfLonger(Strip(rest), rest, s[..|s| - |rest|]);
    } else {
      StripIsSubsequence(s[1..]);
      var r := Strip(s);
      assert r[0] == s[0] && r[1..] == Strip(s[1..]);
    }
  }

  /** The part of `s` from index `i` on; the scanner may step one past the end. */
  function Rest(s: seq<byte>, i: nat): seq<byte>
  {
    if i <= |s| then s[i..] else []
  }

  /** One step of Strip at index `i`. */
  lemma StripStep(s: seq<byte>, i: nat)
    requires i < |s|
    ensures s[i] == Esc && i + 1 < |s| && s[i + 1] == LeftBracket ==> Strip(s[i..]) == Strip(AfterM(s[i + 2..]))
    ensures !(s[i] == Esc && i + 1 < |s| && s[i + 1] == LeftBracket) ==> Strip(s[i..]) == [s[i]] + Strip(s[i + 1..])
  {
    var t := s[i..];
    assert t[0] == s[i];
    assert t[1..] == s[i + 1..];
    assert |t| > 1 ==> t[1] == s[i + 1] && t[2..] == s[i + 2..];
  }

  /** One step of the escape-body scan at index `i`. */
  lemma AfterMStep(s: seq<byte>, i: nat)
    requires i <= |s|
    ensures i < |s| && s[i] != LetterM ==> AfterM(s[i..]) == AfterM(s[i + 1..])
    ensures !(i < |s| && s[i] != LetterM) ==> AfterM(s[i..]) == Rest(s, i + 1)
  {
    if i < |s| {
      var t := s[i..];
      assert t[0] == s[i];
      assert t[1..] == s[i + 1..];
    }
  }

  /** The inner loop of the scanner: from `start`, walk to the next 'm' (or the end)
      and step over it; what remains of the input is what AfterM leaves. */
  method SkipEscapeBody(s: seq<byte>, start: nat) returns (next: nat)
    requires start <= |s|
    ensures start < next <= |s| + 1
    ensures Rest(s, next) == AfterM(s[start..])
  {
    var i := start;
    while i < |s| && s[i] != LetterM
      invariant start <= i <= |s|
      invariant AfterM(s[i..]) == AfterM(s[start..])
      decreases |s| - i
    {
      AfterMStep(s, i);
      i := i + 1;
    }
    AfterMStep(s, i);
    next := i + 1;
  }

  predicate StartsSequence(s: seq<byte>, i: nat)
  {
    i + 1 < |s| && s[i] == Esc && s[i + 1] == LeftBracket
  }

  /** Copying the byte at `i` moves it from the unread input's strip to the output. */
  lemma StripCopyStep(result: seq<byte>, s: seq<byte>, i: nat)
    requires i < |s| && !StartsSequence(s, i)
    ensures (result + [s[i]]) + Strip(Rest(s, i + 1)) == result + Strip(Rest(s, i))
  {
    StripStep(s, i);
    assert Strip(Rest(s, i)) == [s[i]] + Strip(Rest(s, i + 1));
  }

  /** Skipping an escape sequence from `i` to `next` leaves the unread input's strip as it was. */
  lemma StripSkipStep(s: seq<byte>, i: nat, next: nat)
    requires StartsSequence(s, i)
    requires Rest(s, next) == AfterM(s[i + 2..])
    ensures Strip(Rest(s, next)) == Strip(Rest(s, i))
  {
    StripStep(s, i);
  }

  /** The scanner as written: an index walking over the bytes, skipping each escape
      sequence and copying every other byte. */
  method StripAnsiCodes(s: seq<byte>) returns (result: seq<byte>)
    ensures result == Strip(s)
    ensures IsSubsequence(result, s)
    ensures Esc !in s ==> result == s
  {
    result := ScanBytes(s);
    StripIsSubsequence(s);
    if Esc !in s {
      StripWithoutEscape(s);
    }
  }

  /** The loop of stripAnsiCodes: what has been copied so far followed by the strip of
      the unread input is always the strip of the whole input. */
  method ScanBytes(s: seq<byte>) returns (result: seq<byte>)
    ensures result == Strip(s)
  {
    result := [];
    var i: nat := 0;
    ScanStarts(s);
    while i < |s|
      invariant i <= |s| + 1
      invariant result + Strip(Rest(s, i)) == Strip(s)
      decreases |s| + 1 - i
    {
      result, i := ScanStep(s, result, i);
    }
    ScanEnds(s, result, i);
  }

  /** Before the first byte nothing is copied and all of the input is unread. */
  lemma ScanStarts(s: seq<byte>)
    ensures [] + Strip(Rest(s, 0)) == Strip(s)
  {
    assert Rest(s, 0) == s;
  }

  /** Past the last byte nothing is unread, so the copied bytes are the whole strip. */
  lemma ScanEnds(s: seq<byte>, result: seq<byte>, i: nat)
    requires |s| <= i <= |s| + 1
    requires result + Strip(Rest(s, i)) == Strip(s)
    ensures result == Strip(s)
  {
    assert Rest(s, i) == [];
    assert result + [] == result;
  }

  /** One pass of the outer loop at index `i`: an escape sequence is skipped, any other
      byte is copied, and the output so far followed by the strip of the unread input
      stays the same. */
  method ScanStep(s: seq<byte>, copied: seq<byte>, i: nat) returns (result: seq<byte>, next: nat)
    requires i < |s|
    ensures i < next <= |s| + 1
    ensures result + Strip(Rest(s, next)) == copied + Strip(Rest(s, i))
  {
    if s[i] == Esc && i + 1 < |s| && s[i + 1] == LeftBracket {
      next := SkipEscapeBody(s, i + 2);
      StripSkipStep(s, i, next);
      result := copied;
    } else {
      StripCopyStep(copied, s, i);
      result := copied + [s[i]];
      next := i + 1;
    }
  }

  /** An escape sequence with its closing 'm' disappears and scanning resumes after it. */
  lemma StripDropsSequence(body: seq<byte>, tail: seq<byte>)
    requires LetterM !in body
    ensures Strip([Esc, LeftBracket] + body + [LetterM] + tail) == Strip(tail)
  {
    var t := body + [LetterM] + tail;
    calc {
      Strip([Esc, LeftBracket] + body + [LetterM] + tail);
      { assert [Esc, LeftBracket] + body + [LetterM] + tail == [Esc, LeftBracket] + t; }
      Strip([Esc, LeftBracket] + t);
      { StripEntersSequence(t); }
      Strip(AfterM(t));
      { AfterMSkipsBody(body, tail); }
      Strip(tail);
    }
  }

  /** ESC '[' hands the rest of the input to the escape-body scan. */
  lemma StripEntersSequence(t: seq<byte>)
    ensures Strip([Esc, LeftBracket] + t) == Strip(AfterM(t))
  {
    var s := [Esc, LeftBracket] + t;
    assert s[0] == Esc && s[1] == LeftBracket && s[2..] == t;
  }

  lemma {:induction false} AfterMSkipsBody(body: seq<byte>, tail: seq<byte>)
    requires LetterM !in body
    ensures AfterM(body + [LetterM] + tail) == tail
    decreases |body|
  {
    if body == [] {
      assert body + [LetterM] + tail == [LetterM] + tail;
    } else {
      assert (body + [LetterM] + tail)[1..] == body[1..] + [LetterM] + tail;
      AfterMSkipsBody(body[1..], tail);
    }
  }

  /** An escape sequence that never closes swallows the rest of the input. */
  lemma StripUnterminated(body: seq<byte>)
    requires LetterM !in body
    ensures Strip([Esc, LeftBracket] + body) == []
  {
    assert ([Esc, LeftBracket] + body)[2..] == body;
  }

  /** An ESC not followed by '[' is an ordinary byte and is kept. */
  lemma StripKeepsLoneEscape(tail: seq<byte>)
    requires tail == [] || tail[0] != LeftBracket
    ensures Strip([Esc] + tail) == [Esc] + Strip(tail)
  {
    assert ([Esc] + tail)[1..] == tail;
  }

  /** Text before the first ESC passes through untouched. */
  lemma {:induction false} StripPlainPrefix(plain: seq<byte>, tail: seq<byte>)
    requires Esc !in plain
    ensures Strip(plain + tail) == plain + Strip(tail)
    decreases |plain|
  {
    if plain != [] {
      var rest := plain[1..];
      assert plain == [plain[0]] + rest;
      assert plain + tail == [plain[0]] + (rest + tail);
      StripPlainPrefix(rest, tail);
      StripCopiesHead(plain[0], rest + tail);
    } else {
      assert plain + tail == tail;
    }
  }

  /** A byte other than ESC is copied and Strip goes on after it. */
  lemma StripCopiesHead(b: byte, t: seq<byte>)
    requires b != Esc
    ensures Strip([b] + t) == [b] + Strip(t)
  {
    assert ([b] + t)[1..] == t;
  }

  /** "\x1b[31m" (red foreground), "hi" and "\x1b[0m" (reset). */
  const RedCode: seq<byte> := [Esc, LeftBracket, 0x33, 0x31, LetterM]
  const Hi: seq<byte> := [0x68, 0x69]
  const ResetCode: seq<byte> := [Esc, LeftBracket, 0x30, LetterM]

  /** A complete code ESC '[' ... 'm' at the front of the input disappears. */
  lemma StripSkipsCode(code: seq<byte>, tail: seq<byte>)
    requires |code| >= 3 && code[0] == Esc && code[1] == LeftBracket && code[|code| - 1] == LetterM
    requires LetterM !in code[2..|code| - 1]
    ensures Strip(code + tail) == Strip(tail)
  {
    var body := code[2..|code| - 1];
    assert code == [Esc, LeftBracket] + body + [LetterM];
    StripDropsSequence(body, tail);
  }

  /** "\x1b[0m" (reset) strips to nothing. */
  lemma StripReset()
    ensures Strip(ResetCode) == []
  {
    assert ResetCode[2..3] == [0x30];
    StripSkipsCode(ResetCode, []);
    assert ResetCode + [] == ResetCode;
  }

  /** Text without ESC between a colour code and a reset is all that remains:
      "\x1b[31m" + word + "\x1b[0m" strips to word. */
  lemma StripColouredWord(word: seq<byte>)
    requires Esc !in word
    ensures Strip(RedCode + word + ResetCode) == word
  {
    var tail := word + ResetCode;
    assert RedCode + word + ResetCode == RedCode + tail;
    assert word + [] == word;
    assert RedCode[2..4] == [0x33, 0x31];
    StripReset();
    StripPlainPrefix(word, ResetCode);
    StripSkipsCode(RedCode, tail);
  }

  /** "\x1b[31mhi\x1b[0m" strips to "hi". */
  lemma StripColouredHi()
    ensures Strip(RedCode + Hi + ResetCode) == Hi
  {
    StripColouredWord(Hi);
  }
}
