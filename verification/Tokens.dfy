/**
 The token estimator, the compaction budget, and the head-and-tail cap that a
 reduced element's text is projected through. The estimate counts ASCII bytes
 and other characters separately, so the lemmas about fixed texts first show
 that they are ASCII and then count them, in pieces.
 */
module Tokens {
  import opened Text
  import opened Wrappers

  const TRUNCATED_HEAD_CHARS: nat := 400
  const TRUNCATED_TAIL_CHARS: nat := 200
  const TRUNCATED_BYTES: nat := TRUNCATED_HEAD_CHARS + TRUNCATED_TAIL_CHARS + 96
  const MAX_NODE_TEXT_BYTES: nat := 8000
  /** One past the largest `usize`. */
  const USIZE_LIMIT: nat := 0x1_0000_0000_0000_0000

  predicate IsAscii(c: char) {
    c < 128 as char
  }

  function AsciiCount(s: string): nat {
    if s == [] then 0 else (if IsAscii(s[0]) then 1 else 0) + AsciiCount(s[1..])
  }

  function WideCount(s: string): nat {
    if s == [] then 0 else (if IsAscii(s[0]) then 0 else 1) + WideCount(s[1..])
  }

  function CeilDiv4(n: nat): nat {
    (n + 3) / 4
  }

  /** What the estimator charges for a text. */
  function Estimate(s: string): nat {
    CeilDiv4(AsciiCount(s)) + WideCount(s) * 2
  }

  lemma {:induction false} CountsConcat(a: string, b: string)
    ensures AsciiCount(a + b) == AsciiCount(a) + AsciiCount(b)
    ensures WideCount(a + b) == WideCount(a) + WideCount(b)
  {
    if a == [] {
      assert a + b == b;
    } else {
      assert (a + b)[1..] == a[1..] + b;
      CountsConcat(a[1..], b);
    }
  }

  method EstimateTokens(text: string) returns (tokens: nat)
    ensures tokens == Estimate(text)
  {
    var asciiBytes, wideChars := 0, 0;
    for i := 0 to |text|
      invariant asciiBytes == AsciiCount(text[..i]) && wideChars == WideCount(text[..i])
    {
      assert text[..i + 1] == text[..i] + [text[i]];
      CountsConcat(text[..i], [text[i]]);
      if IsAscii(text[i]) {
        asciiBytes := asciiBytes + 1;
      } else {
        wideChars := wideChars + 1;
      }
    }
    assert text[..|text|] == text;
    tokens := CeilDiv4(asciiBytes) + wideChars * 2;
  }

  /** A wide character costs two tokens and at least two bytes. */
  lemma {:induction false} CountsWithinBytes(s: string)
    ensures AsciiCount(s) + 2 * WideCount(s) <= ByteLen(s) <= AsciiCount(s) + 4 * WideCount(s)
  {
    if s != [] {
      CountsWithinBytes(s[1..]);
    }
  }

  lemma {:induction false} AllAscii(s: string)
    requires forall i :: 0 <= i < |s| ==> IsAscii(s[i])
    ensures AsciiCount(s) == |s| && WideCount(s) == 0 && ByteLen(s) == |s|
  {
    if s != [] {
      AllAscii(s[1..]);
    }
  }

  /** The estimate never exceeds one token a byte, nor undercuts a quarter token a byte. */
  lemma EstimateWithinBytes(s: string)
    ensures ByteLen(s) <= 4 * Estimate(s)
    ensures Estimate(s) <= ByteLen(s)
  {
    CountsWithinBytes(s);
  }

  const CUT_OPEN := "\n[\U{2026}"
  const CUT_CLOSE := CUT_CLOSE_1 + CUT_CLOSE_2
  const CUT_CLOSE_1 := " chars truncated to fit the context window"
  const CUT_CLOSE_2 := "; the journal keeps the full text]\n"

  /** `truncate_for_projection` as a function of the text. */
  function Truncated(text: string): string {
    if ByteLen(text) <= TRUNCATED_HEAD_CHARS + TRUNCATED_TAIL_CHARS then
      text
    else
      var head := PrefixWithin(text, TRUNCATED_HEAD_CHARS);
      var tail := SuffixWithin(text, TRUNCATED_TAIL_CHARS);
      var dropped := SaturatingSub(ByteLen(text), ByteLen(head) + ByteLen(tail));
      head + CUT_OPEN + Decimal(dropped) + CUT_CLOSE + tail
  }

  function SaturatingSub(a: nat, b: nat): nat {
    if a <= b then 0 else a - b
  }

  /**
   A truncated text starts with as many whole characters as fit 400 bytes and ends
   with as many as fit 200, and the note between them counts the bytes left out.
   */
  lemma TruncatedKeeps(text: string) returns (head: string, middle: string, tail: string)
    requires ByteLen(text) > 600
    ensures text == head + middle + tail
    ensures Truncated(text) == head + CUT_OPEN + Decimal(ByteLen(middle)) + CUT_CLOSE + tail
    ensures ByteLen(head) <= 400 && ByteLen(tail) <= 200 && middle != []
    ensures ByteLen(head) + CharLen(middle[0]) > 400 && ByteLen(tail) + CharLen(middle[|middle| - 1]) > 200
  {
    hide ByteLen, PrefixWithin, SuffixWithin, Decimal, CharLen, CUT_OPEN, CUT_CLOSE;
    head, tail := PrefixWithin(text, TRUNCATED_HEAD_CHARS), SuffixWithin(text, TRUNCATED_TAIL_CHARS);
    EndsApart(text, head, tail);
    middle := text[|head|..|text| - |tail|];
    Cut(text, |head|, |text| - |tail|);
    assert head == text[..|head|];
    assert middle[0] == text[|head|] && middle[|middle| - 1] == text[|text| - |tail| - 1];
  }

  lemma Cut(text: string, i: nat, j: nat)
    requires i <= j <= |text|
    ensures text == text[..i] + text[i..j] + text[j..]
    ensures ByteLen(text) == ByteLen(text[..i]) + ByteLen(text[i..j]) + ByteLen(text[j..])
  {
    hide ByteLen;
    assert text == text[..j] + text[j..];
    assert text[..j] == text[..i] + text[i..j];
    ByteLenConcat(text[..j], text[j..]);
    ByteLenConcat(text[..i], text[i..j]);
  }

  lemma EndsApart(text: string, head: string, tail: string)
    requires head <= text && |tail| <= |text| && tail == text[|text| - |tail|..]
    requires ByteLen(head) + ByteLen(tail) < ByteLen(text)
    ensures |head| + |tail| < |text|
  {
    hide ByteLen;
    var front := text[..|text| - |tail|];
    assert text == front + tail;
    ByteLenConcat(front, tail);
    if |head| >= |front| {
      PrefixIsShorter(front, head);
    }
  }

  lemma PrefixIsShorter(a: string, b: string)
    requires a <= b
    ensures ByteLen(a) <= ByteLen(b)
  {
    hide ByteLen;
    assert b == a + b[|a|..];
    ByteLenConcat(a, b[|a|..]);
  }

  method TruncateForProjection(text: string) returns (projected: string)
    ensures projected == Truncated(text)
  {
    if ByteLen(text) <= TRUNCATED_HEAD_CHARS + TRUNCATED_TAIL_CHARS {
      return text;
    }
    var head := TextPrefix(text, TRUNCATED_HEAD_CHARS);
    var tail := TextSuffix(text, TRUNCATED_TAIL_CHARS);
    var dropped := SaturatingSub(ByteLen(text), ByteLen(head) + ByteLen(tail));
    projected := head + CUT_OPEN + Decimal(dropped) + CUT_CLOSE + tail;
  }

  lemma CutOpenCounts()
    ensures |CUT_OPEN| == 3 && AsciiCount(CUT_OPEN) == 2 && WideCount(CUT_OPEN) == 1
  {
    assert CUT_OPEN[0] == '\n' && CUT_OPEN[1] == '[' && CUT_OPEN[2] == '\U{2026}';
  }

  lemma CutClose1Chars()
    ensures |CUT_CLOSE_1| == 42 && forall i :: 0 <= i < |CUT_CLOSE_1| ==> IsAscii(CUT_CLOSE_1[i])
  {
  }

  lemma CutClose1Counts()
    ensures AsciiCount(CUT_CLOSE_1) == 42 && WideCount(CUT_CLOSE_1) == 0
  {
    CutClose1Chars();
    AllAscii(CUT_CLOSE_1);
  }

  lemma CutClose2Chars()
    ensures |CUT_CLOSE_2| == 35 && forall i :: 0 <= i < |CUT_CLOSE_2| ==> IsAscii(CUT_CLOSE_2[i])
  {
  }

  lemma CutClose2Counts()
    ensures AsciiCount(CUT_CLOSE_2) == 35 && WideCount(CUT_CLOSE_2) == 0
  {
    CutClose2Chars();
    AllAscii(CUT_CLOSE_2);
  }

  lemma CutCloseCounts()
    ensures AsciiCount(CUT_CLOSE) == 77 && WideCount(CUT_CLOSE) == 0
  {
    hide AsciiCount, WideCount;
    CutClose1Counts();
    CutClose2Counts();
    CountsConcat(CUT_CLOSE_1, CUT_CLOSE_2);
  }

  lemma PiecesFit(head: string, open: string, digits: string, close: string, tail: string)
    requires ByteLen(head) <= TRUNCATED_HEAD_CHARS && ByteLen(tail) <= TRUNCATED_TAIL_CHARS
    requires AsciiCount(open) == 2 && WideCount(open) == 1
    requires AsciiCount(digits) == |digits| <= 20 && WideCount(digits) == 0
    requires AsciiCount(close) == 77 && WideCount(close) == 0
    ensures Estimate(head + open + digits + close + tail) <= TRUNCATED_MOST
  {
    CountsWithinBytes(head);
    CountsWithinBytes(tail);
    CountsConcat(head, open);
    CountsConcat(head + open, digits);
    CountsConcat(head + open + digits, close);
    CountsConcat(head + open + digits + close, tail);
  }

  /** What a truncated text really costs at most: both ends at a token a byte, and the note between them. */
  const TRUNCATED_MOST: nat := 627

  /** A capped text stays well within the cap the planner charges for it. */
  lemma TruncatedFits(text: string)
    requires ByteLen(text) < USIZE_LIMIT
    ensures Estimate(Truncated(text)) <= TRUNCATED_MOST < TRUNCATED_BYTES
  {
    hide PrefixWithin, SuffixWithin, ByteLen, AsciiCount, WideCount, Decimal, CUT_OPEN, CUT_CLOSE;
    if ByteLen(text) <= TRUNCATED_HEAD_CHARS + TRUNCATED_TAIL_CHARS {
      EstimateWithinBytes(text);
    } else {
      var head := PrefixWithin(text, TRUNCATED_HEAD_CHARS);
      var tail := SuffixWithin(text, TRUNCATED_TAIL_CHARS);
      var dropped := SaturatingSub(ByteLen(text), ByteLen(head) + ByteLen(tail));
      UsizeDigits(dropped);
      AllAscii(Decimal(dropped));
      CutOpenCounts();
      CutCloseCounts();
      PiecesFit(head, CUT_OPEN, Decimal(dropped), CUT_CLOSE, tail);
    }
  }

  lemma UsizeDigits(n: nat)
    requires n < USIZE_LIMIT
    ensures |Decimal(n)| <= 20
  {
    assert Pow10(20) == 10000000000 * Pow10(10) by {
      assert Pow10(15) == 100000 * Pow10(10);
      assert Pow10(20) == 100000 * Pow10(15);
    }
    assert Pow10(10) == 10000000000 by {
      assert Pow10(5) == 100000;
      assert Pow10(10) == 100000 * Pow10(5);
    }
    DecimalLen(n, 20);
  }

  const CAP_NOTE := CUT_OPEN + CAP_NOTE_1 + CAP_NOTE_2
  const CAP_NOTE_1 := "] inventory capped; expand "
  const CAP_NOTE_2 := "individual nodes with Read summary://<id>"

  /** `cap_node_text` as a function of the text. */
  function CappedNodeText(text: string): string {
    PrefixWithin(text, MAX_NODE_TEXT_BYTES / 2) + CAP_NOTE
  }

  method CapNodeText(text: string) returns (capped: string)
    ensures capped == CappedNodeText(text)
  {
    var head := TextPrefix(text, MAX_NODE_TEXT_BYTES / 2);
    capped := head + CAP_NOTE;
  }

  lemma CapNote1Chars()
    ensures |CAP_NOTE_1| == 27 && forall i :: 0 <= i < |CAP_NOTE_1| ==> IsAscii(CAP_NOTE_1[i])
  {
  }

  lemma CapNote1Counts()
    ensures AsciiCount(CAP_NOTE_1) == 27 && WideCount(CAP_NOTE_1) == 0
  {
    CapNote1Chars();
    AllAscii(CAP_NOTE_1);
  }

  lemma CapNote2Chars()
    ensures |CAP_NOTE_2| == 41 && forall i :: 0 <= i < |CAP_NOTE_2| ==> IsAscii(CAP_NOTE_2[i])
  {
  }

  lemma CapNote2Counts()
    ensures AsciiCount(CAP_NOTE_2) == 41 && WideCount(CAP_NOTE_2) == 0
  {
    CapNote2Chars();
    AllAscii(CAP_NOTE_2);
  }

  lemma CapNoteCounts()
    ensures AsciiCount(CAP_NOTE) == 70 && WideCount(CAP_NOTE) == 1
  {
    hide AsciiCount, WideCount;
    CutOpenCounts();
    CapNote1Counts();
    CapNote2Counts();
    CountsConcat(CUT_OPEN, CAP_NOTE_1);
    CountsConcat(CUT_OPEN + CAP_NOTE_1, CAP_NOTE_2);
  }

  lemma PrefixPlusNoteShrinks(text: string, head: string, note: string)
    requires ByteLen(text) > MAX_NODE_TEXT_BYTES
    requires head <= text && ByteLen(head) <= MAX_NODE_TEXT_BYTES / 2
    requires AsciiCount(note) == 70 && WideCount(note) == 1
    ensures ByteLen(head + note) <= MAX_NODE_TEXT_BYTES
    ensures Estimate(head + note) < Estimate(text)
  {
    var rest := text[|head|..];
    assert text == head + rest;
    CountsConcat(head, rest);
    ByteLenConcat(head, rest);
    CountsConcat(head, note);
    ByteLenConcat(head, note);
    CountsWithinBytes(note);
    CountsWithinBytes(rest);
  }

  /** Capping an oversized node text brings it under the limit and strictly lowers its cost. */
  lemma CapShrinks(text: string)
    requires ByteLen(text) > MAX_NODE_TEXT_BYTES
    ensures ByteLen(CappedNodeText(text)) <= MAX_NODE_TEXT_BYTES
    ensures Estimate(CappedNodeText(text)) < Estimate(text)
  {
    CapNoteCounts();
    PrefixPlusNoteShrinks(text, PrefixWithin(text, MAX_NODE_TEXT_BYTES / 2), CAP_NOTE);
  }

  /** Soft and hard limits for one session's projection. */
  datatype CompactionBudget = CompactionBudget(softTokens: nat, hardTokens: nat) {
    function TargetTokens(): nat {
      if softTokens / 2 >= 1 then softTokens / 2 else 1
    }
    predicate ShouldTrigger(projected: nat) {
      projected >= softTokens
    }
    predicate ExceedsHardBound(projected: nat) {
      projected > hardTokens
    }
  }

  function Clamp(x: real, lo: real, hi: real): real {
    if x < lo then lo else if x > hi then hi else x
  }

  function Min(a: nat, b: nat): nat {
    if a <= b then a else b
  }

  function Max(a: nat, b: nat): nat {
    if a >= b then a else b
  }

  /** The share of the window that triggers compaction; `None` stands for a value that is not finite. */
  function Share(thresholdRatio: Option<real>): real {
    match thresholdRatio case Some(r) => Clamp(r, 0.1, 1.0) case None => 0.8
  }

  /** The share is the ratio where that lies between a tenth and the whole, and 0.8 where there is none. */
  lemma ShareIsClamped(thresholdRatio: Option<real>)
    ensures 0.1 <= Share(thresholdRatio) <= 1.0
    ensures thresholdRatio.Some? && 0.1 <= thresholdRatio.value <= 1.0 ==> Share(thresholdRatio) == thresholdRatio.value
    ensures thresholdRatio.None? ==> Share(thresholdRatio) == 0.8
  {
  }

  /**
   The soft bound is the largest number that neither exceeds the share of the
   window nor the hard bound, or one.
   */
  function DeriveBudget(windowTokens: nat, thresholdRatio: Option<real>, reserveTokens: nat): (b: Option<CompactionBudget>)
    ensures b.Some? <==> windowTokens > reserveTokens && windowTokens - reserveTokens >= windowTokens / 4
    ensures b.Some? ==> b.value.hardTokens == windowTokens - reserveTokens
    ensures b.Some? ==> 1 <= b.value.TargetTokens() <= b.value.softTokens <= b.value.hardTokens
    ensures b.Some? && b.value.softTokens > 1 ==> b.value.softTokens as real <= windowTokens as real * Share(thresholdRatio)
    ensures b.Some? && b.value.softTokens < b.value.hardTokens ==>
      windowTokens as real * Share(thresholdRatio) < b.value.softTokens as real + 1.0
  {
    if windowTokens == 0 || windowTokens <= reserveTokens then
      None
    else if SaturatingSub(windowTokens, reserveTokens) < windowTokens / 4 then
      None
    else
      var hard := windowTokens - reserveTokens;
      var product := (windowTokens as real) * Share(thresholdRatio);
      var soft := (if product.Floor as real < 1.0 then 1.0 else product.Floor as real).Floor;
      Some(CompactionBudget(Max(Min(soft, hard), 1), hard))
  }
}
