/**
 Checks on model output: the bounded search for a repeated phrase, and closing
 the brackets of cut-off JSON.
 */
module Repetition {
  import opened Wrappers
  import opened Text

  const USIZE_LIMIT: nat := 0x1_0000_0000_0000_0000
  const MAX_SCAN_BYTES: nat := 65_536
  const MAX_ITERATIONS: nat := 2_000_000
  const MAX_PHRASE: nat := 100

  /** `str::is_char_boundary`, on the text's bytes (RFC 3629, section 3). */
  predicate IsBoundary(text: seq<byte>, i: nat)
    requires i <= |text|
  {
    i == 0 || i == |text| || !(0x80 <= text[i] <= 0xBF)
  }

  // ----- Runs of one phrase --------------------------------------------------

  /** How many copies of the phrase follow one another from `pos` on. */
  function Copies(text: seq<byte>, pos: nat, phrase: seq<byte>): nat
    requires phrase != [] && pos <= |text|
    decreases |text| - pos
  {
    if pos + |phrase| <= |text| && text[pos..pos + |phrase|] == phrase
    then 1 + Copies(text, pos + |phrase|, phrase)
    else 0
  }

  /** The text has the phrase at `pos`. */
  predicate HasAt(text: seq<byte>, pos: nat, phrase: seq<byte>) {
    pos + |phrase| <= |text| && text[pos..pos + |phrase|] == phrase
  }

  function Offset(pos: nat, k: nat, len: nat): nat {
    pos + k * len
  }

  /** The counted copies are there, one after the other, and no further one follows. */
  lemma {:induction false} CopiesAreThere(text: seq<byte>, pos: nat, phrase: seq<byte>)
    requires phrase != [] && pos <= |text|
    ensures forall k :: 0 <= k < Copies(text, pos, phrase) ==> HasAt(text, Offset(pos, k, |phrase|), phrase)
    ensures !HasAt(text, Offset(pos, Copies(text, pos, phrase), |phrase|), phrase)
    decreases |text| - pos
  {
    var n := Copies(text, pos, phrase);
    if HasAt(text, pos, phrase) {
      CopiesAreThere(text, pos + |phrase|, phrase);
      forall k | 0 <= k < n
        ensures HasAt(text, Offset(pos, k, |phrase|), phrase)
      {
        if k > 0 {
          OneCopyOn(pos, k - 1, |phrase|);
        }
      }
      OneCopyOn(pos, n - 1, |phrase|);
    }
  }

  lemma OneCopyOn(pos: nat, k: nat, len: nat)
    ensures Offset(pos, k + 1, len) == Offset(pos + len, k, len)
  {
  }

  /** A phrase of this length starts at `i` between character boundaries and repeats enough. */
  predicate Repeats(text: seq<byte>, i: nat, len: nat, minRepeats: nat) {
    && 0 < len && i + len <= |text|
    && IsBoundary(text, i) && IsBoundary(text, i + len)
    && Copies(text, i, text[i..i + len]) >= minRepeats
  }

  lemma {:induction false} CopiesFit(text: seq<byte>, pos: nat, phrase: seq<byte>, n: nat)
    requires phrase != [] && pos <= |text| && Copies(text, pos, phrase) >= n
    ensures pos + n * |phrase| <= |text|
    decreases n
  {
    if n > 0 {
      CopiesFit(text, pos + |phrase|, phrase, n - 1);
      assert n * |phrase| == |phrase| + (n - 1) * |phrase|;
    }
  }

  // ----- The search ----------------------------------------------------------

  datatype Detection = Detection(phrase: seq<byte>, count: nat, offset: nat)

  function Min(a: nat, b: nat): nat {
    if a < b then a else b
  }

  /** The part of the text that is searched: at most 64 KiB, cut at a character boundary. */
  function Scanned(text: seq<byte>): seq<byte> {
    text[..ScanEnd(text, Min(|text|, MAX_SCAN_BYTES))]
  }

  function ScanEnd(text: seq<byte>, end: nat): (e: nat)
    requires end <= |text|
    ensures e <= end && IsBoundary(text, e)
    ensures forall i :: e < i <= end ==> !IsBoundary(text, i)
  {
    if IsBoundary(text, end) then end else ScanEnd(text, end - 1)
  }

  function LongestPhrase(text: seq<byte>, minRepeats: nat): nat
    requires minRepeats > 0
  {
    Min(|text| / minRepeats, MAX_PHRASE)
  }

  predicate NoneOfLength(text: seq<byte>, len: nat, minRepeats: nat) {
    forall i :: 0 <= i <= |text| ==> !Repeats(text, i, len, minRepeats)
  }

  predicate NoneBefore(text: seq<byte>, end: nat, len: nat, minRepeats: nat)
    requires end <= |text|
  {
    forall i :: 0 <= i < end ==> !Repeats(text, i, len, minRepeats)
  }

  /** The longest phrase length that repeats enough, its leftmost start, and the whole run there. */
  predicate IsBest(text: seq<byte>, d: Detection, minLen: nat, minRepeats: nat) {
    && minLen <= |d.phrase| <= MAX_PHRASE
    && Repeats(text, d.offset, |d.phrase|, minRepeats)
    && d.phrase == text[d.offset..d.offset + |d.phrase|]
    && d.count == Copies(text, d.offset, d.phrase)
    && (forall len :: |d.phrase| < len <= MAX_PHRASE ==> NoneOfLength(text, len, minRepeats))
    && NoneBefore(text, d.offset, |d.phrase|, minRepeats)
  }

  /** A phrase too long to fit often enough does not repeat. */
  lemma TooLong(text: seq<byte>, i: nat, len: nat, minRepeats: nat)
    requires minRepeats > 0 && (len > |text| / minRepeats || i + len * minRepeats > |text|)
    ensures !Repeats(text, i, len, minRepeats)
  {
    if Repeats(text, i, len, minRepeats) {
      CopiesFit(text, i, text[i..i + len], minRepeats);
      Product(len, minRepeats, |text|);
    }
  }

  lemma Product(len: nat, n: nat, size: nat)
    requires n > 0
    ensures n * len == len * n
    ensures len > size / n ==> len * n > size
  {
    if len > size / n {
      assert size == n * (size / n) + size % n;
      assert n * len >= n * (size / n + 1) by {
        MulMonotone(n, size / n + 1, len);
      }
    }
  }

  lemma MulMonotone(n: nat, a: nat, b: nat)
    requires a <= b
    ensures n * a <= n * b
  {
  }

  lemma FitsOften(text: seq<byte>, len: nat, minRepeats: nat)
    requires minRepeats > 0 && len <= |text| / minRepeats
    ensures len * minRepeats <= |text|
  {
    MulMonotone(minRepeats, len, |text| / minRepeats);
  }

  /** Searches one phrase length; `spent` counts against the budget. */
  method SearchLength(text: seq<byte>, len: nat, minRepeats: nat, spent: nat)
    returns (found: Option<Detection>, total: nat, exhausted: bool)
    requires minRepeats > 0 && 0 < len <= |text| / minRepeats && spent <= MAX_ITERATIONS
    ensures found.Some? ==>
      && |found.value.phrase| == len
      && Repeats(text, found.value.offset, len, minRepeats)
      && found.value.phrase == text[found.value.offset..found.value.offset + len]
      && found.value.count == Copies(text, found.value.offset, found.value.phrase)
      && NoneBefore(text, found.value.offset, len, minRepeats)
    ensures found.None? && !exhausted ==> NoneOfLength(text, len, minRepeats)
    ensures exhausted ==> found.None? && spent + |text| > MAX_ITERATIONS
    ensures !exhausted ==> spent <= total <= MAX_ITERATIONS && total <= spent + |text|
  {
    hide Repeats;
    total, exhausted, found := spent, false, None;
    FitsOften(text, len, minRepeats);
    for i := 0 to |text|
      invariant spent <= total <= MAX_ITERATIONS && total <= spent + i
      invariant NoneBefore(text, i, len, minRepeats)
    {
      if !IsBoundary(text, i) {
        NotAtBoundary(text, i, len, minRepeats);
        continue;
      }
      total := total + 1;
      if total > MAX_ITERATIONS {
        exhausted := true;
        return;
      }
      if i > |text| - len * minRepeats {
        NoneFurther(text, i, len, minRepeats);
        return;
      }
      LastFits(text, i, len, minRepeats);
      if !IsBoundary(text, i + len) {
        NotAtBoundary(text, i, len, minRepeats);
        continue;
      }
      var phrase := text[i..i + len];
      var repeats := CountCopies(text, i, phrase);
      RepeatsIf(text, i, len, minRepeats);
      if repeats >= minRepeats {
        return Some(Detection(phrase, repeats, i)), total, false;
      }
    }
    EndNeverRepeats(text, len, minRepeats);
  }

  lemma LastFits(text: seq<byte>, i: nat, len: nat, minRepeats: nat)
    requires minRepeats > 0 && i + len * minRepeats <= |text|
    ensures i + len <= |text|
  {
    MulMonotone(len, 1, minRepeats);
  }

  lemma NotAtBoundary(text: seq<byte>, i: nat, len: nat, minRepeats: nat)
    requires i <= |text| && (!IsBoundary(text, i) || (i + len <= |text| && !IsBoundary(text, i + len)))
    ensures !Repeats(text, i, len, minRepeats)
  {
  }

  lemma RepeatsIf(text: seq<byte>, i: nat, len: nat, minRepeats: nat)
    requires 0 < len && i + len <= |text| && IsBoundary(text, i) && IsBoundary(text, i + len)
    ensures Repeats(text, i, len, minRepeats) <==> Copies(text, i, text[i..i + len]) >= minRepeats
  {
  }

  lemma NoneFurther(text: seq<byte>, i: nat, len: nat, minRepeats: nat)
    requires minRepeats > 0 && i <= |text| && i + len * minRepeats > |text| && NoneBefore(text, i, len, minRepeats)
    ensures NoneOfLength(text, len, minRepeats)
  {
    hide Repeats;
    forall j | i <= j <= |text|
      ensures !Repeats(text, j, len, minRepeats)
    {
      TooLong(text, j, len, minRepeats);
    }
  }

  lemma EndNeverRepeats(text: seq<byte>, len: nat, minRepeats: nat)
    requires len > 0 && NoneBefore(text, |text|, len, minRepeats)
    ensures NoneOfLength(text, len, minRepeats)
  {
    assert !Repeats(text, |text|, len, minRepeats);
  }

  /** Counts the copies of a phrase that stands at `pos`. */
  method CountCopies(text: seq<byte>, pos: nat, phrase: seq<byte>) returns (repeats: nat)
    requires phrase != [] && HasAt(text, pos, phrase)
    ensures repeats == Copies(text, pos, phrase)
  {
    repeats := 1;
    var nextPos := pos + |phrase|;
    while nextPos + |phrase| <= |text| && text[nextPos..nextPos + |phrase|] == phrase
      invariant nextPos <= |text|
      invariant repeats + Copies(text, nextPos, phrase) == Copies(text, pos, phrase)
      decreases |text| - nextPos
    {
      repeats := repeats + 1;
      nextPos := nextPos + |phrase|;
    }
  }

  /**
   Looks for a repeated phrase. A hit is the best one in the scanned part; a
   miss that did not run out of budget means there is none of any admissible
   length; and the budget can only run out when the scanned bytes times the
   number of lengths to try exceed it.
   */
  method DetectRepetitionLoop(text: seq<byte>, minLen: nat, minRepeats: nat)
    returns (found: Option<Detection>, exhausted: bool)
    requires |text| < USIZE_LIMIT
    ensures found.Some? ==> IsBest(Scanned(text), found.value, minLen, minRepeats)
    ensures found.None? && !exhausted && 0 < minLen * minRepeats ==> NoneFrom(Scanned(text), minLen, minRepeats)
    ensures exhausted ==> found.None? && Work(MAX_PHRASE + 1, |Scanned(text)|) > MAX_ITERATIONS
  {
    hide NoneFrom, Scanned, Work, IsBest;
    var minBytes := minLen * minRepeats;
    if minBytes == 0 {
      return None, false;
    }
    if minBytes >= USIZE_LIMIT || |text| < minBytes {
      TooShort(text, minLen, minRepeats);
      return None, false;
    }
    var scanned := CutAtBoundary(text);
    Positive(minLen, minRepeats);
    found, exhausted := SearchLengths(scanned, minLen, minRepeats);
  }

  /** Tries the phrase lengths from the longest that fits down to the shortest. */
  method SearchLengths(scanned: seq<byte>, minLen: nat, minRepeats: nat)
    returns (found: Option<Detection>, exhausted: bool)
    requires minLen > 0 && minRepeats > 0
    ensures found.Some? ==> IsBest(scanned, found.value, minLen, minRepeats)
    ensures found.None? && !exhausted ==> NoneFrom(scanned, minLen, minRepeats)
    ensures exhausted ==> found.None? && Work(MAX_PHRASE + 1, |scanned|) > MAX_ITERATIONS
  {
    hide NoneFrom, NoneOfLength, NoneBefore, Repeats, Work;
    found, exhausted := None, false;
    var longest := LongestPhrase(scanned, minRepeats);
    LongerNever(scanned, minRepeats);
    var len: nat, iterations: nat := longest + 1, 0;
    while len > minLen
      invariant len <= longest + 1 <= MAX_PHRASE + 1 && iterations <= MAX_ITERATIONS
      invariant iterations <= Work(longest + 1 - len, |scanned|)
      invariant NoneFrom(scanned, len, minRepeats) && found.None? && !exhausted
      decreases len
    {
      ghost var tried := len;
      len := len - 1;
      OneMoreRound(longest + 1 - tried, |scanned|);
      found, iterations, exhausted := SearchLength(scanned, len, minRepeats, iterations);
      if found.Some? {
        NothingLonger(scanned, len, minRepeats);
        return;
      }
      if exhausted {
        return;
      }
      NoneFromOneLess(scanned, len, minRepeats);
    }
    NoneFromMore(scanned, len, minLen, minRepeats);
  }

  /** No phrase of at least this length, up to the longest admissible one, repeats. */
  predicate NoneFrom(text: seq<byte>, len: nat, minRepeats: nat) {
    forall l :: len <= l <= MAX_PHRASE ==> NoneOfLength(text, l, minRepeats)
  }

  lemma NoneFromOneLess(text: seq<byte>, len: nat, minRepeats: nat)
    requires NoneFrom(text, len + 1, minRepeats) && NoneOfLength(text, len, minRepeats)
    ensures NoneFrom(text, len, minRepeats)
  {
    hide NoneOfLength;
  }

  lemma NoneFromMore(text: seq<byte>, len: nat, more: nat, minRepeats: nat)
    requires NoneFrom(text, len, minRepeats) && len <= more
    ensures NoneFrom(text, more, minRepeats)
  {
    hide NoneOfLength;
  }

  lemma NothingLonger(text: seq<byte>, len: nat, minRepeats: nat)
    requires NoneFrom(text, len + 1, minRepeats)
    ensures forall l :: len < l <= MAX_PHRASE ==> NoneOfLength(text, l, minRepeats)
  {
    hide NoneOfLength;
  }

  function Work(rounds: nat, size: nat): nat {
    rounds * size
  }

  lemma OneMoreRound(rounds: nat, size: nat)
    requires rounds < MAX_PHRASE + 1
    ensures Work(rounds, size) + size == Work(rounds + 1, size) <= Work(MAX_PHRASE + 1, size)
  {
    MulMonotone(size, rounds + 1, MAX_PHRASE + 1);
  }

  lemma Positive(a: nat, b: nat)
    requires a * b > 0
    ensures a > 0 && b > 0
  {
  }

  method CutAtBoundary(text: seq<byte>) returns (scanned: seq<byte>)
    ensures scanned == Scanned(text)
  {
    var end: nat := Min(|text|, MAX_SCAN_BYTES);
    while end > 0 && !IsBoundary(text, end)
      invariant end <= |text|
      invariant ScanEnd(text, end) == ScanEnd(text, Min(|text|, MAX_SCAN_BYTES))
    {
      end := end - 1;
    }
    scanned := text[..end];
  }

  /** No admissible length beyond the longest one tried repeats. */
  lemma LongerNever(text: seq<byte>, minRepeats: nat)
    requires minRepeats > 0
    ensures NoneFrom(text, LongestPhrase(text, minRepeats) + 1, minRepeats)
  {
    hide Repeats;
    forall len | LongestPhrase(text, minRepeats) < len <= MAX_PHRASE
      ensures NoneOfLength(text, len, minRepeats)
    {
      forall i | 0 <= i <= |text|
        ensures !Repeats(text, i, len, minRepeats)
      {
        TooLong(text, i, len, minRepeats);
      }
    }
  }

  /** A text shorter than the least repetition holds none. */
  lemma TooShort(text: seq<byte>, minLen: nat, minRepeats: nat)
    requires minLen * minRepeats > |text|
    ensures NoneFrom(Scanned(text), minLen, minRepeats)
  {
    hide Repeats;
    Positive(minLen, minRepeats);
    var scanned := Scanned(text);
    forall len | minLen <= len <= MAX_PHRASE
      ensures NoneOfLength(scanned, len, minRepeats)
    {
      forall i | 0 <= i <= |scanned|
        ensures !Repeats(scanned, i, len, minRepeats)
      {
        MulMonotone(minRepeats, minLen, len);
        assert len * minRepeats >= minLen * minRepeats;
        TooLong(scanned, i, len, minRepeats);
      }
    }
  }

  // ----- Closing brackets ----------------------------------------------------

  /** The closers still owed, innermost last, and where the reader is. */
  datatype Open = Open(closers: string, inString: bool, escaped: bool) {
    function Next(c: char): Open {
      if escaped then this.(escaped := false)
      else if c == '\\' then this.(escaped := true)
      else if c == '"' then this.(inString := !inString)
      else if inString then this
      else if c == '{' then this.(closers := closers + "}")
      else if c == '[' then this.(closers := closers + "]")
      else if (c == '}' || c == ']') && closers != [] && closers[|closers| - 1] == c then
        this.(closers := closers[..|closers| - 1])
      else this
    }
  }

  const CLOSED := Open([], false, false)

  function ReadBrackets(s: string): Open {
    if s == [] then CLOSED else ReadBrackets(s[..|s| - 1]).Next(s[|s| - 1])
  }

  function Reversed(s: string): string {
    if s == [] then [] else [s[|s| - 1]] + Reversed(s[..|s| - 1])
  }

  method BalanceDelimiters(s: string) returns (balanced: string)
    ensures balanced == s + Reversed(ReadBrackets(s).closers)
  {
    var stack: string, inString, escaped := [], false, false;
    for i := 0 to |s|
      invariant Open(stack, inString, escaped) == ReadBrackets(s[..i])
    {
      assert s[..i + 1][..i] == s[..i];
      var c := s[i];
      if escaped {
        escaped := false;
      } else if c == '\\' {
        escaped := true;
      } else if c == '"' {
        inString := !inString;
      } else if !inString {
        if c == '{' {
          stack := stack + "}";
        } else if c == '[' {
          stack := stack + "]";
        } else if (c == '}' || c == ']') && stack != [] && stack[|stack| - 1] == c {
          stack := stack[..|stack| - 1];
        }
      }
    }
    assert s[..|s|] == s;
    balanced := s;
    while stack != []
      invariant balanced + Reversed(stack) == s + Reversed(ReadBrackets(s).closers)
      decreases |stack|
    {
      var closing := stack[|stack| - 1];
      assert balanced + [closing] + Reversed(stack[..|stack| - 1]) == balanced + Reversed(stack);
      stack := stack[..|stack| - 1];
      balanced := balanced + [closing];
    }
    assert balanced + [] == balanced;
  }

  predicate OnlyClosers(s: string) {
    forall i :: 0 <= i < |s| ==> s[i] == '}' || s[i] == ']'
  }

  lemma {:induction false} OwesClosers(s: string)
    ensures OnlyClosers(ReadBrackets(s).closers)
  {
    if s != [] {
      OwesClosers(s[..|s| - 1]);
    }
  }

  function ReadOn(o: Open, s: string): Open
    decreases |s|
  {
    if s == [] then o else ReadOn(o.Next(s[0]), s[1..])
  }

  lemma {:induction false} ReadConcat(a: string, b: string)
    ensures ReadBrackets(a + b) == ReadOn(ReadBrackets(a), b)
    decreases |b|
  {
    if b == [] {
      assert a + b == a;
    } else {
      assert a + b == (a + [b[0]]) + b[1..];
      ReadConcat(a + [b[0]], b[1..]);
      assert (a + [b[0]])[..|a|] == a;
    }
  }

  /** Outside strings the owed closers, innermost first, close everything. */
  lemma {:induction false} ClosersClose(closers: string)
    requires OnlyClosers(closers)
    ensures ReadOn(Open(closers, false, false), Reversed(closers)).closers == []
  {
    if closers != [] {
      var last := |closers| - 1;
      ClosersClose(closers[..last]);
      assert Reversed(closers)[1..] == Reversed(closers[..last]);
    }
  }

  /** Inside a string they close nothing. */
  lemma {:induction false} InStringNothingCloses(closers: string, s: string, escaped: bool)
    requires OnlyClosers(s)
    ensures ReadOn(Open(closers, true, escaped), s).closers == closers
    decreases |s|
  {
    if s != [] {
      InStringNothingCloses(closers, s[1..], false);
    }
  }

  /** Each further character closes at most one bracket. */
  lemma {:induction false} AtMostOneEach(o: Open, s: string)
    requires OnlyClosers(s)
    ensures |ReadOn(o, s).closers| >= |o.closers| - |s|
    decreases |s|
  {
    if s != [] {
      AtMostOneEach(o.Next(s[0]), s[1..]);
    }
  }

  lemma {:induction false} ReversedLength(s: string)
    ensures |Reversed(s)| == |s|
    ensures OnlyClosers(s) ==> OnlyClosers(Reversed(s))
  {
    if s != [] {
      ReversedLength(s[..|s| - 1]);
    }
  }

  /**
   The balanced text owes no closers exactly when the original owed none or
   ended outside strings with no backslash pending.
   */
  lemma BalancedWhenOutsideStrings(s: string)
    ensures var o := ReadBrackets(s);
      ReadBrackets(s + Reversed(o.closers)).closers == [] <==> o.closers == [] || (!o.inString && !o.escaped)
  {
    var o := ReadBrackets(s);
    OwesClosers(s);
    ReversedLength(o.closers);
    ReadConcat(s, Reversed(o.closers));
    if o.closers == [] {
    } else if !o.inString && !o.escaped {
      ClosersClose(o.closers);
    } else if o.inString {
      InStringNothingCloses(o.closers, Reversed(o.closers), o.escaped);
    } else {
      var r := Reversed(o.closers);
      AtMostOneEach(o.Next(r[0]), r[1..]);
    }
  }

  // ----- Cut-off documents ---------------------------------------------------

  /** A piece of bracketed text: no brackets, a quoted string, or brackets around more. */
  datatype Part = Plain(s: string) | Quoted(s: string) | Braces(inner: seq<Part>) | Brackets(inner: seq<Part>)

  function Rendered(p: Part): string {
    match p
    case Plain(s) => s
    case Quoted(s) => "\"" + s + "\""
    case Braces(inner) => "{" + RenderedAll(inner) + "}"
    case Brackets(inner) => "[" + RenderedAll(inner) + "]"
  }

  function RenderedAll(parts: seq<Part>): string {
    if parts == [] then [] else Rendered(parts[0]) + RenderedAll(parts[1..])
  }

  predicate Proper(p: Part) {
    match p
    case Plain(s) => forall c :: c in s ==> c !in {'{', '}', '[', ']', '"', '\\'}
    case Quoted(s) => QuotedProperly(s)
    case Braces(inner) => ProperAll(inner)
    case Brackets(inner) => ProperAll(inner)
  }

  /** No bare quote inside, and no backslash left over. */
  predicate QuotedProperly(s: string)
    decreases |s|
  {
    if s == [] then true
    else if s[0] == '\\' then |s| > 1 && QuotedProperly(s[2..])
    else s[0] != '"' && QuotedProperly(s[1..])
  }

  predicate ProperAll(parts: seq<Part>) {
    forall p :: p in parts ==> Proper(p)
  }

  lemma {:induction false} ReadOnConcat(o: Open, a: string, b: string)
    ensures ReadOn(o, a + b) == ReadOn(ReadOn(o, a), b)
    decreases |a|
  {
    hide Open.Next;
    if a == [] {
      assert a + b == b;
    } else {
      assert (a + b)[1..] == a[1..] + b;
      ReadOnConcat(o.Next(a[0]), a[1..], b);
    }
  }

  lemma {:induction false} PlainIsNeutral(o: Open, s: string)
    requires !o.inString && !o.escaped && forall c :: c in s ==> c !in {'{', '}', '[', ']', '"', '\\'}
    ensures ReadOn(o, s) == o
    decreases |s|
  {
    if s != [] {
      assert s[0] in s && forall c :: c in s[1..] ==> c in s;
      PlainIsNeutral(o, s[1..]);
    }
  }

  lemma {:induction false} StringIsNeutral(o: Open, s: string)
    requires o.inString && !o.escaped && QuotedProperly(s)
    ensures ReadOn(o, s) == o
    decreases |s|
  {
    if s != [] {
      if s[0] == '\\' {
        assert s[1..][1..] == s[2..];
        assert ReadOn(o, s) == ReadOn(o.(escaped := true), s[1..]) == ReadOn(o, s[2..]);
        StringIsNeutral(o, s[2..]);
      } else {
        StringIsNeutral(o, s[1..]);
      }
    }
  }

  lemma OneCharacter(o: Open, c: char)
    ensures ReadOn(o, [c]) == o.Next(c)
  {
    hide Open.Next;
    assert [c][1..] == [];
  }

  /** Complete brackets leave nothing owed. */
  lemma {:induction false} CompleteIsNeutral(o: Open, p: Part)
    requires !o.inString && !o.escaped && Proper(p)
    ensures ReadOn(o, Rendered(p)) == o
    decreases p, 0
  {
    match p {
      case Plain(s) => PlainIsNeutral(o, s);
      case Quoted(s) =>
        assert Rendered(p) == ['"'] + s + ['"'];
        OneCharacter(o, '"');
        OneCharacter(o.(inString := true), '"');
        ReadOnConcat(o, ['"'] + s, ['"']);
        ReadOnConcat(o, ['"'], s);
        StringIsNeutral(o.(inString := true), s);
      case Braces(inner) => Enclosed(o, '{', inner, '}');
      case Brackets(inner) => Enclosed(o, '[', inner, ']');
    }
  }

  /** Brackets around complete text. */
  lemma {:induction false} Enclosed(o: Open, open: char, inner: seq<Part>, close: char)
    requires !o.inString && !o.escaped && ProperAll(inner) && ((open == '{' && close == '}') || (open == '[' && close == ']'))
    ensures ReadOn(o, [open] + RenderedAll(inner) + [close]) == o
    decreases inner, 2
  {
    var within := o.(closers := o.closers + [close]);
    OneCharacter(o, open);
    OneCharacter(within, close);
    ReadOnConcat(o, [open] + RenderedAll(inner), [close]);
    ReadOnConcat(o, [open], RenderedAll(inner));
    assert o.closers + "}" == o.closers + ['}'] && o.closers + "]" == o.closers + [']'];
    CompleteAllNeutral(within, inner);
    assert within.closers[..|o.closers|] == o.closers;
  }

  lemma {:induction false} CompleteAllNeutral(o: Open, parts: seq<Part>)
    requires !o.inString && !o.escaped && ProperAll(parts)
    ensures ReadOn(o, RenderedAll(parts)) == o
    decreases parts, 1
  {
    if parts != [] {
      assert parts[0] in parts;
      CompleteIsNeutral(o, parts[0]);
      CompleteAllNeutral(o, parts[1..]);
      ReadOnConcat(o, Rendered(parts[0]), RenderedAll(parts[1..]));
    }
  }

  /** A bracket that was opened, behind complete text, and not closed. */
  datatype Level = Level(before: seq<Part>, brace: bool)

  /** Text cut off inside brackets, at the end of complete text. */
  function CutText(levels: seq<Level>, last: seq<Part>): string {
    if levels == [] then RenderedAll(last)
    else RenderedAll(levels[0].before) + (if levels[0].brace then "{" else "[") + CutText(levels[1..], last)
  }

  /** The document it is cut from, had it ended there. */
  function Completed(levels: seq<Level>, last: seq<Part>): seq<Part> {
    if levels == [] then last
    else
      var inner := Completed(levels[1..], last);
      levels[0].before + [if levels[0].brace then Braces(inner) else Brackets(inner)]
  }

  function Closers(levels: seq<Level>): string {
    if levels == [] then [] else (if levels[0].brace then "}" else "]") + Closers(levels[1..])
  }

  predicate ProperCut(levels: seq<Level>, last: seq<Part>) {
    (forall level :: level in levels ==> ProperAll(level.before)) && ProperAll(last)
  }

  lemma {:induction false} CutOwes(o: Open, levels: seq<Level>, last: seq<Part>)
    requires !o.inString && !o.escaped && ProperCut(levels, last)
    ensures ReadOn(o, CutText(levels, last)) == o.(closers := o.closers + Closers(levels))
    decreases |levels|
  {
    hide ReadOn, Open.Next, RenderedAll;
    if levels == [] {
      CompleteAllNeutral(o, last);
      assert o.closers + [] == o.closers;
    } else {
      var level := levels[0];
      assert level in levels;
      var open, close := if level.brace then "{" else "[", if level.brace then "}" else "]";
      var within := o.(closers := o.closers + close);
      var front, rest := RenderedAll(level.before), CutText(levels[1..], last);
      assert CutText(levels, last) == front + open + rest;
      ReadOnConcat(o, front + open, rest);
      ReadOnConcat(o, front, open);
      CompleteAllNeutral(o, level.before);
      Opens(o, level.brace);
      CutOwes(within, levels[1..], last);
      assert o.closers + close + Closers(levels[1..]) == o.closers + Closers(levels);
    }
  }

  lemma Opens(o: Open, brace: bool)
    requires !o.inString && !o.escaped
    ensures ReadOn(o, if brace then "{" else "[") == o.(closers := o.closers + if brace then "}" else "]")
  {
    OneCharacter(o, if brace then '{' else '[');
  }

  lemma {:induction false} RenderedConcat(a: seq<Part>, b: seq<Part>)
    ensures RenderedAll(a + b) == RenderedAll(a) + RenderedAll(b)
  {
    if a == [] {
      assert a + b == b;
    } else {
      assert (a + b)[1..] == a[1..] + b;
      RenderedConcat(a[1..], b);
    }
  }

  lemma {:induction false} ReversedConcat(a: string, b: string)
    ensures Reversed(a + b) == Reversed(b) + Reversed(a)
  {
    if b == [] {
      assert a + b == a;
    } else {
      assert (a + b)[..|a + b| - 1] == a + b[..|b| - 1];
      ReversedConcat(a, b[..|b| - 1]);
    }
  }

  lemma {:induction false} ClosersComplete(levels: seq<Level>, last: seq<Part>)
    ensures RenderedAll(Completed(levels, last)) == CutText(levels, last) + Reversed(Closers(levels))
  {
    hide Rendered, RenderedAll, Reversed;
    if levels == [] {
      NothingReversed();
      assert RenderedAll(last) + [] == RenderedAll(last);
    } else {
      var level, inner := levels[0], Completed(levels[1..], last);
      var open, close := if level.brace then "{" else "[", if level.brace then "}" else "]";
      ClosersComplete(levels[1..], last);
      RenderedConcat(level.before, [if level.brace then Braces(inner) else Brackets(inner)]);
      OneRendered(inner, level.brace);
      ReversedConcat(close, Closers(levels[1..]));
      OneReversed();
      Reassociate(RenderedAll(level.before), open, CutText(levels[1..], last), Reversed(Closers(levels[1..])), close);
    }
  }

  lemma NothingReversed()
    ensures Reversed([]) == []
  {
  }

  lemma OneReversed()
    ensures Reversed("}") == "}" && Reversed("]") == "]"
  {
    assert "}"[..0] == [] && "]"[..0] == [];
  }

  lemma OneRendered(inner: seq<Part>, brace: bool)
    ensures RenderedAll([if brace then Braces(inner) else Brackets(inner)]) ==
      (if brace then "{" else "[") + RenderedAll(inner) + if brace then "}" else "]"
  {
    var whole := if brace then Braces(inner) else Brackets(inner);
    assert [whole][1..] == [];
    assert Rendered(whole) + [] == Rendered(whole);
  }

  lemma Reassociate(front: string, open: string, cut: string, back: string, close: string)
    ensures front + (open + (cut + back) + close) == front + open + cut + (back + close)
  {
  }

  /**
   What closing brackets is for: a document cut off behind complete text, however
   deep, becomes the document whose open brackets end there.
   */
  lemma CutIsCompleted(levels: seq<Level>, last: seq<Part>)
    requires ProperCut(levels, last)
    ensures var s := CutText(levels, last); s + Reversed(ReadBrackets(s).closers) == RenderedAll(Completed(levels, last))
  {
    hide Open.Next;
    var s := CutText(levels, last);
    ReadConcat([], s);
    assert [] + s == s;
    CutOwes(CLOSED, levels, last);
    assert [] + Closers(levels) == Closers(levels);
    ClosersComplete(levels, last);
  }
}
