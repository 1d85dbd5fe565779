/**
 Strings as the program sees them: sequences of Unicode scalar values whose
 lengths and offsets are counted in UTF-8 bytes (RFC 3629, section 3). Besides
 prefixes and suffixes by byte length there are decimal rendering, white space,
 trimming, ASCII case, lines and words, each defined as the standard library of
 the source's language defines it.
 */
module Text {

  type byte = n: nat | n < 256

  function CharLen(c: char): (n: nat)
    ensures 1 <= n <= 4
  {
    var x := c as int;
    if x < 0x80 then 1 else if x < 0x800 then 2 else if x < 0x10000 then 3 else 4
  }

  function ByteLen(s: string): nat {
    if s == [] then 0 else CharLen(s[0]) + ByteLen(s[1..])
  }

  lemma {:induction false} ByteLenConcat(a: string, b: string)
    ensures ByteLen(a + b) == ByteLen(a) + ByteLen(b)
  {
    if a == [] {
      assert a + b == b;
    } else {
      assert (a + b)[1..] == a[1..] + b;
      ByteLenConcat(a[1..], b);
    }
  }

  /** `str::is_char_boundary`: does offset `b` fall between two characters? */
  predicate IsCharBoundary(s: string, b: nat) {
    b == 0 || (s != [] && CharLen(s[0]) <= b && IsCharBoundary(s[1..], b - CharLen(s[0])))
  }

  /** The slice `s[..b]` by byte offset. */
  function TakeBytes(s: string, b: nat): string
    requires IsCharBoundary(s, b)
  {
    if b == 0 then [] else [s[0]] + TakeBytes(s[1..], b - CharLen(s[0]))
  }

  /** The slice `s[b..]` by byte offset. */
  function DropBytes(s: string, b: nat): string
    requires IsCharBoundary(s, b)
  {
    if b == 0 then s else DropBytes(s[1..], b - CharLen(s[0]))
  }

  lemma {:induction false} EndIsBoundary(s: string)
    ensures IsCharBoundary(s, ByteLen(s))
  {
    if s != [] {
      EndIsBoundary(s[1..]);
    }
  }

  /** The longest prefix of whole characters within `limit` bytes. */
  function PrefixWithin(s: string, limit: nat): (p: string)
    ensures p <= s && ByteLen(p) <= limit
    ensures |p| < |s| ==> ByteLen(p) + CharLen(s[|p|]) > limit
  {
    if s == [] || CharLen(s[0]) > limit then
      []
    else
      var rest := PrefixWithin(s[1..], limit - CharLen(s[0]));
      assert ([s[0]] + rest)[1..] == rest;
      [s[0]] + rest
  }

  /** The longest suffix of whole characters within `limit` bytes. */
  function SuffixWithin(s: string, limit: nat): (p: string)
    ensures |p| <= |s| && p == s[|s| - |p|..] && ByteLen(p) <= limit
    ensures |p| < |s| ==> CharLen(s[|s| - |p| - 1]) + ByteLen(p) > limit
  {
    if ByteLen(s) <= limit then s else SuffixWithin(s[1..], limit)
  }

  lemma {:induction false} PrefixWithinIsLastBoundary(s: string, limit: nat, end: nat)
    requires end <= limit && IsCharBoundary(s, end)
    requires forall b: nat :: end < b <= limit ==> !IsCharBoundary(s, b)
    ensures TakeBytes(s, end) == PrefixWithin(s, limit)
  {
    if s == [] || CharLen(s[0]) > limit {
    } else {
      assert IsCharBoundary(s, CharLen(s[0]));
      forall b: nat | end - CharLen(s[0]) < b <= limit - CharLen(s[0])
        ensures !IsCharBoundary(s[1..], b)
      {
        assert !IsCharBoundary(s, b + CharLen(s[0]));
      }
      PrefixWithinIsLastBoundary(s[1..], limit - CharLen(s[0]), end - CharLen(s[0]));
    }
  }

  lemma {:induction false} SuffixWithinIsFirstBoundary(s: string, limit: nat, start: nat)
    requires IsCharBoundary(s, start) && ByteLen(s) - limit <= start <= ByteLen(s)
    requires forall b: nat :: ByteLen(s) - limit <= b < start ==> !IsCharBoundary(s, b)
    ensures DropBytes(s, start) == SuffixWithin(s, limit)
  {
    if ByteLen(s) <= limit {
      assert IsCharBoundary(s, 0);
    } else {
      forall b: nat | ByteLen(s[1..]) - limit <= b < start - CharLen(s[0])
        ensures !IsCharBoundary(s[1..], b)
      {
        assert !IsCharBoundary(s, b + CharLen(s[0]));
      }
      SuffixWithinIsFirstBoundary(s[1..], limit, start - CharLen(s[0]));
    }
  }

  /** Keeps the first `limit` bytes, backing up to a character boundary. */
  method TextPrefix(text: string, limit: nat) returns (prefix: string)
    ensures prefix == PrefixWithin(text, limit)
  {
    if ByteLen(text) <= limit {
      WholeTextFits(text, limit);
      return text;
    }
    var end: nat := limit;
    while end > 0 && !IsCharBoundary(text, end)
      invariant end <= limit
      invariant forall b: nat :: end < b <= limit ==> !IsCharBoundary(text, b)
    {
      end := end - 1;
    }
    PrefixWithinIsLastBoundary(text, limit, end);
    prefix := TakeBytes(text, end);
  }

  lemma {:induction false} WholeTextFits(s: string, limit: nat)
    requires ByteLen(s) <= limit
    ensures PrefixWithin(s, limit) == s
  {
    if s != [] {
      WholeTextFits(s[1..], limit - CharLen(s[0]));
    }
  }

  /** Keeps the last `limit` bytes, moving forward to a character boundary. */
  method TextSuffix(text: string, limit: nat) returns (suffix: string)
    ensures suffix == SuffixWithin(text, limit)
  {
    if ByteLen(text) <= limit {
      return text;
    }
    EndIsBoundary(text);
    var start := ByteLen(text) - limit;
    while start < ByteLen(text) && !IsCharBoundary(text, start)
      invariant ByteLen(text) - limit <= start <= ByteLen(text)
      invariant forall b: nat :: ByteLen(text) - limit <= b < start ==> !IsCharBoundary(text, b)
    {
      start := start + 1;
    }
    SuffixWithinIsFirstBoundary(text, limit, start);
    suffix := DropBytes(text, start);
  }

  /** Decimal rendering of a number, as `format!("{n}")` prints it. */
  function Decimal(n: nat): (s: string)
    ensures |s| >= 1 && forall i :: 0 <= i < |s| ==> '0' <= s[i] <= '9'
  {
    if n < 10 then [Digit(n)] else Decimal(n / 10) + [Digit(n % 10)]
  }

  function Digit(d: nat): (c: char)
    requires d < 10
    ensures '0' <= c <= '9'
  {
    (d + '0' as int) as char
  }

  function Pow10(k: nat): nat {
    if k == 0 then 1 else 10 * Pow10(k - 1)
  }

  lemma {:induction false} DecimalLen(n: nat, k: nat)
    requires 0 < k && n < Pow10(k)
    ensures |Decimal(n)| <= k
  {
    assert Pow10(k) == 10 * Pow10(k - 1);
    if n >= 10 {
      DecimalLen(n / 10, k - 1);
    }
  }

  // ----- Whitespace ----------------------------------------------------------

  /** The Unicode White_Space property. */
  predicate IsWhitespace(c: char) {
    var x := c as int;
    || 9 <= x <= 13 || x == 0x20 || x == 0x85 || x == 0xA0 || x == 0x1680
    || 0x2000 <= x <= 0x200A || x == 0x2028 || x == 0x2029 || x == 0x202F || x == 0x205F || x == 0x3000
  }

  predicate IsBlank(s: string) {
    forall i :: 0 <= i < |s| ==> IsWhitespace(s[i])
  }

  function TrimStart(s: string): string {
    if s != [] && IsWhitespace(s[0]) then TrimStart(s[1..]) else s
  }

  function TrimEnd(s: string): string {
    if s != [] && IsWhitespace(s[|s| - 1]) then TrimEnd(s[..|s| - 1]) else s
  }

  function Trim(s: string): string {
    TrimEnd(TrimStart(s))
  }

  lemma {:induction false} StartTaken(s: string) returns (lead: string)
    ensures s == lead + TrimStart(s) && IsBlank(lead)
    ensures TrimStart(s) != [] ==> !IsWhitespace(TrimStart(s)[0])
  {
    hide IsWhitespace;
    if s != [] && IsWhitespace(s[0]) {
      var rest := StartTaken(s[1..]);
      lead := [s[0]] + rest;
      assert s == [s[0]] + s[1..];
    } else {
      lead := [];
    }
  }

  lemma {:induction false} EndTaken(s: string) returns (trail: string)
    ensures s == TrimEnd(s) + trail && IsBlank(trail)
    ensures TrimEnd(s) != [] ==> !IsWhitespace(TrimEnd(s)[|TrimEnd(s)| - 1])
  {
    hide IsWhitespace;
    if s != [] && IsWhitespace(s[|s| - 1]) {
      var rest := EndTaken(s[..|s| - 1]);
      trail := rest + [s[|s| - 1]];
      assert s == s[..|s| - 1] + [s[|s| - 1]];
    } else {
      trail := [];
    }
  }

  /** Trimming takes away exactly the white space at both ends. */
  lemma TrimTakesBlanks(s: string) returns (lead: string, trail: string)
    ensures s == lead + Trim(s) + trail && IsBlank(lead) && IsBlank(trail)
    ensures var t := Trim(s); t != [] ==> !IsWhitespace(t[0]) && !IsWhitespace(t[|t| - 1])
  {
    hide IsWhitespace, TrimStart, TrimEnd, IsBlank;
    lead := StartTaken(s);
    trail := EndTaken(TrimStart(s));
    assert lead + (Trim(s) + trail) == lead + Trim(s) + trail;
    if Trim(s) != [] {
      assert Trim(s)[0] == TrimStart(s)[0];
    }
  }

  function Join(parts: seq<string>, separator: string): string {
    if parts == [] then []
    else if |parts| == 1 then parts[0]
    else parts[0] + separator + Join(parts[1..], separator)
  }

  // ----- ASCII case ----------------------------------------------------------

  function LowerAscii(c: char): char {
    if 'A' <= c <= 'Z' then (c as int - 'A' as int + 'a' as int) as char else c
  }

  /** `to_ascii_lowercase`. */
  function AsciiLower(s: string): string {
    seq(|s|, i requires 0 <= i < |s| => LowerAscii(s[i]))
  }

  predicate EqIgnoreAsciiCase(a: string, b: string) {
    |a| == |b| && forall i :: 0 <= i < |a| ==> LowerAscii(a[i]) == LowerAscii(b[i])
  }

  /** Each capital letter folds to the small one of its place in the alphabet, and nothing else changes. */
  lemma LettersFold(c: char, k: nat)
    requires k < 26
    ensures LowerAscii((65 + k) as char) == LowerAscii((97 + k) as char) == (97 + k) as char
    ensures !(65 <= c as int < 91) ==> LowerAscii(c) == c
  {
  }

  /** Two texts are equal but for ASCII case exactly when they fold alike. */
  lemma EqualWhenFolded(a: string, b: string)
    ensures EqIgnoreAsciiCase(a, b) <==> AsciiLower(a) == AsciiLower(b)
  {
    if AsciiLower(a) == AsciiLower(b) {
      assert |a| == |AsciiLower(a)| == |b|;
      forall i | 0 <= i < |a|
        ensures LowerAscii(a[i]) == LowerAscii(b[i])
      {
        assert AsciiLower(a)[i] == AsciiLower(b)[i];
      }
    }
  }

  // ----- Lines and words -----------------------------------------------------

  /** Everything before the first line feed. */
  function Line(text: string): (line: string)
    ensures line <= text
  {
    if text == [] || text[0] == '\n' then [] else [text[0]] + Line(text[1..])
  }

  /** The first line with something to read on it, or the empty string. */
  function FirstInkedLine(text: string): string {
    var line := Line(text);
    if !IsBlank(line) then line
    else if |line| == |text| then []
    else FirstInkedLine(text[|line| + 1..])
  }

  function Word(s: string): (word: string)
    ensures word <= s
    ensures s != [] && !IsWhitespace(s[0]) ==> word != []
  {
    if s == [] || IsWhitespace(s[0]) then [] else [s[0]] + Word(s[1..])
  }

  /** `split_whitespace`. */
  function Words(s: string): seq<string> {
    if s == [] then []
    else if IsWhitespace(s[0]) then Words(s[1..])
    else [Word(s)] + Words(s[|Word(s)|..])
  }
}
