/** Comparison of model revision strings, segment by segment. */
module Revisions {
  import opened Wrappers

  datatype Ordering = Less | Equal | Greater {
    function Reverse(): Ordering {
      match this case Less => Greater case Equal => Equal case Greater => Less
    }
  }

  const U64_LIMIT: nat := 0x1_0000_0000_0000_0000

  // ----- Segments ------------------------------------------------------------

  predicate IsSeparator(c: char) {
    c == '.' || c == '-' || c == '_'
  }

  /** `split(['.', '-', '_'])`: never empty, even for the empty string. */
  function Segments(s: string): (parts: seq<string>)
    ensures parts != []
  {
    if s == [] then [[]]
    else
      var rest := Segments(s[1..]);
      if IsSeparator(s[0]) then [[]] + rest else [[s[0]] + rest[0]] + rest[1..]
  }

  predicate AllDigits(s: string) {
    forall i :: 0 <= i < |s| ==> '0' <= s[i] <= '9'
  }

  function DigitsValue(s: string): nat
    requires AllDigits(s)
  {
    if s == [] then 0 else DigitsValue(s[..|s| - 1]) * 10 + (s[|s| - 1] as int - '0' as int)
  }

  /** `parse::<u64>`: an optional plus sign, digits, and no overflow. */
  function ParseU64(s: string): Option<nat> {
    var digits := if s != [] && s[0] == '+' then s[1..] else s;
    if digits != [] && AllDigits(digits) && DigitsValue(digits) < U64_LIMIT then Some(DigitsValue(digits)) else None
  }

  function CompareNat(a: nat, b: nat): Ordering {
    if a < b then Less else if a == b then Equal else Greater
  }

  /** `str::cmp`: UTF-8 order is code point order. */
  function CompareText(a: string, b: string): Ordering {
    if a == [] && b == [] then Equal
    else if a == [] then Less
    else if b == [] then Greater
    else if a[0] != b[0] then if a[0] < b[0] then Less else Greater
    else CompareText(a[1..], b[1..])
  }

  function CompareSegment(l: string, r: string): Ordering {
    if ParseU64(l).Some? && ParseU64(r).Some?
    then CompareNat(ParseU64(l).value, ParseU64(r).value)
    else CompareText(l, r)
  }

  predicate IsZeroSegment(s: string) {
    ParseU64(s) == Some(0) || s == []
  }

  predicate AllZero(parts: seq<string>) {
    forall i :: 0 <= i < |parts| ==> IsZeroSegment(parts[i])
  }

  /** The order both argument positions agree on: missing segments count as zero. */
  function CompareParts(ls: seq<string>, rs: seq<string>): Ordering {
    if ls == [] && rs == [] then Equal
    else if ls == [] then if AllZero(rs) then Equal else Less
    else if rs == [] then if AllZero(ls) then Equal else Greater
    else
      var first := CompareSegment(ls[0], rs[0]);
      if first != Equal then first else CompareParts(ls[1..], rs[1..])
  }

  function Compare(left: string, right: string): Ordering {
    CompareParts(Segments(left), Segments(right))
  }

  // ----- The comparison loop -------------------------------------------------

  /**
   The left and right iterators advance in step; when the left one outlasts the
   right one the comparison starts over with the arguments exchanged. That
   happens at most once, because the exchanged left side is the shorter one.
   */
  method CompareRevisions(left: string, right: string) returns (order: Ordering)
    ensures order == Compare(left, right)
    decreases if |Segments(left)| > |Segments(right)| then 1 else 0
  {
    var ls, rs := Segments(left), Segments(right);
    var i := 0;
    while true
      invariant 0 <= i <= |ls| && i <= |rs|
      invariant CompareParts(ls[i..], rs[i..]) == CompareParts(ls, rs)
      decreases |ls| - i
    {
      if i == |ls| && i == |rs| {
        return Equal;
      } else if i == |ls| {
        var allZero := EveryZero(rs[i..]);
        return if allZero then Equal else Less;
      } else if i == |rs| {
        var reversed := CompareRevisions(right, left);
        CompareIsAntisymmetric(left, right);
        return reversed.Reverse();
      } else {
        var order := CompareSegment(ls[i], rs[i]);
        if order != Equal {
          return order;
        }
        i := i + 1;
      }
    }
  }

  method EveryZero(parts: seq<string>) returns (every: bool)
    ensures every <==> AllZero(parts)
  {
    every := true;
    for k := 0 to |parts|
      invariant every <==> forall i :: 0 <= i < k ==> IsZeroSegment(parts[i])
    {
      every := every && IsZeroSegment(parts[k]);
    }
  }

  lemma {:induction false} CompareTextAntisymmetric(a: string, b: string)
    ensures CompareText(b, a) == CompareText(a, b).Reverse()
    ensures CompareText(a, b) == Equal <==> a == b
  {
    if a != [] && b != [] {
      CompareTextAntisymmetric(a[1..], b[1..]);
      assert a == [a[0]] + a[1..] && b == [b[0]] + b[1..];
    }
  }

  lemma {:induction false} ComparePartsAntisymmetric(ls: seq<string>, rs: seq<string>)
    ensures CompareParts(rs, ls) == CompareParts(ls, rs).Reverse()
  {
    if ls != [] && rs != [] {
      CompareTextAntisymmetric(ls[0], rs[0]);
      ComparePartsAntisymmetric(ls[1..], rs[1..]);
    }
  }

  /** Exchanging the arguments reverses the result, for all strings. */
  lemma CompareIsAntisymmetric(left: string, right: string)
    ensures Compare(right, left) == Compare(left, right).Reverse()
  {
    ComparePartsAntisymmetric(Segments(left), Segments(right));
  }

  // ----- Numeric revisions ---------------------------------------------------

  predicate NumericParts(parts: seq<string>) {
    forall i :: 0 <= i < |parts| ==> ParseU64(parts[i]).Some?
  }

  /** Every segment is an unsigned 64-bit number. */
  predicate Numeric(s: string) {
    NumericParts(Segments(s))
  }

  /** Entry `i` of the revision read as a vector of numbers padded with zeros. */
  function At(parts: seq<string>, i: nat): nat
    requires NumericParts(parts)
  {
    if i < |parts| then ParseU64(parts[i]).value else 0
  }

  /** The vectors differ, and the left is smaller where they first do. */
  ghost predicate VectorLess(ls: seq<string>, rs: seq<string>)
    requires NumericParts(ls) && NumericParts(rs)
  {
    exists i: nat :: At(ls, i) < At(rs, i) && forall j: nat :: j < i ==> At(ls, j) == At(rs, j)
  }

  ghost predicate VectorEqual(ls: seq<string>, rs: seq<string>)
    requires NumericParts(ls) && NumericParts(rs)
  {
    forall i: nat :: At(ls, i) == At(rs, i)
  }

  ghost predicate VectorOrder(ls: seq<string>, rs: seq<string>, o: Ordering)
    requires NumericParts(ls) && NumericParts(rs)
  {
    match o
    case Less => VectorLess(ls, rs)
    case Equal => VectorEqual(ls, rs)
    case Greater => VectorLess(rs, ls)
  }

  lemma EmptyIsZero(s: string)
    requires ParseU64(s).Some?
    ensures IsZeroSegment(s) <==> ParseU64(s).value == 0
  {
  }

  /** A revision with no segments left against one with some. */
  lemma {:induction false} AgainstNothing(rs: seq<string>)
    requires NumericParts(rs)
    ensures if AllZero(rs) then VectorEqual([], rs) else VectorLess([], rs)
  {
    if AllZero(rs) {
      forall i: nat
        ensures At([], i) == At(rs, i)
      {
        if i < |rs| {
          EmptyIsZero(rs[i]);
        }
      }
    } else {
      if IsZeroSegment(rs[0]) {
        EmptyIsZero(rs[0]);
        AgainstNothing(rs[1..]);
        VectorShift([], rs, Less);
      } else {
        assert At([], 0) < At(rs, 0);
      }
    }
  }

  function Tail(parts: seq<string>): seq<string> {
    if parts == [] then [] else parts[1..]
  }

  /** Equal first entries leave the order of the tails. */
  lemma VectorShift(ls: seq<string>, rs: seq<string>, o: Ordering)
    requires NumericParts(ls) && NumericParts(rs) && At(ls, 0) == At(rs, 0)
    requires VectorOrder(Tail(ls), Tail(rs), o)
    ensures VectorOrder(ls, rs, o)
  {
    TailEntries(ls);
    TailEntries(rs);
    hide At, Tail, NumericParts, VectorLess;
    match o {
      case Equal =>
        forall i: nat
          ensures At(ls, i) == At(rs, i)
        {
          if i > 0 {
            assert At(Tail(ls), i - 1) == At(Tail(rs), i - 1);
          }
        }
      case Less => VectorLessShift(ls, rs);
      case Greater => VectorLessShift(rs, ls);
    }
  }

  lemma TailEntries(parts: seq<string>)
    requires NumericParts(parts)
    ensures NumericParts(Tail(parts))
    ensures forall i: nat {:trigger At(Tail(parts), i)} :: At(Tail(parts), i) == At(parts, i + 1)
  {
    hide ParseU64;
  }

  lemma VectorLessShift(ls: seq<string>, rs: seq<string>)
    requires NumericParts(ls) && NumericParts(rs) && At(ls, 0) == At(rs, 0)
    requires VectorLess(Tail(ls), Tail(rs))
    ensures VectorLess(ls, rs)
  {
    TailEntries(ls);
    TailEntries(rs);
    hide At, Tail, NumericParts;
    var k: nat :| At(Tail(ls), k) < At(Tail(rs), k) && forall j: nat :: j < k ==> At(Tail(ls), j) == At(Tail(rs), j);
    assert At(ls, k + 1) < At(rs, k + 1);
    forall j: nat | j < k + 1
      ensures At(ls, j) == At(rs, j)
    {
      if j > 0 {
        assert At(Tail(ls), j - 1) == At(Tail(rs), j - 1);
      }
    }
  }

  lemma {:induction false} ComparePartsIsVectorOrder(ls: seq<string>, rs: seq<string>)
    requires NumericParts(ls) && NumericParts(rs)
    ensures VectorOrder(ls, rs, CompareParts(ls, rs))
  {
    if ls == [] {
      AgainstNothing(rs);
    } else if rs == [] {
      AgainstNothing(ls);
    } else {
      var first := CompareSegment(ls[0], rs[0]);
      if first == Equal {
        ComparePartsIsVectorOrder(ls[1..], rs[1..]);
        VectorShift(ls, rs, CompareParts(ls[1..], rs[1..]));
      } else if first == Less {
        assert At(ls, 0) < At(rs, 0);
      } else {
        assert At(rs, 0) < At(ls, 0);
      }
    }
  }

  lemma VectorOrderIsUnique(ls: seq<string>, rs: seq<string>)
    requires NumericParts(ls) && NumericParts(rs)
    ensures VectorLess(ls, rs) ==> !VectorEqual(ls, rs) && !VectorLess(rs, ls)
  {
  }

  /** On numeric revisions the comparison is the order of zero-padded number vectors. */
  lemma CompareIsVectorOrder(left: string, right: string)
    requires Numeric(left) && Numeric(right)
    ensures var ls, rs := Segments(left), Segments(right);
      && (Compare(left, right) == Less <==> VectorLess(ls, rs))
      && (Compare(left, right) == Equal <==> VectorEqual(ls, rs))
      && (Compare(left, right) == Greater <==> VectorLess(rs, ls))
  {
    var ls, rs := Segments(left), Segments(right);
    ComparePartsIsVectorOrder(ls, rs);
    VectorOrderIsUnique(ls, rs);
    VectorOrderIsUnique(rs, ls);
  }

  predicate AtMost(a: string, b: string) {
    Compare(a, b) != Greater
  }

  // ----- Revisions of one shape ----------------------------------------------

  /** Wherever both revisions have a segment, both are numbers or neither is. */
  predicate Alike(ls: seq<string>, rs: seq<string>) {
    forall i :: 0 <= i < |ls| && i < |rs| ==> (ParseU64(ls[i]).Some? <==> ParseU64(rs[i]).Some?)
  }

  predicate AllAlike(a: string, b: string, c: string) {
    Alike(Segments(a), Segments(b)) && Alike(Segments(b), Segments(c)) && Alike(Segments(a), Segments(c))
  }

  lemma {:induction false} TextTransitive(a: string, b: string, c: string)
    requires CompareText(a, b) != Greater && CompareText(b, c) != Greater
    ensures CompareText(a, c) != Greater
    ensures CompareText(a, c) == Equal ==> a == b == c
  {
    CompareTextAntisymmetric(a, b);
    CompareTextAntisymmetric(a, c);
    if a != [] && b != [] && c != [] && a[0] == b[0] == c[0] {
      TextTransitive(a[1..], b[1..], c[1..]);
      assert a == [a[0]] + a[1..] && b == [b[0]] + b[1..] && c == [c[0]] + c[1..];
    }
  }

  lemma SegmentTransitive(a: string, b: string, c: string)
    requires ParseU64(a).Some? <==> ParseU64(b).Some?
    requires ParseU64(b).Some? <==> ParseU64(c).Some?
    requires CompareSegment(a, b) != Greater && CompareSegment(b, c) != Greater
    ensures CompareSegment(a, c) != Greater
    ensures CompareSegment(a, c) == Equal <==> CompareSegment(a, b) == CompareSegment(b, c) == Equal
  {
    hide ParseU64, CompareText;
    if ParseU64(a).None? {
      TextTransitive(a, b, c);
      CompareTextAntisymmetric(a, b);
      CompareTextAntisymmetric(b, c);
      CompareTextAntisymmetric(a, c);
    }
  }

  /** A zero or empty segment has none of its kind below it. */
  lemma ZeroIsLeast(z: string, s: string)
    requires IsZeroSegment(z) && (ParseU64(z).Some? <==> ParseU64(s).Some?)
    ensures CompareSegment(z, s) != Greater
    ensures IsZeroSegment(s) <==> CompareSegment(z, s) == Equal
  {
    hide DigitsValue, AllDigits;
  }

  lemma AlikeTails(ls: seq<string>, rs: seq<string>)
    requires Alike(ls, rs) && ls != [] && rs != []
    ensures Alike(ls[1..], rs[1..]) && (ParseU64(ls[0]).Some? <==> ParseU64(rs[0]).Some?)
  {
    hide ParseU64;
  }

  lemma {:induction false} ZerosAtMost(zs: seq<string>, rs: seq<string>)
    requires AllZero(zs) && Alike(zs, rs)
    ensures CompareParts(zs, rs) != Greater
    ensures AllZero(rs) <==> CompareParts(zs, rs) == Equal
  {
    hide ParseU64, IsZeroSegment, CompareSegment;
    if zs != [] && rs != [] {
      AlikeTails(zs, rs);
      ZeroIsLeast(zs[0], rs[0]);
      ZerosAtMost(zs[1..], rs[1..]);
      assert rs == [rs[0]] + rs[1..];
    }
  }

  lemma {:induction false} PartsTransitive(a: seq<string>, b: seq<string>, c: seq<string>)
    requires Alike(a, b) && Alike(b, c) && Alike(a, c)
    requires CompareParts(a, b) != Greater && CompareParts(b, c) != Greater
    ensures CompareParts(a, c) != Greater
  {
    hide ParseU64, IsZeroSegment, CompareSegment, Alike, AllZero;
    if a == [] {
    } else if b == [] {
      ZerosAtMost(a, c);
    } else if c == [] {
      AlikeIsSymmetric(a, b);
      ZerosAtMost(b, a);
      ComparePartsAntisymmetric(a, b);
    } else {
      AlikeTails(a, b);
      AlikeTails(b, c);
      AlikeTails(a, c);
      SegmentTransitive(a[0], b[0], c[0]);
      if CompareSegment(a[0], c[0]) == Equal {
        PartsTransitive(a[1..], b[1..], c[1..]);
      }
    }
  }

  lemma AlikeIsSymmetric(ls: seq<string>, rs: seq<string>)
    ensures Alike(ls, rs) <==> Alike(rs, ls)
  {
  }

  /** Revisions whose segments have the same kinds, numbers or not, are totally preordered, whatever their lengths. */
  lemma AlikeTransitive(a: string, b: string, c: string)
    requires AllAlike(a, b, c) && AtMost(a, b) && AtMost(b, c)
    ensures AtMost(a, c)
  {
    PartsTransitive(Segments(a), Segments(b), Segments(c));
  }

  /** Two of the three strings are the same, or all have segments of the same kinds. */
  predicate Chainable(a: string, b: string, c: string) {
    a == b || b == c || a == c || AllAlike(a, b, c)
  }

  lemma ChainTransitive(a: string, b: string, c: string)
    requires Chainable(a, b, c) && AtMost(a, b) && AtMost(b, c)
    ensures AtMost(a, c)
  {
    hide Compare, AllAlike;
    if a == c {
      CompareIsAntisymmetric(a, c);
    } else if a != b && b != c {
      AlikeTransitive(a, b, c);
    }
  }

  /** In particular numeric revisions are. */
  lemma NumericTransitive(a: string, b: string, c: string)
    requires Numeric(a) && Numeric(b) && Numeric(c)
    requires AtMost(a, b) && AtMost(b, c)
    ensures AtMost(a, c)
  {
    hide ParseU64, Segments, CompareParts;
    AlikeTransitive(a, b, c);
  }

  lemma OneCharSegment(c: char)
    requires !IsSeparator(c)
    ensures Segments([c]) == [[c]]
  {
    assert [c][1..] == [];
    assert [c] + [] == [c];
  }

  lemma TwoCharSegment(c: char, d: char)
    requires !IsSeparator(c) && !IsSeparator(d)
    ensures Segments([c, d]) == [[c, d]]
  {
    OneCharSegment(d);
    assert [c, d][1..] == [d];
    assert [c] + [d] == [c, d];
    assert [[d]][1..] == [];
  }

  lemma CycleNumbers()
    ensures ParseU64("2") == Some(2) && ParseU64("10") == Some(10) && ParseU64("1a") == None
  {
    assert DigitsValue("2"[..0]) == 0;
    assert "10"[..1] == "1";
    assert DigitsValue("1"[..0]) == 0;
    assert DigitsValue("1") == 1;
    assert "1a"[1] == 'a';
  }

  /** Mixing numbers with other segments loses transitivity: 2 < 10 < 1a < 2. */
  lemma MixedRevisionsCycle()
    ensures Compare("2", "10") == Compare("10", "1a") == Compare("1a", "2") == Less
  {
    CycleNumbers();
    OneCharSegment('2');
    TwoCharSegment('1', '0');
    TwoCharSegment('1', 'a');
    assert CompareSegment("2", "10") == Less;
    assert CompareSegment("10", "1a") == Less by {
      assert "10"[1..] == "0" && "1a"[1..] == "a";
    }
    assert CompareSegment("1a", "2") == Less;
  }
}
