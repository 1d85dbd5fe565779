/** Which numeric revisions that start with a prefix lie in a range. */
module RevisionPrefixes {
  import opened Wrappers
  import opened Text
  import opened Revisions

  /** Inside the bounds, both of them inclusive. */
  predicate InRange(rev: string, min: Option<string>, max: Option<string>) {
    (min.Some? ==> Compare(rev, min.value) != Less) && (max.Some? ==> Compare(rev, max.value) != Greater)
  }

  predicate NumericBounds(min: Option<string>, max: Option<string>) {
    (min.Some? ==> Numeric(min.value)) && (max.Some? ==> Numeric(max.value))
  }

  // ----- Longer strings, more segments ---------------------------------------

  /** The last of the segments runs on into the first of the others. */
  function Joined(ps: seq<string>, xs: seq<string>): (parts: seq<string>)
    requires ps != [] && xs != []
    ensures parts != []
  {
    ps[..|ps| - 1] + [ps[|ps| - 1] + xs[0]] + xs[1..]
  }

  lemma JoinedLater(first: string, ps: seq<string>, xs: seq<string>)
    requires ps != [] && xs != []
    ensures Joined([first] + ps, xs) == [first] + Joined(ps, xs)
  {
    assert ([first] + ps)[..|ps|] == [first] + ps[..|ps| - 1];
  }

  lemma JoinedFirst(c: char, ps: seq<string>, xs: seq<string>)
    requires ps != [] && xs != []
    ensures Joined([[c] + ps[0]] + ps[1..], xs) == [[c] + Joined(ps, xs)[0]] + Joined(ps, xs)[1..]
  {
    var longer := [[c] + ps[0]] + ps[1..];
    if |ps| == 1 {
      assert [c] + ps[0] + xs[0] == [c] + (ps[0] + xs[0]);
    } else {
      assert longer[..|ps| - 1] == [[c] + ps[0]] + ps[..|ps| - 1][1..];
    }
  }

  lemma JoinedToNothing(xs: seq<string>)
    requires xs != []
    ensures Joined([[]], xs) == xs
  {
    assert [] + xs[0] == xs[0];
    assert xs == [xs[0]] + xs[1..];
  }

  /** Extending a string extends its last segment and adds segments after it. */
  lemma {:induction false} SegmentsExtend(p: string, x: string)
    ensures Segments(p + x) == Joined(Segments(p), Segments(x))
  {
    hide Joined, IsSeparator;
    if p == [] {
      assert p + x == x;
      JoinedToNothing(Segments(x));
    } else {
      SegmentsExtend(p[1..], x);
      assert (p + x)[1..] == p[1..] + x;
      JoinedLater([], Segments(p[1..]), Segments(x));
      JoinedFirst(p[0], Segments(p[1..]), Segments(x));
    }
  }

  lemma {:induction false} OneSegment(s: string)
    requires forall i :: 0 <= i < |s| ==> !IsSeparator(s[i])
    ensures Segments(s) == [s]
  {
    if s != [] {
      OneSegment(s[1..]);
      assert s == [s[0]] + s[1..];
    }
  }

  lemma NumberHasNoSeparator(s: string)
    requires ParseU64(s).Some?
    ensures forall i :: 0 <= i < |s| ==> !IsSeparator(s[i])
  {
    var digits := if s[0] == '+' then s[1..] else s;
    forall i | 0 <= i < |s|
      ensures !IsSeparator(s[i])
    {
      if i > 0 || s[0] != '+' {
        assert s[i] == digits[if s[0] == '+' then i - 1 else i];
      }
    }
  }

  /** `parts`, each led in by a separator. */
  function Dotted(parts: seq<string>): string {
    if parts == [] then [] else "." + parts[0] + Dotted(parts[1..])
  }

  lemma {:induction false} DottedSegments(parts: seq<string>)
    requires NumericParts(parts)
    ensures Segments(Dotted(parts)) == [[]] + parts
  {
    hide ParseU64, Segments, Joined;
    if parts == [] {
      NoSegments();
    } else {
      var s, rest := parts[0], Dotted(parts[1..]);
      assert NumericParts(parts[1..]);
      DottedSegments(parts[1..]);
      NumberHasNoSeparator(s);
      OneSegment(s);
      SegmentsExtend(s, rest);
      JoinedToOne(s, parts[1..]);
      assert parts == [s] + parts[1..];
      assert Dotted(parts) == "." + (s + rest);
      LeadingDot(s + rest);
    }
  }

  lemma NoSegments()
    ensures Segments([]) == [[]]
  {
  }

  lemma LeadingDot(s: string)
    ensures Segments("." + s) == [[]] + Segments(s)
  {
    assert ("." + s)[1..] == s;
  }

  lemma JoinedToOne(s: string, parts: seq<string>)
    ensures Joined([s], [[]] + parts) == [s] + parts
  {
    assert s + [] == s && [s][..0] == [];
  }

  /** Dots, hyphens and underscores all separate segments. */
  lemma SeparatorsSplit(a: string, b: string)
    ensures Segments(a + "." + b) == Segments(a + "-" + b) == Segments(a + "_" + b) == Segments(a) + Segments(b)
  {
    hide Segments;
    SeparatedSegments(a, '.', b);
    SeparatedSegments(a, '-', b);
    SeparatedSegments(a, '_', b);
    assert a + "." + b == a + ['.'] + b && a + "-" + b == a + ['-'] + b && a + "_" + b == a + ['_'] + b;
  }

  /** Nothing else does. */
  lemma NothingElseSplits(s: string)
    requires forall i :: 0 <= i < |s| ==> s[i] != '.' && s[i] != '-' && s[i] != '_'
    ensures Segments(s) == [s]
  {
    OneSegment(s);
  }

  /** A plus sign in front of digits changes no number. */
  lemma PlusParses(digits: string)
    requires digits != [] && AllDigits(digits)
    ensures ParseU64("+" + digits) == ParseU64(digits)
  {
    assert ("+" + digits)[1..] == digits;
    assert digits[0] != '+';
  }

  // ----- Longer numbers ------------------------------------------------------

  lemma {:induction false} DigitsConcat(a: string, b: string)
    requires AllDigits(a) && AllDigits(b)
    ensures AllDigits(a + b) && DigitsValue(a + b) == DigitsValue(a) * Pow10(|b|) + DigitsValue(b)
    ensures DigitsValue(b) < Pow10(|b|)
  {
    if b == [] {
      assert a + b == a;
    } else {
      var init, d := b[..|b| - 1], b[|b| - 1] as int - '0' as int;
      DigitsConcat(a, init);
      assert (a + b)[..|a + b| - 1] == a + init;
      TenTimes(DigitsValue(a), Pow10(|init|), DigitsValue(init), d);
    }
  }

  lemma TenTimes(v: nat, power: nat, r: nat, d: nat)
    ensures (v * power + r) * 10 + d == v * (10 * power) + (r * 10 + d)
  {
  }

  /** `u` is `v` with some number of digits after it. */
  predicate Grows(v: nat, k: nat, u: nat) {
    v * Pow10(k) <= u < (v + 1) * Pow10(k)
  }

  /** What the digits after `v` are worth. */
  function Growth(v: nat, k: nat, u: nat): (r: nat)
    requires Grows(v, k, u)
    ensures r < Pow10(k)
  {
    OneMore(v, Pow10(k));
    u - v * Pow10(k)
  }

  /** A number with more text after it that is still a number has grown by that many digits. */
  lemma NumberExtends(s: string, y: string)
    requires ParseU64(s).Some? && ParseU64(s + y).Some?
    ensures Grows(ParseU64(s).value, |y|, ParseU64(s + y).value)
  {
    hide Pow10, DigitsValue;
    var a := Unsigned(s);
    UnsignedExtends(s, y);
    assert AllDigits(y) by {
      assert forall i :: 0 <= i < |y| ==> y[i] == (a + y)[|a| + i];
    }
    DigitsConcat(a, y);
    OneMore(DigitsValue(a), Pow10(|y|));
  }

  /** A number without its plus sign. */
  function Unsigned(s: string): string {
    if s != [] && s[0] == '+' then s[1..] else s
  }

  lemma UnsignedExtends(s: string, y: string)
    requires s != []
    ensures Unsigned(s + y) == Unsigned(s) + y
  {
    if s[0] == '+' {
      assert (s + y)[1..] == s[1..] + y;
    }
  }

  lemma OneMore(v: nat, power: nat)
    ensures (v + 1) * power == v * power + power
  {
  }

  /** The last `k` decimal digits of `r`. */
  function Padded(r: nat, k: nat): (s: string)
    ensures |s| == k && AllDigits(s)
  {
    if k == 0 then [] else Padded(r / 10, k - 1) + [Digit(r % 10)]
  }

  lemma {:induction false} PaddedValue(r: nat, k: nat)
    requires r < Pow10(k)
    ensures DigitsValue(Padded(r, k)) == r
  {
    if k > 0 {
      PaddedValue(r / 10, k - 1);
      assert Padded(r, k)[..k - 1] == Padded(r / 10, k - 1);
    }
  }

  /** Any growth is written by appending digits. */
  lemma NumberGrows(s: string, k: nat, u: nat)
    requires ParseU64(s).Some? && Grows(ParseU64(s).value, k, u) && u < U64_LIMIT
    ensures ParseU64(s + Padded(Growth(ParseU64(s).value, k, u), k)) == Some(u)
  {
    hide Pow10, Padded, DigitsValue;
    var r := Growth(ParseU64(s).value, k, u);
    var y := Padded(r, k);
    PaddedValue(r, k);
    UnsignedExtends(s, y);
    DigitsConcat(Unsigned(s), y);
  }

  // ----- A prefix is the least of its extensions -----------------------------

  lemma SegmentAgainstItself(s: string)
    ensures CompareSegment(s, s) == Equal
  {
    CompareTextAntisymmetric(s, s);
  }

  lemma {:induction false} LongerIsNoLess(front: seq<string>, s: string, t: string, rest: seq<string>)
    requires ParseU64(s).Some? && ParseU64(t).Some? && ParseU64(s).value <= ParseU64(t).value
    ensures CompareParts(front + [s], front + [t] + rest) != Greater
  {
    hide ParseU64;
    var ls, rs := front + [s], front + [t] + rest;
    if front == [] {
      assert ls[1..] == [] && rs[1..] == rest;
    } else {
      SegmentAgainstItself(front[0]);
      assert ls[1..] == front[1..] + [s] && rs[1..] == front[1..] + [t] + rest;
      LongerIsNoLess(front[1..], s, t, rest);
    }
  }

  /** The segments of a numeric extension: the same front, a grown last number, and what follows. */
  lemma ExtensionParts(p: string, rev: string) returns (k: nat, rest: seq<string>)
    requires Numeric(p) && Numeric(rev) && p <= rev
    ensures var ps, rs := Segments(p), Segments(rev);
      var n := |ps| - 1;
      && n < |rs| && rs == ps[..n] + [rs[n]] + rest
      && Grows(At(ps, n), k, At(rs, n))
  {
    hide ParseU64, Pow10;
    var x := rev[|p|..];
    assert rev == p + x;
    SegmentsExtend(p, x);
    var ps, rs, xs := Segments(p), Segments(rev), Segments(x);
    var n := |ps| - 1;
    rest := xs[1..];
    k := |xs[0]|;
    assert rs[n] == ps[n] + xs[0];
    NumberExtends(ps[n], xs[0]);
  }

  lemma GrowsIsNoLess(v: nat, k: nat, u: nat)
    requires Grows(v, k, u)
    ensures v <= u
  {
    PowerPositive(k);
    AtLeastTimes(v, Pow10(k));
  }

  lemma {:induction false} PowerPositive(k: nat)
    ensures Pow10(k) >= 1
  {
    if k > 0 {
      PowerPositive(k - 1);
    }
  }

  lemma AtLeastTimes(v: nat, power: nat)
    requires power >= 1
    ensures v <= v * power
  {
  }

  /** Extending a numeric revision never lowers it. */
  lemma PrefixIsLeast(p: string, rev: string)
    requires Numeric(p) && Numeric(rev) && p <= rev
    ensures AtMost(p, rev)
  {
    hide ParseU64, Grows, CompareParts;
    var k, rest := ExtensionParts(p, rev);
    var ps, rs := Segments(p), Segments(rev);
    var n := |ps| - 1;
    GrowsIsNoLess(At(ps, n), k, At(rs, n));
    LongerIsNoLess(ps[..n], ps[n], rs[n], rest);
    assert ps == ps[..n] + [ps[n]];
  }

  // ----- Prefixes below the range --------------------------------------------

  predicate NotAbove(rev: string, max: Option<string>) {
    max.Some? ==> AtMost(rev, max.value)
  }

  /**
   With `k` more digits the last number of the prefix can get to the minimum's
   number in its place, or its least such growth is beyond that number and not
   above the maximum.
   */
  predicate Climbs(p: string, min: string, max: Option<string>, k: nat)
    requires Numeric(p) && Numeric(min)
  {
    var n := |Segments(p)| - 1;
    var v, w := At(Segments(p), n), At(Segments(min), n);
    || (Grows(v, k, w) && NotAbove(min, max))
    || (w < v * Pow10(k) < U64_LIMIT && NotAbove(p + Padded(0, k), max))
  }

  const MAX_DIGITS := 20

  /**
   The prefix agrees with the minimum before its last number, and that number
   climbs to the range. Twenty digits are enough for any 64-bit number.
   */
  predicate PrefixEnters(p: string, min: string, max: Option<string>)
    requires Numeric(p) && Numeric(min)
  {
    && (forall i :: 0 <= i < |Segments(p)| - 1 ==> At(Segments(p), i) == At(Segments(min), i))
    && exists k :: 0 <= k <= MAX_DIGITS && Climbs(p, min, max, k)
  }

  /** Segments of a prefix whose last number was replaced by another, and more after it. */
  predicate SameFront(ps: seq<string>, rs: seq<string>) {
    ps != [] && |ps| <= |rs| && ps[..|ps| - 1] == rs[..|ps| - 1]
  }

  /** An extension can only reach the minimum when the prefix agrees with it up to its last number. */
  lemma FrontsAgree(p: string, min: string, rev: string)
    requires Numeric(p) && Numeric(min) && Numeric(rev) && SameFront(Segments(p), Segments(rev))
    requires Compare(p, min) == Less && Compare(rev, min) != Less
    ensures var n := |Segments(p)| - 1;
      && (forall i :: 0 <= i < n ==> At(Segments(p), i) == At(Segments(min), i))
      && At(Segments(rev), n) >= At(Segments(min), n)
  {
    hide Compare, Segments, At, VectorLess, NumericParts;
    CompareIsVectorOrder(p, min);
    CompareIsVectorOrder(rev, min);
    VectorFronts(Segments(p), Segments(min), Segments(rev));
  }

  lemma VectorFronts(ps: seq<string>, ls: seq<string>, rs: seq<string>)
    requires NumericParts(ps) && NumericParts(ls) && NumericParts(rs) && SameFront(ps, rs)
    requires VectorLess(ps, ls) && !VectorLess(rs, ls)
    ensures forall i :: 0 <= i < |ps| - 1 ==> At(ps, i) == At(ls, i)
    ensures At(rs, |ps| - 1) >= At(ls, |ps| - 1)
  {
    hide ParseU64;
    var n := |ps| - 1;
    forall i | 0 <= i < n
      ensures At(ps, i) == At(rs, i)
    {
      assert ps[i] == ps[..n][i] == rs[..n][i] == rs[i];
    }
    hide At, NumericParts;
    var d: nat :| At(ps, d) < At(ls, d) && forall j: nat :: j < d ==> At(ps, j) == At(ls, j);
    var low := if d < n then d else n;
    assert forall j: nat :: j < low ==> At(rs, j) == At(ls, j);
  }

  lemma GrowsLeast(v: nat, k: nat)
    ensures Grows(v, k, v * Pow10(k)) && Growth(v, k, v * Pow10(k)) == 0
  {
    PowerPositive(k);
    OneMore(v, Pow10(k));
  }

  /** The prefix with zeros after it: the same front, and its last number grown the least. */
  lemma ZeroesAfter(p: string, k: nat)
    requires Numeric(p) && At(Segments(p), |Segments(p)| - 1) * Pow10(k) < U64_LIMIT
    ensures var ps, zs := Segments(p), Segments(p + Padded(0, k));
      var n := |ps| - 1;
      && NumericParts(zs) && |zs| == n + 1 && zs == ps[..n] + [zs[n]] && At(zs, n) == At(ps, n) * Pow10(k)
  {
    hide ParseU64, Segments, Pow10, Padded;
    var v := At(Segments(p), |Segments(p)| - 1);
    GrowsLeast(v, k);
    GrownParts(p, k, v * Pow10(k), []);
    assert Padded(0, k) + [] == Padded(0, k);
  }

  lemma PowersAreLarge(v: nat, k: nat)
    requires v > 0 && k > MAX_DIGITS
    ensures v * Pow10(k) >= U64_LIMIT
  {
    PowerGrows(MAX_DIGITS, k);
    TwentyDigits();
    AtLeastTimesMore(v, Pow10(k));
  }

  lemma TwentyDigits()
    ensures Pow10(20) == 100_000_000_000_000_000_000
  {
    assert Pow10(5) == 100_000;
    assert Pow10(10) == 100_000 * Pow10(5);
    assert Pow10(15) == 100_000 * Pow10(10);
  }

  lemma AtLeastTimesMore(v: nat, power: nat)
    requires v > 0
    ensures power <= v * power
  {
  }

  lemma {:induction false} PowerGrows(j: nat, k: nat)
    requires j <= k
    ensures Pow10(j) <= Pow10(k)
  {
    if j < k {
      PowerGrows(j, k - 1);
    }
  }

  /** A numeric extension inside the range says how the prefix enters it. */
  lemma EntersBy(p: string, min: string, max: Option<string>, rev: string)
    requires Numeric(p) && Numeric(min) && (max.Some? ==> Numeric(max.value)) && Compare(p, min) == Less
    requires Numeric(rev) && p <= rev && InRange(rev, Some(min), max)
    ensures PrefixEnters(p, min, max)
  {
    hide Compare, ParseU64, Segments, Pow10, CompareParts;
    var k, rest := ExtensionParts(p, rev);
    var ps, ls, rs := Segments(p), Segments(min), Segments(rev);
    var n := |ps| - 1;
    assert rs[..n] == ps[..n];
    FrontsAgree(p, min, rev);
    var v, w := At(ps, n), At(ls, n);
    CompareIsAntisymmetric(rev, min);
    if max.Some? {
      NumericTransitive(min, rev, max.value);
    }
    NumberBelowLimit(rs, n);
    NumberBelowLimit(ls, n);
    if v * Pow10(k) <= w {
      if k <= MAX_DIGITS {
        assert Climbs(p, min, max, k);
      } else {
        if v > 0 {
          PowersAreLarge(v, k);
        }
        TwentyDigits();
        assert Climbs(p, min, max, 20);
      }
    } else {
      if k > MAX_DIGITS {
        PowersAreLarge(v, k);
      }
      ZeroesAtMost(p, k, rev, rest);
      if max.Some? {
        NumericTransitive(p + Padded(0, k), rev, max.value);
      }
      assert Climbs(p, min, max, k);
    }
  }

  lemma NumberBelowLimit(parts: seq<string>, i: nat)
    requires NumericParts(parts)
    ensures At(parts, i) < U64_LIMIT
  {
    hide DigitsValue;
  }

  lemma ZeroesAtMost(p: string, k: nat, rev: string, rest: seq<string>)
    requires Numeric(p) && Numeric(rev)
    requires var ps, rs := Segments(p), Segments(rev);
      var n := |ps| - 1;
      n < |rs| && rs == ps[..n] + [rs[n]] + rest && At(ps, n) * Pow10(k) <= At(rs, n)
    ensures Numeric(p + Padded(0, k)) && AtMost(p + Padded(0, k), rev)
  {
    hide ParseU64, Segments, Pow10, CompareParts;
    var ps, rs := Segments(p), Segments(rev);
    var n := |ps| - 1;
    NumberBelowLimit(rs, n);
    ZeroesAfter(p, k);
    LongerIsNoLess(ps[..n], Segments(p + Padded(0, k))[n], rs[n], rest);
  }

  /** Appending digits and further numbers gives the segments one expects. */
  lemma GrownParts(p: string, k: nat, u: nat, rest: seq<string>)
    requires Numeric(p) && NumericParts(rest) && u < U64_LIMIT && Grows(At(Segments(p), |Segments(p)| - 1), k, u)
    ensures var ps := Segments(p);
      var n := |ps| - 1;
      var gs := Segments(p + (Padded(Growth(At(ps, n), k, u), k) + Dotted(rest)));
      && |gs| == n + 1 + |rest| && gs == ps[..n] + [gs[n]] + rest
      && ParseU64(gs[n]) == Some(u) && NumericParts(gs)
  {
    hide ParseU64, Segments, Pow10, Padded, Grows, Growth;
    var ps := Segments(p);
    var n := |ps| - 1;
    var y := Padded(Growth(At(ps, n), k, u), k);
    assert forall i :: 0 <= i < |y| ==> !IsSeparator(y[i]);
    OneSegment(y);
    DottedSegments(rest);
    SegmentsExtend(y, Dotted(rest));
    JoinedToOne(y, rest);
    SegmentsExtend(p, y + Dotted(rest));
    NumberGrows(ps[n], k, u);
  }

  /** When the last number can climb to the minimum's, the rest of the minimum makes up an extension equal to it. */
  lemma MinimumReached(p: string, min: string, k: nat) returns (rev: string)
    requires Numeric(p) && Numeric(min)
    requires forall i :: 0 <= i < |Segments(p)| - 1 ==> At(Segments(p), i) == At(Segments(min), i)
    requires Grows(At(Segments(p), |Segments(p)| - 1), k, At(Segments(min), |Segments(p)| - 1))
    ensures p <= rev && Numeric(rev) && Compare(rev, min) == Equal
  {
    hide ParseU64, Segments, Compare, Pow10, Grows, Padded, Dotted;
    var ps, ls := Segments(p), Segments(min);
    var n := |ps| - 1;
    var w, rest := At(ls, n), if |ls| > n + 1 then ls[n + 1..] else [];
    assert NumericParts(rest);
    NumberBelowLimit(ls, n);
    GrownParts(p, k, w, rest);
    rev := p + (Padded(Growth(At(ps, n), k, w), k) + Dotted(rest));
    var gs := Segments(rev);
    SameVector(ps, ls, gs, rest);
    CompareIsVectorOrder(rev, min);
  }

  lemma SameVector(ps: seq<string>, ls: seq<string>, gs: seq<string>, rest: seq<string>)
    requires ps != [] && NumericParts(ps) && NumericParts(ls) && NumericParts(gs)
    requires forall i :: 0 <= i < |ps| - 1 ==> At(ps, i) == At(ls, i)
    requires rest == if |ls| > |ps| then ls[|ps|..] else []
    requires |gs| == |ps| + |rest| && gs == ps[..|ps| - 1] + [gs[|ps| - 1]] + rest
    requires At(gs, |ps| - 1) == At(ls, |ps| - 1)
    ensures VectorEqual(gs, ls)
  {
    hide ParseU64;
    var n := |ps| - 1;
    forall i: nat
      ensures At(gs, i) == At(ls, i)
    {
      if i < n {
        assert gs[i] == ps[i];
      } else if n < i < |gs| {
        assert gs[i] == rest[i - n - 1] == ls[i];
      }
    }
  }

  /** A last number grown beyond the minimum's makes an extension above the minimum. */
  lemma MinimumPassed(p: string, min: string, k: nat)
    requires Numeric(p) && Numeric(min)
    requires forall i :: 0 <= i < |Segments(p)| - 1 ==> At(Segments(p), i) == At(Segments(min), i)
    requires At(Segments(min), |Segments(p)| - 1) < At(Segments(p), |Segments(p)| - 1) * Pow10(k) < U64_LIMIT
    ensures Numeric(p + Padded(0, k)) && Compare(p + Padded(0, k), min) == Greater
  {
    hide ParseU64, Segments, Compare, Pow10, Padded;
    var rev := p + Padded(0, k);
    var ps, ls, zs := Segments(p), Segments(min), Segments(rev);
    ZeroesAfter(p, k);
    var n := |ps| - 1;
    assert forall j: nat :: j < n ==> At(zs, j) == At(ps, j);
    assert At(ls, n) < At(zs, n) && forall j: nat :: j < n ==> At(ls, j) == At(zs, j);
    CompareIsVectorOrder(rev, min);
  }

  /**
   A numeric prefix below the minimum has a numeric extension in the range
   exactly when it enters the range.
   */
  lemma EntersExactly(p: string, min: string, max: Option<string>)
    requires Numeric(p) && NumericBounds(Some(min), max) && Compare(p, min) == Less
    ensures (exists rev :: Numeric(rev) && p <= rev && InRange(rev, Some(min), max)) <==> PrefixEnters(p, min, max)
  {
    hide Compare, ParseU64, Segments, Pow10, Grows, Padded;
    if rev :| Numeric(rev) && p <= rev && InRange(rev, Some(min), max) {
      EntersBy(p, min, max, rev);
    }
    if PrefixEnters(p, min, max) {
      var k :| 0 <= k <= MAX_DIGITS && Climbs(p, min, max, k);
      var n := |Segments(p)| - 1;
      if Grows(At(Segments(p), n), k, At(Segments(min), n)) && NotAbove(min, max) {
        var rev := MinimumReached(p, min, k);
        if max.Some? {
          NumericTransitive(rev, min, max.value);
        }
        assert InRange(rev, Some(min), max);
      } else {
        MinimumPassed(p, min, k);
        assert p <= p + Padded(0, k);
        assert InRange(p + Padded(0, k), Some(min), max);
      }
    }
  }

  /** Some numeric revision starts with the prefix and lies in the range. */
  ghost predicate SharesNumeric(p: string, min: Option<string>, max: Option<string>) {
    exists rev :: Numeric(rev) && p <= rev && InRange(rev, min, max)
  }

  /** The exact test: a prefix not below the minimum is itself the least of its extensions. */
  lemma SharesExactly(p: string, min: Option<string>, max: Option<string>)
    requires Numeric(p) && NumericBounds(min, max)
    ensures SharesNumeric(p, min, max) <==>
      if min.Some? && Compare(p, min.value) == Less then PrefixEnters(p, min.value, max) else NotAbove(p, max)
  {
    hide Compare, Numeric, PrefixEnters;
    if min.Some? && Compare(p, min.value) == Less {
      EntersExactly(p, min.value, max);
    } else {
      if rev :| Numeric(rev) && p <= rev && InRange(rev, min, max) {
        SharedNotAbove(p, min, max, rev);
      }
      if NotAbove(p, max) {
        assert p <= p && InRange(p, min, max);
      }
    }
  }

  /** A prefix above the maximum has no numeric extension in the range. */
  lemma SharedNotAbove(p: string, min: Option<string>, max: Option<string>, rev: string)
    requires Numeric(p) && (max.Some? ==> Numeric(max.value))
    requires Numeric(rev) && p <= rev && InRange(rev, min, max)
    ensures NotAbove(p, max)
  {
    hide Compare, Numeric;
    PrefixIsLeast(p, rev);
    if max.Some? {
      NumericTransitive(p, rev, max.value);
    }
  }

  // ----- Prefixes that end at a separator ------------------------------------

  predicate EndsAtSeparator(p: string) {
    p != [] && IsSeparator(p[|p| - 1])
  }

  /** The prefix without a separator at its end. */
  function Stem(p: string): string {
    if EndsAtSeparator(p) then p[..|p| - 1] else p
  }

  /** The numbers before the separator are the minimum's, whose others can then follow. */
  predicate SeparatedEnters(q: string, min: string, max: Option<string>)
    requires Numeric(q) && Numeric(min)
  {
    (forall i :: 0 <= i < |Segments(q)| ==> At(Segments(q), i) == At(Segments(min), i)) && NotAbove(min, max)
  }

  lemma SeparatedSegments(q: string, c: char, x: string)
    requires IsSeparator(c)
    ensures Segments(q + [c] + x) == Segments(q) + Segments(x)
  {
    hide Segments, Joined, IsSeparator;
    assert q + [c] + x == q + ([c] + x);
    SegmentsExtend(q, [c] + x);
    LeadingSeparator(c, x);
    JoinedToEmpty(Segments(q), Segments(x));
  }

  lemma LeadingSeparator(c: char, x: string)
    requires IsSeparator(c)
    ensures Segments([c] + x) == [[]] + Segments(x)
  {
    hide IsSeparator;
    assert ([c] + x)[1..] == x;
  }

  lemma JoinedToEmpty(ps: seq<string>, xs: seq<string>)
    requires ps != []
    ensures Joined(ps, [[]] + xs) == ps + xs
  {
    assert ps[|ps| - 1] + [] == ps[|ps| - 1];
  }

  /** Further numbers written behind a separator. */
  lemma SeparatedNumbers(q: string, c: char, rest: seq<string>) returns (rev: string)
    requires Numeric(q) && IsSeparator(c) && rest != [] && NumericParts(rest)
    ensures q + [c] <= rev && Segments(rev) == Segments(q) + rest && Numeric(rev)
  {
    hide ParseU64, Segments;
    var x := rest[0] + Dotted(rest[1..]);
    NumberHasNoSeparator(rest[0]);
    OneSegment(rest[0]);
    DottedSegments(rest[1..]);
    SegmentsExtend(rest[0], Dotted(rest[1..]));
    JoinedToOne(rest[0], rest[1..]);
    assert [rest[0]] + rest[1..] == rest;
    rev := q + [c] + x;
    SeparatedSegments(q, c, x);
  }

  lemma ZeroSegment()
    ensures ParseU64("0") == Some(0)
  {
    assert DigitsValue("0"[..0]) == 0;
  }

  /** A separator and a zero change nothing. */
  lemma SeparatedZero(q: string, c: char) returns (rev: string)
    requires Numeric(q) && IsSeparator(c)
    ensures q + [c] <= rev && Numeric(rev) && Compare(rev, q) == Equal
  {
    hide ParseU64, Segments, Compare;
    ZeroSegment();
    rev := SeparatedNumbers(q, c, ["0"]);
    CompareIsVectorOrder(rev, q);
  }

  /** When the numbers before the separator are the minimum's, its others make up an extension equal to it. */
  lemma SeparatedMinimum(q: string, c: char, min: string) returns (rev: string)
    requires Numeric(q) && Numeric(min) && IsSeparator(c)
    requires forall i :: 0 <= i < |Segments(q)| ==> At(Segments(q), i) == At(Segments(min), i)
    ensures q + [c] <= rev && Numeric(rev) && Compare(rev, min) == Equal
  {
    hide ParseU64, Segments, Compare;
    ZeroSegment();
    var ps, ls := Segments(q), Segments(min);
    var rest := if |ls| > |ps| then ls[|ps|..] else ["0"];
    rev := SeparatedNumbers(q, c, rest);
    assert VectorEqual(ps + rest, ls) by {
      forall i: nat
        ensures At(ps + rest, i) == At(ls, i)
      {
        if |ps| <= i < |ls| {
          assert (ps + rest)[i] == ls[i];
        }
      }
    }
    CompareIsVectorOrder(rev, min);
  }

  /** An extension past the separator that reaches the minimum agrees with it before the separator. */
  lemma SeparatedAgrees(q: string, c: char, min: string, rev: string)
    requires Numeric(q) && Numeric(min) && Numeric(rev) && IsSeparator(c) && q + [c] <= rev
    requires Compare(q, min) == Less && Compare(rev, min) != Less
    ensures forall i :: 0 <= i < |Segments(q)| ==> At(Segments(q), i) == At(Segments(min), i)
  {
    hide ParseU64, Segments, Compare;
    var ps, ls, rs := Segments(q), Segments(min), Segments(rev);
    assert rev == q + [c] + rev[|q| + 1..];
    SeparatedSegments(q, c, rev[|q| + 1..]);
    CompareIsVectorOrder(q, min);
    CompareIsVectorOrder(rev, min);
    ZeroSegment();
    var padded := ps + ["0"];
    assert forall i: nat :: At(padded, i) == At(ps, i);
    assert VectorLess(padded, ls) by {
      var d: nat :| At(ps, d) < At(ls, d) && forall j: nat :: j < d ==> At(ps, j) == At(ls, j);
      assert At(padded, d) < At(ls, d);
    }
    assert padded[..|ps|] == ps == rs[..|ps|];
    VectorFronts(padded, ls, rs);
    assert forall i :: 0 <= i < |ps| ==> At(ps, i) == At(padded, i);
  }

  /** The exact test of a numeric prefix with a separator behind it. */
  lemma SeparatedSharesExactly(q: string, c: char, min: Option<string>, max: Option<string>)
    requires Numeric(q) && NumericBounds(min, max) && IsSeparator(c)
    ensures SharesNumeric(q + [c], min, max) <==>
      if min.Some? && Compare(q, min.value) == Less then SeparatedEnters(q, min.value, max) else NotAbove(q, max)
  {
    hide Compare, ParseU64, Segments;
    if rev :| Numeric(rev) && q + [c] <= rev && InRange(rev, min, max) {
      assert q <= q + [c] <= rev;
      SharedNotAbove(q, min, max, rev);
      if min.Some? && Compare(q, min.value) == Less {
        SeparatedAgrees(q, c, min.value, rev);
        CompareIsAntisymmetric(rev, min.value);
        if max.Some? {
          NumericTransitive(min.value, rev, max.value);
        }
      }
    }
    if min.Some? && Compare(q, min.value) == Less {
      if SeparatedEnters(q, min.value, max) {
        var rev := SeparatedMinimum(q, c, min.value);
        if max.Some? {
          NumericTransitive(rev, min.value, max.value);
        }
        assert InRange(rev, min, max);
      }
    } else if NotAbove(q, max) {
      var rev := SeparatedZero(q, c);
      CompareIsAntisymmetric(rev, q);
      if max.Some? {
        NumericTransitive(rev, q, max.value);
      }
      if min.Some? {
        CompareIsAntisymmetric(q, min.value);
        NumericTransitive(min.value, q, rev);
        CompareIsAntisymmetric(min.value, rev);
      }
      assert InRange(rev, min, max);
    }
  }

  /** An empty segment at the end never raises a comparison above, nor takes it back. */
  lemma {:induction false} EmptySegmentBehind(ps: seq<string>, hs: seq<string>)
    requires NumericParts(hs)
    ensures CompareParts(ps + [[]], hs) == Greater <==> CompareParts(ps, hs) == Greater
  {
    hide ParseU64, CompareSegment;
    if hs == [] {
      EmptyIsZeroSegment();
      assert AllZero(ps + [[]]) <==> AllZero(ps) by {
        assert AllZero(ps + [[]]) ==> forall i :: 0 <= i < |ps| ==> ps[i] == (ps + [[]])[i];
      }
      NothingAgainstNothing(ps);
      NothingAgainstNothing(ps + [[]]);
    } else if ps == [] {
      EmptyIsBelow(hs[0]);
    } else {
      assert (ps + [[]])[1..] == ps[1..] + [[]];
      assert NumericParts(hs[1..]);
      EmptySegmentBehind(ps[1..], hs[1..]);
    }
  }

  lemma NothingAgainstNothing(ps: seq<string>)
    ensures CompareParts(ps, []) == Greater <==> !AllZero(ps)
  {
  }

  lemma EmptyIsZeroSegment()
    ensures IsZeroSegment([])
  {
  }

  lemma EmptyIsBelow(s: string)
    requires ParseU64(s).Some?
    ensures CompareSegment([], s) == Less
  {
  }

  lemma SeparatedAbove(q: string, c: char, max: string)
    requires Numeric(max) && IsSeparator(c)
    ensures Compare(q + [c], max) == Greater <==> Compare(q, max) == Greater
  {
    SeparatedSegments(q, c, []);
    assert q + [c] + [] == q + [c];
    assert Segments([]) == [[]];
    EmptySegmentBehind(Segments(q), Segments(max));
  }

  // ----- Either kind of prefix -----------------------------------------------

  /** How a prefix below the minimum gets into the range: by more digits, or by more numbers. */
  predicate Enters(p: string, min: string, max: Option<string>)
    requires Numeric(Stem(p)) && Numeric(min)
  {
    if EndsAtSeparator(p) then SeparatedEnters(Stem(p), min, max) else PrefixEnters(p, min, max)
  }

  lemma StemAbove(p: string, max: string)
    requires Numeric(max)
    ensures Compare(p, max) == Greater <==> Compare(Stem(p), max) == Greater
  {
    hide Compare, Numeric, IsSeparator;
    if EndsAtSeparator(p) {
      assert p == Stem(p) + [p[|p| - 1]];
      SeparatedAbove(Stem(p), p[|p| - 1], max);
    }
  }

  /** What is shared lies within the maximum of the stem. */
  lemma StemNotAbove(p: string, min: Option<string>, max: Option<string>)
    requires Numeric(Stem(p)) && (max.Some? ==> Numeric(max.value)) && SharesNumeric(p, min, max)
    ensures NotAbove(p, max)
  {
    hide Compare, Numeric;
    var rev :| Numeric(rev) && p <= rev && InRange(rev, min, max);
    assert Stem(p) <= p <= rev;
    SharedNotAbove(Stem(p), min, max, rev);
    if max.Some? {
      StemAbove(p, max.value);
    }
  }

  /** Below the minimum: an extension lies in the range exactly when the prefix enters it. */
  lemma EntersWhenBelow(p: string, min: string, max: Option<string>)
    requires Numeric(Stem(p)) && NumericBounds(Some(min), max) && Compare(p, min) == Less
    ensures SharesNumeric(p, Some(min), max) <==> Enters(p, min, max)
  {
    hide Compare, Numeric, PrefixEnters, SharesNumeric, Segments, At, IsSeparator;
    if EndsAtSeparator(p) {
      var q := Stem(p);
      assert p == q + [p[|p| - 1]];
      SeparatedSharesExactly(q, p[|p| - 1], Some(min), max);
      if Compare(q, min) != Less {
        StemAbove(p, min);
        EqualAgrees(q, min);
        SameMaximum(q, min, max);
      }
    } else {
      SharesExactly(p, Some(min), max);
    }
  }

  lemma EqualAgrees(q: string, min: string)
    requires Numeric(q) && Numeric(min) && Compare(q, min) == Equal
    ensures forall i :: 0 <= i < |Segments(q)| ==> At(Segments(q), i) == At(Segments(min), i)
  {
    hide Compare, ParseU64, Segments;
    CompareIsVectorOrder(q, min);
  }

  lemma SameMaximum(q: string, min: string, max: Option<string>)
    requires Numeric(q) && NumericBounds(Some(min), max) && Compare(q, min) == Equal
    ensures NotAbove(q, max) <==> NotAbove(min, max)
  {
    hide Compare, Numeric;
    CompareIsAntisymmetric(q, min);
    if max.Some? {
      if AtMost(q, max.value) {
        NumericTransitive(min, q, max.value);
      }
      if AtMost(min, max.value) {
        NumericTransitive(q, min, max.value);
      }
    }
  }
}
