/**
 The compatibility rule compiler: patterns, rules, conflict and shadow
 rejection, the compiled table, and what the table resolves.
 */
module Compat {
  import opened Wrappers
  import opened Revisions
  import opened RevisionPrefixes
  import opened Text

  datatype ModelFamily = Claude | Gpt | Gemini | DeepSeek | Llama | Qwen | Mistral | CustomFamily(name: string)
  datatype ModelClass = Flagship | Fast | Reasoning | Coding | Embedding | VisionOnly | CustomClass(name: string)
  datatype TriState = Supported | Unsupported | Unknown
  datatype NativeToolCost = Free | Costly | UnknownCost

  datatype ProviderCapability =
    | AuthRefresh | Streaming | SimpleStreaming | TokenCount | UsageQuery
    | ModelDiscovery | Embeddings | ImageVideoGeneration | Search | RemoteCompaction
    | ConstrainedSampling | NativeToolChoice | DeveloperRole | MidSessionSystemPrompts | DialectParsing

  /** What a rule can look at in a model: its route, its lineage, its revision, its class. */
  datatype ModelIdentifier = ModelIdentifier(
    host: string,
    provider: string,
    family: ModelFamily,
    revision: Option<string>,
    modelClass: ModelClass)

  // ----- Revision patterns ---------------------------------------------------

  datatype RevisionPattern =
    | Exact(revision: string)
    | Prefix(prefix: string)
    | Range(min: Option<string>, max: Option<string>)
    | Wildcard
  {
    predicate Matches(rev: Option<string>) {
      match this
      case Wildcard => true
      case Exact(expected) => rev.Some? && expected == rev.value
      case Prefix(p) => rev.Some? && p <= rev.value
      case Range(_, _) => rev.Some? && Within(rev.value)
    }

    predicate Within(rev: string)
      requires Range?
    {
      InRange(rev, min, max)
    }

    predicate Overlaps(other: RevisionPattern) {
      match (this, other)
      case (Wildcard, _) => true
      case (_, Wildcard) => true
      case (Exact(a), Exact(b)) => a == b
      case (Exact(a), Prefix(p)) => p <= a
      case (Prefix(p), Exact(a)) => p <= a
      case (Prefix(p1), Prefix(p2)) => p2 <= p1 || p1 <= p2
      case (Exact(a), Range(_, _)) => other.Within(a)
      case (Range(_, _), Exact(a)) => this.Within(a)
      case (Range(min1, max1), Range(min2, max2)) =>
        !Beyond(min1, max2) && !Beyond(min2, max1)
      case (Prefix(p), Range(lo, hi)) => PrefixMeets(p, lo, hi)
      case (Range(lo, hi), Prefix(p)) => PrefixMeets(p, lo, hi)
    }

    predicate Covers(other: RevisionPattern) {
      match (this, other)
      case (Wildcard, _) => true
      case (Exact(a), Exact(b)) => a == b
      case (Prefix(p), Exact(b)) => p <= b
      case (Prefix(p1), Prefix(p2)) => p1 <= p2
      case (Range(_, _), Exact(b)) => this.Within(b)
      case (Range(min1, max1), Range(min2, max2)) =>
        && (min1.Some? ==> min2.Some? && Compare(min2.value, min1.value) != Less)
        && (max1.Some? ==> max2.Some? && Compare(max2.value, max1.value) != Greater)
      case _ => false
    }
  }

  predicate AboveMax(p: string, max: Option<string>) {
    max.Some? && Compare(p, max.value) == Greater && !(p <= max.value)
  }

  predicate BelowMin(p: string, min: Option<string>) {
    min.Some? && Compare(p, min.value) == Less && !(p <= min.value)
  }

  predicate PrefixMeets(p: string, min: Option<string>, max: Option<string>) {
    !AboveMax(p, max) && !BelowMin(p, min)
  }

  /** The lower end of one range is beyond the upper end of another. */
  predicate Beyond(min: Option<string>, max: Option<string>) {
    min.Some? && max.Some? && Compare(min.value, max.value) == Greater
  }

  // ----- Rules ---------------------------------------------------------------

  datatype CompatRule = CompatRule(
    id: string,
    host: Option<string>,
    provider: Option<string>,
    family: Option<ModelFamily>,
    revision: Option<RevisionPattern>,
    modelClass: Option<ModelClass>,
    capabilities: map<ProviderCapability, TriState>,
    nativeToolCost: Option<NativeToolCost>,
    priority: int)
  {
    function SpecificityLevel(): nat {
      if host.Some? && revision.Some? && revision.value.Exact? then 6
      else if host.Some? && family.Some? then 5
      else if host.Some? then 4
      else if provider.Some? && revision.Some? then 3
      else if provider.Some? && family.Some? then 2
      else if modelClass.Some? then 1
      else 0
    }

    predicate Matches(m: ModelIdentifier) {
      && (host.Some? ==> EqIgnoreAsciiCase(m.host, host.value))
      && (provider.Some? ==> EqIgnoreAsciiCase(m.provider, provider.value))
      && (family.Some? ==> m.family == family.value)
      && (revision.Some? ==> revision.value.Matches(m.revision))
      && (modelClass.Some? ==> m.modelClass == modelClass.value)
    }

    predicate OverlapsCriteria(other: CompatRule) {
      && SpecificityLevel() == other.SpecificityLevel()
      && (host.Some? && other.host.Some? ==> EqIgnoreAsciiCase(host.value, other.host.value))
      && (provider.Some? && other.provider.Some? ==> EqIgnoreAsciiCase(provider.value, other.provider.value))
      && (family.Some? && other.family.Some? ==> family.value == other.family.value)
      && (modelClass.Some? && other.modelClass.Some? ==> modelClass.value == other.modelClass.value)
      && (revision.Some? && other.revision.Some? ==> revision.value.Overlaps(other.revision.value))
    }

    predicate Outranks(other: CompatRule) {
      SpecificityLevel() > other.SpecificityLevel()
      || (SpecificityLevel() == other.SpecificityLevel() && priority > other.priority)
    }

    predicate Shadows(other: CompatRule) {
      && id != other.id
      && Outranks(other)
      && (host.Some? ==> other.host.Some? && EqIgnoreAsciiCase(host.value, other.host.value))
      && (provider.Some? ==> other.provider.Some? && EqIgnoreAsciiCase(provider.value, other.provider.value))
      && (family.Some? ==> other.family.Some? && family.value == other.family.value)
      && (modelClass.Some? ==> other.modelClass.Some? && modelClass.value == other.modelClass.value)
      && (revision.Some? ==> other.revision.Some? && revision.value.Covers(other.revision.value))
      && (forall cap :: cap in other.capabilities ==> cap in capabilities)
      && (other.nativeToolCost.Some? ==> nativeToolCost.Some?)
    }

    /** Neither more specific nor of higher priority than the other. */
    predicate Ties(other: CompatRule) {
      SpecificityLevel() == other.SpecificityLevel() && priority == other.priority
    }
  }

  /** The two rules give different answers to something both answer. */
  predicate Disagree(a: CompatRule, b: CompatRule) {
    || (exists cap :: cap in a.capabilities && cap in b.capabilities && a.capabilities[cap] != b.capabilities[cap])
    || (a.nativeToolCost.Some? && b.nativeToolCost.Some? && a.nativeToolCost != b.nativeToolCost)
  }

  predicate Conflict(a: CompatRule, b: CompatRule) {
    a.id != b.id && a.Ties(b) && a.OverlapsCriteria(b) && Disagree(a, b)
  }

  predicate Compatible(a: CompatRule, b: CompatRule) {
    !Conflict(a, b) && !a.Shadows(b) && !b.Shadows(a)
  }

  predicate RangeOk(r: CompatRule) {
    r.revision.Some? && r.revision.value.Range? && r.revision.value.min.Some? && r.revision.value.max.Some? ==>
      Compare(r.revision.value.min.value, r.revision.value.max.value) != Greater
  }

  datatype CompatError =
    | InvalidRevisionRange
    | ConflictingEqualSpecificity(ruleA: string, ruleB: string)
    | UnreachableRule(id: string, shadowedBy: string)

  class CompatCompiler {
    var rules: seq<CompatRule>

    /** The rules held so far were each accepted next to the ones before. */
    ghost predicate Valid()
      reads this
    {
      Accepted(rules)
    }

    constructor ()
      ensures Valid() && rules == []
    {
      rules := [];
    }

    method AddRule(rule: CompatRule) returns (error: Option<CompatError>)
      requires Valid()
      modifies this
      ensures Valid()
      ensures error.None? <==> RangeOk(rule) && forall i :: 0 <= i < |old(rules)| ==> Compatible(old(rules)[i], rule)
      ensures error.None? ==> rules == old(rules) + [rule]
      ensures error.Some? ==> rules == old(rules)
      ensures error.Some? && error.value.InvalidRevisionRange? ==> !RangeOk(rule)
      ensures error.Some? && error.value.ConflictingEqualSpecificity? ==>
        exists e :: e in old(rules) && Conflict(e, rule) && error.value == ConflictingEqualSpecificity(e.id, rule.id)
      ensures error.Some? && error.value.UnreachableRule? ==>
        exists e :: e in old(rules) &&
          ((e.Shadows(rule) && error.value == UnreachableRule(rule.id, e.id)) ||
           (rule.Shadows(e) && error.value == UnreachableRule(e.id, rule.id)))
    {
      hide CompatRule.Shadows, Conflict, RangeOk;
      if !RangeOk(rule) {
        return Some(InvalidRevisionRange);
      }
      for i := 0 to |rules|
        invariant rules == old(rules)
        invariant forall j :: 0 <= j < i ==> Compatible(rules[j], rule)
      {
        var existing := rules[i];
        if Conflict(existing, rule) {
          return Some(ConflictingEqualSpecificity(existing.id, rule.id));
        }
        if existing.Shadows(rule) {
          return Some(UnreachableRule(rule.id, existing.id));
        }
        if rule.Shadows(existing) {
          return Some(UnreachableRule(existing.id, rule.id));
        }
      }
      rules := rules + [rule];
      error := None;
    }

    /** The table holds exactly the accepted rules, in precedence order. */
    method Compile() returns (table: seq<CompatRule>)
      ensures table == SortRules(rules)
      ensures Sorted(table) && multiset(table) == multiset(rules)
    {
      SortRulesSorts(rules);
      table := SortRules(rules);
    }
  }

  // ----- Acceptance does not depend on order ---------------------------------

  /** Adding the rules one after the other succeeds every time. */
  predicate Accepted(rules: seq<CompatRule>) {
    forall k :: 0 <= k < |rules| ==>
      RangeOk(rules[k]) && forall i :: 0 <= i < k ==> Compatible(rules[i], rules[k])
  }

  lemma OverlapsIsSymmetric(a: RevisionPattern, b: RevisionPattern)
    ensures a.Overlaps(b) <==> b.Overlaps(a)
  {
  }

  lemma CompatibleIsSymmetric(a: CompatRule, b: CompatRule)
    ensures Compatible(a, b) <==> Compatible(b, a)
  {
    if a.revision.Some? && b.revision.Some? {
      OverlapsIsSymmetric(a.revision.value, b.revision.value);
    }
  }

  /** A rule list is accepted exactly when its rules are sound one by one and compatible two by two. */
  lemma AcceptedIsPairwise(rules: seq<CompatRule>)
    ensures Accepted(rules) <==>
      (forall r :: r in rules ==> RangeOk(r)) && (forall a, b :: a in rules && b in rules ==> Compatible(a, b))
  {
    hide Compatible, RangeOk;
    if Accepted(rules) {
      forall a, b | a in rules && b in rules
        ensures Compatible(a, b)
      {
        var i :| 0 <= i < |rules| && rules[i] == a;
        var j :| 0 <= j < |rules| && rules[j] == b;
        CompatibleIsSymmetric(a, b);
        CompatibleWithItself(a);
      }
    }
  }

  lemma CompatibleWithItself(a: CompatRule)
    ensures Compatible(a, a)
  {
  }

  /** Whether a rule list is accepted never depends on the order it is added in. */
  lemma AcceptanceIsOrderFree(rules: seq<CompatRule>, reordered: seq<CompatRule>)
    requires multiset(rules) == multiset(reordered)
    ensures Accepted(rules) <==> Accepted(reordered)
  {
    AcceptedIsPairwise(rules);
    AcceptedIsPairwise(reordered);
    hide Compatible, RangeOk, Accepted;
    assert forall r :: r in rules <==> r in multiset(rules);
    assert forall r :: r in reordered <==> r in multiset(reordered);
  }

  // ----- The compiled table --------------------------------------------------

  /** The compiled order: most specific first, then highest priority, then by id. */
  predicate Precedes(a: CompatRule, b: CompatRule) {
    a.Outranks(b) || (a.Ties(b) && CompareText(a.id, b.id) != Greater)
  }

  predicate Sorted(table: seq<CompatRule>) {
    forall i, j :: 0 <= i < j < |table| ==> Precedes(table[i], table[j])
  }

  function Insert(table: seq<CompatRule>, rule: CompatRule): seq<CompatRule> {
    if table == [] then [rule]
    else if Precedes(table[0], rule) then [table[0]] + Insert(table[1..], rule)
    else [rule] + table
  }

  /** A stable sort: equal rules keep the order they were added in. */
  function SortRules(rules: seq<CompatRule>): seq<CompatRule> {
    if rules == [] then [] else Insert(SortRules(rules[..|rules| - 1]), rules[|rules| - 1])
  }

  lemma PrecedesIsTotal(a: CompatRule, b: CompatRule)
    ensures Precedes(a, b) || Precedes(b, a)
    ensures Precedes(a, b) && Precedes(b, a) ==> a.id == b.id && a.Ties(b)
  {
    CompareTextAntisymmetric(a.id, b.id);
  }

  lemma PrecedesIsTransitive(a: CompatRule, b: CompatRule, c: CompatRule)
    requires Precedes(a, b) && Precedes(b, c)
    ensures Precedes(a, c)
  {
    hide CompareText;
    if a.Ties(b) && b.Ties(c) {
      TextTransitive(a.id, b.id, c.id);
    }
  }

  lemma {:induction false} InsertKeeps(table: seq<CompatRule>, rule: CompatRule)
    requires Sorted(table)
    ensures Sorted(Insert(table, rule))
    ensures multiset(Insert(table, rule)) == multiset(table) + multiset{rule}
  {
    hide Precedes;
    if table == [] {
    } else if Precedes(table[0], rule) {
      var rest := table[1..];
      InsertKeeps(rest, rule);
      var grown := Insert(rest, rule);
      assert table == [table[0]] + rest;
      forall j | 0 <= j < |grown|
        ensures Precedes(table[0], grown[j])
      {
        assert grown[j] in multiset(rest) + multiset{rule};
        if grown[j] != rule {
          assert grown[j] in rest;
        }
      }
    } else {
      PrecedesIsTotal(table[0], rule);
      forall j | 0 <= j < |table|
        ensures Precedes(rule, table[j])
      {
        if j > 0 {
          PrecedesIsTransitive(rule, table[0], table[j]);
        }
      }
    }
  }

  /** Compiling arranges exactly the accepted rules in precedence order. */
  lemma {:induction false} SortRulesSorts(rules: seq<CompatRule>)
    ensures Sorted(SortRules(rules))
    ensures multiset(SortRules(rules)) == multiset(rules)
  {
    if rules != [] {
      var last := |rules| - 1;
      SortRulesSorts(rules[..last]);
      InsertKeeps(SortRules(rules[..last]), rules[last]);
      assert rules == rules[..last] + [rules[last]];
    }
  }

  /** The table's order cannot tell the two rules apart. */
  predicate Twins(a: CompatRule, b: CompatRule) {
    a.id == b.id && a.Ties(b)
  }

  /** No two different rules share their id, specificity and priority. */
  predicate NoTwins(rules: seq<CompatRule>) {
    forall a, b :: a in rules && b in rules && Twins(a, b) ==> a == b
  }

  /** Without twins a rule list has one sorted arrangement. */
  lemma {:induction false} SortedIsUnique(s: seq<CompatRule>, t: seq<CompatRule>)
    requires Sorted(s) && Sorted(t) && multiset(s) == multiset(t) && NoTwins(s)
    ensures s == t
  {
    hide Precedes;
    assert |s| == |multiset(s)| == |multiset(t)| == |t|;
    if s != [] {
      SortedHeadsAgree(s, t);
      assert s == [s[0]] + s[1..] && t == [t[0]] + t[1..];
      hide Sorted, NoTwins;
      assert multiset(s[1..]) == multiset(s) - multiset{s[0]};
      assert multiset(t[1..]) == multiset(t) - multiset{t[0]};
      SortedTail(s);
      SortedTail(t);
      SortedIsUnique(s[1..], t[1..]);
    }
  }

  lemma SortedTail(s: seq<CompatRule>)
    requires s != []
    ensures Sorted(s) ==> Sorted(s[1..])
    ensures NoTwins(s) ==> NoTwins(s[1..])
  {
    hide Precedes;
    assert forall a :: a in s[1..] ==> a in s;
  }

  lemma SortedHeadsAgree(s: seq<CompatRule>, t: seq<CompatRule>)
    requires s != [] && t != [] && Sorted(s) && Sorted(t) && multiset(s) == multiset(t) && NoTwins(s)
    ensures s[0] == t[0]
  {
    hide Precedes;
    assert s[0] in multiset(t) && t[0] in multiset(s);
    var i :| 0 <= i < |t| && t[i] == s[0];
    var j :| 0 <= j < |s| && s[j] == t[0];
    if i != 0 && j != 0 {
      assert Precedes(t[0], t[i]) && Precedes(s[0], s[j]);
      PrecedesIsTotal(s[0], t[0]);
      assert Twins(s[0], t[0]);
    }
  }

  lemma CompileWithoutTwins(rules: seq<CompatRule>, reordered: seq<CompatRule>)
    requires multiset(rules) == multiset(reordered) && NoTwins(rules)
    ensures SortRules(rules) == SortRules(reordered)
  {
    hide Sorted, SortRules, Twins;
    SortRulesSorts(rules);
    SortRulesSorts(reordered);
    var table := SortRules(rules);
    forall a | a in table
      ensures a in rules
    {
      assert a in multiset(table);
    }
    SortedIsUnique(table, SortRules(reordered));
  }

  /** The twins of a rule, in the order they stand in. */
  function TwinsOf(rules: seq<CompatRule>, k: CompatRule): seq<CompatRule> {
    if rules == [] then [] else (if Twins(rules[0], k) then [rules[0]] else []) + TwinsOf(rules[1..], k)
  }

  lemma {:induction false} TwinsAppend(rules: seq<CompatRule>, r: CompatRule, k: CompatRule)
    ensures TwinsOf(rules + [r], k) == TwinsOf(rules, k) + if Twins(r, k) then [r] else []
  {
    hide Twins;
    if rules == [] {
      assert rules + [r] == [r] && [r][1..] == [];
    } else {
      assert (rules + [r])[1..] == rules[1..] + [r];
      TwinsAppend(rules[1..], r, k);
    }
  }

  lemma {:induction false} NoTwinsThere(rules: seq<CompatRule>, k: CompatRule)
    requires forall t :: t in rules ==> !Twins(t, k)
    ensures TwinsOf(rules, k) == []
  {
    hide Twins;
    if rules != [] {
      NoTwinsThere(rules[1..], k);
    }
  }

  /** Twins stand on the same side of any third rule. */
  lemma TwinsPrecedeAlike(a: CompatRule, r: CompatRule, k: CompatRule)
    requires Twins(r, k)
    ensures Precedes(a, r) <==> Precedes(a, k)
  {
  }

  lemma {:induction false} InsertIsStable(table: seq<CompatRule>, rule: CompatRule, k: CompatRule)
    requires Sorted(table)
    ensures TwinsOf(Insert(table, rule), k) == TwinsOf(table, k) + if Twins(rule, k) then [rule] else []
  {
    hide Precedes, Twins;
    if table == [] {
      assert [rule][1..] == [];
    } else if Precedes(table[0], rule) {
      var grown := Insert(table[1..], rule);
      InsertIsStable(table[1..], rule, k);
      assert ([table[0]] + grown)[1..] == grown;
    } else {
      assert ([rule] + table)[1..] == table;
      if Twins(rule, k) {
        forall t | t in table
          ensures !Twins(t, k)
        {
          var i :| 0 <= i < |table| && table[i] == t;
          PrecedesItself(t);
          assert Precedes(table[0], t);
          TwinsPrecedeAlike(table[0], rule, k);
          if Twins(t, k) {
            TwinsPrecedeAlike(table[0], t, k);
          }
        }
        NoTwinsThere(table, k);
      }
    }
  }

  lemma PrecedesItself(a: CompatRule)
    ensures Precedes(a, a)
  {
    CompareTextAntisymmetric(a.id, a.id);
  }

  /** Compiling keeps twins in the order they were added in. */
  lemma {:induction false} CompileIsStable(rules: seq<CompatRule>, k: CompatRule)
    ensures TwinsOf(SortRules(rules), k) == TwinsOf(rules, k)
  {
    hide Insert, Sorted, Twins;
    if rules != [] {
      var last := |rules| - 1;
      CompileIsStable(rules[..last], k);
      SortRulesSorts(rules[..last]);
      InsertIsStable(SortRules(rules[..last]), rules[last], k);
      TwinsAppend(rules[..last], rules[last], k);
      assert rules == rules[..last] + [rules[last]];
    }
  }

  /** The list with one of its rules moved to the front. */
  function InFront(rules: seq<CompatRule>, i: nat): seq<CompatRule>
    requires i < |rules|
  {
    [rules[i]] + (rules[..i] + rules[i + 1..])
  }

  lemma InFrontReorders(rules: seq<CompatRule>, i: nat)
    requires i < |rules|
    ensures multiset(InFront(rules, i)) == multiset(rules)
  {
    assert rules == rules[..i] + [rules[i]] + rules[i + 1..];
  }

  /** A rule in front is the first of its twins in the compiled table. */
  lemma FrontTwinLeads(rules: seq<CompatRule>, i: nat, k: CompatRule)
    requires i < |rules| && Twins(rules[i], k)
    ensures TwinsOf(SortRules(InFront(rules, i)), k) != [] && TwinsOf(SortRules(InFront(rules, i)), k)[0] == rules[i]
  {
    hide SortRules, Twins;
    CompileIsStable(InFront(rules, i), k);
  }

  /** Twins that differ make two orders compile to different tables. */
  lemma TwinsShow(rules: seq<CompatRule>, i: nat, j: nat)
    requires i < |rules| && j < |rules| && Twins(rules[i], rules[j]) && rules[i] != rules[j]
    ensures SortRules(InFront(rules, i)) != SortRules(InFront(rules, j))
  {
    hide SortRules, InFront, TwinsOf;
    FrontTwinLeads(rules, i, rules[j]);
    FrontTwinLeads(rules, j, rules[j]);
  }

  /**
   The order the rules are added in never shows in the compiled table, exactly
   when no two different rules share their id, specificity and priority.
   */
  lemma CompileIsOrderFree(rules: seq<CompatRule>)
    ensures NoTwins(rules) <==>
      forall reordered :: multiset(reordered) == multiset(rules) ==> SortRules(reordered) == SortRules(rules)
  {
    hide SortRules, Twins, InFront;
    if NoTwins(rules) {
      forall reordered | multiset(reordered) == multiset(rules)
        ensures SortRules(reordered) == SortRules(rules)
      {
        CompileWithoutTwins(rules, reordered);
      }
    } else {
      var a, b :| a in rules && b in rules && Twins(a, b) && a != b;
      var i :| 0 <= i < |rules| && rules[i] == a;
      var j :| 0 <= j < |rules| && rules[j] == b;
      TwinsShow(rules, i, j);
      InFrontReorders(rules, i);
      InFrontReorders(rules, j);
    }
  }

  // ----- Resolution ----------------------------------------------------------

  const ALL_CAPABILITIES: seq<ProviderCapability> := [
    AuthRefresh, Streaming, SimpleStreaming, TokenCount, UsageQuery,
    ModelDiscovery, Embeddings, ImageVideoGeneration, Search, RemoteCompaction,
    ConstrainedSampling, NativeToolChoice, DeveloperRole, MidSessionSystemPrompts, DialectParsing]

  lemma EveryCapabilityIsListed(cap: ProviderCapability)
    ensures cap in ALL_CAPABILITIES
  {
    var k := match cap
      case AuthRefresh => 0 case Streaming => 1 case SimpleStreaming => 2 case TokenCount => 3 case UsageQuery => 4
      case ModelDiscovery => 5 case Embeddings => 6 case ImageVideoGeneration => 7 case Search => 8
      case RemoteCompaction => 9 case ConstrainedSampling => 10 case NativeToolChoice => 11
      case DeveloperRole => 12 case MidSessionSystemPrompts => 13 case DialectParsing => 14;
    assert ALL_CAPABILITIES[k] == cap;
  }

  datatype CapabilityProfile = CapabilityProfile(
    capabilities: map<ProviderCapability, TriState>,
    nativeToolCost: NativeToolCost)

  /** What the first matching rule with an opinion on the capability says. */
  function FirstState(table: seq<CompatRule>, m: ModelIdentifier, cap: ProviderCapability): Option<TriState> {
    if table == [] then None
    else if table[0].Matches(m) && cap in table[0].capabilities then Some(table[0].capabilities[cap])
    else FirstState(table[1..], m, cap)
  }

  function FirstCost(table: seq<CompatRule>, m: ModelIdentifier): Option<NativeToolCost> {
    if table == [] then None
    else if table[0].Matches(m) && table[0].nativeToolCost.Some? then table[0].nativeToolCost
    else FirstCost(table[1..], m)
  }

  function Matching(table: seq<CompatRule>, m: ModelIdentifier): seq<CompatRule> {
    if table == [] then []
    else (if table[0].Matches(m) then [table[0]] else []) + Matching(table[1..], m)
  }

  /** Filtering the table first changes no answer. */
  lemma {:induction false} MatchingAnswersAlike(table: seq<CompatRule>, m: ModelIdentifier)
    ensures forall r :: r in Matching(table, m) ==> r.Matches(m)
    ensures forall cap :: FirstState(Matching(table, m), m, cap) == FirstState(table, m, cap)
    ensures FirstCost(Matching(table, m), m) == FirstCost(table, m)
  {
    hide CompatRule.Matches;
    if table != [] {
      MatchingAnswersAlike(table[1..], m);
      var rest := Matching(table[1..], m);
      if table[0].Matches(m) {
        assert Matching(table, m) == [table[0]] + rest;
        assert ([table[0]] + rest)[1..] == rest;
      } else {
        assert Matching(table, m) == rest;
      }
    }
  }

  method ResolveCapability(table: seq<CompatRule>, m: ModelIdentifier, cap: ProviderCapability) returns (state: TriState)
    ensures state == FirstState(table, m, cap).GetOr(Unknown)
  {
    for i := 0 to |table|
      invariant FirstState(table, m, cap) == FirstState(table[i..], m, cap)
    {
      if table[i].Matches(m) && cap in table[i].capabilities {
        return table[i].capabilities[cap];
      }
    }
    state := Unknown;
  }

  /** Every capability of the profile is the one `ResolveCapability` gives. */
  method Resolve(table: seq<CompatRule>, m: ModelIdentifier) returns (profile: CapabilityProfile)
    ensures forall cap ::
      cap in profile.capabilities && profile.capabilities[cap] == FirstState(table, m, cap).GetOr(Unknown)
    ensures profile.nativeToolCost == FirstCost(table, m).GetOr(UnknownCost)
  {
    hide CompatRule.Matches, FirstState, FirstCost, Matching;
    var matched := Matching(table, m);
    MatchingAnswersAlike(table, m);
    var capabilities := FirstOfEach(matched, m);
    var cost := FirstCostOf(matched, m);
    profile := CapabilityProfile(capabilities, cost);
  }

  method FirstOfEach(matched: seq<CompatRule>, m: ModelIdentifier) returns (states: map<ProviderCapability, TriState>)
    requires forall r :: r in matched ==> r.Matches(m)
    ensures forall cap :: cap in states && states[cap] == FirstState(matched, m, cap).GetOr(Unknown)
  {
    hide CompatRule.Matches, FirstState;
    var caps := ALL_CAPABILITIES;
    states := map[];
    for k := 0 to |caps|
      invariant forall j :: 0 <= j < k ==> caps[j] in states
      invariant forall cap :: cap in states ==> states[cap] == FirstState(matched, m, cap).GetOr(Unknown)
    {
      var resolved := FirstOf(matched, m, caps[k]);
      states := states[caps[k] := resolved];
    }
    forall cap: ProviderCapability
      ensures cap in states
    {
      EveryCapabilityIsListed(cap);
    }
  }

  method FirstCostOf(matched: seq<CompatRule>, m: ModelIdentifier) returns (cost: NativeToolCost)
    requires forall r :: r in matched ==> r.Matches(m)
    ensures cost == FirstCost(matched, m).GetOr(UnknownCost)
  {
    hide CompatRule.Matches;
    for i := 0 to |matched|
      invariant FirstCost(matched, m) == FirstCost(matched[i..], m)
    {
      if matched[i].nativeToolCost.Some? {
        return matched[i].nativeToolCost.value;
      }
    }
    cost := UnknownCost;
  }

  method FirstOf(matched: seq<CompatRule>, m: ModelIdentifier, cap: ProviderCapability) returns (state: TriState)
    requires forall r :: r in matched ==> r.Matches(m)
    ensures state == FirstState(matched, m, cap).GetOr(Unknown)
  {
    for i := 0 to |matched|
      invariant FirstState(matched, m, cap) == FirstState(matched[i..], m, cap)
    {
      if cap in matched[i].capabilities {
        return matched[i].capabilities[cap];
      }
    }
    state := Unknown;
  }

  // ----- Overlap is complete -------------------------------------------------

  /** This minimum, revision and maximum are in order: a revision between the bounds puts one below the other. */
  predicate BoundsComparable(min: Option<string>, rev: string, max: Option<string>) {
    min.Some? && max.Some? ==> Chainable(min.value, rev, max.value)
  }

  /** What keeps the two ranges apart, if anything does, is comparable with the revision. */
  predicate RangesComparable(a: RevisionPattern, b: RevisionPattern, rev: string)
    requires a.Range? && b.Range?
  {
    if Beyond(a.min, b.max) then BoundsComparable(a.min, rev, b.max)
    else Beyond(b.min, a.max) ==> BoundsComparable(b.min, rev, a.max)
  }

  /** Numbers decide what keeps prefix and range apart, and a minimum that does is out of the prefix's reach. */
  predicate PrefixComparable(p: string, min: Option<string>, max: Option<string>, rev: string) {
    && Numeric(rev)
    && if AboveMax(p, max) then Numeric(Stem(p)) && NumericBounds(None, max)
       else BelowMin(p, min) ==> Numeric(Stem(p)) && NumericBounds(min, max) && !Enters(p, min.value, max)
  }

  /** The overlap test of these patterns does not miss this revision. */
  predicate Comparable(a: RevisionPattern, b: RevisionPattern, rev: Option<string>) {
    rev.Some? && !a.Overlaps(b) ==>
      match (a, b)
      case (Range(_, _), Range(_, _)) => RangesComparable(a, b, rev.value)
      case (Prefix(p), Range(min, max)) => PrefixComparable(p, min, max, rev.value)
      case (Range(min, max), Prefix(p)) => PrefixComparable(p, min, max, rev.value)
      case _ => true
  }

  predicate RulesComparable(a: CompatRule, b: CompatRule, m: ModelIdentifier) {
    a.revision.Some? && b.revision.Some? ==> Comparable(a.revision.value, b.revision.value, m.revision)
  }

  lemma PrefixesOfOne(p: string, q: string, s: string)
    requires p <= s && q <= s
    ensures p <= q || q <= p
  {
  }

  /** A revision not below a minimum and not above a maximum puts the minimum below the maximum. */
  lemma RangesMeet(min: string, max: string, rev: string)
    requires Chainable(min, rev, max)
    requires Compare(rev, min) != Less && Compare(rev, max) != Greater
    ensures Compare(min, max) != Greater
  {
    hide Compare, Chainable;
    CompareIsAntisymmetric(rev, min);
    ChainTransitive(min, rev, max);
  }

  lemma PrefixMeetsRange(p: string, min: Option<string>, max: Option<string>, rev: string)
    requires p <= rev && InRange(rev, min, max) && PrefixComparable(p, min, max, rev)
    ensures PrefixMeets(p, min, max)
  {
    hide Compare, Numeric, Enters, Stem;
    if AboveMax(p, max) {
      assert SharesNumeric(p, None, max);
      StemNotAbove(p, None, max);
    } else if BelowMin(p, min) {
      assert SharesNumeric(p, min, max);
      EntersWhenBelow(p, min.value, max);
    }
  }

  /** Patterns that both match a revision overlap. */
  lemma PatternsMeet(a: RevisionPattern, b: RevisionPattern, rev: Option<string>)
    requires a.Matches(rev) && b.Matches(rev) && Comparable(a, b, rev)
    ensures a.Overlaps(b)
  {
    hide Compare, Numeric, PrefixEnters;
    if a.Range? && b.Range? && !a.Overlaps(b) {
      if Beyond(a.min, b.max) {
        RangesMeet(a.min.value, b.max.value, rev.value);
      } else {
        RangesMeet(b.min.value, a.max.value, rev.value);
      }
    } else if a.Prefix? && b.Prefix? {
      PrefixesOfOne(a.prefix, b.prefix, rev.value);
    } else if a.Prefix? && b.Range? && !a.Overlaps(b) {
      PrefixMeetsRange(a.prefix, b.min, b.max, rev.value);
    } else if a.Range? && b.Prefix? && !a.Overlaps(b) {
      PrefixMeetsRange(b.prefix, a.min, a.max, rev.value);
    }
  }

  /**
   Among numeric prefixes, with or without a separator behind them, and numeric
   bounds the overlap test denies a revision they share exactly when the minimum
   denies a prefix that enters the range.
   */
  lemma PrefixTestMisses(p: string, min: Option<string>, max: Option<string>)
    requires Numeric(Stem(p)) && NumericBounds(min, max)
    ensures SharesNumeric(p, min, max) && !Prefix(p).Overlaps(Range(min, max)) <==>
      BelowMin(p, min) && Enters(p, min.value, max)
  {
    hide Compare, Numeric, Enters, Stem, SharesNumeric;
    if SharesNumeric(p, min, max) {
      StemNotAbove(p, min, max);
    }
    if BelowMin(p, min) {
      EntersWhenBelow(p, min.value, max);
    }
  }

  lemma SameWhenBothEqual(model: string, a: string, b: string)
    requires EqIgnoreAsciiCase(model, a) && EqIgnoreAsciiCase(model, b)
    ensures EqIgnoreAsciiCase(a, b)
  {
  }

  /** Two equally specific rules that match one model overlap: the conflict check sees the pair. */
  lemma BothMatchOverlap(a: CompatRule, b: CompatRule, m: ModelIdentifier)
    requires a.Matches(m) && b.Matches(m) && RulesComparable(a, b, m)
    requires a.SpecificityLevel() == b.SpecificityLevel()
    ensures a.OverlapsCriteria(b)
  {
    hide EqIgnoreAsciiCase, RevisionPattern.Matches, RevisionPattern.Overlaps, Comparable, CompatRule.SpecificityLevel;
    if a.host.Some? && b.host.Some? {
      SameWhenBothEqual(m.host, a.host.value, b.host.value);
    }
    if a.provider.Some? && b.provider.Some? {
      SameWhenBothEqual(m.provider, a.provider.value, b.provider.value);
    }
    if a.revision.Some? && b.revision.Some? {
      PatternsMeet(a.revision.value, b.revision.value, m.revision);
    }
  }

  /** In an accepted list, tied rules that match the same model never disagree. */
  lemma TiedRulesAgree(rules: seq<CompatRule>, a: CompatRule, b: CompatRule, m: ModelIdentifier)
    requires Accepted(rules) && NoTwins(rules) && a in rules && b in rules
    requires a.Matches(m) && b.Matches(m) && a.Ties(b) && RulesComparable(a, b, m)
    ensures !Disagree(a, b) || a == b
  {
    hide Accepted, CompatRule.OverlapsCriteria, CompatRule.Matches, Disagree, RangeOk, RulesComparable;
    BothMatchOverlap(a, b, m);
    AcceptedIsPairwise(rules);
    assert Compatible(a, b);
  }

  /** The rule the first answer comes from. */
  lemma {:induction false} FirstStateSource(table: seq<CompatRule>, m: ModelIdentifier, cap: ProviderCapability) returns (i: nat)
    requires FirstState(table, m, cap).Some?
    ensures i < |table| && table[i].Matches(m) && cap in table[i].capabilities
    ensures FirstState(table, m, cap).value == table[i].capabilities[cap]
    ensures forall j :: 0 <= j < i ==> !(table[j].Matches(m) && cap in table[j].capabilities)
  {
    hide CompatRule.Matches;
    if table[0].Matches(m) && cap in table[0].capabilities {
      i := 0;
    } else {
      var k := FirstStateSource(table[1..], m, cap);
      i := k + 1;
    }
  }

  lemma {:induction false} FirstStateExists(table: seq<CompatRule>, m: ModelIdentifier, cap: ProviderCapability, i: nat)
    requires i < |table| && table[i].Matches(m) && cap in table[i].capabilities
    ensures FirstState(table, m, cap).Some?
  {
    hide CompatRule.Matches;
    if i > 0 {
      FirstStateExists(table[1..], m, cap, i - 1);
    }
  }

  /** No matching rule with an opinion on the capability is above this one. */
  ghost predicate Wins(rules: seq<CompatRule>, r: CompatRule, m: ModelIdentifier, cap: ProviderCapability) {
    && r in rules && r.Matches(m) && cap in r.capabilities
    && forall o :: o in rules && o.Matches(m) && cap in o.capabilities ==> !o.Outranks(r)
  }

  /**
   The compiled table answers with any of the highest-ranked matching rules:
   they all agree, so neither the id nor the order of the rules decides a value.
   */
  lemma RankDecides(rules: seq<CompatRule>, r: CompatRule, m: ModelIdentifier, cap: ProviderCapability)
    requires Accepted(rules) && NoTwins(rules) && Wins(rules, r, m, cap)
    requires forall o :: o in rules && o.Ties(r) && o.Matches(m) ==> RulesComparable(o, r, m)
    ensures FirstState(SortRules(rules), m, cap) == Some(r.capabilities[cap])
  {
    hide Accepted, CompatRule.Matches, SortRules, FirstState, RulesComparable, CompatRule.SpecificityLevel;
    SortRulesSorts(rules);
    var table := SortRules(rules);
    assert r in multiset(table);
    var at :| 0 <= at < |table| && table[at] == r;
    FirstStateExists(table, m, cap, at);
    var i := FirstStateSource(table, m, cap);
    var first := table[i];
    assert first in multiset(rules);
    assert first in rules;
    assert i <= at;
    assert first == r || Precedes(first, r);
    assert !first.Outranks(r);
    assert first.Ties(r);
    TiedRulesAgree(rules, first, r, m);
  }

  lemma {:induction false} FirstCostIsFirst(table: seq<CompatRule>, m: ModelIdentifier, at: nat) returns (i: nat)
    requires at < |table| && table[at].Matches(m) && table[at].nativeToolCost.Some?
    ensures i <= at && table[i].Matches(m) && table[i].nativeToolCost.Some?
    ensures FirstCost(table, m) == table[i].nativeToolCost
  {
    hide CompatRule.Matches;
    if table[0].Matches(m) && table[0].nativeToolCost.Some? {
      i := 0;
    } else {
      var k := FirstCostIsFirst(table[1..], m, at - 1);
      i := k + 1;
    }
  }

  /** The same for the tool cost. */
  lemma RankDecidesCost(rules: seq<CompatRule>, r: CompatRule, m: ModelIdentifier)
    requires Accepted(rules) && NoTwins(rules) && r in rules && r.Matches(m) && r.nativeToolCost.Some?
    requires forall o :: o in rules && o.Matches(m) && o.nativeToolCost.Some? ==> !o.Outranks(r)
    requires forall o :: o in rules && o.Ties(r) && o.Matches(m) ==> RulesComparable(o, r, m)
    ensures FirstCost(SortRules(rules), m) == r.nativeToolCost
  {
    hide Accepted, CompatRule.Matches, SortRules, FirstCost, RulesComparable, CompatRule.SpecificityLevel;
    SortRulesSorts(rules);
    var table := SortRules(rules);
    assert r in multiset(table);
    var at :| 0 <= at < |table| && table[at] == r;
    var i := FirstCostIsFirst(table, m, at);
    var first := table[i];
    assert first in multiset(rules);
    assert first in rules;
    assert first == r || Precedes(first, r);
    assert !first.Outranks(r);
    assert first.Ties(r);
    TiedRulesAgree(rules, first, r, m);
  }

  // ----- What outranks what --------------------------------------------------

  /**
   The ladder, read off what rules name. A rule that names a host is more specific
   than one that names none. Of two that do, an exact revision decides, then a
   family. Of two that do not, the first of these that only one has: provider with
   revision, provider with family, class.
   */
  predicate MoreSpecific(a: CompatRule, b: CompatRule) {
    if a.host.Some? != b.host.Some? then a.host.Some?
    else if a.host.Some? then
      if NamesExact(a) != NamesExact(b) then NamesExact(a)
      else !NamesExact(a) && a.family.Some? && b.family.None?
    else if (a.provider.Some? && a.revision.Some?) != (b.provider.Some? && b.revision.Some?) then
      a.provider.Some? && a.revision.Some?
    else if a.provider.Some? && a.revision.Some? then false
    else if (a.provider.Some? && a.family.Some?) != (b.provider.Some? && b.family.Some?) then
      a.provider.Some? && a.family.Some?
    else if a.provider.Some? && a.family.Some? then false
    else a.modelClass.Some? && b.modelClass.None?
  }

  predicate NamesExact(r: CompatRule) {
    r.revision.Some? && r.revision.value.Exact?
  }

  /** Rank is specificity by the ladder, and among equally specific rules the higher priority. */
  lemma RankIsLadder(a: CompatRule, b: CompatRule)
    ensures a.Outranks(b) <==> MoreSpecific(a, b) || (!MoreSpecific(b, a) && a.priority > b.priority)
    ensures a.Ties(b) <==> !MoreSpecific(a, b) && !MoreSpecific(b, a) && a.priority == b.priority
  {
  }

  /** No other rule of the list that speaks to the question is above this one on the ladder. */
  ghost predicate TopOfLadder(rules: seq<CompatRule>, r: CompatRule, m: ModelIdentifier, cap: ProviderCapability) {
    && r in rules && r.Matches(m) && cap in r.capabilities
    && forall o :: o in rules && o.Matches(m) && cap in o.capabilities ==>
         !MoreSpecific(o, r) && (MoreSpecific(r, o) || o.priority <= r.priority)
  }

  /** The compiled table answers with a rule at the top of the ladder. */
  lemma LadderDecides(rules: seq<CompatRule>, r: CompatRule, m: ModelIdentifier, cap: ProviderCapability)
    requires Accepted(rules) && NoTwins(rules) && TopOfLadder(rules, r, m, cap)
    requires forall o :: o in rules && o.Ties(r) && o.Matches(m) ==> RulesComparable(o, r, m)
    ensures FirstState(SortRules(rules), m, cap) == Some(r.capabilities[cap])
  {
    hide Accepted, NoTwins, CompatRule.Matches, CompatRule.Ties, CompatRule.Outranks, SortRules, FirstState, RulesComparable, MoreSpecific;
    forall o | o in rules && o.Matches(m) && cap in o.capabilities
      ensures !o.Outranks(r)
    {
      RankIsLadder(o, r);
    }
    RankDecides(rules, r, m, cap);
  }

  /**
   Rules that name the model's host answer before all that name none, whatever
   their priorities: among them the most specific one decides.
   */
  lemma HostRulesDecide(rules: seq<CompatRule>, r: CompatRule, m: ModelIdentifier, cap: ProviderCapability)
    requires Accepted(rules) && NoTwins(rules) && r in rules && r.Matches(m) && cap in r.capabilities && r.host.Some?
    requires forall o :: o in rules && o.host.Some? && o.Matches(m) && cap in o.capabilities ==>
      !MoreSpecific(o, r) && (MoreSpecific(r, o) || o.priority <= r.priority)
    requires forall o :: o in rules && o.Ties(r) && o.Matches(m) ==> RulesComparable(o, r, m)
    ensures FirstState(SortRules(rules), m, cap) == Some(r.capabilities[cap])
  {
    hide Accepted, NoTwins, CompatRule.Matches, CompatRule.Ties, SortRules, FirstState, RulesComparable;
    LadderDecides(rules, r, m, cap);
  }

  // ----- Shadowed rules are dead ---------------------------------------------

  /** The bounds that decide whether one range covers the other are comparable with the revision. */
  predicate CoverTestable(a: RevisionPattern, b: RevisionPattern, rev: Option<string>) {
    a.Range? && b.Range? && rev.Some? ==>
      && (a.min.Some? && b.min.Some? ==> Chainable(a.min.value, b.min.value, rev.value))
      && (a.max.Some? && b.max.Some? ==> Chainable(rev.value, b.max.value, a.max.value))
  }

  predicate CoverComparable(a: CompatRule, b: CompatRule, m: ModelIdentifier) {
    a.revision.Some? && b.revision.Some? ==> CoverTestable(a.revision.value, b.revision.value, m.revision)
  }

  lemma RangeContains(a: RevisionPattern, b: RevisionPattern, rev: string)
    requires a.Range? && b.Range? && a.Covers(b) && b.Within(rev) && CoverTestable(a, b, Some(rev))
    ensures a.Within(rev)
  {
    hide Compare, Chainable;
    if a.min.Some? {
      CompareIsAntisymmetric(b.min.value, a.min.value);
      CompareIsAntisymmetric(rev, b.min.value);
      ChainTransitive(a.min.value, b.min.value, rev);
      CompareIsAntisymmetric(a.min.value, rev);
    }
    if a.max.Some? {
      ChainTransitive(rev, b.max.value, a.max.value);
    }
  }

  /** Covering a pattern means matching everything it matches. */
  lemma CoversIncludes(a: RevisionPattern, b: RevisionPattern, rev: Option<string>)
    requires a.Covers(b) && b.Matches(rev) && CoverTestable(a, b, rev)
    ensures a.Matches(rev)
  {
    hide Compare, Chainable;
    if a.Range? && b.Range? {
      RangeContains(a, b, rev.value);
    }
  }

  /** Where it is always testable: a range against itself, and numbers throughout. */
  lemma CoverTestableCases(a: RevisionPattern, b: RevisionPattern, rev: Option<string>)
    requires a.Range? && b.Range?
    requires a == b || (NumericBounds(a.min, a.max) && NumericBounds(b.min, b.max) && (rev.Some? ==> Numeric(rev.value)))
    ensures CoverTestable(a, b, rev)
  {
    hide ParseU64, Segments;
  }

  lemma CaseChain(model: string, b: string, a: string)
    requires EqIgnoreAsciiCase(model, b) && EqIgnoreAsciiCase(a, b)
    ensures EqIgnoreAsciiCase(model, a)
  {
  }

  /** A shadowing rule matches every model its victim matches. */
  lemma ShadowMatches(a: CompatRule, b: CompatRule, m: ModelIdentifier)
    requires a.Shadows(b) && b.Matches(m) && CoverComparable(a, b, m)
    ensures a.Matches(m)
  {
    hide EqIgnoreAsciiCase, RevisionPattern.Matches, RevisionPattern.Covers, CoverTestable, CompatRule.Outranks;
    if a.host.Some? {
      CaseChain(m.host, b.host.value, a.host.value);
    }
    if a.provider.Some? {
      CaseChain(m.provider, b.provider.value, a.provider.value);
    }
    if a.revision.Some? {
      CoversIncludes(a.revision.value, b.revision.value, m.revision);
    }
  }

  lemma {:induction false} FirstStateConcat(s: seq<CompatRule>, t: seq<CompatRule>, m: ModelIdentifier, cap: ProviderCapability)
    ensures FirstState(s + t, m, cap) ==
      if FirstState(s, m, cap).Some? then FirstState(s, m, cap) else FirstState(t, m, cap)
  {
    hide CompatRule.Matches;
    if s == [] {
      assert s + t == t;
    } else {
      assert (s + t)[1..] == s[1..] + t;
      FirstStateConcat(s[1..], t, m, cap);
    }
  }

  lemma {:induction false} FirstCostConcat(s: seq<CompatRule>, t: seq<CompatRule>, m: ModelIdentifier)
    ensures FirstCost(s + t, m) == if FirstCost(s, m).Some? then FirstCost(s, m) else FirstCost(t, m)
  {
    hide CompatRule.Matches;
    if s == [] {
      assert s + t == t;
    } else {
      assert (s + t)[1..] == s[1..] + t;
      FirstCostConcat(s[1..], t, m);
    }
  }

  lemma {:induction false} FirstCostExists(table: seq<CompatRule>, m: ModelIdentifier, i: nat)
    requires i < |table| && table[i].Matches(m) && table[i].nativeToolCost.Some?
    ensures FirstCost(table, m).Some?
  {
    hide CompatRule.Matches;
    if i > 0 {
      FirstCostExists(table[1..], m, i - 1);
    }
  }

  /** In precedence order a shadowing rule stands before its victim. */
  lemma ShadowStandsFirst(table: seq<CompatRule>, i: nat, j: nat)
    requires Sorted(table) && i < |table| && j < |table| && table[i].Shadows(table[j])
    ensures i < j
  {
    hide CompatRule.SpecificityLevel, RevisionPattern.Covers;
    ShadowedComesAfter(table[i], table[j]);
  }

  lemma ShadowedComesAfter(a: CompatRule, b: CompatRule)
    requires a.Shadows(b)
    ensures !Precedes(b, a)
  {
  }

  /**
   Deleting a shadowed rule from any table in precedence order changes no
   resolved capability and no tool cost.
   */
  lemma ShadowedIsDead(table: seq<CompatRule>, i: nat, j: nat, m: ModelIdentifier)
    requires Sorted(table) && i < |table| && j < |table| && table[i].Shadows(table[j])
    requires CoverComparable(table[i], table[j], m)
    ensures forall cap :: FirstState(table[..j] + table[j + 1..], m, cap) == FirstState(table, m, cap)
    ensures FirstCost(table[..j] + table[j + 1..], m) == FirstCost(table, m)
  {
    hide CompatRule.Matches, FirstState, FirstCost, Sorted, CoverComparable;
    ShadowStandsFirst(table, i, j);
    var a, b := table[i], table[j];
    if b.Matches(m) {
      ShadowMatches(a, b, m);
    }
    hide CompatRule.Outranks, RevisionPattern.Covers, EqIgnoreAsciiCase;
    assert table == table[..j] + ([b] + table[j + 1..]);
    assert table[..j][i] == a;
    forall cap
      ensures FirstState(table[..j] + table[j + 1..], m, cap) == FirstState(table, m, cap)
    {
      FirstStateConcat(table[..j], table[j + 1..], m, cap);
      FirstStateConcat(table[..j], [b] + table[j + 1..], m, cap);
      FirstStateConcat([b], table[j + 1..], m, cap);
      if b.Matches(m) && cap in b.capabilities {
        FirstStateExists(table[..j], m, cap, i);
      } else {
        FirstStateSkips(b, m, cap);
      }
    }
    FirstCostConcat(table[..j], table[j + 1..], m);
    FirstCostConcat(table[..j], [b] + table[j + 1..], m);
    FirstCostConcat([b], table[j + 1..], m);
    if b.Matches(m) && b.nativeToolCost.Some? {
      FirstCostExists(table[..j], m, i);
    } else {
      FirstCostSkips(b, m);
    }
  }

  lemma FirstStateSkips(b: CompatRule, m: ModelIdentifier, cap: ProviderCapability)
    requires !(b.Matches(m) && cap in b.capabilities)
    ensures FirstState([b], m, cap) == None
  {
  }

  lemma FirstCostSkips(b: CompatRule, m: ModelIdentifier)
    requires !(b.Matches(m) && b.nativeToolCost.Some?)
    ensures FirstCost([b], m) == None
  {
  }

  // ----- What the tests find is there ----------------------------------------

  predicate InOrder(p: RevisionPattern) {
    p.Range? && p.min.Some? && p.max.Some? ==> Compare(p.min.value, p.max.value) != Greater
  }

  lemma EqualToItself(rev: string)
    ensures Compare(rev, rev) == Equal
  {
    hide Compare;
    CompareIsAntisymmetric(rev, rev);
  }

  /** Every pattern whose bounds are in order matches some revision. */
  function Witness(p: RevisionPattern): (rev: Option<string>)
    requires InOrder(p)
    ensures p.Matches(rev)
  {
    match p
    case Wildcard => None
    case Exact(r) => Some(r)
    case Prefix(q) => Some(q)
    case Range(min, max) =>
      var rev := if min.Some? then min.value else if max.Some? then max.value else "";
      EqualToItself(rev);
      Some(rev)
  }

  /** A rule is refused for its range exactly when no numeric revision lies between its numeric bounds. */
  lemma RefusedRangeIsEmpty(r: CompatRule, min: string, max: string)
    requires r.revision == Some(Range(Some(min), Some(max))) && Numeric(min) && Numeric(max)
    ensures RangeOk(r) <==> exists rev :: Numeric(rev) && InRange(rev, Some(min), Some(max))
  {
    hide Compare, Numeric;
    if rev :| Numeric(rev) && InRange(rev, Some(min), Some(max)) {
      CompareIsAntisymmetric(rev, min);
      NumericTransitive(min, rev, max);
    }
    if RangeOk(r) {
      EqualToItself(min);
      assert InRange(min, Some(min), Some(max));
    }
  }

  /** Patterns that overlap have a revision in common, whatever their strings. */
  lemma OverlapIsReal(a: RevisionPattern, b: RevisionPattern) returns (rev: Option<string>)
    requires a.Overlaps(b) && InOrder(a) && InOrder(b)
    ensures a.Matches(rev) && b.Matches(rev)
  {
    hide Compare;
    match (a, b) {
      case (Wildcard, _) => rev := Witness(b);
      case (_, Wildcard) => rev := Witness(a);
      case (Prefix(p), Prefix(q)) => rev := Some(if p <= q then q else p);
      case (Exact(r), _) => rev := Some(r);
      case (_, Exact(r)) => rev := Some(r);
      case (Prefix(p), Range(min, max)) => var s := PrefixInRange(p, min, max); rev := Some(s);
      case (Range(min, max), Prefix(p)) => var s := PrefixInRange(p, min, max); rev := Some(s);
      case (Range(min1, max1), Range(min2, max2)) =>
        var s := RangesShare(min1, max1, min2, max2);
        rev := Some(s);
    }
  }

  lemma PrefixInRange(p: string, min: Option<string>, max: Option<string>) returns (rev: string)
    requires PrefixMeets(p, min, max) && InOrder(Range(min, max))
    ensures p <= rev && InRange(rev, min, max)
  {
    hide Compare;
    if min.Some? && Compare(p, min.value) == Less {
      rev := min.value;
    } else if max.Some? && Compare(p, max.value) == Greater {
      rev := max.value;
      if min.Some? {
        CompareIsAntisymmetric(min.value, max.value);
      }
    } else {
      rev := p;
    }
    EqualToItself(rev);
  }

  lemma RangesShare(min1: Option<string>, max1: Option<string>, min2: Option<string>, max2: Option<string>)
    returns (rev: string)
    requires Range(min1, max1).Overlaps(Range(min2, max2)) && InOrder(Range(min1, max1)) && InOrder(Range(min2, max2))
    ensures InRange(rev, min1, max1) && InRange(rev, min2, max2)
  {
    hide Compare;
    if min1.Some? && min2.Some? {
      CompareIsAntisymmetric(min1.value, min2.value);
      rev := if Compare(min1.value, min2.value) == Less then min2.value else min1.value;
    } else if min1.Some? || min2.Some? {
      rev := if min1.Some? then min1.value else min2.value;
    } else if max1.Some? && max2.Some? {
      CompareIsAntisymmetric(max1.value, max2.value);
      rev := if Compare(max1.value, max2.value) == Less then max1.value else max2.value;
    } else {
      rev := if max1.Some? then max1.value else if max2.Some? then max2.value else "";
    }
    EqualToItself(rev);
  }

  /** A model with what the rule names, and otherwise as given. */
  function Sample(r: CompatRule, other: ModelIdentifier): ModelIdentifier {
    ModelIdentifier(r.host.GetOr(other.host), r.provider.GetOr(other.provider), r.family.GetOr(other.family),
                    other.revision, r.modelClass.GetOr(other.modelClass))
  }

  lemma SampleMatches(r: CompatRule, other: ModelIdentifier)
    requires r.revision.Some? ==> r.revision.value.Matches(other.revision)
    ensures r.Matches(Sample(r, other))
  {
    hide RevisionPattern.Matches;
  }

  /**
   A conflict is real: there is a model both rules match, so the table would have
   to choose between answers that contradict each other.
   */
  lemma ConflictIsReal(a: CompatRule, b: CompatRule) returns (m: ModelIdentifier)
    requires Conflict(a, b) && RangeOk(a) && RangeOk(b)
    ensures a.Matches(m) && b.Matches(m)
    ensures (exists cap :: FirstState([a], m, cap).Some? && FirstState([b], m, cap).Some? &&
                           FirstState([a], m, cap) != FirstState([b], m, cap)) ||
            (FirstCost([a], m).Some? && FirstCost([b], m).Some? && FirstCost([a], m) != FirstCost([b], m))
  {
    m := OverlapHasModel(a, b);
    hide CompatRule.Matches, CompatRule.OverlapsCriteria, CompatRule.Ties, RangeOk;
    OneRuleCost(a, m);
    OneRuleCost(b, m);
    if cap :| cap in a.capabilities && cap in b.capabilities && a.capabilities[cap] != b.capabilities[cap] {
      OneRuleState(a, m, cap);
      OneRuleState(b, m, cap);
    }
  }

  lemma OneRuleState(r: CompatRule, m: ModelIdentifier, cap: ProviderCapability)
    ensures FirstState([r], m, cap) == if r.Matches(m) && cap in r.capabilities then Some(r.capabilities[cap]) else None
  {
    hide CompatRule.Matches;
    assert [r][1..] == [];
  }

  lemma OneRuleCost(r: CompatRule, m: ModelIdentifier)
    ensures FirstCost([r], m) == if r.Matches(m) then r.nativeToolCost else None
  {
    hide CompatRule.Matches;
    assert [r][1..] == [];
  }

  lemma OverlapHasModel(a: CompatRule, b: CompatRule) returns (m: ModelIdentifier)
    requires a.OverlapsCriteria(b) && RangeOk(a) && RangeOk(b)
    ensures a.Matches(m) && b.Matches(m)
  {
    hide RevisionPattern.Matches, RevisionPattern.Overlaps, CompatRule.SpecificityLevel, Compare;
    var rev := None;
    if a.revision.Some? && b.revision.Some? {
      rev := OverlapIsReal(a.revision.value, b.revision.value);
    } else if a.revision.Some? {
      rev := Witness(a.revision.value);
    } else if b.revision.Some? {
      rev := Witness(b.revision.value);
    }
    m := Sample(a, Sample(b, ModelIdentifier("", "", Claude, rev, Fast)));
  }

  /** Forms of patterns whose cover test is complete. */
  predicate CoverComplete(a: RevisionPattern, b: RevisionPattern) {
    || a.Wildcard? || b.Exact? || (a.Prefix? && b.Prefix?)
    || (a.Range? && b.Range? && (a.min.Some? ==> b.min.Some?) && (a.max.Some? ==> b.max.Some?))
  }

  /** Among these a pattern covers another exactly when it matches all that one matches. */
  lemma InclusionIsCovered(a: RevisionPattern, b: RevisionPattern)
    requires CoverComplete(a, b) && InOrder(b)
    requires forall rev :: b.Matches(rev) ==> a.Matches(rev)
    ensures a.Covers(b)
  {
    hide Compare;
    match b {
      case Wildcard => assert b.Matches(None);
      case Exact(r) => assert b.Matches(Some(r));
      case Prefix(p) => assert b.Matches(Some(p));
      case Range(min, max) =>
        if min.Some? {
          EqualToItself(min.value);
          assert b.Matches(Some(min.value));
        }
        if max.Some? {
          EqualToItself(max.value);
          if min.Some? {
            CompareIsAntisymmetric(min.value, max.value);
          }
          assert b.Matches(Some(max.value));
        }
    }
  }

  /** The revision parts of the rules have such forms. */
  predicate ShadowComplete(a: CompatRule, b: CompatRule) {
    a.revision.Some? ==>
      if b.revision.Some? then CoverComplete(a.revision.value, b.revision.value) else !a.revision.value.Wildcard?
  }

  /**
   Dead rules are refused: a rule that outranks another, matches all its models
   and speaks to everything it does shadows it.
   */
  lemma DeadIsShadowed(a: CompatRule, b: CompatRule)
    requires a.id != b.id && a.Outranks(b) && RangeOk(b) && ShadowComplete(a, b)
    requires forall m :: b.Matches(m) ==> a.Matches(m)
    requires forall cap :: cap in b.capabilities ==> cap in a.capabilities
    requires b.nativeToolCost.Some? ==> a.nativeToolCost.Some?
    ensures a.Shadows(b)
  {
    hide RevisionPattern.Matches, RevisionPattern.Covers, CompatRule.Outranks, Compare;
    var rev := if b.revision.Some? then Witness(b.revision.value) else None;
    var far := FarFrom(a, rev);
    SampleMatches(b, far);
    var m := Sample(b, far);
    assert b.Matches(m) && a.Matches(m);
    FarIsFar(a, rev);
    if a.revision.Some? && b.revision.None? {
      NothingMatchesNone(a.revision.value);
    }
    if a.revision.Some? && b.revision.Some? {
      forall other | b.revision.value.Matches(other)
        ensures a.revision.value.Matches(other)
      {
        SampleMatches(b, far.(revision := other));
        assert b.Matches(Sample(b, far.(revision := other)));
      }
      InclusionIsCovered(a.revision.value, b.revision.value);
    }
  }

  lemma NothingMatchesNone(p: RevisionPattern)
    ensures p.Matches(None) <==> p.Wildcard?
  {
  }

  /** A model that shares nothing the rule names. */
  function FarFrom(a: CompatRule, rev: Option<string>): ModelIdentifier {
    ModelIdentifier(a.host.GetOr("") + "x", a.provider.GetOr("") + "x", if a.family == Some(Claude) then Gpt else Claude, rev,
                    if a.modelClass == Some(Fast) then Coding else Fast)
  }

  lemma FarIsFar(a: CompatRule, rev: Option<string>)
    ensures var far := FarFrom(a, rev);
      && (a.host.Some? ==> !EqIgnoreAsciiCase(far.host, a.host.value))
      && (a.provider.Some? ==> !EqIgnoreAsciiCase(far.provider, a.provider.value))
      && (a.family.Some? ==> far.family != a.family.value)
      && (a.modelClass.Some? ==> far.modelClass != a.modelClass.value)
  {
  }

  // ----- Where the syntactic tests miss --------------------------------------

  /** A rule for one provider's revisions that speaks about one capability. */
  function SearchRule(id: string, pattern: RevisionPattern, state: TriState): CompatRule {
    CompatRule(id, None, Some("p"), None, Some(pattern), None, map[Search := state], None, 0)
  }

  function ModelAt(revision: string): ModelIdentifier {
    ModelIdentifier("h", "p", Claude, Some(revision), Flagship)
  }

  lemma TenAgainstNine()
    ensures Compare("1", "9") == Less && Compare("10", "9") == Greater
  {
    CycleNumbers();
    OneCharSegment('1');
    OneCharSegment('9');
    TwoCharSegment('1', '0');
    assert DigitsValue("1"[..0]) == 0 && DigitsValue("9"[..0]) == 0;
  }

  /**
   The overlap test of a prefix against a range misses common revisions: both
   patterns match "10", the two disagreeing rules are accepted, and the answer
   follows whichever id comes first.
   */
  lemma PrefixAgainstRangeMisses(m: ModelIdentifier)
    requires m == ModelAt("10")
    ensures var p, r := Prefix("1"), Range(Some("9"), None);
      && p.Matches(m.revision) && r.Matches(m.revision) && !p.Overlaps(r)
      && Accepted([SearchRule("a", p, Supported), SearchRule("b", r, Unsupported)])
      && FirstState(SortRules([SearchRule("a", p, Supported), SearchRule("b", r, Unsupported)]), m, Search) == Some(Supported)
      && FirstState(SortRules([SearchRule("b", p, Supported), SearchRule("a", r, Unsupported)]), m, Search) == Some(Unsupported)
  {
    var p, r := Prefix("1"), Range(Some("9"), None);
    TenAgainstNine();
    hide Compare;
    assert "1"[0] != "9"[0];
    assert "1" == "10"[..1];
    assert !p.Overlaps(r);
    assert Compatible(SearchRule("a", p, Supported), SearchRule("b", r, Unsupported));
    TwoRuleTable(SearchRule("a", p, Supported), SearchRule("b", r, Unsupported));
    TwoRuleTable(SearchRule("b", p, Supported), SearchRule("a", r, Unsupported));
  }

  lemma TwoRuleTable(a: CompatRule, b: CompatRule)
    ensures SortRules([a, b]) == if Precedes(a, b) then [a, b] else [b, a]
  {
    hide Precedes;
    assert [a, b][..1] == [a] && [a][..0] == [];
    assert SortRules([a]) == [a];
    assert [a][1..] == [];
    assert Insert([a], b) == if Precedes(a, b) then [a] + [b] else [b] + [a];
  }

  /** With mixed segments the overlap and cover tests of two ranges are both wrong. */
  lemma MixedRangesMisjudged()
    ensures var low, high := Range(Some("2"), None), Range(None, Some("1a"));
      low.Matches(Some("10")) && high.Matches(Some("10")) && !low.Overlaps(high)
    ensures var wide, narrow := Range(Some("2"), None), Range(Some("10"), None);
      wide.Covers(narrow) && narrow.Matches(Some("1a")) && !wide.Matches(Some("1a"))
  {
    MixedRevisionsCycle();
    CompareIsAntisymmetric("2", "10");
    CompareIsAntisymmetric("10", "1a");
    CompareIsAntisymmetric("1a", "2");
    hide Compare;
  }

  /** Rules that share an id skip the conflict check, and then the order they were added in decides. */
  lemma SharedIdsOrderDecides(m: ModelIdentifier)
    requires m == ModelAt("1")
    ensures var yes, no := SearchRule("a", Wildcard, Supported), SearchRule("a", Wildcard, Unsupported);
      && Accepted([yes, no]) && Accepted([no, yes])
      && FirstState(SortRules([yes, no]), m, Search) == Some(Supported)
      && FirstState(SortRules([no, yes]), m, Search) == Some(Unsupported)
  {
    var yes, no := SearchRule("a", Wildcard, Supported), SearchRule("a", Wildcard, Unsupported);
    TwoRuleTable(yes, no);
    TwoRuleTable(no, yes);
    CompareTextAntisymmetric("a", "a");
  }
}
