/**
 The three writes compaction makes to the summary container, and what every run
 of them keeps.
 */
module SummaryRuns {
  import opened Wrappers
  import opened Dom
  import opened SummaryForest

  datatype Step =
    | Elide(id: ElementId, covered: seq<ElementId>, tokens: nat, offset: nat, text: string)
    | Condense(id: ElementId, fanIn: nat, offset: nat, text: string)
    | CapText(id: ElementId, text: string)

  ghost predicate Allowed(ns: seq<NodeElement>, s: Step)
    requires Forest(ns)
  {
    match s
    case Elide(id, covered, _, _, _) =>
      id !in Ids(ns) && NoDuplicates(covered) && forall c :: c in covered ==> c !in CoveredBy(ns)
    case Condense(id, fanIn, _, _) => id !in Ids(ns) && 2 <= fanIn <= |Roots(ns)|
    case CapText(id, _) => id in Ids(ns)
  }

  function NewNode(ns: seq<NodeElement>, s: Step): NodeElement
    requires AllReadable(ns) && !s.CapText? && (s.Condense? ==> s.fanIn <= |Roots(ns)|)
  {
    match s
    case Elide(id, covered, tokens, offset, text) =>
      Readable(id, SummaryNode(covered, [], tokens, offset), text)
    case Condense(id, fanIn, offset, text) =>
      var folded := Roots(ns)[..fanIn];
      Readable(id, SummaryNode([], folded, Sum(TokenIndex(ns), folded), offset), text)
  }

  function WithText(ns: seq<NodeElement>, id: ElementId, text: string): (r: seq<NodeElement>)
    ensures |r| == |ns|
    ensures forall i :: 0 <= i < |ns| ==>
      r[i] == if ns[i].Readable? && ns[i].id == id then ns[i].(text := text) else ns[i]
  {
    seq(|ns|, i requires 0 <= i < |ns| =>
      if ns[i].Readable? && ns[i].id == id then ns[i].(text := text) else ns[i])
  }

  ghost function Apply(ns: seq<NodeElement>, s: Step): seq<NodeElement>
    requires Forest(ns) && Allowed(ns, s)
  {
    match s
    case CapText(id, text) => WithText(ns, id, text)
    case _ => ns + [NewNode(ns, s)]
  }

  lemma ShapeExtend(p: seq<NodeElement>, x: NodeElement)
    requires Shape(p) && x.Readable? && x.id !in Ids(p)
    requires NoDuplicates(x.node.children) && forall c :: c in x.node.children ==> c in Roots(p)
    ensures Shape(p + [x])
  {
    var ns := p + [x];
    assert ns[|p|] == x;
    assert forall i :: 0 <= i < |p| ==> ns[i] == p[i] && Ids(p)[i] == p[i].id;
    forall i, c | 0 <= i < |ns| && c in ns[i].node.children
      ensures exists j :: 0 <= j < i && ns[j].id == c
    {
      if i < |p| {
        var j :| 0 <= j < i && p[j].id == c;
        assert ns[j].id == c;
      } else {
        var j :| 0 <= j < |p| && Ids(p)[j] == c;
        assert ns[j].id == c;
      }
    }
    forall i, j, c | 0 <= i < j < |ns| && c in ns[i].node.children
      ensures c !in ns[j].node.children
    {
      assert c in p[i].node.children && c in ChildIds(p);
    }
  }

  lemma AdditiveTokensExtend(p: seq<NodeElement>, x: NodeElement)
    requires Shape(p) && Shape(p + [x]) && x.Readable? && Additive(p, TokenIndex(p))
    requires !IsLeaf(x.node) ==> x.node.coveredTokens == Sum(TokenIndex(p), x.node.children)
    ensures Additive(p + [x], TokenIndex(p + [x]))
  {
    var ns := p + [x];
    assert ns[..|ns| - 1] == p && ns[|p|] == x;
    ShapePrefix(p, x);
    forall i | 0 <= i < |ns| && !IsLeaf(ns[i].node)
      ensures Lookup(TokenIndex(ns), ns[i].id) == Sum(TokenIndex(ns), ns[i].node.children)
    {
      forall c | c in ns[i].node.children
        ensures c != x.id
      {
        var j :| 0 <= j < i && ns[j].id == c;
        assert Ids(p)[j] == c;
      }
      SumAgree(TokenIndex(p), TokenIndex(ns), ns[i].node.children);
      if i < |p| {
        assert ns[i] == p[i] && Ids(p)[i] == p[i].id;
      }
    }
  }

  lemma ForestExtend(p: seq<NodeElement>, x: NodeElement)
    requires Forest(p) && Shape(p + [x]) && x.Readable?
    requires NoDuplicates(x.node.covered) && (!IsLeaf(x.node) ==> x.node.covered == [])
    requires forall c :: c in x.node.covered ==> c !in CoveredBy(p)
    requires !IsLeaf(x.node) ==> x.node.coveredTokens == Sum(TokenIndex(p), x.node.children)
    ensures Forest(p + [x])
    ensures CoveredBy(p + [x]) == CoveredBy(p) + Elements(x.node.covered)
  {
    var ns := p + [x];
    assert ns[|p|] == x;
    assert forall i :: 0 <= i < |p| ==> ns[i] == p[i];
    AdditiveTokensExtend(p, x);
    forall i, j, c | 0 <= i < j < |ns| && c in ns[i].node.covered
      ensures c !in ns[j].node.covered
    {
      assert c in p[i].node.covered && c in CoveredBy(p);
    }
    CoveredStep(p, x);
  }

  /** Tokens the roots account for together. */
  function RootTotal(ns: seq<NodeElement>): nat
    requires AllReadable(ns)
  {
    Sum(TokenIndex(ns), Roots(ns))
  }

  lemma RootTotalExtend(p: seq<NodeElement>, x: NodeElement)
    requires Forest(p) && Forest(p + [x]) && x.Readable?
    ensures RootTotal(p + [x]) == RootTotal(p) + if IsLeaf(x.node) then x.node.coveredTokens else 0
  {
    var ns := p + [x];
    assert ns[..|ns| - 1] == p && ns[|p|] == x;
    ShapePrefix(p, x);
    RootTokens(p);
    RootTokens(ns);
    LeafSumStep(p, x, TokenIndex(ns));
    LeafIdsAreIds(p);
    SumAgree(TokenIndex(ns), TokenIndex(p), LeafIds(p));
  }

  lemma {:induction false} SameButText(p: seq<NodeElement>, q: seq<NodeElement>)
    requires AllReadable(p) && AllReadable(q) && |p| == |q|
    requires forall i :: 0 <= i < |p| ==> p[i].id == q[i].id && p[i].node == q[i].node
    ensures TokenIndex(p) == TokenIndex(q)
    ensures Ids(p) == Ids(q) && ChildIds(p) == ChildIds(q) && CoveredBy(p) == CoveredBy(q)
  {
    if p != [] {
      var n := |p| - 1;
      SameButText(p[..n], q[..n]);
    }
    forall c | c in ChildIds(p)
      ensures c in ChildIds(q)
    {
      var i :| 0 <= i < |p| && c in p[i].node.children;
      assert c in q[i].node.children;
    }
    forall c | c in ChildIds(q)
      ensures c in ChildIds(p)
    {
      var i :| 0 <= i < |p| && c in q[i].node.children;
      assert c in p[i].node.children;
    }
    forall c | c in CoveredBy(p)
      ensures c in CoveredBy(q)
    {
      var i :| 0 <= i < |p| && c in p[i].node.covered;
      assert c in q[i].node.covered;
    }
    forall c | c in CoveredBy(q)
      ensures c in CoveredBy(p)
    {
      var i :| 0 <= i < |p| && c in q[i].node.covered;
      assert c in p[i].node.covered;
    }
  }

  lemma CapKeepsForest(ns: seq<NodeElement>, id: ElementId, text: string)
    requires Forest(ns)
    ensures Forest(WithText(ns, id, text))
    ensures RootTotal(WithText(ns, id, text)) == RootTotal(ns)
    ensures CoveredBy(WithText(ns, id, text)) == CoveredBy(ns)
    ensures Roots(WithText(ns, id, text)) == Roots(ns)
  {
    var q := WithText(ns, id, text);
    SameButText(ns, q);
    forall i, c | 0 <= i < |q| && c in q[i].node.children
      ensures exists j :: 0 <= j < i && q[j].id == c
    {
      var j :| 0 <= j < i && ns[j].id == c;
      assert q[j].id == c;
    }
  }

  lemma FirstRootsDistinct(ns: seq<NodeElement>, k: nat)
    requires Shape(ns) && k <= |Roots(ns)|
    ensures NoDuplicates(Roots(ns)[..k])
  {
    assert forall i :: 0 <= i < |ns| ==> Ids(ns)[i] == ns[i].id;
    WithoutKeepsDistinct(Ids(ns), ChildIds(ns));
  }

  /**
   Every write keeps the forest. Elision adds its elements and their tokens to what
   the roots account for; condensation and capping leave both as they were.
   */
  lemma StepKeepsForest(ns: seq<NodeElement>, s: Step)
    requires Forest(ns) && Allowed(ns, s)
    ensures Forest(Apply(ns, s))
    ensures CoveredBy(Apply(ns, s)) == CoveredBy(ns) + if s.Elide? then Elements(s.covered) else {}
    ensures RootTotal(Apply(ns, s)) == RootTotal(ns) + if s.Elide? then s.tokens else 0
    ensures s.Elide? ==> CoveredBy(ns) !! Elements(s.covered)
  {
    hide OneLeaf, Additive, CreationOrder, OneParent, DistinctIds, Roots, CoveredBy, Sum, TokenIndex, NoDuplicates;
    if s.CapText? {
      CapKeepsForest(ns, s.id, s.text);
    } else {
      var x := NewNode(ns, s);
      if s.Condense? {
        FirstRootsDistinct(ns, s.fanIn);
      }
      ShapeExtend(ns, x);
      ForestExtend(ns, x);
      RootTotalExtend(ns, x);
    }
  }

  lemma WithoutPrefix(r: seq<ElementId>, k: nat)
    requires NoDuplicates(r) && k <= |r|
    ensures Without(r, Elements(r[..k])) == r[k..]
  {
    var a, b := r[..k], r[k..];
    assert r == a + b;
    WithoutConcat(a, b, Elements(a));
    WithoutAll(a, Elements(a));
    WithoutNone(b, Elements(a));
  }

  /** Condensing `k` roots replaces them by one, placed last. */
  lemma CondensedRoots(ns: seq<NodeElement>, s: Step)
    requires Forest(ns) && Allowed(ns, s) && s.Condense?
    ensures Forest(Apply(ns, s))
    ensures Roots(Apply(ns, s)) == Roots(ns)[s.fanIn..] + [s.id]
  {
    FirstRootsDistinct(ns, |Roots(ns)|);
    assert Roots(ns)[..|Roots(ns)|] == Roots(ns);
    StepKeepsForest(ns, s);
    RootsStep(ns, NewNode(ns, s));
    WithoutPrefix(Roots(ns), s.fanIn);
  }

  lemma {:induction false} WithoutAll(a: seq<ElementId>, s: set<ElementId>)
    requires forall id :: id in a ==> id in s
    ensures Without(a, s) == []
  {
    if a != [] {
      WithoutAll(a[1..], s);
    }
  }

  lemma {:induction false} WithoutNone(a: seq<ElementId>, s: set<ElementId>)
    requires forall id :: id in a ==> id !in s
    ensures Without(a, s) == a
  {
    if a != [] {
      WithoutNone(a[1..], s);
    }
  }

  /** Every step of the run is allowed where it is taken. */
  ghost predicate RunAllowed(ns: seq<NodeElement>, steps: seq<Step>)
    requires Forest(ns)
    decreases |steps|, 0
  {
    steps == [] ||
    (RunAllowed(ns, steps[..|steps| - 1]) && Allowed(Run(ns, steps[..|steps| - 1]), steps[|steps| - 1]))
  }

  /** The nodes after a run, which are again a forest. */
  ghost function Run(ns: seq<NodeElement>, steps: seq<Step>): (r: seq<NodeElement>)
    requires Forest(ns) && RunAllowed(ns, steps)
    ensures Forest(r)
    decreases |steps|, 1
  {
    if steps == [] then ns else
      var before := Run(ns, steps[..|steps| - 1]);
      StepKeepsForest(before, steps[|steps| - 1]);
      Apply(before, steps[|steps| - 1])
  }

  /** Body elements a run elides. */
  function ElidedBy(steps: seq<Step>): set<ElementId> {
    if steps == [] then {} else
      var last := steps[|steps| - 1];
      ElidedBy(steps[..|steps| - 1]) + if last.Elide? then Elements(last.covered) else {}
  }

  /** Tokens a run elides. */
  function ElidedTokens(steps: seq<Step>): nat {
    if steps == [] then 0 else
      var last := steps[|steps| - 1];
      ElidedTokens(steps[..|steps| - 1]) + if last.Elide? then last.tokens else 0
  }

  /**
   Over every run the nodes stay a forest, the covered set grows by exactly what the
   run elided, nothing is elided twice, and the roots account for exactly the elided tokens.
   */
  lemma {:induction false} RunKeepsForest(ns: seq<NodeElement>, steps: seq<Step>)
    requires Forest(ns) && RunAllowed(ns, steps)
    ensures Forest(Run(ns, steps))
    ensures CoveredBy(Run(ns, steps)) == CoveredBy(ns) + ElidedBy(steps)
    ensures CoveredBy(ns) !! ElidedBy(steps)
    ensures RootTotal(Run(ns, steps)) == RootTotal(ns) + ElidedTokens(steps)
    decreases |steps|
  {
    hide Forest, Allowed, Apply, CoveredBy, RootTotal, Elements;
    if steps != [] {
      RunKeepsForest(ns, steps[..|steps| - 1]);
      StepKeepsForest(Run(ns, steps[..|steps| - 1]), steps[|steps| - 1]);
    }
  }

  lemma RunAppend(ns: seq<NodeElement>, steps: seq<Step>, s: Step)
    requires Forest(ns) && RunAllowed(ns, steps) && Allowed(Run(ns, steps), s)
    ensures RunAllowed(ns, steps + [s]) && Run(ns, steps + [s]) == Apply(Run(ns, steps), s)
  {
    hide Forest, Allowed, Apply;
    assert (steps + [s])[..|steps|] == steps;
  }

  lemma {:induction false} RunConcat(ns: seq<NodeElement>, first: seq<Step>, second: seq<Step>)
    requires Forest(ns) && RunAllowed(ns, first) && RunAllowed(Run(ns, first), second)
    ensures RunAllowed(ns, first + second) && Run(ns, first + second) == Run(Run(ns, first), second)
    decreases |second|
  {
    hide Forest, Allowed, Apply;
    if second == [] {
      assert first + second == first;
    } else {
      var n := |second| - 1;
      RunConcat(ns, first, second[..n]);
      assert first + second == first + second[..n] + [second[n]];
      RunAppend(ns, first + second[..n], second[n]);
    }
  }

  lemma EmptyForest()
    ensures Forest([]) && CoveredBy([]) == {} && RootTotal([]) == 0
  {
    assert Ids([]) == [];
  }
}
