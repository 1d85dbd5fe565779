/**
 The summary DAG: the nodes a journal records for context compaction, how they
 are loaded, which of them are roots, and what each one stands for.
 */
module SummaryForest {
  import opened Wrappers
  import opened Dom

  datatype SummaryNode = SummaryNode(
    covered: seq<ElementId>,
    children: seq<ElementId>,
    coveredTokens: nat,
    createdOffset: nat)

  /** One child of the summaries container, as `SummaryNode::from_element` reads it. */
  datatype NodeElement =
    | Readable(id: ElementId, node: SummaryNode, text: string)
    | Unreadable(id: ElementId)

  /** The in-memory index the planner works on. */
  datatype SummaryDag = SummaryDag(
    nodes: map<ElementId, SummaryNode>,
    texts: map<ElementId, string>,
    order: seq<ElementId>,
    children: set<ElementId>,
    unreadable: nat)
  {
    function Roots(): seq<ElementId> {
      Without(order, children)
    }

    function Covered(): set<ElementId> {
      set id, c | id in nodes && c in nodes[id].covered :: c
    }
  }

  const EMPTY_DAG := SummaryDag(map[], map[], [], {}, 0)

  function Elements(ids: seq<ElementId>): set<ElementId> {
    set id | id in ids
  }

  /** The entries of `ids` outside `excluded`, in order. */
  function Without(ids: seq<ElementId>, excluded: set<ElementId>): (kept: seq<ElementId>)
    ensures forall id :: id in kept <==> id in ids && id !in excluded
  {
    if ids == [] then
      []
    else if ids[0] in excluded then
      Without(ids[1..], excluded)
    else
      [ids[0]] + Without(ids[1..], excluded)
  }

  function AddElement(dag: SummaryDag, e: NodeElement): SummaryDag {
    match e
    case Unreadable(_) => dag.(unreadable := dag.unreadable + 1)
    case Readable(id, node, text) =>
      SummaryDag(
        dag.nodes[id := node],
        dag.texts[id := text],
        dag.order + [id],
        dag.children + Elements(node.children),
        dag.unreadable)
  }

  /** What a fresh load of the container yields. */
  function Loaded(es: seq<NodeElement>): SummaryDag {
    if es == [] then EMPTY_DAG else AddElement(Loaded(es[..|es| - 1]), es[|es| - 1])
  }

  method Load(es: seq<NodeElement>) returns (dag: SummaryDag)
    ensures dag == Loaded(es)
  {
    dag := EMPTY_DAG;
    for i := 0 to |es|
      invariant dag == Loaded(es[..i])
    {
      assert es[..i + 1][..i] == es[..i];
      dag := AddElement(dag, es[i]);
    }
    assert es[..|es|] == es;
  }

  lemma LoadedAppend(es: seq<NodeElement>, e: NodeElement)
    ensures Loaded(es + [e]) == AddElement(Loaded(es), e)
  {
    assert (es + [e])[..|es|] == es;
  }

  // ----- Forests -------------------------------------------------------------

  predicate AllReadable(ns: seq<NodeElement>) {
    forall i :: 0 <= i < |ns| ==> ns[i].Readable?
  }

  predicate DistinctIds(ns: seq<NodeElement>) {
    forall i, j :: 0 <= i < j < |ns| ==> ns[i].id != ns[j].id
  }

  predicate IsLeaf(n: SummaryNode) {
    n.children == []
  }

  /** Every child was created before its parent. */
  ghost predicate CreationOrder(ns: seq<NodeElement>)
    requires AllReadable(ns)
  {
    forall i, c :: 0 <= i < |ns| && c in ns[i].node.children ==> exists j :: 0 <= j < i && ns[j].id == c
  }

  /** No node has two parents, nor the same parent twice. */
  ghost predicate OneParent(ns: seq<NodeElement>)
    requires AllReadable(ns)
  {
    (forall i :: 0 <= i < |ns| ==> NoDuplicates(ns[i].node.children)) &&
    (forall i, j, c :: 0 <= i < j < |ns| && c in ns[i].node.children ==> c !in ns[j].node.children)
  }

  /** No body element is covered twice, and only leaves cover. */
  ghost predicate OneLeaf(ns: seq<NodeElement>)
    requires AllReadable(ns)
  {
    (forall i :: 0 <= i < |ns| ==> NoDuplicates(ns[i].node.covered)) &&
    (forall i :: 0 <= i < |ns| && !IsLeaf(ns[i].node) ==> ns[i].node.covered == []) &&
    (forall i, j, c :: 0 <= i < j < |ns| && c in ns[i].node.covered ==> c !in ns[j].node.covered)
  }

  function TokenIndex(ns: seq<NodeElement>): map<ElementId, nat> {
    if ns == [] then map[] else
      var last := ns[|ns| - 1];
      var before := TokenIndex(ns[..|ns| - 1]);
      if last.Readable? then before[last.id := last.node.coveredTokens] else before
  }

  function Lookup(m: map<ElementId, nat>, id: ElementId): nat {
    if id in m then m[id] else 0
  }

  function Sum(m: map<ElementId, nat>, ids: seq<ElementId>): nat {
    if ids == [] then 0 else Lookup(m, ids[0]) + Sum(m, ids[1..])
  }

  /** Under `m` a parent weighs what its children weigh together. */
  ghost predicate Additive(ns: seq<NodeElement>, m: map<ElementId, nat>)
    requires AllReadable(ns)
  {
    forall i :: 0 <= i < |ns| && !IsLeaf(ns[i].node) ==>
      Lookup(m, ns[i].id) == Sum(m, ns[i].node.children)
  }

  ghost predicate Shape(ns: seq<NodeElement>) {
    AllReadable(ns) && DistinctIds(ns) && CreationOrder(ns) && OneParent(ns)
  }

  ghost predicate Forest(ns: seq<NodeElement>) {
    Shape(ns) && OneLeaf(ns) && Additive(ns, TokenIndex(ns))
  }

  function Ids(ns: seq<NodeElement>): (ids: seq<ElementId>)
    ensures |ids| == |ns| && forall i :: 0 <= i < |ns| ==> ids[i] == ns[i].id
  {
    seq(|ns|, i requires 0 <= i < |ns| => ns[i].id)
  }

  function ChildIds(ns: seq<NodeElement>): set<ElementId>
    requires AllReadable(ns)
  {
    set i, c | 0 <= i < |ns| && c in ns[i].node.children :: c
  }

  function Roots(ns: seq<NodeElement>): seq<ElementId>
    requires AllReadable(ns)
  {
    Without(Ids(ns), ChildIds(ns))
  }

  function CoveredBy(ns: seq<NodeElement>): set<ElementId>
    requires AllReadable(ns)
  {
    set i, c | 0 <= i < |ns| && c in ns[i].node.covered :: c
  }

  function LeafIds(ns: seq<NodeElement>): seq<ElementId>
    requires AllReadable(ns)
  {
    if ns == [] then [] else
      LeafIds(ns[..|ns| - 1]) + if IsLeaf(ns[|ns| - 1].node) then [ns[|ns| - 1].id] else []
  }

  // ----- What the roots carry ------------------------------------------------

  lemma {:induction false} WithoutConcat(a: seq<ElementId>, b: seq<ElementId>, s: set<ElementId>)
    ensures Without(a + b, s) == Without(a, s) + Without(b, s)
  {
    if a == [] {
      assert a + b == b;
    } else {
      assert (a + b)[1..] == a[1..] + b;
      WithoutConcat(a[1..], b, s);
    }
  }

  lemma {:induction false} WithoutTwice(a: seq<ElementId>, s: set<ElementId>, t: set<ElementId>)
    ensures Without(Without(a, s), t) == Without(a, s + t)
  {
    if a != [] {
      WithoutTwice(a[1..], s, t);
      if a[0] !in s {
        assert Without(a, s)[1..] == Without(a[1..], s);
      }
    }
  }

  lemma {:induction false} WithoutOthers(a: seq<ElementId>, s: set<ElementId>, t: set<ElementId>)
    requires forall id :: id in a ==> (id in s <==> id in t)
    ensures Without(a, s) == Without(a, t)
  {
    if a != [] {
      WithoutOthers(a[1..], s, t);
    }
  }

  lemma {:induction false} WithoutKeepsDistinct(a: seq<ElementId>, s: set<ElementId>)
    requires NoDuplicates(a)
    ensures NoDuplicates(Without(a, s))
  {
    if a != [] {
      WithoutKeepsDistinct(a[1..], s);
      assert a[0] !in a[1..];
    }
  }

  lemma {:induction false} SumConcat(m: map<ElementId, nat>, a: seq<ElementId>, b: seq<ElementId>)
    ensures Sum(m, a + b) == Sum(m, a) + Sum(m, b)
  {
    if a == [] {
      assert a + b == b;
    } else {
      assert (a + b)[1..] == a[1..] + b;
      SumConcat(m, a[1..], b);
    }
  }

  lemma {:induction false} SumAgree(m: map<ElementId, nat>, n: map<ElementId, nat>, ids: seq<ElementId>)
    requires forall id :: id in ids ==> Lookup(m, id) == Lookup(n, id)
    ensures Sum(m, ids) == Sum(n, ids)
  {
    if ids != [] {
      SumAgree(m, n, ids[1..]);
    }
  }

  lemma SumRemoveOne(m: map<ElementId, nat>, cs: seq<ElementId>, k: nat) returns (rest: seq<ElementId>)
    requires NoDuplicates(cs) && k < |cs|
    ensures NoDuplicates(rest) && forall c :: c in rest <==> c in cs && c != cs[k]
    ensures Sum(m, cs) == Lookup(m, cs[k]) + Sum(m, rest)
  {
    rest := cs[..k] + cs[k + 1..];
    var tail := [cs[k]] + cs[k + 1..];
    assert cs == cs[..k] + tail;
    assert tail[1..] == cs[k + 1..];
    SumConcat(m, cs[..k], tail);
    SumConcat(m, cs[..k], cs[k + 1..]);
  }

  /** Taking `cs` out of `ids` takes their weight out of the sum. */
  lemma {:induction false} SumWithout(m: map<ElementId, nat>, ids: seq<ElementId>, cs: seq<ElementId>)
    requires NoDuplicates(ids) && NoDuplicates(cs)
    requires forall c :: c in cs ==> c in ids
    ensures Sum(m, ids) == Sum(m, Without(ids, Elements(cs))) + Sum(m, cs)
  {
    assert cs == [] || cs[0] in cs;
    if ids == [] {
    } else if ids[0] in cs {
      var k :| 0 <= k < |cs| && cs[k] == ids[0];
      var rest := SumRemoveOne(m, cs, k);
      SumWithout(m, ids[1..], rest);
      WithoutOthers(ids[1..], Elements(rest), Elements(cs));
    } else {
      SumWithout(m, ids[1..], cs);
    }
  }

  lemma ShapePrefix(p: seq<NodeElement>, x: NodeElement)
    requires Shape(p + [x])
    ensures Shape(p) && x.Readable?
    ensures forall c :: c in x.node.children ==> c in Roots(p)
    ensures x.id !in Ids(p) && NoDuplicates(Ids(p)) && NoDuplicates(x.node.children)
  {
    var ns := p + [x];
    assert ns[|p|] == x;
    assert forall i :: 0 <= i < |p| ==> ns[i] == p[i];
    forall i, c | 0 <= i < |p| && c in p[i].node.children
      ensures exists j :: 0 <= j < i && p[j].id == c
    {
      var j :| 0 <= j < i && ns[j].id == c;
      assert p[j].id == c;
    }
    forall c | c in x.node.children
      ensures c in Roots(p)
    {
      assert c in ns[|p|].node.children;
      var j :| 0 <= j < |p| && ns[j].id == c;
      assert Ids(p)[j] == c;
    }
  }

  lemma RootsStep(p: seq<NodeElement>, x: NodeElement)
    requires Shape(p + [x]) && Shape(p) && x.Readable?
    ensures Roots(p + [x]) == Without(Roots(p), Elements(x.node.children)) + [x.id]
  {
    var ns := p + [x];
    var cs := Elements(x.node.children);
    assert ns[|p|] == x;
    assert forall i :: 0 <= i < |p| ==> ns[i] == p[i];
    assert Ids(ns) == Ids(p) + [x.id];
    assert ChildIds(ns) == ChildIds(p) + cs by {
      forall c | c in ChildIds(p)
        ensures c in ChildIds(ns)
      {
        var i :| 0 <= i < |p| && c in p[i].node.children;
        assert c in ns[i].node.children;
      }
    }
    assert x.id !in ChildIds(ns);
    WithoutConcat(Ids(p), [x.id], ChildIds(ns));
    WithoutTwice(Ids(p), ChildIds(p), cs);
  }

  /** Adding a node moves its children's weight out of the roots and its own weight in. */
  lemma RootSumStep(p: seq<NodeElement>, x: NodeElement, m: map<ElementId, nat>)
    requires Shape(p + [x]) && Shape(p) && x.Readable?
    requires forall c :: c in x.node.children ==> c in Roots(p)
    requires NoDuplicates(Ids(p)) && NoDuplicates(x.node.children)
    ensures Sum(m, Roots(p + [x])) + Sum(m, x.node.children) == Sum(m, Roots(p)) + Lookup(m, x.id)
  {
    RootsStep(p, x);
    WithoutKeepsDistinct(Ids(p), ChildIds(p));
    SumWithout(m, Roots(p), x.node.children);
    SumConcat(m, Without(Roots(p), Elements(x.node.children)), [x.id]);
    assert Sum(m, [x.id]) == Lookup(m, x.id) + Sum(m, []);
  }

  lemma LeafSumStep(p: seq<NodeElement>, x: NodeElement, m: map<ElementId, nat>)
    requires AllReadable(p) && AllReadable(p + [x]) && x.Readable?
    ensures Sum(m, LeafIds(p + [x])) == Sum(m, LeafIds(p)) + if IsLeaf(x.node) then Lookup(m, x.id) else 0
  {
    var ns := p + [x];
    assert ns[..|ns| - 1] == p && ns[|ns| - 1] == x;
    SumConcat(m, LeafIds(p), [x.id]);
    assert Sum(m, [x.id]) == Lookup(m, x.id) + Sum(m, []);
    assert LeafIds(p) + [] == LeafIds(p);
  }

  lemma AdditiveStep(p: seq<NodeElement>, x: NodeElement, m: map<ElementId, nat>)
    requires AllReadable(p) && AllReadable(p + [x]) && x.Readable?
    ensures Additive(p + [x], m) <==>
      Additive(p, m) && (!IsLeaf(x.node) ==> Lookup(m, x.id) == Sum(m, x.node.children))
  {
    var ns := p + [x];
    assert ns[|p|] == x;
    assert forall i :: 0 <= i < |p| ==> ns[i] == p[i];
  }

  /**
   Whatever weight is shared out additively among a node's children, the roots
   carry together exactly what the leaves carry together.
   */
  lemma {:induction false} RootsCarryLeaves(ns: seq<NodeElement>, m: map<ElementId, nat>)
    requires Shape(ns) && Additive(ns, m)
    ensures Sum(m, Roots(ns)) == Sum(m, LeafIds(ns))
  {
    if ns == [] {
      assert Ids(ns) == [];
    } else {
      var p, x := ns[..|ns| - 1], ns[|ns| - 1];
      assert ns == p + [x];
      ShapePrefix(p, x);
      AdditiveStep(p, x, m);
      RootsCarryLeaves(p, m);
      RootSumStep(p, x, m);
      LeafSumStep(p, x, m);
    }
  }

  lemma ForestPrefix(p: seq<NodeElement>, x: NodeElement)
    requires Forest(p + [x])
    ensures Forest(p)
  {
    var ns := p + [x];
    ShapePrefix(p, x);
    assert ns[|p|] == x;
    assert forall i :: 0 <= i < |p| ==> ns[i] == p[i];
    assert ns[..|ns| - 1] == p;
    AdditiveStep(p, x, TokenIndex(ns));
    forall i | 0 <= i < |p| && !IsLeaf(p[i].node)
      ensures Lookup(TokenIndex(p), p[i].id) == Sum(TokenIndex(p), p[i].node.children)
    {
      forall c | c in p[i].node.children
        ensures c != x.id
      {
        var j :| 0 <= j < i && p[j].id == c;
        assert Ids(p)[j] == c;
      }
      assert Ids(p)[i] == p[i].id;
      SumAgree(TokenIndex(p), TokenIndex(ns), p[i].node.children);
    }
  }

  /** The roots' token counts together are the leaves' token counts together. */
  lemma RootTokens(ns: seq<NodeElement>)
    requires Forest(ns)
    ensures Sum(TokenIndex(ns), Roots(ns)) == Sum(TokenIndex(ns), LeafIds(ns))
  {
    RootsCarryLeaves(ns, TokenIndex(ns));
  }

  // ----- Expansion -----------------------------------------------------------

  type Bag = multiset<ElementId>

  function BagOf(m: map<ElementId, Bag>, id: ElementId): Bag {
    if id in m then m[id] else multiset{}
  }

  function BagSum(m: map<ElementId, Bag>, ids: seq<ElementId>): Bag {
    if ids == [] then multiset{} else BagOf(m, ids[0]) + BagSum(m, ids[1..])
  }

  /** The body elements each node stands for: its own and its children's. */
  function Expansion(ns: seq<NodeElement>): map<ElementId, Bag>
    requires AllReadable(ns)
  {
    if ns == [] then
      map[]
    else
      var before, x := Expansion(ns[..|ns| - 1]), ns[|ns| - 1];
      before[x.id := multiset(x.node.covered) + BagSum(before, x.node.children)]
  }

  lemma {:induction false} BagSumAgree(m: map<ElementId, Bag>, n: map<ElementId, Bag>, ids: seq<ElementId>)
    requires forall id :: id in ids ==> BagOf(m, id) == BagOf(n, id)
    ensures BagSum(m, ids) == BagSum(n, ids)
  {
    if ids != [] {
      BagSumAgree(m, n, ids[1..]);
    }
  }

  lemma {:induction false} BagSumContains(m: map<ElementId, Bag>, ids: seq<ElementId>, id: ElementId)
    requires id in ids
    ensures BagOf(m, id) <= BagSum(m, ids)
  {
    if id != ids[0] {
      BagSumContains(m, ids[1..], id);
    }
  }

  lemma {:induction false} BagSumHas(m: map<ElementId, Bag>, ids: seq<ElementId>, e: ElementId) returns (id: ElementId)
    requires e in BagSum(m, ids)
    ensures id in ids && e in BagOf(m, id)
  {
    if e in BagOf(m, ids[0]) {
      id := ids[0];
    } else {
      id := BagSumHas(m, ids[1..], e);
    }
  }

  lemma ExpansionStep(p: seq<NodeElement>, x: NodeElement)
    requires AllReadable(p) && AllReadable(p + [x]) && x.Readable?
    ensures Expansion(p + [x]) ==
      Expansion(p)[x.id := multiset(x.node.covered) + BagSum(Expansion(p), x.node.children)]
  {
    assert (p + [x])[..|p|] == p && (p + [x])[|p|] == x;
  }

  /** Every node's expansion obeys the defining equation over the whole map. */
  lemma {:induction false} ExpansionEquation(ns: seq<NodeElement>)
    requires Shape(ns)
    ensures forall id :: id in Expansion(ns) <==> id in Ids(ns)
    ensures forall i :: 0 <= i < |ns| ==>
      BagOf(Expansion(ns), ns[i].id) == multiset(ns[i].node.covered) + BagSum(Expansion(ns), ns[i].node.children)
  {
    if ns != [] {
      var p, x := ns[..|ns| - 1], ns[|ns| - 1];
      assert ns == p + [x];
      ShapePrefix(p, x);
      ExpansionEquation(p);
      ExpansionStep(p, x);
      assert Ids(ns) == Ids(p) + [x.id];
      hide Expansion, BagSum, BagOf;
      forall i | 0 <= i < |ns|
        ensures BagOf(Expansion(ns), ns[i].id) == multiset(ns[i].node.covered) + BagSum(Expansion(ns), ns[i].node.children)
      {
        ExpansionKept(p, x, i);
        if i < |p| {
          assert ns[i] == p[i];
        }
      }
    }
  }

  /** A new node, last in creation order, changes no sum over children and no other node's expansion. */
  lemma ExpansionKept(p: seq<NodeElement>, x: NodeElement, i: nat)
    requires Shape(p + [x]) && AllReadable(p) && i <= |p|
    ensures BagSum(Expansion(p + [x]), (p + [x])[i].node.children) == BagSum(Expansion(p), (p + [x])[i].node.children)
    ensures i < |p| ==> BagOf(Expansion(p + [x]), p[i].id) == BagOf(Expansion(p), p[i].id)
    ensures BagOf(Expansion(p + [x]), x.id) == multiset(x.node.covered) + BagSum(Expansion(p), x.node.children)
  {
    hide Expansion, BagSum;
    var ns := p + [x];
    assert ns[|p|] == x;
    ExpansionStep(p, x);
    forall c | c in ns[i].node.children
      ensures c != x.id
    {
      var j :| 0 <= j < i && ns[j].id == c;
    }
    BagSumAgree(Expansion(ns), Expansion(p), ns[i].node.children);
    if i < |p| {
      assert ns[i].id != x.id;
    }
  }

  /** How often `e` occurs in each node's expansion. */
  function Occurrences(ns: seq<NodeElement>, e: ElementId): map<ElementId, nat>
    requires AllReadable(ns)
  {
    map id | id in Expansion(ns) :: Expansion(ns)[id][e]
  }

  lemma {:induction false} OccurrencesOfSum(ns: seq<NodeElement>, e: ElementId, ids: seq<ElementId>)
    requires AllReadable(ns)
    ensures BagSum(Expansion(ns), ids)[e] == Sum(Occurrences(ns, e), ids)
  {
    if ids != [] {
      OccurrencesOfSum(ns, e, ids[1..]);
    }
  }

  lemma OccurrencesAdditive(ns: seq<NodeElement>, e: ElementId)
    requires Shape(ns) && OneLeaf(ns)
    ensures Additive(ns, Occurrences(ns, e))
  {
    ExpansionEquation(ns);
    forall i | 0 <= i < |ns| && !IsLeaf(ns[i].node)
      ensures Lookup(Occurrences(ns, e), ns[i].id) == Sum(Occurrences(ns, e), ns[i].node.children)
    {
      OccurrencesOfSum(ns, e, ns[i].node.children);
      assert Ids(ns)[i] == ns[i].id;
      assert ns[i].node.covered == [];
    }
  }

  lemma {:induction false} DistinctBag(s: seq<ElementId>, e: ElementId)
    requires NoDuplicates(s)
    ensures multiset(s)[e] == if e in s then 1 else 0
  {
    if s != [] {
      DistinctBag(s[1..], e);
      assert s == [s[0]] + s[1..];
      assert s[0] !in s[1..];
    }
  }

  lemma LeafOccurrencesStep(p: seq<NodeElement>, x: NodeElement, e: ElementId)
    requires Forest(p + [x]) && Forest(p) && x.Readable?
    ensures Sum(Occurrences(p + [x], e), LeafIds(p)) == Sum(Occurrences(p, e), LeafIds(p))
    ensures IsLeaf(x.node) ==> Lookup(Occurrences(p + [x], e), x.id) == if e in x.node.covered then 1 else 0
    ensures !IsLeaf(x.node) ==> x.node.covered == []
  {
    ShapePrefix(p, x);
    ExpansionStep(p, x);
    LeafIdsAreIds(p);
    SumAgree(Occurrences(p + [x], e), Occurrences(p, e), LeafIds(p));
    CoveredStep(p, x);
    DistinctBag(x.node.covered, e);
    assert IsLeaf(x.node) ==> BagSum(Expansion(p), x.node.children) == multiset{};
  }

  lemma {:induction false} LeafOccurrences(ns: seq<NodeElement>, e: ElementId)
    requires Forest(ns)
    ensures Sum(Occurrences(ns, e), LeafIds(ns)) == if e in CoveredBy(ns) then 1 else 0
  {
    if ns != [] {
      var p, x := ns[..|ns| - 1], ns[|ns| - 1];
      assert ns == p + [x];
      ForestPrefix(p, x);
      LeafOccurrences(p, e);
      LeafSumStep(p, x, Occurrences(ns, e));
      LeafOccurrencesStep(p, x, e);
      CoveredStep(p, x);
    }
  }

  lemma {:induction false} LeafIdsAreIds(ns: seq<NodeElement>)
    requires AllReadable(ns)
    ensures forall id :: id in LeafIds(ns) ==> id in Ids(ns)
  {
    if ns != [] {
      LeafIdsAreIds(ns[..|ns| - 1]);
      assert Ids(ns) == Ids(ns[..|ns| - 1]) + [ns[|ns| - 1].id];
    }
  }

  lemma CoveredStep(p: seq<NodeElement>, x: NodeElement)
    requires Forest(p + [x]) && AllReadable(p) && x.Readable?
    ensures CoveredBy(p + [x]) == CoveredBy(p) + Elements(x.node.covered)
    ensures CoveredBy(p) !! Elements(x.node.covered)
    ensures NoDuplicates(x.node.covered) && (!IsLeaf(x.node) ==> x.node.covered == [])
  {
    var ns := p + [x];
    assert ns[|p|] == x;
    assert forall i :: 0 <= i < |p| ==> ns[i] == p[i];
  }

  /** In a forest a sum of one over distinct roots singles out one root. */
  lemma {:induction false} SumOne(m: map<ElementId, nat>, ids: seq<ElementId>) returns (r: ElementId)
    requires NoDuplicates(ids) && Sum(m, ids) == 1
    ensures r in ids && Lookup(m, r) == 1
    ensures forall id :: id in ids && id != r ==> Lookup(m, id) == 0
  {
    if Lookup(m, ids[0]) == 1 {
      r := ids[0];
      SumZero(m, ids[1..]);
    } else {
      r := SumOne(m, ids[1..]);
    }
  }

  lemma {:induction false} SumZero(m: map<ElementId, nat>, ids: seq<ElementId>)
    requires Sum(m, ids) == 0
    ensures forall id :: id in ids ==> Lookup(m, id) == 0
  {
    if ids != [] {
      SumZero(m, ids[1..]);
    }
  }

  lemma {:induction false} SumBounds(m: map<ElementId, nat>, ids: seq<ElementId>, id: ElementId)
    requires id in ids
    ensures Lookup(m, id) <= Sum(m, ids)
  {
    if ids[0] != id {
      SumBounds(m, ids[1..], id);
    }
  }

  /** Every covered element is reachable from exactly one root, exactly once. */
  lemma CoveredFromOneRoot(ns: seq<NodeElement>, e: ElementId) returns (r: ElementId)
    requires Forest(ns) && e in CoveredBy(ns)
    ensures r in Roots(ns) && BagOf(Expansion(ns), r)[e] == 1
    ensures forall id :: id in Roots(ns) && id != r ==> e !in BagOf(Expansion(ns), id)
  {
    OccurrencesAdditive(ns, e);
    RootsCarryLeaves(ns, Occurrences(ns, e));
    LeafOccurrences(ns, e);
    WithoutKeepsDistinct(Ids(ns), ChildIds(ns));
    r := SumOne(Occurrences(ns, e), Roots(ns));
  }

  /** Every covered element is named by exactly one leaf. */
  lemma CoveredByOneLeaf(ns: seq<NodeElement>, e: ElementId) returns (i: nat)
    requires Forest(ns) && e in CoveredBy(ns)
    ensures i < |ns| && IsLeaf(ns[i].node) && multiset(ns[i].node.covered)[e] == 1
    ensures forall j :: 0 <= j < |ns| && j != i ==> e !in ns[j].node.covered
  {
    i :| 0 <= i < |ns| && e in ns[i].node.covered;
    DistinctBag(ns[i].node.covered, e);
  }

  function Sizes(ns: seq<NodeElement>): map<ElementId, nat>
    requires AllReadable(ns)
  {
    map id | id in Expansion(ns) :: |Expansion(ns)[id]|
  }

  lemma {:induction false} SizeOfSum(ns: seq<NodeElement>, ids: seq<ElementId>)
    requires AllReadable(ns)
    ensures |BagSum(Expansion(ns), ids)| == Sum(Sizes(ns), ids)
  {
    if ids != [] {
      SizeOfSum(ns, ids[1..]);
    }
  }

  lemma SizesAdditive(ns: seq<NodeElement>)
    requires Shape(ns) && OneLeaf(ns)
    ensures Additive(ns, Sizes(ns))
  {
    ExpansionEquation(ns);
    forall i | 0 <= i < |ns| && !IsLeaf(ns[i].node)
      ensures Lookup(Sizes(ns), ns[i].id) == Sum(Sizes(ns), ns[i].node.children)
    {
      SizeOfSum(ns, ns[i].node.children);
      assert Ids(ns)[i] == ns[i].id;
      assert ns[i].node.covered == [];
    }
  }

  lemma {:induction false} DistinctSetSize(s: seq<ElementId>)
    requires NoDuplicates(s)
    ensures |Elements(s)| == |s|
  {
    if s != [] {
      DistinctSetSize(s[1..]);
      var rest := Elements(s[1..]);
      assert s[0] !in s[1..];
      assert Elements(s) == {s[0]} + rest;
      assert |{s[0]} + rest| == 1 + |rest|;
    }
  }

  lemma LeafSizeStep(p: seq<NodeElement>, x: NodeElement)
    requires Forest(p + [x]) && Forest(p) && x.Readable?
    ensures Sum(Sizes(p + [x]), LeafIds(p)) == Sum(Sizes(p), LeafIds(p))
    ensures IsLeaf(x.node) ==> Lookup(Sizes(p + [x]), x.id) == |x.node.covered|
  {
    ShapePrefix(p, x);
    ExpansionStep(p, x);
    LeafIdsAreIds(p);
    SumAgree(Sizes(p + [x]), Sizes(p), LeafIds(p));
    assert IsLeaf(x.node) ==> BagSum(Expansion(p), x.node.children) == multiset{};
  }

  lemma CoveredSizeStep(p: seq<NodeElement>, x: NodeElement)
    requires Forest(p + [x]) && Forest(p) && x.Readable?
    ensures |CoveredBy(p + [x])| == |CoveredBy(p)| + if IsLeaf(x.node) then |x.node.covered| else 0
  {
    CoveredStep(p, x);
    DistinctSetSize(x.node.covered);
    var a, b := CoveredBy(p), Elements(x.node.covered);
    assert |a + b| == |a| + |b|;
  }

  lemma {:induction false} LeafSizes(ns: seq<NodeElement>)
    requires Forest(ns)
    ensures Sum(Sizes(ns), LeafIds(ns)) == |CoveredBy(ns)|
  {
    if ns != [] {
      var p, x := ns[..|ns| - 1], ns[|ns| - 1];
      assert ns == p + [x];
      ForestPrefix(p, x);
      ShapePrefix(p, x);
      LeafSizes(p);
      LeafSumStep(p, x, Sizes(ns));
      LeafSizeStep(p, x);
      CoveredSizeStep(p, x);
    }
  }

  /** The roots' expansions together count every covered element once. */
  lemma RootsCountCovered(ns: seq<NodeElement>)
    requires Forest(ns)
    ensures Sum(Sizes(ns), Roots(ns)) == |CoveredBy(ns)|
  {
    SizesAdditive(ns);
    RootsCarryLeaves(ns, Sizes(ns));
    LeafSizes(ns);
  }

  // ----- Breadth-first expansion ---------------------------------------------

  ghost predicate Closed(nodes: map<ElementId, SummaryNode>, s: set<ElementId>) {
    forall id, c :: id in s && id in nodes && c in nodes[id].children ==> c in s
  }

  /** `v` is exactly what following children from `root` reaches. */
  ghost predicate Reached(nodes: map<ElementId, SummaryNode>, root: ElementId, v: set<ElementId>) {
    root in v && Closed(nodes, v) && forall s: set<ElementId> :: root in s && Closed(nodes, s) ==> v <= s
  }

  ghost predicate Expands(nodes: map<ElementId, SummaryNode>, root: ElementId, v: set<ElementId>, expanded: seq<ElementId>) {
    Reached(nodes, root, v) && NoDuplicates(expanded) &&
    forall e :: e in expanded <==> exists id :: id in v && id in nodes && e in nodes[id].covered
  }

  /** The ids not met before, each at its first occurrence. */
  function Fresh(ids: seq<ElementId>, met: set<ElementId>): (found: seq<ElementId>)
    ensures forall id :: id in found ==> id !in met
  {
    if ids == [] then []
    else if ids[0] in met then Fresh(ids[1..], met)
    else [ids[0]] + Fresh(ids[1..], met + {ids[0]})
  }

  /** The children of the nodes, in order. */
  function ChildrenOf(nodes: map<ElementId, SummaryNode>, ids: seq<ElementId>): seq<ElementId> {
    if ids == [] then []
    else (if ids[0] in nodes then nodes[ids[0]].children else []) + ChildrenOf(nodes, ids[1..])
  }

  /** What the nodes cover themselves, in order. */
  function CoveredOf(nodes: map<ElementId, SummaryNode>, ids: seq<ElementId>): seq<ElementId> {
    if ids == [] then []
    else (if ids[0] in nodes then nodes[ids[0]].covered else []) + CoveredOf(nodes, ids[1..])
  }

  lemma {:induction false} UnknownHaveNoChildren(nodes: map<ElementId, SummaryNode>, ids: seq<ElementId>)
    requires forall id :: id in ids ==> id !in nodes
    ensures ChildrenOf(nodes, ids) == []
  {
    if ids != [] {
      UnknownHaveNoChildren(nodes, ids[1..]);
    }
  }

  /** The nodes reached, level by level: all of one distance in order, then their children. */
  function Levels(nodes: map<ElementId, SummaryNode>, level: seq<ElementId>, met: set<ElementId>): seq<ElementId>
    decreases nodes.Keys - met, |level|
  {
    var found := Fresh(level, met);
    if found == [] then []
    else
      LevelsEnd(nodes, level, met);
      found + Levels(nodes, ChildrenOf(nodes, found), met + Elements(found))
  }

  /** A level with nothing known in it is the last one. */
  lemma LevelsEnd(nodes: map<ElementId, SummaryNode>, level: seq<ElementId>, met: set<ElementId>)
    requires Fresh(level, met) != []
    ensures var found := Fresh(level, met);
      var rest := nodes.Keys - (met + Elements(found));
      rest < nodes.Keys - met || (rest == nodes.Keys - met && |ChildrenOf(nodes, found)| < |level|)
  {
    hide Fresh;
    var found := Fresh(level, met);
    NothingFresh(met);
    if id :| id in found && id in nodes {
      assert id !in met && id in Elements(found);
    } else {
      UnknownHaveNoChildren(nodes, found);
      assert level != [];
    }
  }

  lemma NothingFresh(met: set<ElementId>)
    ensures Fresh([], met) == []
  {
  }

  /** The order in which a queue visits the nodes. */
  function Visits(nodes: map<ElementId, SummaryNode>, queue: seq<ElementId>, met: set<ElementId>): seq<ElementId>
    decreases nodes.Keys - met, |queue|
  {
    if queue == [] then []
    else if queue[0] in met then Visits(nodes, queue[1..], met)
    else if queue[0] !in nodes then [queue[0]] + Visits(nodes, queue[1..], met + {queue[0]})
    else [queue[0]] + Visits(nodes, queue[1..] + nodes[queue[0]].children, met + {queue[0]})
  }

  lemma ElementsAdd(met: set<ElementId>, a: seq<ElementId>, b: seq<ElementId>)
    ensures met + Elements(a + b) == met + Elements(a) + Elements(b)
    ensures |a| == 1 ==> Elements(a) == {a[0]}
    ensures met + Elements([]) == met
  {
  }

  lemma Regroup(a: seq<ElementId>, b: seq<ElementId>, c: seq<ElementId>)
    ensures a + b + c == a + (b + c)
  {
  }

  lemma FreshFirst(ids: seq<ElementId>, met: set<ElementId>)
    requires ids != []
    ensures Fresh(ids, met) == if ids[0] in met then Fresh(ids[1..], met) else [ids[0]] + Fresh(ids[1..], met + {ids[0]})
  {
  }

  lemma ChildrenFirst(nodes: map<ElementId, SummaryNode>, id: ElementId, rest: seq<ElementId>)
    ensures ChildrenOf(nodes, [id] + rest) == (if id in nodes then nodes[id].children else []) + ChildrenOf(nodes, rest)
  {
    assert ([id] + rest)[1..] == rest;
  }

  lemma VisitsMet(nodes: map<ElementId, SummaryNode>, queue: seq<ElementId>, met: set<ElementId>)
    requires queue != [] && queue[0] in met
    ensures Visits(nodes, queue, met) == Visits(nodes, queue[1..], met)
  {
  }

  /** A queue works off its level, putting the children behind what already waits. */
  lemma {:induction false} VisitsLevel(nodes: map<ElementId, SummaryNode>, level: seq<ElementId>, next: seq<ElementId>,
                                       met: set<ElementId>)
    ensures var found := Fresh(level, met);
      Visits(nodes, level + next, met) == found + Visits(nodes, next + ChildrenOf(nodes, found), met + Elements(found))
    decreases |level|
  {
    hide Visits, Fresh, ChildrenOf, Elements;
    if level == [] {
      NothingFresh(met);
      ElementsAdd(met, [], []);
      NothingFollows(nodes, met);
      assert level + next == next && next + [] == next;
    } else {
      var id, rest := level[0], level[1..];
      assert (level + next)[1..] == rest + next;
      FreshFirst(level, met);
      if id in met {
        VisitsMet(nodes, level + next, met);
        VisitsLevel(nodes, rest, next, met);
      } else {
        var children := if id in nodes then nodes[id].children else [];
        var found := Fresh(rest, met + {id});
        VisitsOne(nodes, level + next, met);
        VisitsLevel(nodes, rest, next + children, met + {id});
        ChildrenFirst(nodes, id, found);
        Regroup(rest, next, children);
        Regroup(next, children, ChildrenOf(nodes, found));
        Regroup([id], found, Visits(nodes, next + (children + ChildrenOf(nodes, found)), met + {id} + Elements(found)));
        ElementsAdd(met, [id], found);
      }
    }
  }

  /** Visiting in queue order is visiting level by level. */
  lemma {:induction false} VisitsAreLevels(nodes: map<ElementId, SummaryNode>, level: seq<ElementId>, met: set<ElementId>)
    ensures Visits(nodes, level, met) == Levels(nodes, level, met)
    decreases nodes.Keys - met, |level|
  {
    hide Visits, Fresh, ChildrenOf;
    var found := Fresh(level, met);
    VisitsLevel(nodes, level, [], met);
    assert level + [] == level && [] + ChildrenOf(nodes, found) == ChildrenOf(nodes, found);
    if found == [] {
      NothingFollows(nodes, met);
      assert met + Elements([]) == met;
    } else {
      LevelsEnd(nodes, level, met);
      VisitsAreLevels(nodes, ChildrenOf(nodes, found), met + Elements(found));
    }
  }

  lemma NothingFollows(nodes: map<ElementId, SummaryNode>, met: set<ElementId>)
    ensures Visits(nodes, [], met) == [] && ChildrenOf(nodes, []) == []
  {
  }

  /** Level by level from `root`, what each node covers, each element once. */
  ghost predicate BreadthFirst(nodes: map<ElementId, SummaryNode>, root: ElementId, expanded: seq<ElementId>) {
    expanded == Fresh(CoveredOf(nodes, Levels(nodes, [root], {})), {})
  }

  lemma {:induction false} FreshConcat(a: seq<ElementId>, b: seq<ElementId>, met: set<ElementId>)
    ensures Fresh(a + b, met) == Fresh(a, met) + Fresh(b, met + Elements(a))
  {
    hide Elements;
    if a == [] {
      ElementsAdd(met, [], []);
      assert a + b == b;
    } else {
      assert (a + b)[1..] == a[1..] + b;
      assert a == [a[0]] + a[1..];
      ElementsAdd(met, [a[0]], a[1..]);
      FreshConcat(a[1..], b, met + {a[0]});
      assert a[0] in met ==> met + {a[0]} == met;
    }
  }

  lemma {:induction false} FreshElements(a: seq<ElementId>, met: set<ElementId>)
    ensures met + Elements(Fresh(a, met)) == met + Elements(a)
  {
    if a != [] {
      FreshElements(a[1..], met);
      FreshElements(a[1..], met + {a[0]});
      assert Elements(a) == {a[0]} + Elements(a[1..]);
      var rest := Fresh(a[1..], met + {a[0]});
      assert Elements([a[0]] + rest) == {a[0]} + Elements(rest);
    }
  }

  lemma {:induction false} CoveredOfAppend(nodes: map<ElementId, SummaryNode>, ids: seq<ElementId>, id: ElementId)
    ensures CoveredOf(nodes, ids + [id]) == CoveredOf(nodes, ids) + if id in nodes then nodes[id].covered else []
  {
    if ids == [] {
      assert ids + [id] == [id] && [id][1..] == [];
    } else {
      assert (ids + [id])[1..] == ids[1..] + [id];
      CoveredOfAppend(nodes, ids[1..], id);
    }
  }

  /** The part of the walk behind a queue: visited so far, listed so far, still to visit. */
  ghost predicate Walking(nodes: map<ElementId, SummaryNode>, root: ElementId, order: seq<ElementId>, queue: seq<ElementId>,
                          visited: set<ElementId>, expanded: seq<ElementId>)
  {
    && order + Visits(nodes, queue, visited) == Visits(nodes, [root], {})
    && expanded == Fresh(CoveredOf(nodes, order), {})
  }

  lemma WalkStarts(nodes: map<ElementId, SummaryNode>, root: ElementId)
    ensures Walking(nodes, root, [], [root], {}, [])
  {
    hide Visits;
  }

  lemma WalkSkips(nodes: map<ElementId, SummaryNode>, root: ElementId, order: seq<ElementId>, queue: seq<ElementId>,
                  visited: set<ElementId>, expanded: seq<ElementId>)
    requires queue != [] && queue[0] in visited && Walking(nodes, root, order, queue, visited, expanded)
    ensures Walking(nodes, root, order, queue[1..], visited, expanded)
  {
    hide Fresh, CoveredOf;
  }

  lemma WalkVisits(nodes: map<ElementId, SummaryNode>, root: ElementId, order: seq<ElementId>, queue: seq<ElementId>,
                   visited: set<ElementId>, expanded: seq<ElementId>)
    requires queue != [] && queue[0] !in visited && Walking(nodes, root, order, queue, visited, expanded)
    ensures queue[0] !in nodes ==>
      Walking(nodes, root, order + [queue[0]], queue[1..], visited + {queue[0]}, expanded)
    ensures queue[0] in nodes ==>
      Walking(nodes, root, order + [queue[0]], queue[1..] + nodes[queue[0]].children, visited + {queue[0]},
              expanded + Fresh(nodes[queue[0]].covered, Elements(expanded)))
  {
    hide Visits, Fresh, CoveredOf, Elements;
    var id := queue[0];
    var children := if id in nodes then nodes[id].children else [];
    VisitsOne(nodes, queue, visited);
    OrderGrows(order, id, Visits(nodes, queue[1..] + children, visited + {id}));
    assert queue[1..] + [] == queue[1..];
    ListGrows(nodes, order, id);
  }

  lemma OrderGrows(order: seq<ElementId>, id: ElementId, rest: seq<ElementId>)
    ensures order + ([id] + rest) == order + [id] + rest
  {
  }

  /** What one more node adds to the list. */
  lemma ListGrows(nodes: map<ElementId, SummaryNode>, order: seq<ElementId>, id: ElementId)
    ensures var expanded := Fresh(CoveredOf(nodes, order), {});
      Fresh(CoveredOf(nodes, order + [id]), {}) ==
        if id in nodes then expanded + Fresh(nodes[id].covered, Elements(expanded)) else expanded
  {
    hide Fresh, CoveredOf;
    CoveredOfAppend(nodes, order, id);
    var covered := CoveredOf(nodes, order);
    assert covered + [] == covered;
    if id in nodes {
      FreshConcat(covered, nodes[id].covered, {});
      FreshElements(covered, {});
      assert {} + Elements(covered) == Elements(covered);
      assert {} + Elements(Fresh(covered, {})) == Elements(Fresh(covered, {}));
    }
  }

  lemma VisitsOne(nodes: map<ElementId, SummaryNode>, queue: seq<ElementId>, met: set<ElementId>)
    requires queue != [] && queue[0] !in met
    ensures Visits(nodes, queue, met) == [queue[0]] +
      Visits(nodes, queue[1..] + if queue[0] in nodes then nodes[queue[0]].children else [], met + {queue[0]})
  {
    assert queue[1..] + [] == queue[1..];
  }

  lemma WalkEnds(nodes: map<ElementId, SummaryNode>, root: ElementId, order: seq<ElementId>, visited: set<ElementId>,
                 expanded: seq<ElementId>)
    requires Walking(nodes, root, order, [], visited, expanded)
    ensures BreadthFirst(nodes, root, expanded)
  {
    hide Fresh, CoveredOf, Levels;
    NothingFollows(nodes, visited);
    assert order + [] == order;
    VisitsAreLevels(nodes, [root], {});
  }

  /** Breadth first from `root`, keeping first occurrences; terminates on cyclic input too. */
  method ExpandCovered(nodes: map<ElementId, SummaryNode>, root: ElementId)
    returns (expanded: seq<ElementId>, ghost reached: set<ElementId>)
    ensures Expands(nodes, root, reached, expanded)
    ensures BreadthFirst(nodes, root, expanded)
    ensures NoDuplicates(expanded)
  {
    hide Walking, BreadthFirst;
    WalkStarts(nodes, root);
    ghost var order: seq<ElementId> := [];
    var visited: set<ElementId> := {};
    var seen: set<ElementId> := {};
    var queue := [root];
    expanded := [];
    while queue != []
      invariant root in visited || root in queue
      invariant forall s: set<ElementId> :: root in s && Closed(nodes, s) ==>
        visited <= s && forall q :: q in queue ==> q in s
      invariant forall id, c :: id in visited && id in nodes && c in nodes[id].children ==> c in visited || c in queue
      invariant Walking(nodes, root, order, queue, visited, expanded)
      invariant NoDuplicates(expanded) && seen == Elements(expanded)
      invariant forall e :: e in expanded <==> exists id :: id in visited && id in nodes && e in nodes[id].covered
      decreases nodes.Keys - visited, |queue|
    {
      var id := queue[0];
      if id in visited {
        WalkSkips(nodes, root, order, queue, visited, expanded);
        queue := queue[1..];
        continue;
      }
      WalkVisits(nodes, root, order, queue, visited, expanded);
      order := order + [id];
      queue := queue[1..];
      visited := visited + {id};
      if id !in nodes {
        continue;
      }
      queue := queue + nodes[id].children;
      expanded, seen := Extend(expanded, seen, nodes[id].covered);
    }
    WalkEnds(nodes, root, order, visited, expanded);
    reached := visited;
  }

  /** Appends the entries of `more` not seen yet. */
  method Extend(expanded: seq<ElementId>, seen: set<ElementId>, more: seq<ElementId>)
    returns (expanded': seq<ElementId>, seen': set<ElementId>)
    requires NoDuplicates(expanded) && seen == Elements(expanded)
    ensures NoDuplicates(expanded') && seen' == Elements(expanded')
    ensures forall e :: e in expanded' <==> e in expanded || e in more
    ensures expanded' == expanded + Fresh(more, seen)
  {
    hide Fresh;
    NothingFresh(seen);
    assert more[..0] == [] && more[..|more|] == more;
    expanded', seen' := expanded, seen;
    for i := 0 to |more|
      invariant NoDuplicates(expanded') && seen' == Elements(expanded')
      invariant forall e :: e in expanded' <==> e in expanded || e in more[..i]
      invariant expanded' == expanded + Fresh(more[..i], seen)
    {
      assert more[..i + 1] == more[..i] + [more[i]];
      FreshOneMore(more[..i], more[i], seen);
      if more[i] !in seen' {
        expanded', seen' := expanded' + [more[i]], seen' + {more[i]};
      }
    }
  }

  lemma FreshOneMore(ids: seq<ElementId>, id: ElementId, met: set<ElementId>)
    ensures Fresh(ids + [id], met) == Fresh(ids, met) + if id in met || id in Fresh(ids, met) then [] else [id]
  {
    FreshConcat(ids, [id], met);
    FreshElements(ids, met);
    assert [id][1..] == [];
    assert id in met || id in Fresh(ids, met) <==> id in met + Elements(Fresh(ids, met));
  }

  lemma {:induction false} LoadedOrder(ns: seq<NodeElement>)
    requires AllReadable(ns)
    ensures Loaded(ns).order == Ids(ns) && Loaded(ns).unreadable == 0
    ensures Loaded(ns).children == ChildIds(ns)
  {
    if ns != [] {
      var p, x := ns[..|ns| - 1], ns[|ns| - 1];
      LoadedOrder(p);
      assert ns == p + [x];
      IdsStep(p, x);
      ChildIdsStep(p, x);
      LoadedAppend(p, x);
    }
  }

  lemma IdsStep(p: seq<NodeElement>, x: NodeElement)
    ensures Ids(p + [x]) == Ids(p) + [x.id]
  {
  }

  lemma {:induction false} LoadedNodes(ns: seq<NodeElement>)
    requires AllReadable(ns) && DistinctIds(ns)
    ensures forall id :: id in Loaded(ns).nodes <==> id in Ids(ns)
    ensures forall i :: 0 <= i < |ns| ==> ns[i].id in Loaded(ns).nodes && Loaded(ns).nodes[ns[i].id] == ns[i].node
  {
    if ns != [] {
      var p, x := ns[..|ns| - 1], ns[|ns| - 1];
      LoadedNodes(p);
      assert ns == p + [x];
      IdsStep(p, x);
      LoadedAppend(p, x);
      forall i | 0 <= i < |ns|
        ensures ns[i].id in Loaded(ns).nodes && Loaded(ns).nodes[ns[i].id] == ns[i].node
      {
        if i < |p| {
          assert ns[i] == p[i] && ns[i].id != x.id;
        }
      }
    }
  }

  lemma {:induction false} LoadedTexts(ns: seq<NodeElement>)
    requires AllReadable(ns) && DistinctIds(ns)
    ensures forall id :: id in Loaded(ns).texts <==> id in Ids(ns)
    ensures forall i :: 0 <= i < |ns| ==> ns[i].id in Loaded(ns).texts && Loaded(ns).texts[ns[i].id] == ns[i].text
  {
    if ns != [] {
      var p, x := ns[..|ns| - 1], ns[|ns| - 1];
      LoadedTexts(p);
      assert ns == p + [x];
      IdsStep(p, x);
      LoadedAppend(p, x);
      forall i | 0 <= i < |ns|
        ensures ns[i].id in Loaded(ns).texts && Loaded(ns).texts[ns[i].id] == ns[i].text
      {
        if i < |p| {
          assert ns[i] == p[i] && ns[i].id != x.id;
        }
      }
    }
  }

  lemma ChildIdsStep(p: seq<NodeElement>, x: NodeElement)
    requires AllReadable(p + [x]) && AllReadable(p) && x.Readable?
    ensures ChildIds(p + [x]) == ChildIds(p) + Elements(x.node.children)
  {
    var ns := p + [x];
    assert ns[|p|] == x;
    assert forall i :: 0 <= i < |p| ==> ns[i] == p[i];
    forall c | c in ChildIds(p)
      ensures c in ChildIds(ns)
    {
      var i :| 0 <= i < |p| && c in p[i].node.children;
      assert c in ns[i].node.children;
    }
  }

  lemma {:induction false} OccursAtMostOnce(ns: seq<NodeElement>, i: nat, e: ElementId)
    requires Forest(ns) && i < |ns|
    ensures BagOf(Expansion(ns), ns[i].id)[e] <= 1
  {
    var p, x := ns[..|ns| - 1], ns[|ns| - 1];
    assert ns == p + [x];
    ForestPrefix(p, x);
    ShapePrefix(p, x);
    if i < |p| {
      assert ns[i] == p[i] && Ids(p)[i] == p[i].id;
      OccursAtMostOnce(p, i, e);
      ExpansionStep(p, x);
    } else {
      OccurrencesAdditive(ns, e);
      RootsCarryLeaves(ns, Occurrences(ns, e));
      LeafOccurrences(ns, e);
      RootsStep(p, x);
      assert x.id in Roots(ns);
      SumBounds(Occurrences(ns, e), Roots(ns), x.id);
      ExpansionStep(p, x);
    }
  }

  /** Following children from a node finds each element of its expansion in some node reached. */
  lemma {:induction false} ExpansionIsReached(ns: seq<NodeElement>, i: nat, e: ElementId, v: set<ElementId>)
    returns (j: nat)
    requires Shape(ns) && i < |ns| && ns[i].id in v && Closed(Loaded(ns).nodes, v)
    requires e in BagOf(Expansion(ns), ns[i].id)
    ensures j < |ns| && ns[j].id in v && e in ns[j].node.covered
    decreases i
  {
    ExpansionEquation(ns);
    LoadedNodes(ns);
    if e in ns[i].node.covered {
      j := i;
    } else {
      var c := BagSumHas(Expansion(ns), ns[i].node.children, e);
      var k :| 0 <= k < i && ns[k].id == c;
      j := ExpansionIsReached(ns, k, e, v);
    }
  }

  lemma ChildIsWithin(ns: seq<NodeElement>, id: ElementId, c: ElementId)
    requires Shape(ns) && id in Loaded(ns).nodes && c in Loaded(ns).nodes[id].children
    ensures c in Ids(ns) && BagOf(Expansion(ns), c) <= BagOf(Expansion(ns), id)
  {
    ExpansionEquation(ns);
    LoadedNodes(ns);
    var i :| 0 <= i < |ns| && Ids(ns)[i] == id;
    var j :| 0 <= j < i && ns[j].id == c;
    assert Ids(ns)[j] == c;
    BagSumContains(Expansion(ns), ns[i].node.children, c);
  }

  lemma ReachedIsWithin(ns: seq<NodeElement>, root: ElementId, v: set<ElementId>)
    requires Shape(ns) && root in Ids(ns) && Reached(Loaded(ns).nodes, root, v)
    ensures forall id :: id in v ==> BagOf(Expansion(ns), id) <= BagOf(Expansion(ns), root)
  {
    var within := set id | id in Ids(ns) && BagOf(Expansion(ns), id) <= BagOf(Expansion(ns), root);
    forall id, c | id in within && id in Loaded(ns).nodes && c in Loaded(ns).nodes[id].children
      ensures c in within
    {
      ChildIsWithin(ns, id, c);
    }
    assert Closed(Loaded(ns).nodes, within);
  }

  lemma ExpandedIsWithin(ns: seq<NodeElement>, root: ElementId, v: set<ElementId>, e: ElementId)
    requires Forest(ns) && root in Ids(ns) && Reached(Loaded(ns).nodes, root, v)
    requires exists id :: id in v && id in Loaded(ns).nodes && e in Loaded(ns).nodes[id].covered
    ensures e in BagOf(Expansion(ns), root)
  {
    LoadedNodes(ns);
    ExpansionEquation(ns);
    ReachedIsWithin(ns, root, v);
    var id :| id in v && id in Loaded(ns).nodes && e in Loaded(ns).nodes[id].covered;
    var i :| 0 <= i < |ns| && Ids(ns)[i] == id;
    assert e in multiset(ns[i].node.covered);
    assert e in BagOf(Expansion(ns), id);
  }

  lemma WithinIsExpanded(ns: seq<NodeElement>, root: ElementId, v: set<ElementId>, e: ElementId)
    requires Forest(ns) && root in Ids(ns) && Reached(Loaded(ns).nodes, root, v)
    requires e in BagOf(Expansion(ns), root)
    ensures exists id :: id in v && id in Loaded(ns).nodes && e in Loaded(ns).nodes[id].covered
  {
    var r :| 0 <= r < |ns| && Ids(ns)[r] == root;
    var j := ExpansionIsReached(ns, r, e, v);
    LoadedNodes(ns);
  }

  /** In a forest the breadth-first walk from a node lists that node's expansion. */
  lemma ExpandedIsExpansion(ns: seq<NodeElement>, root: ElementId, v: set<ElementId>, expanded: seq<ElementId>)
    requires Forest(ns) && root in Ids(ns) && Expands(Loaded(ns).nodes, root, v, expanded)
    ensures multiset(expanded) == BagOf(Expansion(ns), root)
  {
    var r :| 0 <= r < |ns| && Ids(ns)[r] == root;
    forall e
      ensures multiset(expanded)[e] == BagOf(Expansion(ns), root)[e]
    {
      DistinctBag(expanded, e);
      OccursAtMostOnce(ns, r, e);
      if e in expanded {
        ExpandedIsWithin(ns, root, v, e);
      }
      if e in BagOf(Expansion(ns), root) {
        WithinIsExpanded(ns, root, v, e);
      }
    }
  }
}
