/**
 The journal as compaction writes it, and the renderings of summary nodes that
 go into it and into the request.
 */
module SummaryJournal {
  import opened Wrappers
  import opened Text
  import opened Dom
  import opened Tokens
  import opened Projection
  import opened SummaryForest
  import opened SummaryRuns

  /** No element of the document has the name yet. */
  predicate Unused(id: ElementId, body: seq<Element>, ns: seq<NodeElement>) {
    (forall i :: 0 <= i < |body| ==> body[i].id != id) && (forall i :: 0 <= i < |ns| ==> ns[i].id != id)
  }

  function Bound(body: seq<Element>, ns: seq<NodeElement>): (b: nat)
    ensures forall i :: 0 <= i < |body| ==> body[i].id < b
    ensures forall i :: 0 <= i < |ns| ==> ns[i].id < b
  {
    if body != [] then Max(Bound(body[1..], ns), body[0].id + 1)
    else if ns != [] then Max(Bound(body, ns[1..]), ns[0].id + 1)
    else 0
  }

  /** A journal whose writes either become durable or fail and change nothing. */
  class Journal {
    var body: seq<Element>
    var nodes: seq<NodeElement>
    var offset: nat

    constructor ()
      ensures body == [] && nodes == [] && offset == 0
    {
      body, nodes, offset := [], [], 0;
    }

    method AppendBody(e: Element) returns (ok: bool)
      modifies this
      ensures ok ==> body == old(body) + [e] && offset == old(offset) + 1
      ensures !ok ==> body == old(body) && offset == old(offset)
      ensures nodes == old(nodes)
    {
      ok := *;
      if ok {
        body, offset := body + [e], offset + 1;
      }
    }

    /** Records a node under a freshly minted name, after every other node. */
    method CreateNode(node: SummaryNode, text: string) returns (id: Option<ElementId>)
      modifies this
      ensures body == old(body)
      ensures id.Some? ==>
        && Unused(id.value, old(body), old(nodes))
        && nodes == old(nodes) + [Readable(id.value, node, text)]
        && offset == old(offset) + 1
      ensures id.None? ==> nodes == old(nodes) && offset == old(offset)
    {
      assert Unused(Bound(body, nodes), body, nodes);
      var minted: nat :| Unused(minted, body, nodes);
      var ok := *;
      if ok {
        nodes, offset := nodes + [Readable(minted, node, text)], offset + 1;
        id := Some(minted);
      } else {
        id := None;
      }
    }

    method ReplaceNodeText(id: ElementId, text: string) returns (ok: bool)
      modifies this
      ensures body == old(body)
      ensures ok ==> nodes == WithText(old(nodes), id, text) && offset == old(offset) + 1
      ensures !ok ==> nodes == old(nodes) && offset == old(offset)
    {
      ok := *;
      if ok {
        nodes, offset := WithText(nodes, id, text), offset + 1;
      }
    }
  }

  // ----- Rendering -----------------------------------------------------------

  /** A folded node as the request carries it. */
  datatype Fold = Fold(summary: string, foldedCount: nat, originalTokens: nat)

  function NodeOf(dag: SummaryDag, id: ElementId): SummaryNode {
    if id in dag.nodes then dag.nodes[id] else SummaryNode([], [], 0, 0)
  }

  function TextOf(dag: SummaryDag, id: ElementId): string {
    if id in dag.texts then dag.texts[id] else []
  }

  function FoldText(id: ElementId, elements: nat, tokens: nat, text: string): string {
    "[compacted " + Decimal(elements) + " earlier elements, ~" + Decimal(tokens)
    + " tokens. Expand the originals" + " with Read summary://" + Decimal(id) + "]\n" + text
  }

  /** What one root's fold must say: how many elements the walk from it finds, and their tokens. */
  ghost predicate FoldFor(dag: SummaryDag, id: ElementId, fold: Fold) {
    exists reached, expanded :: Expands(dag.nodes, id, reached, expanded) &&
      var node := NodeOf(dag, id);
      fold == Fold(
        FoldText(id, Max(|expanded|, |node.covered|), node.coveredTokens, TextOf(dag, id)),
        |expanded|,
        node.coveredTokens)
  }

  method Folds(dag: SummaryDag) returns (folds: seq<Fold>)
    ensures |folds| == |dag.Roots()|
    ensures forall i :: 0 <= i < |folds| ==> FoldFor(dag, dag.Roots()[i], folds[i])
  {
    folds := [];
    var roots := dag.Roots();
    hide FoldText, Expands;
    for i := 0 to |roots|
      invariant |folds| == i
      invariant forall j :: 0 <= j < i ==> FoldFor(dag, roots[j], folds[j])
    {
      var expanded, reached := ExpandCovered(dag.nodes, roots[i]);
      var node := NodeOf(dag, roots[i]);
      var fold := Fold(
        FoldText(roots[i], Max(|expanded|, |node.covered|), node.coveredTokens, TextOf(dag, roots[i])),
        |expanded|,
        node.coveredTokens);
      assert FoldFor(dag, roots[i], fold);
      folds := folds + [fold];
    }
  }

  function FoldedCount(folds: seq<Fold>): nat {
    if folds == [] then 0 else folds[0].foldedCount + FoldedCount(folds[1..])
  }

  function FoldedTokens(folds: seq<Fold>): nat {
    if folds == [] then 0 else folds[0].originalTokens + FoldedTokens(folds[1..])
  }

  lemma {:induction false} FoldsSum(ns: seq<NodeElement>, roots: seq<ElementId>, folds: seq<Fold>)
    requires Forest(ns) && |folds| == |roots|
    requires forall i :: 0 <= i < |roots| ==> roots[i] in Ids(ns) && FoldFor(Loaded(ns), roots[i], folds[i])
    ensures FoldedCount(folds) == Sum(Sizes(ns), roots)
    ensures FoldedTokens(folds) == Sum(TokenIndex(ns), roots)
  {
    if roots != [] {
      FoldsSum(ns, roots[1..], folds[1..]);
      FoldIsExact(ns, roots[0], folds[0]);
    }
  }

  lemma {:induction false} TokenIndexLookup(ns: seq<NodeElement>, i: nat)
    requires AllReadable(ns) && DistinctIds(ns) && i < |ns|
    ensures Lookup(TokenIndex(ns), ns[i].id) == ns[i].node.coveredTokens
  {
    var n := |ns| - 1;
    if i < n {
      TokenIndexLookup(ns[..n], i);
    }
  }

  lemma FoldIsExact(ns: seq<NodeElement>, root: ElementId, fold: Fold)
    requires Forest(ns) && root in Ids(ns) && FoldFor(Loaded(ns), root, fold)
    ensures fold.foldedCount == Lookup(Sizes(ns), root)
    ensures fold.originalTokens == Lookup(TokenIndex(ns), root)
  {
    var reached, expanded :| Expands(Loaded(ns).nodes, root, reached, expanded) && fold.foldedCount == |expanded|;
    hide Forest;
    ExpandedIsExpansion(ns, root, reached, expanded);
    assert |multiset(expanded)| == |expanded|;
    FoldTokens(ns, root, fold);
    SizeIsExpansion(ns, root);
  }

  lemma SizeIsExpansion(ns: seq<NodeElement>, id: ElementId)
    requires AllReadable(ns)
    ensures Lookup(Sizes(ns), id) == |BagOf(Expansion(ns), id)|
  {
  }

  lemma FoldTokens(ns: seq<NodeElement>, root: ElementId, fold: Fold)
    requires Forest(ns) && root in Ids(ns) && FoldFor(Loaded(ns), root, fold)
    ensures fold.originalTokens == Lookup(TokenIndex(ns), root)
  {
    var i :| 0 <= i < |ns| && Ids(ns)[i] == root;
    LoadedNodes(ns);
    TokenIndexLookup(ns, i);
  }

  /** The folds together stand for every covered element once, and for exactly the tokens elided. */
  lemma FoldsStandForCovered(ns: seq<NodeElement>, folds: seq<Fold>)
    requires Forest(ns) && |folds| == |Loaded(ns).Roots()|
    requires forall i :: 0 <= i < |folds| ==> FoldFor(Loaded(ns), Loaded(ns).Roots()[i], folds[i])
    ensures FoldedCount(folds) == |CoveredBy(ns)| && FoldedTokens(folds) == RootTotal(ns)
  {
    LoadedOrder(ns);
    var roots := Roots(ns);
    assert forall i :: 0 <= i < |roots| ==> roots[i] in roots;
    FoldsSum(ns, roots, folds);
    RootsCountCovered(ns);
  }

  // ----- Inventories ---------------------------------------------------------

  function IndexOf(entries: seq<BodyEntry>): map<ElementId, BodyEntry> {
    if entries == [] then map[] else
      IndexOf(entries[..|entries| - 1])[entries[|entries| - 1].id := entries[|entries| - 1]]
  }

  function InventoryLine(index: map<ElementId, BodyEntry>, id: ElementId): string {
    "- " + (if id in index then index[id].preview else "(element no longer in the transcript)") + "\n"
  }

  function InventoryLines(index: map<ElementId, BodyEntry>, ids: seq<ElementId>): string {
    if ids == [] then [] else
      InventoryLines(index, ids[..|ids| - 1]) + InventoryLine(index, ids[|ids| - 1])
  }

  function InventoryHeader(): string {
    "Elided transcript elements " + "(originals retrievable by id):\n"
  }

  method RenderInventory(index: map<ElementId, BodyEntry>, ids: seq<ElementId>) returns (out: string)
    ensures out == InventoryHeader() + InventoryLines(index, ids)
  {
    hide InventoryHeader, InventoryLine;
    out := InventoryHeader();
    for i := 0 to |ids|
      invariant out == InventoryHeader() + InventoryLines(index, ids[..i])
    {
      assert ids[..i + 1][..i] == ids[..i];
      out := out + InventoryLine(index, ids[i]);
    }
    assert ids[..|ids|] == ids;
  }

  function CondensedLine(id: ElementId, elements: nat, tokens: nat): string {
    "- summary://" + Decimal(id) + " \U{2014} " + Decimal(elements) + " elements, ~" + Decimal(tokens) + " tokens\n"
  }

  /** One line a child: the number of elements it stands for and their tokens. */
  function CondensedLines(ns: seq<NodeElement>, ids: seq<ElementId>): string
    requires AllReadable(ns)
  {
    if ids == [] then [] else
      var id := ids[|ids| - 1];
      CondensedLines(ns, ids[..|ids| - 1]) + ChildLine(ns, id)
  }

  /** A child's line counts its expansion. */
  function ChildLine(ns: seq<NodeElement>, id: ElementId): string
    requires AllReadable(ns)
  {
    CondensedLine(id, |BagOf(Expansion(ns), id)|, Lookup(TokenIndex(ns), id))
  }

  function CondensedHeader(): string {
    "Condensed summary of earlier " + "compactions (children keep the originals):\n"
  }

  lemma CountedChild(ns: seq<NodeElement>, id: ElementId, reached: set<ElementId>, expanded: seq<ElementId>)
    requires Forest(ns) && id in Ids(ns) && Expands(Loaded(ns).nodes, id, reached, expanded)
    ensures var node := NodeOf(Loaded(ns), id);
      CondensedLine(id, Max(|expanded|, |node.covered|), node.coveredTokens) == ChildLine(ns, id)
  {
    hide CondensedLine;
    ExpandedIsExpansion(ns, id, reached, expanded);
    assert |multiset(expanded)| == |expanded|;
    LoadedNodes(ns);
    ExpansionEquation(ns);
    var i :| 0 <= i < |ns| && Ids(ns)[i] == id;
    TokenIndexLookup(ns, i);
    assert |multiset(ns[i].node.covered)| == |ns[i].node.covered|;
  }

  method RenderCondensed(ghost ns: seq<NodeElement>, dag: SummaryDag, children: seq<ElementId>) returns (out: string)
    requires Forest(ns) && dag == Loaded(ns) && forall c :: c in children ==> c in Ids(ns)
    ensures out == CondensedHeader() + CondensedLines(ns, children)
  {
    hide CondensedHeader, CondensedLine, ChildLine, OneLeaf, Additive, CreationOrder, OneParent, DistinctIds,
         Expands, Ids, Loaded, NodeOf;
    out := CondensedHeader();
    for i := 0 to |children|
      invariant out == CondensedHeader() + CondensedLines(ns, children[..i])
    {
      assert children[..i + 1][..i] == children[..i];
      var id := children[i];
      var expanded, reached := ExpandCovered(dag.nodes, id);
      CountedChild(ns, id, reached, expanded);
      var node := NodeOf(dag, id);
      out := out + CondensedLine(id, Max(|expanded|, |node.covered|), node.coveredTokens);
    }
    assert children[..|children|] == children;
  }
}
