/**
 One compaction pass: elide, condense, reduce, cap. Every pass ends with the
 projection under the hard bound or with nothing left that may give way.

 The stages that write do so through the journal, and each reports the steps it
 took. A pass is therefore a run of allowed steps even when a write fails half
 way, and a session is a run of passes; what holds of every run holds of both.
 The stages that only decide are measured against the projection the request
 will really have, so a pass that ends under the bound makes a request that fits.
 */
module Planner {
  import opened Wrappers
  import opened Text
  import opened Dom
  import opened Tokens
  import opened Projection
  import opened SummaryForest
  import opened SummaryRuns
  import opened SummaryJournal
  import opened Elision
  import opened Reducing

  const CONDENSE_FAN_IN: nat := 4

  datatype Outcome = Outcome(folds: seq<Fold>, covered: set<ElementId>, reductions: Reductions)

  // ----- What the projection costs -------------------------------------------

  function TextTokens(texts: map<ElementId, string>): map<ElementId, nat> {
    map id | id in texts :: Estimate(texts[id])
  }

  function RootCost(tokens: map<ElementId, nat>, roots: seq<ElementId>): nat {
    if roots == [] then 0 else Lookup(tokens, roots[0]) + NODE_HEADER_TOKENS + RootCost(tokens, roots[1..])
  }

  function ProjectedTokens(entries: seq<BodyEntry>, covered: set<ElementId>, dag: SummaryDag,
                           nodeTokens: map<ElementId, nat>, reductions: Reductions, overhead: nat): nat
  {
    overhead + BodyCost(entries, covered, reductions) + RootCost(nodeTokens, dag.Roots())
  }

  /** The roots' texts at their estimates, and a header of 24 tokens for each. */
  lemma {:induction false} RootCostIs(tokens: map<ElementId, nat>, roots: seq<ElementId>)
    ensures RootCost(tokens, roots) == Sum(tokens, roots) + 24 * |roots|
  {
    if roots != [] {
      RootCostIs(tokens, roots[1..]);
    }
  }

  // ----- Committing the elision ----------------------------------------------

  /** Tokens the entries named by `ids` are charged. */
  function ChargedFor(index: map<ElementId, BodyEntry>, ids: seq<ElementId>): nat {
    if ids == [] then 0 else (if ids[0] in index then index[ids[0]].Tokens() else 0) + ChargedFor(index, ids[1..])
  }

  lemma {:induction false} IndexFinds(entries: seq<BodyEntry>, i: nat)
    requires DistinctEntries(entries) && i < |entries|
    ensures entries[i].id in IndexOf(entries) && IndexOf(entries)[entries[i].id] == entries[i]
  {
    var n := |entries| - 1;
    if i < n {
      IndexFinds(entries[..n], i);
    }
  }

  /** Covering one entry takes its charge out of the body's. */
  lemma {:induction false} CoveringOne(entries: seq<BodyEntry>, covered: set<ElementId>, i: nat)
    requires DistinctEntries(entries) && i < |entries| && entries[i].id !in covered
    ensures BodyCost(entries, covered, map[]) ==
      BodyCost(entries, covered + {entries[i].id}, map[]) + entries[i].Tokens()
  {
    var id := entries[i].id;
    if i == 0 {
      CoveringNone(entries[1..], covered, id);
    } else {
      CoveringOne(entries[1..], covered, i - 1);
      assert entries[0].id != id;
    }
  }

  lemma {:induction false} CoveringNone(entries: seq<BodyEntry>, covered: set<ElementId>, id: ElementId)
    requires forall e :: e in entries ==> e.id != id
    ensures BodyCost(entries, covered + {id}, map[]) == BodyCost(entries, covered, map[])
  {
    if entries != [] {
      CoveringNone(entries[1..], covered, id);
    }
  }

  /** The elements are entries of the body. */
  predicate AllEntered(entries: seq<BodyEntry>, ids: seq<ElementId>) {
    forall id :: id in ids ==> exists i :: 0 <= i < |entries| && entries[i].id == id
  }

  /** A leaf records exactly what covering its elements takes out of the body's unreduced charge. */
  lemma {:induction false} CoveringTakesCharge(entries: seq<BodyEntry>, covered: set<ElementId>, ids: seq<ElementId>)
    requires DistinctEntries(entries) && NoDuplicates(ids) && AllEntered(entries, ids)
    requires forall id :: id in ids ==> id !in covered
    ensures BodyCost(entries, covered, map[]) ==
      BodyCost(entries, covered + Elements(ids), map[]) + ChargedFor(IndexOf(entries), ids)
    decreases |ids|
  {
    hide IndexOf, BodyCost, BodyEntry.Tokens, DistinctEntries;
    if ids == [] {
      assert covered + Elements(ids) == covered;
    } else {
      var id, rest := ids[0], ids[1..];
      assert id in ids;
      var i :| 0 <= i < |entries| && entries[i].id == id;
      IndexFinds(entries, i);
      CoveringOne(entries, covered, i);
      assert forall r :: r in rest ==> r in ids && r != id;
      CoveringTakesCharge(entries, covered + {id}, rest);
      assert covered + {id} + Elements(rest) == covered + Elements(ids);
    }
  }

  /** The step one leaf records for the elements `ids`. */
  ghost predicate ElidesExactly(s: Step, entries: seq<BodyEntry>, ids: seq<ElementId>) {
    && s.Elide?
    && s.covered == ids
    && s.tokens == ChargedFor(IndexOf(entries), ids)
    && s.text == InventoryHeader() + InventoryLines(IndexOf(entries), ids)
  }

  method CommitElision(journal: Journal, entries: seq<BodyEntry>, ids: seq<ElementId>, dag: SummaryDag)
    returns (ok: bool, dag': SummaryDag, ghost step: Step)
    requires Forest(journal.nodes) && dag == Loaded(journal.nodes)
    requires NoDuplicates(ids) && forall id :: id in ids ==> id !in CoveredBy(journal.nodes)
    modifies journal
    ensures journal.body == old(journal.body)
    ensures ok ==>
      && Allowed(old(journal.nodes), step)
      && journal.nodes == Apply(old(journal.nodes), step)
      && ElidesExactly(step, entries, ids)
      && dag' == Loaded(journal.nodes)
    ensures !ok ==> journal.nodes == old(journal.nodes)
  {
    hide Estimate, InventoryHeader, InventoryLines, IndexOf, ChargedFor;
    var index := IndexOf(entries);
    var tokens := ChargedFor(index, ids);
    var node := SummaryNode(ids, [], tokens, journal.offset);
    var text := RenderInventory(index, ids);
    ghost var at := journal.offset;
    var id := journal.CreateNode(node, text);
    if id.None? {
      return false, dag, Elide(0, ids, tokens, at, text);
    }
    step := Elide(id.value, ids, tokens, at, text);
    UnusedIsNew(id.value, old(journal.body), old(journal.nodes));
    LoadedAppend(old(journal.nodes), Readable(id.value, node, text));
    dag' := dag.(
      order := dag.order + [id.value],
      nodes := dag.nodes[id.value := node],
      texts := dag.texts[id.value := text]);
    assert dag' == AddElement(dag, Readable(id.value, node, text)) by {
      assert dag.children + Elements([]) == dag.children;
    }
    ok := true;
  }

  lemma UnusedIsNew(id: ElementId, body: seq<Element>, ns: seq<NodeElement>)
    requires Unused(id, body, ns)
    ensures id !in Ids(ns)
  {
  }

  // ----- Condensing ----------------------------------------------------------

  function NodeTokens(dag: SummaryDag, ids: seq<ElementId>): nat {
    if ids == [] then 0 else NodeOf(dag, ids[0]).coveredTokens + NodeTokens(dag, ids[1..])
  }

  lemma {:induction false} NodeTokensAreIndexed(ns: seq<NodeElement>, ids: seq<ElementId>)
    requires AllReadable(ns) && DistinctIds(ns) && forall id :: id in ids ==> id in Ids(ns)
    ensures NodeTokens(Loaded(ns), ids) == Sum(TokenIndex(ns), ids)
  {
    if ids != [] {
      assert ids[0] in ids;
      var i :| 0 <= i < |ns| && Ids(ns)[i] == ids[0];
      LoadedNodes(ns);
      TokenIndexLookup(ns, i);
      NodeTokensAreIndexed(ns, ids[1..]);
    }
  }

  /** One condensation of the oldest roots. */
  ghost predicate CondensesOldest(ns: seq<NodeElement>, s: Step)
    requires Forest(ns)
  {
    && s.Condense?
    && s.fanIn == Min(CONDENSE_FAN_IN, |Roots(ns)|)
    && s.fanIn >= 2
    && s.text == CondensedHeader() + CondensedLines(ns, Roots(ns)[..s.fanIn])
    && Allowed(ns, s)
  }

  method CondenseOnce(journal: Journal, dag: SummaryDag) returns (ok: bool, dag': SummaryDag, ghost step: Step)
    requires Forest(journal.nodes) && dag == Loaded(journal.nodes) && |dag.Roots()| >= 2
    modifies journal
    ensures journal.body == old(journal.body)
    ensures ok ==>
      && CondensesOldest(old(journal.nodes), step)
      && journal.nodes == Apply(old(journal.nodes), step)
      && Forest(journal.nodes)
      && dag' == Loaded(journal.nodes)
      && |dag'.Roots()| < |dag.Roots()|
    ensures !ok ==> journal.nodes == old(journal.nodes)
  {
    ghost var ns := journal.nodes;
    LoadedOrder(ns);
    var roots := dag.Roots();
    var foldSet := roots[..Min(CONDENSE_FAN_IN, |roots|)];
    FoldSetFacts(ns, |foldSet|);
    hide OneLeaf, Additive, CreationOrder, OneParent, CondensedHeader, CondensedLines;
    var coveredTokens := NodeTokens(dag, foldSet);
    var text := RenderCondensed(ns, dag, foldSet);
    var node := SummaryNode([], foldSet, coveredTokens, journal.offset);
    ghost var at := journal.offset;
    var id := journal.CreateNode(node, text);
    if id.None? {
      return false, dag, Condense(0, |foldSet|, at, text);
    }
    step := Condense(id.value, |foldSet|, at, text);
    UnusedIsNew(id.value, journal.body, ns);
    StepKeepsForest(ns, step);
    CondensedRoots(ns, step);
    dag' := Load(journal.nodes);
    LoadedOrder(journal.nodes);
    ok := true;
  }

  lemma FoldSetFacts(ns: seq<NodeElement>, k: nat)
    requires Forest(ns) && k <= |Roots(ns)|
    ensures forall c :: c in Roots(ns)[..k] ==> c in Ids(ns)
    ensures NodeTokens(Loaded(ns), Roots(ns)[..k]) == Sum(TokenIndex(ns), Roots(ns)[..k])
  {
    assert forall c :: c in Roots(ns)[..k] ==> c in Roots(ns);
    NodeTokensAreIndexed(ns, Roots(ns)[..k]);
  }

  /** Every step of the run condenses the oldest roots of the state it is taken in. */
  ghost predicate AllCondense(ns: seq<NodeElement>, steps: seq<Step>)
    requires Forest(ns) && RunAllowed(ns, steps)
    decreases |steps|
  {
    steps == [] ||
    var front := steps[..|steps| - 1];
    AllCondense(ns, front) && CondensesOldest(Run(ns, front), steps[|steps| - 1])
  }

  lemma {:induction false} CondensingElidesNothing(ns: seq<NodeElement>, steps: seq<Step>)
    requires Forest(ns) && RunAllowed(ns, steps) && AllCondense(ns, steps)
    ensures ElidedBy(steps) == {} && ElidedTokens(steps) == 0
    decreases |steps|
  {
    hide Forest, Allowed;
    if steps != [] {
      CondensingElidesNothing(ns, steps[..|steps| - 1]);
    }
  }

  lemma CondenseMore(ns: seq<NodeElement>, steps: seq<Step>, s: Step)
    requires Forest(ns) && RunAllowed(ns, steps) && AllCondense(ns, steps) && CondensesOldest(Run(ns, steps), s)
    ensures RunAllowed(ns, steps + [s]) && AllCondense(ns, steps + [s])
    ensures Run(ns, steps + [s]) == Apply(Run(ns, steps), s)
  {
    CondenseIsAllowed(Run(ns, steps), s);
    hide Forest, Allowed, Apply, CondensesOldest;
    RunAppend(ns, steps, s);
    assert (steps + [s])[..|steps|] == steps;
  }

  /** Stage 2b: fold the oldest roots together until few enough are left. */
  method CondenseStage(journal: Journal, dag: SummaryDag, config: CompactionConfig)
    returns (ok: bool, dag': SummaryDag, ghost steps: seq<Step>)
    requires Forest(journal.nodes) && dag == Loaded(journal.nodes)
    modifies journal
    ensures journal.body == old(journal.body)
    ensures RunAllowed(old(journal.nodes), steps) && AllCondense(old(journal.nodes), steps)
    ensures journal.nodes == Run(old(journal.nodes), steps) && Forest(journal.nodes)
    ensures ok ==> dag' == Loaded(journal.nodes) && |dag'.Roots()| <= Max(config.maxRootNodes, 1)
  {
    ghost var start := journal.nodes;
    dag' := dag;
    steps := [];
    hide Forest, Allowed, Apply, CondensesOldest, Loaded;
    while |dag'.Roots()| > Max(config.maxRootNodes, 1)
      invariant journal.body == old(journal.body)
      invariant Forest(journal.nodes) && dag' == Loaded(journal.nodes)
      invariant RunAllowed(start, steps) && AllCondense(start, steps) && journal.nodes == Run(start, steps)
      decreases |dag'.Roots()|
    {
      var done, next, step := CondenseOnce(journal, dag');
      if !done {
        return false, dag', steps;
      }
      CondenseMore(start, steps, step);
      steps := steps + [step];
      dag' := next;
    }
    ok := true;
  }

  lemma CondenseIsAllowed(ns: seq<NodeElement>, s: Step)
    requires Forest(ns) && CondensesOldest(ns, s)
    ensures Allowed(ns, s) && !s.Elide?
  {
  }

  // ----- Capping inventories -------------------------------------------------

  /** The root's text is too long, and those of the roots before it are not. */
  ghost predicate OldestOversized(roots: seq<ElementId>, dag: SummaryDag, id: ElementId) {
    && ByteLen(TextOf(dag, id)) > MAX_NODE_TEXT_BYTES
    && exists k :: 0 <= k < |roots| && roots[k] == id &&
         forall j :: 0 <= j < k ==> ByteLen(TextOf(dag, roots[j])) <= MAX_NODE_TEXT_BYTES
  }

  function FirstOversized(roots: seq<ElementId>, dag: SummaryDag): (id: Option<ElementId>)
    ensures id.Some? ==> id.value in roots && OldestOversized(roots, dag, id.value)
    ensures id.None? ==> forall r :: r in roots ==> ByteLen(TextOf(dag, r)) <= MAX_NODE_TEXT_BYTES
  {
    if roots == [] then None
    else if ByteLen(TextOf(dag, roots[0])) > MAX_NODE_TEXT_BYTES then Some(roots[0])
    else FirstOversized(roots[1..], dag)
  }

  lemma {:induction false} RootCostUpdate(tokens: map<ElementId, nat>, roots: seq<ElementId>, r: ElementId, t: nat)
    requires NoDuplicates(roots) && r in roots
    ensures RootCost(tokens[r := t], roots) + Lookup(tokens, r) == RootCost(tokens, roots) + t
  {
    if roots[0] == r {
      SameRootCost(tokens, tokens[r := t], roots[1..]);
    } else {
      RootCostUpdate(tokens, roots[1..], r, t);
    }
  }

  lemma {:induction false} SameRootCost(a: map<ElementId, nat>, b: map<ElementId, nat>, roots: seq<ElementId>)
    requires forall r :: r in roots ==> Lookup(a, r) == Lookup(b, r)
    ensures RootCost(a, roots) == RootCost(b, roots)
  {
    if roots != [] {
      SameRootCost(a, b, roots[1..]);
    }
  }

  /** Replacing a node's text in the journal is replacing it in the loaded index. */
  lemma LoadedWithText(ns: seq<NodeElement>, id: ElementId, text: string)
    requires Forest(ns) && id in Ids(ns)
    ensures Loaded(WithText(ns, id, text)) == Loaded(ns).(texts := Loaded(ns).texts[id := text])
  {
    var q := WithText(ns, id, text);
    SameButText(ns, q);
    LoadedOrder(ns);
    LoadedOrder(q);
    SameLoadedNodes(ns, q);
    TextsWithText(ns, id, text);
  }

  lemma SameLoadedNodes(p: seq<NodeElement>, q: seq<NodeElement>)
    requires AllReadable(p) && AllReadable(q) && DistinctIds(p) && DistinctIds(q) && |p| == |q|
    requires forall i :: 0 <= i < |p| ==> p[i].id == q[i].id && p[i].node == q[i].node
    ensures Loaded(p).nodes == Loaded(q).nodes
  {
    LoadedNodes(p);
    LoadedNodes(q);
    assert Ids(p) == Ids(q);
    forall id | id in Loaded(p).nodes
      ensures Loaded(p).nodes[id] == Loaded(q).nodes[id]
    {
      var i :| 0 <= i < |p| && Ids(p)[i] == id;
      assert q[i].id == id;
    }
  }

  lemma TextsWithText(ns: seq<NodeElement>, id: ElementId, text: string)
    requires AllReadable(ns) && DistinctIds(ns) && id in Ids(ns)
    ensures Loaded(WithText(ns, id, text)).texts == Loaded(ns).texts[id := text]
  {
    var q := WithText(ns, id, text);
    LoadedTexts(ns);
    LoadedTexts(q);
    assert Ids(ns) == Ids(q);
    forall n | n in Loaded(q).texts
      ensures Loaded(q).texts[n] == Loaded(ns).texts[id := text][n]
    {
      var i :| 0 <= i < |ns| && Ids(ns)[i] == n;
      assert q[i].id == n;
    }
  }

  /** One capped inventory, its root too large before and within the limit after. */
  ghost predicate CapsOversized(ns: seq<NodeElement>, s: Step)
    requires Forest(ns)
  {
    && s.CapText?
    && s.id in Roots(ns)
    && Allowed(ns, s)
    && OldestOversized(Roots(ns), Loaded(ns), s.id)
    && s.text == CappedNodeText(TextOf(Loaded(ns), s.id))
  }

  lemma ShorterTextCostsLess(texts: map<ElementId, string>, roots: seq<ElementId>, id: ElementId, text: string)
    requires NoDuplicates(roots) && id in roots && id in texts && Estimate(text) < Estimate(texts[id])
    ensures RootCost(TextTokens(texts[id := text]), roots) < RootCost(TextTokens(texts), roots)
  {
    RootCostUpdate(TextTokens(texts), roots, id, Estimate(text));
    assert TextTokens(texts[id := text]) == TextTokens(texts)[id := Estimate(text)];
  }

  /** Capping one root lowers what the roots cost, by more than nothing. */
  lemma CapLowersRoots(ns: seq<NodeElement>, s: Step)
    requires Forest(ns) && CapsOversized(ns, s)
    ensures Forest(Apply(ns, s))
    ensures Roots(Apply(ns, s)) == Roots(ns)
    ensures Loaded(Apply(ns, s)) == Loaded(ns).(texts := Loaded(ns).texts[s.id := s.text])
    ensures RootCost(TextTokens(Loaded(Apply(ns, s)).texts), Roots(ns)) < RootCost(TextTokens(Loaded(ns).texts), Roots(ns))
    ensures ByteLen(s.text) <= MAX_NODE_TEXT_BYTES
  {
    CapKeepsForest(ns, s.id, s.text);
    LoadedWithText(ns, s.id, s.text);
    CapLowersCost(ns, s);
  }

  lemma CapLowersCost(ns: seq<NodeElement>, s: Step)
    requires Forest(ns) && CapsOversized(ns, s)
    ensures RootCost(TextTokens(Loaded(ns).texts[s.id := s.text]), Roots(ns)) < RootCost(TextTokens(Loaded(ns).texts), Roots(ns))
    ensures ByteLen(s.text) <= MAX_NODE_TEXT_BYTES
  {
    LoadedTexts(ns);
    RootsDistinct(ns);
    hide CappedNodeText, Estimate, Forest, Loaded;
    CapShrinks(TextOf(Loaded(ns), s.id));
    ShorterTextCostsLess(Loaded(ns).texts, Roots(ns), s.id, s.text);
  }

  lemma RootsDistinct(ns: seq<NodeElement>)
    requires Forest(ns)
    ensures NoDuplicates(Roots(ns))
  {
    FirstRootsDistinct(ns, |Roots(ns)|);
    assert Roots(ns)[..|Roots(ns)|] == Roots(ns);
  }

  ghost predicate AllCap(ns: seq<NodeElement>, steps: seq<Step>)
    requires Forest(ns) && RunAllowed(ns, steps)
    decreases |steps|
  {
    steps == [] ||
    var front := steps[..|steps| - 1];
    AllCap(ns, front) && CapsOversized(Run(ns, front), steps[|steps| - 1])
  }

  lemma {:induction false} CappingElidesNothing(ns: seq<NodeElement>, steps: seq<Step>)
    requires Forest(ns) && RunAllowed(ns, steps) && AllCap(ns, steps)
    ensures ElidedBy(steps) == {} && ElidedTokens(steps) == 0
    decreases |steps|
  {
    hide Forest, Allowed;
    if steps != [] {
      CappingElidesNothing(ns, steps[..|steps| - 1]);
    }
  }

  lemma CapMore(ns: seq<NodeElement>, steps: seq<Step>, s: Step)
    requires Forest(ns) && RunAllowed(ns, steps) && AllCap(ns, steps) && CapsOversized(Run(ns, steps), s)
    ensures RunAllowed(ns, steps + [s]) && AllCap(ns, steps + [s])
    ensures Run(ns, steps + [s]) == Apply(Run(ns, steps), s)
  {
    CapIsAllowed(Run(ns, steps), s);
    hide Forest, Allowed, Apply, CapsOversized;
    RunAppend(ns, steps, s);
    assert (steps + [s])[..|steps|] == steps;
  }

  method CapOnce(journal: Journal, dag: SummaryDag, id: ElementId)
    returns (ok: bool, dag': SummaryDag, ghost step: Step)
    requires Forest(journal.nodes) && dag == Loaded(journal.nodes)
    requires id in dag.Roots() && OldestOversized(dag.Roots(), dag, id)
    modifies journal
    ensures journal.body == old(journal.body)
    ensures ok ==>
      && CapsOversized(old(journal.nodes), step)
      && journal.nodes == Apply(old(journal.nodes), step)
      && Forest(journal.nodes)
      && dag' == Loaded(journal.nodes)
      && dag'.Roots() == dag.Roots()
      && RootCost(TextTokens(dag'.texts), dag'.Roots()) < RootCost(TextTokens(dag.texts), dag.Roots())
    ensures !ok ==> journal.nodes == old(journal.nodes)
  {
    ghost var ns := journal.nodes;
    LoadedOrder(ns);
    var capped := CapNodeText(TextOf(dag, id));
    step := CapText(id, capped);
    var done := journal.ReplaceNodeText(id, capped);
    if !done {
      return false, dag, step;
    }
    CapLowersRoots(ns, step);
    dag' := dag.(texts := dag.texts[id := capped]);
    LoadedOrder(journal.nodes);
    ok := true;
  }

  /** The last resort: inventories shrink, each staying expandable. `body` is every other cost. */
  method CapStage(journal: Journal, dag: SummaryDag, body: nat, budget: CompactionBudget)
    returns (ok: bool, dag': SummaryDag, ghost steps: seq<Step>)
    requires Forest(journal.nodes) && dag == Loaded(journal.nodes)
    modifies journal
    ensures journal.body == old(journal.body)
    ensures RunAllowed(old(journal.nodes), steps) && AllCap(old(journal.nodes), steps)
    ensures journal.nodes == Run(old(journal.nodes), steps) && Forest(journal.nodes)
    ensures ok ==>
      && dag' == Loaded(journal.nodes)
      && dag'.Roots() == dag.Roots()
      && RootCost(TextTokens(dag'.texts), dag'.Roots()) <= RootCost(TextTokens(dag.texts), dag.Roots())
      && (budget.ExceedsHardBound(body + RootCost(TextTokens(dag'.texts), dag'.Roots())) ==>
            forall r :: r in dag'.Roots() ==> ByteLen(TextOf(dag', r)) <= MAX_NODE_TEXT_BYTES)
  {
    ghost var start := journal.nodes;
    dag' := dag;
    steps := [];
    hide Forest, Allowed, Apply, CapsOversized, Loaded, RootCost, TextTokens, Without;
    while budget.ExceedsHardBound(body + RootCost(TextTokens(dag'.texts), dag'.Roots()))
      invariant journal.body == old(journal.body)
      invariant Forest(journal.nodes) && dag' == Loaded(journal.nodes) && dag'.Roots() == dag.Roots()
      invariant RunAllowed(start, steps) && AllCap(start, steps) && journal.nodes == Run(start, steps)
      invariant RootCost(TextTokens(dag'.texts), dag'.Roots()) <= RootCost(TextTokens(dag.texts), dag.Roots())
      decreases RootCost(TextTokens(dag'.texts), dag'.Roots())
    {
      var id := FirstOversized(dag'.Roots(), dag');
      if id.None? {
        break;
      }
      var done, next, step := CapOnce(journal, dag', id.value);
      if !done {
        return false, dag', steps;
      }
      CapMore(start, steps, step);
      steps := steps + [step];
      dag' := next;
    }
    ok := true;
  }

  lemma CapIsAllowed(ns: seq<NodeElement>, s: Step)
    requires Forest(ns) && CapsOversized(ns, s)
    ensures Allowed(ns, s) && !s.Elide?
  {
  }

  // ----- One pass ------------------------------------------------------------

  /** What a pass elides: the soft run, then the hard pass if the soft run was not enough. */
  ghost predicate Chosen(pending: seq<ElementId>, entries: seq<BodyEntry>, covered: set<ElementId>, projected: nat,
                         config: CompactionConfig)
  {
    var w := Worthwhile(Older(entries, config), covered);
    exists k :: 0 <= k <= |w| &&
      var soft := IdsOf(w[..k]);
      && (if config.budget.ShouldTrigger(projected)
          then ShortestRun(w, k, projected, config.budget.TargetTokens()) else k == 0)
      && pending == soft +
          if projected - Savings(w[..k]) > config.budget.hardTokens
          then IdsOf(Remaining(entries[..FinalTurnBoundary(entries)], covered, soft)) else []
  }

  lemma {:induction false} ChargedForAppend(index: map<ElementId, BodyEntry>, ids: seq<ElementId>, id: ElementId)
    ensures ChargedFor(index, ids + [id]) == ChargedFor(index, ids) + if id in index then index[id].Tokens() else 0
  {
    if ids == [] {
      assert ids + [id] == [id] && [id][1..] == [];
    } else {
      assert (ids + [id])[1..] == ids[1..] + [id];
      ChargedForAppend(index, ids[1..], id);
    }
  }

  /** Savings are charges less an inventory line and a node header for each entry. */
  lemma {:induction false} SavingsAreCharges(entries: seq<BodyEntry>, some: seq<BodyEntry>)
    requires DistinctEntries(entries)
    requires forall e :: e in some ==> e in entries && e.Tokens() > COVER_COST
    ensures Savings(some) + (INVENTORY_LINE_TOKENS + NODE_HEADER_TOKENS) * |some| == ChargedFor(IndexOf(entries), IdsOf(some))
  {
    hide IndexOf, DistinctEntries, BodyEntry.Tokens;
    if some != [] {
      var n := |some| - 1;
      SavingsAreCharges(entries, some[..n]);
      assert some == some[..n] + [some[n]] && some[n] in some;
      SavingsStep(some[..n], some[n]);
      IdsOfStep(some[..n], some[n]);
      ChargedForAppend(IndexOf(entries), IdsOf(some[..n]), some[n].id);
      var i :| 0 <= i < |entries| && entries[i] == some[n];
      IndexFinds(entries, i);
    }
  }

  /**
   What the soft pass simulates: the body's unreduced charge once its choice is
   covered, with 64 tokens for each covered element.
   */
  lemma SimulatedMeans(entries: seq<BodyEntry>, covered: set<ElementId>, config: CompactionConfig, k: nat)
    requires DistinctEntries(entries) && k <= |Worthwhile(Older(entries, config), covered)|
    ensures var soft := Worthwhile(Older(entries, config), covered)[..k];
      BodyCost(entries, covered, map[]) - Savings(soft) ==
        BodyCost(entries, covered + Elements(IdsOf(soft)), map[]) + (INVENTORY_LINE_TOKENS + NODE_HEADER_TOKENS) * k
  {
    hide IndexOf, BodyCost, ChargedFor, Savings, IdsOf, Worthwhile, Elements, RecentTurnBoundary;
    var w := Worthwhile(Older(entries, config), covered);
    var soft := w[..k];
    WorthwhileFacts(Older(entries, config), covered);
    OlderDistinct(entries, config);
    forall e | e in soft
      ensures e in entries && e.Tokens() > COVER_COST && e.id !in covered
    {
      assert e in w;
    }
    SavingsAreCharges(entries, soft);
    SoftIds(entries, covered, w, k);
    CoveringTakesCharge(entries, covered, IdsOf(soft));
  }

  lemma OlderDistinct(entries: seq<BodyEntry>, config: CompactionConfig)
    requires DistinctEntries(entries)
    ensures DistinctEntries(Older(entries, config))
    ensures forall e :: e in Older(entries, config) ==> e in entries
  {
    hide RecentTurnBoundary;
  }

  lemma SoftIds(entries: seq<BodyEntry>, covered: set<ElementId>, w: seq<BodyEntry>, k: nat)
    requires DistinctEntries(w) && k <= |w|
    requires forall e :: e in w[..k] ==> e in entries && e.id !in covered
    ensures NoDuplicates(IdsOf(w[..k])) && AllEntered(entries, IdsOf(w[..k]))
    ensures forall id :: id in IdsOf(w[..k]) ==> id !in covered
  {
    var soft := w[..k];
    forall id | id in IdsOf(soft)
      ensures id !in covered && exists i :: 0 <= i < |entries| && entries[i].id == id
    {
      var j :| 0 <= j < |soft| && IdsOf(soft)[j] == id;
      assert soft[j] in soft;
      var i :| 0 <= i < |entries| && entries[i] == soft[j];
      assert entries[i].id == id;
    }
  }

  method ChooseElision(entries: seq<BodyEntry>, covered: set<ElementId>, projected: nat, config: CompactionConfig)
    returns (pending: seq<ElementId>)
    requires DistinctEntries(entries) && BodyCost(entries, covered, map[]) <= projected
    ensures Chosen(pending, entries, covered, projected, config)
    ensures NoDuplicates(pending) && forall id :: id in pending ==> Elidable(entries, covered, id)
  {
    hide Worthwhile, Savings, IdsOf, Remaining, FinalTurnBoundary, ShortestRun, BodyCost, Elidable, DistinctEntries;
    var soft, simulated := SelectSoft(entries, covered, projected, config);
    ghost var w := Worthwhile(Older(entries, config), covered);
    PendingIsElidable(entries, covered, config, |soft|);
    if config.budget.ExceedsHardBound(simulated) {
      pending := SelectHard(entries, covered, soft);
    } else {
      pending := soft;
      assert soft + [] == soft;
      PartOfDistinct(soft, IdsOf(Remaining(entries[..FinalTurnBoundary(entries)], covered, soft)));
    }
    assert soft == IdsOf(w[..|soft|]);
  }

  lemma PartOfDistinct(a: seq<ElementId>, b: seq<ElementId>)
    requires NoDuplicates(a + b)
    ensures NoDuplicates(a)
  {
    forall i, j | 0 <= i < j < |a|
      ensures a[i] != a[j]
    {
      assert (a + b)[i] == a[i] && (a + b)[j] == a[j];
    }
  }

  lemma CoveredIsLoaded(ns: seq<NodeElement>)
    requires AllReadable(ns) && DistinctIds(ns)
    ensures Loaded(ns).Covered() == CoveredBy(ns)
  {
    LoadedNodes(ns);
    forall c | c in Loaded(ns).Covered()
      ensures c in CoveredBy(ns)
    {
      var id :| id in Loaded(ns).nodes && c in Loaded(ns).nodes[id].covered;
      var i :| 0 <= i < |ns| && Ids(ns)[i] == id;
      assert c in ns[i].node.covered;
    }
    forall c | c in CoveredBy(ns)
      ensures c in Loaded(ns).Covered()
    {
      var i :| 0 <= i < |ns| && c in ns[i].node.covered;
      assert ns[i].id in Loaded(ns).nodes;
    }
  }

  /** What a pass chose to elide and the writes it made: at most one leaf, then condensations, then caps. */
  datatype PassLog = PassLog(pending: seq<ElementId>, elide: seq<Step>, condense: seq<Step>, cap: seq<Step>) {
    function Steps(): seq<Step> {
      elide + condense + cap
    }
  }

  /** The log tells how `ns` became `after`. */
  ghost predicate LoggedTo(ns: seq<NodeElement>, entries: seq<BodyEntry>, log: PassLog, after: seq<NodeElement>) {
    && Forest(ns)
    && (log.elide == [] ||
        (log.pending != [] && |log.elide| == 1 && ElidesExactly(log.elide[0], entries, log.pending)))
    && RunAllowed(ns, log.elide)
    && var mid := Run(ns, log.elide);
    && RunAllowed(mid, log.condense) && AllCondense(mid, log.condense)
    && var low := Run(mid, log.condense);
    && RunAllowed(low, log.cap) && AllCap(low, log.cap)
    && after == Run(low, log.cap)
  }

  lemma LogNothing(ns: seq<NodeElement>, entries: seq<BodyEntry>, pending: seq<ElementId>)
    requires Forest(ns)
    ensures LoggedTo(ns, entries, PassLog(pending, [], [], []), ns)
  {
  }

  lemma LogElision(ns: seq<NodeElement>, entries: seq<BodyEntry>, pending: seq<ElementId>, s: Step)
    requires Forest(ns) && Allowed(ns, s) && pending != [] && ElidesExactly(s, entries, pending)
    ensures LoggedTo(ns, entries, PassLog(pending, [s], [], []), Apply(ns, s))
    ensures Forest(Apply(ns, s))
  {
    StepKeepsForest(ns, s);
    NothingMore(ns);
    NothingMore(Apply(ns, s));
    hide Forest, ElidesExactly, Allowed, Apply, Run, RunAllowed, AllCondense, AllCap;
    RunAppend(ns, [], s);
    assert [] + [s] == [s];
  }

  lemma NothingMore(ns: seq<NodeElement>)
    requires Forest(ns)
    ensures RunAllowed(ns, []) && Run(ns, []) == ns && AllCondense(ns, []) && AllCap(ns, [])
  {
  }

  lemma LogCondensing(ns: seq<NodeElement>, entries: seq<BodyEntry>, log: PassLog, mid: seq<NodeElement>, steps: seq<Step>)
    requires LoggedTo(ns, entries, log, mid) && log.condense == log.cap == []
    requires Forest(mid) && RunAllowed(mid, steps) && AllCondense(mid, steps)
    ensures LoggedTo(ns, entries, log.(condense := steps), Run(mid, steps))
  {
    hide Forest, ElidesExactly, AllCondense, Allowed, Apply;
  }

  lemma LogCapping(ns: seq<NodeElement>, entries: seq<BodyEntry>, log: PassLog, low: seq<NodeElement>, steps: seq<Step>)
    requires LoggedTo(ns, entries, log, low) && log.cap == []
    requires Forest(low) && RunAllowed(low, steps) && AllCap(low, steps)
    ensures LoggedTo(ns, entries, log.(cap := steps), Run(low, steps))
  {
    hide Forest, ElidesExactly, AllCondense, AllCap, Allowed, Apply;
  }

  /** A logged pass is a run; it covers what it elided, and it never elides twice. */
  lemma LoggedRun(ns: seq<NodeElement>, entries: seq<BodyEntry>, log: PassLog, after: seq<NodeElement>)
    requires LoggedTo(ns, entries, log, after)
    ensures Forest(ns) && RunAllowed(ns, log.Steps()) && after == Run(ns, log.Steps()) && Forest(after)
    ensures CoveredBy(after) == CoveredBy(ns) + if log.elide == [] then {} else Elements(log.pending)
    ensures RootTotal(after) == RootTotal(ns) + if log.elide == [] then 0 else log.elide[0].tokens
  {
    var mid := Run(ns, log.elide);
    var low := Run(mid, log.condense);
    CappingElidesNothing(low, log.cap);
    CondensingElidesNothing(mid, log.condense);
    hide Forest, AllCap, AllCondense, CoveredBy, RootTotal, Elements;
    RunKeepsForest(ns, log.elide);
    RunKeepsForest(mid, log.condense);
    RunKeepsForest(low, log.cap);
    RunConcat(ns, log.elide, log.condense);
    RunConcat(ns, log.elide + log.condense, log.cap);
    if log.elide != [] {
      OneElision(log.elide, entries, log.pending);
    }
  }

  lemma OneElision(elide: seq<Step>, entries: seq<BodyEntry>, pending: seq<ElementId>)
    requires |elide| == 1 && ElidesExactly(elide[0], entries, pending)
    ensures ElidedBy(elide) == Elements(pending) && ElidedTokens(elide) == elide[0].tokens
  {
    assert elide[..0] == [];
  }

  function BodyIds(body: seq<Element>): set<ElementId> {
    set i | 0 <= i < |body| :: body[i].id
  }

  predicate DistinctBody(body: seq<Element>) {
    forall i, j :: 0 <= i < j < |body| ==> body[i].id != body[j].id
  }

  lemma {:induction false} EntriesDistinct(body: seq<Element>)
    requires DistinctBody(body)
    ensures DistinctEntries(Entries(body))
    ensures forall e :: e in Entries(body) ==> e.id in BodyIds(body)
  {
    if body != [] {
      hide EntryOf, Entries;
      var rest := body[1..];
      EntriesDistinct(rest);
      EntriesStep(body);
      EntryKeepsId(body[0]);
      BodyIdsStep(body);
      if EntryOf(body[0]).Some? {
        assert forall e :: e in Entries(rest) ==> e.id != body[0].id;
      }
    }
  }

  lemma BodyIdsStep(body: seq<Element>)
    requires body != [] && DistinctBody(body)
    ensures BodyIds(body) == {body[0].id} + BodyIds(body[1..]) && body[0].id !in BodyIds(body[1..])
  {
    forall id | id in BodyIds(body)
      ensures id in {body[0].id} + BodyIds(body[1..])
    {
      var i :| 0 <= i < |body| && body[i].id == id;
      assert i == 0 || body[1..][i - 1].id == id;
    }
    forall id | id in BodyIds(body[1..])
      ensures id in BodyIds(body) && id != body[0].id
    {
      var i :| 0 <= i < |body[1..]| && body[1..][i].id == id;
      assert body[i + 1].id == id;
    }
  }

  /** The stages that write, in order; `pending` was chosen before any of them. */
  method WriteStages(journal: Journal, entries: seq<BodyEntry>, pending: seq<ElementId>, dag: SummaryDag,
                     config: CompactionConfig)
    returns (ok: bool, dag': SummaryDag, ghost log: PassLog)
    requires Forest(journal.nodes) && dag == Loaded(journal.nodes)
    requires NoDuplicates(pending) && forall id :: id in pending ==> id !in CoveredBy(journal.nodes)
    modifies journal
    ensures journal.body == old(journal.body) && Forest(journal.nodes)
    ensures LoggedTo(old(journal.nodes), entries, log, journal.nodes) && log.pending == pending && log.cap == []
    ensures ok ==>
      && (pending == [] <==> log.elide == [])
      && dag' == Loaded(journal.nodes)
      && |dag'.Roots()| <= Max(config.maxRootNodes, 1)
  {
    ghost var ns := journal.nodes;
    log := PassLog(pending, [], [], []);
    LogNothing(ns, entries, pending);
    dag' := dag;
    hide Forest, CoveredBy, Loaded, ElidesExactly, Allowed, Apply, CondensesOldest, LoggedTo, RunAllowed, Run, AllCondense;
    if pending != [] {
      var done, next, step := CommitElision(journal, entries, pending, dag);
      if !done {
        return false, dag', log;
      }
      LogElision(ns, entries, pending, step);
      log := log.(elide := [step]);
      dag' := next;
    }
    ghost var mid := journal.nodes;
    ghost var condense;
    ok, dag', condense := CondenseStage(journal, dag', config);
    LogCondensing(ns, entries, log, mid, condense);
    log := log.(condense := condense);
  }

  /** The projection before a pass, with nothing newly covered and nothing reduced. */
  function ProjectedBefore(ns: seq<NodeElement>, entries: seq<BodyEntry>, config: CompactionConfig): nat
    requires AllReadable(ns)
  {
    var dag := Loaded(ns);
    ProjectedTokens(entries, CoveredBy(ns), dag, TextTokens(dag.texts), map[], config.fixedOverheadTokens)
  }

  /** The projection the pass leaves the request to build. */
  function After(ns: seq<NodeElement>, entries: seq<BodyEntry>, outcome: Outcome, config: CompactionConfig): nat {
    var dag := Loaded(ns);
    ProjectedTokens(entries, outcome.covered, dag, TextTokens(dag.texts), outcome.reductions, config.fixedOverheadTokens)
  }

  /** Either the hard bound holds, or every entry and inventory that may give way already has. */
  ghost predicate BoundedOrSpent(ns: seq<NodeElement>, entries: seq<BodyEntry>, outcome: Outcome, config: CompactionConfig)
    requires AllReadable(ns)
  {
    config.budget.ExceedsHardBound(After(ns, entries, outcome, config)) ==>
      && Exhausted(entries, outcome.covered, outcome.reductions)
      && forall r :: r in Loaded(ns).Roots() ==> ByteLen(TextOf(Loaded(ns), r)) <= MAX_NODE_TEXT_BYTES
  }

  ghost predicate FoldsExact(dag: SummaryDag, folds: seq<Fold>) {
    |folds| == |dag.Roots()| && forall i :: 0 <= i < |folds| ==> FoldFor(dag, dag.Roots()[i], folds[i])
  }

  /**
   Plans and records one pass. When a write fails the pass stops with an error,
   and what was recorded until then is still a run of allowed steps.
   */
  method Plan(journal: Journal, config: CompactionConfig) returns (result: Option<Outcome>, ghost log: PassLog)
    requires DistinctBody(journal.body)
    requires AllReadable(journal.nodes) ==> Forest(journal.nodes)
    modifies journal
    ensures journal.body == old(journal.body)
    ensures !AllReadable(old(journal.nodes)) ==>
      && journal.nodes == old(journal.nodes)
      && result.Some?
      && result.value.covered == Loaded(journal.nodes).Covered()
      && result.value.reductions == map[]
      && FoldsExact(Loaded(journal.nodes), result.value.folds)
    ensures AllReadable(old(journal.nodes)) ==>
      && LoggedTo(old(journal.nodes), Entries(journal.body), log, journal.nodes)
      && ChosenSafely(log.pending, Entries(journal.body), old(journal.nodes), config)
      && (result.Some? ==> Settled(old(journal.nodes), journal.nodes, Entries(journal.body), log.pending, result.value, config))
  {
    var entries := CollectEntries(journal.body);
    var dag := Load(journal.nodes);
    log := PassLog([], [], [], []);
    UnreadableCount(journal.nodes);
    if dag.unreadable > 0 {
      var folds := Folds(dag);
      return Some(Outcome(folds, dag.Covered(), map[])), log;
    }
    EntriesDistinct(journal.body);
    result, log := PlanReadable(journal, entries, dag, config);
  }

  /** The choice is the soft run plus, if needed, the hard pass, and touches only what may be elided. */
  ghost predicate ChosenSafely(pending: seq<ElementId>, entries: seq<BodyEntry>, ns: seq<NodeElement>, config: CompactionConfig) {
    && AllReadable(ns)
    && Chosen(pending, entries, CoveredBy(ns), ProjectedBefore(ns, entries, config), config)
    && NoDuplicates(pending)
    && forall id :: id in pending ==> Elidable(entries, CoveredBy(ns), id)
  }

  /** What a pass that succeeds leaves behind. */
  ghost predicate Settled(ns: seq<NodeElement>, after: seq<NodeElement>, entries: seq<BodyEntry>, pending: seq<ElementId>,
                          outcome: Outcome, config: CompactionConfig)
  {
    && Forest(ns) && Forest(after)
    && outcome.covered == CoveredBy(after) == CoveredBy(ns) + Elements(pending)
    && |Roots(after)| <= Max(config.maxRootNodes, 1)
    && Sound(entries, outcome.covered, outcome.reductions)
    && InOrder(entries, outcome.covered, outcome.reductions)
    && BoundedOrSpent(after, entries, outcome, config)
    && FoldsExact(Loaded(after), outcome.folds)
  }

  lemma {:induction false} UnreadableCount(ns: seq<NodeElement>)
    ensures Loaded(ns).unreadable == 0 <==> AllReadable(ns)
  {
    if ns != [] {
      UnreadableCount(ns[..|ns| - 1]);
    }
  }

  method PlanReadable(journal: Journal, entries: seq<BodyEntry>, dag: SummaryDag, config: CompactionConfig)
    returns (result: Option<Outcome>, ghost log: PassLog)
    requires DistinctEntries(entries) && Forest(journal.nodes) && dag == Loaded(journal.nodes)
    modifies journal
    ensures journal.body == old(journal.body)
    ensures LoggedTo(old(journal.nodes), entries, log, journal.nodes)
    ensures ChosenSafely(log.pending, entries, old(journal.nodes), config)
    ensures result.Some? ==> Settled(old(journal.nodes), journal.nodes, entries, log.pending, result.value, config)
  {
    ghost var ns := journal.nodes;
    CoveredIsLoaded(ns);
    hide Forest, Loaded, CoveredBy, Without, BodyCost, RootCost, TextTokens, Elidable, Chosen, LoggedTo, DistinctEntries,
         Sound, InOrder, Elements, NoDuplicates, AllCap, RunAllowed, Run, BoundedOrSpent, FoldsExact, Settled;
    var covered := dag.Covered();
    var projected := ProjectedTokens(entries, covered, dag, TextTokens(dag.texts), map[], config.fixedOverheadTokens);
    var pending := ChooseElision(entries, covered, projected, config);
    ElidableIsUncovered(entries, covered, pending);
    var wrote, dag', first := WriteStages(journal, entries, pending, dag, config);
    log := first;
    if !wrote {
      return None, log;
    }
    ghost var low := journal.nodes;
    ghost var cap;
    result, cap := ReduceAndCap(journal, entries, covered + Elements(pending), dag', config);
    LogCapping(ns, entries, log, low, cap);
    log := log.(cap := cap);
    if result.Some? {
      PassSettles(ns, journal.nodes, entries, log, result.value, config);
    }
  }

  /** The stages that give way in place: entries first, inventories last. */
  method ReduceAndCap(journal: Journal, entries: seq<BodyEntry>, covered: set<ElementId>, dag: SummaryDag,
                      config: CompactionConfig)
    returns (result: Option<Outcome>, ghost cap: seq<Step>)
    requires DistinctEntries(entries) && Forest(journal.nodes) && dag == Loaded(journal.nodes)
    modifies journal
    ensures journal.body == old(journal.body)
    ensures RunAllowed(old(journal.nodes), cap) && AllCap(old(journal.nodes), cap)
    ensures journal.nodes == Run(old(journal.nodes), cap) && Forest(journal.nodes)
    ensures result.Some? ==>
      && result.value.covered == covered
      && |Loaded(journal.nodes).Roots()| == |dag.Roots()|
      && Sound(entries, covered, result.value.reductions)
      && InOrder(entries, covered, result.value.reductions)
      && BoundedOrSpent(journal.nodes, entries, result.value, config)
      && FoldsExact(Loaded(journal.nodes), result.value.folds)
  {
    hide Forest, Loaded, Without, BodyCost, RootCost, TextTokens, DistinctEntries, Exhausted, Sound, InOrder,
         AllCap, RunAllowed, Run, FoldFor;
    var rest := config.fixedOverheadTokens + RootCost(TextTokens(dag.texts), dag.Roots());
    var reductions, reduced, saved := ReduceEntries(entries, covered, rest, config.budget);
    var body := config.fixedOverheadTokens + BodyCost(entries, covered, reductions);
    var capped, last;
    capped, last, cap := CapStage(journal, dag, body, config.budget);
    if !capped {
      return None, cap;
    }
    var folds := Folds(last);
    result := Some(Outcome(folds, covered, reductions));
  }

  lemma PassSettles(ns: seq<NodeElement>, after: seq<NodeElement>, entries: seq<BodyEntry>, log: PassLog,
                    outcome: Outcome, config: CompactionConfig)
    requires LoggedTo(ns, entries, log, after) && (log.pending == [] <==> log.elide == [])
    requires Forest(ns) && Forest(after)
    requires outcome.covered == CoveredBy(ns) + Elements(log.pending)
    requires |Loaded(after).Roots()| <= Max(config.maxRootNodes, 1)
    requires Sound(entries, outcome.covered, outcome.reductions) && InOrder(entries, outcome.covered, outcome.reductions)
    requires BoundedOrSpent(after, entries, outcome, config) && FoldsExact(Loaded(after), outcome.folds)
    ensures Settled(ns, after, entries, log.pending, outcome, config)
  {
    LoadedOrder(after);
    LoggedRun(ns, entries, log, after);
    assert Elements([]) == {};
    hide Forest, LoggedTo, CoveredBy, Sound, InOrder, BoundedOrSpent, FoldsExact;
  }

  lemma ElidableIsUncovered(entries: seq<BodyEntry>, covered: set<ElementId>, ids: seq<ElementId>)
    requires forall id :: id in ids ==> Elidable(entries, covered, id)
    ensures forall id :: id in ids ==> id !in covered
  {
  }

  /**
   Conservation: what a pass takes out of the body's unreduced charge is what its
   leaf records and what the roots gain, whether the pass finished or not.
   */
  lemma PassConserves(ns: seq<NodeElement>, entries: seq<BodyEntry>, log: PassLog, after: seq<NodeElement>,
                      config: CompactionConfig)
    requires LoggedTo(ns, entries, log, after) && ChosenSafely(log.pending, entries, ns, config) && DistinctEntries(entries)
    ensures Forest(ns) && Forest(after)
    ensures BodyCost(entries, CoveredBy(ns), map[]) + RootTotal(ns) ==
      BodyCost(entries, CoveredBy(after), map[]) + RootTotal(after)
    ensures log.elide != [] ==>
      log.elide[0].tokens == BodyCost(entries, CoveredBy(ns), map[]) - BodyCost(entries, CoveredBy(after), map[])
  {
    hide DistinctEntries, CoveredBy, RootTotal, Elements, BodyCost, IndexOf, ChargedFor, NoDuplicates, Chosen, AllEntered,
         Elidable, RunAllowed, Run, AllCap, AllCondense, InventoryHeader, InventoryLines, ProjectedBefore,
         OneLeaf, Additive, CreationOrder, OneParent, DistinctIds;
    LoggedRun(ns, entries, log, after);
    ElidableIsUncovered(entries, CoveredBy(ns), log.pending);
    ElidableIsEntered(entries, CoveredBy(ns), log.pending);
    assert CoveredBy(ns) + {} == CoveredBy(ns);
    if log.elide != [] {
      CoveringTakesCharge(entries, CoveredBy(ns), log.pending);
    }
  }

  lemma ElidableIsEntered(entries: seq<BodyEntry>, covered: set<ElementId>, ids: seq<ElementId>)
    requires forall id :: id in ids ==> Elidable(entries, covered, id)
    ensures AllEntered(entries, ids)
  {
    hide FinalTurnBoundary;
  }

  // ----- The planner and the request -----------------------------------------

  lemma SoundIsFaithful(body: seq<Element>, covered: set<ElementId>, reductions: Reductions)
    requires DistinctBody(body) && Sound(Entries(body), covered, reductions)
    requires forall i :: 0 <= i < |body| ==> InMemory(body[i])
    ensures Faithful(body, reductions)
  {
    hide InMemory, Reasonable, EntryOf, Entries;
    forall i | 0 <= i < |body|
      ensures SparesInstructions(body[i], reductions)
      ensures EntryOf(body[i]).Some? ==> Reasonable(EntryOf(body[i]).value, Applied(reductions, body[i].id))
    {
      SparedInstructions(body, covered, reductions, i);
      if EntryOf(body[i]).Some? {
        var a := ElementPlace(body, i);
        EntryKeepsId(body[i]);
      }
    }
  }

  lemma InstructionEntry(e: Element)
    ensures EntryOf(e).Some? && (e.kind == "system" || e.kind == "steering") ==> EntryOf(e).value.role == Instructions
  {
    hide PreviewLine;
  }

  lemma SparedInstructions(body: seq<Element>, covered: set<ElementId>, reductions: Reductions, i: nat)
    requires DistinctBody(body) && Sound(Entries(body), covered, reductions) && i < |body|
    ensures SparesInstructions(body[i], reductions)
  {
    hide Entries, Reasonable, EntryOf;
    if body[i].id in reductions {
      var entries := Entries(body);
      var k :| 0 <= k < |entries| && entries[k].id == body[i].id && Reducible(entries[k], covered);
      var j := EntryPlace(body, k);
      EntryKeepsId(body[j]);
      assert i == j;
      InstructionEntry(body[i]);
    }
  }

  /**
   A pass that ends under the hard bound makes a request that fits it: texts,
   arguments, folds and overhead together exceed the bound at most by what the
   omission markers cost beyond the call overhead.
   */
  lemma RequestFits(ns: seq<NodeElement>, after: seq<NodeElement>, body: seq<Element>, pending: seq<ElementId>,
                    outcome: Outcome, config: CompactionConfig)
    requires DistinctBody(body) && forall i :: 0 <= i < |body| ==> InMemory(body[i])
    requires Settled(ns, after, Entries(body), pending, outcome, config)
    requires !config.budget.ExceedsHardBound(After(after, Entries(body), outcome, config))
    ensures config.fixedOverheadTokens
      + CarriedAll(Messages(body, outcome.covered, outcome.reductions))
      + RootCost(TextTokens(Loaded(after).texts), Loaded(after).Roots())
      <= config.budget.hardTokens
         + (OMITTED_MARKER_TOKENS - CALL_OVERHEAD) * UnrealizedCount(Entries(body), outcome.covered, outcome.reductions)
  {
    hide Forest, InMemory, Sound, Entries, FoldsExact, BoundedOrSpent;
    SoundIsFaithful(body, outcome.covered, outcome.reductions);
    WireWithinCharge(body, outcome.covered, outcome.reductions);
  }

  /**
   A settled pass that is still over the bound has nothing left to give: every
   element that stays and may be reduced is charged at most its caps.
   */
  lemma SpentElementsAreSmall(ns: seq<NodeElement>, after: seq<NodeElement>, body: seq<Element>, pending: seq<ElementId>,
                              outcome: Outcome, config: CompactionConfig, i: nat)
    requires Settled(ns, after, Entries(body), pending, outcome, config)
    requires config.budget.ExceedsHardBound(After(after, Entries(body), outcome, config))
    requires i < |body| && EntryOf(body[i]).Some? && Reducible(EntryOf(body[i]).value, outcome.covered)
    ensures var entry := EntryOf(body[i]).value;
      entry.Cost(Applied(outcome.reductions, entry.id)) <=
        if entry.role == ToolCall then 2 * TRUNCATED_BYTES + CALL_OVERHEAD else TRUNCATED_BYTES
  {
    hide Forest, Sound, InOrder, Entries, EntryOf, FoldsExact, After, Reducible, Roots, CoveredBy;
    var a := ElementPlace(body, i);
    EligibleElement(body[i]);
    ExhaustedEntriesAreSmall(Entries(body), outcome.covered, outcome.reductions, a);
  }

  /**
   The promise that every planned saving is realized fails. Over a transcript of
   one long tool call, with a bound between the eight tokens then charged and the
   twenty sent, every pass that writes nothing settles under the bound and makes a
   request above it.
   */
  lemma RequestExceeds(pending: seq<ElementId>, outcome: Outcome, config: CompactionConfig)
    requires Settled([], [], Entries([LongCall()]), pending, outcome, config)
    requires CALL_OVERHEAD <= config.budget.hardTokens - config.fixedOverheadTokens < OMITTED_MARKER_TOKENS
    ensures !config.budget.ExceedsHardBound(After([], Entries([LongCall()]), outcome, config))
    ensures config.fixedOverheadTokens + CarriedAll(Messages([LongCall()], outcome.covered, outcome.reductions))
      == config.fixedOverheadTokens + OMITTED_MARKER_TOKENS > config.budget.hardTokens
  {
    hide Forest, InOrder, FoldsExact, LongCall, MessagesOf, Entries, EntryOf, Messages, BodyCost, BodyEntry.Cost, Reasonable;
    LongCallAlone(outcome.reductions);
    NothingSettled();
    var entry, applied := EntryOf(LongCall()).value, Applied(outcome.reductions, 0);
    LongCallReductions(entry, applied);
    assert Reasonable([entry][0], applied);
    assert !applied.omittedArguments ==> Candidate([entry][0], {}, outcome.reductions);
    assert outcome.covered == {};
    assert applied.omittedArguments && !applied.cappedText;
    ChargeIsExact(LongCall(), outcome.reductions);
    assert CarriedAll(MessagesOf(LongCall(), outcome.reductions)) == OMITTED_MARKER_TOKENS;
  }

  /** The long call by itself: its entry, its cost and its messages. */
  lemma LongCallAlone(reductions: Reductions)
    ensures EntryOf(LongCall()).Some?
    ensures var e, entry := LongCall(), EntryOf(LongCall()).value;
      && e.id == entry.id == 0 && e.kind == "tool_call"
      && entry.role == ToolCall && entry.argsTokens == 65 && entry.textTokens == 0
      && InputPayload(e).Some?
      && Entries([e]) == [entry]
      && BodyCost([entry], {}, reductions) == entry.Cost(Applied(reductions, 0))
      && Messages([e], {}, reductions) == MessagesOf(e, reductions)
  {
    LongCallEntry();
    hide EntryOf, MessagesOf;
    var e, entry := LongCall(), EntryOf(LongCall()).value;
    EntriesStep([e]);
    NoEntries([e][1..]);
    assert [entry][1..] == [] && [e][1..] == [];
    assert Messages([e][1..], {}, reductions) == [] && BodyCost([entry][1..], {}, reductions) == 0;
  }

  /** All the long call can give is its arguments. */
  lemma LongCallReductions(entry: BodyEntry, applied: Reduction)
    requires entry.role == ToolCall && entry.argsTokens == 65 && entry.textTokens == 0
    ensures Reasonable(entry, applied) ==> !applied.cappedText
    ensures !applied.omittedArguments ==> entry.NextReduction(applied).Some?
    ensures !applied.omittedArguments && !applied.cappedText ==> entry.Cost(applied) == 65 + CALL_OVERHEAD
    ensures applied.omittedArguments && !applied.cappedText ==>
      entry.Cost(applied) == CALL_OVERHEAD && entry.NextReduction(applied).None? && Reasonable(entry, applied)
  {
  }

  lemma NothingSettled()
    ensures Forest([]) && CoveredBy([]) == {} && Elements([]) == {} && Roots([]) == [] && FoldsExact(Loaded([]), [])
    ensures Loaded([]).Roots() == [] && RootCost(TextTokens(Loaded([]).texts), []) == 0
  {
    EmptyForest();
  }

  /** Such passes exist: this one omits the arguments. */
  lemma OmissionSettles(config: CompactionConfig)
    requires CALL_OVERHEAD <= config.budget.hardTokens - config.fixedOverheadTokens
    ensures Settled([], [], Entries([LongCall()]), [], Outcome([], {}, map[0 := Reduction(false, true)]), config)
  {
    hide Forest, FoldsExact, LongCall, Entries, EntryOf, BodyCost, BodyEntry.Cost, Reasonable, BodyEntry.NextReduction, Roots,
         CoveredBy, Loaded, Sound, InOrder;
    var reductions := map[0 := Reduction(false, true)];
    LongCallAlone(reductions);
    var entry := EntryOf(LongCall()).value;
    NothingSettled();
    LongCallReductions(entry, Reduction(false, true));
    OneReduction(entry, reductions);
  }

  lemma OneReduction(entry: BodyEntry, reductions: Reductions)
    requires entry.id == 0 && entry.role == ToolCall && reductions.Keys == {0} && Reasonable(entry, reductions[0])
    ensures Sound([entry], {}, reductions) && InOrder([entry], {}, reductions)
  {
    hide Reasonable, Candidate;
    assert [entry][0] == entry;
    assert Reducible([entry][0], {});
  }

  /**
   Exactly what a request costs after a settled pass, under the bound or not: the
   planner's figure less the call overhead and the slack of capped texts, plus
   markers and `null`s. It exceeds the bound exactly when those make up for the rest.
   */
  lemma RequestExact(ns: seq<NodeElement>, after: seq<NodeElement>, body: seq<Element>, pending: seq<ElementId>,
                     outcome: Outcome, config: CompactionConfig)
    requires DistinctBody(body) && forall i :: 0 <= i < |body| ==> InMemory(body[i])
    requires Settled(ns, after, Entries(body), pending, outcome, config)
    ensures var sent := config.fixedOverheadTokens
        + CarriedAll(Messages(body, outcome.covered, outcome.reductions))
        + RootCost(TextTokens(Loaded(after).texts), Loaded(after).Roots());
      var planned := After(after, Entries(body), outcome, config);
      var spared :=
        CALL_OVERHEAD * CallCount(Entries(body), outcome.covered) + SlackAll(body, outcome.covered, outcome.reductions);
      var unplanned := UnplannedAll(body, outcome.covered, outcome.reductions);
      && sent + spared == planned + unplanned
      && (config.budget.ExceedsHardBound(sent) <==> planned + unplanned > config.budget.hardTokens + spared)
  {
    hide InMemory, Sound, InOrder, Entries, FoldsExact, BoundedOrSpent, Faithful, Plausible, DistinctBody,
         OneLeaf, Additive, CreationOrder, OneParent, DistinctIds, RootCost, TextTokens, Loaded, Messages, CarriedAll,
         BodyCost, CallCount, SlackAll, UnplannedAll, Roots, CoveredBy;
    SoundIsFaithful(body, outcome.covered, outcome.reductions);
    FaithfulIsPlausible(body, outcome.reductions);
    WireExact(body, outcome.covered, outcome.reductions);
  }

  /** The folds of a settled pass stand for every covered element exactly once. */
  lemma FoldsCoverEverything(ns: seq<NodeElement>, after: seq<NodeElement>, entries: seq<BodyEntry>,
                             pending: seq<ElementId>, outcome: Outcome, config: CompactionConfig)
    requires Settled(ns, after, entries, pending, outcome, config)
    ensures FoldedCount(outcome.folds) == |outcome.covered|
    ensures FoldedTokens(outcome.folds) == RootTotal(after)
  {
    FoldsStandForCovered(after, outcome.folds);
  }

  // ----- Whole sessions ------------------------------------------------------

  /** One call of `Plan`, successful or cut short by a failed write. */
  datatype Pass = Pass(
    before: seq<NodeElement>,
    body: seq<Element>,
    config: CompactionConfig,
    log: PassLog,
    after: seq<NodeElement>)

  /**
   Passes over one transcript, each starting where the one before it ended. Later
   passes find the same elements, perhaps changed, and perhaps more.
   */
  ghost predicate Session(passes: seq<Pass>) {
    && (passes != [] ==> passes[0].before == [])
    && (forall i :: 0 < i < |passes| ==>
          passes[i].before == passes[i - 1].after && BodyIds(passes[i - 1].body) <= BodyIds(passes[i].body))
    && forall i :: 0 <= i < |passes| ==>
      var p := passes[i];
      && LoggedTo(p.before, Entries(p.body), p.log, p.after)
      && ChosenSafely(p.log.pending, Entries(p.body), p.before, p.config)
      && DistinctBody(p.body)
  }

  function AllSteps(passes: seq<Pass>): seq<Step> {
    if passes == [] then [] else AllSteps(passes[..|passes| - 1]) + passes[|passes| - 1].log.Steps()
  }

  function LastNodes(passes: seq<Pass>): seq<NodeElement> {
    if passes == [] then [] else passes[|passes| - 1].after
  }

  /** The nodes of every pass can be read. */
  ghost predicate ReadablePasses(passes: seq<Pass>) {
    forall i :: 0 <= i < |passes| ==> AllReadable(passes[i].before) && AllReadable(passes[i].after)
  }

  /** What the passes took out of the unreduced charges of the bodies they found. */
  ghost function ChargeTaken(passes: seq<Pass>): int
    requires ReadablePasses(passes)
  {
    if passes == [] then 0
    else
      var p := passes[|passes| - 1];
      ChargeTaken(passes[..|passes| - 1])
      + BodyCost(Entries(p.body), CoveredBy(p.before), map[]) - BodyCost(Entries(p.body), CoveredBy(p.after), map[])
  }

  /** The roots hold exactly what all passes together took out of the charges of the bodies they found. */
  lemma {:induction false} SessionConserves(passes: seq<Pass>)
    requires Session(passes)
    ensures ReadablePasses(passes) && Forest(LastNodes(passes))
    ensures RootTotal(LastNodes(passes)) == ChargeTaken(passes)
  {
    EmptyForest();
    hide LoggedTo, ChosenSafely, Entries, DistinctBody, BodyCost, CoveredBy, RootTotal, OneLeaf, Additive, CreationOrder, OneParent,
         DistinctIds;
    if passes != [] {
      var n := |passes| - 1;
      var p := passes[n];
      SessionFront(passes);
      SessionConserves(passes[..n]);
      EntriesDistinct(p.body);
      PassConserves(p.before, Entries(p.body), p.log, p.after, p.config);
      ReadableFront(passes);
    }
  }

  lemma ReadableFront(passes: seq<Pass>)
    requires passes != [] && ReadablePasses(passes[..|passes| - 1])
    requires AllReadable(passes[|passes| - 1].before) && AllReadable(passes[|passes| - 1].after)
    ensures ReadablePasses(passes)
  {
    hide AllReadable;
    assert forall i :: 0 <= i < |passes| - 1 ==> passes[..|passes| - 1][i] == passes[i];
  }

  lemma {:induction false} SessionIsRun(passes: seq<Pass>)
    requires Session(passes)
    ensures Forest([]) && RunAllowed([], AllSteps(passes)) && LastNodes(passes) == Run([], AllSteps(passes))
  {
    EmptyForest();
    hide Forest, LoggedTo, ChosenSafely, CoveredBy, Allowed, Session;
    if passes != [] {
      var n := |passes| - 1;
      var front, last := passes[..n], passes[n];
      SessionFront(passes);
      SessionIsRun(front);
      LoggedRun(last.before, Entries(last.body), last.log, last.after);
      RunConcat([], AllSteps(front), last.log.Steps());
    }
  }

  /** A pass newly covers only elements of its own body. */
  lemma PassGrows(p: Pass)
    requires LoggedTo(p.before, Entries(p.body), p.log, p.after) && DistinctBody(p.body)
    requires ChosenSafely(p.log.pending, Entries(p.body), p.before, p.config)
    ensures AllReadable(p.before) && AllReadable(p.after)
    ensures CoveredBy(p.after) <= CoveredBy(p.before) + BodyIds(p.body)
  {
    LoggedRun(p.before, Entries(p.body), p.log, p.after);
    PassCoversBody(p);
    hide LoggedTo, ChosenSafely, Elements, BodyIds, CoveredBy, OneLeaf, Additive, CreationOrder, OneParent, DistinctIds;
  }

  lemma {:induction false} SessionCoversBody(passes: seq<Pass>)
    requires Session(passes) && passes != []
    ensures AllReadable(LastNodes(passes))
    ensures CoveredBy(LastNodes(passes)) <= BodyIds(passes[|passes| - 1].body)
  {
    hide LoggedTo, ChosenSafely, BodyIds, Entries, DistinctBody;
    var n := |passes| - 1;
    var last := passes[n];
    PassGrows(last);
    if n > 0 {
      SessionFront(passes);
      SessionCoversBody(passes[..n]);
    } else {
      assert CoveredBy(last.before) == {};
    }
  }

  /**
   However many passes ran and however many of them were cut short: the nodes are a
   forest reached by allowed steps, only transcript elements are covered, and the
   roots account for exactly the tokens ever elided, which is what the passes took
   out of the charges of the bodies they found.
   */
  lemma SessionStaysForest(passes: seq<Pass>)
    requires Session(passes)
    ensures Forest([]) && RunAllowed([], AllSteps(passes))
    ensures LastNodes(passes) == Run([], AllSteps(passes)) && Forest(LastNodes(passes))
    ensures CoveredBy(LastNodes(passes)) == ElidedBy(AllSteps(passes))
    ensures RootTotal(LastNodes(passes)) == ElidedTokens(AllSteps(passes))
    ensures ReadablePasses(passes) && RootTotal(LastNodes(passes)) == ChargeTaken(passes)
    ensures passes != [] ==> CoveredBy(LastNodes(passes)) <= BodyIds(passes[|passes| - 1].body)
  {
    hide Forest, CoveredBy, RootTotal, Allowed, Session, Run, RunAllowed, AllSteps, LastNodes, BodyIds, ElidedBy;
    EmptyForest();
    SessionIsRun(passes);
    SessionConserves(passes);
    RunKeepsForest([], AllSteps(passes));
    if passes != [] {
      SessionCoversBody(passes);
    }
  }

  lemma SessionFront(passes: seq<Pass>)
    requires Session(passes) && passes != []
    ensures var n := |passes| - 1;
      && Session(passes[..n])
      && passes[n].before == LastNodes(passes[..n])
      && (n > 0 ==> BodyIds(passes[..n][n - 1].body) <= BodyIds(passes[n].body))
      && LoggedTo(passes[n].before, Entries(passes[n].body), passes[n].log, passes[n].after)
      && ChosenSafely(passes[n].log.pending, Entries(passes[n].body), passes[n].before, passes[n].config)
      && DistinctBody(passes[n].body)
  {
    hide LoggedTo, ChosenSafely, Entries, BodyIds;
  }

  lemma PassCoversBody(p: Pass)
    requires ChosenSafely(p.log.pending, Entries(p.body), p.before, p.config) && DistinctBody(p.body)
    ensures Elements(p.log.pending) <= BodyIds(p.body)
  {
    EntriesDistinct(p.body);
    hide Chosen, Entries, BodyIds, ProjectedBefore, NoDuplicates;
    forall id | id in Elements(p.log.pending)
      ensures id in BodyIds(p.body)
    {
      var entries := Entries(p.body);
      assert Elidable(entries, CoveredBy(p.before), id);
      var i :| 0 <= i < FinalTurnBoundary(entries) && entries[i].id == id;
      assert entries[i] in entries;
    }
  }
}
