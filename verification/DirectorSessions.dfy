/** Directors across persistence. */
module DirectorSessions {
  import opened Wrappers
  import opened Text
  import opened Dom
  import opened Directors

  /*
   The stack and its copy in the session document, the gate in front of every
   inference, and whole sessions with reloads.
   */

  // ----- The document's copy -------------------------------------------------

  /** A child of the document's director container. */
  datatype DirectorNode = DirectorNode(id: ElementId, kind: string, payload: Option<Json>)

  function SpecOf(node: DirectorNode): DirectorSpec {
    DirectorSpec(node.id, node.kind, node.payload.GetOr(JNull))
  }

  function NodeOf(d: Director): DirectorNode {
    DirectorNode(d.id, KindOf(d), Some(StateOf(d)))
  }

  /** The stack a document describes, or the first error in it. */
  function Hydrated(nodes: seq<DirectorNode>): Result<seq<Director>, DirectorError> {
    if nodes == [] then Ok([])
    else
      match Hydrated(nodes[..|nodes| - 1])
      case Err(e) => Err(e)
      case Ok(outer) =>
        match FromSpec(SpecOf(nodes[|nodes| - 1]))
        case Err(e) => Err(e)
        case Ok(d) => Ok(outer + [d])
  }

  method FromSessionSnapshot(nodes: seq<DirectorNode>) returns (result: Result<seq<Director>, DirectorError>)
    ensures result == Hydrated(nodes)
  {
    var directors := [];
    for k := 0 to |nodes|
      invariant Hydrated(nodes[..k]) == Ok(directors)
    {
      assert nodes[..k + 1][..k] == nodes[..k];
      var made := FromSpec(SpecOf(nodes[k]));
      if made.Err? {
        HydrationStops(nodes, k + 1);
        return Err(made.error);
      }
      directors := directors + [made.value];
    }
    assert nodes[..|nodes|] == nodes;
    result := Ok(directors);
  }

  lemma {:induction false} HydrationStops(nodes: seq<DirectorNode>, k: nat)
    requires k <= |nodes| && Hydrated(nodes[..k]).Err?
    ensures Hydrated(nodes) == Hydrated(nodes[..k])
  {
    if k == |nodes| {
      assert nodes[..k] == nodes;
    } else {
      assert nodes[..|nodes| - 1][..k] == nodes[..k];
      HydrationStops(nodes[..|nodes| - 1], k);
    }
  }

  // ----- Writing changes back ------------------------------------------------

  datatype NodeOp = ReplacePayload(id: ElementId, payload: Json) | Delete(id: ElementId)

  function ApplyOp(nodes: seq<DirectorNode>, op: NodeOp): seq<DirectorNode> {
    if nodes == [] then []
    else
      var rest := ApplyOp(nodes[1..], op);
      if nodes[0].id != op.id then [nodes[0]] + rest
      else if op.Delete? then rest
      else [nodes[0].(payload := Some(op.payload))] + rest
  }

  function ApplyOps(nodes: seq<DirectorNode>, ops: seq<NodeOp>): seq<DirectorNode> {
    if ops == [] then nodes else ApplyOp(ApplyOps(nodes, ops[..|ops| - 1]), ops[|ops| - 1])
  }

  function Find(directors: seq<Director>, id: ElementId): Option<Director> {
    if directors == [] then None
    else if directors[0].id == id then Some(directors[0])
    else Find(directors[1..], id)
  }

  function FindNode(nodes: seq<DirectorNode>, id: ElementId): Option<DirectorNode> {
    if nodes == [] then None else if nodes[0].id == id then Some(nodes[0]) else FindNode(nodes[1..], id)
  }

  /** The document once it holds the state of exactly the directors on the stack. */
  function Synced(nodes: seq<DirectorNode>, directors: seq<Director>): seq<DirectorNode> {
    if nodes == [] then []
    else
      (match Find(directors, nodes[0].id)
       case None => []
       case Some(d) => [nodes[0].(payload := Some(StateOf(d)))]) + Synced(nodes[1..], directors)
  }

  predicate DistinctNodes(nodes: seq<DirectorNode>) {
    forall i, j :: 0 <= i < j < |nodes| ==> nodes[i].id != nodes[j].id
  }

  predicate DistinctDirectors(directors: seq<Director>) {
    forall i, j :: 0 <= i < j < |directors| ==> directors[i].id != directors[j].id
  }

  /** What a list of operations makes of one node. */
  function Fate(node: DirectorNode, ops: seq<NodeOp>): (after: Option<DirectorNode>)
    ensures after.Some? ==> after.value.id == node.id
  {
    if ops == [] then Some(node)
    else
      var before := Fate(node, ops[..|ops| - 1]);
      var op := ops[|ops| - 1];
      if before.None? || op.id != node.id then before
      else if op.Delete? then None
      else Some(before.value.(payload := Some(op.payload)))
  }

  function Fated(nodes: seq<DirectorNode>, ops: seq<NodeOp>): seq<DirectorNode> {
    if nodes == [] then []
    else (if Fate(nodes[0], ops).Some? then [Fate(nodes[0], ops).value] else []) + Fated(nodes[1..], ops)
  }

  lemma FateOneMore(node: DirectorNode, ops: seq<NodeOp>, op: NodeOp)
    ensures Fate(node, ops + [op]) ==
      if Fate(node, ops).None? || op.id != node.id then Fate(node, ops)
      else if op.Delete? then None
      else Some(Fate(node, ops).value.(payload := Some(op.payload)))
  {
    assert (ops + [op])[..|ops|] == ops;
  }

  lemma {:induction false} FatedOneMore(nodes: seq<DirectorNode>, ops: seq<NodeOp>, op: NodeOp)
    ensures ApplyOp(Fated(nodes, ops), op) == Fated(nodes, ops + [op])
  {
    if nodes != [] {
      FatedOneMore(nodes[1..], ops, op);
      assert (ops + [op])[..|ops|] == ops;
      var rest := Fated(nodes[1..], ops);
      FateOneMore(nodes[0], ops, op);
      hide Fate;
      if Fate(nodes[0], ops).Some? {
        var first := Fate(nodes[0], ops).value;
        assert Fated(nodes, ops) == [first] + rest;
        assert ([first] + rest)[1..] == rest;
      } else {
        assert Fated(nodes, ops) == rest;
      }
    }
  }

  lemma {:induction false} FatedByNothing(nodes: seq<DirectorNode>)
    ensures Fated(nodes, []) == nodes
  {
    if nodes != [] {
      FatedByNothing(nodes[1..]);
    }
  }

  /** Operations act on the nodes one by one, by id. */
  lemma {:induction false} OpsActByNode(nodes: seq<DirectorNode>, ops: seq<NodeOp>)
    ensures ApplyOps(nodes, ops) == Fated(nodes, ops)
  {
    if ops == [] {
      FatedByNothing(nodes);
    } else {
      var last := |ops| - 1;
      OpsActByNode(nodes, ops[..last]);
      FatedOneMore(nodes, ops[..last], ops[last]);
      assert ops == ops[..last] + [ops[last]];
    }
  }

  /** The node with the state of its director, if that is among those given. */
  function Refreshed(node: DirectorNode, directors: seq<Director>): DirectorNode {
    var d := Find(directors, node.id);
    if d.Some? then node.(payload := Some(StateOf(d.value))) else node
  }

  lemma {:induction false} FindAppend(directors: seq<Director>, d: Director, id: ElementId)
    ensures Find(directors + [d], id) ==
      if Find(directors, id).Some? then Find(directors, id) else if d.id == id then Some(d) else None
  {
    if directors == [] {
      assert directors + [d] == [d];
    } else {
      assert (directors + [d])[1..] == directors[1..] + [d];
      FindAppend(directors[1..], d, id);
    }
  }

  lemma {:induction false} FindIsMember(directors: seq<Director>, id: ElementId)
    ensures Find(directors, id).Some? <==> exists i :: 0 <= i < |directors| && directors[i].id == id
    ensures Find(directors, id).Some? ==> Find(directors, id).value in directors && Find(directors, id).value.id == id
  {
    if directors != [] && directors[0].id != id {
      FindIsMember(directors[1..], id);
      assert forall i :: 1 <= i < |directors| ==> directors[i] == directors[1..][i - 1];
    }
  }

  lemma {:induction false} FindNodeAt(nodes: seq<DirectorNode>, i: nat)
    requires i < |nodes| && DistinctNodes(nodes)
    ensures FindNode(nodes, nodes[i].id) == Some(nodes[i])
  {
    if i > 0 {
      FindNodeAt(nodes[1..], i - 1);
    }
  }

  lemma {:induction false} FindNodeMissing(nodes: seq<DirectorNode>, id: ElementId)
    ensures FindNode(nodes, id).None? <==> forall i :: 0 <= i < |nodes| ==> nodes[i].id != id
    ensures FindNode(nodes, id).Some? ==> FindNode(nodes, id).value in nodes && FindNode(nodes, id).value.id == id
  {
    if nodes != [] && nodes[0].id != id {
      FindNodeMissing(nodes[1..], id);
      assert forall i :: 1 <= i < |nodes| ==> nodes[i] == nodes[1..][i - 1];
    }
  }

  /** After the first `k` directors: their nodes hold their state, the others are untouched. */
  predicate Replacing(nodes: seq<DirectorNode>, directors: seq<Director>, k: nat, ops: seq<NodeOp>)
    requires k <= |directors|
  {
    forall i :: 0 <= i < |nodes| ==> Fate(nodes[i], ops) == Some(Refreshed(nodes[i], directors[..k]))
  }

  lemma ReplacingOneMore(nodes: seq<DirectorNode>, directors: seq<Director>, k: nat, ops: seq<NodeOp>)
    requires k < |directors| && DistinctDirectors(directors) && DistinctNodes(nodes)
    requires Replacing(nodes, directors, k, ops)
    ensures var node, state := FindNode(nodes, directors[k].id), StateOf(directors[k]);
      Replacing(nodes, directors, k + 1,
                if node.Some? && node.value.payload != Some(state) then ops + [ReplacePayload(directors[k].id, state)] else ops)
  {
    hide StateOf;
    var d := directors[k];
    var state, node := StateOf(d), FindNode(nodes, d.id);
    var op := ReplacePayload(d.id, state);
    var after := if node.Some? && node.value.payload != Some(state) then ops + [op] else ops;
    assert directors[..k + 1] == directors[..k] + [d];
    assert (ops + [op])[..|ops|] == ops;
    FindNodeMissing(nodes, d.id);
    forall i | 0 <= i < |nodes|
      ensures Fate(nodes[i], after) == Some(Refreshed(nodes[i], directors[..k + 1]))
    {
      FindAppend(directors[..k], d, nodes[i].id);
      FindIsMember(directors[..k], nodes[i].id);
      FindNodeAt(nodes, i);
      assert Fate(nodes[i], ops) == Some(Refreshed(nodes[i], directors[..k]));
    }
  }

  /** After the first `j` nodes: those without a director are gone. */
  predicate Deleting(nodes: seq<DirectorNode>, directors: seq<Director>, j: nat, ops: seq<NodeOp>) {
    forall i :: 0 <= i < |nodes| ==>
      Fate(nodes[i], ops) ==
        if Find(directors, nodes[i].id).None? && i < j then None else Some(Refreshed(nodes[i], directors))
  }

  lemma DeletingOneMore(nodes: seq<DirectorNode>, directors: seq<Director>, j: nat, ops: seq<NodeOp>)
    requires j < |nodes| && DistinctNodes(nodes) && Deleting(nodes, directors, j, ops)
    ensures Deleting(nodes, directors, j + 1,
                     if Find(directors, nodes[j].id).None? then ops + [Delete(nodes[j].id)] else ops)
  {
    hide Refreshed;
    var op := Delete(nodes[j].id);
    assert (ops + [op])[..|ops|] == ops;
    forall i | 0 <= i < |nodes|
      ensures Fate(nodes[i], ops + [op]) == if i == j then None else Fate(nodes[i], ops)
    {
      assert i != j ==> nodes[i].id != nodes[j].id;
    }
  }

  lemma {:induction false} AllHandled(nodes: seq<DirectorNode>, directors: seq<Director>, ops: seq<NodeOp>)
    requires Deleting(nodes, directors, |nodes|, ops)
    ensures Fated(nodes, ops) == Synced(nodes, directors)
  {
    hide StateOf;
    if nodes != [] {
      assert Fate(nodes[0], ops) == if Find(directors, nodes[0].id).None? then None else Some(Refreshed(nodes[0], directors));
      forall i | 0 <= i < |nodes[1..]|
        ensures Fate(nodes[1..][i], ops) ==
          if Find(directors, nodes[1..][i].id).None? then None else Some(Refreshed(nodes[1..][i], directors))
      {
        assert nodes[1..][i] == nodes[i + 1];
      }
      AllHandled(nodes[1..], directors, ops);
    }
  }

  /** Builds the patch that brings the document up to date with the stack. */
  method SyncDirectors(nodes: seq<DirectorNode>, directors: seq<Director>) returns (ops: seq<NodeOp>)
    requires DistinctNodes(nodes) && DistinctDirectors(directors)
    ensures ApplyOps(nodes, ops) == Synced(nodes, directors)
  {
    hide StateOf, Replacing, Deleting, Fate;
    ops := [];
    assert Replacing(nodes, directors, 0, ops) by { NothingReplaced(nodes, directors); }
    for k := 0 to |directors|
      invariant Replacing(nodes, directors, k, ops)
    {
      ReplacingOneMore(nodes, directors, k, ops);
      var state, existing := StateOf(directors[k]), FindNode(nodes, directors[k].id);
      if existing.Some? && existing.value.payload != Some(state) {
        ops := ops + [ReplacePayload(directors[k].id, state)];
      }
    }
    NothingDeleted(nodes, directors, ops);
    for j := 0 to |nodes|
      invariant Deleting(nodes, directors, j, ops)
    {
      DeletingOneMore(nodes, directors, j, ops);
      if Find(directors, nodes[j].id).None? {
        ops := ops + [Delete(nodes[j].id)];
      }
    }
    AllHandled(nodes, directors, ops);
    OpsActByNode(nodes, ops);
  }

  lemma NothingReplaced(nodes: seq<DirectorNode>, directors: seq<Director>)
    ensures Replacing(nodes, directors, 0, [])
  {
  }

  lemma NothingDeleted(nodes: seq<DirectorNode>, directors: seq<Director>, ops: seq<NodeOp>)
    requires Replacing(nodes, directors, |directors|, ops)
    ensures Deleting(nodes, directors, 0, ops)
  {
    hide Refreshed, Fate;
    assert directors[..|directors|] == directors;
  }

  // ----- After a sync the document reads back as the stack -------------------

  /** Node by node, the document describes the stack. */
  predicate Describes(nodes: seq<DirectorNode>, stack: seq<Director>) {
    && |nodes| == |stack|
    && DistinctNodes(nodes)
    && forall i :: 0 <= i < |nodes| ==>
         nodes[i].id == stack[i].id && nodes[i].kind == KindOf(stack[i]) && FromSpec(SpecOf(nodes[i])) == Ok(stack[i])
  }

  lemma {:induction false} DescribedReadsBack(nodes: seq<DirectorNode>, stack: seq<Director>)
    requires Describes(nodes, stack)
    ensures Hydrated(nodes) == Ok(stack)
  {
    hide FromSpec, SpecOf, KindOf;
    if nodes != [] {
      var last := |nodes| - 1;
      DescribedReadsBack(nodes[..last], stack[..last]);
      assert stack == stack[..last] + [stack[last]];
    } else {
      assert stack == [];
    }
  }

  /** What becomes of each director of the stack; `None` when it leaves. */
  function Outcomes(directors: seq<Director>, pendingTodos: seq<string>, turn: TurnView): (outcomes: seq<Option<Director>>)
    ensures |outcomes| == |directors|
  {
    if directors == [] then []
    else
      var outer, inner := directors[..|directors| - 1], directors[|directors| - 1];
      var (next, decision) := OnYield(inner, pendingTodos, turn);
      if decision.Pass? then Outcomes(outer, pendingTodos, turn) + [Some(next)]
      else if decision.Done? then Outcomes(outer, pendingTodos, turn) + [None]
      else seq(|outer|, i requires 0 <= i < |outer| => Some(outer[i])) + [Some(next)]
  }

  function Staying(outcomes: seq<Option<Director>>): seq<Director> {
    if outcomes == [] then []
    else
      Staying(outcomes[..|outcomes| - 1]) +
      if outcomes[|outcomes| - 1].Some? then [outcomes[|outcomes| - 1].value] else []
  }

  lemma {:induction false} AllStay(directors: seq<Director>)
    ensures Staying(seq(|directors|, i requires 0 <= i < |directors| => Some(directors[i]))) == directors
  {
    if directors != [] {
      var last := |directors| - 1;
      var all := seq(|directors|, i requires 0 <= i < |directors| => Some(directors[i]));
      AllStay(directors[..last]);
      assert all[..last] == seq(last, i requires 0 <= i < last => Some(directors[..last][i]));
    }
  }

  lemma {:induction false} HandledIsStaying(directors: seq<Director>, pendingTodos: seq<string>, turn: TurnView)
    ensures HandleYield(directors, pendingTodos, turn).directors == Staying(Outcomes(directors, pendingTodos, turn))
  {
    hide OnYield;
    if directors != [] {
      var outer, inner := directors[..|directors| - 1], directors[|directors| - 1];
      var (next, decision) := OnYield(inner, pendingTodos, turn);
      HandledIsStaying(outer, pendingTodos, turn);
      var kept := if decision.Pass? || decision.Done? then Outcomes(outer, pendingTodos, turn)
                  else seq(|outer|, i requires 0 <= i < |outer| => Some(outer[i]));
      AllStay(outer);
      assert Outcomes(directors, pendingTodos, turn)[..|outer|] == kept;
    }
  }

  lemma {:induction false} OutcomesKeepIdentity(directors: seq<Director>, pendingTodos: seq<string>, turn: TurnView)
    ensures forall i :: 0 <= i < |directors| && Outcomes(directors, pendingTodos, turn)[i].Some? ==>
              var next := Outcomes(directors, pendingTodos, turn)[i].value;
              next.id == directors[i].id && KindOf(next) == KindOf(directors[i]) && (Storable(directors[i]) ==> Storable(next))
  {
    hide OnYield, KindOf, Storable;
    if directors != [] {
      OutcomesKeepIdentity(directors[..|directors| - 1], pendingTodos, turn);
      OnYieldKeepsIdentity(directors[|directors| - 1], pendingTodos, turn);
    }
  }

  /** A document and outcomes for its directors, node by node. */
  predicate Aligned(nodes: seq<DirectorNode>, outcomes: seq<Option<Director>>) {
    && |nodes| == |outcomes|
    && DistinctNodes(nodes)
    && forall i :: 0 <= i < |nodes| && outcomes[i].Some? ==>
         outcomes[i].value.id == nodes[i].id && KindOf(outcomes[i].value) == nodes[i].kind && Storable(outcomes[i].value)
  }

  lemma {:induction false} StayingFound(nodes: seq<DirectorNode>, outcomes: seq<Option<Director>>, id: ElementId)
    requires Aligned(nodes, outcomes)
    ensures Find(Staying(outcomes), id).Some? ==> exists i :: 0 <= i < |nodes| && nodes[i].id == id && outcomes[i].Some?
    ensures forall i :: 0 <= i < |nodes| && nodes[i].id == id ==> Find(Staying(outcomes), id) == outcomes[i]
  {
    hide KindOf, Storable;
    if nodes != [] {
      var last := |nodes| - 1;
      StayingFound(nodes[..last], outcomes[..last], id);
      if outcomes[last].Some? {
        FindAppend(Staying(outcomes[..last]), outcomes[last].value, id);
      } else {
        assert Staying(outcomes) == Staying(outcomes[..last]);
      }
    }
  }

  lemma {:induction false} SyncedAppend(nodes: seq<DirectorNode>, node: DirectorNode, directors: seq<Director>)
    ensures Synced(nodes + [node], directors) == Synced(nodes, directors) + Synced([node], directors)
  {
    hide StateOf;
    if nodes == [] {
      assert nodes + [node] == [node];
    } else {
      assert (nodes + [node])[1..] == nodes[1..] + [node];
      SyncedAppend(nodes[1..], node, directors);
    }
  }

  /** The synced prefix of a document describes the staying prefix of the stack. */
  lemma {:induction false} SyncedDescribes(nodes: seq<DirectorNode>, outcomes: seq<Option<Director>>, k: nat)
    requires Aligned(nodes, outcomes) && k <= |nodes|
    ensures Describes(Synced(nodes[..k], Staying(outcomes)), Staying(outcomes[..k]))
    ensures IdsAmong(Synced(nodes[..k], Staying(outcomes)), nodes[..k])
  {
    hide StateOf, KindOf, Storable, FromSpec, Describes, SpecOf, IdsAmong, Synced, Staying;
    if k == 0 {
      NothingSynced(Staying(outcomes));
      assert nodes[..0] == [] && outcomes[..0] == [];
    } else {
      SyncedDescribes(nodes, outcomes, k - 1);
      var node, outcome, all := nodes[k - 1], outcomes[k - 1], Staying(outcomes);
      var synced := Synced(nodes[..k - 1], all);
      assert nodes[..k] == nodes[..k - 1] + [node];
      SyncedAppend(nodes[..k - 1], node, all);
      StayingAppend(outcomes[..k - 1], outcome);
      assert outcomes[..k] == outcomes[..k - 1] + [outcome];
      StayingFound(nodes, outcomes, node.id);
      SyncedOne(node, all);
      IdsAmongMore(synced, nodes[..k - 1], node);
      if outcome.Some? {
        var fresher := node.(payload := Some(StateOf(outcome.value)));
        NodeReadsBack(node, outcome.value);
        NotAmong(synced, nodes, k - 1);
        DescribesOneMore(synced, Staying(outcomes[..k - 1]), fresher, outcome.value);
        IdsAmongAdded(synced, nodes[..k], fresher);
        assert Synced(nodes[..k], all) == synced + [fresher];
      } else {
        assert Synced(nodes[..k], all) == synced;
        assert Staying(outcomes[..k]) == Staying(outcomes[..k - 1]);
      }
    }
  }

  /** Every node carries the id of one of the others. */
  predicate IdsAmong(some: seq<DirectorNode>, nodes: seq<DirectorNode>) {
    forall m :: m in some ==> exists i :: 0 <= i < |nodes| && nodes[i].id == m.id
  }

  lemma IdsAmongMore(some: seq<DirectorNode>, nodes: seq<DirectorNode>, node: DirectorNode)
    requires IdsAmong(some, nodes)
    ensures IdsAmong(some, nodes + [node])
  {
    forall m | m in some
      ensures exists i :: 0 <= i < |nodes + [node]| && (nodes + [node])[i].id == m.id
    {
      var i :| 0 <= i < |nodes| && nodes[i].id == m.id;
      assert (nodes + [node])[i].id == m.id;
    }
  }

  lemma IdsAmongAdded(some: seq<DirectorNode>, nodes: seq<DirectorNode>, node: DirectorNode)
    requires IdsAmong(some, nodes) && nodes != [] && nodes[|nodes| - 1].id == node.id
    ensures IdsAmong(some + [node], nodes)
  {
  }

  lemma NotAmong(some: seq<DirectorNode>, nodes: seq<DirectorNode>, k: nat)
    requires k < |nodes| && DistinctNodes(nodes) && IdsAmong(some, nodes[..k])
    ensures forall m :: m in some ==> m.id != nodes[k].id
  {
    forall m | m in some
      ensures m.id != nodes[k].id
    {
      var i :| 0 <= i < k && nodes[..k][i].id == m.id;
      assert nodes[..k][i] == nodes[i];
    }
  }

  lemma StayingAppend(outcomes: seq<Option<Director>>, outcome: Option<Director>)
    ensures Staying(outcomes + [outcome]) == Staying(outcomes) + if outcome.Some? then [outcome.value] else []
  {
    assert (outcomes + [outcome])[..|outcomes|] == outcomes;
  }

  lemma SyncedOne(node: DirectorNode, directors: seq<Director>)
    ensures Synced([node], directors) ==
      if Find(directors, node.id).Some? then [node.(payload := Some(StateOf(Find(directors, node.id).value)))] else []
  {
    hide StateOf;
    assert [node][1..] == [];
    assert Synced([], directors) == [];
  }

  lemma NothingSynced(directors: seq<Director>)
    ensures Synced([], directors) == [] && Staying([]) == [] && Describes([], []) && IdsAmong([], [])
  {
  }

  lemma DescribesOneMore(nodes: seq<DirectorNode>, stack: seq<Director>, node: DirectorNode, d: Director)
    requires Describes(nodes, stack) && forall m :: m in nodes ==> m.id != node.id
    requires node.id == d.id && node.kind == KindOf(d) && FromSpec(SpecOf(node)) == Ok(d)
    ensures Describes(nodes + [node], stack + [d])
  {
    hide KindOf, FromSpec, SpecOf;
  }

  lemma NodeReadsBack(node: DirectorNode, d: Director)
    requires node.id == d.id && node.kind == KindOf(d) && Storable(d)
    ensures FromSpec(SpecOf(node.(payload := Some(StateOf(d))))) == Ok(d)
  {
    hide StateOf, KindOf, Storable, FromSpec;
    SpecRoundTrip(d);
  }

  /**
   After a candidate yield is handled and synced, reading the document back
   gives the stack in memory: same order, same state.
   */
  lemma SyncReadsBack(nodes: seq<DirectorNode>, stack: seq<Director>, pendingTodos: seq<string>, turn: TurnView)
    requires Describes(nodes, stack) && forall d :: d in stack ==> Storable(d)
    ensures var after := HandleYield(stack, pendingTodos, turn).directors;
      && Describes(Synced(nodes, after), after)
      && Hydrated(Synced(nodes, after)) == Ok(after)
      && forall d :: d in after ==> Storable(d)
  {
    hide KindOf, Storable, FromSpec, Outcomes, HandleYield, Synced, Hydrated, Describes;
    var outcomes := Outcomes(stack, pendingTodos, turn);
    HandledIsStaying(stack, pendingTodos, turn);
    OutcomesKeepIdentity(stack, pendingTodos, turn);
    DescribedIds(nodes, stack);
    forall i | 0 <= i < |stack|
      ensures Storable(stack[i])
    {
      assert stack[i] in stack;
    }
    SyncedDescribes(nodes, outcomes, |nodes|);
    assert nodes[..|nodes|] == nodes && outcomes[..|nodes|] == outcomes;
    DescribedReadsBack(Synced(nodes, Staying(outcomes)), Staying(outcomes));
    StayingStorable(outcomes);
  }

  lemma DescribedIds(nodes: seq<DirectorNode>, stack: seq<Director>)
    requires Describes(nodes, stack)
    ensures |nodes| == |stack| && DistinctNodes(nodes)
    ensures forall i :: 0 <= i < |nodes| ==> nodes[i].id == stack[i].id && nodes[i].kind == KindOf(stack[i])
  {
  }

  lemma {:induction false} StayingStorable(outcomes: seq<Option<Director>>)
    requires forall i :: 0 <= i < |outcomes| && outcomes[i].Some? ==> Storable(outcomes[i].value)
    ensures forall d :: d in Staying(outcomes) ==> Storable(d)
  {
    hide Storable;
    if outcomes != [] {
      StayingStorable(outcomes[..|outcomes| - 1]);
    }
  }

  // ----- The gate in front of inference --------------------------------------

  datatype NativeCost = FreeCall | CostlyCall | UnknownCost

  datatype Action = SoftInstruction(attempt: u32) | NativeFree | NativeEscalated(attempt: u32)

  datatype Exhausted = Exhausted(tool: string, attempts: u32, maxAttempts: u32, escalated: bool)

  datatype Compliance = Satisfied(attempts: nat) | RetryRequired(attempt: u32)

  /** How a required tool is put to the model on this attempt. */
  function ActionFor(attempt: u32, native: bool, cost: NativeCost): Action {
    if !native then SoftInstruction(attempt)
    else if cost.FreeCall? then NativeFree
    else if attempt == 0 then SoftInstruction(0)
    else NativeEscalated(attempt)
  }

  /** The escalation ladder of one required tool. */
  class ToolForcePolicy {
    const tool: string
    var maxAttempts: u32
    var currentAttempt: u32
    var escalated: bool
    const instruction: Option<string>

    constructor (tool: string)
      ensures this.tool == tool && maxAttempts == 3 && currentAttempt == 0 && !escalated && instruction == None
    {
      this.tool, maxAttempts, currentAttempt, escalated, instruction := tool, 3, 0, false, None;
    }

    /** Spent attempts refuse the request; otherwise the instruction goes in and the choice is set. */
    method PrepareRequest(request: Request, native: bool, cost: NativeCost)
      returns (result: Result<Action, Exhausted>, prepared: Request)
      modifies this`escalated
      ensures result.Err? <==> currentAttempt >= maxAttempts
      ensures result.Err? ==> result.error == Exhausted(tool, currentAttempt, maxAttempts, escalated) && prepared == request
      ensures result.Ok? ==> result.value == ActionFor(currentAttempt, native, cost)
      ensures result.Ok? ==>
        prepared == Request(if result.value.SoftInstruction? then Auto else Forced(tool),
                            request.messages + [Directive(tool, instruction)])
      ensures escalated == (old(escalated) || (result.Ok? && result.value.NativeEscalated?))
    {
      prepared := request;
      if currentAttempt >= maxAttempts {
        return Err(Exhausted(tool, currentAttempt, maxAttempts, escalated)), prepared;
      }
      prepared := prepared.(messages := prepared.messages + [Directive(tool, instruction)]);
      if !native {
        prepared := prepared.(choice := Auto);
        result := Ok(SoftInstruction(currentAttempt));
      } else if cost.FreeCall? {
        prepared := prepared.(choice := Forced(tool));
        result := Ok(NativeFree);
      } else if currentAttempt == 0 {
        prepared := prepared.(choice := Auto);
        result := Ok(SoftInstruction(0));
      } else {
        escalated := true;
        prepared := prepared.(choice := Forced(tool));
        result := Ok(NativeEscalated(currentAttempt));
      }
    }

    method RecordTurnResult(called: seq<string>) returns (result: Result<Compliance, Exhausted>)
      modifies this`currentAttempt
      ensures tool in called ==> currentAttempt == old(currentAttempt) && result == Ok(Satisfied(currentAttempt + 1))
      ensures tool !in called ==>
        && currentAttempt == Bump(old(currentAttempt))
        && result == if currentAttempt >= maxAttempts then Err(Exhausted(tool, currentAttempt, maxAttempts, escalated))
                     else Ok(RetryRequired(currentAttempt))
    {
      if tool in called {
        return Ok(Satisfied(currentAttempt + 1));
      }
      currentAttempt := Bump(currentAttempt);
      if currentAttempt >= maxAttempts {
        return Err(Exhausted(tool, currentAttempt, maxAttempts, escalated));
      }
      result := Ok(RetryRequired(currentAttempt));
    }
  }

  /** The written form of the innermost director that forces this very tool. */
  function ForcingSpec(directors: seq<Director>, tool: string): Option<DirectorSpec> {
    if directors == [] then None
    else
      var spec := ToSpec(directors[|directors| - 1]);
      if spec.kind == FORCE_TOOL && spec.state.Text("tool") == Some(tool) then Some(spec)
      else ForcingSpec(directors[..|directors| - 1], tool)
  }

  /**
   One inference request: the directors prepare it, and if a tool is forced, its
   ladder, read from the director's written state, admits it or not.
   */
  method PrepareTurn(stack: DirectorStack, request: Request, native: bool, cost: NativeCost)
    returns (result: Result<Request, Exhausted>)
    requires request.choice == Auto
    ensures result.Ok? <==> Admitted(stack.directors)
  {
    hide StateOf, ToSpec, Prepared;
    var prepared := stack.PrepareInference(request);
    InnermostDecides(stack.directors, request);
    if !prepared.choice.Forced? {
      return Ok(prepared);
    }
    var tool := prepared.choice.tool;
    var policy := new ToolForcePolicy(tool);
    var spec := ForcingSpec(stack.directors, tool);
    ForcingSpecIsInnermost(stack.directors);
    if spec.Some? {
      policy.currentAttempt := spec.value.state.Counter("attempt_count", 0);
      policy.maxAttempts := spec.value.state.Counter("max_attempts", 1);
    }
    var action, ready := policy.PrepareRequest(prepared, native, cost);
    if action.Err? {
      return Err(action.error);
    }
    result := Ok(ready);
  }

  /** Inference may go ahead: no forced tool, or the innermost has attempts left. */
  predicate Admitted(directors: seq<Director>) {
    var f := Innermost(directors);
    f.Some? ==> f.value.attempts < f.value.maxAttempts
  }

  lemma {:induction false} ForcingSpecIsInnermost(directors: seq<Director>)
    requires Innermost(directors).Some?
    ensures var f := Innermost(directors).value;
      var spec := ForcingSpec(directors, f.tool);
      && spec == Some(ToSpec(f))
      && spec.value.state.Counter("attempt_count", 0) == f.attempts
      && spec.value.state.Counter("max_attempts", 1) == f.maxAttempts
  {
    hide StateOf;
    var last := directors[|directors| - 1];
    if last.ForceTool? {
      ForceToolFields(last);
    } else {
      KindsDiffer();
      ForcingSpecIsInnermost(directors[..|directors| - 1]);
    }
  }

  lemma ForceToolFields(d: Director)
    requires d.ForceTool?
    ensures StateOf(d).Text("tool") == Some(d.tool)
    ensures StateOf(d).Counter("attempt_count", 0) == d.attempts
    ensures StateOf(d).Counter("max_attempts", 1) == d.maxAttempts
  {
    FieldNamesDiffer();
  }

  // ----- Whole sessions ------------------------------------------------------

  /**
   The document, the stack in memory, and two records kept for the proofs: how
   often each forced tool was missed while it was the innermost one, and how
   often it may be.
   */
  datatype Session = Session(
    nodes: seq<DirectorNode>,
    stack: seq<Director>,
    misses: map<ElementId, nat>,
    limits: map<ElementId, nat>)

  datatype Move =
    | Reload
    | Force(id: ElementId, tool: string, reminder: string, maxAttempts: u32)
    | Turn(pendingTodos: seq<string>, turn: TurnView)

  function Missed(s: Session, id: ElementId): nat {
    if id in s.misses then s.misses[id] else 0
  }

  /** No counter is about to wrap around. */
  predicate CountersSafe(directors: seq<Director>) {
    forall d :: d in directors && d.ForceTool? ==> d.attempts < 0xFFFF_FFFF
  }

  function NewForceTool(id: ElementId, tool: string, reminder: string, maxAttempts: u32): Director {
    ForceTool(id, tool, None, reminder, 0, if maxAttempts == 0 then 1 else maxAttempts, FailTurn)
  }

  /** The innermost forced tool was asked about the yield and had not been called. */
  predicate MissedNow(stack: seq<Director>, after: seq<Director>) {
    Innermost(stack).Some? && Find(after, Innermost(stack).value.id).Some? &&
    Find(after, Innermost(stack).value.id) != Innermost(stack)
  }

  function TakeTurn(s: Session, pendingTodos: seq<string>, turn: TurnView): Session {
    if !Admitted(s.stack) then s
    else
      var after := HandleYield(s.stack, pendingTodos, turn).directors;
      var misses :=
        if MissedNow(s.stack, after) then
          var id := Innermost(s.stack).value.id;
          s.misses[id := Missed(s, id) + 1]
        else s.misses;
      s.(nodes := Synced(s.nodes, after), stack := after, misses := misses)
  }

  /** What one move does; `None` when it cannot happen or ends in an error. */
  function Next(s: Session, move: Move): Option<Session> {
    match move
    case Reload =>
      (match Hydrated(s.nodes)
       case Err(_) => None
       case Ok(stack) => Some(s.(stack := stack)))
    case Force(id, tool, reminder, maxAttempts) =>
      if (exists n :: n in s.nodes && n.id == id) || id in s.limits then None
      else
        var d := NewForceTool(id, tool, reminder, maxAttempts);
        var nodes := s.nodes + [NodeOf(d)];
        (match Hydrated(nodes)
         case Err(_) => None
         case Ok(stack) => Some(s.(nodes := nodes, stack := stack, limits := s.limits[id := d.maxAttempts])))
    case Turn(pendingTodos, turn) =>
      if CountersSafe(s.stack) then Some(TakeTurn(s, pendingTodos, turn)) else None
  }

  predicate Counted(s: Session) {
    && (forall d :: d in s.stack && d.ForceTool? ==>
          d.id in s.limits && s.limits[d.id] == d.maxAttempts && Missed(s, d.id) <= d.attempts)
    && (forall id :: id in s.misses ==> id in s.limits && s.misses[id] <= s.limits[id])
  }

  predicate Inv(s: Session) {
    && Describes(s.nodes, s.stack)
    && (forall d :: d in s.stack ==> Storable(d))
    && Counted(s)
  }

  // ----- Every move keeps it -------------------------------------------------

  /** A director after a yield, next to what it was before. */
  predicate Successor(before: Director, after: Director) {
    && after.id == before.id
    && (after.ForceTool? ==> before.ForceTool? && (after == before || after == before.(attempts := Bump(before.attempts))))
  }

  lemma {:induction false} OutcomesSucceed(directors: seq<Director>, pendingTodos: seq<string>, turn: TurnView)
    ensures forall i :: 0 <= i < |directors| && Outcomes(directors, pendingTodos, turn)[i].Some? ==>
              Successor(directors[i], Outcomes(directors, pendingTodos, turn)[i].value)
  {
    if directors != [] {
      OutcomesSucceed(directors[..|directors| - 1], pendingTodos, turn);
      OneSucceeds(directors[|directors| - 1], pendingTodos, turn);
      hide OnYield, Successor;
      SucceedsItself(directors[..|directors| - 1]);
    }
  }

  lemma OneSucceeds(d: Director, pendingTodos: seq<string>, turn: TurnView)
    ensures Successor(d, OnYield(d, pendingTodos, turn).0)
  {
  }

  lemma SucceedsItself(directors: seq<Director>)
    ensures forall i :: 0 <= i < |directors| ==> Successor(directors[i], directors[i])
  {
  }

  lemma {:induction false} StayingFrom(outcomes: seq<Option<Director>>, d: Director) returns (i: nat)
    requires d in Staying(outcomes)
    ensures i < |outcomes| && outcomes[i] == Some(d)
  {
    var last := |outcomes| - 1;
    if outcomes[last] == Some(d) {
      i := last;
    } else {
      i := StayingFrom(outcomes[..last], d);
    }
  }

  /** Every director left on the stack succeeds one that was on it. */
  lemma Predecessor(stack: seq<Director>, pendingTodos: seq<string>, turn: TurnView, after: Director) returns (before: Director)
    requires after in HandleYield(stack, pendingTodos, turn).directors
    ensures before in stack && Successor(before, after)
  {
    hide Outcomes, HandleYield, Successor;
    HandledIsStaying(stack, pendingTodos, turn);
    var i := StayingFrom(Outcomes(stack, pendingTodos, turn), after);
    OutcomesSucceed(stack, pendingTodos, turn);
    before := stack[i];
  }

  lemma DescribesDistinct(nodes: seq<DirectorNode>, stack: seq<Director>, a: Director, b: Director)
    requires Describes(nodes, stack) && a in stack && b in stack && a.id == b.id
    ensures a == b
  {
    hide FromSpec, SpecOf, KindOf;
    var i :| 0 <= i < |stack| && stack[i] == a;
    var j :| 0 <= j < |stack| && stack[j] == b;
    assert nodes[i].id == nodes[j].id;
  }

  /** Reloading the document gives back the session unchanged. */
  lemma ReloadIsIdle(s: Session)
    requires Inv(s)
    ensures Next(s, Reload) == Some(s)
  {
    hide Describes, Hydrated;
    DescribedReadsBack(s.nodes, s.stack);
  }

  /** A forced tool is accepted exactly when its name is not blank. */
  lemma ForceNeedsName(s: Session, id: ElementId, tool: string, reminder: string, maxAttempts: u32)
    requires Inv(s) && id !in s.limits && forall n :: n in s.nodes ==> n.id != id
    ensures Next(s, Force(id, tool, reminder, maxAttempts)).Some? <==> !IsBlank(tool)
    ensures IsBlank(tool) ==> Hydrated(s.nodes + [NodeOf(NewForceTool(id, tool, reminder, maxAttempts))]) == Err(MissingTool)
  {
    hide IsBlank;
    var d := NewForceTool(id, tool, reminder, maxAttempts);
    HydratedAppend(s, d);
  }

  lemma HydratedAppend(s: Session, d: Director)
    requires Inv(s)
    ensures Hydrated(s.nodes + [NodeOf(d)]) == if Storable(d) then Ok(s.stack + [d]) else Err(MissingTool)
  {
    hide Describes, FromSpec, StateOf, KindOf, Storable;
    DescribedReadsBack(s.nodes, s.stack);
    SpecRoundTrip(d);
    assert (s.nodes + [NodeOf(d)])[..|s.nodes|] == s.nodes;
  }

  lemma ForceKeeps(s: Session, id: ElementId, tool: string, reminder: string, maxAttempts: u32)
    requires Inv(s) && Next(s, Force(id, tool, reminder, maxAttempts)).Some?
    ensures Inv(Next(s, Force(id, tool, reminder, maxAttempts)).value)
  {
    hide IsBlank, Hydrated, Describes, FromSpec, StateOf;
    var d := NewForceTool(id, tool, reminder, maxAttempts);
    HydratedAppend(s, d);
    SpecRoundTrip(d);
    DescribesOneMore(s.nodes, s.stack, NodeOf(d), d);
    MissesDeclared(s, id);
  }

  lemma MissesDeclared(s: Session, id: ElementId)
    requires Counted(s) && id !in s.limits
    ensures id !in s.misses
  {
  }

  lemma CountedAfter(s: Session, pendingTodos: seq<string>, turn: TurnView)
    requires Inv(s) && CountersSafe(s.stack) && Admitted(s.stack)
    ensures Counted(TakeTurn(s, pendingTodos, turn))
  {
    hide HandleYield, Describes, Synced, Storable, KindOf;
    var t := TakeTurn(s, pendingTodos, turn);
    forall after | after in t.stack && after.ForceTool?
      ensures after.id in t.limits && t.limits[after.id] == after.maxAttempts && Missed(t, after.id) <= after.attempts
    {
      var before := Predecessor(s.stack, pendingTodos, turn, after);
      if MissedNow(s.stack, t.stack) && after.id == Innermost(s.stack).value.id {
        DescribesDistinct(s.nodes, s.stack, before, Innermost(s.stack).value);
        FoundIs(s, pendingTodos, turn, after);
      }
    }
    if MissedNow(s.stack, t.stack) {
      var f := Innermost(s.stack).value;
      assert Missed(s, f.id) <= f.attempts < f.maxAttempts;
    }
  }

  /** A director left on the stack is the one its id finds. */
  lemma FoundIs(s: Session, pendingTodos: seq<string>, turn: TurnView, after: Director)
    requires Inv(s) && after in HandleYield(s.stack, pendingTodos, turn).directors
    ensures Find(HandleYield(s.stack, pendingTodos, turn).directors, after.id) == Some(after)
  {
    hide HandleYield, Storable, Describes, Synced, Counted;
    var stack := HandleYield(s.stack, pendingTodos, turn).directors;
    SyncReadsBack(s.nodes, s.stack, pendingTodos, turn);
    FindIsMember(stack, after.id);
    assert Find(stack, after.id).Some? by {
      var i :| 0 <= i < |stack| && stack[i] == after;
      assert stack[i].id == after.id;
    }
    DescribesDistinct(Synced(s.nodes, stack), stack, Find(stack, after.id).value, after);
  }

  lemma TurnKeeps(s: Session, pendingTodos: seq<string>, turn: TurnView)
    requires Inv(s) && CountersSafe(s.stack)
    ensures Inv(TakeTurn(s, pendingTodos, turn))
  {
    hide HandleYield, Describes, Synced, Storable, Counted, Hydrated, MissedNow;
    if Admitted(s.stack) {
      SyncReadsBack(s.nodes, s.stack, pendingTodos, turn);
      CountedAfter(s, pendingTodos, turn);
    }
  }

  lemma NextKeeps(s: Session, move: Move)
    requires Inv(s) && Next(s, move).Some?
    ensures Inv(Next(s, move).value)
  {
    hide Inv, TakeTurn, Hydrated;
    match move {
      case Reload => ReloadIsIdle(s);
      case Force(id, tool, reminder, maxAttempts) => ForceKeeps(s, id, tool, reminder, maxAttempts);
      case Turn(pendingTodos, turn) => TurnKeeps(s, pendingTodos, turn);
    }
  }

  // ----- Every session -------------------------------------------------------

  /** A session opened on a document whose directors all read back. */
  predicate Opening(s: Session) {
    Inv(s) && s.misses == map[]
  }

  function Run(s: Session, moves: seq<Move>): Option<Session> {
    if moves == [] then Some(s)
    else
      match Run(s, moves[..|moves| - 1])
      case None => None
      case Some(t) => Next(t, moves[|moves| - 1])
  }

  lemma {:induction false} RunKeeps(s: Session, moves: seq<Move>)
    requires Inv(s) && Run(s, moves).Some?
    ensures Inv(Run(s, moves).value)
  {
    hide Inv, Next;
    if moves != [] {
      RunKeeps(s, moves[..|moves| - 1]);
      NextKeeps(Run(s, moves[..|moves| - 1]).value, moves[|moves| - 1]);
    }
  }

  /**
   At any point of any session the document reads back as the stack in memory,
   so reloading changes nothing, and no forced tool has been missed more often
   than allowed while it was the innermost one.
   */
  lemma SessionSurvivesReload(s: Session, moves: seq<Move>)
    requires Opening(s) && Run(s, moves).Some?
    ensures var t := Run(s, moves).value;
      && Hydrated(t.nodes) == Ok(t.stack)
      && Run(s, moves + [Reload]) == Some(t)
      && forall id :: id in t.misses ==> id in t.limits && t.misses[id] <= t.limits[id]
  {
    hide Hydrated, Describes, Next;
    RunKeeps(s, moves);
    var t := Run(s, moves).value;
    ReloadIsIdle(t);
    DescribedReadsBack(t.nodes, t.stack);
    assert (moves + [Reload])[..|moves|] == moves;
  }

  predicate Quiet(moves: seq<Move>) {
    forall m :: m in moves ==> !m.Force?
  }

  /**
   Once the innermost forced tool has used up its attempts every further turn is
   refused before inference, reloads included, until another tool is forced.
   */
  lemma {:induction false} ExhaustedStaysRefused(s: Session, moves: seq<Move>)
    requires Inv(s) && !Admitted(s.stack) && Quiet(moves) && Run(s, moves).Some?
    ensures Run(s, moves) == Some(s)
  {
    hide Inv, Hydrated, HandleYield, Admitted;
    if moves != [] {
      var last := moves[|moves| - 1];
      ExhaustedStaysRefused(s, moves[..|moves| - 1]);
      assert last in moves;
      if last.Reload? {
        ReloadIsIdle(s);
      }
    }
  }

  // ----- When the maxima hold ------------------------------------------------

  /** Every forced tool has attempts left. */
  predicate Unspent(stack: seq<Director>) {
    forall d :: d in stack && d.ForceTool? ==> d.attempts < d.maxAttempts
  }

  /** Only the innermost forced tool may have used up its attempts, and none more than those. */
  predicate Within(stack: seq<Director>) {
    stack == [] ||
    var outer, d := stack[..|stack| - 1], stack[|stack| - 1];
    if d.ForceTool? then d.attempts <= d.maxAttempts && Unspent(outer) else Within(outer)
  }

  /** A forced tool was missed more often than it may be. */
  predicate Exceeded(stack: seq<Director>) {
    exists d :: d in stack && d.ForceTool? && d.attempts > d.maxAttempts
  }

  lemma WithinAppend(stack: seq<Director>, d: Director)
    ensures Within(stack + [d]) <==> if d.ForceTool? then d.attempts <= d.maxAttempts && Unspent(stack) else Within(stack)
  {
    assert (stack + [d])[..|stack|] == stack;
  }

  lemma {:induction false} WithinMeans(stack: seq<Director>)
    requires Within(stack)
    ensures !Exceeded(stack)
    ensures Unspent(stack) <==> Admitted(stack)
  {
    if stack != [] {
      var outer, d := stack[..|stack| - 1], stack[|stack| - 1];
      if d.ForceTool? {
        assert forall o :: o in stack ==> o == d || o in outer;
      } else {
        WithinMeans(outer);
        assert forall o :: o in stack ==> o == d || o in outer;
        assert forall o :: o in outer ==> o in stack;
      }
    }
  }

  lemma {:induction false} UnspentIsWithin(stack: seq<Director>)
    requires Unspent(stack)
    ensures Within(stack)
  {
    if stack != [] {
      assert forall o :: o in stack[..|stack| - 1] ==> o in stack;
      UnspentIsWithin(stack[..|stack| - 1]);
    }
  }

  /** A forced tool never passes a yield on; missed with attempts left, it stays within them. */
  lemma ForcedAnswer(d: Director, pendingTodos: seq<string>, turn: TurnView)
    ensures var (next, decision) := OnYield(d, pendingTodos, turn);
      && next.ForceTool? == d.ForceTool?
      && (d.ForceTool? ==> (decision.Done? <==> Complies(turn, d.tool)) && !decision.Pass?)
      && (d.ForceTool? && !decision.Done? ==> next == d.(attempts := Bump(d.attempts)))
  {
    hide Complies;
  }

  /** A candidate yield taken by tools with attempts left spends at most the innermost of those that stay. */
  lemma {:induction false} YieldStaysWithin(stack: seq<Director>, pendingTodos: seq<string>, turn: TurnView)
    requires Unspent(stack)
    ensures Within(HandleYield(stack, pendingTodos, turn).directors)
  {
    hide OnYield, Complies, Within;
    UnspentIsWithin(stack);
    if stack == [] {
    } else {
      var outer, d := stack[..|stack| - 1], stack[|stack| - 1];
      assert forall o :: o in outer ==> o in stack;
      ForcedAnswer(d, pendingTodos, turn);
      YieldStaysWithin(outer, pendingTodos, turn);
      UnspentIsWithin(outer);
      var (next, decision) := OnYield(d, pendingTodos, turn);
      WithinAppend(HandleYield(outer, pendingTodos, turn).directors, next);
      WithinAppend(outer, next);
    }
  }

  /** Another tool is only forced while inference would be admitted. */
  ghost predicate Patient(s: Session, moves: seq<Move>) {
    moves == [] ||
    var before := Run(s, moves[..|moves| - 1]);
    && Patient(s, moves[..|moves| - 1])
    && (moves[|moves| - 1].Force? && before.Some? ==> Admitted(before.value.stack))
  }

  lemma ForcedStack(s: Session, id: ElementId, tool: string, reminder: string, maxAttempts: u32)
    requires Inv(s) && Next(s, Force(id, tool, reminder, maxAttempts)).Some?
    ensures Next(s, Force(id, tool, reminder, maxAttempts)).value.stack ==
      s.stack + [NewForceTool(id, tool, reminder, maxAttempts)]
  {
    hide Hydrated, StateOf, Storable, Inv;
    HydratedAppend(s, NewForceTool(id, tool, reminder, maxAttempts));
  }

  /**
   A session that forces another tool only while the gate is open never misses
   any forced tool, however far out it stands, more often than its maximum.
   */
  lemma {:induction false} MaximaHold(s: Session, moves: seq<Move>)
    requires Opening(s) && Within(s.stack) && Patient(s, moves) && Run(s, moves).Some?
    ensures var stack := Run(s, moves).value.stack; Within(stack) && !Exceeded(stack)
  {
    hide Inv, HandleYield, Within, Exceeded, Unspent, Admitted, Hydrated;
    if moves == [] {
      WithinMeans(s.stack);
    } else {
      var init, move := moves[..|moves| - 1], moves[|moves| - 1];
      MaximaHold(s, init);
      RunKeeps(s, init);
      var t := Run(s, init).value;
      WithinMeans(t.stack);
      match move {
        case Reload => ReloadIsIdle(t);
        case Force(id, tool, reminder, maxAttempts) =>
          ForcedStack(t, id, tool, reminder, maxAttempts);
          WithinAppend(t.stack, NewForceTool(id, tool, reminder, maxAttempts));
        case Turn(pendingTodos, turn) =>
          if Admitted(t.stack) {
            YieldStaysWithin(t.stack, pendingTodos, turn);
          }
      }
      WithinMeans(Run(s, moves).value.stack);
    }
  }

  // ----- When they do not ----------------------------------------------------

  /** The directors further in than every forced tool. */
  function FurtherIn(stack: seq<Director>): seq<Director> {
    if stack == [] || stack[|stack| - 1].ForceTool? then [] else FurtherIn(stack[..|stack| - 1]) + [stack[|stack| - 1]]
  }

  /** None of them keeps the candidate yield to itself. */
  predicate LetThrough(directors: seq<Director>, pendingTodos: seq<string>, turn: TurnView) {
    forall d :: d in directors ==>
      var decision := OnYield(d, pendingTodos, turn).1; decision.Pass? || decision.Done?
  }

  lemma ExceededAppend(stack: seq<Director>, d: Director)
    ensures Exceeded(stack + [d]) <==> Exceeded(stack) || (d.ForceTool? && d.attempts > d.maxAttempts)
  {
    if Exceeded(stack) {
      var e :| e in stack && e.ForceTool? && e.attempts > e.maxAttempts;
      assert e in stack + [d];
    }
    if d.ForceTool? && d.attempts > d.maxAttempts {
      assert d in stack + [d];
    }
  }

  /** A yield that reaches a spent tool, and does not call it, takes it past its maximum. */
  lemma {:induction false} SpentToolReached(stack: seq<Director>, pendingTodos: seq<string>, turn: TurnView)
    requires Within(stack) && !Admitted(stack) && CountersSafe(stack)
    ensures Exceeded(HandleYield(stack, pendingTodos, turn).directors) <==>
      !Complies(turn, Innermost(stack).value.tool) && LetThrough(FurtherIn(stack), pendingTodos, turn)
  {
    hide OnYield, Complies, Exceeded, Unspent;
    var outer, d := stack[..|stack| - 1], stack[|stack| - 1];
    var (next, decision) := OnYield(d, pendingTodos, turn);
    ForcedAnswer(d, pendingTodos, turn);
    ExceededAppend(HandleYield(outer, pendingTodos, turn).directors, next);
    ExceededAppend(outer, next);
    assert d in stack;
    if d.ForceTool? {
      UnspentIsWithin(outer);
      WithinMeans(outer);
      YieldStaysWithin(outer, pendingTodos, turn);
      WithinMeans(HandleYield(outer, pendingTodos, turn).directors);
    } else {
      assert forall o :: o in outer ==> o in stack;
      SpentToolReached(outer, pendingTodos, turn);
      WithinMeans(outer);
      LetThroughAppend(FurtherIn(outer), d, pendingTodos, turn);
    }
  }

  lemma LetThroughAppend(directors: seq<Director>, d: Director, pendingTodos: seq<string>, turn: TurnView)
    ensures LetThrough(directors + [d], pendingTodos, turn) <==>
      LetThrough(directors, pendingTodos, turn) &&
      (OnYield(d, pendingTodos, turn).1.Pass? || OnYield(d, pendingTodos, turn).1.Done?)
  {
    hide OnYield;
    assert d in directors + [d];
    assert forall o :: o in directors ==> o in directors + [d];
  }

  /**
   Forcing another tool over a spent one reopens the gate. The spent tool then
   exceeds its maximum on the next turn exactly when that turn calls the new
   tool, not the spent one, and reaches it.
   */
  lemma ForcingOverSpentExceeds(s: Session, id: ElementId, tool: string, reminder: string, maxAttempts: u32,
                                pendingTodos: seq<string>, turn: TurnView)
    requires Inv(s) && Within(s.stack) && !Admitted(s.stack)
    requires Run(s, [Force(id, tool, reminder, maxAttempts), Turn(pendingTodos, turn)]).Some?
    ensures Exceeded(Run(s, [Force(id, tool, reminder, maxAttempts), Turn(pendingTodos, turn)]).value.stack) <==>
      && Complies(turn, tool)
      && !Complies(turn, Innermost(s.stack).value.tool)
      && LetThrough(FurtherIn(s.stack), pendingTodos, turn)
  {
    hide Inv, Hydrated, OnYield, Complies, Exceeded, Within, Admitted, LetThrough;
    var force, taken := Force(id, tool, reminder, maxAttempts), Turn(pendingTodos, turn);
    var d := NewForceTool(id, tool, reminder, maxAttempts);
    assert [force, taken][..1] == [force] && [force][..0] == [];
    assert Run(s, [force]) == Next(s, force) by {
      assert Run(s, []) == Some(s);
    }
    var t := Next(s, force).value;
    ForcedStack(s, id, tool, reminder, maxAttempts);
    assert t.stack == s.stack + [d];
    assert t.stack[..|s.stack|] == s.stack;
    NewToolAdmitted(s.stack, d);
    ForcedAnswer(d, pendingTodos, turn);
    WithinMeans(s.stack);
    ExceededAppend(s.stack, OnYield(d, pendingTodos, turn).0);
    assert CountersSafe(t.stack);
    assert forall o :: o in s.stack ==> o in t.stack;
    SpentToolReached(s.stack, pendingTodos, turn);
  }

  lemma NewToolAdmitted(stack: seq<Director>, d: Director)
    requires d.ForceTool? && d.attempts < d.maxAttempts
    ensures Admitted(stack + [d])
  {
  }

  /** A document without directors. */
  const EMPTY_SESSION := Session([], [], map[], map[])

  /** Two tools forced one after the other, the first with one attempt and never called. */
  function TwoForced(): seq<Move> {
    [Force(0, "a", "", 1), Turn([], TurnView(false, false, [], [])),
     Force(1, "b", "", 3), Turn([], TurnView(false, false, [], [ToolUse("b", None)]))]
  }

  /** The gate does not protect an outer forced tool: this session misses one twice that may be missed once. */
  lemma OuterCanExceed()
    ensures Opening(EMPTY_SESSION) && Within(EMPTY_SESSION.stack)
    ensures Run(EMPTY_SESSION, TwoForced()).Some?
    ensures Exceeded(Run(EMPTY_SESSION, TwoForced()).value.stack)
  {
    hide Next, Exceeded, Inv;
    var moves := TwoForced();
    FirstMisses();
    var s := Run(EMPTY_SESSION, moves[..2]).value;
    RunKeeps(EMPTY_SESSION, moves[..2]);
    SecondExceeds(s);
    assert moves[..3][..2] == moves[..2] && moves[..4] == moves;
    RunTwo(s, moves[2], moves[3]);
    assert Run(EMPTY_SESSION, moves[..3]) == Next(s, moves[2]);
    assert [moves[2], moves[3]] == moves[2..];
    assert moves[..|moves| - 1] == moves[..3];
  }

  lemma RunTwo(s: Session, first: Move, second: Move)
    ensures Run(s, [first, second]) == if Next(s, first).None? then None else Next(Next(s, first).value, second)
  {
    hide Next;
    assert [first, second][..1] == [first] && [first][..0] == [];
    assert Run(s, []) == Some(s);
    assert Run(s, [first]) == Next(s, first);
  }

  lemma SecondExceeds(s: Session)
    requires Inv(s) && s.stack == [ForceTool(0, "a", None, "", 1, 1, FailTurn)]
    requires 1 !in s.limits && forall n :: n in s.nodes ==> n.id == 0
    ensures Run(s, TwoForced()[2..]).Some? && Exceeded(Run(s, TwoForced()[2..]).value.stack)
  {
    hide Hydrated, FromSpec, StateOf, Exceeded, Inv, IsBlank, HandleYield, Run;
    var moves, called := TwoForced()[2..], TurnView(false, false, [], [ToolUse("b", None)]);
    assert moves == [Force(1, "b", "", 3), Turn([], called)];
    OneLetter();
    ForceNeedsName(s, 1, "b", "", 3);
    ForcedStack(s, 1, "b", "", 3);
    RunTwo(s, moves[0], moves[1]);
    assert CountersSafe(Next(s, moves[0]).value.stack);
    ForcingOverSpentExceeds(s, 1, "b", "", 3, [], called);
    assert ToolUse("b", None) in called.executed;
    assert "a"[0] != "b"[0];
  }

  lemma FirstMisses()
    ensures Opening(EMPTY_SESSION)
    ensures Run(EMPTY_SESSION, TwoForced()[..2]).Some?
    ensures var s := Run(EMPTY_SESSION, TwoForced()[..2]).value;
      && s.stack == [ForceTool(0, "a", None, "", 1, 1, FailTurn)] && 1 !in s.limits && forall n :: n in s.nodes ==> n.id == 0
  {
    hide Next, Inv, NodeOf;
    var moves, d := TwoForced(), NewForceTool(0, "a", "", 1);
    FirstForced();
    FirstMissed(d);
    assert moves[..2] == [moves[0], moves[1]];
    RunTwo(EMPTY_SESSION, moves[0], moves[1]);
  }

  lemma FirstForced()
    ensures Opening(EMPTY_SESSION)
    ensures var d := NewForceTool(0, "a", "", 1);
      Next(EMPTY_SESSION, TwoForced()[0]) == Some(Session([NodeOf(d)], [d], map[], map[0 := 1]))
  {
    hide FromSpec, StateOf, IsBlank, Describes, Hydrated;
    NothingSynced([]);
    OneLetter();
    ForceNeedsName(EMPTY_SESSION, 0, "a", "", 1);
    ForcedStack(EMPTY_SESSION, 0, "a", "", 1);
    var d, forced := NewForceTool(0, "a", "", 1), Next(EMPTY_SESSION, TwoForced()[0]).value;
    assert EMPTY_SESSION.limits[0 := 1] == map[0 := 1];
    assert forced.nodes == EMPTY_SESSION.nodes + [NodeOf(d)] == [NodeOf(d)];
    assert forced.stack == [d];
  }

  lemma FirstMissed(d: Director)
    requires d == NewForceTool(0, "a", "", 1)
    ensures var s := Session([NodeOf(d)], [d], map[], map[0 := 1]);
      var t := Next(s, TwoForced()[1]);
      && t.Some?
      && t.value.stack == [d.(attempts := 1)] && t.value.limits == map[0 := 1] && forall n :: n in t.value.nodes ==> n.id == 0
  {
    hide StateOf, Hydrated, HandleYield, Synced, MissedNow, KindOf;
    assert [d][..0] == [];
    MissedAlone(d, TurnView(false, false, [], []));
    SyncedOne(NodeOf(d), [d.(attempts := 1)]);
  }

  lemma OneLetter()
    ensures !IsBlank("a") && !IsBlank("b")
  {
    assert !IsWhitespace("a"[0]) && !IsWhitespace("b"[0]);
  }

  lemma MissedAlone(d: Director, idle: TurnView)
    requires d.ForceTool? && d.attempts == 0 && idle == TurnView(false, false, [], [])
    ensures HandleYield([d], [], idle).directors == [d.(attempts := 1)]
  {
    assert [d][..0] == [];
  }
}
