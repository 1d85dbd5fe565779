/**
 Which transcript entries a compaction pass elides: the soft pass that buys
 headroom, and the hard pass that gives up the whole completed history. Both
 only choose; nothing is written here. The soft pass is compared with the
 shortest run of worthwhile entries that reaches the target, the hard pass with
 everything eligible that is left.
 */
module Elision {
  import opened Wrappers
  import opened Dom
  import opened Tokens
  import opened Projection
  import opened SummaryForest

  const INVENTORY_LINE_TOKENS: nat := 40
  const NODE_HEADER_TOKENS: nat := 24
  const COVER_COST: nat := INVENTORY_LINE_TOKENS + NODE_HEADER_TOKENS

  datatype CompactionConfig = CompactionConfig(
    budget: CompactionBudget,
    keepRecentTurns: nat,
    maxRootNodes: nat,
    fixedOverheadTokens: nat)

  // ----- Turn boundaries -----------------------------------------------------

  function UserIndices(entries: seq<BodyEntry>): (users: seq<nat>)
    ensures forall k :: 0 <= k < |users| ==> users[k] < |entries| && entries[users[k]].role == User
    ensures forall k, l :: 0 <= k < l < |users| ==> users[k] < users[l]
    ensures forall i :: 0 <= i < |entries| && entries[i].role == User ==> i in users
  {
    if entries == [] then [] else
      var n := |entries| - 1;
      var before := UserIndices(entries[..n]);
      if entries[n].role == User then before + [n] else before
  }

  /** Everything before it belongs to turns older than the last `keep` ones. */
  function RecentTurnBoundary(entries: seq<BodyEntry>, keep: nat): (boundary: nat)
    ensures boundary <= |entries|
  {
    var kept := Max(keep, 1);
    var users := UserIndices(entries);
    if |users| <= kept then 0 else users[|users| - kept]
  }

  /** How many turns the entries start. */
  function Turns(entries: seq<BodyEntry>): nat {
    if entries == [] then 0 else Turns(entries[..|entries| - 1]) + if entries[|entries| - 1].role == User then 1 else 0
  }

  /** The turns that start after an entry are the last ones of the list. */
  ghost predicate LastOf(users: seq<nat>, i: nat, later: nat) {
    later <= |users| && forall k :: 0 <= k < |users| ==> (users[k] > i <==> k >= |users| - later)
  }

  lemma {:induction false} TurnsAfter(entries: seq<BodyEntry>, i: nat)
    requires i < |entries|
    ensures LastOf(UserIndices(entries), i, Turns(entries[i + 1..])) && |UserIndices(entries)| == Turns(entries)
  {
    hide Turns, UserIndices;
    var n := |entries| - 1;
    TurnsListed(entries);
    UserIndicesStep(entries);
    if i == n {
      NoTurns();
      assert entries[n + 1..] == [];
    } else {
      assert entries[i + 1..] == entries[..n][i + 1..] + [entries[n]];
      TurnsAppend(entries[..n][i + 1..], entries[n]);
      TurnsAfter(entries[..n], i);
    }
  }

  lemma NoTurns()
    ensures Turns([]) == 0
  {
  }

  lemma UserIndicesStep(entries: seq<BodyEntry>)
    requires entries != []
    ensures var n := |entries| - 1;
      UserIndices(entries) == UserIndices(entries[..n]) + if entries[n].role == User then [n] else []
  {
  }

  lemma TurnsAppend(entries: seq<BodyEntry>, last: BodyEntry)
    ensures Turns(entries + [last]) == Turns(entries) + if last.role == User then 1 else 0
  {
    assert (entries + [last])[..|entries|] == entries;
  }

  lemma {:induction false} TurnsListed(entries: seq<BodyEntry>)
    ensures |UserIndices(entries)| == Turns(entries)
  {
    if entries != [] {
      TurnsListed(entries[..|entries| - 1]);
    }
  }

  /**
   An entry is older than the turns kept exactly when there are more turns than
   those and all of them start after it. At least one turn is kept.
   */
  lemma OlderThanKept(entries: seq<BodyEntry>, keep: nat, i: nat)
    requires i < |entries|
    ensures i < RecentTurnBoundary(entries, keep) <==>
      Turns(entries) > Max(keep, 1) && Turns(entries[i + 1..]) >= Max(keep, 1)
  {
    hide UserIndices, Turns;
    TurnsAfter(entries, i);
  }

  /** The entry that starts the turn in flight. */
  function FinalTurnBoundary(entries: seq<BodyEntry>): (boundary: nat)
    ensures boundary <= |entries|
  {
    if entries == [] then 0
    else if entries[|entries| - 1].role == User then |entries| - 1
    else FinalTurnBoundary(entries[..|entries| - 1])
  }

  lemma {:induction false} FinalBoundaryIsLastUser(entries: seq<BodyEntry>)
    ensures var users := UserIndices(entries);
      FinalTurnBoundary(entries) == if users == [] then 0 else users[|users| - 1]
  {
    if entries != [] && entries[|entries| - 1].role != User {
      FinalBoundaryIsLastUser(entries[..|entries| - 1]);
    }
  }

  lemma RecentBeforeFinal(entries: seq<BodyEntry>, keep: nat)
    ensures RecentTurnBoundary(entries, keep) <= FinalTurnBoundary(entries)
  {
    FinalBoundaryIsLastUser(entries);
    hide UserIndices, FinalTurnBoundary;
    var users := UserIndices(entries);
    var kept := Max(keep, 1);
    if |users| > kept > 1 {
      assert users[|users| - kept] < users[|users| - 1];
    }
  }

  // ----- Choosing what to elide ----------------------------------------------

  function IdsOf(entries: seq<BodyEntry>): (ids: seq<ElementId>)
    ensures |ids| == |entries| && forall i :: 0 <= i < |ids| ==> ids[i] == entries[i].id
  {
    if entries == [] then [] else IdsOf(entries[..|entries| - 1]) + [entries[|entries| - 1].id]
  }

  predicate DistinctEntries(entries: seq<BodyEntry>) {
    forall i, j :: 0 <= i < j < |entries| ==> entries[i].id != entries[j].id
  }

  /** Entries that pay for their own inventory line and node header. */
  function Worthwhile(entries: seq<BodyEntry>, covered: set<ElementId>): seq<BodyEntry> {
    if entries == [] then [] else
      var n := |entries| - 1;
      Worthwhile(entries[..n], covered) + if IsWorthwhile(entries[n], covered) then [entries[n]] else []
  }

  predicate IsWorthwhile(e: BodyEntry, covered: set<ElementId>) {
    e.Eligible() && e.id !in covered && e.Tokens() > COVER_COST
  }

  /** Tokens the entries save, net of what covering them costs. */
  function Savings(entries: seq<BodyEntry>): nat {
    if entries == [] then 0 else
      var n := |entries| - 1;
      Savings(entries[..n]) + SaturatingSub(entries[n].Tokens(), COVER_COST)
  }

  /** Entries the hard pass adds: everything eligible that is not taken yet. */
  function Remaining(entries: seq<BodyEntry>, covered: set<ElementId>, taken: seq<ElementId>): seq<BodyEntry> {
    if entries == [] then [] else
      var n := |entries| - 1;
      Remaining(entries[..n], covered, taken)
      + if entries[n].Eligible() && entries[n].id !in covered && entries[n].id !in taken then [entries[n]] else []
  }

  lemma {:induction false} WorthwhileFacts(entries: seq<BodyEntry>, covered: set<ElementId>)
    ensures forall e :: e in Worthwhile(entries, covered) <==> e in entries && IsWorthwhile(e, covered)
    ensures DistinctEntries(entries) ==> DistinctEntries(Worthwhile(entries, covered))
  {
    if entries != [] {
      var n := |entries| - 1;
      WorthwhileFacts(entries[..n], covered);
      assert entries == entries[..n] + [entries[n]];
      if DistinctEntries(entries) {
        forall e | e in entries[..n]
          ensures e.id != entries[n].id
        {
        }
      }
    }
  }

  lemma {:induction false} RemainingFacts(entries: seq<BodyEntry>, covered: set<ElementId>, taken: seq<ElementId>)
    ensures forall e :: e in Remaining(entries, covered, taken) <==>
      e in entries && e.Eligible() && e.id !in covered && e.id !in taken
    ensures DistinctEntries(entries) ==> DistinctEntries(Remaining(entries, covered, taken))
  {
    if entries != [] {
      var n := |entries| - 1;
      RemainingFacts(entries[..n], covered, taken);
      assert entries == entries[..n] + [entries[n]];
      if DistinctEntries(entries) {
        forall e | e in entries[..n]
          ensures e.id != entries[n].id
        {
        }
      }
    }
  }

  lemma {:induction false} BodyCostConcat(a: seq<BodyEntry>, b: seq<BodyEntry>, covered: set<ElementId>, reductions: Reductions)
    ensures BodyCost(a + b, covered, reductions) == BodyCost(a, covered, reductions) + BodyCost(b, covered, reductions)
  {
    if a == [] {
      assert a + b == b;
    } else {
      assert (a + b)[1..] == a[1..] + b;
      BodyCostConcat(a[1..], b, covered, reductions);
    }
  }

  lemma SavingsStep(entries: seq<BodyEntry>, e: BodyEntry)
    ensures Savings(entries + [e]) == Savings(entries) + SaturatingSub(e.Tokens(), COVER_COST)
  {
    assert (entries + [e])[..|entries|] == entries;
  }

  /** What eliding saves was charged, so subtracting it never underflows. */
  lemma {:induction false} SavingsWithinBody(entries: seq<BodyEntry>, covered: set<ElementId>)
    ensures Savings(Worthwhile(entries, covered)) <= BodyCost(entries, covered, map[])
  {
    if entries != [] {
      var n := |entries| - 1;
      var last := entries[n];
      SavingsWithinBody(entries[..n], covered);
      assert entries == entries[..n] + [last];
      BodyCostConcat(entries[..n], [last], covered, map[]);
      assert BodyCost([last], covered, map[]) ==
        (if last.id in covered then 0 else last.Tokens()) + BodyCost([], covered, map[]);
      var w := Worthwhile(entries[..n], covered);
      SavingsStep(w, last);
      assert w + [] == w;
    }
  }

  /** The soft pass stopped after `k` worthwhile entries: none fewer would have reached the target. */
  ghost predicate ShortestRun(worthwhile: seq<BodyEntry>, k: nat, projected: nat, target: nat) {
    && k <= |worthwhile|
    && (forall j :: 0 <= j < k ==> projected - Savings(worthwhile[..j]) > target)
    && (k == |worthwhile| || projected - Savings(worthwhile[..k]) <= target)
  }

  lemma {:induction false} WorthwhilePrefix(entries: seq<BodyEntry>, covered: set<ElementId>, i: nat, j: nat)
    requires i <= j <= |entries|
    ensures Worthwhile(entries[..i], covered) <= Worthwhile(entries[..j], covered)
    decreases j
  {
    if i < j {
      WorthwhilePrefix(entries, covered, i, j - 1);
      assert entries[..j][..j - 1] == entries[..j - 1];
    }
  }

  lemma {:induction false} SavingsPrefix(w: seq<BodyEntry>, k: nat)
    requires k <= |w|
    ensures Savings(w[..k]) <= Savings(w)
    decreases |w|
  {
    if k < |w| {
      SavingsPrefix(w[..|w| - 1], k);
      assert w[..|w| - 1][..k] == w[..k];
    } else {
      assert w[..k] == w;
    }
  }

  lemma {:induction false} BodyCostPrefix(entries: seq<BodyEntry>, i: nat, covered: set<ElementId>)
    requires i <= |entries|
    ensures BodyCost(entries[..i], covered, map[]) <= BodyCost(entries, covered, map[])
  {
    assert entries == entries[..i] + entries[i..];
    BodyCostConcat(entries[..i], entries[i..], covered, map[]);
  }

  lemma WorthwhileStep(entries: seq<BodyEntry>, covered: set<ElementId>, i: nat)
    requires i < |entries|
    ensures Worthwhile(entries[..i + 1], covered) ==
      Worthwhile(entries[..i], covered) + if IsWorthwhile(entries[i], covered) then [entries[i]] else []
  {
    assert entries[..i + 1][..i] == entries[..i];
  }

  function Older(entries: seq<BodyEntry>, config: CompactionConfig): seq<BodyEntry> {
    entries[..RecentTurnBoundary(entries, config.keepRecentTurns)]
  }

  /** Stage 1: oldest first, what pays for itself, until the target is reached. */
  method SelectSoft(entries: seq<BodyEntry>, covered: set<ElementId>, projected: nat, config: CompactionConfig)
    returns (pending: seq<ElementId>, simulated: nat)
    requires BodyCost(entries, covered, map[]) <= projected
    ensures var w := Worthwhile(Older(entries, config), covered);
      && (projected < config.budget.softTokens ==> pending == [])
      && (projected >= config.budget.softTokens ==>
            ShortestRun(w, |pending|, projected, Max(config.budget.softTokens / 2, 1)))
      && |pending| <= |w| && pending == IdsOf(w[..|pending|])
      && simulated == projected - Savings(w[..|pending|])
  {
    if config.budget.ShouldTrigger(projected) {
      BodyCostPrefix(entries, RecentTurnBoundary(entries, config.keepRecentTurns), covered);
      pending, simulated := TakeUntil(Older(entries, config), covered, projected, config.budget.TargetTokens());
    } else {
      return [], projected;
    }
  }

  lemma IdsOfStep(entries: seq<BodyEntry>, e: BodyEntry)
    ensures IdsOf(entries + [e]) == IdsOf(entries) + [e.id]
  {
    assert (entries + [e])[..|entries|] == entries;
  }

  /** State of the soft pass once it has taken the first `k` worthwhile entries. */
  ghost predicate Taken(w: seq<BodyEntry>, k: nat, pending: seq<ElementId>, simulated: nat, projected: nat, target: nat) {
    && k <= |w|
    && pending == IdsOf(w[..k])
    && simulated == projected - Savings(w[..k])
    && forall j :: 0 <= j < k ==> projected - Savings(w[..j]) > target
  }

  lemma TakeOne(w: seq<BodyEntry>, k: nat, pending: seq<ElementId>, simulated: nat, projected: nat, target: nat)
    requires Taken(w, k, pending, simulated, projected, target) && k < |w|
    requires simulated > target && Savings(w) <= projected
    ensures Taken(w, k + 1, pending + [w[k].id],
      SaturatingSub(simulated, SaturatingSub(w[k].Tokens(), COVER_COST)), projected, target)
  {
    hide Savings, IdsOf;
    var taken, e := w[..k], w[k];
    assert w[..k + 1] == taken + [e];
    SavingsStep(taken, e);
    IdsOfStep(taken, e);
    SavingsPrefix(w, k + 1);
  }

  /** State of the soft pass before it looks at entry `i`. */
  ghost predicate Scanned(older: seq<BodyEntry>, covered: set<ElementId>, i: nat, k: nat, pending: seq<ElementId>,
                          simulated: nat, projected: nat, target: nat)
  {
    var w := Worthwhile(older, covered);
    && i <= |older|
    && Taken(w, k, pending, simulated, projected, target)
    && w[..k] == Worthwhile(older[..i], covered)
  }

  lemma ScanStart(older: seq<BodyEntry>, covered: set<ElementId>, projected: nat, target: nat)
    requires BodyCost(older, covered, map[]) <= projected
    ensures Scanned(older, covered, 0, 0, [], projected, projected, target)
  {
    SavingsWithinBody(older, covered);
  }

  lemma ScanStep(older: seq<BodyEntry>, covered: set<ElementId>, i: nat, k: nat, pending: seq<ElementId>,
                 simulated: nat, projected: nat, target: nat)
    requires Scanned(older, covered, i, k, pending, simulated, projected, target)
    requires i < |older| && simulated > target && BodyCost(older, covered, map[]) <= projected
    ensures if IsWorthwhile(older[i], covered)
      then Scanned(older, covered, i + 1, k + 1, pending + [older[i].id],
                   SaturatingSub(simulated, SaturatingSub(older[i].Tokens(), COVER_COST)), projected, target)
      else Scanned(older, covered, i + 1, k, pending, simulated, projected, target)
  {
    hide Worthwhile, Savings, BodyCost, IdsOf;
    var w := Worthwhile(older, covered);
    SavingsWithinBody(older, covered);
    WorthwhileStep(older, covered, i);
    WorthwhilePrefix(older, covered, i + 1, |older|);
    assert older[..|older|] == older;
    if IsWorthwhile(older[i], covered) {
      assert w[..k] + [older[i]] <= w;
      TakeOne(w, k, pending, simulated, projected, target);
      assert w[..k + 1] == w[..k] + [w[k]];
    }
  }

  lemma ScanEnd(older: seq<BodyEntry>, covered: set<ElementId>, i: nat, k: nat, pending: seq<ElementId>,
                simulated: nat, projected: nat, target: nat)
    requires Scanned(older, covered, i, k, pending, simulated, projected, target)
    requires simulated <= target || i == |older|
    ensures var w := Worthwhile(older, covered);
      && k == |pending|
      && ShortestRun(w, |pending|, projected, target)
      && pending == IdsOf(w[..|pending|])
      && simulated == projected - Savings(w[..|pending|])
  {
    assert older[..|older|] == older;
    assert |IdsOf(Worthwhile(older, covered)[..k])| == k;
  }

  method TakeUntil(older: seq<BodyEntry>, covered: set<ElementId>, projected: nat, target: nat)
    returns (pending: seq<ElementId>, simulated: nat)
    requires BodyCost(older, covered, map[]) <= projected
    ensures var w := Worthwhile(older, covered);
      && ShortestRun(w, |pending|, projected, target)
      && pending == IdsOf(w[..|pending|])
      && simulated == projected - Savings(w[..|pending|])
  {
    pending := [];
    simulated := projected;
    ghost var k := 0;
    ScanStart(older, covered, projected, target);
    hide Worthwhile, Savings, BodyCost, IdsOf, Scanned;
    var i := 0;
    while i < |older| && simulated > target
      invariant 0 <= i <= |older|
      invariant Scanned(older, covered, i, k, pending, simulated, projected, target)
    {
      var entry := older[i];
      ScanStep(older, covered, i, k, pending, simulated, projected, target);
      if IsWorthwhile(entry, covered) {
        k := k + 1;
        pending := pending + [entry.id];
        simulated := SaturatingSub(simulated, entry.Tokens() - COVER_COST);
      }
      i := i + 1;
    }
    ScanEnd(older, covered, i, k, pending, simulated, projected, target);
  }

  lemma RemainingStep(entries: seq<BodyEntry>, covered: set<ElementId>, taken: seq<ElementId>, i: nat)
    requires i < |entries|
    ensures Remaining(entries[..i + 1], covered, taken) == Remaining(entries[..i], covered, taken)
      + if entries[i].Eligible() && entries[i].id !in covered && entries[i].id !in taken then [entries[i]] else []
  {
    assert entries[..i + 1][..i] == entries[..i];
  }

  lemma NotYetAdded(entries: seq<BodyEntry>, covered: set<ElementId>, taken: seq<ElementId>, i: nat)
    requires DistinctEntries(entries) && i < |entries|
    ensures entries[i].id !in IdsOf(Remaining(entries[..i], covered, taken))
  {
    var r := Remaining(entries[..i], covered, taken);
    RemainingFacts(entries[..i], covered, taken);
    forall j | 0 <= j < |r|
      ensures r[j].id != entries[i].id
    {
      assert r[j] in r && r[j] in entries[..i];
    }
  }

  /** Stage 2: the rest of the completed history. */
  method SelectHard(entries: seq<BodyEntry>, covered: set<ElementId>, pending: seq<ElementId>)
    returns (all: seq<ElementId>)
    requires DistinctEntries(entries)
    ensures all == pending + IdsOf(Remaining(entries[..FinalTurnBoundary(entries)], covered, pending))
  {
    hide Remaining, FinalTurnBoundary, DistinctEntries, IdsOf;
    all := pending;
    NothingRemains(covered, pending);
    assert entries[..0] == [];
    var boundary := FinalTurnBoundary(entries);
    for i := 0 to boundary
      invariant all == pending + IdsOf(Remaining(entries[..i], covered, pending))
    {
      HardStep(entries, covered, pending, i);
      if entries[i].Eligible() && entries[i].id !in covered && entries[i].id !in all {
        all := all + [entries[i].id];
      }
    }
  }

  /** One more entry is added exactly when it is not among those chosen so far. */
  lemma HardStep(entries: seq<BodyEntry>, covered: set<ElementId>, pending: seq<ElementId>, i: nat)
    requires DistinctEntries(entries) && i < |entries|
    ensures var all := pending + IdsOf(Remaining(entries[..i], covered, pending));
      pending + IdsOf(Remaining(entries[..i + 1], covered, pending)) ==
        all + if entries[i].Eligible() && entries[i].id !in covered && entries[i].id !in all then [entries[i].id] else []
  {
    hide Remaining, DistinctEntries, IdsOf;
    RemainingStep(entries, covered, pending, i);
    NotYetAdded(entries, covered, pending, i);
    IdsOfStep(Remaining(entries[..i], covered, pending), entries[i]);
  }

  lemma NothingRemains(covered: set<ElementId>, taken: seq<ElementId>)
    ensures Remaining([], covered, taken) == [] && taken + IdsOf(Remaining([], covered, taken)) == taken
  {
  }

  /** An element a pass may elide: settled, unpinned history before the last user entry. */
  ghost predicate Elidable(entries: seq<BodyEntry>, covered: set<ElementId>, id: ElementId) {
    exists i :: 0 <= i < FinalTurnBoundary(entries) && entries[i].id == id && entries[i].Eligible() && id !in covered
  }

  lemma {:induction false} BeforeFinalUser(entries: seq<BodyEntry>, a: nat)
    requires a < |entries|
    ensures a < FinalTurnBoundary(entries) <==> exists b :: a < b < |entries| && entries[b].role == User
  {
    var last := |entries| - 1;
    if entries[last].role != User && a < last {
      BeforeFinalUser(entries[..last], a);
      assert forall b :: a < b < last ==> entries[..last][b] == entries[b];
    }
  }

  /**
   In terms of the transcript: a pass may elide exactly the uncovered elements
   that are complete, unpinned and no instructions, with a user's turn after them.
   */
  lemma ElidableElement(body: seq<Element>, covered: set<ElementId>, id: ElementId)
    ensures Elidable(Entries(body), covered, id) <==>
      id !in covered && exists i, j :: 0 <= i < j < |body| && body[i].id == id && MayGiveWay(body[i]) && body[j].kind == "user"
  {
    hide EntryOf, MayGiveWay, FinalTurnBoundary, Entries, BodyEntry.Eligible;
    var entries := Entries(body);
    if a :| 0 <= a < FinalTurnBoundary(entries) && entries[a].id == id && entries[a].Eligible() {
      BeforeFinalUser(entries, a);
      var b :| a < b < |entries| && entries[b].role == User;
      var i, j := EntryPair(body, a, b);
      EligibleElement(body[i]);
      EligibleElement(body[j]);
      EntryKeepsId(body[i]);
    }
    if i, j :| 0 <= i < j < |body| && body[i].id == id && MayGiveWay(body[i]) && body[j].kind == "user" {
      EligibleElement(body[i]);
      EligibleElement(body[j]);
      EntryKeepsId(body[i]);
      var a, b := ElementPair(body, i, j);
      BeforeFinalUser(entries, a);
    }
  }

  /** How many turns the transcript starts. */
  function UserTurns(body: seq<Element>): nat {
    if body == [] then 0 else (if body[0].kind == "user" then 1 else 0) + UserTurns(body[1..])
  }

  lemma {:induction false} TurnsConcat(a: seq<BodyEntry>, b: seq<BodyEntry>)
    ensures Turns(a + b) == Turns(a) + Turns(b)
  {
    if b == [] {
      assert a + b == a;
    } else {
      assert (a + b)[..|a + b| - 1] == a + b[..|b| - 1];
      TurnsConcat(a, b[..|b| - 1]);
    }
  }

  lemma {:induction false} EntriesTurns(body: seq<Element>)
    ensures Turns(Entries(body)) == UserTurns(body)
  {
    hide EntryOf;
    if body != [] {
      EntriesStep(body);
      EntriesTurns(body[1..]);
      EligibleElement(body[0]);
      if EntryOf(body[0]).Some? {
        TurnsConcat([EntryOf(body[0]).value], Entries(body[1..]));
        assert [EntryOf(body[0]).value][..0] == [];
      } else {
        assert [] + Entries(body[1..]) == Entries(body[1..]);
      }
    }
  }

  /** The transcript element worth its place in an inventory. */
  predicate Pays(e: Element) {
    EntryOf(e).Some? && EntryOf(e).value.Tokens() > INVENTORY_LINE_TOKENS + NODE_HEADER_TOKENS
  }

  /** Old enough: more turns than those kept, and all of these start after the element. */
  predicate OldElement(body: seq<Element>, keep: nat, i: nat)
    requires i < |body|
  {
    UserTurns(body) > Max(keep, 1) && UserTurns(body[i + 1..]) >= Max(keep, 1)
  }

  /** A transcript element the soft pass may choose. */
  predicate SoftCandidate(body: seq<Element>, covered: set<ElementId>, keep: nat, i: nat)
    requires i < |body|
  {
    body[i].id !in covered && MayGiveWay(body[i]) && Pays(body[i]) && OldElement(body, keep, i)
  }

  /**
   In terms of the transcript: the soft pass chooses among exactly the uncovered
   elements that may give way, pay for their inventory line, and stand before the
   turns kept.
   */
  lemma SoftElement(body: seq<Element>, covered: set<ElementId>, config: CompactionConfig, id: ElementId)
    ensures (exists e :: e in Worthwhile(Older(Entries(body), config), covered) && e.id == id) <==>
      exists i :: 0 <= i < |body| && body[i].id == id && SoftCandidate(body, covered, config.keepRecentTurns, i)
  {
    hide EntryOf, MayGiveWay, Entries, Worthwhile, RecentTurnBoundary, BodyEntry.Eligible, BodyEntry.Tokens;
    var entries, keep := Entries(body), config.keepRecentTurns;
    WorthwhileFacts(Older(entries, config), covered);
    EntriesTurns(body);
    if e :| e in Worthwhile(Older(entries, config), covered) && e.id == id {
      var a :| 0 <= a < RecentTurnBoundary(entries, keep) && entries[a] == e;
      var i := EntryPlace(body, a);
      OlderThanKept(entries, keep, a);
      EntriesTurns(body[i + 1..]);
      EligibleElement(body[i]);
      EntryKeepsId(body[i]);
    }
    if i :| 0 <= i < |body| && body[i].id == id && SoftCandidate(body, covered, keep, i) {
      EligibleElement(body[i]);
      EntryKeepsId(body[i]);
      var a := ElementPlace(body, i);
      EntriesTurns(body[i + 1..]);
      OlderThanKept(entries, keep, a);
      assert entries[a] in Older(entries, config);
    }
  }

  lemma DistinctJoin(a: seq<ElementId>, b: seq<ElementId>)
    requires NoDuplicates(a) && NoDuplicates(b) && forall id :: id in b ==> id !in a
    ensures NoDuplicates(a + b)
  {
    forall i, j | 0 <= i < j < |a + b|
      ensures (a + b)[i] != (a + b)[j]
    {
      if j >= |a| {
        assert b[j - |a|] in b;
      }
    }
  }

  /** The soft and the hard pass together choose distinct, elidable elements only. */
  lemma PendingIsElidable(entries: seq<BodyEntry>, covered: set<ElementId>, config: CompactionConfig, k: nat)
    requires DistinctEntries(entries) && k <= |Worthwhile(Older(entries, config), covered)|
    ensures var soft := IdsOf(Worthwhile(Older(entries, config), covered)[..k]);
      var hard := IdsOf(Remaining(entries[..FinalTurnBoundary(entries)], covered, soft));
      && (forall id :: id in soft + hard ==> Elidable(entries, covered, id))
      && NoDuplicates(soft + hard)
  {
    SoftIsElidable(entries, covered, config, k);
    hide NoDuplicates, Elidable, Worthwhile, Remaining, IdsOf;
    var soft := IdsOf(Worthwhile(Older(entries, config), covered)[..k]);
    HardIsElidable(entries, covered, soft);
    DistinctJoin(soft, IdsOf(Remaining(entries[..FinalTurnBoundary(entries)], covered, soft)));
  }

  lemma SoftIsElidable(entries: seq<BodyEntry>, covered: set<ElementId>, config: CompactionConfig, k: nat)
    requires DistinctEntries(entries) && k <= |Worthwhile(Older(entries, config), covered)|
    ensures var soft := IdsOf(Worthwhile(Older(entries, config), covered)[..k]);
      && (forall id :: id in soft ==> Elidable(entries, covered, id))
      && NoDuplicates(soft)
  {
    var w := Worthwhile(Older(entries, config), covered);
    WorthwhileFacts(Older(entries, config), covered);
    RecentBeforeFinal(entries, config.keepRecentTurns);
    forall id | id in IdsOf(w[..k])
      ensures Elidable(entries, covered, id)
    {
      var j :| 0 <= j < k && IdsOf(w[..k])[j] == id;
      assert w[j] in Older(entries, config);
    }
  }

  lemma HardIsElidable(entries: seq<BodyEntry>, covered: set<ElementId>, soft: seq<ElementId>)
    requires DistinctEntries(entries)
    ensures var hard := IdsOf(Remaining(entries[..FinalTurnBoundary(entries)], covered, soft));
      && (forall id :: id in hard ==> Elidable(entries, covered, id) && id !in soft)
      && NoDuplicates(hard)
  {
    var settled := entries[..FinalTurnBoundary(entries)];
    var r := Remaining(settled, covered, soft);
    RemainingFacts(settled, covered, soft);
    forall id | id in IdsOf(r)
      ensures Elidable(entries, covered, id) && id !in soft
    {
      var j :| 0 <= j < |r| && IdsOf(r)[j] == id;
      assert r[j] in r && r[j] in settled;
    }
  }
}
