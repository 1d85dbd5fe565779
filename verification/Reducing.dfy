/**
 Stage 3 of the planner: reducing the projections of the entries that stay,
 tool observations first and pinned instructions never. Reductions are kept in a
 map by element; the loop's invariant is that each one in force is one its entry
 could take, that ranks give way in order, and that the projection is known.
 */
module Reducing {
  import opened Wrappers
  import opened Dom
  import opened Tokens
  import opened Projection
  import opened Elision

  /** An entry the stage may reduce at all. */
  predicate Reducible(e: BodyEntry, covered: set<ElementId>) {
    e.id !in covered && e.role != Instructions
  }

  function Next(e: BodyEntry, reductions: Reductions): Option<(Reduction, nat)> {
    e.NextReduction(Applied(reductions, e.id))
  }

  predicate Candidate(e: BodyEntry, covered: set<ElementId>, reductions: Reductions) {
    Reducible(e, covered) && Next(e, reductions).Some?
  }

  function Saving(e: BodyEntry, reductions: Reductions): nat {
    match Next(e, reductions) case Some(next) => next.1 case None => 0
  }

  /** Lower rank goes first; within a rank, the larger saving. */
  predicate Before(a: BodyEntry, b: BodyEntry, reductions: Reductions) {
    TruncationRank(a.role) < TruncationRank(b.role) ||
    (a.role == b.role && Saving(a, reductions) > Saving(b, reductions))
  }

  /** Tool calls before the assistant's text before the user's words. */
  predicate YieldsFirst(a: EntryRole, b: EntryRole) {
    (a.ToolCall? && !b.ToolCall?) || (a.Assistant? && b.User?)
  }

  /** Among entries that may be reduced, the kind goes first, then what taking the reduction takes off the charge. */
  lemma BeforeMeans(a: BodyEntry, b: BodyEntry, covered: set<ElementId>, reductions: Reductions)
    requires Candidate(a, covered, reductions) && Candidate(b, covered, reductions)
    ensures Before(a, b, reductions) <==>
      YieldsFirst(a.role, b.role) || (a.role == b.role && Drop(a, reductions) > Drop(b, reductions))
  {
    ReductionSaves(a, Applied(reductions, a.id));
    ReductionSaves(b, Applied(reductions, b.id));
    hide BodyEntry.NextReduction, BodyEntry.Cost;
  }

  /** What an entry's next reduction takes off its charge. */
  function Drop(e: BodyEntry, reductions: Reductions): int
    requires Next(e, reductions).Some?
  {
    e.Cost(Applied(reductions, e.id)) - e.Cost(Next(e, reductions).value.0)
  }

  method SelectReduction(entries: seq<BodyEntry>, covered: set<ElementId>, reductions: Reductions)
    returns (choice: Option<nat>)
    ensures choice.None? ==> forall i :: 0 <= i < |entries| ==> !Candidate(entries[i], covered, reductions)
    ensures choice.Some? ==>
      && choice.value < |entries|
      && Candidate(entries[choice.value], covered, reductions)
      && (forall i :: 0 <= i < |entries| && Candidate(entries[i], covered, reductions) ==>
            !Before(entries[i], entries[choice.value], reductions))
      && (forall i :: 0 <= i < choice.value && Candidate(entries[i], covered, reductions) ==>
            Before(entries[choice.value], entries[i], reductions))
  {
    choice := None;
    hide Candidate, Saving;
    for i := 0 to |entries|
      invariant choice.None? ==> forall j :: 0 <= j < i ==> !Candidate(entries[j], covered, reductions)
      invariant choice.Some? ==>
        && choice.value < i
        && Candidate(entries[choice.value], covered, reductions)
        && (forall j :: 0 <= j < i && Candidate(entries[j], covered, reductions) ==>
              !Before(entries[j], entries[choice.value], reductions))
        && (forall j :: 0 <= j < choice.value && Candidate(entries[j], covered, reductions) ==>
              Before(entries[choice.value], entries[j], reductions))
    {
      if Candidate(entries[i], covered, reductions)
         && (choice.None? || Before(entries[i], entries[choice.value], reductions)) {
        choice := Some(i);
      }
    }
  }

  /** Every reduction in force is one its entry could take, on an entry the stage may touch. */
  ghost predicate Sound(entries: seq<BodyEntry>, covered: set<ElementId>, reductions: Reductions) {
    && (forall id :: id in reductions ==> exists i :: 0 <= i < |entries| && entries[i].id == id && Reducible(entries[i], covered))
    && (forall i :: 0 <= i < |entries| ==> Reasonable(entries[i], Applied(reductions, entries[i].id)))
  }

  /** An entry is reduced only once every entry of a lower rank is exhausted. */
  ghost predicate InOrder(entries: seq<BodyEntry>, covered: set<ElementId>, reductions: Reductions) {
    forall i, j ::
      0 <= i < |entries| && 0 <= j < |entries| && entries[i].id in reductions &&
      TruncationRank(entries[j].role) < TruncationRank(entries[i].role) ==>
        !Candidate(entries[j], covered, reductions)
  }

  /**
   The user's words are reduced only once no tool call and no assistant text can
   give more, assistant text only once no tool call can, instructions never.
   */
  lemma GivesWayInOrder(entries: seq<BodyEntry>, covered: set<ElementId>, reductions: Reductions, i: nat, j: nat)
    requires DistinctEntries(entries) && Sound(entries, covered, reductions) && InOrder(entries, covered, reductions)
    requires i < |entries| && j < |entries| && entries[i].id in reductions
    ensures !entries[i].role.Instructions?
    ensures YieldsFirst(entries[j].role, entries[i].role) ==> !Candidate(entries[j], covered, reductions)
  {
    hide Candidate, Reasonable;
  }

  ghost predicate Exhausted(entries: seq<BodyEntry>, covered: set<ElementId>, reductions: Reductions) {
    forall i :: 0 <= i < |entries| ==> !Candidate(entries[i], covered, reductions)
  }

  /** Taking one entry's next reduction lowers the body's cost by exactly its saving. */
  lemma {:induction false} ReductionLowersBody(
      entries: seq<BodyEntry>, covered: set<ElementId>, reductions: Reductions, k: nat)
    requires DistinctEntries(entries) && k < |entries|
    requires Candidate(entries[k], covered, reductions)
    ensures var next := Next(entries[k], reductions).value;
      next.1 > 0 &&
      BodyCost(entries, covered, reductions)
        == BodyCost(entries, covered, reductions[entries[k].id := next.0]) + next.1
  {
    var e := entries[k];
    var next := Next(e, reductions).value;
    var after := reductions[e.id := next.0];
    ReductionSaves(e, Applied(reductions, e.id));
    if k == 0 {
      SameBodyCost(entries[1..], covered, reductions, after);
    } else {
      assert entries[0].id != e.id;
      ReductionLowersBody(entries[1..], covered, reductions, k - 1);
    }
  }

  lemma {:induction false} SameBodyCost(entries: seq<BodyEntry>, covered: set<ElementId>, a: Reductions, b: Reductions)
    requires forall i :: 0 <= i < |entries| ==> Applied(a, entries[i].id) == Applied(b, entries[i].id)
    ensures BodyCost(entries, covered, a) == BodyCost(entries, covered, b)
  {
    if entries != [] {
      SameBodyCost(entries[1..], covered, a, b);
    }
  }

  lemma ReductionStaysReasonable(e: BodyEntry, applied: Reduction)
    requires Reasonable(e, applied) && e.NextReduction(applied).Some?
    ensures Reasonable(e, e.NextReduction(applied).value.0)
  {
  }

  lemma ReductionKeepsSound(entries: seq<BodyEntry>, covered: set<ElementId>, reductions: Reductions, k: nat)
    requires DistinctEntries(entries) && k < |entries| && Sound(entries, covered, reductions)
    requires Candidate(entries[k], covered, reductions)
    ensures Sound(entries, covered, reductions[entries[k].id := Next(entries[k], reductions).value.0])
  {
    var after := reductions[entries[k].id := Next(entries[k], reductions).value.0];
    ReductionStaysReasonable(entries[k], Applied(reductions, entries[k].id));
    forall i | 0 <= i < |entries|
      ensures Reasonable(entries[i], Applied(after, entries[i].id))
    {
      if i != k {
        assert entries[i].id != entries[k].id;
        assert Applied(after, entries[i].id) == Applied(reductions, entries[i].id);
      }
    }
  }

  lemma ReductionKeepsOrder(entries: seq<BodyEntry>, covered: set<ElementId>, reductions: Reductions, k: nat)
    requires DistinctEntries(entries) && k < |entries| && InOrder(entries, covered, reductions)
    requires Candidate(entries[k], covered, reductions)
    requires forall i :: 0 <= i < |entries| && Candidate(entries[i], covered, reductions) ==>
      !Before(entries[i], entries[k], reductions)
    ensures InOrder(entries, covered, reductions[entries[k].id := Next(entries[k], reductions).value.0])
  {
    var after := reductions[entries[k].id := Next(entries[k], reductions).value.0];
    forall i, j | 0 <= i < |entries| && 0 <= j < |entries| && entries[i].id in after
      && TruncationRank(entries[j].role) < TruncationRank(entries[i].role)
      ensures !Candidate(entries[j], covered, after)
    {
      if j != k {
        assert entries[j].id != entries[k].id;
        assert Applied(after, entries[j].id) == Applied(reductions, entries[j].id);
      }
      assert i != k ==> entries[i].id != entries[k].id;
    }
  }

  function Total(saved: seq<nat>): nat {
    if saved == [] then 0 else Total(saved[..|saved| - 1]) + saved[|saved| - 1]
  }

  /** Each reduction saved something, and none was taken once the bound was met. */
  ghost predicate NoneTooMany(saved: seq<nat>, start: nat, hard: nat) {
    forall j :: 0 <= j < |saved| ==> saved[j] > 0 && start - Total(saved[..j]) > hard
  }

  lemma OneMore(saved: seq<nat>, more: nat, start: nat, hard: nat)
    requires NoneTooMany(saved, start, hard) && more > 0 && start - Total(saved) > hard
    ensures NoneTooMany(saved + [more], start, hard) && Total(saved + [more]) == Total(saved) + more
  {
    assert (saved + [more])[..|saved|] == saved;
    forall j | 0 <= j < |saved + [more]|
      ensures (saved + [more])[j] > 0 && start - Total((saved + [more])[..j]) > hard
    {
      assert (saved + [more])[..j] == saved[..j];
      if j == |saved| {
        assert saved[..j] == saved;
      }
    }
  }

  /** `rest` is everything the projection costs besides the body. */
  method ReduceEntries(entries: seq<BodyEntry>, covered: set<ElementId>, rest: nat, budget: CompactionBudget)
    returns (reductions: Reductions, projected: nat, ghost saved: seq<nat>)
    requires DistinctEntries(entries)
    ensures Sound(entries, covered, reductions) && InOrder(entries, covered, reductions)
    ensures projected == rest + BodyCost(entries, covered, reductions)
    ensures projected + Total(saved) == rest + BodyCost(entries, covered, map[])
    ensures NoneTooMany(saved, rest + BodyCost(entries, covered, map[]), budget.hardTokens)
    ensures budget.ExceedsHardBound(projected) ==> Exhausted(entries, covered, reductions)
  {
    reductions := map[];
    saved := [];
    projected := rest + BodyCost(entries, covered, reductions);
    ghost var start := projected;
    hide BodyCost, Candidate, Sound, InOrder, NoneTooMany, DistinctEntries, Before;
    NothingReduced(entries, covered, start, budget.hardTokens);
    while budget.ExceedsHardBound(projected)
      invariant Sound(entries, covered, reductions) && InOrder(entries, covered, reductions)
      invariant projected == rest + BodyCost(entries, covered, reductions)
      invariant projected + Total(saved) == start && NoneTooMany(saved, start, budget.hardTokens)
      decreases projected
    {
      var choice := SelectReduction(entries, covered, reductions);
      if choice.None? {
        break;
      }
      var entry := entries[choice.value];
      CandidateHasNext(entry, covered, reductions);
      var (reduction, savings) := Next(entry, reductions).value;
      ReductionLowersBody(entries, covered, reductions, choice.value);
      ReductionKeepsSound(entries, covered, reductions, choice.value);
      ReductionKeepsOrder(entries, covered, reductions, choice.value);
      OneMore(saved, savings, start, budget.hardTokens);
      saved := saved + [savings];
      reductions := reductions[entry.id := reduction];
      projected := rest + BodyCost(entries, covered, reductions);
    }
  }

  lemma CandidateHasNext(e: BodyEntry, covered: set<ElementId>, reductions: Reductions)
    requires Candidate(e, covered, reductions)
    ensures Next(e, reductions).Some?
  {
  }

  lemma NothingReduced(entries: seq<BodyEntry>, covered: set<ElementId>, start: nat, hard: nat)
    ensures Sound(entries, covered, map[]) && InOrder(entries, covered, map[]) && NoneTooMany([], start, hard)
  {
  }

  /** Once exhausted, nothing that stays and may be reduced is charged more than its caps. */
  lemma ExhaustedEntriesAreSmall(entries: seq<BodyEntry>, covered: set<ElementId>, reductions: Reductions, i: nat)
    requires Exhausted(entries, covered, reductions) && i < |entries| && Reducible(entries[i], covered)
    requires entries[i].role != ToolCall ==> entries[i].argsTokens == 0
    ensures entries[i].Cost(Applied(reductions, entries[i].id)) <=
      if entries[i].role == ToolCall then 2 * TRUNCATED_BYTES + CALL_OVERHEAD else TRUNCATED_BYTES
  {
    assert !Candidate(entries[i], covered, reductions);
    ExhaustedIsSmall(entries[i], Applied(reductions, entries[i].id));
  }
}
