/**
 The session journal as a tree of patches: every record names its parent
 offset, and a document is what the patches on the way from the root give. The
 journal in memory holds the records and the document of the current branch;
 reading a file back and climbing the tree are two ways to the same document.
 */
module SessionJournal {
  import opened Wrappers

  /** Document contents, operation lists, branches and sessions are known by number. */
  type Doc = nat
  type Ops = nat
  type BranchId = nat
  type SessionId = nat

  const MAIN: BranchId := 0

  /** How operations act on document contents; they may be refused. */
  datatype World = World(empty: Doc, apply: (Doc, Ops) -> Option<Doc>)

  datatype Snapshot = Snapshot(session: SessionId, offset: nat, branch: BranchId, doc: Doc)

  /** A patch record; its patch goes from `parent` to `offset`. */
  datatype Record = Record(offset: nat, parent: nat, branch: BranchId, ops: Ops) {
    function ToPatch(): Patch {
      Patch(parent, offset, ops)
    }
  }

  datatype Patch = Patch(base: nat, result: nat, ops: Ops)

  function ApplyPatch(w: World, s: Snapshot, p: Patch): Option<Snapshot> {
    if p.base != s.offset then None
    else
      match w.apply(s.doc, p.ops)
      case None => None
      case Some(doc) => Some(s.(offset := p.result, doc := doc))
  }

  function Fresh(w: World, session: SessionId): Snapshot {
    Snapshot(session, 0, MAIN, w.empty)
  }

  // ----- Records and documents -----------------------------------------------

  /** Offsets count from one and every parent is older than its child. */
  predicate Chained(records: seq<Record>) {
    forall i :: 0 <= i < |records| ==> records[i].offset == i + 1 && records[i].parent <= i
  }

  /** The document at an offset, if every patch on the way applies. */
  function Materialized(w: World, session: SessionId, records: seq<Record>, offset: nat): Option<Snapshot>
    requires Chained(records) && offset <= |records|
    decreases offset
  {
    if offset == 0 then Some(Fresh(w, session))
    else
      var record := records[offset - 1];
      match Materialized(w, session, records, record.parent)
      case None => None
      case Some(parent) => Extended(w, parent, record)
  }

  /** The document after one more record. */
  function Extended(w: World, parent: Snapshot, record: Record): Option<Snapshot> {
    match ApplyPatch(w, parent, record.ToPatch())
    case None => None
    case Some(s) => Some(s.(branch := record.branch))
  }

  lemma {:induction false} MaterializedAt(w: World, session: SessionId, records: seq<Record>, offset: nat)
    requires Chained(records) && offset <= |records| && Materialized(w, session, records, offset).Some?
    ensures Materialized(w, session, records, offset).value.offset == offset
    ensures Materialized(w, session, records, offset).value.session == session
    decreases offset
  {
    if offset > 0 {
      MaterializedAt(w, session, records, records[offset - 1].parent);
    }
  }

  // ----- The same by replaying the path --------------------------------------

  /** The operations on the way from the root to an offset. */
  function PathOps(records: seq<Record>, offset: nat): seq<Ops>
    requires Chained(records) && offset <= |records|
    decreases offset
  {
    if offset == 0 then [] else PathOps(records, records[offset - 1].parent) + [records[offset - 1].ops]
  }

  /** Operations applied one after the other; the first refusal ends it. */
  function Replayed(w: World, doc: Doc, ops: seq<Ops>): Option<Doc>
    decreases |ops|
  {
    if ops == [] then Some(doc)
    else
      match w.apply(doc, ops[0])
      case None => None
      case Some(next) => Replayed(w, next, ops[1..])
  }

  lemma {:induction false} ReplayedAppend(w: World, doc: Doc, ops: seq<Ops>, last: Ops)
    ensures Replayed(w, doc, ops + [last]) ==
      match Replayed(w, doc, ops) case None => None case Some(before) => w.apply(before, last)
    decreases |ops|
  {
    if ops == [] {
      assert ops + [last] == [last] && [last][1..] == [];
    } else {
      assert (ops + [last])[1..] == ops[1..] + [last];
      var next := w.apply(doc, ops[0]);
      if next.Some? {
        ReplayedAppend(w, next.value, ops[1..], last);
      }
    }
  }

  /**
   The document at an offset is the empty one with the operations on its path
   applied in order, on the branch of its record; there is none exactly when one
   of them is refused.
   */
  lemma {:induction false} MaterializedIsReplay(w: World, session: SessionId, records: seq<Record>, offset: nat)
    requires Chained(records) && offset <= |records|
    ensures Materialized(w, session, records, offset) ==
      match Replayed(w, w.empty, PathOps(records, offset))
      case None => None
      case Some(doc) => Some(Snapshot(session, offset, if offset == 0 then MAIN else records[offset - 1].branch, doc))
    decreases offset
  {
    if offset > 0 {
      var record := records[offset - 1];
      MaterializedIsReplay(w, session, records, record.parent);
      ReplayedAppend(w, w.empty, PathOps(records, record.parent), record.ops);
    }
  }

  /** Every record can be materialized. */
  predicate Sound(w: World, session: SessionId, records: seq<Record>) {
    Chained(records) && forall i :: 0 <= i <= |records| ==> Materialized(w, session, records, i).Some?
  }

  lemma {:induction false} OlderUnchanged(w: World, session: SessionId, records: seq<Record>, more: seq<Record>, offset: nat)
    requires Chained(records + more) && offset <= |records|
    ensures Chained(records)
    ensures Materialized(w, session, records + more, offset) == Materialized(w, session, records, offset)
    decreases offset
  {
    forall i | 0 <= i < |records|
      ensures records[i].offset == i + 1 && records[i].parent <= i
    {
      assert (records + more)[i] == records[i];
    }
    if offset > 0 {
      assert (records + more)[offset - 1] == records[offset - 1];
      OlderUnchanged(w, session, records, more, records[offset - 1].parent);
    }
  }

  /** A record that extends a materialized document keeps the journal sound. */
  lemma SoundOneMore(w: World, session: SessionId, records: seq<Record>, record: Record)
    requires Sound(w, session, records) && record.offset == |records| + 1 && record.parent <= |records|
    requires Extended(w, Materialized(w, session, records, record.parent).value, record).Some?
    ensures Sound(w, session, records + [record])
    ensures Materialized(w, session, records + [record], record.offset) ==
            Extended(w, Materialized(w, session, records, record.parent).value, record)
    ensures forall i :: 0 <= i <= |records| ==>
              Materialized(w, session, records + [record], i) == Materialized(w, session, records, i)
  {
    hide Extended;
    var grown := records + [record];
    assert Chained(grown);
    forall i | 0 <= i <= |records|
      ensures Materialized(w, session, grown, i) == Materialized(w, session, records, i)
    {
      OlderUnchanged(w, session, records, [record], i);
    }
    assert grown[record.offset - 1] == record;
  }

  // ----- The journal in memory -----------------------------------------------

  /** What becomes of a record on its way to disk: stored, over the frame limit, or a failed write. */
  datatype WriteOutcome = Stored | Refused | Broken

  datatype StateError = Invalid | WriteFailure

  class Journal {
    const world: World
    const session: SessionId
    var records: seq<Record>
    var snapshot: Snapshot
    var failed: bool

    /** The snapshot is the document at its own offset. */
    ghost predicate Valid()
      reads this
    {
      && Sound(world, session, records)
      && snapshot.offset <= |records|
      && Materialized(world, session, records, snapshot.offset) == Some(snapshot)
    }

    constructor (world: World, session: SessionId)
      ensures Valid() && this.world == world && this.session == session
      ensures records == [] && snapshot == Fresh(world, session) && !failed
    {
      this.world, this.session := world, session;
      records, snapshot, failed := [], Fresh(world, session), false;
    }

    /** Collects the records from the offset up to the root and applies them from the root down. */
    method Materialize(offset: nat) returns (result: Result<Snapshot, StateError>)
      requires Valid()
      ensures offset > |records| ==> result == Err(Invalid)
      ensures offset <= |records| ==> result.Ok? && Some(result.value) == Materialized(world, session, records, offset)
    {
      if offset > |records| {
        return Err(Invalid);
      }
      var chain: seq<Record> := [];
      var cursor: nat := offset;
      while cursor != 0
        invariant cursor <= offset
        invariant Climbs(world, session, records, offset, chain, cursor)
      {
        var record := records[cursor - 1];
        ClimbsOneMore(world, session, records, offset, chain, cursor);
        chain := chain + [record];
        cursor := record.parent;
      }
      var out := Fresh(world, session);
      var i := |chain|;
      while i > 0
        invariant 0 <= i <= |chain|
        invariant Some(out) == Materialized(world, session, records, if i < |chain| then chain[i].offset else 0)
      {
        i := i - 1;
        hide Materialized, Extended;
        Descends(world, session, records, offset, chain, i);
        var extended := Extended(world, out, chain[i]);
        out := extended.value;
      }
      result := Ok(out);
    }

    /** Commits a patch on top of the current snapshot. */
    method AppendOn(ops: Ops, branch: BranchId, outcome: WriteOutcome) returns (result: Result<nat, StateError>)
      requires Valid()
      modifies this
      ensures Valid()
      ensures var record := Record(|old(records)| + 1, old(snapshot).offset, branch, ops);
        var after := Extended(world, old(snapshot), record);
        if old(failed) || after.None? || outcome != Stored then
          && result.Err? && records == old(records) && snapshot == old(snapshot)
          && failed == (old(failed) || (after.Some? && outcome == Broken))
        else
          && result == Ok(record.offset) && records == old(records) + [record]
          && snapshot == after.value && failed == old(failed)
    {
      hide Sound, Materialized;
      if failed {
        return Err(WriteFailure);
      }
      var record := Record(|records| + 1, snapshot.offset, branch, ops);
      var after := Extended(world, snapshot, record);
      if after.None? {
        return Err(Invalid);
      }
      if outcome != Stored {
        failed := failed || outcome == Broken;
        return Err(if outcome == Refused then Invalid else WriteFailure);
      }
      SoundOneMore(world, session, records, record);
      records := records + [record];
      snapshot := after.value;
      result := Ok(record.offset);
    }

    /** Starts a branch at any earlier offset; a failure leaves the journal where it was. */
    method ForkAt(offset: nat, ops: Ops, branch: BranchId, outcome: WriteOutcome) returns (result: Result<nat, StateError>)
      requires Valid()
      modifies this
      ensures Valid()
      ensures var after := Forked(world, session, old(records), offset, branch, ops);
        if old(failed) || after.None? || outcome != Stored then
          && result.Err? && records == old(records) && snapshot == old(snapshot)
          && failed == (old(failed) || (after.Some? && outcome == Broken))
        else
          && result == Ok(|records|) && records == old(records) + [Record(|old(records)| + 1, offset, branch, ops)]
          && snapshot == after.value && failed == old(failed)
    {
      hide Sound, Extended;
      var parent := Materialize(offset);
      if parent.Err? {
        return Err(parent.error);
      }
      MaterializedOffset(world, session, records, offset);
      var before := snapshot;
      snapshot := parent.value;
      result := AppendOn(ops, branch, outcome);
      if result.Err? {
        snapshot := before;
      }
    }

    /**
     Moves to the newest record of a branch, through a patch without operations.
     `NoOps` names that empty list.
     */
    method SelectBranch(branch: BranchId, noOps: Ops, outcome: WriteOutcome) returns (result: Result<nat, StateError>)
      requires Valid()
      modifies this
      ensures Valid()
      ensures var newest := NewestOn(old(records), branch);
        var after := if newest == 0 && branch != MAIN then None
                     else Forked(world, session, old(records), newest, branch, noOps);
        if old(failed) || after.None? || outcome != Stored then
          && result.Err? && records == old(records) && snapshot == old(snapshot)
          && failed == (old(failed) || (after.Some? && outcome == Broken))
        else
          && result == Ok(|records|) && records == old(records) + [Record(|old(records)| + 1, newest, branch, noOps)]
          && snapshot == after.value && failed == old(failed)
    {
      hide Forked, Sound;
      var target := |records|;
      assert records[..target] == records;
      while target > 0 && records[target - 1].branch != branch
        invariant 0 <= target <= |records|
        invariant NewestOn(records[..target], branch) == NewestOn(records, branch)
      {
        assert records[..target][..target - 1] == records[..target - 1];
        target := target - 1;
      }
      assert target > 0 ==> records[..target][target - 1] == records[target - 1];
      if target == 0 && branch != MAIN {
        return Err(Invalid);
      }
      result := ForkAt(target, noOps, branch, outcome);
    }
  }

  /** The document a new record on top of an offset gives, if there is such an offset and the record applies there. */
  function Forked(w: World, session: SessionId, records: seq<Record>, offset: nat, branch: BranchId, ops: Ops): Option<Snapshot>
    requires Chained(records)
  {
    if offset > |records| then None
    else
      match Materialized(w, session, records, offset)
      case None => None
      case Some(parent) => Extended(w, parent, Record(|records| + 1, offset, branch, ops))
  }

  /** The offset of the newest record on a branch, or the root. */
  function NewestOn(records: seq<Record>, branch: BranchId): nat {
    if records == [] then 0
    else if records[|records| - 1].branch == branch then |records|
    else NewestOn(records[..|records| - 1], branch)
  }

  lemma MaterializedOffset(w: World, session: SessionId, records: seq<Record>, offset: nat)
    requires Sound(w, session, records) && offset <= |records|
    ensures Materialized(w, session, records, offset).Some?
    ensures Materialized(w, session, records, offset).value.offset == offset
  {
    MaterializedAt(w, session, records, offset);
  }

  /** `chain` is the path from `offset` upwards, `cursor` the next offset on it. */
  predicate Climbs(w: World, session: SessionId, records: seq<Record>, offset: nat, chain: seq<Record>, cursor: nat) {
    && Chained(records) && offset <= |records| && cursor <= offset
    && (forall i :: 0 <= i < |chain| ==> chain[i] in records && 1 <= chain[i].offset <= |records|)
    && (forall i :: 0 <= i < |chain| ==> records[chain[i].offset - 1] == chain[i])
    && (forall i :: 0 <= i < |chain| - 1 ==> chain[i].parent == chain[i + 1].offset)
    && (if chain == [] then cursor == offset else chain[0].offset == offset && chain[|chain| - 1].parent == cursor)
  }

  lemma ClimbsOneMore(w: World, session: SessionId, records: seq<Record>, offset: nat, chain: seq<Record>, cursor: nat)
    requires Climbs(w, session, records, offset, chain, cursor) && cursor != 0
    ensures Climbs(w, session, records, offset, chain + [records[cursor - 1]], records[cursor - 1].parent)
  {
  }

  /** Applying the chain's next record to its parent's document gives its own. */
  lemma Descends(w: World, session: SessionId, records: seq<Record>, offset: nat, chain: seq<Record>, i: nat)
    requires Sound(w, session, records) && Climbs(w, session, records, offset, chain, 0) && i < |chain|
    ensures var parent := if i + 1 < |chain| then chain[i + 1].offset else 0;
      && Materialized(w, session, records, parent).Some?
      && Extended(w, Materialized(w, session, records, parent).value, chain[i]).Some?
      && Materialized(w, session, records, chain[i].offset) ==
         Extended(w, Materialized(w, session, records, parent).value, chain[i])
  {
    hide Extended;
    assert records[chain[i].offset - 1] == chain[i];
    assert Materialized(w, session, records, chain[i].offset).Some?;
  }

  // ----- Reading the journal back --------------------------------------------

  /** The records up to the first one that does not fit, and the document of the last. */
  datatype Replay = Replay(records: seq<Record>, snapshot: Snapshot, damaged: bool)

  /** A record that continues the journal read so far. */
  predicate Fits(w: World, session: SessionId, records: seq<Record>, record: Record)
    requires Sound(w, session, records)
  {
    && record.offset == |records| + 1 && record.parent <= |records|
    && Extended(w, Materialized(w, session, records, record.parent).value, record).Some?
  }

  /**
   Reads the frames of a file. A record on top of the running document is
   applied to it; any other one is applied to its parent's document, built
   anew. Either way the document is the newest record's own.
   */
  method Open(w: World, session: SessionId, frames: seq<Record>) returns (replay: Replay)
    ensures replay.records <= frames && Sound(w, session, replay.records)
    ensures Materialized(w, session, replay.records, |replay.records|) == Some(replay.snapshot)
    ensures !replay.damaged ==> replay.records == frames
    ensures replay.damaged ==> |replay.records| < |frames| && !Fits(w, session, replay.records, frames[|replay.records|])
  {
    hide Extended;
    var snapshot := Fresh(w, session);
    for k := 0 to |frames|
      invariant Sound(w, session, frames[..k])
      invariant Materialized(w, session, frames[..k], k) == Some(snapshot)
    {
      hide Sound;
      var read, record := frames[..k], frames[k];
      assert frames[..k + 1] == read + [record];
      if record.offset != k + 1 || record.parent > k {
        return Replay(read, snapshot, true);
      }
      MaterializedOffset(w, session, read, k);
      var parent := if record.parent == snapshot.offset then Some(snapshot) else Materialized(w, session, read, record.parent);
      var extended := Extended(w, parent.value, record);
      if extended.None? {
        return Replay(read, snapshot, true);
      }
      SoundOneMore(w, session, read, record);
      snapshot := extended.value;
    }
    assert frames[..|frames|] == frames;
    replay := Replay(frames, snapshot, false);
  }
}
