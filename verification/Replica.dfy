/** The interface's copy of a session. */
module Replica {
  import opened Wrappers
  import opened SessionJournal

  /*
   The user interface keeps a copy of the session that a separate worker process
   owns. Modelled are journal commits, the observer that announces them, the
   queue in between, session switches, and killing and restarting the worker.
   */

  type Path = nat

  datatype Event =
    | SnapshotEvent(snapshot: Snapshot)
    | PatchEvent(patch: Patch, branch: BranchId)
    | SessionChanged(snapshot: Snapshot, journal: Path)
    | Notice

  // ----- The observer --------------------------------------------------------

  /** A patch if the record continues what was last announced, otherwise the whole document. */
  function EventFor(base: nat, record: Record, snapshot: Snapshot): Event {
    if record.parent == base then PatchEvent(record.ToPatch(), record.branch) else SnapshotEvent(snapshot)
  }

  class Observer {
    var base: nat

    constructor (snapshot: Snapshot)
      ensures base == snapshot.offset
    {
      base := snapshot.offset;
    }

    /**
     Announces a commit: the event takes any copy that holds what was last
     announced to the committed document, whatever that copy's journal is.
     */
    method Observe(record: Record, snapshot: Snapshot) returns (event: Event)
      modifies this
      ensures event == EventFor(old(base), record, snapshot)
      ensures record.offset == snapshot.offset ==> base == snapshot.offset
      ensures record.offset != snapshot.offset ==> base == if record.parent == old(base) then record.offset else snapshot.offset
      ensures forall w: World, parent: Snapshot, copy: Copy ::
        Extended(w, parent, record) == Some(snapshot) && copy.snapshot.offset == old(base) &&
        (record.parent == old(base) ==> copy.snapshot == parent) ==>
          Deliver(w, copy, event) == Some(copy.(snapshot := snapshot))
    {
      forall w: World, parent: Snapshot, copy: Copy |
        Extended(w, parent, record) == Some(snapshot) && copy.snapshot.offset == base &&
        (record.parent == base ==> copy.snapshot == parent)
        ensures Deliver(w, copy, EventFor(base, record, snapshot)) == Some(copy.(snapshot := snapshot))
      {
        EventReaches(w, copy, parent, record, snapshot, base);
      }
      if record.parent == base {
        base := record.offset;
        event := PatchEvent(record.ToPatch(), record.branch);
      } else {
        base := snapshot.offset;
        event := SnapshotEvent(snapshot);
      }
    }
  }

  // ----- The interface's copy ------------------------------------------------

  /** The copy, and the journal the interface would restart the worker on. */
  datatype Copy = Copy(path: Path, snapshot: Snapshot)

  function Deliver(w: World, copy: Copy, event: Event): Option<Copy> {
    match event
    case SnapshotEvent(snapshot) => Some(copy.(snapshot := snapshot))
    case SessionChanged(snapshot, path) => Some(Copy(path, snapshot))
    case Notice => Some(copy)
    case PatchEvent(patch, branch) =>
      match ApplyPatch(w, copy.snapshot, patch)
      case None => None
      case Some(s) => Some(copy.(snapshot := s.(branch := branch)))
  }

  /** The copy after a list of events, if all of them apply. */
  function DeliverAll(w: World, copy: Copy, events: seq<Event>): Option<Copy>
    decreases |events|
  {
    if events == [] then Some(copy)
    else
      match Deliver(w, copy, events[0])
      case None => None
      case Some(next) => DeliverAll(w, next, events[1..])
  }

  class Interface {
    const world: World
    var snapshot: Snapshot
    var journal: Path
    var ready: bool

    constructor (world: World, snapshot: Snapshot, journal: Path)
      ensures this.world == world && this.snapshot == snapshot && this.journal == journal && !ready
    {
      this.world, this.snapshot, this.journal, ready := world, snapshot, journal, false;
    }

    function State(): Copy
      reads this
    {
      Copy(journal, snapshot)
    }

    /** Handles the events of one poll, in order; stops at a patch that does not apply. */
    method Consume(events: seq<Event>) returns (ok: bool)
      modifies this
      ensures ok <==> DeliverAll(world, old(State()), events).Some?
      ensures ok ==> State() == DeliverAll(world, old(State()), events).value
    {
      for k := 0 to |events|
        invariant DeliverAll(world, State(), events[k..]) == DeliverAll(world, old(State()), events)
      {
        match events[k] {
          case SnapshotEvent(next) => snapshot, ready := next, true;
          case SessionChanged(next, path) => journal, snapshot, ready := path, next, true;
          case PatchEvent(patch, branch) =>
            var applied := ApplyPatch(world, snapshot, patch);
            if applied.None? {
              return false;
            }
            snapshot := applied.value.(branch := branch);
          case Notice =>
        }
      }
      ok := true;
    }
  }

  // ----- The whole system ----------------------------------------------------

  /** A journal file: the records that reached the disk. */
  datatype File = File(session: SessionId, records: seq<Record>)

  /** The worker; `unobserved` is a commit that is on disk but not yet announced. */
  datatype Worker = Worker(path: Path, snapshot: Snapshot, base: nat, unobserved: Option<Record>, failed: bool)

  datatype State = State(
    files: map<Path, File>,
    worker: Worker,
    queue: seq<Event>,
    copy: Copy,
    seen: set<(Path, nat)>)

  /** One commit on top of a document: its branch and operations. */
  datatype Commit = Commit(branch: BranchId, ops: Ops)

  datatype Move =
    | Write(at: nat, branch: BranchId, ops: Ops)
    | WriteLost(at: nat, branch: BranchId, ops: Ops, stored: bool)
    | Announce
    | Say
    | Receive
    | NewSession(path: Path, session: SessionId, commits: seq<Commit>)
    | Restart(commits: seq<Commit>)

  predicate SoundFile(w: World, f: File) {
    Sound(w, f.session, f.records)
  }

  function At(w: World, f: File, offset: nat): Option<Snapshot>
    requires SoundFile(w, f)
  {
    if offset <= |f.records| then Materialized(w, f.session, f.records, offset) else None
  }

  function Head(w: World, f: File): (head: Snapshot)
    requires SoundFile(w, f)
    ensures At(w, f, head.offset) == Some(head) && head.offset == |f.records|
  {
    MaterializedOffset(w, f.session, f.records, |f.records|);
    Materialized(w, f.session, f.records, |f.records|).value
  }

  /** The file with one more record on top of the document at `at`. */
  function Committed(w: World, f: File, at: nat, c: Commit): (g: Option<File>)
    requires SoundFile(w, f)
    ensures g.Some? ==> SoundFile(w, g.value) && f.records <= g.value.records && g.value.session == f.session
  {
    if At(w, f, at).None? then None
    else
      var record := Record(|f.records| + 1, at, c.branch, c.ops);
      if Extended(w, At(w, f, at).value, record).None? then None
      else
        SoundOneMore(w, f.session, f.records, record);
        Some(File(f.session, f.records + [record]))
  }

  /** The file after commits one on top of the other. */
  function Grown(w: World, f: File, commits: seq<Commit>): (g: Option<File>)
    requires SoundFile(w, f)
    ensures g.Some? ==> SoundFile(w, g.value) && f.records <= g.value.records && g.value.session == f.session
  {
    if commits == [] then Some(f)
    else
      match Grown(w, f, commits[..|commits| - 1])
      case None => None
      case Some(h) => Committed(w, h, |h.records|, commits[|commits| - 1])
  }

  predicate FilesSound(w: World, files: map<Path, File>) {
    forall p :: p in files ==> SoundFile(w, files[p])
  }

  /** A worker that opened `path`, repaired it with `commits` and announced its document. */
  function Started(w: World, s: State, path: Path, commits: seq<Commit>): Option<State>
    requires FilesSound(w, s.files)
  {
    if path !in s.files then None
    else
      match Grown(w, s.files[path], commits)
      case None => None
      case Some(f) =>
        var head := Head(w, f);
        Some(State(s.files[path := f], Worker(path, head, head.offset, None, false), [SnapshotEvent(head)],
                   s.copy, s.seen + {(path, head.offset)}))
  }

  /** What one step does; `None` when the step cannot happen. */
  function Next(w: World, s: State, move: Move): Option<State>
    requires FilesSound(w, s.files) && s.worker.path in s.files
  {
    var here := s.files[s.worker.path];
    match move
    case Write(at, branch, ops) =>
      if s.worker.failed || s.worker.unobserved.Some? then None
      else
        (match Committed(w, here, at, Commit(branch, ops))
         case None => None
         case Some(f) =>
           Some(s.(files := s.files[s.worker.path := f],
                   worker := s.worker.(snapshot := Head(w, f), unobserved := Some(f.records[|f.records| - 1])))))
    case WriteLost(at, branch, ops, stored) =>
      if s.worker.failed || s.worker.unobserved.Some? then None
      else
        (match Committed(w, here, at, Commit(branch, ops))
         case None => None
         case Some(f) =>
           Some(s.(files := if stored then s.files[s.worker.path := f] else s.files,
                   worker := s.worker.(failed := true))))
    case Announce =>
      if s.worker.unobserved.None? then None
      else
        Some(s.(queue := s.queue + [EventFor(s.worker.base, s.worker.unobserved.value, s.worker.snapshot)],
                worker := s.worker.(base := s.worker.snapshot.offset, unobserved := None),
                seen := s.seen + {(s.worker.path, s.worker.snapshot.offset)}))
    case Say => Some(s.(queue := s.queue + [Notice]))
    case Receive =>
      if s.queue == [] then None
      else
        (match Deliver(w, s.copy, s.queue[0])
         case None => None
         case Some(copy) => Some(s.(queue := s.queue[1..], copy := copy)))
    case NewSession(path, session, commits) =>
      if path in s.files || s.worker.unobserved.Some? then None
      else
        (match Grown(w, EmptyFile(w, session), commits)
         case None => None
         case Some(f) =>
           var head := Head(w, f);
           Some(State(s.files[path := f], Worker(path, head, head.offset, None, false),
                      s.queue + [SessionChanged(head, path)], s.copy, s.seen + {(path, head.offset)})))
    case Restart(commits) => Started(w, s, s.copy.path, commits)
  }

  function EmptyFile(w: World, session: SessionId): (f: File)
    ensures SoundFile(w, f) && f.records == []
  {
    File(session, [])
  }

  // ----- The invariant -------------------------------------------------------

  /** The copy is the document of its journal at an offset that was announced. */
  predicate Truthful(w: World, files: map<Path, File>, seen: set<(Path, nat)>, copy: Copy)
    requires FilesSound(w, files)
  {
    && copy.path in files
    && At(w, files[copy.path], copy.snapshot.offset) == Some(copy.snapshot)
    && (copy.path, copy.snapshot.offset) in seen
  }

  /** Working through the queue only ever passes through truthful copies, and ends in `end`. */
  predicate Flows(w: World, files: map<Path, File>, seen: set<(Path, nat)>, copy: Copy, queue: seq<Event>, end: Copy)
    requires FilesSound(w, files)
    decreases |queue|
  {
    && Truthful(w, files, seen, copy)
    && if queue == [] then copy == end
       else
         match Deliver(w, copy, queue[0])
         case None => false
         case Some(next) => Flows(w, files, seen, next, queue[1..], end)
  }

  /** What the interface will hold once it has everything announced so far. */
  function Announced(w: World, s: State): Option<Copy>
    requires FilesSound(w, s.files) && s.worker.path in s.files
  {
    match At(w, s.files[s.worker.path], s.worker.base)
    case None => None
    case Some(snapshot) => Some(Copy(s.worker.path, snapshot))
  }

  predicate WorkerSound(w: World, s: State)
    requires FilesSound(w, s.files)
  {
    && s.worker.path in s.files
    && var f := s.files[s.worker.path];
    && At(w, f, s.worker.snapshot.offset) == Some(s.worker.snapshot)
    && match s.worker.unobserved
       case None => s.worker.base == s.worker.snapshot.offset
       case Some(record) =>
         && s.worker.base <= |f.records| && record in f.records
         && record.offset == s.worker.snapshot.offset
         && At(w, f, record.parent).Some?
         && Extended(w, At(w, f, record.parent).value, record) == Some(s.worker.snapshot)
  }

  predicate Inv(w: World, s: State) {
    && FilesSound(w, s.files)
    && WorkerSound(w, s)
    && Announced(w, s).Some?
    && Flows(w, s.files, s.seen, s.copy, s.queue, Announced(w, s).value)
  }

  /** Files only gain records. */
  predicate Grows(w: World, files: map<Path, File>, after: map<Path, File>) {
    forall p :: p in files ==>
      p in after && files[p].session == after[p].session && files[p].records <= after[p].records
  }

  lemma AtStays(w: World, f: File, g: File, offset: nat)
    requires SoundFile(w, f) && SoundFile(w, g) && f.session == g.session && f.records <= g.records
    requires At(w, f, offset).Some?
    ensures At(w, g, offset) == At(w, f, offset)
  {
    var more := g.records[|f.records|..];
    assert g.records == f.records + more;
    OlderUnchanged(w, f.session, f.records, more, offset);
  }

  lemma TruthfulStays(w: World, files: map<Path, File>, seen: set<(Path, nat)>, after: map<Path, File>,
                      more: set<(Path, nat)>, copy: Copy)
    requires FilesSound(w, files) && FilesSound(w, after) && Grows(w, files, after) && seen <= more
    requires Truthful(w, files, seen, copy)
    ensures Truthful(w, after, more, copy)
  {
    hide SoundFile, At;
    AtStays(w, files[copy.path], after[copy.path], copy.snapshot.offset);
  }

  lemma {:induction false} FlowsStays(w: World, files: map<Path, File>, seen: set<(Path, nat)>, after: map<Path, File>,
                                      more: set<(Path, nat)>, copy: Copy, queue: seq<Event>, end: Copy)
    requires FilesSound(w, files) && FilesSound(w, after) && Grows(w, files, after) && seen <= more
    requires Flows(w, files, seen, copy, queue, end)
    ensures Flows(w, after, more, copy, queue, end)
    decreases |queue|
  {
    hide FilesSound, Grows, Truthful, Deliver;
    TruthfulStays(w, files, seen, after, more, copy);
    if queue != [] {
      FlowsStays(w, files, seen, after, more, Deliver(w, copy, queue[0]).value, queue[1..], end);
    }
  }

  /** An event the last copy can take extends the flow. */
  lemma {:induction false} FlowsOneMore(w: World, files: map<Path, File>, seen: set<(Path, nat)>, copy: Copy,
                                        queue: seq<Event>, end: Copy, event: Event, next: Copy)
    requires FilesSound(w, files) && Flows(w, files, seen, copy, queue, end)
    requires Deliver(w, end, event) == Some(next) && Truthful(w, files, seen, next)
    ensures Flows(w, files, seen, copy, queue + [event], next)
    decreases |queue|
  {
    hide FilesSound, Truthful, Deliver;
    if queue == [] {
      assert [event][1..] == [];
      assert Flows(w, files, seen, next, [], next);
      assert queue + [event] == [event];
    } else {
      var after := Deliver(w, copy, queue[0]).value;
      FlowsOneMore(w, files, seen, after, queue[1..], end, event, next);
      assert (queue + [event])[1..] == queue[1..] + [event];
    }
  }

  lemma FlowsIsTruthful(w: World, files: map<Path, File>, seen: set<(Path, nat)>, copy: Copy, queue: seq<Event>, end: Copy)
    requires FilesSound(w, files) && Flows(w, files, seen, copy, queue, end)
    ensures Truthful(w, files, seen, copy)
  {
  }

  lemma GrownIsLonger(w: World, s: State, path: Path, f: File)
    requires FilesSound(w, s.files) && SoundFile(w, f)
    requires path in s.files ==> f.session == s.files[path].session && s.files[path].records <= f.records
    ensures FilesSound(w, s.files[path := f]) && Grows(w, s.files, s.files[path := f])
  {
    hide SoundFile;
  }

  /** The newest record of a file just committed to, and its document. */
  lemma CommittedHead(w: World, f: File, at: nat, c: Commit)
    requires SoundFile(w, f) && Committed(w, f, at, c).Some?
    ensures var g := Committed(w, f, at, c).value;
      && |g.records| == |f.records| + 1
      && var record := g.records[|f.records|];
      && record.offset == |g.records| && record.parent == at && record.branch == c.branch
      && At(w, g, at).Some? && Extended(w, At(w, g, at).value, record) == Some(Head(w, g))
  {
    hide Extended;
    var record := Record(|f.records| + 1, at, c.branch, c.ops);
    SoundOneMore(w, f.session, f.records, record);
  }

  // ----- Every step keeps it -------------------------------------------------

  lemma WriteKeeps(w: World, s: State, at: nat, c: Commit)
    requires Inv(w, s) && Next(w, s, Write(at, c.branch, c.ops)).Some?
    ensures Inv(w, Next(w, s, Write(at, c.branch, c.ops)).value)
  {
    hide SoundFile, Committed, At, Extended, Grows, Flows;
    var here := s.files[s.worker.path];
    var f := Committed(w, here, at, c).value;
    CommittedHead(w, here, at, c);
    GrownIsLonger(w, s, s.worker.path, f);
    AtOffset(w, here, s.worker.base);
    AtStays(w, here, f, s.worker.base);
    FlowsStays(w, s.files, s.seen, s.files[s.worker.path := f], s.seen, s.copy, s.queue, Announced(w, s).value);
  }

  lemma LossKeeps(w: World, s: State, at: nat, c: Commit, stored: bool)
    requires Inv(w, s) && Next(w, s, WriteLost(at, c.branch, c.ops, stored)).Some?
    ensures Inv(w, Next(w, s, WriteLost(at, c.branch, c.ops, stored)).value)
  {
    hide SoundFile, Committed, At, Extended, Grows, Flows;
    if stored {
      var here := s.files[s.worker.path];
      var f := Committed(w, here, at, c).value;
      GrownIsLonger(w, s, s.worker.path, f);
      AtStays(w, here, f, s.worker.base);
      AtStays(w, here, f, s.worker.snapshot.offset);
      FlowsStays(w, s.files, s.seen, s.files[s.worker.path := f], s.seen, s.copy, s.queue, Announced(w, s).value);
    }
  }

  /** The announced event takes the last copy to the worker's own document. */
  lemma EventReaches(w: World, end: Copy, parent: Snapshot, record: Record, snapshot: Snapshot, base: nat)
    requires end.snapshot.offset == base && Extended(w, parent, record) == Some(snapshot)
    requires record.parent == base ==> parent == end.snapshot
    ensures Deliver(w, end, EventFor(base, record, snapshot)) == Some(Copy(end.path, snapshot))
  {
  }

  lemma AnnounceKeeps(w: World, s: State)
    requires Inv(w, s) && Next(w, s, Announce).Some?
    ensures Inv(w, Next(w, s, Announce).value)
  {
    hide SoundFile, Extended, Grows, Flows;
    var record := s.worker.unobserved.value;
    var f := s.files[s.worker.path];
    var end := Announced(w, s).value;
    var t := Next(w, s, Announce).value;
    AtOffset(w, f, s.worker.base);
    EventReaches(w, end, At(w, f, record.parent).value, record, s.worker.snapshot, s.worker.base);
    GrowsNot(w, s.files);
    FlowsStays(w, s.files, s.seen, s.files, t.seen, s.copy, s.queue, end);
    FlowsOneMore(w, s.files, t.seen, s.copy, s.queue, end,
                 EventFor(s.worker.base, record, s.worker.snapshot), Copy(s.worker.path, s.worker.snapshot));
  }

  lemma AtOffset(w: World, f: File, offset: nat)
    requires SoundFile(w, f) && At(w, f, offset).Some?
    ensures At(w, f, offset).value.offset == offset <= |f.records|
  {
    MaterializedOffset(w, f.session, f.records, offset);
  }

  lemma GrowsNot(w: World, files: map<Path, File>)
    ensures Grows(w, files, files)
  {
  }

  lemma SayKeeps(w: World, s: State)
    requires Inv(w, s)
    ensures Inv(w, Next(w, s, Say).value)
  {
    hide SoundFile, At, Extended;
    var end := Announced(w, s).value;
    EndIsTruthful(w, s.files, s.seen, s.copy, s.queue, end);
    FlowsOneMore(w, s.files, s.seen, s.copy, s.queue, end, Notice, end);
  }

  lemma {:induction false} EndIsTruthful(w: World, files: map<Path, File>, seen: set<(Path, nat)>, copy: Copy,
                                         queue: seq<Event>, end: Copy)
    requires FilesSound(w, files) && Flows(w, files, seen, copy, queue, end)
    ensures Truthful(w, files, seen, end)
    decreases |queue|
  {
    hide FilesSound, Truthful, Deliver;
    if queue != [] {
      EndIsTruthful(w, files, seen, Deliver(w, copy, queue[0]).value, queue[1..], end);
    }
  }

  lemma ReceiveKeeps(w: World, s: State)
    requires Inv(w, s) && Next(w, s, Receive).Some?
    ensures Inv(w, Next(w, s, Receive).value)
  {
    hide SoundFile, At, Extended, Deliver, Truthful;
  }

  lemma NewSessionKeeps(w: World, s: State, path: Path, session: SessionId, commits: seq<Commit>)
    requires Inv(w, s) && Next(w, s, NewSession(path, session, commits)).Some?
    ensures Inv(w, Next(w, s, NewSession(path, session, commits)).value)
  {
    hide SoundFile, Grown, At, Extended, Grows, Flows;
    var f := Grown(w, EmptyFile(w, session), commits).value;
    var t := Next(w, s, NewSession(path, session, commits)).value;
    var head := Head(w, f);
    GrownIsLonger(w, s, path, f);
    FlowsStays(w, s.files, s.seen, t.files, t.seen, s.copy, s.queue, Announced(w, s).value);
    FlowsOneMore(w, t.files, t.seen, s.copy, s.queue, Announced(w, s).value,
                 SessionChanged(head, path), Copy(path, head));
  }

  /** Starting a worker on the copy's own journal, whatever the queue held. */
  lemma StartedSound(w: World, s: State, commits: seq<Commit>)
    requires FilesSound(w, s.files) && Truthful(w, s.files, s.seen, s.copy) && Started(w, s, s.copy.path, commits).Some?
    ensures Inv(w, Started(w, s, s.copy.path, commits).value)
  {
    hide SoundFile, Grown, At, Extended, Grows;
    var path := s.copy.path;
    var f := Grown(w, s.files[path], commits).value;
    var t := Started(w, s, path, commits).value;
    var head := Head(w, f);
    GrownIsLonger(w, s, path, f);
    TruthfulStays(w, s.files, s.seen, t.files, t.seen, s.copy);
    var end := Copy(path, head);
    assert Flows(w, t.files, t.seen, end, [], end);
    assert t.queue[1..] == [];
    assert Flows(w, t.files, t.seen, t.copy, t.queue, end);
  }

  lemma NextKeeps(w: World, s: State, move: Move)
    requires Inv(w, s) && Next(w, s, move).Some?
    ensures Inv(w, Next(w, s, move).value)
  {
    FlowsIsTruthful(w, s.files, s.seen, s.copy, s.queue, Announced(w, s).value);
    hide Inv, Next, Flows, Truthful, SoundFile, At;
    match move {
      case Write(at, branch, ops) => WriteKeeps(w, s, at, Commit(branch, ops));
      case WriteLost(at, branch, ops, stored) => LossKeeps(w, s, at, Commit(branch, ops), stored);
      case Announce => AnnounceKeeps(w, s);
      case Say => SayKeeps(w, s);
      case Receive => ReceiveKeeps(w, s);
      case NewSession(path, session, commits) => NewSessionKeeps(w, s, path, session, commits);
      case Restart(commits) => RestartKeeps(w, s, commits);
    }
  }

  lemma RestartKeeps(w: World, s: State, commits: seq<Commit>)
    requires Inv(w, s) && Next(w, s, Restart(commits)).Some? && Truthful(w, s.files, s.seen, s.copy)
    ensures Inv(w, Next(w, s, Restart(commits)).value)
  {
    hide Started, Flows, Truthful, SoundFile, At;
    StartedSound(w, s, commits);
  }

  /**
   A patch is never misapplied: a truthful copy takes the patch of a record of its
   own journal exactly when it holds the record's parent, and then it holds the
   record's document.
   */
  lemma PatchNeedsItsBase(w: World, files: map<Path, File>, seen: set<(Path, nat)>, copy: Copy, record: Record)
    requires FilesSound(w, files) && Truthful(w, files, seen, copy)
    requires record in files[copy.path].records
    ensures var after := Deliver(w, copy, PatchEvent(record.ToPatch(), record.branch));
      if copy.snapshot.offset == record.parent
      then At(w, files[copy.path], record.offset).Some? &&
           after == Some(copy.(snapshot := At(w, files[copy.path], record.offset).value))
      else after == None
  {
    var f := files[copy.path];
    var i :| 0 <= i < |f.records| && f.records[i] == record;
    AtOffset(w, f, copy.snapshot.offset);
    assert Materialized(w, f.session, f.records, record.offset).Some?;
  }

  // ----- Polling -------------------------------------------------------------

  function Receives(n: nat): seq<Move> {
    seq(n, _ => Receive)
  }

  /** Several moves in a row; `None` once one of them cannot happen. */
  function Steps(w: World, s: State, moves: seq<Move>): Option<State>
    requires Inv(w, s)
    decreases |moves|
  {
    if moves == [] then Some(s)
    else
      match Next(w, s, moves[0])
      case None => None
      case Some(t) => NextKeeps(w, s, moves[0]); Steps(w, t, moves[1..])
  }

  /** Receiving the next `n` events one by one is one poll of them: what `Interface.Consume` does. */
  lemma {:induction false} ReceivesAreOnePoll(w: World, s: State, n: nat)
    requires Inv(w, s) && n <= |s.queue|
    ensures DeliverAll(w, s.copy, s.queue[..n]).Some?
    ensures Steps(w, s, Receives(n)) ==
      Some(s.(queue := s.queue[n..], copy := DeliverAll(w, s.copy, s.queue[..n]).value))
    decreases n
  {
    hide SoundFile, At, Flows, Extended, Deliver;
    if n == 0 {
      assert s.queue[0..] == s.queue;
    } else {
      QueueApplies(w, s);
      var t := Next(w, s, Receive).value;
      NextKeeps(w, s, Receive);
      ReceivesAreOnePoll(w, t, n - 1);
      assert Receives(n)[0] == Receive && Receives(n)[1..] == Receives(n - 1);
      assert s.queue[..n][0] == s.queue[0] && s.queue[..n][1..] == t.queue[..n - 1];
      assert s.queue[n..] == t.queue[n - 1..];
    }
  }

  lemma QueueApplies(w: World, s: State)
    requires Inv(w, s) && s.queue != []
    ensures Deliver(w, s.copy, s.queue[0]).Some? && Next(w, s, Receive).Some?
  {
    hide SoundFile, At, Extended, Deliver, Truthful;
  }

  // ----- Every run -----------------------------------------------------------

  /** The interface opens a journal, shows its document at some offset, and starts a worker on it. */
  predicate Opening(w: World, s: State) {
    && FilesSound(w, s.files)
    && Truthful(w, s.files, s.seen, s.copy)
  }

  /** A run: the worker starts, and then the moves happen one after the other. */
  function Run(w: World, s: State, commits: seq<Commit>, moves: seq<Move>): (r: Option<State>)
    requires Opening(w, s)
    ensures r.Some? ==> Inv(w, r.value)
  {
    if moves == [] then
      if Started(w, s, s.copy.path, commits).Some? then StartedSound(w, s, commits); Started(w, s, s.copy.path, commits)
      else None
    else
      match Run(w, s, commits, moves[..|moves| - 1])
      case None => None
      case Some(t) =>
        var move := moves[|moves| - 1];
        if Next(w, t, move).Some? then NextKeeps(w, t, move); Next(w, t, move) else None
  }

  /**
   Whatever commits, branch switches, lost writes, delays, session switches and
   restarts have happened: the interface shows the document of its journal at an
   offset that was announced; every queued event will apply; and when the queue
   is empty and nothing waits to be announced it shows the worker's own document.
   */
  lemma CopyIsFaithful(w: World, s: State, commits: seq<Commit>, moves: seq<Move>)
    requires Opening(w, s) && Run(w, s, commits, moves).Some?
    ensures var t := Run(w, s, commits, moves).value;
      && Truthful(w, t.files, t.seen, t.copy)
      && DeliverAll(w, t.copy, t.queue).Some?
      && (t.queue != [] ==> Next(w, t, Receive).Some?)
      && (t.queue == [] && t.worker.unobserved.None? ==> t.copy == Copy(t.worker.path, t.worker.snapshot))
  {
    hide Run, At, SoundFile, Extended;
    var t := Run(w, s, commits, moves).value;
    FlowsDelivers(w, t.files, t.seen, t.copy, t.queue, Announced(w, t).value);
  }

  lemma {:induction false} FlowsDelivers(w: World, files: map<Path, File>, seen: set<(Path, nat)>, copy: Copy,
                                         queue: seq<Event>, end: Copy)
    requires FilesSound(w, files) && Flows(w, files, seen, copy, queue, end)
    ensures DeliverAll(w, copy, queue) == Some(end)
    decreases |queue|
  {
    hide FilesSound, Truthful, Deliver;
    if queue != [] {
      FlowsDelivers(w, files, seen, Deliver(w, copy, queue[0]).value, queue[1..], end);
    }
  }

  /**
   Sending only the patch is justified: whenever a record continues what was
   last announced, the interface will hold exactly its parent document by the
   time the patch arrives.
   */
  lemma PatchMeetsItsBase(w: World, s: State, commits: seq<Commit>, moves: seq<Move>)
    requires Opening(w, s) && Run(w, s, commits, moves).Some?
    requires Run(w, s, commits, moves).value.worker.unobserved.Some?
    requires var t := Run(w, s, commits, moves).value; t.worker.unobserved.value.parent == t.worker.base
    ensures var t := Run(w, s, commits, moves).value;
      && DeliverAll(w, t.copy, t.queue).Some?
      && var end := DeliverAll(w, t.copy, t.queue).value;
      && end.path == t.worker.path
      && Extended(w, end.snapshot, t.worker.unobserved.value) == Some(t.worker.snapshot)
  {
    hide Run, SoundFile, Extended, At;
    var t := Run(w, s, commits, moves).value;
    FlowsDelivers(w, t.files, t.seen, t.copy, t.queue, Announced(w, t).value);
  }
}
