/** What a successful script leaves behind. */
module CommandJournal {
  import opened Wrappers
  import opened Text
  import opened Dom
  import opened CommandText
  import opened AliasExpansion
  import opened ConVars
  import opened CommandEngine

  /*
   Hook calls in order, and a journal patch from which the session reads back the
   state it has in memory. One invariant carries all of it: the machine mirrors
   the document patched so far, the dirty marks say where that differs from the
   document the run started from, and every change of a hooked variable waits.
   */

  // ----- The patch -----------------------------------------------------------

  /** The operation that records an effect; effects without one leave the document alone. */
  function OpOf(effect: CommandEffect): seq<AttributeOp> {
    match effect
    case ConVarUpdated(name, _, after, session) => if session then [SetAttribute(name, after)] else []
    case Bound(key, command) => [SetAttribute(BIND + key, String(command))]
    case Aliased(name, command) => [SetAttribute(ALIAS + name, String(command))]
    case Unbound(key) => [RemoveAttribute(BIND + key)]
    case Unaliased(name) => [RemoveAttribute(ALIAS + name)]
    case _ => []
  }

  function OpsOf(effects: seq<CommandEffect>): seq<AttributeOp> {
    if effects == [] then [] else OpsOf(effects[..|effects| - 1]) + OpOf(effects[|effects| - 1])
  }

  method CommandEffectsToPatch(effects: seq<CommandEffect>) returns (patch: Option<seq<AttributeOp>>)
    ensures patch == if OpsOf(effects) == [] then None else Some(OpsOf(effects))
  {
    var ops := [];
    for i := 0 to |effects|
      invariant ops == OpsOf(effects[..i])
    {
      assert effects[..i + 1][..i] == effects[..i];
      match effects[i] {
        case ConVarUpdated(name, _, after, session) =>
          if session {
            ops := ops + [SetAttribute(name, after)];
          }
        case Bound(key, command) => ops := ops + [SetAttribute(BIND + key, String(command))];
        case Aliased(name, command) => ops := ops + [SetAttribute(ALIAS + name, String(command))];
        case Unbound(key) => ops := ops + [RemoveAttribute(BIND + key)];
        case Unaliased(name) => ops := ops + [RemoveAttribute(ALIAS + name)];
        case _ =>
      }
    }
    assert effects[..|effects|] == effects;
    patch := if ops == [] then None else Some(ops);
  }

  /** The document after the effects so far. */
  function Journaled(attrs: Attributes, effects: seq<CommandEffect>): Attributes {
    Apply(attrs, OpsOf(effects))
  }

  lemma JournaledOneMore(attrs: Attributes, effects: seq<CommandEffect>, effect: CommandEffect)
    ensures Journaled(attrs, effects + [effect]) == Apply(Journaled(attrs, effects), OpOf(effect))
  {
    assert (effects + [effect])[..|effects|] == effects;
    ApplyConcat(attrs, OpsOf(effects), OpOf(effect));
  }

  /** The hook calls a list of effects accounts for, one per change of a hooked variable. */
  function HookCalls(defs: Registry, effects: seq<CommandEffect>): seq<HookCall> {
    if effects == [] then []
    else
      HookCalls(defs, effects[..|effects| - 1]) +
      match effects[|effects| - 1]
      case ConVarUpdated(name, before, after, _) => CallsOf(defs, name, before, after)
      case _ => []
  }

  // ----- What every step keeps -----------------------------------------------

  predicate Prefixed(name: string) {
    BIND <= name || ALIAS <= name
  }

  /** No session variable is named like a recorded bind or alias. */
  predicate PlainNames(defs: Registry) {
    forall name :: name in defs && defs[name].session ==> !Prefixed(name)
  }

  /** The machine holds what the document records. */
  ghost predicate Mirrors(defs: Registry, m: Machine, attrs: Attributes) {
    && (forall name :: name in defs && defs[name].session ==>
          name in m.store.values && m.store.values[name] == Recorded(defs[name], attrs, name))
    && m.store.cheats == CheatsOf(m.store.values)
    && Holds(m.binds, BIND, attrs)
    && Holds(m.aliases, ALIAS, attrs)
  }

  /** On variable names the document differs from where it started by exactly the dirty values. */
  ghost predicate DirtyTracked(defs: Registry, st: StoreState, origin: Attributes, attrs: Attributes) {
    && (forall name :: name in st.dirty ==> name in st.values && name in defs && defs[name].session)
    && forall name :: !Prefixed(name) ==>
         && (name in attrs <==> name in origin || name in st.dirty)
         && (name in st.dirty ==> attrs[name] == st.values[name])
         && (name in attrs && name !in st.dirty ==> attrs[name] == origin[name])
  }

  /** The changes made so far wait for the end of the transaction, in order. */
  predicate Queued(defs: Registry, base: seq<HookCall>, st: StoreState, effects: seq<CommandEffect>) {
    st.deferring && st.pending == base + HookCalls(defs, effects)
  }

  /** Where a run started; `hydrated` when that was a machine just read from the document. */
  datatype Origin = Origin(attrs: Attributes, values: map<string, TypedValue>, pending: seq<HookCall>, hydrated: bool)

  /** Values stored under names nobody declared stay as they are. */
  ghost predicate UndeclaredKept(defs: Registry, before: map<string, TypedValue>, values: map<string, TypedValue>) {
    forall name :: name !in defs ==>
      (name in values <==> name in before) && (name in values ==> values[name] == before[name])
  }

  /** All of it. */
  ghost predicate OnTrack(s: Setting, o: Origin, p: Progress) {
    && (o.hydrated ==> PlainNames(s.defs))
    && (o.hydrated ==> Mirrors(s.defs, p.machine, Journaled(o.attrs, p.effects)))
    && (o.hydrated ==> DirtyTracked(s.defs, p.machine.store, o.attrs, Journaled(o.attrs, p.effects)))
    && UndeclaredKept(s.defs, o.values, p.machine.store.values)
    && Queued(s.defs, o.pending, p.machine.store, p.effects)
    && p.bytes <= s.limits.maxBytes
  }

  lemma AssignKeepsMirror(defs: Registry, m: Machine, name: string, raw: string, attrs: Attributes)
    requires PlainNames(defs) && Mirrors(defs, m, attrs) && Assign(defs, m, name, raw).Ok?
    ensures var step := Assign(defs, m, name, raw).value;
      Mirrors(defs, step.machine, Apply(attrs, OpOf(step.effect)))
  {
    hide Accepts, Truthy, CallsOf, Holds, StoreState.Get, Prefixed;
    var step := Assign(defs, m, name, raw).value;
    var value := step.effect.after;
    if defs[name].session {
      var op := SetAttribute(name, value);
      assert [op][..0] == [];
      assert Apply(attrs, [op]) == attrs[name := value];
      NotPrefixed(defs, name);
      HoldsElsewhere(m.binds, BIND, attrs, name, value);
      HoldsElsewhere(m.aliases, ALIAS, attrs, name, value);
    }
  }

  lemma NotPrefixed(defs: Registry, name: string)
    requires PlainNames(defs) && name in defs && defs[name].session
    ensures !(BIND <= name) && !(ALIAS <= name)
  {
  }

  lemma AssignKeepsDirty(defs: Registry, m: Machine, name: string, raw: string, origin: Attributes, attrs: Attributes)
    requires DirtyTracked(defs, m.store, origin, attrs) && Assign(defs, m, name, raw).Ok? && PlainNames(defs)
    ensures var step := Assign(defs, m, name, raw).value;
      DirtyTracked(defs, step.machine.store, origin, Apply(attrs, OpOf(step.effect)))
  {
    hide Accepts, Truthy, CallsOf, StoreState.Get, Prefixed;
    var step := Assign(defs, m, name, raw).value;
    if defs[name].session {
      var op := SetAttribute(name, step.effect.after);
      assert [op][..0] == [];
      assert Apply(attrs, [op]) == attrs[name := step.effect.after];
    }
  }

  /** A bind or alias record changes its own side of the mirror only. */
  lemma RecordKeepsMirror(defs: Registry, m: Machine, after: Machine, op: AttributeOp, attrs: Attributes)
    requires PlainNames(defs) && Mirrors(defs, m, attrs) && Prefixed(op.name) && after.store == m.store
    requires Holds(after.binds, BIND, Apply(attrs, [op])) && Holds(after.aliases, ALIAS, Apply(attrs, [op]))
    ensures Mirrors(defs, after, Apply(attrs, [op]))
  {
    hide Holds, Prefixed;
    assert [op][..0] == [];
  }

  lemma RecordKeepsDirty(defs: Registry, st: StoreState, origin: Attributes, attrs: Attributes, op: AttributeOp)
    requires DirtyTracked(defs, st, origin, attrs) && Prefixed(op.name)
    ensures DirtyTracked(defs, st, origin, Apply(attrs, [op]))
  {
    hide Prefixed;
    assert [op][..0] == [];
  }

  lemma Extends(prefix: string, key: string)
    ensures prefix <= prefix + key && (prefix + key)[|prefix|..] == key
  {
  }

  /** A record under one prefix, and the removal of one, on both sides. */
  lemma BothSides(own: map<string, string>, other: map<string, string>, prefix: string, otherPrefix: string,
                  attrs: Attributes, key: string, text: string)
    requires Holds(own, prefix, attrs) && Holds(other, otherPrefix, attrs) && !(otherPrefix <= prefix + key)
    ensures var filed := Apply(attrs, [SetAttribute(prefix + key, String(text))]);
      Holds(own[key := text], prefix, filed) && Holds(other, otherPrefix, filed)
    ensures var removed := Apply(attrs, [RemoveAttribute(prefix + key)]);
      Holds(own - {key}, prefix, removed) && Holds(other, otherPrefix, removed)
  {
    hide Holds;
    assert [SetAttribute(prefix + key, String(text))][..0] == [];
    assert [RemoveAttribute(prefix + key)][..0] == [];
    HoldsUnder(own, prefix, attrs, key, String(text));
    HoldsElsewhere(other, otherPrefix, attrs, prefix + key, String(text));
  }

  lemma RecordPrefixed(prefix: string, key: string)
    requires prefix == BIND || prefix == ALIAS
    ensures Prefixed(prefix + key)
  {
    Extends(prefix, key);
  }

  lemma QueuedOneMore(defs: Registry, base: seq<HookCall>, st: StoreState, effects: seq<CommandEffect>,
                      after: StoreState, effect: CommandEffect)
    requires Queued(defs, base, st, effects) && after.deferring
    requires after.pending == st.pending + match effect
             case ConVarUpdated(name, b, a, _) => CallsOf(defs, name, b, a)
             case _ => []
    ensures Queued(defs, base, after, effects + [effect])
  {
    hide CallsOf;
    assert (effects + [effect])[..|effects|] == effects;
  }

  // ----- Every step, every run -----------------------------------------------

  lemma ExecutedKeepsMirror(defs: Registry, m: Machine, command: Command, attrs: Attributes)
    requires PlainNames(defs) && Mirrors(defs, m, attrs) && Executed(defs, m, command).Ok?
    ensures var step := Executed(defs, m, command).value;
      Mirrors(defs, step.machine, Apply(attrs, OpOf(step.effect)))
  {
    hide Assign, NextValue, Mirrors, Holds, PlainNames;
    match command {
      case SetConVar(name, value) => AssignKeepsMirror(defs, m, name, value, attrs);
      case Toggle(name, values) =>
        AssignKeepsMirror(defs, m, name, NextValue(defs, name, m.store.Get(name).value, values).value, attrs);
      case Custom(name, args) => AssignKeepsMirror(defs, m, name, Join(args, " "), attrs);
      case Bind(key, text) => RecordMirrored(defs, m, attrs, BIND, key, text);
      case Unbind(key) => RecordMirrored(defs, m, attrs, BIND, key, "");
      case Alias(name, text) => RecordMirrored(defs, m, attrs, ALIAS, name, text);
      case Unalias(name) => RecordMirrored(defs, m, attrs, ALIAS, name, "");
      case _ =>
    }
  }

  lemma RecordMirrored(defs: Registry, m: Machine, attrs: Attributes, prefix: string, key: string, text: string)
    requires PlainNames(defs) && Mirrors(defs, m, attrs) && (prefix == BIND || prefix == ALIAS)
    ensures Mirrors(defs, Filed(m, prefix, key, text), Apply(attrs, [SetAttribute(prefix + key, String(text))]))
    ensures Mirrors(defs, Unfiled(m, prefix, key), Apply(attrs, [RemoveAttribute(prefix + key)]))
  {
    MirrorsNames(defs, m, attrs);
    hide Mirrors, Holds, Apply, PlainNames;
    RecordPrefixed(prefix, key);
    Extends(prefix, key);
    NeverBoth(prefix + key);
    if prefix == BIND {
      BothSides(m.binds, m.aliases, BIND, ALIAS, attrs, key, text);
    } else {
      BothSides(m.aliases, m.binds, ALIAS, BIND, attrs, key, text);
    }
    BindIsNotAlias();
    RecordKeepsMirror(defs, m, Filed(m, prefix, key, text), SetAttribute(prefix + key, String(text)), attrs);
    RecordKeepsMirror(defs, m, Unfiled(m, prefix, key), RemoveAttribute(prefix + key), attrs);
  }

  function Filed(m: Machine, prefix: string, key: string, text: string): Machine {
    if prefix == BIND then m.(binds := m.binds[key := text]) else m.(aliases := m.aliases[key := text])
  }

  function Unfiled(m: Machine, prefix: string, key: string): Machine {
    if prefix == BIND then m.(binds := m.binds - {key}) else m.(aliases := m.aliases - {key})
  }

  lemma BindIsNotAlias()
    ensures BIND != ALIAS
  {
    assert BIND[0] != ALIAS[0];
  }

  lemma MirrorsNames(defs: Registry, m: Machine, attrs: Attributes)
    requires Mirrors(defs, m, attrs)
    ensures Holds(m.binds, BIND, attrs) && Holds(m.aliases, ALIAS, attrs)
  {
  }

  lemma ExecutedKeepsDirty(defs: Registry, m: Machine, command: Command, origin: Attributes, attrs: Attributes)
    requires PlainNames(defs) && DirtyTracked(defs, m.store, origin, attrs) && Executed(defs, m, command).Ok?
    ensures var step := Executed(defs, m, command).value;
      DirtyTracked(defs, step.machine.store, origin, Apply(attrs, OpOf(step.effect)))
  {
    hide Assign, NextValue, DirtyTracked, PlainNames;
    match command {
      case SetConVar(name, value) => AssignKeepsDirty(defs, m, name, value, origin, attrs);
      case Toggle(name, values) =>
        AssignKeepsDirty(defs, m, name, NextValue(defs, name, m.store.Get(name).value, values).value, origin, attrs);
      case Custom(name, args) => AssignKeepsDirty(defs, m, name, Join(args, " "), origin, attrs);
      case Bind(key, text) => RecordDirtied(defs, m.store, origin, attrs, BIND, key, text);
      case Unbind(key) => RecordDirtied(defs, m.store, origin, attrs, BIND, key, "");
      case Alias(name, text) => RecordDirtied(defs, m.store, origin, attrs, ALIAS, name, text);
      case Unalias(name) => RecordDirtied(defs, m.store, origin, attrs, ALIAS, name, "");
      case _ =>
    }
  }

  lemma RecordDirtied(defs: Registry, st: StoreState, origin: Attributes, attrs: Attributes,
                      prefix: string, key: string, text: string)
    requires DirtyTracked(defs, st, origin, attrs) && (prefix == BIND || prefix == ALIAS)
    ensures DirtyTracked(defs, st, origin, Apply(attrs, [SetAttribute(prefix + key, String(text))]))
    ensures DirtyTracked(defs, st, origin, Apply(attrs, [RemoveAttribute(prefix + key)]))
  {
    hide DirtyTracked, Apply;
    RecordPrefixed(prefix, key);
    RecordKeepsDirty(defs, st, origin, attrs, SetAttribute(prefix + key, String(text)));
    RecordKeepsDirty(defs, st, origin, attrs, RemoveAttribute(prefix + key));
  }

  function EffectCalls(defs: Registry, effect: CommandEffect): seq<HookCall> {
    match effect
    case ConVarUpdated(name, before, after, _) => CallsOf(defs, name, before, after)
    case _ => []
  }

  /** Inside a transaction a command queues exactly the call its effect accounts for. */
  lemma ExecutedQueues(defs: Registry, m: Machine, command: Command)
    requires m.store.deferring && Executed(defs, m, command).Ok?
    ensures var step := Executed(defs, m, command).value;
      && step.machine.store.deferring
      && step.machine.store.pending == m.store.pending + EffectCalls(defs, step.effect)
  {
    hide Accepts, NextValue, CallsOf, StoreState.Get, Join;
  }

  /** Writes go to declared names only. */
  lemma ExecutedKeepsUndeclared(defs: Registry, m: Machine, command: Command, before: map<string, TypedValue>)
    requires UndeclaredKept(defs, before, m.store.values) && Executed(defs, m, command).Ok?
    ensures UndeclaredKept(defs, before, Executed(defs, m, command).value.machine.store.values)
  {
    hide Accepts, NextValue, CallsOf, StoreState.Get, Join;
  }

  /** One command keeps the run on track. */
  lemma CommandKeepsTrack(s: Setting, o: Origin, command: Command, p: Progress)
    requires OnTrack(s, o, p) && Executed(s.defs, p.machine, command).Ok?
    ensures var step := Executed(s.defs, p.machine, command).value;
      OnTrack(s, o, p.(machine := step.machine, effects := p.effects + [step.effect]))
  {
    hide Executed, Mirrors, DirtyTracked, Journaled, OpOf, HookCalls, CallsOf, PlainNames, UndeclaredKept;
    var step := Executed(s.defs, p.machine, command).value;
    if o.hydrated {
      ExecutedKeepsMirror(s.defs, p.machine, command, Journaled(o.attrs, p.effects));
      ExecutedKeepsDirty(s.defs, p.machine, command, o.attrs, Journaled(o.attrs, p.effects));
    }
    ExecutedKeepsUndeclared(s.defs, p.machine, command, o.values);
    ExecutedQueues(s.defs, p.machine, command);
    JournaledOneMore(o.attrs, p.effects, step.effect);
    QueuedOneMore(s.defs, o.pending, p.machine.store, p.effects, step.machine.store, step.effect);
  }

  lemma ExecNotedKeepsTrack(s: Setting, o: Origin, path: string, p: Progress)
    requires OnTrack(s, o, p)
    ensures OnTrack(s, o, p.(effects := p.effects + [ExecRequested(path)]))
  {
    hide Mirrors, DirtyTracked, HookCalls, CallsOf, PlainNames, UndeclaredKept;
    JournaledOneMore(o.attrs, p.effects, ExecRequested(path));
    hide Journaled;
    assert p.machine.store.pending + [] == p.machine.store.pending;
    QueuedOneMore(s.defs, o.pending, p.machine.store, p.effects, p.machine.store, ExecRequested(path));
  }

  lemma {:induction false} RunKeepsTrack(
    s: Setting, o: Origin, script: string, depth: nat, p: Progress)
    requires OnTrack(s, o, p) && RunScript(s, script, depth, p).Ok?
    ensures OnTrack(s, o, RunScript(s, script, depth, p).value)
    decreases Nesting(s, depth), 4, 0
  {
    hide OnTrack, RunStatements, Statements, PlainNames;
    StatementsKeepTrack(s, o, Statements(script), depth, p);
  }

  lemma {:induction false} StatementsKeepTrack(
    s: Setting, o: Origin, statements: seq<string>, depth: nat, p: Progress)
    requires OnTrack(s, o, p) && RunStatements(s, statements, depth, p).Ok?
    ensures OnTrack(s, o, RunStatements(s, statements, depth, p).value)
    decreases Nesting(s, depth), 3, |statements|
  {
    hide OnTrack, RunStatement, PlainNames;
    if statements != [] {
      var init, last := statements[..|statements| - 1], statements[|statements| - 1];
      StatementsKeepTrack(s, o, init, depth, p);
      StatementKeepsTrack(s, o, last, depth, RunStatements(s, init, depth, p).value);
    }
  }

  lemma {:induction false} StatementKeepsTrack(
    s: Setting, o: Origin, statement: string, depth: nat, p: Progress)
    requires OnTrack(s, o, p) && RunStatement(s, statement, depth, p).Ok?
    ensures OnTrack(s, o, RunStatement(s, statement, depth, p).value)
    decreases Nesting(s, depth), 2, 0
  {
    hide Mirrors, DirtyTracked, Queued, UndeclaredKept, Journaled, Expand, RunCommands, PlainNames;
    ExpandedWithinBudget(BookOf(s, p.machine), statement, depth, [], p.bytes);
    var x := Expand(BookOf(s, p.machine), statement, depth, [], p.bytes).value;
    CommandsKeepTrack(s, o, x.commands, depth, p.(bytes := x.bytes));
  }

  lemma {:induction false} CommandsKeepTrack(
    s: Setting, o: Origin, commands: seq<Command>, depth: nat, p: Progress)
    requires OnTrack(s, o, p) && RunCommands(s, commands, depth, p).Ok?
    ensures OnTrack(s, o, RunCommands(s, commands, depth, p).value)
    decreases Nesting(s, depth), 1, |commands|
  {
    hide OnTrack, RunCommand, PlainNames;
    if commands != [] {
      var init, last := commands[..|commands| - 1], commands[|commands| - 1];
      CommandsKeepTrack(s, o, init, depth, p);
      OneKeepsTrack(s, o, last, depth, RunCommands(s, init, depth, p).value);
    }
  }

  lemma {:induction false} OneKeepsTrack(
    s: Setting, o: Origin, command: Command, depth: nat, p: Progress)
    requires OnTrack(s, o, p) && RunCommand(s, command, depth, p).Ok?
    ensures OnTrack(s, o, RunCommand(s, command, depth, p).value)
    decreases Nesting(s, depth), 0, 0
  {
    hide OnTrack, RunScript, Executed, PlainNames;
    if command.Exec? {
      var source := s.load(p.loads, command.path).value;
      var q := p.(loads := p.loads + 1);
      assert OnTrack(s, o, q) by { LoadKeepsTrack(s, o, p); }
      RunKeepsTrack(s, o, source, depth + 1, q);
      ExecNotedKeepsTrack(s, o, command.path, RunScript(s, source, depth + 1, q).value);
    } else {
      CommandKeepsTrack(s, o, command, p);
    }
  }

  lemma LoadKeepsTrack(s: Setting, o: Origin, p: Progress)
    requires OnTrack(s, o, p)
    ensures OnTrack(s, o, p.(loads := p.loads + 1))
  {
    hide Mirrors, DirtyTracked, Queued, UndeclaredKept, Journaled;
  }

  // ----- Main results --------------------------------------------------------

  /** A machine just hydrated from a document. */
  ghost predicate ReadFrom(defs: Registry, st: StoreState, attrs: Attributes, m: Machine) {
    m.store == Hydrated(defs, st, attrs) && Holds(m.binds, BIND, attrs) && Holds(m.aliases, ALIAS, attrs)
  }

  function Start(m: Machine): Progress {
    Progress(Opened(m), 0, 0, [])
  }

  lemma HydratedIsOnTrack(s: Setting, st: StoreState, attrs: Attributes, m: Machine) returns (o: Origin)
    requires PlainNames(s.defs) && ReadFrom(s.defs, st, attrs, m)
    ensures o.attrs == attrs && o.values == st.values && o.hydrated
    ensures OnTrack(s, o, Start(m))
  {
    hide Holds, Truthy, Recorded;
    o := Origin(attrs, st.values, [], true);
  }

  /** What a run from a hydrated machine ends with. */
  lemma HydratedRun(s: Setting, st: StoreState, attrs: Attributes, m: Machine, script: string) returns (q: Progress)
    requires PlainNames(s.defs) && ReadFrom(s.defs, st, attrs, m) && Attempt(s, script, m).Ok?
    ensures q == Attempt(s, script, m).value
    ensures Mirrors(s.defs, q.machine, Apply(attrs, OpsOf(q.effects)))
    ensures DirtyTracked(s.defs, q.machine.store, attrs, Apply(attrs, OpsOf(q.effects)))
    ensures UndeclaredKept(s.defs, st.values, q.machine.store.values)
  {
    hide RunScript, ReadFrom, Mirrors, DirtyTracked, Queued, PlainNames, OpsOf, Apply, UndeclaredKept;
    var o := HydratedIsOnTrack(s, st, attrs, m);
    RunKeepsTrack(s, o, script, 0, Start(m));
    q := Attempt(s, script, m).value;
  }

  /** `sv_cheats` is saved if it can be written at all. */
  predicate CheatsSaved(defs: Registry) {
    CHEATS in defs ==> defs[CHEATS].session
  }

  /**
   Journal and memory commute: hydrate from a document, run any script that
   succeeds, and append the patch of its effects; a fresh machine hydrated from
   the result has the session variables, binds, aliases and, if `sv_cheats` is
   saved, the cheats flag held in memory.
   */
  lemma JournalCommutes(s: Setting, st: StoreState, attrs: Attributes, m: Machine, script: string, again: Machine)
    requires PlainNames(s.defs) && ReadFrom(s.defs, st, attrs, m) && Attempt(s, script, m).Ok?
    requires ReadFrom(s.defs, st, Apply(attrs, OpsOf(Attempt(s, script, m).value.effects)), again)
    ensures var held := Attempt(s, script, m).value.machine;
      && (forall name :: name in s.defs && s.defs[name].session ==>
            name in held.store.values && again.store.values[name] == held.store.values[name])
      && again.binds == held.binds
      && again.aliases == held.aliases
      && (CheatsSaved(s.defs) ==> again.store.cheats == held.store.cheats)
  {
    hide RunScript, Holds, Truthy, DirtyTracked, Queued, PlainNames, OpsOf, Apply;
    var q := HydratedRun(s, st, attrs, m, script);
    var after := Apply(attrs, OpsOf(q.effects));
    HoldsIsUnique(again.binds, q.machine.binds, BIND, after);
    HoldsIsUnique(again.aliases, q.machine.aliases, ALIAS, after);
  }

  /** Hydrating the very store the script ran on changes none of its values and not the cheats flag. */
  lemma RehydrationIsIdle(s: Setting, st: StoreState, attrs: Attributes, m: Machine, script: string)
    requires PlainNames(s.defs) && ReadFrom(s.defs, st, attrs, m) && Attempt(s, script, m).Ok?
    ensures var q := Attempt(s, script, m).value;
      var again := Hydrated(s.defs, q.machine.store, Apply(attrs, OpsOf(q.effects)));
      again.values == q.machine.store.values && again.cheats == q.machine.store.cheats
  {
    hide RunScript, Holds, Truthy, DirtyTracked, Queued, PlainNames, OpsOf, Apply, Recorded;
    var q := HydratedRun(s, st, attrs, m, script);
    assert Hydrated(s.defs, q.machine.store, Apply(attrs, OpsOf(q.effects))).values == q.machine.store.values;
  }

  /**
   Writing one operation per dirty variable has the same effect on every
   variable name as the full log of effects.
   */
  lemma DrainEqualsLog(s: Setting, st: StoreState, attrs: Attributes, m: Machine, script: string, name: string)
    requires PlainNames(s.defs) && ReadFrom(s.defs, st, attrs, m) && Attempt(s, script, m).Ok? && !Prefixed(name)
    ensures var q := Attempt(s, script, m).value;
      var drained, logged := attrs + DirtyValues(q.machine.store), Apply(attrs, OpsOf(q.effects));
      (name in drained <==> name in logged) && (name in logged ==> drained[name] == logged[name])
  {
    hide RunScript, Holds, Truthy, Mirrors, Queued, PlainNames, OpsOf, Apply, Prefixed;
    var q := HydratedRun(s, st, attrs, m, script);
  }

  /**
   From any machine, a successful run leaves one more waiting hook call per
   change of a hooked variable, in the order of the changes, and the whole run,
   aliases and nested files included, was charged at most the byte limit.
   */
  lemma HooksFollowChanges(s: Setting, m: Machine, script: string)
    requires Attempt(s, script, m).Ok?
    ensures var q := Attempt(s, script, m).value;
      && q.machine.store.pending == Opened(m).store.pending + HookCalls(s.defs, q.effects)
      && q.bytes <= s.limits.maxBytes
  {
    hide RunScript, Mirrors, DirtyTracked, PlainNames, HookCalls, UndeclaredKept;
    var o := Origin(map[], m.store.values, Opened(m).store.pending, false);
    assert UndeclaredKept(s.defs, o.values, m.store.values) by { NothingWritten(s.defs, m.store.values); }
    assert HookCalls(s.defs, []) == [] by { NoCalls(s.defs); }
    RunKeepsTrack(s, o, script, 0, Start(m));
  }

  lemma NothingWritten(defs: Registry, values: map<string, TypedValue>)
    ensures UndeclaredKept(defs, values, values)
  {
  }

  lemma NoCalls(defs: Registry)
    ensures HookCalls(defs, []) == []
  {
  }

  // ----- Why the conditions are there ----------------------------------------

  function TextVariable(session: bool): Definition {
    Definition(Null, session, false, false, None, (raw: string) => Ok(String(raw)), None, None)
  }

  /** A session variable named like a bind is read back as one. */
  lemma PrefixedNameLeaks(st: StoreState, m: Machine, again: Machine)
    requires ReadFrom(map["bind:k" := TextVariable(true)], st, map[], m)
    requires var defs: Registry := map["bind:k" := TextVariable(true)];
      ReadFrom(defs, st, Apply(map[], [SetAttribute("bind:k", String("x"))]), again)
    ensures var step := Executed(map["bind:k" := TextVariable(true)], m, SetConVar("bind:k", "x"));
      && step.Ok? && OpOf(step.value.effect) == [SetAttribute("bind:k", String("x"))]
      && step.value.machine.binds == map[] && again.binds == map["k" := "x"]
  {
    hide Holds, Truthy;
    var op := SetAttribute("bind:k", String("x"));
    assert [op][..0] == [];
    assert BIND + "k" == "bind:k";
    HoldsNothing(BIND);
    HoldsUnder(map[], BIND, map[], "k", String("x"));
    HoldsIsUnique(m.binds, map[], BIND, map[]);
    HoldsIsUnique(again.binds, map["k" := "x"], BIND, Apply(map[], [op]));
  }

  /** An unsaved `sv_cheats` is forgotten by the document. */
  lemma UnsavedCheatsForgotten(st: StoreState, m: Machine)
    requires CHEATS !in st.values && ReadFrom(map[CHEATS := TextVariable(false)], st, map[], m)
    ensures var defs: Registry := map[CHEATS := TextVariable(false)];
      var step := Executed(defs, m, SetConVar(CHEATS, "on"));
      && step.Ok? && step.value.machine.store.cheats
      && !Hydrated(defs, st, Apply(map[], OpOf(step.value.effect))).cheats
  {
    hide Holds;
    assert AsciiLower("on") == "on";
  }
}
