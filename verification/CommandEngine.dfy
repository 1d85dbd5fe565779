/**
 The command engine: running scripts against the variable store, all or
 nothing, with nested `exec`. What a run does is described by functions over the
 machine's state, from one command up to whole scripts; the engine's methods
 follow them step by step, and binds and aliases are read back from the document
 by their prefixes.
 */
module CommandEngine {
  import opened Wrappers
  import opened Text
  import opened Dom
  import opened CommandText
  import opened AliasExpansion
  import opened ConVars

  datatype CommandEffect =
    | ConVarUpdated(name: string, before: TypedValue, after: TypedValue, session: bool)
    | ConVarQueried(name: string, value: TypedValue)
    | Bound(key: string, command: string)
    | Unbound(key: string)
    | Aliased(name: string, command: string)
    | Unaliased(name: string)
    | ExecRequested(path: string)
    | Output(message: string)
    | ForcePushed(tool: string, reminder: string, maxAttempts: nat)
    | HostRequested(request: string)

  /** Everything a script can change. */
  datatype Machine = Machine(store: StoreState, binds: map<string, string>, aliases: map<string, string>)

  datatype Step = Step(machine: Machine, effect: CommandEffect)

  /** The text of the n-th configuration file a script asks for. */
  type Loader = (nat, string) -> Result<string, CommandError>

  /** What running a script depends on besides the machine. */
  datatype Setting = Setting(defs: Registry, limits: Limits, host: HostParser, load: Loader)

  // ----- One command ---------------------------------------------------------

  function Failed(e: ConVarError): Result<Step, CommandError> {
    Err(ConVar(e))
  }

  /** Writes a variable from text. */
  function Assign(defs: Registry, m: Machine, name: string, raw: string): Result<Step, CommandError> {
    match Accepts(defs, m.store.cheats, name, raw)
    case Err(e) => Failed(e)
    case Ok(value) =>
      var before := m.store.Get(name).GetOr(Null);
      Ok(Step(m.(store := Written(defs, m.store, name, value)),
              ConVarUpdated(name, before, value, defs[name].session)))
  }

  datatype TriState = No | Yes | Unknown

  function ParseTriState(s: string): Option<TriState> {
    var word := AsciiLower(Trim(s));
    if TruthyWord(word) then Some(Yes)
    else if word == "0" || word == "false" || word == "no" || word == "off" then Some(No)
    else if word in {"unknown", "auto", "default", "?", "null", "none"} then Some(Unknown)
    else None
  }

  /** The text a toggle without explicit values writes next. */
  function Flipped(current: TypedValue): Option<string> {
    match current
    case Bool(b) => Some(if b then "false" else "true")
    case Integer(i) => Some(if i == 0 then "1" else "0")
    case String(s) =>
      (match ParseTriState(s)
       case Some(Yes) => Some("0")
       case Some(_) => Some("1")
       case None => None)
    case Null => Some("1")
    case _ => None
  }

  function TypedOf(def: Definition, name: string, raw: string): Result<TypedValue, ConVarError> {
    if def.parser.None? then Ok(String(raw))
    else
      match def.parser.value(raw)
      case Ok(value) => Ok(value)
      case Err(reason) => Err(InvalidValue(name, reason))
  }

  /** The typed forms of all values, or the error of the first that has none. */
  function TypedAll(def: Definition, name: string, values: seq<string>): Result<seq<TypedValue>, ConVarError> {
    if values == [] then Ok([])
    else
      match TypedOf(def, name, values[0])
      case Err(e) => Err(e)
      case Ok(first) =>
        match TypedAll(def, name, values[1..])
        case Err(e) => Err(e)
        case Ok(rest) => Ok([first] + rest)
  }

  function Position(values: seq<TypedValue>, v: TypedValue): (i: nat)
    ensures i <= |values|
    ensures i < |values| ==> values[i] == v
    ensures forall j :: 0 <= j < i ==> values[j] != v
  {
    if values == [] then 0 else if values[0] == v then 0 else 1 + Position(values[1..], v)
  }

  /** The value after the current one, going round; the first when the current one is not listed. */
  function Following(defs: Registry, name: string, current: TypedValue, values: seq<string>): Result<string, ConVarError>
    requires values != []
  {
    if name !in defs then Err(NotFound(name))
    else
      match TypedAll(defs[name], name, values)
      case Err(e) => Err(e)
      case Ok(typed) =>
        var found := Position(typed, current);
        var at := if found < |typed| then found else |values| - 1;
        Ok(values[(at + 1) % |values|])
  }

  lemma {:induction false} TypedAllLength(def: Definition, name: string, values: seq<string>)
    requires TypedAll(def, name, values).Ok?
    ensures |TypedAll(def, name, values).value| == |values|
  {
    if values != [] {
      TypedAllLength(def, name, values[1..]);
    }
  }

  lemma PositionIs(values: seq<TypedValue>, v: TypedValue, i: nat)
    requires i < |values| && values[i] == v && forall j :: 0 <= j < i ==> values[j] != v
    ensures Position(values, v) == i
  {
    hide Position;
    assert Position(values, v) >= i;
  }

  /** From a listed value toggling goes to the next one, and from the last to the first. */
  lemma ToggleGoesRound(defs: Registry, name: string, values: seq<string>, typed: seq<TypedValue>, i: nat)
    requires name in defs && TypedAll(defs[name], name, values) == Ok(typed)
    requires i < |typed| && forall j :: 0 <= j < i ==> typed[j] != typed[i]
    ensures |values| == |typed|
    ensures Following(defs, name, typed[i], values) == Ok(if i + 1 < |values| then values[i + 1] else values[0])
  {
    TypedAllLength(defs[name], name, values);
    hide TypedAll, TypedOf, Position;
    PositionIs(typed, typed[i], i);
    Round(i, |values|);
  }

  /** From any other value it goes to the first. */
  lemma ToggleComesIn(defs: Registry, name: string, current: TypedValue, values: seq<string>, typed: seq<TypedValue>)
    requires values != [] && name in defs && TypedAll(defs[name], name, values) == Ok(typed) && current !in typed
    ensures Following(defs, name, current, values) == Ok(values[0])
  {
    TypedAllLength(defs[name], name, values);
    hide TypedAll, TypedOf, Position;
    assert Position(typed, current) == |typed|;
    Round(|values| - 1, |values|);
  }

  lemma Round(i: nat, n: nat)
    requires i < n
    ensures (i + 1) % n == if i + 1 < n then i + 1 else 0
  {
  }

  function NextValue(defs: Registry, name: string, current: TypedValue, values: seq<string>): Result<string, ConVarError> {
    if values != [] then Following(defs, name, current, values)
    else
      match Flipped(current)
      case Some(next) => Ok(next)
      case None => Err(InvalidValue(name, "needs explicit values"))
  }

  function ToggleStep(defs: Registry, m: Machine, name: string, values: seq<string>): Result<Step, CommandError> {
    match m.store.Get(name)
    case None => Failed(NotFound(name))
    case Some(current) =>
      match NextValue(defs, name, current, values)
      case Err(e) => Failed(e)
      case Ok(next) => Assign(defs, m, name, next)
  }

  function ForceEffect(command: Command): CommandEffect
    requires command.Force?
  {
    ForcePushed(command.tool, command.reminder.GetOr("invoke tool " + command.tool), command.maxAttempts.GetOr(3))
  }

  function Executed(defs: Registry, m: Machine, command: Command): Result<Step, CommandError> {
    match command
    case SetConVar(name, value) => Assign(defs, m, name, value)
    case GetConVar(name) =>
      (match m.store.Get(name)
       case None => Failed(NotFound(name))
       case Some(value) => Ok(Step(m, ConVarQueried(name, value))))
    case Bind(key, text) => Ok(Step(m.(binds := m.binds[key := text]), Bound(key, text)))
    case Unbind(key) => Ok(Step(m.(binds := m.binds - {key}), Unbound(key)))
    case Toggle(name, values) => ToggleStep(defs, m, name, values)
    case Alias(name, text) => Ok(Step(m.(aliases := m.aliases[name := text]), Aliased(name, text)))
    case Unalias(name) => Ok(Step(m.(aliases := m.aliases - {name}), Unaliased(name)))
    case Exec(path) => Ok(Step(m, ExecRequested(path)))
    case Echo(message) => Ok(Step(m, Output(message)))
    case Force(_, _, _) => Ok(Step(m, ForceEffect(command)))
    case Host(request) => Ok(Step(m, HostRequested(request)))
    case Custom(name, args) =>
      if name in defs then Assign(defs, m, name, Join(args, " ")) else Err(UnknownCommand(name))
  }

  // ----- Scripts -------------------------------------------------------------

  /** How far a run has come. */
  datatype Progress = Progress(machine: Machine, bytes: nat, loads: nat, effects: seq<CommandEffect>)

  function Nesting(s: Setting, depth: nat): nat {
    if depth > s.limits.maxDepth then 0 else s.limits.maxDepth + 1 - depth
  }

  function RunScript(s: Setting, script: string, depth: nat, p: Progress): Result<Progress, CommandError>
    decreases Nesting(s, depth), 4, 0
  {
    RunStatements(s, Statements(script), depth, p)
  }

  function RunStatements(s: Setting, statements: seq<string>, depth: nat, p: Progress): Result<Progress, CommandError>
    decreases Nesting(s, depth), 3, |statements|
  {
    if statements == [] then Ok(p)
    else
      match RunStatements(s, statements[..|statements| - 1], depth, p)
      case Err(e) => Err(e)
      case Ok(q) => RunStatement(s, statements[|statements| - 1], depth, q)
  }

  function BookOf(s: Setting, m: Machine): Book {
    Book(m.aliases, s.limits, s.host)
  }

  function RunStatement(s: Setting, statement: string, depth: nat, p: Progress): Result<Progress, CommandError>
    decreases Nesting(s, depth), 2, 0
  {
    match Expand(BookOf(s, p.machine), statement, depth, [], p.bytes)
    case Err(e) => Err(e)
    case Ok(x) => RunCommands(s, x.commands, depth, p.(bytes := x.bytes))
  }

  function RunCommands(s: Setting, commands: seq<Command>, depth: nat, p: Progress): Result<Progress, CommandError>
    decreases Nesting(s, depth), 1, |commands|
  {
    if commands == [] then Ok(p)
    else
      match RunCommands(s, commands[..|commands| - 1], depth, p)
      case Err(e) => Err(e)
      case Ok(q) => RunCommand(s, commands[|commands| - 1], depth, q)
  }

  function RunCommand(s: Setting, command: Command, depth: nat, p: Progress): Result<Progress, CommandError>
    decreases Nesting(s, depth), 0, 0
  {
    if command.Exec? then
      if depth >= s.limits.maxDepth then Err(RecursionLimit(command.path, depth))
      else
        match s.load(p.loads, command.path)
        case Err(e) => Err(e)
        case Ok(source) =>
          match RunScript(s, source, depth + 1, p.(loads := p.loads + 1))
          case Err(e) => Err(e)
          case Ok(q) => Ok(q.(effects := q.effects + [ExecRequested(command.path)]))
    else
      match Executed(s.defs, p.machine, command)
      case Err(e) => Err(e)
      case Ok(step) => Ok(p.(machine := step.machine, effects := p.effects + [step.effect]))
  }

  lemma {:induction false} StatementsStopAtError(s: Setting, statements: seq<string>, depth: nat, p: Progress, k: nat)
    requires k <= |statements| && RunStatements(s, statements[..k], depth, p).Err?
    ensures RunStatements(s, statements, depth, p) == RunStatements(s, statements[..k], depth, p)
  {
    hide RunStatement;
    if k == |statements| {
      assert statements[..k] == statements;
    } else {
      var shorter := statements[..|statements| - 1];
      assert shorter[..k] == statements[..k];
      StatementsStopAtError(s, shorter, depth, p, k);
    }
  }

  lemma {:induction false} CommandsStopAtError(s: Setting, commands: seq<Command>, depth: nat, p: Progress, k: nat)
    requires k <= |commands| && RunCommands(s, commands[..k], depth, p).Err?
    ensures RunCommands(s, commands, depth, p) == RunCommands(s, commands[..k], depth, p)
  {
    hide RunCommand;
    if k == |commands| {
      assert commands[..k] == commands;
    } else {
      var shorter := commands[..|commands| - 1];
      assert shorter[..k] == commands[..k];
      CommandsStopAtError(s, shorter, depth, p, k);
    }
  }

  // ----- Binds and aliases in the document -----------------------------------

  const BIND := "bind:"
  const ALIAS := "alias:"

  /** The text a document holds under a name. */
  function TextAt(attrs: Attributes, name: string): Option<string> {
    if name in attrs && attrs[name].String? then Some(attrs[name].s) else None
  }

  /** The entries are exactly the texts the document holds under the prefix. */
  ghost predicate Holds(entries: map<string, string>, prefix: string, attrs: Attributes) {
    forall key {:trigger TextAt(attrs, prefix + key)} ::
      TextAt(attrs, prefix + key) == if key in entries then Some(entries[key]) else None
  }

  /** There is only one such map. */
  lemma HoldsIsUnique(a: map<string, string>, b: map<string, string>, prefix: string, attrs: Attributes)
    requires Holds(a, prefix, attrs) && Holds(b, prefix, attrs)
    ensures a == b
  {
    hide TextAt;
    forall key
      ensures key in a <==> key in b
      ensures key in a ==> a[key] == b[key]
    {
      assert TextAt(attrs, prefix + key) == TextAt(attrs, prefix + key);
    }
  }

  /** A name without the prefix is none of its entries. */
  lemma HoldsElsewhere(entries: map<string, string>, prefix: string, attrs: Attributes, name: string, value: TypedValue)
    requires Holds(entries, prefix, attrs) && !(prefix <= name)
    ensures Holds(entries, prefix, attrs[name := value])
    ensures Holds(entries, prefix, attrs - {name})
  {
    forall key: string
      ensures TextAt(attrs[name := value], prefix + key) == TextAt(attrs, prefix + key)
      ensures TextAt(attrs - {name}, prefix + key) == TextAt(attrs, prefix + key)
    {
      assert prefix <= prefix + key;
    }
  }

  lemma PrefixCancels(prefix: string, a: string, b: string)
    ensures prefix + a == prefix + b <==> a == b
  {
    assert (prefix + a)[|prefix|..] == a && (prefix + b)[|prefix|..] == b;
  }

  /** Writing a name under the prefix records its text, or removes the entry if it is not text. */
  lemma HoldsUnder(entries: map<string, string>, prefix: string, attrs: Attributes, key: string, value: TypedValue)
    requires Holds(entries, prefix, attrs)
    ensures Holds(if value.String? then entries[key := value.s] else entries - {key}, prefix, attrs[prefix + key := value])
    ensures Holds(entries - {key}, prefix, attrs - {prefix + key})
  {
    var after := if value.String? then entries[key := value.s] else entries - {key};
    forall other: string
      ensures TextAt(attrs[prefix + key := value], prefix + other) == if other in after then Some(after[other]) else None
      ensures TextAt(attrs - {prefix + key}, prefix + other) ==
              if other in entries - {key} then Some((entries - {key})[other]) else None
    {
      PrefixCancels(prefix, other, key);
      assert TextAt(attrs, prefix + other) == if other in entries then Some(entries[other]) else None;
    }
  }

  lemma NeverBoth(name: string)
    ensures !(BIND <= name && ALIAS <= name)
  {
    assert BIND[0] != ALIAS[0];
  }

  // ----- The engine ----------------------------------------------------------

  class Engine {
    var binds: map<string, string>
    var aliases: map<string, string>
    const limits: Limits
    const host: HostParser

    constructor (host: HostParser)
      ensures binds == map[] && aliases == map[] && limits == DEFAULT_LIMITS && this.host == host
    {
      binds, aliases := map[], map[];
      limits, this.host := DEFAULT_LIMITS, host;
    }

    constructor WithLimits(limits: Limits, host: HostParser)
      ensures binds == map[] && aliases == map[] && this.limits == limits && this.host == host
    {
      binds, aliases := map[], map[];
      this.limits, this.host := limits, host;
    }

    function MachineOf(convars: ConVarStore): Machine
      reads this, convars
    {
      Machine(convars.State(), binds, aliases)
    }

    function SettingOf(convars: ConVarStore, load: Loader): Setting
      reads convars
    {
      Setting(convars.definitions, limits, host, load)
    }

    /** Reads the binds and aliases the document records. */
    method HydrateFromDom(globals: Attributes)
      modifies this
      ensures Holds(binds, BIND, globals) && Holds(aliases, ALIAS, globals)
    {
      hide Holds;
      binds, aliases := map[], map[];
      var todo := globals.Keys;
      ghost var read: Attributes := map[];
      HoldsNothing(BIND);
      HoldsNothing(ALIAS);
      while todo != {}
        invariant todo + read.Keys == globals.Keys && todo !! read.Keys
        invariant forall name :: name in read ==> read[name] == globals[name]
        invariant Holds(binds, BIND, read) && Holds(aliases, ALIAS, read)
        decreases todo
      {
        var name :| name in todo;
        var value := globals[name];
        HoldsAdded(binds, BIND, read, name, value);
        HoldsAdded(aliases, ALIAS, read, name, value);
        NeverBoth(name);
        if value.String? {
          if BIND <= name {
            binds := binds[name[|BIND|..] := value.s];
          } else if ALIAS <= name {
            aliases := aliases[name[|ALIAS|..] := value.s];
          }
        }
        todo, read := todo - {name}, read[name := value];
      }
      assert read == globals;
    }

    /** Runs one command; a transaction is open, so hooks wait. */
    method ExecuteOne(command: Command, convars: ConVarStore) returns (result: Result<CommandEffect, CommandError>)
      requires convars.deferHooks
      modifies this, convars
      ensures convars.definitions == old(convars.definitions) && convars.fired == old(convars.fired)
      ensures match Executed(old(convars.definitions), old(MachineOf(convars)), command)
              case Err(e) => result == Err(e)
              case Ok(step) => result == Ok(step.effect) && MachineOf(convars) == step.machine && convars.deferHooks
    {
      match command {
        case SetConVar(name, value) => result := AssignConVar(name, value, convars);
        case GetConVar(name) =>
          if name in convars.values {
            return Ok(ConVarQueried(name, convars.values[name]));
          }
          return Err(ConVar(NotFound(name)));
        case Bind(key, text) =>
          binds := binds[key := text];
          return Ok(Bound(key, text));
        case Unbind(key) =>
          binds := binds - {key};
          return Ok(Unbound(key));
        case Toggle(name, values) => result := ToggleConVar(name, values, convars);
        case Alias(name, text) =>
          aliases := aliases[name := text];
          return Ok(Aliased(name, text));
        case Unalias(name) =>
          aliases := aliases - {name};
          return Ok(Unaliased(name));
        case Exec(path) => return Ok(ExecRequested(path));
        case Echo(message) => return Ok(Output(message));
        case Force(_, _, _) => return Ok(ForceEffect(command));
        case Host(request) => return Ok(HostRequested(request));
        case Custom(name, args) =>
          if name !in convars.definitions {
            return Err(UnknownCommand(name));
          }
          result := AssignConVar(name, Join(args, " "), convars);
      }
    }

    method AssignConVar(name: string, raw: string, convars: ConVarStore)
      returns (result: Result<CommandEffect, CommandError>)
      requires convars.deferHooks
      modifies convars
      ensures convars.definitions == old(convars.definitions) && convars.fired == old(convars.fired)
      ensures match Assign(old(convars.definitions), old(MachineOf(convars)), name, raw)
              case Err(e) => result == Err(e)
              case Ok(step) => result == Ok(step.effect) && MachineOf(convars) == step.machine && convars.deferHooks
    {
      hide Accepts, CallsOf;
      var before := convars.State().Get(name).GetOr(Null);
      var session := name in convars.definitions && convars.definitions[name].session;
      var written := convars.SetFromStr(name, raw);
      match written {
        case Err(e) => result := Err(ConVar(e));
        case Ok(value) => result := Ok(ConVarUpdated(name, before, value, session));
      }
    }

    method ToggleConVar(name: string, values: seq<string>, convars: ConVarStore)
      returns (result: Result<CommandEffect, CommandError>)
      requires convars.deferHooks
      modifies convars
      ensures convars.definitions == old(convars.definitions) && convars.fired == old(convars.fired)
      ensures match ToggleStep(old(convars.definitions), old(MachineOf(convars)), name, values)
              case Err(e) => result == Err(e)
              case Ok(step) => result == Ok(step.effect) && MachineOf(convars) == step.machine && convars.deferHooks
    {
      hide NextValue, Assign;
      if name !in convars.values {
        return Err(ConVar(NotFound(name)));
      }
      var next := NextValue(convars.definitions, name, convars.values[name], values);
      match next {
        case Err(e) => result := Err(ConVar(e));
        case Ok(text) => result := AssignConVar(name, text, convars);
      }
    }

    /** Runs a script; on success the run is exactly the one `RunScript` describes. */
    method ExecuteStream(script: string, convars: ConVarStore, load: Loader, depth: nat,
                         bytes: nat, loads: nat, effects: seq<CommandEffect>)
      returns (error: Option<CommandError>, charged: nat, loaded: nat, made: seq<CommandEffect>)
      requires convars.deferHooks
      modifies this, convars
      ensures convars.definitions == old(convars.definitions) && convars.fired == old(convars.fired)
      ensures match RunScript(old(SettingOf(convars, load)), script, depth,
                              Progress(old(MachineOf(convars)), bytes, loads, effects))
              case Err(e) => error == Some(e)
              case Ok(q) => error.None? && convars.deferHooks && Progress(MachineOf(convars), charged, loaded, made) == q
      decreases if depth > limits.maxDepth then 0 else limits.maxDepth + 1 - depth, 1
    {
      hide Expand, Executed, RunScript, RunCommands, RunCommand, Statements, ConVarStore.State;
      charged, loaded, made := bytes, loads, effects;
      ghost var setting := SettingOf(convars, load);
      ghost var start := Progress(MachineOf(convars), bytes, loads, effects);
      RunScriptUnfolds(setting, script, depth, start);
      var statements := SplitStatements(script);
      for k := 0 to |statements|
        invariant convars.deferHooks && convars.fired == old(convars.fired) && SettingOf(convars, load) == setting
        invariant RunStatements(setting, statements[..k], depth, start) ==
          Ok(Progress(MachineOf(convars), charged, loaded, made))
      {
        assert statements[..k + 1][..k] == statements[..k];
        error, charged, loaded, made := ExecuteStatement(statements[k], convars, load, depth, charged, loaded, made);
        if error.Some? {
          StatementsStopAtError(setting, statements, depth, start, k + 1);
          return;
        }
      }
      assert statements[..|statements|] == statements;
      error := None;
    }

    /** Expands one statement and runs what it stands for. */
    method ExecuteStatement(statement: string, convars: ConVarStore, load: Loader, depth: nat,
                            bytes: nat, loads: nat, effects: seq<CommandEffect>)
      returns (error: Option<CommandError>, charged: nat, loaded: nat, made: seq<CommandEffect>)
      requires convars.deferHooks
      modifies this, convars
      ensures convars.definitions == old(convars.definitions) && convars.fired == old(convars.fired)
      ensures match RunStatement(old(SettingOf(convars, load)), statement, depth,
                                 Progress(old(MachineOf(convars)), bytes, loads, effects))
              case Err(e) => error == Some(e)
              case Ok(q) => error.None? && convars.deferHooks && Progress(MachineOf(convars), charged, loaded, made) == q
      decreases if depth > limits.maxDepth then 0 else limits.maxDepth + 1 - depth, 0
    {
      hide Expand, Executed, RunScript, RunCommand, ConVarStore.State;
      charged, loaded, made := bytes, loads, effects;
      ghost var setting := SettingOf(convars, load);
      var expanded, _, total := ExpandCommand(Book(aliases, limits, host), statement, depth, [], bytes);
      if expanded.Err? {
        return Some(expanded.error), charged, loaded, made;
      }
      charged := total;
      var commands := expanded.value;
      ghost var start := Progress(MachineOf(convars), charged, loads, effects);
      for k := 0 to |commands|
        invariant convars.deferHooks && convars.fired == old(convars.fired) && SettingOf(convars, load) == setting
        invariant RunCommands(setting, commands[..k], depth, start) ==
          Ok(Progress(MachineOf(convars), charged, loaded, made))
      {
        assert commands[..k + 1][..k] == commands[..k];
        var command := commands[k];
        RunCommandUnfolds(setting, command, depth, Progress(MachineOf(convars), charged, loaded, made));
        if command.Exec? {
          if depth >= limits.maxDepth {
            CommandsStopAtError(setting, commands, depth, start, k + 1);
            return Some(RecursionLimit(command.path, depth)), charged, loaded, made;
          }
          var source := load(loaded, command.path);
          if source.Err? {
            CommandsStopAtError(setting, commands, depth, start, k + 1);
            return Some(source.error), charged, loaded, made;
          }
          error, charged, loaded, made :=
            ExecuteStream(source.value, convars, load, depth + 1, charged, loaded + 1, made);
          if error.Some? {
            CommandsStopAtError(setting, commands, depth, start, k + 1);
            return;
          }
          made := made + [ExecRequested(command.path)];
        } else {
          var done := ExecuteOne(command, convars);
          if done.Err? {
            CommandsStopAtError(setting, commands, depth, start, k + 1);
            return Some(done.error), charged, loaded, made;
          }
          made := made + [done.value];
        }
      }
      assert commands[..|commands|] == commands;
      error := None;
    }

    /**
     Runs a script all or nothing. A script that fails, however deep in aliases
     or nested files, leaves the store and the engine exactly as they were and
     has called no hook. A script that succeeds outside a transaction ends with
     the hook calls it caused, in order, after all its changes; inside one, the
     calls wait with the transaction.
     */
    method ExecuteLoaded(script: string, convars: ConVarStore, load: Loader)
      returns (result: Result<seq<CommandEffect>, CommandError>)
      modifies this, convars
      ensures convars.definitions == old(convars.definitions)
      ensures match old(Attempt(SettingOf(convars, load), script, MachineOf(convars)))
              case Err(e) => result == Err(e) && MachineOf(convars) == old(MachineOf(convars)) && convars.fired == old(convars.fired)
              case Ok(q) =>
                && result == Ok(q.effects)
                && binds == q.machine.binds && aliases == q.machine.aliases
                && convars.State() == (if old(convars.deferHooks) then q.machine.store else q.machine.store.Committed())
                && convars.fired == old(convars.fired) + (if old(convars.deferHooks) then [] else q.machine.store.pending)
    {
      hide RunScript;
      var convarsSnapshot := convars.State();
      var bindsSnapshot, aliasesSnapshot := binds, aliases;
      var outerTransaction := convars.deferHooks;
      if !outerTransaction {
        convars.BeginTransaction();
      }
      var error, _, _, effects := ExecuteStream(script, convars, load, 0, 0, 0, []);
      if error.Some? {
        convars.Restore(convarsSnapshot);
        binds, aliases := bindsSnapshot, aliasesSnapshot;
        return Err(error.value);
      }
      if !outerTransaction {
        convars.CommitTransaction();
      }
      result := Ok(effects);
    }
  }

  /** The run of a script from a machine, in a new transaction unless one is open. */
  function Attempt(s: Setting, script: string, m: Machine): Result<Progress, CommandError> {
    RunScript(s, script, 0, Progress(Opened(m), 0, 0, []))
  }

  function Opened(m: Machine): Machine {
    if m.store.deferring then m else m.(store := m.store.Begun())
  }

  lemma RunScriptUnfolds(s: Setting, script: string, depth: nat, p: Progress)
    ensures RunScript(s, script, depth, p) == RunStatements(s, Statements(script), depth, p)
  {
    hide RunStatements, Statements;
  }

  lemma RunCommandUnfolds(s: Setting, command: Command, depth: nat, p: Progress)
    ensures command.Exec? && depth >= s.limits.maxDepth ==>
      RunCommand(s, command, depth, p) == Err(RecursionLimit(command.path, depth))
    ensures command.Exec? && depth < s.limits.maxDepth ==>
      RunCommand(s, command, depth, p) ==
        (match s.load(p.loads, command.path)
         case Err(e) => Err(e)
         case Ok(source) =>
           match RunScript(s, source, depth + 1, p.(loads := p.loads + 1))
           case Err(e) => Err(e)
           case Ok(q) => Ok(q.(effects := q.effects + [ExecRequested(command.path)])))
    ensures !command.Exec? ==>
      RunCommand(s, command, depth, p) ==
        (match Executed(s.defs, p.machine, command)
         case Err(e) => Err(e)
         case Ok(step) => Ok(p.(machine := step.machine, effects := p.effects + [step.effect])))
  {
    hide RunScript, Executed;
  }

  lemma HoldsNothing(prefix: string)
    ensures Holds(map[], prefix, map[])
  {
  }

  lemma HoldsAdded(entries: map<string, string>, prefix: string, read: Attributes, name: string, value: TypedValue)
    requires Holds(entries, prefix, read) && name !in read
    ensures Holds(if prefix <= name && value.String? then entries[name[|prefix|..] := value.s] else entries, prefix, read[name := value])
  {
    if prefix <= name {
      var key := name[|prefix|..];
      assert name == prefix + key;
      HoldsUnder(entries, prefix, read, key, value);
      assert TextAt(read, prefix + key) == None;
      assert entries - {key} == entries;
    } else {
      HoldsElsewhere(entries, prefix, read, name, value);
    }
  }
}
