/**
 The configuration variable store: checked writes, deferred change hooks,
 hydration from the session document and the patch that writes it back. The
 store's changing part is also a value, so that whole runs can be described by
 functions; the methods are tied to them, and what the outside has seen, the
 hook calls made, is kept apart because it cannot be taken back.
 */
module ConVars {
  import opened Wrappers
  import opened Text
  import opened Dom
  import opened CommandText

  // ----- Definitions ---------------------------------------------------------

  /**
   A declared variable. `declared` converts text by the type of the default and
   is used when there is no parser; a hook is known by its number.
   */
  datatype Definition = Definition(
    defaultValue: TypedValue,
    session: bool,
    cheat: bool,
    readonly: bool,
    parser: Option<string -> Result<TypedValue, string>>,
    declared: string -> Result<TypedValue, string>,
    validator: Option<TypedValue -> Option<string>>,
    hook: Option<nat>)

  type Registry = map<string, Definition>

  /** One call of a change hook. */
  datatype HookCall = HookCall(hook: nat, before: TypedValue, after: TypedValue)

  /** The store's changing part, as a value. */
  datatype StoreState = StoreState(
    values: map<string, TypedValue>,
    dirty: set<string>,
    cheats: bool,
    deferring: bool,
    pending: seq<HookCall>)
  {
    function Get(name: string): Option<TypedValue> {
      if name in values then Some(values[name]) else None
    }

    function Begun(): StoreState {
      this.(deferring := true, pending := [])
    }

    function Committed(): StoreState {
      this.(deferring := false, pending := [])
    }
  }

  const CHEATS := "sv_cheats"

  predicate TruthyWord(s: string) {
    s == "1" || s == "true" || s == "yes" || s == "on"
  }

  /** What a value of `sv_cheats` says about cheats. */
  predicate Truthy(value: TypedValue) {
    match value
    case Bool(b) => b
    case Integer(i) => i != 0
    case String(s) => TruthyWord(AsciiLower(s))
    case _ => false
  }

  /** A value a variable with this default accepts. */
  predicate Fits(default: TypedValue, value: TypedValue) {
    || default.Null?
    || (default.Bool? && value.Bool?)
    || (default.Integer? && value.Integer?)
    || (default.Number? && value.Number?)
    || (default.String? && value.String?)
    || (default.Json? && value.Json?)
    || (default == String("unknown") && value.Bool?)
  }

  // ----- Writes --------------------------------------------------------------

  /** Why a name cannot be written at all. */
  function Guard(defs: Registry, cheats: bool, name: string): Option<ConVarError> {
    if name !in defs then Some(NotFound(name))
    else if defs[name].readonly then Some(ReadOnly(name))
    else if defs[name].cheat && !cheats then Some(CheatProtected(name))
    else None
  }

  function Refusal(defs: Registry, cheats: bool, name: string, value: TypedValue): Option<ConVarError> {
    var guard := Guard(defs, cheats, name);
    if guard.Some? then guard
    else if !Fits(defs[name].defaultValue, value) then Some(InvalidValue(name, "type mismatch"))
    else if defs[name].validator.Some? && defs[name].validator.value(value).Some? then
      Some(InvalidValue(name, defs[name].validator.value(value).value))
    else None
  }

  /** The hook calls a write of `name` causes. */
  function CallsOf(defs: Registry, name: string, before: TypedValue, after: TypedValue): seq<HookCall> {
    if name in defs && defs[name].hook.Some? then [HookCall(defs[name].hook.value, before, after)] else []
  }

  /** The state after an accepted write. */
  function Written(defs: Registry, st: StoreState, name: string, value: TypedValue): StoreState
    requires name in defs
  {
    StoreState(
      st.values[name := value],
      if defs[name].session then st.dirty + {name} else st.dirty,
      if name == CHEATS then Truthy(value) else st.cheats,
      st.deferring,
      if st.deferring then st.pending + CallsOf(defs, name, st.Get(name).GetOr(Null), value) else st.pending)
  }

  /** The value a piece of text stands for. */
  function Converted(defs: Registry, cheats: bool, name: string, raw: string): Result<TypedValue, ConVarError> {
    var guard := Guard(defs, cheats, name);
    if guard.Some? then Err(guard.value)
    else
      var parsed := if defs[name].parser.Some? then defs[name].parser.value(raw) else defs[name].declared(raw);
      match parsed
      case Ok(value) => Ok(value)
      case Err(reason) => Err(InvalidValue(name, reason))
  }

  /** The value a write from text stores, or why it is refused. */
  function Accepts(defs: Registry, cheats: bool, name: string, raw: string): (r: Result<TypedValue, ConVarError>)
    ensures r.Ok? ==> name in defs
  {
    match Converted(defs, cheats, name, raw)
    case Err(e) => Err(e)
    case Ok(value) =>
      var refusal := Refusal(defs, cheats, name, value);
      if refusal.Some? then Err(refusal.value) else Ok(value)
  }

  // ----- The document --------------------------------------------------------

  /** A change to the attributes of the document's configuration container. */
  datatype AttributeOp = SetAttribute(name: string, value: TypedValue) | RemoveAttribute(name: string)

  type Attributes = map<string, TypedValue>

  function Apply(attrs: Attributes, ops: seq<AttributeOp>): Attributes {
    if ops == [] then attrs
    else
      var before := Apply(attrs, ops[..|ops| - 1]);
      match ops[|ops| - 1]
      case SetAttribute(name, value) => before[name := value]
      case RemoveAttribute(name) => before - {name}
  }

  lemma {:induction false} ApplyConcat(attrs: Attributes, a: seq<AttributeOp>, b: seq<AttributeOp>)
    ensures Apply(attrs, a + b) == Apply(Apply(attrs, a), b)
  {
    if b == [] {
      assert a + b == a;
    } else {
      assert (a + b)[..|a + b| - 1] == a + b[..|b| - 1];
      ApplyConcat(attrs, a, b[..|b| - 1]);
    }
  }

  /** The value the document gives a variable. */
  function Recorded(def: Definition, attrs: Attributes, name: string): TypedValue {
    if name in attrs then attrs[name] else def.defaultValue
  }

  /** What the document gives the session variables among `names`. */
  function RecordedFor(defs: Registry, names: set<string>, attrs: Attributes): map<string, TypedValue> {
    map name | name in names && name in defs && defs[name].session :: Recorded(defs[name], attrs, name)
  }

  function SessionValues(defs: Registry, attrs: Attributes): map<string, TypedValue> {
    RecordedFor(defs, defs.Keys, attrs)
  }

  lemma RecordedForNone(defs: Registry, attrs: Attributes)
    ensures RecordedFor(defs, {}, attrs) == map[]
  {
  }

  lemma RecordedForOneMore(defs: Registry, names: set<string>, attrs: Attributes, name: string)
    requires name in defs
    ensures RecordedFor(defs, names + {name}, attrs) ==
      if defs[name].session then RecordedFor(defs, names, attrs)[name := Recorded(defs[name], attrs, name)]
      else RecordedFor(defs, names, attrs)
  {
    hide Recorded;
  }

  function CheatsOf(values: map<string, TypedValue>): bool {
    CHEATS in values && Truthy(values[CHEATS])
  }

  function Hydrated(defs: Registry, st: StoreState, attrs: Attributes): StoreState {
    var values := st.values + SessionValues(defs, attrs);
    StoreState(values, {}, CheatsOf(values), false, [])
  }

  function ValuesAmong(names: set<string>, values: map<string, TypedValue>): map<string, TypedValue> {
    map name | name in names && name in values :: values[name]
  }

  /** The current values of the variables written since the last drain. */
  function DirtyValues(st: StoreState): map<string, TypedValue> {
    ValuesAmong(st.dirty, st.values)
  }

  function SessionNames(defs: Registry): set<string> {
    set name | name in defs && defs[name].session
  }

  /** The state a child session starts from. */
  function Seed(defs: Registry, st: StoreState): StoreState {
    StoreState(st.values, SessionNames(defs), st.cheats, false, [])
  }

  // ----- The store -----------------------------------------------------------

  class ConVarStore {
    var definitions: Registry
    var values: map<string, TypedValue>
    var dirtySession: set<string>
    var cheatsEnabled: bool
    var deferHooks: bool
    var pendingHooks: seq<HookCall>
    /** Every hook call made so far, in order: what the outside has seen. */
    var fired: seq<HookCall>

    function State(): StoreState
      reads this
    {
      StoreState(values, dirtySession, cheatsEnabled, deferHooks, pendingHooks)
    }

    constructor ()
      ensures definitions == map[] && State() == StoreState(map[], {}, false, false, []) && fired == []
    {
      definitions, values, dirtySession, cheatsEnabled := map[], map[], {}, false;
      deferHooks, pendingHooks, fired := false, [], [];
    }

    /** Puts back a saved state; calls already made to hooks cannot be taken back. */
    method Restore(st: StoreState)
      modifies this
      ensures State() == st && definitions == old(definitions) && fired == old(fired)
    {
      values, dirtySession, cheatsEnabled := st.values, st.dirty, st.cheats;
      deferHooks, pendingHooks := st.deferring, st.pending;
    }

    method BeginTransaction()
      modifies this
      ensures State() == old(State()).Begun() && definitions == old(definitions) && fired == old(fired)
    {
      deferHooks := true;
      pendingHooks := [];
    }

    /** Ends the transaction and makes the waiting hook calls, in order. */
    method CommitTransaction()
      modifies this
      ensures State() == old(State()).Committed() && definitions == old(definitions)
      ensures fired == old(fired) + old(pendingHooks)
    {
      deferHooks := false;
      var hooks := pendingHooks;
      pendingHooks := [];
      for i := 0 to |hooks|
        invariant State() == old(State()).Committed() && definitions == old(definitions)
        invariant fired == old(fired) + hooks[..i]
      {
        fired := fired + [hooks[i]];
      }
    }

    method RegisterDef(name: string, def: Definition)
      modifies this
      ensures definitions == old(definitions)[name := def] && fired == old(fired)
      ensures State() == if name in old(values) then old(State()) else
        old(State()).(values := old(values)[name := def.defaultValue])
    {
      if name !in values {
        values := values[name := def.defaultValue];
      }
      definitions := definitions[name := def];
    }

    /** Flag, type and validator checks of a write. */
    method Check(name: string, value: TypedValue) returns (refusal: Option<ConVarError>)
      ensures refusal == Refusal(definitions, cheatsEnabled, name, value)
    {
      hide Fits;
      if name !in definitions {
        return Some(NotFound(name));
      }
      var def := definitions[name];
      if def.readonly {
        return Some(ReadOnly(name));
      }
      if def.cheat && !cheatsEnabled {
        return Some(CheatProtected(name));
      }
      if !Fits(def.defaultValue, value) {
        return Some(InvalidValue(name, "type mismatch"));
      }
      if def.validator.Some? {
        var complaint := def.validator.value(value);
        if complaint.Some? {
          return Some(InvalidValue(name, complaint.value));
        }
      }
      refusal := None;
    }

    method Set(name: string, value: TypedValue) returns (result: Result<TypedValue, ConVarError>)
      modifies this
      ensures definitions == old(definitions)
      ensures var refusal := Refusal(definitions, old(cheatsEnabled), name, value);
        if refusal.Some? then
          result == Err(refusal.value) && State() == old(State()) && fired == old(fired)
        else
          && result == Ok(value)
          && State() == Written(definitions, old(State()), name, value)
          && fired == old(fired) +
             if old(deferHooks) then [] else CallsOf(definitions, name, old(State()).Get(name).GetOr(Null), value)
    {
      hide Written, CallsOf, Fits;
      var refusal := Check(name, value);
      if refusal.Some? {
        return Err(refusal.value);
      }
      Write(name, value);
      result := Ok(value);
    }

    /** The write itself: hook, dirty mark, cheats, value. */
    method Write(name: string, value: TypedValue)
      requires name in definitions
      modifies this
      ensures definitions == old(definitions)
      ensures State() == Written(definitions, old(State()), name, value)
      ensures fired == old(fired) +
        if old(deferHooks) then [] else CallsOf(definitions, name, old(State()).Get(name).GetOr(Null), value)
    {
      hide Truthy, CallsOf, StoreState.Get;
      var before := State().Get(name).GetOr(Null);
      Notify(name, before, value);
      if definitions[name].session {
        dirtySession := dirtySession + {name};
      }
      if name == CHEATS {
        cheatsEnabled := Truthy(value);
      }
      values := values[name := value];
    }

    /** Calls the change hook, or queues the call while a transaction is open. */
    method Notify(name: string, before: TypedValue, after: TypedValue)
      requires name in definitions
      modifies this`pendingHooks, this`fired
      ensures pendingHooks == old(pendingHooks) + if deferHooks then CallsOf(definitions, name, before, after) else []
      ensures fired == old(fired) + if deferHooks then [] else CallsOf(definitions, name, before, after)
    {
      var def := definitions[name];
      if def.hook.Some? {
        var call := HookCall(def.hook.value, before, after);
        if deferHooks {
          pendingHooks := pendingHooks + [call];
        } else {
          fired := fired + [call];
        }
      }
    }

    method SetFromStr(name: string, raw: string) returns (result: Result<TypedValue, ConVarError>)
      modifies this
      ensures definitions == old(definitions) && result == Accepts(definitions, old(cheatsEnabled), name, raw)
      ensures if result.Err? then State() == old(State()) && fired == old(fired) else
        && State() == Written(definitions, old(State()), name, result.value)
        && fired == old(fired) +
           if old(deferHooks) then [] else CallsOf(definitions, name, old(State()).Get(name).GetOr(Null), result.value)
    {
      hide Truthy, Fits, Written, CallsOf;
      if name !in definitions {
        return Err(NotFound(name));
      }
      var def := definitions[name];
      if def.readonly {
        return Err(ReadOnly(name));
      }
      if def.cheat && !cheatsEnabled {
        return Err(CheatProtected(name));
      }
      var parsed := if def.parser.Some? then def.parser.value(raw) else def.declared(raw);
      match parsed {
        case Err(reason) => return Err(InvalidValue(name, reason));
        case Ok(value) => result := Set(name, value);
      }
    }

    /** Takes the session variables from the document and drops everything pending. */
    method HydrateFromDom(globals: Attributes)
      modifies this
      ensures State() == Hydrated(definitions, old(State()), globals)
      ensures definitions == old(definitions) && fired == old(fired)
    {
      hide Truthy, Recorded, RecordedFor;
      var todo := definitions.Keys;
      ghost var done: set<string> := {};
      assert RecordedFor(definitions, done, globals) == map[] by { RecordedForNone(definitions, globals); }
      while todo != {}
        invariant definitions == old(definitions) && fired == old(fired)
        invariant todo + done == definitions.Keys && todo !! done
        invariant values == old(values) + RecordedFor(definitions, done, globals)
        decreases todo
      {
        var name :| name in todo;
        var def := definitions[name];
        RecordedForOneMore(definitions, done, globals, name);
        if def.session {
          values := values[name := Recorded(def, globals, name)];
        }
        todo := todo - {name};
        done := done + {name};
      }
      assert done == definitions.Keys;
      cheatsEnabled := if CHEATS in values then Truthy(values[CHEATS]) else false;
      pendingHooks, deferHooks, dirtySession := [], false, {};
    }

    /**
     The patch for everything written since the last drain: one operation per
     variable, with its current value. The source goes through the names in
     alphabetical order; no order changes what the patch does.
     */
    method DrainSessionPatch() returns (patch: Option<seq<AttributeOp>>)
      modifies this`dirtySession
      ensures dirtySession == {}
      ensures patch.None? <==> old(dirtySession) == {}
      ensures patch.Some? ==> forall attrs :: Apply(attrs, patch.value) == attrs + DirtyValues(old(State()))
      ensures patch.Some? ==> OnePerName(patch.value)
    {
      if dirtySession == {} {
        return None;
      }
      var ops: seq<AttributeOp> := [];
      var todo := dirtySession;
      dirtySession := {};
      ghost var all := todo;
      ghost var done: set<string> := {};
      DrainsNothing(values);
      while todo != {}
        invariant todo + done == all && todo !! done && dirtySession == {} && values == old(values)
        invariant Drains(ops, done, values)
        decreases todo
      {
        var name :| name in todo;
        DrainsOneMore(ops, done, values, name);
        if name in values {
          ops := ops + [SetAttribute(name, values[name])];
        }
        todo := todo - {name};
        done := done + {name};
      }
      assert done == all;
      patch := Some(ops);
    }

    /** A store for a child session, with every session variable to be written. */
    method SeedChild() returns (child: ConVarStore)
      ensures fresh(child) && child.definitions == definitions && child.fired == []
      ensures child.State() == Seed(definitions, State())
    {
      child := new ConVarStore();
      child.definitions, child.values, child.cheatsEnabled := definitions, values, cheatsEnabled;
      child.dirtySession := set name | name in definitions && definitions[name].session;
    }
  }

  /** The operations write the values of the names handled so far, each once. */
  ghost predicate Drains(ops: seq<AttributeOp>, done: set<string>, values: map<string, TypedValue>) {
    && OnePerName(ops)
    && (forall i :: 0 <= i < |ops| ==> ops[i].name in done)
    && (forall attrs :: Apply(attrs, ops) == attrs + ValuesAmong(done, values))
  }

  lemma DrainsNothing(values: map<string, TypedValue>)
    ensures Drains([], {}, values)
  {
    assert ValuesAmong({}, values) == map[];
  }

  lemma DrainsOneMore(ops: seq<AttributeOp>, done: set<string>, values: map<string, TypedValue>, name: string)
    requires Drains(ops, done, values) && name !in done
    ensures Drains(if name in values then ops + [SetAttribute(name, values[name])] else ops, done + {name}, values)
  {
    if name in values {
      var op := SetAttribute(name, values[name]);
      assert (ops + [op])[..|ops|] == ops;
      var more := ValuesAmong(done + {name}, values);
      assert more == ValuesAmong(done, values)[name := values[name]];
      forall attrs
        ensures Apply(attrs, ops + [op]) == attrs + more
      {
        assert Apply(attrs, ops + [op]) == Apply(attrs, ops)[name := values[name]];
      }
    } else {
      assert ValuesAmong(done + {name}, values) == ValuesAmong(done, values);
    }
  }

  predicate OnePerName(ops: seq<AttributeOp>) {
    forall i, j :: 0 <= i < j < |ops| ==> ops[i].name != ops[j].name
  }

  // ----- A seeded child reads back what its parent had -----------------------

  /** Every declared variable has a value. */
  predicate Registered(defs: Registry, st: StoreState) {
    forall name :: name in defs ==> name in st.values
  }

  /**
   Writing a seeded child's first patch into an empty document and hydrating
   from it gives the child exactly its parent's values; cheats follow the value
   of `sv_cheats`.
   */
  lemma SeedSurvivesHydration(defs: Registry, parent: StoreState)
    requires Registered(defs, parent)
    ensures var child := Hydrated(defs, Seed(defs, parent), map[] + DirtyValues(Seed(defs, parent)));
      child.values == parent.values && child.cheats == CheatsOf(parent.values)
  {
    hide Truthy;
    var seeded := Seed(defs, parent);
    var attrs := map[] + DirtyValues(seeded);
    forall name | name in SessionValues(defs, attrs)
      ensures name in parent.values && SessionValues(defs, attrs)[name] == parent.values[name]
    {
      assert name in SessionNames(defs);
    }
    assert Hydrated(defs, seeded, attrs).values == parent.values;
  }
}
