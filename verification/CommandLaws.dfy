/** What written commands do. */
module CommandLaws {
  import opened Wrappers
  import opened Text
  import opened Dom
  import opened CommandText
  import opened ConfigScripts
  import opened WrittenCommands
  import opened AliasExpansion
  import opened ConVars
  import opened CommandEngine

  /*
   Laws of the command language, from the text of a statement to its effect:
   comments, alias calls, running a statement, toggling, and the values variables
   take.
   */

  // ----- Comments ------------------------------------------------------------

  lemma {:induction false} TrimLead(lead: string, s: string)
    requires IsBlank(lead)
    ensures Trim(lead + s) == Trim(s)
  {
    if lead == [] {
      assert lead + s == s;
    } else {
      assert (lead + s)[1..] == lead[1..] + s;
      TrimLead(lead[1..], s);
    }
  }

  /** The states differ only in white space in front of the statement being read. */
  predicate Similar(a: Split, b: Split, lead: string) {
    a.statements == b.statements && a.quoted == b.quoted && a.current == lead + b.current && IsBlank(lead)
  }

  lemma SimilarFlush(a: Split, b: Split, lead: string)
    requires Similar(a, b, lead)
    ensures a.Flush() == b.Flush()
  {
    hide Trim, IsBlank;
    TrimLead(lead, b.current);
  }

  lemma SimilarComment(a: Split, b: Split, lead: string)
    requires Similar(a, b, lead)
    ensures Similar(a.Comment(), b.Comment(), if Trim(b.current) != [] then [] else lead)
  {
    hide Trim, Split.Flush;
    TrimLead(lead, b.current);
    SimilarFlush(a, b, lead);
    assert [] + b.Comment().current == b.Comment().current;
  }

  lemma SimilarOpens(a: Split, b: Split, lead: string, s: string)
    requires Similar(a, b, lead)
    ensures a.OpensComment(s) <==> b.OpensComment(s)
  {
    hide IsWhitespace, IsBlank;
    if b.current == [] {
      assert a.current == lead;
      LastBlank(lead);
    }
  }

  lemma SlashesOpen(st: Split, s: string)
    ensures st.OpensComment(s) ==> |s| > 1
  {
  }

  lemma LastBlank(lead: string)
    requires IsBlank(lead)
    ensures lead == [] || IsWhitespace(lead[|lead| - 1])
  {
  }

  /** White space in front of a statement never shows. */
  lemma {:induction false} SimilarRuns(s: string, a: Split, b: Split, lead: string)
    requires Similar(a, b, lead)
    ensures SplitRun(s, a).Flush() == SplitRun(s, b).Flush()
    decreases |s|
  {
    hide Trim, IsWhitespace, Split.Flush, AfterLine, Split.OpensComment, Split.Comment, IsBlank;
    SimilarFlush(a, b, lead);
    if s == [] {
    } else if s[0] == '\\' {
      if |s| == 1 {
        assert a.current + "\\" == lead + (b.current + "\\");
        SimilarFlush(a.Add("\\"), b.Add("\\"), lead);
      } else {
        assert a.current + [s[0], s[1]] == lead + (b.current + [s[0], s[1]]);
        SimilarRuns(s[2..], a.Add([s[0], s[1]]), b.Add([s[0], s[1]]), lead);
      }
    } else if s[0] == '"' {
      var next, other := Split(a.statements, a.current + ['"'], !a.quoted), Split(b.statements, b.current + ['"'], !b.quoted);
      assert next.current == lead + other.current;
      SimilarRuns(s[1..], next, other, lead);
    } else {
      SimilarOpens(a, b, lead, s);
      SlashesOpen(a, s);
      SimilarComment(a, b, lead);
      var kept := if Trim(b.current) != [] then [] else lead;
      if a.OpensComment(s) {
        SimilarRuns(AfterLine(s[2..]), a.Comment(), b.Comment(), kept);
      } else if s[0] == '#' && !a.quoted {
        SimilarRuns(AfterLine(s[1..]), a.Comment(), b.Comment(), kept);
      } else if !(IsBreak(s[0]) && !a.quoted) {
        assert a.current + [s[0]] == lead + (b.current + [s[0]]);
        SimilarRuns(s[1..], a.Add([s[0]]), b.Add([s[0]]), lead);
      }
    }
  }

  lemma {:induction false} LineSkipped(comment: string, rest: string)
    requires '\n' !in comment
    ensures AfterLine(comment + "\n" + rest) == rest
  {
    if comment == [] {
      assert comment + "\n" + rest == "\n" + rest;
    } else {
      assert (comment + "\n" + rest)[1..] == comment[1..] + "\n" + rest;
      LineSkipped(comment[1..], rest);
    }
  }

  lemma CommentThenFlush(st: Split, rest: string)
    requires !st.quoted
    ensures SplitRun(rest, st.Comment()).Flush() == SplitRun(rest, st.Flush()).Flush()
  {
    hide SplitRun, IsWhitespace;
    if Trim(st.current) == [] {
      TrimmedAway(st.current);
      assert st.current + [] == st.current;
      SimilarRuns(rest, st, Split(st.statements, [], false), st.current);
    }
  }

  lemma {:induction false} TrimmedAway(s: string)
    requires Trim(s) == []
    ensures IsBlank(s)
  {
    hide IsWhitespace;
    if s != [] {
      if IsWhitespace(s[0]) {
        TrimmedAway(s[1..]);
        assert s == [s[0]] + s[1..];
      } else {
        EndStays(s);
      }
    }
  }

  lemma {:induction false} EndStays(s: string)
    requires s != [] && !IsWhitespace(s[0])
    ensures TrimEnd(s) != []
  {
    hide IsWhitespace;
    if IsWhitespace(s[|s| - 1]) {
      EndStays(s[..|s| - 1]);
    }
  }

  /**
   Outside quotes a comment reads as the end of its line: whatever was read
   before and comes after, the statements are those without it. A double slash
   opens one only at the start of a statement or after white space.
   */
  lemma CommentIsLineEnd(st: Split, comment: string, rest: string)
    requires !st.quoted && '\n' !in comment
    ensures SplitRun("#" + comment + "\n" + rest, st).Flush() == SplitRun("\n" + rest, st).Flush()
    ensures st.current == [] || IsWhitespace(st.current[|st.current| - 1]) ==>
      SplitRun("//" + comment + "\n" + rest, st).Flush() == SplitRun("\n" + rest, st).Flush()
  {
    hide Split.Flush, Split.Comment, IsWhitespace;
    LineSkipped(comment, rest);
    var hash, slashes := "#" + comment + "\n" + rest, "//" + comment + "\n" + rest;
    assert hash[1..] == comment + "\n" + rest && slashes[2..] == comment + "\n" + rest;
    assert ("\n" + rest)[1..] == rest;
    CommentThenFlush(st, rest);
  }

  /** Outside quotes a semicolon, a line feed and a carriage return end a statement alike. */
  lemma BreaksAreAlike(st: Split, rest: string)
    requires !st.quoted
    ensures SplitRun(";" + rest, st) == SplitRun("\n" + rest, st) == SplitRun("\r" + rest, st) == SplitRun(rest, st.Flush())
  {
    hide Split.Flush;
    assert (";" + rest)[1..] == ("\n" + rest)[1..] == ("\r" + rest)[1..] == rest;
  }

  // ----- Alias calls ---------------------------------------------------------

  /** One written command parses to itself. */
  lemma LineParses(c: Command, host: HostParser)
    requires Writable(c)
    ensures Parsed(WrittenLine(WordsOf(c)), host) == Ok([c])
  {
    hide Parsed, WrittenLine, WordsOf, Writable;
    assert !c.Host? by { ShapedIsOwn(c); }
    CommandsRoundTrip([c], host);
    assert WrittenLines([c]) == [WrittenLine(WordsOf(c))];
  }

  lemma ShapedIsOwn(c: Command)
    requires Writable(c)
    ensures !c.Host?
  {
  }

  /** Calling an alias with some arguments, as it is parsed; one argument makes an assignment. */
  function CallOf(name: string, args: seq<string>): Command {
    if args == [] then GetConVar(name) else if |args| == 1 then SetConVar(name, args[0]) else Custom(name, args)
  }

  lemma ExpandsOne(book: Book, c: Command, depth: nat, visited: seq<string>, bytes: nat)
    requires Writable(c) && depth <= book.limits.maxDepth
    requires bytes + ByteLen(WrittenLine(WordsOf(c))) <= book.limits.maxBytes
    ensures Expand(book, WrittenLine(WordsOf(c)), depth, visited, bytes) ==
      ExpandOne(book, c, depth, visited, bytes + ByteLen(WrittenLine(WordsOf(c))))
  {
    hide Parsed, ExpandOne, WrittenLine, WordsOf, Writable;
    LineParses(c, book.host);
    var total := bytes + ByteLen(WrittenLine(WordsOf(c)));
    assert [c][..0] == [];
    assert ExpandEach(book, [], depth, visited, total) == Ok(Expansion([], total));
    var one := ExpandOne(book, c, depth, visited, total);
    assert one.Ok? ==> [] + one.value.commands == one.value.commands;
    assert ExpandEach(book, [c], depth, visited, total) == one;
  }

  /**
   A call of an alias expands to what its text expands to one level deeper, with
   the arguments, if there are two or more, written behind it. With exactly one
   argument it is an assignment, and is not expanded.
   */
  lemma AliasCall(book: Book, name: string, args: seq<string>, depth: nat, visited: seq<string>, bytes: nat)
    requires Writable(CallOf(name, args)) && name in book.aliases && name !in visited && depth <= book.limits.maxDepth
    requires bytes + ByteLen(WrittenLine([name] + args)) <= book.limits.maxBytes
    ensures var total := bytes + ByteLen(WrittenLine([name] + args));
      Expand(book, WrittenLine([name] + args), depth, visited, bytes) ==
        if |args| == 1 then Ok(Expansion([SetConVar(name, args[0])], total))
        else Expand(book, if args == [] then book.aliases[name] else book.aliases[name] + " " + Join(args, " "),
                    depth + 1, visited + [name], total)
  {
    hide Expand, Writable, WrittenLine, Join;
    var c := CallOf(name, args);
    assert WordsOf(c) == [name] + args;
    ExpandsOne(book, c, depth, visited, bytes);
  }

  /** A command that names no alias stands for itself. */
  lemma NoAliasCall(book: Book, c: Command, depth: nat, visited: seq<string>, bytes: nat)
    requires Writable(c) && depth <= book.limits.maxDepth && ((c.GetConVar? || c.Custom?) ==> c.name !in book.aliases)
    requires bytes + ByteLen(WrittenLine(WordsOf(c))) <= book.limits.maxBytes
    ensures Expand(book, WrittenLine(WordsOf(c)), depth, visited, bytes) ==
      Ok(Expansion([c], bytes + ByteLen(WrittenLine(WordsOf(c)))))
  {
    hide Expand, Writable, WrittenLine, WordsOf;
    ExpandsOne(book, c, depth, visited, bytes);
  }

  // ----- Running a statement -------------------------------------------------

  /** Running a written command is running the command, charged for its text. */
  lemma StatementRuns(s: Setting, c: Command, depth: nat, p: Progress)
    requires Writable(c) && depth <= s.limits.maxDepth && ((c.GetConVar? || c.Custom?) ==> c.name !in p.machine.aliases)
    requires p.bytes + ByteLen(WrittenLine(WordsOf(c))) <= s.limits.maxBytes
    ensures RunStatement(s, WrittenLine(WordsOf(c)), depth, p) ==
      RunCommand(s, c, depth, p.(bytes := p.bytes + ByteLen(WrittenLine(WordsOf(c)))))
  {
    hide Expand, Writable, WrittenLine, WordsOf, RunCommand;
    NoAliasCall(BookOf(s, p.machine), c, depth, [], p.bytes);
    var charged := p.(bytes := p.bytes + ByteLen(WrittenLine(WordsOf(c))));
    assert [c][..0] == [];
    assert RunCommands(s, [], depth, charged) == Ok(charged);
    assert RunCommands(s, [c], depth, charged) == RunCommand(s, c, depth, charged);
  }

  /** Running a script of written commands is running the statements in order. */
  lemma ScriptRuns(s: Setting, commands: seq<Command>, depth: nat, p: Progress)
    ensures RunScript(s, ScriptOf(WrittenLines(commands)), depth, p) == RunStatements(s, WrittenLines(commands), depth, p)
  {
    hide Statements, Sealed, ScriptOf, WrittenLine, WordsOf, RunStatements;
    var lines := WrittenLines(commands);
    forall line | line in lines
      ensures Sealed(line)
    {
      var i :| 0 <= i < |lines| && lines[i] == line;
      VerbReads(commands[i]);
      LineIsSealed(WordsOf(commands[i]));
    }
    StatementsOfSealed(lines);
  }

  /**
   An assignment that succeeds is what a query then reports; it changes no other
   variable, no bind and no alias.
   */
  lemma AssignmentSticks(defs: Registry, m: Machine, name: string, raw: string, other: string)
    requires Executed(defs, m, SetConVar(name, raw)).Ok?
    ensures var step := Executed(defs, m, SetConVar(name, raw)).value;
      && Accepts(defs, m.store.cheats, name, raw).Ok?
      && var value := Accepts(defs, m.store.cheats, name, raw).value;
      && Executed(defs, step.machine, GetConVar(name)) == Ok(Step(step.machine, ConVarQueried(name, value)))
      && (other != name ==> step.machine.store.Get(other) == m.store.Get(other))
      && step.machine.binds == m.binds && step.machine.aliases == m.aliases
  {
    hide Accepts, CallsOf, Truthy;
  }

  /** Binding and unbinding, and the same for aliases. */
  lemma BindsStick(defs: Registry, m: Machine, key: string, text: string)
    ensures var bound := Executed(defs, m, Bind(key, text)).value.machine;
      && bound == m.(binds := m.binds[key := text])
      && Executed(defs, bound, Unbind(key)).value.machine == m.(binds := m.binds - {key})
    ensures var aliased := Executed(defs, m, Alias(key, text)).value.machine;
      && aliased == m.(aliases := m.aliases[key := text])
      && Executed(defs, aliased, Unalias(key)).value.machine == m.(aliases := m.aliases - {key})
  {
  }

  /** A forced tool is asked for by name, and three times, unless the command says otherwise. */
  lemma ForceDefaults(defs: Registry, m: Machine, tool: string, reminder: string, n: nat)
    ensures Executed(defs, m, Force(tool, None, None)) == Ok(Step(m, ForcePushed(tool, "invoke tool " + tool, 3)))
    ensures Executed(defs, m, Force(tool, Some(reminder), Some(n))) == Ok(Step(m, ForcePushed(tool, reminder, n)))
  {
  }

  // ----- Values --------------------------------------------------------------

  const ON_WORDS: set<string> := {"1", "true", "yes", "on"}
  const OFF_WORDS: set<string> := {"0", "false", "no", "off"}
  const UNSET_WORDS: set<string> := {"unknown", "auto", "default", "?", "null", "none"}

  /** Is a value on? Text counts without the white space around it. */
  predicate IsOn(value: TypedValue) {
    match value
    case String(s) => Truthy(String(Trim(s)))
    case _ => Truthy(value)
  }

  /** Text is true in any case of four words. */
  lemma TrueWords(s: string)
    ensures Truthy(String(s)) <==> AsciiLower(s) in ON_WORDS
  {
    hide AsciiLower;
  }

  /** Toggling without values turns the value over: what is written is true exactly when the current value is not. */
  lemma FlipTurnsOver(current: TypedValue)
    ensures Flipped(current).Some? <==>
      match current
      case String(s) => AsciiLower(Trim(s)) in ON_WORDS + OFF_WORDS + UNSET_WORDS
      case Number(_) => false
      case Json(_) => false
      case _ => true
    ensures Flipped(current).Some? ==> (Truthy(String(Flipped(current).value)) <==> !IsOn(current))
  {
    hide AsciiLower, Trim;
    FourWords();
  }

  lemma FourWords()
    ensures AsciiLower("true") == "true" && AsciiLower("false") == "false" && AsciiLower("1") == "1" && AsciiLower("0") == "0"
    ensures "false" !in ON_WORDS && "0" !in ON_WORDS
  {
    assert "0"[0] != "1"[0];
  }

  function Kind(value: TypedValue): nat {
    match value
    case Null => 0 case Bool(_) => 1 case Integer(_) => 2 case Number(_) => 3 case String(_) => 4 case Json(_) => 5
  }

  /**
   A stored value keeps the kind of the variable's default. Only a variable
   without a default takes any kind, and one that defaults to "unknown" takes a
   truth value besides text.
   */
  lemma KindsAreKept(defs: Registry, cheats: bool, name: string, raw: string)
    requires Accepts(defs, cheats, name, raw).Ok?
    ensures var default, value := defs[name].defaultValue, Accepts(defs, cheats, name, raw).value;
      default == Null || Kind(value) == Kind(default) || (default == String("unknown") && value.Bool?)
  {
  }

  /** The other way round, what has the right kind and no complaint is stored. */
  lemma RightKindIsStored(defs: Registry, cheats: bool, name: string, raw: string, value: TypedValue)
    requires name in defs && !defs[name].readonly && (defs[name].cheat ==> cheats)
    requires (if defs[name].parser.Some? then defs[name].parser.value(raw) else defs[name].declared(raw)) == Ok(value)
    requires var default := defs[name].defaultValue;
      default == Null || Kind(value) == Kind(default) || (default == String("unknown") && value.Bool?)
    requires defs[name].validator.None? || defs[name].validator.value(value).None?
    ensures Accepts(defs, cheats, name, raw) == Ok(value)
  {
  }
}
