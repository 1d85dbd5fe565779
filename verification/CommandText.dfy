/** Command scripts as text. */
module CommandText {
  import opened Wrappers
  import opened Text
  import opened Revisions

  /* Splitting into statements, splitting a statement into words, recognising commands. */

  datatype CommandError =
    | Parse(message: string)
    | MissingArgument(cmd: string, arg: string)
    | ConVar(error: ConVarError)
    | RecursionLimit(name: string, depth: nat)
    | ExpansionLimit(bytes: nat, limit: nat)
    | UnknownCommand(verb: string)

  datatype ConVarError =
    | NotFound(name: string)
    | ReadOnly(name: string)
    | CheatProtected(name: string)
    | InvalidValue(name: string, reason: string)

  // ----- Splitting a script into statements ----------------------------------

  /** The statements finished so far, the text of the next one, and whether it is inside quotes. */
  datatype Split = Split(statements: seq<string>, current: string, quoted: bool) {
    function Add(text: string): Split {
      this.(current := current + text)
    }

    /** A separator ends the statement. */
    function Flush(): Split {
      if Trim(current) != [] then Split(statements + [Trim(current)], [], quoted) else this.(current := [])
    }

    /** A comment ends a statement that has anything in it. */
    function Comment(): Split {
      if Trim(current) != [] then Flush() else this
    }

    /** A double slash opens a comment only at the start or after white space. */
    predicate OpensComment(s: string) {
      && !quoted && |s| > 1 && s[0] == '/' && s[1] == '/'
      && (current == [] || IsWhitespace(current[|current| - 1]))
    }
  }

  predicate IsBreak(c: char) {
    c == ';' || c == '\n' || c == '\r'
  }

  /** What follows the first line feed. */
  function AfterLine(s: string): (rest: string)
    ensures |rest| <= |s|
  {
    if s == [] then [] else if s[0] == '\n' then s[1..] else AfterLine(s[1..])
  }

  /** The splitter's state once it has read all of `s`. */
  function SplitRun(s: string, st: Split): Split
    decreases |s|
  {
    if s == [] then st
    else if s[0] == '\\' then
      if |s| == 1 then st.Add("\\") else SplitRun(s[2..], st.Add([s[0], s[1]]))
    else if s[0] == '"' then SplitRun(s[1..], Split(st.statements, st.current + ['"'], !st.quoted))
    else if st.OpensComment(s) then SplitRun(AfterLine(s[2..]), st.Comment())
    else if s[0] == '#' && !st.quoted then SplitRun(AfterLine(s[1..]), st.Comment())
    else if IsBreak(s[0]) && !st.quoted then SplitRun(s[1..], st.Flush())
    else SplitRun(s[1..], st.Add([s[0]]))
  }

  const FRESH_SPLIT := Split([], [], false)

  function Statements(script: string): seq<string> {
    SplitRun(script, FRESH_SPLIT).Flush().statements
  }

  method SplitStatements(input: string) returns (statements: seq<string>)
    ensures statements == Statements(input)
  {
    hide Trim, IsWhitespace;
    statements := [];
    var current, quoted, chars := [], false, input;
    while chars != []
      invariant SplitRun(chars, Split(statements, current, quoted)) == SplitRun(input, FRESH_SPLIT)
      decreases |chars|
    {
      var c := chars[0];
      var opensComment := Split(statements, current, quoted).OpensComment(chars);
      if c == '\\' {
        if |chars| == 1 {
          current, chars := current + "\\", [];
        } else {
          current, chars := current + [c, chars[1]], chars[2..];
        }
      } else if c == '"' {
        current, quoted, chars := current + ['"'], !quoted, chars[1..];
      } else if opensComment || (c == '#' && !quoted) {
        chars := SkipLine(chars[if opensComment then 2 else 1..]);
        if Trim(current) != [] {
          statements, current := statements + [Trim(current)], [];
        }
      } else if IsBreak(c) && !quoted {
        if Trim(current) != [] {
          statements := statements + [Trim(current)];
        }
        current, chars := [], chars[1..];
      } else {
        current, chars := current + [c], chars[1..];
      }
    }
    if Trim(current) != [] {
      statements := statements + [Trim(current)];
    }
  }

  method SkipLine(s: string) returns (rest: string)
    ensures rest == AfterLine(s)
  {
    rest := s;
    while rest != []
      invariant AfterLine(rest) == AfterLine(s)
      decreases |rest|
    {
      if rest[0] == '\n' {
        return rest[1..];
      }
      rest := rest[1..];
    }
  }

  // ----- Splitting a statement into words ------------------------------------

  /** What a backslash and the character after it stand for. */
  function Unescape(c: char): string {
    if c == 'n' then "\n" else if c == 't' then "\t" else if c == 'r' then "\r"
    else if c == '"' then "\"" else if c == '\\' then "\\"
    else ['\\', c]
  }

  const UNCLOSED := Parse("unclosed quote in command")

  function WordsFrom(s: string, tokens: seq<string>, current: string, quoted: bool): Result<seq<string>, CommandError>
    decreases |s|
  {
    if s == [] then
      if quoted then Err(UNCLOSED) else Ok(Ended(tokens, current))
    else if s[0] == '\\' then
      if |s| == 1 then WordsFrom([], tokens, current + "\\", quoted)
      else WordsFrom(s[2..], tokens, current + Unescape(s[1]), quoted)
    else if s[0] == '"' then WordsFrom(s[1..], tokens, current, !quoted)
    else if IsWhitespace(s[0]) && !quoted then WordsFrom(s[1..], Ended(tokens, current), [], quoted)
    else WordsFrom(s[1..], tokens, current + [s[0]], quoted)
  }

  function Ended(tokens: seq<string>, current: string): seq<string> {
    if current != [] then tokens + [current] else tokens
  }

  function Tokenized(line: string): Result<seq<string>, CommandError> {
    WordsFrom(line, [], [], false)
  }

  method TokenizeLine(line: string) returns (result: Result<seq<string>, CommandError>)
    ensures result == Tokenized(line)
  {
    hide IsWhitespace;
    var tokens: seq<string>, current: string, quoted, chars := [], [], false, line;
    while chars != []
      invariant WordsFrom(chars, tokens, current, quoted) == Tokenized(line)
      decreases |chars|
    {
      var c := chars[0];
      if c == '\\' {
        if |chars| == 1 {
          current, chars := current + "\\", [];
        } else {
          current, chars := current + Unescape(chars[1]), chars[2..];
        }
      } else if c == '"' {
        quoted, chars := !quoted, chars[1..];
      } else if IsWhitespace(c) && !quoted {
        if current != [] {
          tokens, current := tokens + [current], [];
        }
        chars := chars[1..];
      } else {
        current, chars := current + [c], chars[1..];
      }
    }
    if quoted {
      return Err(UNCLOSED);
    }
    result := Ok(Ended(tokens, current));
  }

  // ----- Recognising commands ------------------------------------------------

  datatype Command =
    | SetConVar(name: string, value: string)
    | GetConVar(name: string)
    | Bind(key: string, command: string)
    | Unbind(key: string)
    | Toggle(name: string, values: seq<string>)
    | Alias(name: string, command: string)
    | Unalias(name: string)
    | Exec(path: string)
    | Echo(message: string)
    | Force(tool: string, reminder: Option<string>, maxAttempts: Option<nat>)
    | Host(request: string)
    | Custom(name: string, args: seq<string>)

  /** How the host reads the arguments of its own verbs; it may refuse them. */
  type HostParser = seq<string> -> Result<string, CommandError>

  predicate IsHostVerb(tokens: seq<string>)
    requires tokens != []
  {
    var verb := AsciiLower(tokens[0]);
    || verb in {"tool", "call", "dyn", "cancel", "effort", "/effort", "reasoning", "/reasoning", "provider", "/provider"}
    || (verb == "job" && |tokens| >= 3 && EqIgnoreAsciiCase(tokens[1], "cancel"))
  }

  function ParseU32(s: string): Option<nat> {
    var n := ParseU64(s);
    if n.Some? && n.value < 0x1_0000_0000 then n else None
  }

  function ForceCommand(tokens: seq<string>): Command
    requires |tokens| > 1
  {
    var last := tokens[|tokens| - 1];
    if |tokens| == 2 then Force(tokens[1], None, None)
    else if |tokens| > 3 && ParseU32(last).Some? then
      Force(tokens[1], Some(Join(tokens[2..|tokens| - 1], " ")), ParseU32(last))
    else Force(tokens[1], Some(Join(tokens[2..], " ")), None)
  }

  function Missing(cmd: string, arg: string): Result<Command, CommandError> {
    Err(MissingArgument(cmd, arg))
  }

  function CommandOf(tokens: seq<string>, host: HostParser): Result<Command, CommandError> {
    if tokens == [] then Err(Parse("empty statement"))
    else
      var verb := AsciiLower(tokens[0]);
      var short := |tokens| < 2;
      if verb == "bind" then
        if short then Missing("bind", "key") else Ok(Bind(tokens[1], Join(tokens[2..], " ")))
      else if verb == "unbind" then
        if short then Missing("unbind", "key") else Ok(Unbind(tokens[1]))
      else if verb == "toggle" then
        if short then Missing("toggle", "name") else Ok(Toggle(tokens[1], tokens[2..]))
      else if verb == "alias" then
        if short then Missing("alias", "name") else Ok(Alias(tokens[1], Join(tokens[2..], " ")))
      else if verb == "unalias" then
        if short then Missing("unalias", "name") else Ok(Unalias(tokens[1]))
      else if verb == "exec" then
        if short then Missing("exec", "path") else Ok(Exec(tokens[1]))
      else if verb == "echo" then Ok(Echo(Join(tokens[1..], " ")))
      else if verb == "force" || verb == "/force" then
        if short then Missing("force", "tool") else Ok(ForceCommand(tokens))
      else if IsHostVerb(tokens) then
        match host(tokens) case Ok(request) => Ok(Host(request)) case Err(e) => Err(e)
      else if |tokens| == 1 then Ok(GetConVar(tokens[0]))
      else if |tokens| == 2 then Ok(SetConVar(tokens[0], tokens[1]))
      else Ok(Custom(tokens[0], tokens[1..]))
  }

  function ParseStatement(statement: string, host: HostParser): Result<Command, CommandError> {
    match Tokenized(statement)
    case Err(e) => Err(e)
    case Ok(tokens) => CommandOf(tokens, host)
  }

  /** All commands, or the error of the first statement that has one. */
  function ParseAll(statements: seq<string>, host: HostParser): Result<seq<Command>, CommandError> {
    if statements == [] then Ok([])
    else
      match ParseAll(statements[..|statements| - 1], host)
      case Err(e) => Err(e)
      case Ok(commands) =>
        match ParseStatement(statements[|statements| - 1], host)
        case Err(e) => Err(e)
        case Ok(command) => Ok(commands + [command])
  }

  lemma {:induction false} ParseStopsAtError(statements: seq<string>, host: HostParser, k: nat)
    requires k <= |statements| && ParseAll(statements[..k], host).Err?
    ensures ParseAll(statements, host) == ParseAll(statements[..k], host)
  {
    if k == |statements| {
      assert statements[..k] == statements;
    } else {
      var shorter := statements[..|statements| - 1];
      assert shorter[..k] == statements[..k];
      ParseStopsAtError(shorter, host, k);
    }
  }

  function Parsed(script: string, host: HostParser): Result<seq<Command>, CommandError> {
    ParseAll(Statements(script), host)
  }

  method ParseScript(script: string, host: HostParser) returns (result: Result<seq<Command>, CommandError>)
    ensures result == Parsed(script, host)
  {
    hide ParseStatement, SplitRun, Split.Flush;
    var statements := SplitStatements(script);
    var commands := [];
    for k := 0 to |statements|
      invariant ParseAll(statements[..k], host) == Ok(commands)
    {
      assert statements[..k + 1][..k] == statements[..k];
      match ParseStatement(statements[k], host) {
        case Err(e) =>
          ParseStopsAtError(statements, host, k + 1);
          return Err(e);
        case Ok(command) => commands := commands + [command];
      }
    }
    assert statements[..|statements|] == statements;
    result := Ok(commands);
  }

  // ----- Quotes --------------------------------------------------------------

  /** Whether a reader of commands is inside quotes and whether a backslash is pending. */
  datatype Quote = Quote(quoted: bool, escaped: bool) {
    function Next(c: char): Quote {
      if escaped then Quote(quoted, false)
      else if c == '\\' then Quote(quoted, true)
      else if c == '"' then Quote(!quoted, false)
      else this
    }
  }

  function Scan(s: string, q: Quote): Quote {
    if s == [] then q else Scan(s[1..], q.Next(s[0]))
  }

  lemma {:induction false} ScanConcat(a: string, b: string, q: Quote)
    ensures Scan(a + b, q) == Scan(b, Scan(a, q))
  {
    if a == [] {
      assert a + b == b;
    } else {
      assert (a + b)[1..] == a[1..] + b;
      ScanConcat(a[1..], b, q.Next(a[0]));
    }
  }

  lemma {:induction false} WordsNeedClosedQuotes(s: string, tokens: seq<string>, current: string, quoted: bool)
    ensures WordsFrom(s, tokens, current, quoted).Ok? <==> !Scan(s, Quote(quoted, false)).quoted
    decreases |s|
  {
    hide IsWhitespace, Unescape;
    if s == [] {
    } else if s[0] == '\\' {
      if |s| == 1 {
        assert Scan(s[1..], Quote(quoted, true)) == Quote(quoted, true);
      } else {
        assert s[1..][1..] == s[2..];
        WordsNeedClosedQuotes(s[2..], tokens, current + Unescape(s[1]), quoted);
      }
    } else if s[0] == '"' {
      WordsNeedClosedQuotes(s[1..], tokens, current, !quoted);
    } else if IsWhitespace(s[0]) && !quoted {
      WordsNeedClosedQuotes(s[1..], Ended(tokens, current), [], quoted);
    } else {
      WordsNeedClosedQuotes(s[1..], tokens, current + [s[0]], quoted);
    }
  }

  lemma {:induction false} TrimStartScan(s: string)
    ensures Scan(TrimStart(s), Quote(false, false)) == Scan(s, Quote(false, false))
  {
    if s != [] && IsWhitespace(s[0]) {
      TrimStartScan(s[1..]);
    }
  }

  lemma {:induction false} TrimEndScan(s: string, q: Quote)
    ensures Scan(TrimEnd(s), q).quoted == Scan(s, q).quoted
  {
    if s != [] && IsWhitespace(s[|s| - 1]) {
      var last := |s| - 1;
      TrimEndScan(s[..last], q);
      ScanConcat(s[..last], [s[last]], q);
      assert s == s[..last] + [s[last]];
      assert Scan([s[last]], Scan(s[..last], q)) == Scan(s[..last], q).Next(s[last]);
    }
  }

  /** Trimming keeps the quotes balanced or unbalanced as they were. */
  lemma TrimScan(s: string)
    ensures Scan(Trim(s), Quote(false, false)).quoted == Scan(s, Quote(false, false)).quoted
  {
    TrimStartScan(s);
    TrimEndScan(TrimStart(s), Quote(false, false));
  }

  /** Every finished statement has closed quotes; the one being read is quoted as its text says. */
  predicate Tracked(st: Split) {
    && (forall i :: 0 <= i < |st.statements| ==> Tokenized(st.statements[i]).Ok?)
    && Scan(st.current, Quote(false, false)) == Quote(st.quoted, false)
  }

  lemma FlushTracked(st: Split)
    requires Tracked(st) && !st.quoted
    ensures Tracked(st.Flush())
  {
    hide Trim;
    TrimScan(st.current);
    WordsNeedClosedQuotes(Trim(st.current), [], [], false);
  }

  lemma AddTracked(st: Split, text: string, quoted: bool)
    requires Tracked(st) && Scan(text, Quote(st.quoted, false)) == Quote(quoted, false)
    ensures Tracked(Split(st.statements, st.current + text, quoted))
  {
    hide Tokenized;
    ScanConcat(st.current, text, Quote(false, false));
  }

  lemma {:induction false} SplitStaysTracked(s: string, st: Split)
    requires Tracked(st)
    ensures var end := SplitRun(s, st);
      && (forall i :: 0 <= i < |end.statements| ==> Tokenized(end.statements[i]).Ok?)
      && Scan(end.current, Quote(false, false)).quoted == end.quoted
    decreases |s|
  {
    hide Trim, IsWhitespace, Tokenized, Split.Flush, AfterLine;
    if s == [] {
    } else if s[0] == '\\' {
      if |s| == 1 {
        ScanConcat(st.current, "\\", Quote(false, false));
        assert Scan("\\", Quote(st.quoted, false)) == Quote(st.quoted, true);
      } else {
        EscapeScan(s[1], st.quoted);
        AddTracked(st, [s[0], s[1]], st.quoted);
        SplitStaysTracked(s[2..], st.Add([s[0], s[1]]));
      }
    } else if s[0] == '"' {
      AddTracked(st, ['"'], !st.quoted);
      SplitStaysTracked(s[1..], Split(st.statements, st.current + ['"'], !st.quoted));
    } else if st.OpensComment(s) {
      FlushTracked(st);
      SplitStaysTracked(AfterLine(s[2..]), st.Comment());
    } else if s[0] == '#' && !st.quoted {
      FlushTracked(st);
      SplitStaysTracked(AfterLine(s[1..]), st.Comment());
    } else if IsBreak(s[0]) && !st.quoted {
      FlushTracked(st);
      SplitStaysTracked(s[1..], st.Flush());
    } else {
      AddTracked(st, [s[0]], st.quoted);
      SplitStaysTracked(s[1..], st.Add([s[0]]));
    }
  }

  lemma EscapeScan(c: char, quoted: bool)
    ensures Scan(['\\', c], Quote(quoted, false)) == Quote(quoted, false)
  {
    assert ['\\', c][1..] == [c];
    assert Scan([c], Quote(quoted, true)) == Scan([c][1..], Quote(quoted, false));
  }

  /** The script ends outside quotes, comments not counted. */
  predicate EndsUnquoted(script: string) {
    !SplitRun(script, FRESH_SPLIT).quoted
  }

  /**
   No statement of a script has an unclosed quote exactly when the script ends
   outside quotes, and only the last statement can have one.
   */
  lemma StatementsTokenize(script: string)
    ensures EndsUnquoted(script) <==>
      forall i :: 0 <= i < |Statements(script)| ==> Tokenized(Statements(script)[i]).Ok?
    ensures forall i :: 0 <= i < |Statements(script)| - 1 ==> Tokenized(Statements(script)[i]).Ok?
  {
    hide Trim, SplitRun;
    SplitStaysTracked(script, FRESH_SPLIT);
    var end := SplitRun(script, FRESH_SPLIT);
    TrimScan(end.current);
    WordsNeedClosedQuotes(Trim(end.current), [], [], false);
    if end.quoted {
      assert Trim(end.current) != [];
      var last := |end.statements|;
      assert Statements(script)[last] == Trim(end.current);
    }
  }
}
