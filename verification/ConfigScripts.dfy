/** The script written for a child session. */
module ConfigScripts {
  import opened Wrappers
  import opened Text
  import opened CommandText

  /*
   One `exec` per configuration file, each path quoted as a JSON string (RFC
   8259, section 7), read back by the command parser.
   */

  // ----- Writing -------------------------------------------------------------

  function HexDigit(d: nat): (c: char)
    requires d < 16
    ensures '0' <= c <= '9' || 'a' <= c <= 'f'
  {
    if d < 10 then ('0' as int + d) as char else ('a' as int + d - 10) as char
  }

  function UnicodeEscape(c: char): string
    requires c < ' '
  {
    "\\u00" + [HexDigit(c as int / 16), HexDigit(c as int % 16)]
  }

  /** One character of a JSON string. */
  function Escape(c: char): string {
    if c == '"' then "\\\""
    else if c == '\\' then "\\\\"
    else if c == '\n' then "\\n"
    else if c == '\r' then "\\r"
    else if c == '\t' then "\\t"
    else if c == 8 as char then "\\b"
    else if c == 12 as char then "\\f"
    else if c < ' ' then UnicodeEscape(c)
    else [c]
  }

  function Escaped(path: string): string {
    if path == [] then [] else Escape(path[0]) + Escaped(path[1..])
  }

  const EXEC := "exec "

  function ExecStatement(path: string): string {
    EXEC + "\"" + Escaped(path) + "\""
  }

  function ExecStatements(paths: seq<string>): seq<string> {
    if paths == [] then [] else [ExecStatement(paths[0])] + ExecStatements(paths[1..])
  }

  /** Statements written one after the other. */
  function ScriptOf(statements: seq<string>): string {
    Join(statements, "; ")
  }

  function Script(paths: seq<string>): string {
    ScriptOf(ExecStatements(paths))
  }

  // ----- Reading back: statements --------------------------------------------

  /** No special meaning to the splitter outside quotes. */
  predicate Plain(c: char) {
    c != '\\' && c != '"' && c != '#' && c != '/' && !IsBreak(c)
  }

  lemma {:induction false} SplitPlain(a: string, rest: string, st: Split)
    requires forall i :: 0 <= i < |a| ==> Plain(a[i])
    ensures SplitRun(a + rest, st) == SplitRun(rest, st.Add(a))
  {
    if a == [] {
      assert a + rest == rest;
      assert st.current + a == st.current;
    } else {
      assert (a + rest)[1..] == a[1..] + rest;
      SplitPlain(a[1..], rest, st.Add([a[0]]));
      assert st.current + [a[0]] + a[1..] == st.current + a;
    }
  }

  lemma {:induction false} SplitQuoted(a: string, rest: string, st: Split)
    requires st.quoted && forall i :: 0 <= i < |a| ==> a[i] != '\\' && a[i] != '"'
    ensures SplitRun(a + rest, st) == SplitRun(rest, st.Add(a))
  {
    if a == [] {
      assert a + rest == rest;
      assert st.current + a == st.current;
    } else {
      assert (a + rest)[1..] == a[1..] + rest;
      SplitQuoted(a[1..], rest, st.Add([a[0]]));
      assert st.current + [a[0]] + a[1..] == st.current + a;
    }
  }

  /** An escape is a backslash, a character, and perhaps some plain digits. */
  lemma EscapeShape(c: char)
    ensures c >= ' ' && c != '"' && c != '\\' ==> Escape(c) == [c]
    ensures c < ' ' || c == '"' || c == '\\' ==> |Escape(c)| >= 2 && Escape(c)[0] == '\\'
    ensures forall i :: 2 <= i < |Escape(c)| ==> Escape(c)[i] != '\\' && Escape(c)[i] != '"'
  {
  }

  lemma SplitEscape(c: char, rest: string, st: Split)
    requires st.quoted
    ensures SplitRun(Escape(c) + rest, st) == SplitRun(rest, st.Add(Escape(c)))
  {
    var e := Escape(c);
    EscapeShape(c);
    hide Escape;
    if c >= ' ' && c != '"' && c != '\\' {
      SplitQuoted(e, rest, st);
    } else {
      var head := [e[0], e[1]];
      assert e + rest == head + (e[2..] + rest);
      assert (e + rest)[2..] == e[2..] + rest;
      SplitQuoted(e[2..], rest, st.Add(head));
      assert st.current + head + e[2..] == st.current + e;
    }
  }

  lemma {:induction false} SplitEscaped(path: string, rest: string, st: Split)
    requires st.quoted
    ensures SplitRun(Escaped(path) + rest, st) == SplitRun(rest, st.Add(Escaped(path)))
  {
    hide SplitRun, Escape;
    if path == [] {
      assert Escaped(path) + rest == rest;
      assert st.current + Escaped(path) == st.current;
    } else {
      var e, more := Escape(path[0]), Escaped(path[1..]);
      assert Escaped(path) + rest == e + (more + rest);
      SplitEscape(path[0], more + rest, st);
      SplitEscaped(path[1..], rest, st.Add(e));
      assert st.current + e + more == st.current + (e + more);
    }
  }

  lemma SplitQuote(rest: string, st: Split)
    ensures SplitRun("\"" + rest, st) == SplitRun(rest, Split(st.statements, st.current + "\"", !st.quoted))
  {
    assert ("\"" + rest)[1..] == rest;
  }

  /** A quoted statement is read as a whole, whatever the path holds. */
  lemma SplitStatement(path: string, rest: string, st: Split)
    requires !st.quoted
    ensures SplitRun(ExecStatement(path) + rest, st) == SplitRun(rest, st.Add(ExecStatement(path)))
  {
    hide SplitRun, Escaped;
    var closing := "\"" + rest;
    var body := Escaped(path) + closing;
    assert ExecStatement(path) + rest == EXEC + ("\"" + body);
    SplitPlain(EXEC, "\"" + body, st);
    SplitQuote(body, st.Add(EXEC));
    var inside := Split(st.statements, st.current + EXEC + "\"", true);
    SplitEscaped(path, closing, inside);
    SplitQuote(rest, inside.Add(Escaped(path)));
    assert st.current + EXEC + "\"" + Escaped(path) + "\"" == st.current + ExecStatement(path);
  }

  /** The splitter reads the statement as a whole, and there is nothing around it to trim. */
  ghost predicate Sealed(s: string) {
    && s != [] && !IsWhitespace(s[0]) && !IsWhitespace(s[|s| - 1])
    && forall rest: string, st: Split :: !st.quoted ==> SplitRun(s + rest, st) == SplitRun(rest, st.Add(s))
  }

  lemma ExecIsSealed(path: string)
    ensures Sealed(ExecStatement(path))
  {
    hide Escaped, SplitRun;
    var s := ExecStatement(path);
    assert s[0] == 'e' && s[|s| - 1] == '"';
    forall rest: string, st: Split | !st.quoted
      ensures SplitRun(s + rest, st) == SplitRun(rest, st.Add(s))
    {
      SplitStatement(path, rest, st);
    }
  }

  /** A sealed statement, with the blank that follows a semicolon or without, trims to itself. */
  lemma TrimStatement(s: string)
    requires s != [] && !IsWhitespace(s[0]) && !IsWhitespace(s[|s| - 1])
    ensures Trim(s) == s && Trim(" " + s) == s
  {
    assert (" " + s)[1..] == s;
  }

  predicate IsLead(lead: string) {
    lead == "" || lead == " "
  }

  lemma FlushStatement(s: string, st: Split)
    requires s != [] && !IsWhitespace(s[0]) && !IsWhitespace(s[|s| - 1])
    requires IsLead(st.current) && !st.quoted
    ensures st.Add(s).Flush() == Split(st.statements + [s], [], false)
  {
    hide Trim, IsWhitespace;
    TrimStatement(s);
    assert "" + s == s;
  }

  lemma SplitSeparator(rest: string, st: Split)
    requires !st.quoted
    ensures SplitRun("; " + rest, st) == SplitRun(rest, st.Flush().Add(" "))
  {
    hide Split.Flush;
    assert ("; " + rest)[1..] == " " + rest;
    FlushStaysUnquoted(st);
    SplitPlain(" ", rest, st.Flush());
  }

  lemma FlushStaysUnquoted(st: Split)
    ensures st.Flush().quoted == st.quoted
  {
    hide Trim;
  }

  lemma {:induction false} SplitScript(statements: seq<string>, st: Split)
    requires IsLead(st.current) && !st.quoted && forall s :: s in statements ==> Sealed(s)
    ensures SplitRun(ScriptOf(statements), st).Flush() == Split(st.statements + statements, [], false)
  {
    hide Trim, SplitRun, Split.Flush, IsWhitespace;
    if statements == [] {
      assert SplitRun("", st) == st by { SplitNothing(st); }
      assert st.Flush() == Split(st.statements, [], false) by { FlushLead(st); }
      assert st.statements + [] == st.statements;
    } else {
      var first := statements[0];
      assert Sealed(first);
      FlushStatement(first, st);
      if |statements| == 1 {
        assert statements == [first];
        assert ScriptOf(statements) == first + "";
        assert SplitRun(first + "", st) == SplitRun("", st.Add(first));
        SplitNothing(st.Add(first));
      } else {
        var rest := ScriptOf(statements[1..]);
        assert ScriptOf(statements) == first + ("; " + rest);
        assert SplitRun(first + ("; " + rest), st) == SplitRun("; " + rest, st.Add(first));
        var done := Split(st.statements + [first], [], false);
        SplitSeparator(rest, st.Add(first));
        SplitScript(statements[1..], done.Add(" "));
        assert st.statements + [first] + statements[1..] == st.statements + statements;
      }
    }
  }

  lemma SplitNothing(st: Split)
    ensures SplitRun("", st) == st
  {
  }

  lemma FlushLead(st: Split)
    requires IsLead(st.current) && !st.quoted
    ensures st.Flush() == Split(st.statements, [], false)
  {
    if st.current == " " {
      assert " "[1..] == [];
      assert TrimStart(" ") == TrimStart([]);
    }
  }

  /** A script of sealed statements splits into them. */
  lemma StatementsOfSealed(statements: seq<string>)
    requires forall s :: s in statements ==> Sealed(s)
    ensures Statements(ScriptOf(statements)) == statements
  {
    hide SplitRun, Split.Flush, Sealed, ScriptOf;
    SplitScript(statements, FRESH_SPLIT);
    assert [] + statements == statements;
  }

  /** The script splits into one statement per path, for every list of paths. */
  lemma StatementsOfScript(paths: seq<string>)
    ensures Statements(Script(paths)) == ExecStatements(paths)
  {
    hide Statements, Sealed, ExecStatement, ScriptOf;
    ExecStatementsAt(paths);
    forall s | s in ExecStatements(paths)
      ensures Sealed(s)
    {
      var i :| 0 <= i < |paths| && ExecStatements(paths)[i] == s;
      ExecIsSealed(paths[i]);
    }
    StatementsOfSealed(ExecStatements(paths));
  }

  // ----- Reading back: words -------------------------------------------------

  /** Control characters the command reader has no escape for. */
  predicate Unreadable(c: char) {
    c < ' ' && c != '\n' && c != '\r' && c != '\t'
  }

  /** What a quoted path is read back as. */
  function Reread(path: string): string {
    if path == [] then []
    else (if Unreadable(path[0]) then Escape(path[0]) else [path[0]]) + Reread(path[1..])
  }

  lemma {:induction false} WordsQuoted(a: string, rest: string, tokens: seq<string>, current: string)
    requires forall i :: 0 <= i < |a| ==> a[i] != '\\' && a[i] != '"'
    ensures WordsFrom(a + rest, tokens, current, true) == WordsFrom(rest, tokens, current + a, true)
  {
    if a == [] {
      assert a + rest == rest;
      assert current + a == current;
    } else {
      assert (a + rest)[1..] == a[1..] + rest;
      WordsQuoted(a[1..], rest, tokens, current + [a[0]]);
      assert current + [a[0]] + a[1..] == current + a;
    }
  }

  lemma WordsEscape(c: char, rest: string, tokens: seq<string>, current: string)
    ensures WordsFrom(Escape(c) + rest, tokens, current, true) ==
      WordsFrom(rest, tokens, current + (if Unreadable(c) then Escape(c) else [c]), true)
  {
    var e := Escape(c);
    EscapeShape(c);
    if c >= ' ' && c != '"' && c != '\\' {
      WordsQuoted(e, rest, tokens, current);
    } else {
      var read := Unescape(e[1]);
      UnescapeUndoes(c);
      hide Escape, Unescape, WordsFrom, Unreadable;
      assert (e + rest)[2..] == e[2..] + rest;
      WordsPair(e + rest, tokens, current);
      WordsQuoted(e[2..], rest, tokens, current + read);
      assert current + read + e[2..] == current + (read + e[2..]);
    }
  }

  lemma WordsPair(s: string, tokens: seq<string>, current: string)
    requires |s| >= 2 && s[0] == '\\'
    ensures WordsFrom(s, tokens, current, true) == WordsFrom(s[2..], tokens, current + Unescape(s[1]), true)
  {
    hide Unescape;
  }

  lemma UnescapeUndoes(c: char)
    requires |Escape(c)| >= 2
    ensures Unescape(Escape(c)[1]) + Escape(c)[2..] == if Unreadable(c) then Escape(c) else [c]
  {
  }

  lemma {:induction false} WordsEscaped(path: string, rest: string, tokens: seq<string>, current: string)
    ensures WordsFrom(Escaped(path) + rest, tokens, current, true) ==
      WordsFrom(rest, tokens, current + Reread(path), true)
  {
    hide WordsFrom, Escape;
    if path == [] {
      assert Escaped(path) + rest == rest;
      assert current + Reread(path) == current;
    } else {
      var e, more := Escape(path[0]), Escaped(path[1..]);
      var read := if Unreadable(path[0]) then Escape(path[0]) else [path[0]];
      assert Escaped(path) + rest == e + (more + rest);
      WordsEscape(path[0], more + rest, tokens, current);
      WordsEscaped(path[1..], rest, tokens, current + read);
      assert current + read + Reread(path[1..]) == current + Reread(path);
    }
  }

  lemma {:induction false} WordsPlain(a: string, rest: string, tokens: seq<string>, current: string)
    requires forall i :: 0 <= i < |a| ==> a[i] != '\\' && a[i] != '"' && !IsWhitespace(a[i])
    ensures WordsFrom(a + rest, tokens, current, false) == WordsFrom(rest, tokens, current + a, false)
  {
    if a == [] {
      assert a + rest == rest;
      assert current + a == current;
    } else {
      assert (a + rest)[1..] == a[1..] + rest;
      WordsPlain(a[1..], rest, tokens, current + [a[0]]);
      assert current + [a[0]] + a[1..] == current + a;
    }
  }

  lemma ExecWord(rest: string)
    ensures WordsFrom("exec " + rest, [], [], false) == WordsFrom(rest, ["exec"], [], false)
  {
    assert "exec " + rest == "exec" + (" " + rest);
    WordsPlain("exec", " " + rest, [], []);
    assert [] + "exec" == "exec";
    assert (" " + rest)[1..] == rest;
    assert WordsFrom(" " + rest, [], "exec", false) == WordsFrom(rest, Ended([], "exec"), [], false);
    assert [] + ["exec"] == ["exec"];
  }

  /** The words of a written statement: the verb, and the path if any of it is left. */
  lemma WordsOfStatement(path: string)
    ensures Tokenized(ExecStatement(path)) == Ok(Ended(["exec"], Reread(path)))
  {
    var body := Escaped(path) + "\"";
    assert ExecStatement(path) == "exec " + ("\"" + body);
    ExecWord("\"" + body);
    assert ("\"" + body)[1..] == body;
    assert WordsFrom("\"" + body, ["exec"], [], false) == WordsFrom(body, ["exec"], [], true);
    WordsEscaped(path, "\"", ["exec"], []);
    assert [] + Reread(path) == Reread(path);
    assert "\""[1..] == [];
    assert WordsFrom("\"", ["exec"], Reread(path), true) == WordsFrom([], ["exec"], Reread(path), false);
  }

  /** What a written statement is parsed as. */
  lemma StatementParses(path: string, host: HostParser)
    ensures ParseStatement(ExecStatement(path), host) ==
      if path == [] then Err(MissingArgument("exec", "path")) else Ok(Exec(Reread(path)))
  {
    hide Tokenized, ExecStatement;
    WordsOfStatement(path);
    assert path != [] ==> Reread(path) != [];
    assert AsciiLower("exec") == "exec";
  }

  /** Nonempty, and every control character one the reader understands. */
  predicate Faithful(path: string) {
    path != [] && forall i :: 0 <= i < |path| ==> !Unreadable(path[i])
  }

  lemma {:induction false} RereadFaithfully(path: string)
    ensures |Reread(path)| >= |path|
    ensures Reread(path) == path <==> forall i :: 0 <= i < |path| ==> !Unreadable(path[i])
  {
    if path != [] {
      RereadFaithfully(path[1..]);
      var head := if Unreadable(path[0]) then Escape(path[0]) else [path[0]];
      hide Reread;
      if Unreadable(path[0]) {
        assert |head| >= 2;
        assert |Reread(path)| > |path|;
      } else {
        assert head == [path[0]];
        assert path == [path[0]] + path[1..];
        assert Reread(path)[1..] == Reread(path[1..]);
      }
    }
  }

  function Execs(paths: seq<string>): seq<Command> {
    seq(|paths|, i requires 0 <= i < |paths| => Exec(paths[i]))
  }

  lemma {:induction false} ExecStatementsAt(paths: seq<string>)
    ensures |ExecStatements(paths)| == |paths|
    ensures forall i :: 0 <= i < |paths| ==> ExecStatements(paths)[i] == ExecStatement(paths[i])
  {
    hide ExecStatement;
    if paths != [] {
      ExecStatementsAt(paths[1..]);
    }
  }

  /** Parsing statement by statement gives exactly these commands. */
  lemma {:induction false} ParseAllGives(statements: seq<string>, host: HostParser, commands: seq<Command>)
    requires |statements| == |commands|
    ensures ParseAll(statements, host) == Ok(commands) <==>
      forall i :: 0 <= i < |statements| ==> ParseStatement(statements[i], host) == Ok(commands[i])
  {
    hide ParseStatement;
    if statements != [] {
      var last := |statements| - 1;
      ParseAllGives(statements[..last], host, commands[..last]);
      assert commands == commands[..last] + [commands[last]];
    } else {
      assert commands == [];
    }
  }

  /**
   The written script parses to exactly one `exec` per path, in order, if and
   only if every path is nonempty and has no control character other than tab,
   line feed and carriage return.
   */
  lemma ScriptRoundTrip(paths: seq<string>, host: HostParser)
    ensures Parsed(Script(paths), host) == Ok(Execs(paths)) <==> forall p :: p in paths ==> Faithful(p)
  {
    hide Script, Statements, ParseStatement, ParseAll, Reread, ExecStatement;
    StatementsOfScript(paths);
    ExecStatementsAt(paths);
    ParseAllGives(ExecStatements(paths), host, Execs(paths));
    forall i | 0 <= i < |paths|
      ensures ParseStatement(ExecStatements(paths)[i], host) == Ok(Execs(paths)[i]) <==> Faithful(paths[i])
    {
      StatementParses(paths[i], host);
      RereadFaithfully(paths[i]);
    }
  }
}
