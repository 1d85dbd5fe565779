/** Commands written down and read back. */
module WrittenCommands {
  import opened Wrappers
  import opened Text
  import opened Revisions
  import opened CommandText
  import opened ConfigScripts

  /*
   Every command of the language's own, written as quoted words, and a script of
   such statements. What the parser makes of it, and exactly when that is the
   commands themselves.
   */

  // ----- Writing -------------------------------------------------------------

  function QuotedWord(word: string): string {
    "\"" + Escaped(word) + "\""
  }

  function WrittenLine(words: seq<string>): string {
    if words == [] then []
    else if |words| == 1 then QuotedWord(words[0])
    else QuotedWord(words[0]) + (" " + WrittenLine(words[1..]))
  }

  /** A text that may be left out. */
  function Optional(text: string): seq<string> {
    if text == [] then [] else [text]
  }

  const OWN_VERBS: set<string> := {"bind", "unbind", "toggle", "alias", "unalias", "exec", "echo", "force", "/force"}

  predicate OwnVerb(name: string) {
    AsciiLower(name) in OWN_VERBS
  }

  /** The words a command is written with. */
  function WordsOf(c: Command): seq<string> {
    match c
    case SetConVar(name, value) => [name, value]
    case GetConVar(name) => [name]
    case Bind(key, text) => ["bind", key] + Optional(text)
    case Unbind(key) => ["unbind", key]
    case Toggle(name, values) => ["toggle", name] + values
    case Alias(name, text) => ["alias", name] + Optional(text)
    case Unalias(name) => ["unalias", name]
    case Exec(path) => ["exec", path]
    case Echo(message) => ["echo"] + Optional(message)
    case Force(tool, reminder, maxAttempts) =>
      ["force", tool]
      + (if reminder.Some? then [reminder.value] else [])
      + (if reminder.Some? && maxAttempts.Some? then [Decimal(maxAttempts.value)] else [])
    case Host(request) => [request]
    case Custom(name, args) => [name] + args
  }

  // ----- Reading back: statements --------------------------------------------

  lemma WordSplits(word: string, rest: string, st: Split)
    requires !st.quoted
    ensures SplitRun(QuotedWord(word) + rest, st) == SplitRun(rest, st.Add(QuotedWord(word)))
  {
    hide SplitRun, Escaped;
    var closing := "\"" + rest;
    assert QuotedWord(word) + rest == "\"" + (Escaped(word) + closing);
    SplitQuote(Escaped(word) + closing, st);
    var inside := Split(st.statements, st.current + "\"", true);
    SplitEscaped(word, closing, inside);
    SplitQuote(rest, inside.Add(Escaped(word)));
    assert st.current + "\"" + Escaped(word) + "\"" == st.current + QuotedWord(word);
  }

  lemma {:induction false} LineSplits(words: seq<string>, rest: string, st: Split)
    requires !st.quoted && words != []
    ensures SplitRun(WrittenLine(words) + rest, st) == SplitRun(rest, st.Add(WrittenLine(words)))
  {
    hide SplitRun, QuotedWord;
    if |words| == 1 {
      WordSplits(words[0], rest, st);
    } else {
      var first, more := QuotedWord(words[0]), WrittenLine(words[1..]);
      assert WrittenLine(words) + rest == first + (" " + (more + rest));
      WordSplits(words[0], " " + (more + rest), st);
      SplitPlain(" ", more + rest, st.Add(first));
      LineSplits(words[1..], rest, st.Add(first).Add(" "));
      assert st.current + first + " " + more == st.current + WrittenLine(words);
    }
  }

  lemma {:induction false} LineEnds(words: seq<string>)
    requires words != []
    ensures var line := WrittenLine(words); line != [] && line[0] == '"' && line[|line| - 1] == '"'
  {
    hide Escaped;
    if |words| > 1 {
      LineEnds(words[1..]);
    }
  }

  /** A written line is read as a whole, whatever its words hold. */
  lemma LineIsSealed(words: seq<string>)
    requires words != []
    ensures Sealed(WrittenLine(words))
  {
    hide SplitRun, WrittenLine;
    LineEnds(words);
    var line := WrittenLine(words);
    forall rest: string, st: Split | !st.quoted
      ensures SplitRun(line + rest, st) == SplitRun(rest, st.Add(line))
    {
      LineSplits(words, rest, st);
    }
  }

  // ----- Reading back: words -------------------------------------------------

  /** The words a written line is read back as: an empty one is lost. */
  function ReadWords(words: seq<string>): seq<string> {
    if words == [] then [] else (if words[0] == [] then [] else [Reread(words[0])]) + ReadWords(words[1..])
  }

  lemma {:induction false} ReadWordsAre(words: seq<string>)
    ensures |ReadWords(words)| <= |words|
    ensures |ReadWords(words)| == |words| ==>
      forall i :: 0 <= i < |words| ==> words[i] != [] && ReadWords(words)[i] == Reread(words[i])
    ensures ReadWords(words) == words <==> forall w :: w in words ==> Faithful(w)
  {
    hide Reread;
    if words != [] {
      ReadWordsAre(words[1..]);
      RereadFaithfully(words[0]);
      assert words == [words[0]] + words[1..];
      if |ReadWords(words)| == |words| {
        assert ReadWords(words) == [Reread(words[0])] + ReadWords(words[1..]);
        assert ReadWords(words)[1..] == ReadWords(words[1..]);
      }
      if forall w :: w in words ==> Faithful(w) {
        assert Faithful(words[0]);
      }
    }
  }

  lemma WordReads(word: string, rest: string, tokens: seq<string>)
    ensures WordsFrom(QuotedWord(word) + rest, tokens, [], false) == WordsFrom(rest, tokens, Reread(word), false)
  {
    hide Escaped, Reread;
    var closing := "\"" + rest;
    var all := QuotedWord(word) + rest;
    assert all == "\"" + (Escaped(word) + closing);
    assert all[1..] == Escaped(word) + closing;
    assert WordsFrom(all, tokens, [], false) == WordsFrom(Escaped(word) + closing, tokens, [], true);
    hide WordsFrom;
    WordsEscaped(word, closing, tokens, []);
    assert [] + Reread(word) == Reread(word);
    QuoteCloses(rest, tokens, Reread(word));
  }

  lemma QuoteCloses(rest: string, tokens: seq<string>, current: string)
    ensures WordsFrom("\"" + rest, tokens, current, true) == WordsFrom(rest, tokens, current, false)
  {
    assert ("\"" + rest)[1..] == rest;
  }

  lemma BlankEnds(rest: string, tokens: seq<string>, current: string)
    ensures WordsFrom(" " + rest, tokens, current, false) == WordsFrom(rest, Ended(tokens, current), [], false)
  {
    assert (" " + rest)[1..] == rest;
  }

  lemma {:induction false} LineReads(words: seq<string>, tokens: seq<string>)
    requires words != []
    ensures WordsFrom(WrittenLine(words), tokens, [], false) == Ok(tokens + ReadWords(words))
  {
    hide QuotedWord, Reread, WordsFrom, ReadWords, WrittenLine;
    var w := words[0];
    FirstWord(words, tokens);
    if |words| == 1 {
      LastLine(words);
      WordReads(w, [], tokens);
      LineOver(tokens, Reread(w));
    } else {
      var more := WrittenLine(words[1..]);
      LongerLine(words);
      WordReads(w, " " + more, tokens);
      BlankEnds(more, tokens, Reread(w));
      LineReads(words[1..], Ended(tokens, Reread(w)));
    }
  }

  lemma FirstWord(words: seq<string>, tokens: seq<string>)
    requires words != []
    ensures tokens + ReadWords(words) == Ended(tokens, Reread(words[0])) + ReadWords(words[1..])
    ensures |words| == 1 ==> tokens + ReadWords(words) == Ended(tokens, Reread(words[0]))
  {
    hide Reread, ReadWords;
    var w, rest := words[0], ReadWords(words[1..]);
    EmptyReread(w);
    ReadWordsStep(words);
    NoWords(words[1..]);
    if w == [] {
      LeadNothing(rest);
    } else {
      Regroup(tokens, [Reread(w)], rest);
      TrailNothing(tokens + [Reread(w)]);
    }
    TrailNothing(tokens);
  }

  lemma ReadWordsStep(words: seq<string>)
    requires words != []
    ensures ReadWords(words) == (if words[0] == [] then [] else [Reread(words[0])]) + ReadWords(words[1..])
  {
    hide Reread;
  }

  lemma NoWords(words: seq<string>)
    ensures words == [] ==> ReadWords(words) == []
  {
  }

  lemma LeadNothing(words: seq<string>)
    ensures [] + words == words
  {
  }

  lemma TrailNothing(words: seq<string>)
    ensures words + [] == words
  {
  }

  lemma Regroup(a: seq<string>, b: seq<string>, c: seq<string>)
    ensures a + (b + c) == a + b + c
  {
  }

  lemma LastLine(words: seq<string>)
    requires |words| == 1
    ensures WrittenLine(words) == QuotedWord(words[0]) + []
  {
    hide QuotedWord;
  }

  lemma LongerLine(words: seq<string>)
    requires |words| > 1
    ensures WrittenLine(words) == QuotedWord(words[0]) + (" " + WrittenLine(words[1..]))
  {
    hide QuotedWord;
  }

  lemma EmptyReread(word: string)
    ensures Reread(word) == [] <==> word == []
  {
    if word != [] {
      RereadFaithfully(word);
    }
  }

  lemma LineOver(tokens: seq<string>, current: string)
    ensures WordsFrom([], tokens, current, false) == Ok(Ended(tokens, current))
  {
  }

  lemma LineTokens(words: seq<string>)
    requires words != []
    ensures Tokenized(WrittenLine(words)) == Ok(ReadWords(words))
  {
    hide WordsFrom;
    LineReads(words, []);
    assert [] + ReadWords(words) == ReadWords(words);
  }

  // ----- Numbers -------------------------------------------------------------

  lemma {:induction false} DecimalValue(n: nat)
    ensures AllDigits(Decimal(n)) && DigitsValue(Decimal(n)) == n
  {
    if n >= 10 {
      DecimalValue(n / 10);
      assert Decimal(n)[..|Decimal(n)| - 1] == Decimal(n / 10);
    } else {
      assert Decimal(n)[..0] == [];
    }
  }

  lemma DecimalParses(n: nat)
    ensures ParseU32(Decimal(n)) == if n < 0x1_0000_0000 then Some(n) else None
    ensures Faithful(Decimal(n)) && Reread(Decimal(n)) == Decimal(n)
  {
    DecimalValue(n);
    assert Decimal(n)[0] != '+';
    RereadFaithfully(Decimal(n));
  }

  // ----- One verb after the other --------------------------------------------

  lemma LowerVerbs()
    ensures AsciiLower("bind") == "bind" && AsciiLower("unbind") == "unbind" && AsciiLower("toggle") == "toggle"
    ensures AsciiLower("alias") == "alias" && AsciiLower("unalias") == "unalias" && AsciiLower("exec") == "exec"
    ensures AsciiLower("echo") == "echo" && AsciiLower("force") == "force" && AsciiLower("/force") == "/force"
  {
  }

  lemma VerbsDiffer()
    ensures "bind" != "exec" && "bind" != "echo" && "exec" != "echo"
    ensures "unbind" != "toggle" && "unbind" != "/force" && "toggle" != "/force"
    ensures "alias" != "force"
  {
    assert "bind"[0] != "exec"[0] && "bind"[0] != "echo"[0] && "exec"[1] != "echo"[1];
    assert "unbind"[0] != "toggle"[0] && "unbind"[0] != "/force"[0] && "toggle"[0] != "/force"[0];
    assert "alias"[0] != "force"[0];
  }

  lemma VerbLengths()
    ensures |"bind"| == |"exec"| == |"echo"| == 4 && |"alias"| == |"force"| == 5
    ensures |"unbind"| == |"toggle"| == |"/force"| == 6 && |"unalias"| == 7
  {
  }

  /** What a statement's words parse to, by their first one. */
  lemma OwnVerbParses(tokens: seq<string>, host: HostParser)
    requires tokens != []
    ensures tokens[0] == "bind" ==>
      CommandOf(tokens, host) == if |tokens| < 2 then Missing("bind", "key") else Ok(Bind(tokens[1], Join(tokens[2..], " ")))
    ensures tokens[0] == "unbind" ==>
      CommandOf(tokens, host) == if |tokens| < 2 then Missing("unbind", "key") else Ok(Unbind(tokens[1]))
    ensures tokens[0] == "toggle" ==>
      CommandOf(tokens, host) == if |tokens| < 2 then Missing("toggle", "name") else Ok(Toggle(tokens[1], tokens[2..]))
    ensures tokens[0] == "alias" ==>
      CommandOf(tokens, host) == if |tokens| < 2 then Missing("alias", "name") else Ok(Alias(tokens[1], Join(tokens[2..], " ")))
    ensures tokens[0] == "unalias" ==>
      CommandOf(tokens, host) == if |tokens| < 2 then Missing("unalias", "name") else Ok(Unalias(tokens[1]))
    ensures tokens[0] == "exec" ==>
      CommandOf(tokens, host) == if |tokens| < 2 then Missing("exec", "path") else Ok(Exec(tokens[1]))
    ensures tokens[0] == "echo" ==>
      CommandOf(tokens, host) == Ok(Echo(Join(tokens[1..], " ")))
    ensures tokens[0] == "force" ==>
      CommandOf(tokens, host) == if |tokens| < 2 then Missing("force", "tool") else Ok(ForceCommand(tokens))
  {
    hide AsciiLower, Join, ForceCommand, IsHostVerb;
    LowerVerbs();
    VerbsDiffer();
    VerbLengths();
  }

  /** The verb a command of the language's own is written with; the others start with a name. */
  function VerbOf(c: Command): Option<string> {
    match c
    case Bind(_, _) => Some("bind")
    case Unbind(_) => Some("unbind")
    case Toggle(_, _) => Some("toggle")
    case Alias(_, _) => Some("alias")
    case Unalias(_) => Some("unalias")
    case Exec(_) => Some("exec")
    case Echo(_) => Some("echo")
    case Force(_, _, _) => Some("force")
    case _ => None
  }

  /** A command the grammar has a place for. */
  predicate Shaped(c: Command) {
    match c
    case SetConVar(name, value) => !OwnVerb(name) && !IsHostVerb([name, value])
    case GetConVar(name) => !OwnVerb(name) && !IsHostVerb([name])
    case Custom(name, args) => |args| >= 2 && !OwnVerb(name) && !IsHostVerb([name] + args)
    case Force(_, reminder, maxAttempts) =>
      maxAttempts.Some? ==> reminder.Some? && maxAttempts.value < 0x1_0000_0000
    case Host(_) => false
    case _ => true
  }

  /** Every word is nonempty and free of control characters the reader has no escape for. */
  predicate Writable(c: Command) {
    Shaped(c) && forall w :: w in WordsOf(c) ==> Faithful(w)
  }

  lemma JoinOne(text: string)
    ensures Join([], " ") == [] && Join([text], " ") == text
  {
  }

  lemma JoinOptional(text: string)
    ensures Join(Optional(text), " ") == text
  {
    JoinOne(text);
  }

  /** Names that are no verbs make queries, assignments and custom commands, by the number of words. */
  lemma NameParses(tokens: seq<string>, host: HostParser)
    requires tokens != [] && !OwnVerb(tokens[0]) && !IsHostVerb(tokens)
    ensures CommandOf(tokens, host) == Ok(
      if |tokens| == 1 then GetConVar(tokens[0])
      else if |tokens| == 2 then SetConVar(tokens[0], tokens[1])
      else Custom(tokens[0], tokens[1..]))
  {
    hide AsciiLower, IsHostVerb, ForceCommand, Join;
  }

  /** The words of a shaped command parse to it. */
  lemma WordsParse(c: Command, host: HostParser)
    requires Shaped(c)
    ensures CommandOf(WordsOf(c), host) == Ok(c)
  {
    hide CommandOf, IsHostVerb, OwnVerb, ParseU32, Join;
    var words := WordsOf(c);
    match c {
      case SetConVar(name, value) => NameParses(words, host);
      case GetConVar(name) => NameParses(words, host);
      case Custom(name, args) =>
        NameParses(words, host);
        assert words[1..] == args;
      case Bind(key, text) =>
        OwnVerbParses(words, host);
        JoinOptional(text);
        assert words[2..] == Optional(text);
      case Alias(name, text) =>
        OwnVerbParses(words, host);
        JoinOptional(text);
        assert words[2..] == Optional(text);
      case Echo(message) =>
        OwnVerbParses(words, host);
        JoinOptional(message);
        assert words[1..] == Optional(message);
      case Toggle(name, values) =>
        OwnVerbParses(words, host);
        assert words[2..] == values;
      case Force(tool, reminder, maxAttempts) =>
        OwnVerbParses(words, host);
        ForceParses(c);
      case _ => OwnVerbParses(words, host);
    }
  }

  lemma ForceParses(c: Command)
    requires c.Force? && Shaped(c)
    ensures |WordsOf(c)| > 1 && ForceCommand(WordsOf(c)) == c
  {
    hide ParseU32, Join;
    var words := WordsOf(c);
    if c.maxAttempts.Some? {
      DecimalParses(c.maxAttempts.value);
      assert words[2..|words| - 1] == [c.reminder.value];
      JoinOne(c.reminder.value);
    } else if c.reminder.Some? {
      assert words[2..] == [c.reminder.value];
      JoinOne(c.reminder.value);
    }
  }

  /** The last word of a written `force` with a count is the count. */
  predicate Counted(c: Command) {
    c.Force? && c.reminder.Some? && c.maxAttempts.Some?
  }

  /** Words that parse to a command, and are no more than its own, are its own. */
  lemma ParsedWords(tokens: seq<string>, host: HostParser, c: Command)
    requires CommandOf(tokens, host) == Ok(c) && !c.Host? && |tokens| <= |WordsOf(c)|
    requires VerbOf(c).Some? ==> tokens[0] == VerbOf(c).value
    requires Counted(c) && |tokens| == 4 ==> tokens[3] == Decimal(c.maxAttempts.value)
    ensures tokens == WordsOf(c) && Shaped(c)
  {
    if VerbOf(c).None? {
      PlainNamesOnly(tokens, host, c);
      assert tokens == [tokens[0]] + tokens[1..];
    } else {
      hide CommandOf, IsHostVerb, OwnVerb, ParseU32, Join;
      OwnVerbParses(tokens, host);
      match c {
        case Bind(key, text) => OneJoined(tokens[2..], text);
        case Alias(name, text) => OneJoined(tokens[2..], text);
        case Echo(message) => OneJoined(tokens[1..], message);
        case Force(_, _, _) => ForcedWords(tokens, c);
        case _ =>
      }
    }
  }

  /** At most one word, joined, is that word or nothing. */
  lemma OneJoined(words: seq<string>, text: string)
    requires Join(words, " ") == text && |words| <= |Optional(text)|
    ensures words == Optional(text)
  {
    JoinOne(text);
  }

  lemma ForcedWords(tokens: seq<string>, c: Command)
    requires c.Force? && |tokens| > 1 && ForceCommand(tokens) == c && tokens[0] == "force" && |tokens| <= |WordsOf(c)|
    requires Counted(c) && |tokens| == 4 ==> tokens[3] == Decimal(c.maxAttempts.value)
    ensures tokens == WordsOf(c) && Shaped(c)
  {
    hide ParseU64, Join;
    if |tokens| == 3 {
      assert tokens[2..] == [tokens[2]];
      JoinOne(tokens[2]);
    } else if |tokens| == 4 {
      assert tokens[2..3] == [tokens[2]];
      JoinOne(tokens[2]);
    }
  }

  lemma ForceIsForce(tokens: seq<string>)
    requires |tokens| > 1
    ensures ForceCommand(tokens).Force?
  {
  }

  lemma PlainNamesOnly(tokens: seq<string>, host: HostParser, c: Command)
    requires CommandOf(tokens, host) == Ok(c) && !c.Host? && VerbOf(c).None?
    ensures tokens != [] && !OwnVerb(tokens[0]) && !IsHostVerb(tokens)
    ensures tokens == WordsOf(c) && Shaped(c)
  {
    hide IsHostVerb, Join, ForceCommand, AsciiLower;
    assert tokens != [];
    if |tokens| > 1 {
      ForceIsForce(tokens);
    }
    if !OwnVerb(tokens[0]) && !IsHostVerb(tokens) {
      NameParses(tokens, host);
      assert [tokens[0]] + tokens[1..] == tokens;
    }
  }

  // ----- The round trip ------------------------------------------------------

  lemma VerbReads(c: Command)
    ensures WordsOf(c) != []
    ensures VerbOf(c).Some? ==> WordsOf(c)[0] == VerbOf(c).value && Faithful(VerbOf(c).value)
  {
    hide Join;
  }

  /** One written command is read back as itself exactly when it is writable. */
  lemma StatementReadsBack(c: Command, host: HostParser)
    requires !c.Host?
    ensures ParseStatement(WrittenLine(WordsOf(c)), host) == Ok(c) <==> Writable(c)
  {
    hide CommandOf, Tokenized, WrittenLine, Shaped, Faithful;
    var words := WordsOf(c);
    VerbReads(c);
    LineTokens(words);
    ReadWordsAre(words);
    if Writable(c) {
      WordsParse(c, host);
    }
    if CommandOf(ReadWords(words), host) == Ok(c) {
      ReadStart(c, host);
      ParsedWords(ReadWords(words), host, c);
    }
  }

  /** What is read back starts with the verb, and ends with the count. */
  lemma ReadStart(c: Command, host: HostParser)
    requires CommandOf(ReadWords(WordsOf(c)), host).Ok?
    ensures ReadWords(WordsOf(c)) != []
    ensures VerbOf(c).Some? ==> ReadWords(WordsOf(c))[0] == VerbOf(c).value
    ensures Counted(c) && |ReadWords(WordsOf(c))| == 4 ==> ReadWords(WordsOf(c))[3] == Decimal(c.maxAttempts.value)
  {
    hide Reread, Decimal;
    var words := WordsOf(c);
    VerbReads(c);
    ReadWordsAre(words);
    if VerbOf(c).Some? {
      RereadFaithfully(words[0]);
    }
    if Counted(c) {
      DecimalParses(c.maxAttempts.value);
      assert words[3] == Decimal(c.maxAttempts.value);
    }
  }

  function WrittenLines(commands: seq<Command>): seq<string> {
    seq(|commands|, i requires 0 <= i < |commands| => WrittenLine(WordsOf(commands[i])))
  }

  /**
   A script that writes each command as quoted words parses to exactly these
   commands, in order, if and only if each of them is writable.
   */
  lemma CommandsRoundTrip(commands: seq<Command>, host: HostParser)
    requires forall c :: c in commands ==> !c.Host?
    ensures Parsed(ScriptOf(WrittenLines(commands)), host) == Ok(commands) <==> forall c :: c in commands ==> Writable(c)
  {
    hide Statements, ParseStatement, ParseAll, Sealed, ScriptOf, Writable, WrittenLine, WordsOf;
    var lines := WrittenLines(commands);
    forall s | s in lines
      ensures Sealed(s)
    {
      var i :| 0 <= i < |lines| && lines[i] == s;
      VerbReads(commands[i]);
      LineIsSealed(WordsOf(commands[i]));
    }
    StatementsOfSealed(lines);
    ParseAllGives(lines, host, commands);
    forall i | 0 <= i < |commands|
      ensures ParseStatement(lines[i], host) == Ok(commands[i]) <==> Writable(commands[i])
    {
      StatementReadsBack(commands[i], host);
    }
  }

  // ----- Spelling and missing words ------------------------------------------

  lemma LowerIsLower(name: string)
    ensures AsciiLower(AsciiLower(name)) == AsciiLower(name)
  {
  }

  /** Verbs are recognised in any case, and `/force` is `force`. */
  lemma VerbsIgnoreCase(verb: string, rest: seq<string>, host: HostParser)
    requires OwnVerb(verb)
    ensures CommandOf([verb] + rest, host) == CommandOf([AsciiLower(verb)] + rest, host)
    ensures AsciiLower(verb) == "/force" ==> CommandOf([verb] + rest, host) == CommandOf(["force"] + rest, host)
  {
    hide Join, IsHostVerb, AsciiLower;
    LowerIsLower(verb);
    LowerVerbs();
    VerbsDiffer();
    VerbLengths();
    assert ([verb] + rest)[1..] == ([AsciiLower(verb)] + rest)[1..] == (["force"] + rest)[1..] == rest;
    if rest != [] {
      assert ([verb] + rest)[2..] == ([AsciiLower(verb)] + rest)[2..] == (["force"] + rest)[2..];
    }
    SameForce([verb] + rest, [AsciiLower(verb)] + rest);
    SameForce([verb] + rest, ["force"] + rest);
  }

  lemma SameForce(a: seq<string>, b: seq<string>)
    requires |a| == |b| && a != [] && a[1..] == b[1..]
    ensures |a| > 1 ==> ForceCommand(a) == ForceCommand(b)
  {
    hide Join, ParseU32;
    if |a| > 1 {
      assert forall i :: 1 <= i < |a| ==> a[i] == a[1..][i - 1] == b[i];
      assert a[2..] == b[2..];
      if |a| > 2 {
        assert a[2..|a| - 1] == b[2..|b| - 1];
      }
    }
  }

  const HOST_VERBS: set<string> :=
    {"tool", "call", "dyn", "cancel", "effort", "/effort", "reasoning", "/reasoning", "provider", "/provider"}

  /** The host's verbs, in any case, and cancelling a job by its name, go to the host; it may refuse. */
  lemma HostReadsItsOwn(tokens: seq<string>, host: HostParser)
    requires tokens != [] && !OwnVerb(tokens[0])
    ensures AsciiLower(tokens[0]) in HOST_VERBS ||
            (|tokens| >= 3 && AsciiLower(tokens[0]) == "job" && AsciiLower(tokens[1]) == "cancel") ==>
      CommandOf(tokens, host) == match host(tokens) case Ok(request) => Ok(Host(request)) case Err(e) => Err(e)
    ensures AsciiLower(tokens[0]) !in HOST_VERBS + {"job"} ==> !IsHostVerb(tokens)
  {
    hide AsciiLower, ForceCommand, Join;
    if |tokens| >= 3 {
      EqualWhenFolded(tokens[1], "cancel");
      CancelIsLower();
    }
  }

  lemma CancelIsLower()
    ensures AsciiLower("cancel") == "cancel"
  {
  }

  /** A verb by itself is refused, naming the verb and what it lacks, unless it is `echo`. */
  lemma VerbsNeedWords(verb: string, host: HostParser)
    requires OwnVerb(verb)
    ensures CommandOf([verb], host) ==
      if AsciiLower(verb) == "echo" then Ok(Echo(""))
      else Err(MissingArgument(
        if AsciiLower(verb) == "/force" then "force" else AsciiLower(verb),
        if AsciiLower(verb) in {"bind", "unbind"} then "key"
        else if AsciiLower(verb) == "exec" then "path"
        else if AsciiLower(verb) in {"force", "/force"} then "tool"
        else "name"))
  {
    hide IsHostVerb, ForceCommand, AsciiLower;
    VerbsDiffer();
    VerbLengths();
    assert [verb][1..] == [];
    JoinOne("");
  }
}
