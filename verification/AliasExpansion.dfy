/** Alias expansion under depth and byte limits. */
module AliasExpansion {
  import opened Wrappers
  import opened Text
  import opened CommandText

  datatype Limits = Limits(maxDepth: nat, maxBytes: nat)

  const DEFAULT_LIMITS := Limits(16, 65_536)

  /** What expansion reads and never changes. */
  datatype Book = Book(aliases: map<string, string>, limits: Limits, host: HostParser) {
    /** The alias a command names, if any. */
    function AliasOf(command: Command): Option<string> {
      if (command.GetConVar? || command.Custom?) && command.name in aliases then Some(command.name) else None
    }

    /** The text an alias stands for, with the arguments it was given. */
    function AliasText(command: Command): string
      requires AliasOf(command).Some?
    {
      var text := aliases[command.name];
      if command.Custom? && command.args != [] then text + " " + Join(command.args, " ") else text
    }
  }

  /** The commands a text stands for and the bytes charged so far. */
  datatype Expansion = Expansion(commands: seq<Command>, bytes: nat)

  function Last(visited: seq<string>): string {
    if visited == [] then "" else visited[|visited| - 1]
  }

  function Room(limits: Limits, depth: nat): nat {
    if depth > limits.maxDepth then 0 else limits.maxDepth + 1 - depth
  }

  function Expand(book: Book, text: string, depth: nat, visited: seq<string>, bytes: nat): Result<Expansion, CommandError>
    decreases Room(book.limits, depth), 2, 0
  {
    var total := bytes + ByteLen(text);
    if total > book.limits.maxBytes then Err(ExpansionLimit(total, book.limits.maxBytes))
    else if depth > book.limits.maxDepth then Err(RecursionLimit(Last(visited), depth))
    else
      match Parsed(text, book.host)
      case Err(e) => Err(e)
      case Ok(commands) => ExpandEach(book, commands, depth, visited, total)
  }

  /** Expands the commands one after the other; the first error ends it. */
  function ExpandEach(book: Book, commands: seq<Command>, depth: nat, visited: seq<string>, bytes: nat):
      Result<Expansion, CommandError>
    requires depth <= book.limits.maxDepth
    decreases Room(book.limits, depth), 1, |commands|
  {
    if commands == [] then Ok(Expansion([], bytes))
    else
      match ExpandEach(book, commands[..|commands| - 1], depth, visited, bytes)
      case Err(e) => Err(e)
      case Ok(done) =>
        match ExpandOne(book, commands[|commands| - 1], depth, visited, done.bytes)
        case Err(e) => Err(e)
        case Ok(more) => Ok(Expansion(done.commands + more.commands, more.bytes))
  }

  function ExpandOne(book: Book, command: Command, depth: nat, visited: seq<string>, bytes: nat):
      Result<Expansion, CommandError>
    requires depth <= book.limits.maxDepth
    decreases Room(book.limits, depth), 1, 0
  {
    var alias := book.AliasOf(command);
    if alias.None? then Ok(Expansion([command], bytes))
    else if alias.value in visited then Err(RecursionLimit(alias.value, depth))
    else Expand(book, book.AliasText(command), depth + 1, visited + [alias.value], bytes)
  }

  // ----- The expander --------------------------------------------------------

  lemma {:induction false} ExpandStopsAtError(
    book: Book, commands: seq<Command>, depth: nat, visited: seq<string>, bytes: nat, k: nat)
    requires depth <= book.limits.maxDepth && k <= |commands|
    requires ExpandEach(book, commands[..k], depth, visited, bytes).Err?
    ensures ExpandEach(book, commands, depth, visited, bytes) == ExpandEach(book, commands[..k], depth, visited, bytes)
  {
    hide ExpandOne;
    if k == |commands| {
      assert commands[..k] == commands;
    } else {
      var shorter := commands[..|commands| - 1];
      assert shorter[..k] == commands[..k];
      ExpandStopsAtError(book, shorter, depth, visited, bytes, k);
    }
  }

  /**
   Expands a text in place of its aliases. The chain of aliases being expanded
   never holds a name twice and is back to what it was when the call succeeds.
   */
  method ExpandCommand(book: Book, text: string, depth: nat, visited: seq<string>, bytes: nat)
    returns (result: Result<seq<Command>, CommandError>, chain: seq<string>, charged: nat)
    requires NoDuplicates(visited)
    ensures match Expand(book, text, depth, visited, bytes)
            case Err(e) => result == Err(e)
            case Ok(x) => result == Ok(x.commands) && charged == x.bytes
    ensures NoDuplicates(chain) && (result.Ok? ==> chain == visited)
    decreases Room(book.limits, depth)
  {
    hide Parsed, Join, ByteLen, Book.AliasText;
    chain, charged := visited, bytes + ByteLen(text);
    if charged > book.limits.maxBytes {
      return Err(ExpansionLimit(charged, book.limits.maxBytes)), chain, charged;
    }
    if depth > book.limits.maxDepth {
      return Err(RecursionLimit(Last(visited), depth)), chain, charged;
    }
    var parsed := ParseScript(text, book.host);
    if parsed.Err? {
      return Err(parsed.error), chain, charged;
    }
    var commands := parsed.value;
    ghost var start := charged;
    var out: seq<Command> := [];
    for k := 0 to |commands|
      invariant chain == visited
      invariant ExpandEach(book, commands[..k], depth, visited, start) == Ok(Expansion(out, charged))
    {
      assert commands[..k + 1][..k] == commands[..k];
      var command := commands[k];
      var alias := book.AliasOf(command);
      if alias.None? {
        out := out + [command];
      } else if alias.value in chain {
        ExpandStopsAtError(book, commands, depth, visited, start, k + 1);
        return Err(RecursionLimit(alias.value, depth)), chain, charged;
      } else {
        chain := chain + [alias.value];
        var sub;
        sub, chain, charged := ExpandCommand(book, book.AliasText(command), depth + 1, chain, charged);
        if sub.Err? {
          ExpandStopsAtError(book, commands, depth, visited, start, k + 1);
          return sub, chain, charged;
        }
        out := out + sub.value;
        chain := chain[..|chain| - 1];
      }
    }
    assert commands[..|commands|] == commands;
    result := Ok(out);
  }

  // ----- What expansion guarantees -------------------------------------------

  predicate Clean(book: Book, commands: seq<Command>) {
    forall c :: c in commands ==> book.AliasOf(c).None?
  }

  /** No command that comes out of a successful expansion names an alias. */
  lemma {:induction false} ExpandedIsClean(book: Book, text: string, depth: nat, visited: seq<string>, bytes: nat)
    requires Expand(book, text, depth, visited, bytes).Ok?
    ensures Clean(book, Expand(book, text, depth, visited, bytes).value.commands)
    decreases Room(book.limits, depth), 2, 0
  {
    hide Parsed, ByteLen;
    ExpandedEachIsClean(book, Parsed(text, book.host).value, depth, visited, bytes + ByteLen(text));
  }

  lemma {:induction false} ExpandedEachIsClean(
    book: Book, commands: seq<Command>, depth: nat, visited: seq<string>, bytes: nat)
    requires depth <= book.limits.maxDepth && ExpandEach(book, commands, depth, visited, bytes).Ok?
    ensures Clean(book, ExpandEach(book, commands, depth, visited, bytes).value.commands)
    decreases Room(book.limits, depth), 1, |commands|
  {
    hide Expand, Book.AliasText, Book.AliasOf;
    if commands != [] {
      var init, last := commands[..|commands| - 1], commands[|commands| - 1];
      ExpandedEachIsClean(book, init, depth, visited, bytes);
      var done := ExpandEach(book, init, depth, visited, bytes).value;
      if book.AliasOf(last).Some? {
        ExpandedIsClean(book, book.AliasText(last), depth + 1, visited + [book.AliasOf(last).value], done.bytes);
      }
    }
  }

  /** A successful expansion has charged its own text and stayed within the byte limit. */
  lemma {:induction false} ExpandedWithinBudget(book: Book, text: string, depth: nat, visited: seq<string>, bytes: nat)
    requires Expand(book, text, depth, visited, bytes).Ok?
    ensures bytes + ByteLen(text) <= Expand(book, text, depth, visited, bytes).value.bytes <= book.limits.maxBytes
    decreases Room(book.limits, depth), 2, 0
  {
    hide Parsed, ByteLen;
    EachWithinBudget(book, Parsed(text, book.host).value, depth, visited, bytes + ByteLen(text));
  }

  lemma {:induction false} EachWithinBudget(
    book: Book, commands: seq<Command>, depth: nat, visited: seq<string>, bytes: nat)
    requires depth <= book.limits.maxDepth && bytes <= book.limits.maxBytes
    requires ExpandEach(book, commands, depth, visited, bytes).Ok?
    ensures bytes <= ExpandEach(book, commands, depth, visited, bytes).value.bytes <= book.limits.maxBytes
    decreases Room(book.limits, depth), 1, |commands|
  {
    hide Expand, Book.AliasText, Book.AliasOf;
    if commands != [] {
      var init, last := commands[..|commands| - 1], commands[|commands| - 1];
      EachWithinBudget(book, init, depth, visited, bytes);
      var done := ExpandEach(book, init, depth, visited, bytes).value;
      if book.AliasOf(last).Some? {
        ExpandedWithinBudget(book, book.AliasText(last), depth + 1, visited + [book.AliasOf(last).value], done.bytes);
      }
    }
  }

  predicate Looser(a: Limits, b: Limits) {
    a.maxDepth <= b.maxDepth && a.maxBytes <= b.maxBytes
  }

  /**
   The limits and the chain of visited aliases only cut expansion off: what
   succeeds gives the same commands and the same charge under wider limits and
   with fewer aliases already on the chain.
   */
  lemma {:induction false} LimitsOnlyCut(
    book: Book, wider: Limits, text: string, depth: nat, visited: seq<string>, fewer: seq<string>, bytes: nat)
    requires Looser(book.limits, wider) && forall n :: n in fewer ==> n in visited
    requires Expand(book, text, depth, visited, bytes).Ok?
    ensures Expand(book.(limits := wider), text, depth, fewer, bytes) == Expand(book, text, depth, visited, bytes)
    decreases Room(book.limits, depth), 2, 0
  {
    hide Parsed, ByteLen, ExpandEach;
    LimitsOnlyCutEach(book, wider, Parsed(text, book.host).value, depth, visited, fewer, bytes + ByteLen(text));
  }

  lemma {:induction false} LimitsOnlyCutEach(
    book: Book, wider: Limits, commands: seq<Command>, depth: nat, visited: seq<string>, fewer: seq<string>, bytes: nat)
    requires Looser(book.limits, wider) && forall n :: n in fewer ==> n in visited
    requires depth <= book.limits.maxDepth && ExpandEach(book, commands, depth, visited, bytes).Ok?
    ensures ExpandEach(book.(limits := wider), commands, depth, fewer, bytes) ==
            ExpandEach(book, commands, depth, visited, bytes)
    decreases Room(book.limits, depth), 1, |commands|
  {
    hide Expand, Parsed, ByteLen, Join;
    if commands != [] {
      var init, last := commands[..|commands| - 1], commands[|commands| - 1];
      LimitsOnlyCutEach(book, wider, init, depth, visited, fewer, bytes);
      var done := ExpandEach(book, init, depth, visited, bytes).value;
      if book.AliasOf(last).Some? {
        var name := book.AliasOf(last).value;
        LimitsOnlyCut(book, wider, book.AliasText(last), depth + 1, visited + [name], fewer + [name], done.bytes);
      }
    }
  }
}
