/** The request's messages, read back. */
module Conversation {
  import opened Wrappers
  import opened Text
  import opened Dom
  import opened Tokens
  import opened Projection

  /*
   What a provider makes of the messages: who said what, and which calls were
   made with which results. Reading them gives the transcript's own elements.
   */

  datatype Item =
    | Said(role: EntryRole, text: string, callId: Option<string>)
    | Called(id: string, tool: string, arguments: string, result: Option<string>)
    | Stray(id: string, text: string)

  /** A result belongs to the call right before it, if that has its id. */
  function Read(messages: seq<Message>): seq<Item> {
    if messages == [] then []
    else
      match messages[0]
      case UserMessage(text) => [Said(User, text, None)] + Read(messages[1..])
      case AssistantMessage(text, callId) => [Said(Assistant, text, callId)] + Read(messages[1..])
      case SystemMessage(text) => [Said(Instructions, text, None)] + Read(messages[1..])
      case ResultMessage(id, text) => [Stray(id, text)] + Read(messages[1..])
      case CallMessage(id, tool, arguments) =>
        if |messages| > 1 && messages[1].ResultMessage? && messages[1].callId == id then
          [Called(id, tool, arguments, Some(messages[1].text))] + Read(messages[2..])
        else
          [Called(id, tool, arguments, None)] + Read(messages[1..])
  }

  function ResultText(e: Element): Option<string> {
    match FindChild(e.children, "result") case Some(result) => Some(result.text) case None => None
  }

  /** The tool an element names. */
  function ToolOf(e: Element): string {
    if "tool" in e.attributes && e.attributes["tool"].String? then e.attributes["tool"].s else "unknown"
  }

  /** What an element that the planner charges has to say. */
  function Content(e: Element): Option<Item> {
    match EntryOf(e)
    case None => None
    case Some(entry) =>
      if entry.role == ToolCall then
        Some(Called(IdAttribute(e, "call_id").GetOr(""), ToolOf(e), InputPayload(e).GetOr("null"), ResultText(e)))
      else Some(Said(entry.role, e.text, if entry.role == Assistant then IdAttribute(e, "tool_call_id") else None))
  }

  /** An item with its reduction; instructions have none. */
  function Lessened(item: Item, applied: Reduction): Item {
    match item
    case Said(role, text, callId) => if applied.cappedText && role != Instructions then Said(role, Truncated(text), callId) else item
    case Called(id, tool, arguments, result) =>
      Called(id, tool, if applied.omittedArguments then OMITTED_MARKER else arguments,
             if applied.cappedText && result.Some? then Some(Truncated(result.value)) else result)
    case Stray(_, _) => item
  }

  /** The uncovered elements' content, in order. */
  function Contents(body: seq<Element>, covered: set<ElementId>, reductions: Reductions): seq<Item> {
    if body == [] then []
    else
      var e := body[0];
      (if e.id !in covered && Content(e).Some? then [Lessened(Content(e).value, Applied(reductions, e.id))] else [])
      + Contents(body[1..], covered, reductions)
  }

  /** The role the planner charges an element under is its kind's. */
  lemma RoleIsKind(e: Element)
    requires EntryOf(e).Some?
    ensures EntryOf(e).value.role == User <==> e.kind == "user"
    ensures EntryOf(e).value.role == Assistant <==> e.kind == "assistant"
    ensures EntryOf(e).value.role == ToolCall <==> e.kind == "tool_call"
    ensures EntryOf(e).value.role == Instructions <==> e.kind == "system" || e.kind == "steering"
  {
    hide PreviewLine;
  }

  /** An assistant's turn is left out of the request exactly while it runs or streams, or when it failed or was cancelled. */
  lemma TurnIsSentWhenComplete(e: Element, reductions: Reductions)
    requires e.kind == "assistant"
    ensures MessagesOf(e, reductions) == [] <==>
      || ("status" in e.attributes && e.attributes["status"] in {String("running"), String("failed"), String("cancelled")})
      || ("streaming" in e.attributes && e.attributes["streaming"] == Bool(true))
  {
    hide Truncated;
  }

  /** An element is pinned by its attribute of that name being true. */
  lemma PinnedByAttribute(e: Element)
    ensures EntryOf(e).Some? ==>
      (EntryOf(e).value.pinned <==> "pinned" in e.attributes && e.attributes["pinned"] == Bool(true))
  {
    hide PreviewLine;
  }

  /** Messages of one element never start with a result. */
  lemma {:induction false} StartsWithoutResult(body: seq<Element>, covered: set<ElementId>, reductions: Reductions)
    ensures var messages := Messages(body, covered, reductions); messages != [] ==> !messages[0].ResultMessage?
  {
    if body != [] {
      StartsWithoutResult(body[1..], covered, reductions);
      OneStartsWithoutResult(body[0], reductions);
      hide MessagesOf;
    }
  }

  lemma OneStartsWithoutResult(e: Element, reductions: Reductions)
    ensures MessagesOf(e, reductions) != [] ==> !MessagesOf(e, reductions)[0].ResultMessage?
  {
  }

  /** Reading one element's messages in front of others gives its content. */
  lemma ReadsOne(e: Element, reductions: Reductions, rest: seq<Message>)
    requires rest != [] ==> !rest[0].ResultMessage?
    ensures Read(MessagesOf(e, reductions) + rest) ==
      (if Content(e).Some? then [Lessened(Content(e).value, Applied(reductions, e.id))] else []) + Read(rest)
  {
    hide PreviewLine, Truncated, OMITTED_MARKER, ValidId, HasValue, Interrupted, IsPinned, FindChild, Estimate;
    var own := MessagesOf(e, reductions);
    if own == [] {
      assert own + rest == rest;
      assert [] + Read(rest) == Read(rest);
    } else {
      var all := own + rest;
      assert all[0] == own[0];
      if |own| == 1 {
        assert all[1..] == rest;
      } else {
        assert all[1] == own[1] && all[2..] == rest;
      }
    }
  }

  /**
   Reading the request back gives the uncovered elements, in order: each kind in
   its own role, texts and results verbatim or capped, each call with its
   element's id, tool and payload or the marker, and its result right behind it.
   No result stands alone.
   */
  lemma {:induction false} ReadsBack(body: seq<Element>, covered: set<ElementId>, reductions: Reductions)
    ensures Read(Messages(body, covered, reductions)) == Contents(body, covered, reductions)
  {
    hide MessagesOf, Content, Lessened;
    if body != [] {
      var e, rest := body[0], Messages(body[1..], covered, reductions);
      ReadsBack(body[1..], covered, reductions);
      StartsWithoutResult(body[1..], covered, reductions);
      if e.id in covered {
        assert [] + rest == rest;
        assert [] + Contents(body[1..], covered, reductions) == Contents(body[1..], covered, reductions);
      } else {
        ReadsOne(e, reductions, rest);
      }
    }
  }

  /** Without reductions nothing is lost: the request says what the uncovered elements say, word for word. */
  lemma {:induction false} ReadsVerbatim(body: seq<Element>, covered: set<ElementId>)
    ensures |Read(Messages(body, covered, map[]))| == |Uncovered(body, covered)|
    ensures forall k :: 0 <= k < |Uncovered(body, covered)| ==>
      Content(Uncovered(body, covered)[k]) == Some(Read(Messages(body, covered, map[]))[k])
  {
    ReadsBack(body, covered, map[]);
    ContentsVerbatim(body, covered);
  }

  /** The elements a request speaks of. */
  function Uncovered(body: seq<Element>, covered: set<ElementId>): seq<Element> {
    if body == [] then []
    else (if body[0].id !in covered && EntryOf(body[0]).Some? then [body[0]] else []) + Uncovered(body[1..], covered)
  }

  lemma {:induction false} ContentsVerbatim(body: seq<Element>, covered: set<ElementId>)
    ensures |Contents(body, covered, map[])| == |Uncovered(body, covered)|
    ensures forall k :: 0 <= k < |Uncovered(body, covered)| ==>
      Content(Uncovered(body, covered)[k]) == Some(Contents(body, covered, map[])[k])
  {
    hide EntryOf, Content, Lessened;
    if body != [] {
      var e := body[0];
      ContentsVerbatim(body[1..], covered);
      NothingLessened(e);
      ContentIffEntry(e);
      if e.id in covered || Content(e).None? {
        assert Contents(body, covered, map[]) == Contents(body[1..], covered, map[]);
        assert Uncovered(body, covered) == Uncovered(body[1..], covered);
      } else {
        assert Contents(body, covered, map[]) == [Content(e).value] + Contents(body[1..], covered, map[]);
        assert Uncovered(body, covered) == [e] + Uncovered(body[1..], covered);
      }
    }
  }

  lemma ContentIffEntry(e: Element)
    ensures Content(e).Some? <==> EntryOf(e).Some?
  {
    hide EntryOf;
  }

  lemma NothingLessened(e: Element)
    ensures Content(e).Some? ==> Lessened(Content(e).value, NO_REDUCTION) == Content(e).value
  {
    hide EntryOf;
  }
}
