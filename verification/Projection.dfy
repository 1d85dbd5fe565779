/** What is charged and what is sent. */
module Projection {
  import opened Wrappers
  import opened Text
  import opened Dom
  import opened Tokens

  /*
   Two readings of the transcript that must agree: the entries the compaction
   planner charges to the budget, and the messages the request builder sends.
   */

  const MAX_PREVIEW_CHARS: nat := 96
  const MIN_OMITTED_ARGUMENT_TOKENS: nat := 64
  const CALL_OVERHEAD: nat := 8
  /** What the marker that replaces omitted arguments costs. */
  const OMITTED_MARKER_TOKENS: nat := 20

  datatype Reduction = Reduction(cappedText: bool, omittedArguments: bool)

  const NO_REDUCTION := Reduction(false, false)

  type Reductions = map<ElementId, Reduction>

  function Applied(reductions: Reductions, id: ElementId): Reduction {
    if id in reductions then reductions[id] else NO_REDUCTION
  }

  datatype EntryRole = User | Assistant | ToolCall | Instructions

  /** Order in which kept entries give way: tool observations, assistant text, the user's words. */
  function TruncationRank(role: EntryRole): nat {
    match role
    case ToolCall => 0
    case Assistant => 1
    case User => 2
    case Instructions => 3
  }

  datatype BodyEntry = BodyEntry(
    id: ElementId,
    role: EntryRole,
    argsTokens: nat,
    textTokens: nat,
    pinned: bool,
    inFlight: bool,
    preview: string)
  {
    predicate Eligible() {
      !pinned && !inFlight
    }

    function Tokens(): nat {
      argsTokens + textTokens + if role == ToolCall then CALL_OVERHEAD else 0
    }

    /** The next reduction this entry can take, with the tokens it saves. */
    function NextReduction(applied: Reduction): Option<(Reduction, nat)> {
      var effectiveText := if applied.cappedText then Min(TRUNCATED_BYTES, textTokens) else textTokens;
      if role == ToolCall && !applied.omittedArguments && argsTokens > MIN_OMITTED_ARGUMENT_TOKENS
         && argsTokens > effectiveText then
        Some((applied.(omittedArguments := true), argsTokens))
      else if !applied.cappedText && textTokens > TRUNCATED_BYTES then
        Some((applied.(cappedText := true), textTokens - TRUNCATED_BYTES))
      else
        None
    }

    /** What the entry is charged once `applied` holds. */
    function Cost(applied: Reduction): nat {
      var args := if applied.omittedArguments then SaturatingSub(Tokens(), argsTokens) else Tokens();
      if applied.cappedText then SaturatingSub(args, SaturatingSub(textTokens, TRUNCATED_BYTES)) else args
    }
  }

  /** A reduction saves exactly the tokens it claims, and at least one. */
  lemma ReductionSaves(e: BodyEntry, applied: Reduction)
    requires e.NextReduction(applied).Some?
    ensures var (next, savings) := e.NextReduction(applied).value;
      savings > 0 && e.Cost(applied) == e.Cost(next) + savings
  {
  }

  /** An entry that can give no more is charged at most two capped bodies and the call overhead. */
  lemma ExhaustedIsSmall(e: BodyEntry, applied: Reduction)
    requires e.NextReduction(applied).None?
    requires e.role != ToolCall ==> e.argsTokens == 0
    ensures e.Cost(applied) <= if e.role == ToolCall then 2 * TRUNCATED_BYTES + CALL_OVERHEAD else TRUNCATED_BYTES
  {
  }

  /** The entry's reductions taken one after the other until there is none left. */
  function FullyReduced(e: BodyEntry, applied: Reduction): Reduction
    decreases e.Cost(applied)
  {
    if e.NextReduction(applied).None? then applied
    else
      ReductionSaves(e, applied);
      FullyReduced(e, e.NextReduction(applied).value.0)
  }

  /** The smaller of the text and the cap. */
  function CappedTokens(e: BodyEntry): nat {
    Min(TRUNCATED_BYTES, e.textTokens)
  }

  /**
   What gives way in the end: every text above the cap, and the arguments of a
   call that are above 64 tokens and above what its text then costs.
   */
  lemma FullyReducedIs(e: BodyEntry)
    ensures FullyReduced(e, NO_REDUCTION) == Reduction(
      e.textTokens > TRUNCATED_BYTES,
      e.role == ToolCall && e.argsTokens > 64 && e.argsTokens > CappedTokens(e))
  {
    var first := e.NextReduction(NO_REDUCTION);
    if first.Some? {
      var second := e.NextReduction(first.value.0);
      if second.Some? {
        assert e.NextReduction(second.value.0).None?;
        assert FullyReduced(e, second.value.0) == second.value.0;
      }
    }
  }

  /** A call that gives both gives the larger one first: its arguments, if they are above its whole text. */
  lemma ArgumentsFirst(e: BodyEntry)
    requires FullyReduced(e, NO_REDUCTION) == Reduction(true, true)
    ensures e.NextReduction(NO_REDUCTION).Some?
    ensures e.NextReduction(NO_REDUCTION).value.0 ==
      if e.argsTokens > e.textTokens then Reduction(false, true) else Reduction(true, false)
  {
    FullyReducedIs(e);
  }

  // ----- What the planner charges --------------------------------------------

  /** An element that is complete, not pinned, and not an instruction. */
  predicate MayGiveWay(e: Element) {
    && !IsPinned(e)
    && (|| e.kind == "user"
        || (e.kind == "assistant" && !Interrupted(e))
        || (e.kind == "tool_call" && IdAttribute(e, "call_id").Some? && FindChild(e.children, "result").Some?))
  }

  lemma EligibleElement(e: Element)
    ensures EntryOf(e).Some? && EntryOf(e).value.Eligible() <==> MayGiveWay(e)
    ensures EntryOf(e).Some? && EntryOf(e).value.role == User <==> e.kind == "user"
    ensures EntryOf(e).Some? && EntryOf(e).value.role != ToolCall ==> EntryOf(e).value.argsTokens == 0
  {
    hide PreviewLine, Interrupted, IsPinned, HasValue, ValidId;
  }

  function PreviewLine(text: string): string {
    var collapsed := Join(Words(FirstInkedLine(text)), " ");
    var cut := if ByteLen(collapsed) > MAX_PREVIEW_CHARS
      then PrefixWithin(collapsed, MAX_PREVIEW_CHARS) + "\U{2026}"
      else collapsed;
    if cut == [] then "(empty)" else cut
  }

  predicate IsPinned(e: Element) {
    HasValue(e.attributes, "pinned", Bool(true))
  }

  /** Interrupted assistant output, which is not a completed model turn. */
  predicate Interrupted(e: Element) {
    || HasValue(e.attributes, "status", String("running"))
    || HasValue(e.attributes, "status", String("failed"))
    || HasValue(e.attributes, "status", String("cancelled"))
    || HasValue(e.attributes, "streaming", Bool(true))
  }

  function IdAttribute(e: Element, name: string): Option<string> {
    if name in e.attributes && e.attributes[name].String? && ValidId(e.attributes[name].s)
    then Some(e.attributes[name].s)
    else None
  }

  function InputPayload(e: Element): Option<string> {
    match FindChild(e.children, "input")
    case Some(child) => child.payload
    case None => None
  }

  function EntryOf(e: Element): Option<BodyEntry> {
    var pinned := IsPinned(e);
    if e.kind == "user" then
      Some(BodyEntry(e.id, User, 0, Estimate(e.text), pinned, false, "user: " + PreviewLine(e.text)))
    else if e.kind == "assistant" then
      if Interrupted(e) then None
      else Some(BodyEntry(e.id, Assistant, 0, Estimate(e.text), pinned, false, "assistant: " + PreviewLine(e.text)))
    else if e.kind == "tool_call" then
      if IdAttribute(e, "call_id").None? then None
      else
        var result := FindChild(e.children, "result");
        var args := InputPayload(e).GetOr("");
        var tool := if "tool" in e.attributes && e.attributes["tool"].String? then e.attributes["tool"].s else "tool";
        var resultText := if result.Some? then result.value.text else "";
        Some(BodyEntry(e.id, ToolCall, Estimate(args), Estimate(resultText), pinned, result.None?,
          "tool " + tool + "(" + PreviewLine(args) + ") -> " + PreviewLine(resultText)))
    else if e.kind == "system" || e.kind == "steering" then
      Some(BodyEntry(e.id, Instructions, 0, Estimate(e.text), pinned, true, "instructions: " + PreviewLine(e.text)))
    else
      None
  }

  function Entries(body: seq<Element>): seq<BodyEntry> {
    if body == [] then []
    else (match EntryOf(body[0]) case Some(entry) => [entry] case None => []) + Entries(body[1..])
  }

  lemma EntriesStep(body: seq<Element>)
    requires body != []
    ensures Entries(body) ==
      (if EntryOf(body[0]).Some? then [EntryOf(body[0]).value] else []) + Entries(body[1..])
  {
    hide EntryOf;
  }

  lemma NoEntries(body: seq<Element>)
    ensures body == [] ==> Entries(body) == []
  {
  }

  method CollectEntries(body: seq<Element>) returns (entries: seq<BodyEntry>)
    ensures entries == Entries(body)
  {
    hide EntryOf, Entries;
    entries := [];
    assert body[0..] == body;
    for i := 0 to |body|
      invariant entries + Entries(body[i..]) == Entries(body)
    {
      EntriesStep(body[i..]);
      assert body[i..][1..] == body[i + 1..];
      match EntryOf(body[i]) {
        case Some(entry) => entries := entries + [entry];
        case None =>
      }
    }
    NoEntries(body[|body|..]);
  }

  /** Entries keep the order of their elements. */
  lemma {:induction false} EntryPair(body: seq<Element>, a: nat, b: nat) returns (i: nat, j: nat)
    requires a < b < |Entries(body)|
    ensures i < j < |body| && EntryOf(body[i]) == Some(Entries(body)[a]) && EntryOf(body[j]) == Some(Entries(body)[b])
  {
    hide EntryOf;
    EntriesStep(body);
    if EntryOf(body[0]).None? {
      i, j := EntryPair(body[1..], a, b);
      i, j := i + 1, j + 1;
    } else if a == 0 {
      j := EntryPlace(body[1..], b - 1);
      i, j := 0, j + 1;
    } else {
      i, j := EntryPair(body[1..], a - 1, b - 1);
      i, j := i + 1, j + 1;
    }
  }

  lemma {:induction false} EntryPlace(body: seq<Element>, a: nat) returns (i: nat)
    requires a < |Entries(body)|
    ensures i < |body| && EntryOf(body[i]) == Some(Entries(body)[a])
    ensures Entries(body)[a + 1..] == Entries(body[i + 1..])
  {
    hide EntryOf;
    EntriesStep(body);
    if EntryOf(body[0]).None? {
      i := EntryPlace(body[1..], a);
      i := i + 1;
    } else if a == 0 {
      i := 0;
    } else {
      i := EntryPlace(body[1..], a - 1);
      i := i + 1;
    }
  }

  lemma {:induction false} ElementPlace(body: seq<Element>, i: nat) returns (a: nat)
    requires i < |body| && EntryOf(body[i]).Some?
    ensures a < |Entries(body)| && Entries(body)[a] == EntryOf(body[i]).value
    ensures Entries(body)[a + 1..] == Entries(body[i + 1..])
  {
    hide EntryOf;
    EntriesStep(body);
    if i == 0 {
      a := 0;
    } else {
      a := ElementPlace(body[1..], i - 1);
      a := a + if EntryOf(body[0]).Some? then 1 else 0;
    }
  }

  lemma {:induction false} ElementPair(body: seq<Element>, i: nat, j: nat) returns (a: nat, b: nat)
    requires i < j < |body| && EntryOf(body[i]).Some? && EntryOf(body[j]).Some?
    ensures a < b < |Entries(body)|
    ensures Entries(body)[a] == EntryOf(body[i]).value && Entries(body)[b] == EntryOf(body[j]).value
  {
    hide EntryOf;
    EntriesStep(body);
    if i == 0 {
      b := ElementPlace(body[1..], j - 1);
      a, b := 0, b + 1;
    } else {
      a, b := ElementPair(body[1..], i - 1, j - 1);
      var shift := if EntryOf(body[0]).Some? then 1 else 0;
      a, b := a + shift, b + shift;
    }
  }

  // ----- What the request carries --------------------------------------------

  datatype Message =
    | UserMessage(text: string)
    | AssistantMessage(text: string, toolCallId: Option<string>)
    | CallMessage(callId: string, tool: string, arguments: string)
    | ResultMessage(callId: string, text: string)
    | SystemMessage(text: string)

  const OMITTED_MARKER := OMITTED_MARKER_1 + OMITTED_MARKER_2
  const OMITTED_MARKER_1 := "{\"omitted\":\"arguments elided to fit the "
  const OMITTED_MARKER_2 := "context window; the journal keeps them\"}"

  function ProjectText(reductions: Reductions, id: ElementId, text: string): string {
    if Applied(reductions, id).cappedText then Truncated(text) else text
  }

  function MessagesOf(e: Element, reductions: Reductions): seq<Message> {
    if e.kind == "user" then
      [UserMessage(ProjectText(reductions, e.id, e.text))]
    else if e.kind == "assistant" then
      if Interrupted(e) then []
      else [AssistantMessage(ProjectText(reductions, e.id, e.text), IdAttribute(e, "tool_call_id"))]
    else if e.kind == "tool_call" then
      match IdAttribute(e, "call_id")
      case None => []
      case Some(callId) =>
        var tool := if "tool" in e.attributes && e.attributes["tool"].String? then e.attributes["tool"].s else "unknown";
        var args := if Applied(reductions, e.id).omittedArguments then OMITTED_MARKER else InputPayload(e).GetOr("null");
        var result := FindChild(e.children, "result");
        [CallMessage(callId, tool, args)]
        + if result.Some? then [ResultMessage(callId, ProjectText(reductions, e.id, result.value.text))] else []
    else if e.kind == "steering" || e.kind == "system" then
      [SystemMessage(e.text)]
    else
      []
  }

  function Messages(body: seq<Element>, covered: set<ElementId>, reductions: Reductions): seq<Message> {
    if body == [] then []
    else (if body[0].id in covered then [] else MessagesOf(body[0], reductions)) + Messages(body[1..], covered, reductions)
  }

  method DeriveMessages(body: seq<Element>, covered: set<ElementId>, reductions: Reductions)
    returns (messages: seq<Message>)
    ensures messages == Messages(body, covered, reductions)
  {
    hide MessagesOf;
    messages := [];
    for i := 0 to |body|
      invariant messages + Messages(body[i..], covered, reductions) == Messages(body, covered, reductions)
    {
      assert body[i..][1..] == body[i + 1..];
      if body[i].id !in covered {
        messages := messages + MessagesOf(body[i], reductions);
      }
    }
  }

  /** The estimate of the text and arguments a message carries. */
  function Carried(m: Message): nat {
    match m
    case CallMessage(_, _, arguments) => Estimate(arguments)
    case UserMessage(text) => Estimate(text)
    case AssistantMessage(text, _) => Estimate(text)
    case ResultMessage(_, text) => Estimate(text)
    case SystemMessage(text) => Estimate(text)
  }

  function CarriedAll(messages: seq<Message>): nat {
    if messages == [] then 0 else Carried(messages[0]) + CarriedAll(messages[1..])
  }

  lemma {:induction false} CarriedConcat(a: seq<Message>, b: seq<Message>)
    ensures CarriedAll(a + b) == CarriedAll(a) + CarriedAll(b)
  {
    if a == [] {
      assert a + b == b;
    } else {
      assert (a + b)[1..] == a[1..] + b;
      CarriedConcat(a[1..], b);
    }
  }

  // ----- Agreement -----------------------------------------------------------

  /** Every text of the element fits in memory. */
  ghost predicate InMemory(e: Element) {
    ByteLen(e.text) < USIZE_LIMIT &&
    forall i :: 0 <= i < |e.children| ==> ByteLen(e.children[i].text) < USIZE_LIMIT
  }

  /** Instructions are never capped, which is how the planner reduces. */
  ghost predicate SparesInstructions(e: Element, reductions: Reductions) {
    e.kind == "system" || e.kind == "steering" ==> e.id !in reductions
  }

  lemma MarkerPart1Chars()
    ensures |OMITTED_MARKER_1| == 40 && forall i :: 0 <= i < |OMITTED_MARKER_1| ==> IsAscii(OMITTED_MARKER_1[i])
  {
  }

  lemma MarkerPart2Chars()
    ensures |OMITTED_MARKER_2| == 40 && forall i :: 0 <= i < |OMITTED_MARKER_2| ==> IsAscii(OMITTED_MARKER_2[i])
  {
  }

  lemma MarkerPart1Counts()
    ensures AsciiCount(OMITTED_MARKER_1) == 40 && WideCount(OMITTED_MARKER_1) == 0
  {
    MarkerPart1Chars();
    AllAscii(OMITTED_MARKER_1);
  }

  lemma MarkerPart2Counts()
    ensures AsciiCount(OMITTED_MARKER_2) == 40 && WideCount(OMITTED_MARKER_2) == 0
  {
    MarkerPart2Chars();
    AllAscii(OMITTED_MARKER_2);
  }

  lemma MarkerCost()
    ensures Estimate(OMITTED_MARKER) == OMITTED_MARKER_TOKENS
  {
    hide AsciiCount, WideCount;
    MarkerPart1Counts();
    MarkerPart2Counts();
    CountsConcat(OMITTED_MARKER_1, OMITTED_MARKER_2);
  }

  lemma {:induction false} FoundChildInMemory(children: seq<Child>, kind: string)
    requires forall i :: 0 <= i < |children| ==> ByteLen(children[i].text) < USIZE_LIMIT
    ensures FindChild(children, kind).Some? ==> ByteLen(FindChild(children, kind).value.text) < USIZE_LIMIT
  {
    if children != [] && children[0].kind != kind {
      FoundChildInMemory(children[1..], kind);
    }
  }

  /** Only texts above the cap are capped, and only tool calls lose arguments. */
  ghost predicate Reasonable(entry: BodyEntry, applied: Reduction) {
    && (applied.cappedText ==> entry.textTokens > TRUNCATED_BYTES)
    && (applied.omittedArguments ==> entry.role == ToolCall && entry.argsTokens > MIN_OMITTED_ARGUMENT_TOKENS)
  }

  /** Charged exactly when sent. */
  lemma ChargedIffSent(e: Element, reductions: Reductions)
    ensures EntryOf(e).Some? <==> MessagesOf(e, reductions) != []
  {
  }

  /** What an element sends that nobody planned: the marker, or the `null` of an absent payload. */
  function Unplanned(e: Element, reductions: Reductions): nat {
    if Applied(reductions, e.id).omittedArguments then OMITTED_MARKER_TOKENS
    else if e.kind == "tool_call" && InputPayload(e).None? then 1
    else 0
  }

  /** The text of an element that a cap is applied to: a call's result, anything else's own text. */
  function CappedText(e: Element): string {
    if e.kind != "tool_call" then e.text
    else match FindChild(e.children, "result") case Some(result) => result.text case None => ""
  }

  /** What a capped text costs less than the cap it is charged. */
  function Slack(e: Element, reductions: Reductions): nat {
    if Applied(reductions, e.id).cappedText then SaturatingSub(TRUNCATED_BYTES, Estimate(Truncated(CappedText(e)))) else 0
  }

  /** Only texts in memory above the cap are capped, instructions never, and only tool calls lose arguments. */
  ghost predicate Plausible(e: Element, reductions: Reductions) {
    var applied := Applied(reductions, e.id);
    EntryOf(e).Some? ==>
      && (applied.cappedText ==>
            InMemory(e) && e.kind != "system" && e.kind != "steering" && EntryOf(e).value.textTokens > TRUNCATED_BYTES)
      && (applied.omittedArguments ==> e.kind == "tool_call")
  }

  lemma ReasonableIsPlausible(e: Element, reductions: Reductions)
    requires InMemory(e) && SparesInstructions(e, reductions)
    requires EntryOf(e).Some? ==> Reasonable(EntryOf(e).value, Applied(reductions, e.id))
    ensures Plausible(e, reductions)
  {
    hide PreviewLine, InMemory;
  }

  /** The arguments a call sends. */
  function SentArguments(e: Element, reductions: Reductions): nat {
    if e.kind != "tool_call" then 0
    else if Applied(reductions, e.id).omittedArguments then OMITTED_MARKER_TOKENS
    else Estimate(InputPayload(e).GetOr("null"))
  }

  lemma EntryCharges(e: Element)
    requires EntryOf(e).Some?
    ensures var entry := EntryOf(e).value;
      && (entry.role == ToolCall <==> e.kind == "tool_call")
      && entry.argsTokens == (if e.kind == "tool_call" then Estimate(InputPayload(e).GetOr("")) else 0)
      && entry.textTokens == Estimate(CappedText(e))
  {
    NullCost();
    hide PreviewLine, ValidId, HasValue, Interrupted, IsPinned, Estimate, FindChild;
  }

  /** What is sent is the arguments and the projected text. */
  lemma SentPieces(e: Element, reductions: Reductions)
    requires EntryOf(e).Some? && Plausible(e, reductions)
    ensures CarriedAll(MessagesOf(e, reductions)) ==
      SentArguments(e, reductions) + Estimate(ProjectText(reductions, e.id, CappedText(e)))
  {
    NullCost();
    MarkerCost();
    hide PreviewLine, OMITTED_MARKER, Truncated, ValidId, HasValue, Interrupted, IsPinned, Estimate, FindChild, InMemory;
    var ms := MessagesOf(e, reductions);
    assert CarriedAll(ms) == Carried(ms[0]) + CarriedAll(ms[1..]);
    if |ms| > 1 {
      assert CarriedAll(ms[1..]) == Carried(ms[1]) + CarriedAll(ms[1..][1..]);
    }
  }

  /** A capped text of the element is above the cap, and its projection stays below it. */
  lemma CappedTextFits(e: Element, reductions: Reductions)
    requires EntryOf(e).Some? && Plausible(e, reductions)
    ensures Applied(reductions, e.id).cappedText ==> Estimate(Truncated(CappedText(e))) <= TRUNCATED_MOST
  {
    NullCost();
    EntryCharges(e);
    hide EntryOf, Truncated, Estimate;
    if Applied(reductions, e.id).cappedText {
      FoundChildInMemory(e.children, "result");
      TruncatedFits(CappedText(e));
    }
  }

  /**
   The charge is exact: between it and what is sent stand only the call overhead,
   what was not planned, and what capped texts cost less than their cap.
   */
  lemma ChargeIsExact(e: Element, reductions: Reductions)
    requires EntryOf(e).Some? && Plausible(e, reductions)
    ensures var entry := EntryOf(e).value;
      CarriedAll(MessagesOf(e, reductions)) + (if entry.role == ToolCall then CALL_OVERHEAD else 0) + Slack(e, reductions) ==
        entry.Cost(Applied(reductions, e.id)) + Unplanned(e, reductions)
  {
    NullCost();
    EntryCharges(e);
    SentPieces(e, reductions);
    CappedTextFits(e, reductions);
    hide EntryOf, MessagesOf, CarriedAll, Truncated, Estimate, CappedText, FindChild, InMemory;
  }

  /**
   An element sends more than it is charged exactly when its arguments were omitted
   and its text was not capped: the saving counted for the arguments is not all
   realized, and only a capped text makes up for the marker.
   */
  lemma OmissionIsNotRealized(e: Element, reductions: Reductions)
    requires EntryOf(e).Some? && Plausible(e, reductions)
    ensures CarriedAll(MessagesOf(e, reductions)) > EntryOf(e).value.Cost(Applied(reductions, e.id)) <==>
      Applied(reductions, e.id).omittedArguments && !Applied(reductions, e.id).cappedText
  {
    ChargeIsExact(e, reductions);
    CappedTextFits(e, reductions);
    EntryCharges(e);
    hide MessagesOf, EntryOf, Truncated;
  }

  /**
   What an element sends never exceeds what it is charged: the call overhead covers
   an absent payload's `null`, and only the omission marker can add to it.
   */
  lemma SentWithinCharge(e: Element, reductions: Reductions)
    requires InMemory(e) && SparesInstructions(e, reductions) && EntryOf(e).Some?
    requires Reasonable(EntryOf(e).value, Applied(reductions, e.id))
    ensures var entry := EntryOf(e).value;
      var applied := Applied(reductions, e.id);
      CarriedAll(MessagesOf(e, reductions)) + (if entry.role == ToolCall then CALL_OVERHEAD else 0) <=
        entry.Cost(applied)
        + (if applied.omittedArguments then OMITTED_MARKER_TOKENS
           else if entry.role == ToolCall && InputPayload(e).None? then 1
           else 0)
  {
    ReasonableIsPlausible(e, reductions);
    ChargeIsExact(e, reductions);
    EntryCharges(e);
    hide MessagesOf, EntryOf;
  }

  lemma NullCost()
    ensures Estimate("null") == 1 && Estimate("") == 0
  {
    AllAscii("null");
  }

  // ----- Whole-body accounting -----------------------------------------------

  function BodyCost(entries: seq<BodyEntry>, covered: set<ElementId>, reductions: Reductions): nat {
    if entries == [] then 0
    else (if entries[0].id in covered then 0 else entries[0].Cost(Applied(reductions, entries[0].id)))
         + BodyCost(entries[1..], covered, reductions)
  }

  /** Entries whose arguments the reductions replace by the marker while their text stays whole. */
  function UnrealizedCount(entries: seq<BodyEntry>, covered: set<ElementId>, reductions: Reductions): nat {
    if entries == [] then 0
    else (if entries[0].id !in covered && Unrealized(Applied(reductions, entries[0].id)) then 1 else 0)
         + UnrealizedCount(entries[1..], covered, reductions)
  }

  predicate Unrealized(applied: Reduction) {
    applied.omittedArguments && !applied.cappedText
  }

  ghost predicate Faithful(body: seq<Element>, reductions: Reductions) {
    forall i :: 0 <= i < |body| ==>
      && InMemory(body[i])
      && SparesInstructions(body[i], reductions)
      && (EntryOf(body[i]).Some? ==> Reasonable(EntryOf(body[i]).value, Applied(reductions, body[i].id)))
  }

  lemma FaithfulIsPlausible(body: seq<Element>, reductions: Reductions)
    requires Faithful(body, reductions)
    ensures forall i :: 0 <= i < |body| ==> Plausible(body[i], reductions)
  {
    hide InMemory, SparesInstructions, Reasonable, EntryOf, Plausible;
    forall i | 0 <= i < |body|
      ensures Plausible(body[i], reductions)
    {
      ReasonableIsPlausible(body[i], reductions);
    }
  }

  lemma EntryKeepsId(e: Element)
    ensures EntryOf(e).Some? ==> EntryOf(e).value.id == e.id
  {
  }

  /**
   The request's texts and arguments cost at most the planner's count of the
   body, plus what the omission markers cost beyond the call overhead.
   */
  lemma {:induction false} WireWithinCharge(body: seq<Element>, covered: set<ElementId>, reductions: Reductions)
    requires Faithful(body, reductions)
    ensures CarriedAll(Messages(body, covered, reductions)) <=
      BodyCost(Entries(body), covered, reductions)
      + (OMITTED_MARKER_TOKENS - CALL_OVERHEAD) * UnrealizedCount(Entries(body), covered, reductions)
  {
    hide EntryOf, MessagesOf, InMemory, SparesInstructions, Reasonable;
    if body != [] {
      var e, rest := body[0], body[1..];
      assert forall i :: 0 <= i < |rest| ==> rest[i] == body[i + 1];
      WireWithinCharge(rest, covered, reductions);
      EntryKeepsId(e);
      ChargedIffSent(e, reductions);
      CarriedConcat(MessagesOf(e, reductions), Messages(rest, covered, reductions));
      match EntryOf(e) {
        case None =>
          assert [] + Entries(rest) == Entries(rest);
        case Some(entry) =>
          SentBeyondCharge(e, reductions);
          var entries := [entry] + Entries(rest);
          assert entries[1..] == Entries(rest);
      }
      if e.id in covered {
        assert [] + Messages(rest, covered, reductions) == Messages(rest, covered, reductions);
      }
    }
  }

  /** An element sends at most its charge, plus what an unrealized omission costs beyond the call overhead. */
  lemma SentBeyondCharge(e: Element, reductions: Reductions)
    requires EntryOf(e).Some? && InMemory(e) && SparesInstructions(e, reductions)
    requires Reasonable(EntryOf(e).value, Applied(reductions, e.id))
    ensures CarriedAll(MessagesOf(e, reductions)) <= EntryOf(e).value.Cost(Applied(reductions, e.id)) +
      if Unrealized(Applied(reductions, e.id)) then OMITTED_MARKER_TOKENS - CALL_OVERHEAD else 0
  {
    ReasonableIsPlausible(e, reductions);
    ChargeIsExact(e, reductions);
    CappedTextFits(e, reductions);
    EntryCharges(e);
    hide MessagesOf, EntryOf, Truncated;
  }

  /** Tool calls the request carries. */
  function CallCount(entries: seq<BodyEntry>, covered: set<ElementId>): nat {
    if entries == [] then 0
    else (if entries[0].id !in covered && entries[0].role == ToolCall then 1 else 0) + CallCount(entries[1..], covered)
  }

  function SlackAll(body: seq<Element>, covered: set<ElementId>, reductions: Reductions): nat {
    if body == [] then 0
    else (if body[0].id !in covered && EntryOf(body[0]).Some? then Slack(body[0], reductions) else 0)
         + SlackAll(body[1..], covered, reductions)
  }

  function UnplannedAll(body: seq<Element>, covered: set<ElementId>, reductions: Reductions): nat {
    if body == [] then 0
    else (if body[0].id !in covered && EntryOf(body[0]).Some? then Unplanned(body[0], reductions) else 0)
         + UnplannedAll(body[1..], covered, reductions)
  }

  /**
   What the request carries is known exactly, and it exceeds the planner's count
   of the body exactly when the markers and `null`s together exceed the overhead
   charged for the calls and what capped texts cost less than their cap.
   */
  lemma {:induction false} WireExact(body: seq<Element>, covered: set<ElementId>, reductions: Reductions)
    requires forall i :: 0 <= i < |body| ==> Plausible(body[i], reductions)
    ensures CarriedAll(Messages(body, covered, reductions)) + CALL_OVERHEAD * CallCount(Entries(body), covered)
      + SlackAll(body, covered, reductions) ==
      BodyCost(Entries(body), covered, reductions) + UnplannedAll(body, covered, reductions)
    ensures CarriedAll(Messages(body, covered, reductions)) > BodyCost(Entries(body), covered, reductions) <==>
      UnplannedAll(body, covered, reductions) >
        CALL_OVERHEAD * CallCount(Entries(body), covered) + SlackAll(body, covered, reductions)
  {
    hide EntryOf, MessagesOf, Plausible, Unplanned, Slack;
    if body != [] {
      var e, rest := body[0], body[1..];
      assert forall i :: 0 <= i < |rest| ==> rest[i] == body[i + 1];
      WireExact(rest, covered, reductions);
      EntryKeepsId(e);
      ChargedIffSent(e, reductions);
      CarriedConcat(MessagesOf(e, reductions), Messages(rest, covered, reductions));
      match EntryOf(e) {
        case None =>
          assert [] + Entries(rest) == Entries(rest);
        case Some(entry) =>
          ChargeIsExact(e, reductions);
          var entries := [entry] + Entries(rest);
          assert entries[1..] == Entries(rest);
      }
      if e.id in covered {
        assert [] + Messages(rest, covered, reductions) == Messages(rest, covered, reductions);
      }
    }
  }

  // ----- A planned saving that is not realized -------------------------------

  const LONG_CALL_ATTRIBUTES := map["call_id" := String("c")]

  /** A tool call with 260 bytes of arguments and no result yet. */
  function LongCall(): Element {
    Element(0, "tool_call", LONG_CALL_ATTRIBUTES, "", [Child("input", "", Some(seq(260, _ => 'x')))])
  }

  lemma LongCallEntry()
    ensures EntryOf(LongCall()).Some?
    ensures var entry := EntryOf(LongCall()).value;
      entry.id == 0 && entry.role == ToolCall && entry.argsTokens == 65 && entry.textTokens == 0
  {
    hide PreviewLine;
    var arguments := seq(260, _ => 'x');
    AllAscii(arguments);
    NullCost();
    AllAscii("c");
    assert "input" != "result";
  }

  /** The planner omits these arguments next and counts eight tokens; the request still sends twenty. */
  lemma SavingNotRealized()
    ensures var entry := EntryOf(LongCall()).value;
      var omitted := Reduction(false, true);
      && EntryOf(LongCall()).Some?
      && entry.NextReduction(NO_REDUCTION) == Some((omitted, 65))
      && entry.Cost(omitted) == CALL_OVERHEAD
      && CarriedAll(MessagesOf(LongCall(), map[0 := omitted])) == OMITTED_MARKER_TOKENS
  {
    hide EntryOf, MessagesOf;
    LongCallEntry();
    ChargeIsExact(LongCall(), map[0 := Reduction(false, true)]);
  }
}
