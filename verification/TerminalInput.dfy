/**
 The incremental terminal parser: bytes arrive in chunks of any size, events
 come out. The escape timer is taken never to expire.
 */
module TerminalInput {
  import opened Wrappers
  import opened Text

  const ESC: byte := 27
  const PASTE_BEGIN: seq<byte> := [27, 91, 50, 48, 48, 126]
  const PASTE_END: seq<byte> := [27, 91, 50, 48, 49, 126]
  const PASTE_LIMIT := 65_537

  datatype KeyCode = Enter | Tab | Backspace | Esc | Char(c: char) | Named(code: nat)

  datatype Modifiers = Modifiers(control: bool, alt: bool, shift: bool)

  const PLAIN := Modifiers(false, false, false)
  const CONTROL := Modifiers(true, false, false)

  /** A paste carries the bytes kept of its body. */
  datatype Event = Key(code: KeyCode, modifiers: Modifiers) | Mouse(report: seq<byte>) | Paste(body: seq<byte>)

  /** What an escape sequence other than the start of a paste stands for. */
  type SequenceDecoder = seq<byte> -> Option<Event>

  // ----- UTF-8 (RFC 3629, section 4) -----------------------------------------

  predicate Continuation(b: byte) {
    0x80 <= b <= 0xBF
  }

  function Two(a: byte, b: byte): int {
    (a - 0xC0) * 0x40 + (b - 0x80)
  }

  function Three(a: byte, b: byte, c: byte): int {
    (a - 0xE0) * 0x1000 + (b - 0x80) * 0x40 + (c - 0x80)
  }

  function Four(a: byte, b: byte, c: byte, d: byte): int {
    (a - 0xF0) * 0x4_0000 + (b - 0x80) * 0x1000 + (c - 0x80) * 0x40 + (d - 0x80)
  }

  /** The character a complete group of one to four bytes encodes, if it is well formed. */
  function Decode(s: seq<byte>): Option<char> {
    if |s| == 1 then
      if s[0] < 0x80 then Some(s[0] as char) else None
    else if |s| == 2 then
      if 0xC2 <= s[0] <= 0xDF && Continuation(s[1]) then Some(Two(s[0], s[1]) as char) else None
    else if |s| == 3 then
      if 0xE0 <= s[0] <= 0xEF && Continuation(s[1]) && Continuation(s[2])
         && (s[0] == 0xE0 ==> s[1] >= 0xA0) && (s[0] == 0xED ==> s[1] <= 0x9F)
      then Some(Three(s[0], s[1], s[2]) as char) else None
    else if |s| == 4 then
      if 0xF0 <= s[0] <= 0xF4 && Continuation(s[1]) && Continuation(s[2]) && Continuation(s[3])
         && (s[0] == 0xF0 ==> s[1] >= 0x90) && (s[0] == 0xF4 ==> s[1] <= 0x8F)
      then Some(Four(s[0], s[1], s[2], s[3]) as char) else None
    else None
  }

  /** The bytes of a character. */
  function Encode(c: char): (s: seq<byte>)
    ensures 1 <= |s| <= 4
  {
    var x := c as int;
    if x < 0x80 then [x]
    else if x < 0x800 then [0xC0 + x / 0x40, 0x80 + x % 0x40]
    else if x < 0x1_0000 then [0xE0 + x / 0x1000, 0x80 + x / 0x40 % 0x40, 0x80 + x % 0x40]
    else [0xF0 + x / 0x4_0000, 0x80 + x / 0x1000 % 0x40, 0x80 + x / 0x40 % 0x40, 0x80 + x % 0x40]
  }

  /** The parser's guess at the length of a group from its first byte. */
  function Needed(first: byte): nat {
    if first < 128 then 1 else if first < 224 then 2 else if first < 240 then 3 else 4
  }

  /** Encoding then decoding gives the character back, and the first byte tells the length. */
  lemma DecodeEncode(c: char)
    ensures Decode(Encode(c)) == Some(c) && Needed(Encode(c)[0]) == |Encode(c)|
  {
    var x := c as int;
    if x < 0x80 {
    } else if x < 0x800 {
      assert x == x / 0x40 * 0x40 + x % 0x40;
    } else if x < 0x1_0000 {
      assert x / 0x40 / 0x40 == x / 0x1000;
      assert x == x / 0x40 * 0x40 + x % 0x40 && x / 0x40 == x / 0x1000 * 0x40 + x / 0x40 % 0x40;
    } else {
      assert x / 0x40 / 0x40 == x / 0x1000 && x / 0x1000 / 0x40 == x / 0x4_0000;
      assert x == x / 0x40 * 0x40 + x % 0x40 && x / 0x40 == x / 0x1000 * 0x40 + x / 0x40 % 0x40;
      assert x / 0x1000 == x / 0x4_0000 * 0x40 + x / 0x1000 % 0x40;
    }
  }

  // ----- One step ------------------------------------------------------------

  /** Bytes not used yet, and the paste being collected. */
  datatype State = State(pending: seq<byte>, paste: Option<seq<byte>>)

  /** What the front of the pending bytes leads to. */
  datatype Step =
    | Wait
    | Emit(event: Event, next: State)
    | Go(next: State)
    | Alt(next: State)
    | Drop(next: State)

  predicate IsAlphabetic(b: byte) {
    65 <= b <= 90 || 97 <= b <= 122
  }

  predicate IsMouse(p: seq<byte>) {
    |p| > 2 && p[1] == 91 && p[2] == 60
  }

  /** Does the escape sequence at the front end at position `i`? */
  predicate EndsAt(p: seq<byte>, i: nat)
    requires i < |p|
  {
    if IsMouse(p) then p[i] == 77 || (p[i] == 109 && !(i + 1 < |p| && IsAlphabetic(p[i + 1])))
    else 0x40 <= p[i] <= 0x7E
  }

  /** The first position from `i` on where the escape sequence ends. */
  function FindEnd(p: seq<byte>, i: nat): (end: Option<nat>)
    ensures end.Some? ==> i <= end.value < |p| && EndsAt(p, end.value)
    ensures forall j :: i <= j < (if end.Some? then end.value else |p|) ==> !EndsAt(p, j)
    decreases |p| - i
  {
    if i >= |p| then None else if EndsAt(p, i) then Some(i) else FindEnd(p, i + 1)
  }

  function ControlKey(first: byte): Option<(KeyCode, Modifiers)> {
    if first == 13 then Some((Enter, PLAIN))
    else if first == 10 then Some((Char('j'), CONTROL))
    else if first == 9 then Some((Tab, PLAIN))
    else if first == 8 || first == 127 then Some((Backspace, PLAIN))
    else if 1 <= first <= 26 then Some((Char((97 + first - 1) as char), CONTROL))
    else if first == 0 then Some((Char(' '), CONTROL))
    else None
  }

  function Kept(body: seq<byte>, b: byte): seq<byte> {
    if |body| < PASTE_LIMIT then body + [b] else body
  }

  /** Collecting a paste: the end marker finishes it, a partial one waits, anything else is body. */
  function PasteStep(p: seq<byte>, body: seq<byte>): Step {
    if p == [] then Wait
    else if PASTE_END <= p then Emit(Paste(body), State(p[6..], None))
    else if p <= PASTE_END then Wait
    else Go(State(p[1..], Some(Kept(body, p[0]))))
  }

  function EscapeStep(p: seq<byte>, decode: SequenceDecoder): Step
    requires p != [] && p[0] == ESC
  {
    if |p| == 1 then Wait
    else if p[1] == 91 || p[1] == 79 then
      var end := FindEnd(p, 2);
      if end.None? then
        if |p| > 96 then Drop(State([], None)) else Wait
      else
        var sequence, rest := p[..end.value + 1], p[end.value + 1..];
        if sequence == PASTE_BEGIN then Go(State(rest, Some([])))
        else
          match decode(sequence)
          case Some(event) => Emit(event, State(rest, None))
          case None => Go(State(rest, None))
    else Alt(State(p[1..], None))
  }

  function PlainStep(p: seq<byte>): Step
    requires p != []
  {
    var control := ControlKey(p[0]);
    if control.Some? then Emit(Key(control.value.0, control.value.1), State(p[1..], None))
    else
      var needed := Needed(p[0]);
      if |p| < needed then Wait
      else
        match Decode(p[..needed])
        case Some(c) => Emit(Key(Char(c), PLAIN), State(p[needed..], None))
        case None => Go(State(p[1..], None))
  }

  function StepOf(st: State, decode: SequenceDecoder): (step: Step)
    ensures !step.Wait? ==> |step.next.pending| < |st.pending|
  {
    if st.paste.Some? then PasteStep(st.pending, st.paste.value)
    else if st.pending == [] then Wait
    else if st.pending[0] == ESC then EscapeStep(st.pending, decode)
    else PlainStep(st.pending)
  }

  // ----- The next event ------------------------------------------------------

  function NextEvent(st: State, decode: SequenceDecoder): (r: (Option<Event>, State))
    ensures |r.1.pending| <= |st.pending|
    ensures r.0.Some? ==> |r.1.pending| < |st.pending|
    decreases |st.pending|
  {
    match StepOf(st, decode)
    case Wait => (None, st)
    case Emit(event, next) => (Some(event), next)
    case Go(next) => NextEvent(next, decode)
    case Drop(next) => (None, next)
    case Alt(next) =>
      WithAlt(NextEvent(next, decode))
  }

  /** An event after an escape of its own: a key with Alt, or nothing. */
  function WithAlt(r: (Option<Event>, State)): (Option<Event>, State) {
    (match r.0
     case Some(Key(key, modifiers)) => Some(Key(key, modifiers.(alt := true)))
     case _ => None,
     r.1)
  }

  lemma NextByStep(st: State, decode: SequenceDecoder)
    ensures NextEvent(st, decode) ==
      match StepOf(st, decode)
      case Wait => (None, st)
      case Emit(event, next) => (Some(event), next)
      case Go(next) => NextEvent(next, decode)
      case Drop(next) => (None, next)
      case Alt(next) => WithAlt(NextEvent(next, decode))
  {
    hide StepOf;
  }

  class Parser {
    var pending: seq<byte>
    var paste: Option<seq<byte>>
    const decode: SequenceDecoder

    constructor (decode: SequenceDecoder)
      ensures pending == [] && paste == None && this.decode == decode
    {
      pending, paste := [], None;
      this.decode := decode;
    }

    function Now(): State
      reads this
    {
      State(pending, paste)
    }

    method Feed(bytes: seq<byte>)
      modifies this
      ensures Now() == State(old(pending) + bytes, old(paste))
    {
      pending := pending + bytes;
    }

    /** Collects a paste until its end marker or until the bytes run out. */
    method NextInPaste() returns (event: Option<Event>)
      requires paste.Some?
      modifies this
      ensures (event, Now()) == NextEvent(old(Now()), decode)
    {
      hide Kept;
      while pending != []
        invariant paste.Some?
        invariant NextEvent(Now(), decode) == NextEvent(old(Now()), decode)
        decreases |pending|
      {
        if PASTE_END <= pending {
          event := Some(Paste(paste.value));
          pending, paste := pending[6..], None;
          return;
        }
        if pending <= PASTE_END {
          return None;
        }
        pending, paste := pending[1..], Some(Kept(paste.value, pending[0]));
      }
      event := None;
    }

    method Next() returns (event: Option<Event>)
      modifies this
      ensures (event, Now()) == NextEvent(old(Now()), decode)
      decreases |pending|
    {
      hide NextEvent, StepOf;
      while true
        invariant |pending| <= |old(pending)|
        invariant NextEvent(Now(), decode) == NextEvent(old(Now()), decode)
        decreases |pending|, if paste.Some? then 0 else 1
      {
        NextByStep(Now(), decode);
        StepCases(Now(), decode);
        if paste.Some? {
          event := NextInPaste();
          return;
        } else if pending == [] {
          return None;
        } else if pending[0] == ESC {
          if |pending| == 1 {
            return None;
          }
          if pending[1] == 91 || pending[1] == 79 {
            var again;
            event, again := TakeSequence();
            if !again {
              return;
            }
          } else {
            pending := pending[1..];
            var inner := Next();
            if inner.Some? && inner.value.Key? {
              return Some(inner.value.(modifiers := inner.value.modifiers.(alt := true)));
            }
            return None;
          }
        } else {
          var again;
          event, again := TakePlain();
          if !again {
            return;
          }
        }
      }
    }

    /** An escape sequence at the front: its event, the start of a paste, nothing, or not all of it yet. */
    method TakeSequence() returns (event: Option<Event>, again: bool)
      requires paste.None? && |pending| > 1 && pending[0] == ESC && (pending[1] == 91 || pending[1] == 79)
      modifies this
      ensures Took(StepOf(old(Now()), decode), old(Now()), Now(), event, again)
    {
      hide FindEnd;
      event, again := None, false;
      var end := FindEnd(pending, 2);
      if end.None? {
        if |pending| > 96 {
          pending := [];
        }
        return;
      }
      var sequence := pending[..end.value + 1];
      pending := pending[end.value + 1..];
      if sequence == PASTE_BEGIN {
        paste, again := Some([]), true;
      } else {
        event := decode(sequence);
        again := event.None?;
      }
    }

    /** An ordinary byte at the front: a control key, a character, a stray byte, or part of a character. */
    method TakePlain() returns (event: Option<Event>, again: bool)
      requires paste.None? && pending != [] && pending[0] != ESC
      modifies this
      ensures Took(StepOf(old(Now()), decode), old(Now()), Now(), event, again)
    {
      hide Decode, ControlKey;
      event, again := None, false;
      var control := ControlKey(pending[0]);
      if control.Some? {
        pending := pending[1..];
        return Some(Key(control.value.0, control.value.1)), false;
      }
      var needed := Needed(pending[0]);
      if |pending| < needed {
        return;
      }
      var c := Decode(pending[..needed]);
      if c.Some? {
        pending := pending[needed..];
        return Some(Key(Char(c.value), PLAIN)), false;
      }
      pending, again := pending[1..], true;
    }
  }

  /** One step was taken: to an event, to a state to go on from, or to a halt. */
  predicate Took(step: Step, before: State, after: State, event: Option<Event>, again: bool) {
    match step
    case Wait => !again && event == None && after == before
    case Emit(e, next) => !again && event == Some(e) && after == next
    case Go(next) => again && event == None && after == next
    case Drop(next) => !again && event == None && after == next
    case Alt(_) => false
  }

  /** Where nothing is to be decoded the step is known from the front. */
  lemma StepCases(st: State, decode: SequenceDecoder)
    ensures st.paste.None? && (st.pending == [] || st.pending == [ESC]) ==> StepOf(st, decode) == Wait
    ensures st.paste.None? && |st.pending| > 1 && st.pending[0] == ESC && st.pending[1] != 91 && st.pending[1] != 79 ==>
      StepOf(st, decode) == Alt(State(st.pending[1..], None))
  {
  }

  // ----- Chunks --------------------------------------------------------------

  /** Everything the parser says before it waits, and where it is left. */
  function Drain(st: State, decode: SequenceDecoder): (seq<Event>, State)
    decreases |st.pending|
  {
    var (event, next) := NextEvent(st, decode);
    match event
    case None => ([], next)
    case Some(e) =>
      var (more, end) := Drain(next, decode);
      ([e] + more, end)
  }

  function Fed(st: State, bytes: seq<byte>): State {
    st.(pending := st.pending + bytes)
  }

  /** Feeding chunk after chunk, taking every event in between. */
  function FeedAll(st: State, chunks: seq<seq<byte>>, decode: SequenceDecoder): (seq<Event>, State)
    decreases |chunks|
  {
    if chunks == [] then ([], st)
    else
      var (events, after) := Drain(Fed(st, chunks[0]), decode);
      var (more, end) := FeedAll(after, chunks[1..], decode);
      (events + more, end)
  }

  function Concat(chunks: seq<seq<byte>>): seq<byte> {
    if chunks == [] then [] else chunks[0] + Concat(chunks[1..])
  }

  /** An escape sequence at the front, other than a mouse report, that ends within 97 bytes. */
  predicate Framed(p: seq<byte>) {
    && |p| > 2 && p[0] == ESC && (p[1] == 91 || p[1] == 79) && !IsMouse(p)
    && FindEnd(p, 2).Some? && FindEnd(p, 2).value <= 96
  }

  /**
   Streams whose reading must not depend on chunks: ordinary bytes, complete
   pastes and complete escape sequences, in any order and number. In a paste
   everything up to the end marker is body.
   */
  predicate WellFramed(p: seq<byte>, inPaste: bool)
    decreases |p|
  {
    if inPaste then p != [] && if PASTE_END <= p then WellFramed(p[6..], false) else WellFramed(p[1..], true)
    else if p == [] then true
    else if p[0] != ESC then WellFramed(p[1..], false)
    else
      Framed(p) &&
      var end := FindEnd(p, 2).value + 1;
      WellFramed(p[end..], p[..end] == PASTE_BEGIN)
  }

  /** The stream still to come, `more` included, is well framed. */
  predicate OnTrack(st: State, more: seq<byte>) {
    WellFramed(st.pending + more, st.paste.Some?)
  }

  lemma {:induction false} FindEndStable(p: seq<byte>, more: seq<byte>, i: nat)
    requires |p| > 2 && !IsMouse(p + more)
    ensures FindEnd(p, i).Some? ==> FindEnd(p + more, i) == FindEnd(p, i)
    ensures FindEnd(p, i).None? && FindEnd(p + more, i).Some? ==> FindEnd(p + more, i).value >= |p|
    decreases |p| - i
  {
    assert IsMouse(p) == IsMouse(p + more);
    if i < |p| && !EndsAt(p, i) {
      FindEndStable(p, more, i + 1);
    }
  }

  /** Skipping ordinary bytes leaves the rest well framed. */
  lemma {:induction false} SkipOrdinary(p: seq<byte>, k: nat)
    requires k <= |p| && WellFramed(p, false) && forall i :: 0 <= i < k ==> p[i] != ESC
    ensures WellFramed(p[k..], false)
  {
    if k > 0 {
      assert p[1..][k - 1..] == p[k..];
      SkipOrdinary(p[1..], k - 1);
    }
  }

  /** Well-formed groups contain no escape byte. */
  lemma DecodedHasNoEscape(p: seq<byte>)
    requires p != [] && p[0] != ESC && Decode(p).Some?
    ensures forall i :: 0 <= i < |p| ==> p[i] != ESC
  {
  }

  /** A step that does not wait would be the same with more bytes behind it. */
  predicate Stable(st: State, more: seq<byte>, decode: SequenceDecoder) {
    var step := StepOf(st, decode);
    || step.Wait?
    || (!step.Alt? && !step.Drop? && OnTrack(step.next, more)
        && StepOf(Fed(st, more), decode) == (if step.Emit? then Emit(step.event, Fed(step.next, more)) else Go(Fed(step.next, more))))
  }

  lemma PlainStable(st: State, more: seq<byte>, decode: SequenceDecoder)
    requires st.paste.None? && st.pending != [] && st.pending[0] != ESC && OnTrack(st, more)
    ensures Stable(st, more, decode)
  {
    hide Decode;
    var p := st.pending;
    var whole := p + more;
    assert whole[1..] == p[1..] + more;
    var needed := Needed(p[0]);
    if ControlKey(p[0]).None? && |p| >= needed {
      assert whole[..needed] == p[..needed];
      if Decode(p[..needed]).Some? {
        DecodedHasNoEscape(p[..needed]);
        forall i | 0 <= i < needed
          ensures whole[i] != ESC
        {
          assert p[..needed][i] == p[i];
        }
        hide WellFramed;
        SkipOrdinary(whole, needed);
        assert whole[needed..] == p[needed..] + more;
      }
    }
  }

  lemma PasteStable(st: State, more: seq<byte>, decode: SequenceDecoder)
    requires st.paste.Some? && OnTrack(st, more)
    ensures Stable(st, more, decode)
  {
    hide Kept;
    var p := st.pending;
    var whole := p + more;
    if p != [] {
      assert whole[1..] == p[1..] + more;
      if PASTE_END <= p {
        assert whole[..6] == p[..6] == PASTE_END;
        assert whole[6..] == p[6..] + more;
      } else if !(p <= PASTE_END) {
        NotAMarker(p, more);
      }
    }
  }

  /** A front that already differs from the marker stays different. */
  lemma NotAMarker(p: seq<byte>, more: seq<byte>)
    requires !(PASTE_END <= p) && !(p <= PASTE_END)
    ensures !(PASTE_END <= p + more) && !(p + more <= PASTE_END)
  {
    var n := if |p| < 6 then |p| else 6;
    assert p[..n] != PASTE_END[..n];
    var k: nat :| k < n && p[k] != PASTE_END[k];
    DiffersAt(p + more, k);
  }

  lemma DiffersAt(p: seq<byte>, k: nat)
    requires k < |p| && k < 6 && p[k] != PASTE_END[k]
    ensures !(PASTE_END <= p) && !(p <= PASTE_END)
  {
  }

  lemma EscapeStable(st: State, more: seq<byte>, decode: SequenceDecoder)
    requires st.paste.None? && st.pending != [] && st.pending[0] == ESC && OnTrack(st, more)
    ensures Stable(st, more, decode)
  {
    var p := st.pending;
    var whole := p + more;
    assert Framed(whole);
    if |p| == 1 {
    } else if |p| == 2 {
      assert FindEnd(p, 2).None?;
    } else {
      FindEndStable(p, more, 2);
      if FindEnd(p, 2).Some? {
        var end := FindEnd(p, 2).value + 1;
        assert whole[..end] == p[..end] && whole[end..] == p[end..] + more;
      }
    }
  }

  lemma StepStable(st: State, more: seq<byte>, decode: SequenceDecoder)
    requires OnTrack(st, more)
    ensures Stable(st, more, decode)
  {
    hide Stable, OnTrack;
    if st.paste.Some? {
      PasteStable(st, more, decode);
    } else if st.pending == [] {
      NothingWaits(st, more, decode);
    } else if st.pending[0] == ESC {
      EscapeStable(st, more, decode);
    } else {
      PlainStable(st, more, decode);
    }
  }

  lemma NothingWaits(st: State, more: seq<byte>, decode: SequenceDecoder)
    requires st.paste.None? && st.pending == []
    ensures Stable(st, more, decode)
  {
  }

  /** An event found in a chunk is the event found in the whole stream. */
  lemma {:induction false} NextStable(st: State, more: seq<byte>, decode: SequenceDecoder)
    requires OnTrack(st, more)
    ensures var (event, next) := NextEvent(st, decode);
      && OnTrack(next, more)
      && (event.Some? ==> NextEvent(Fed(st, more), decode) == (event, Fed(next, more)))
      && (event.None? ==> NextEvent(Fed(st, more), decode) == NextEvent(Fed(next, more), decode))
    decreases |st.pending|
  {
    hide OnTrack, StepOf;
    StepStable(st, more, decode);
    var step := StepOf(st, decode);
    if step.Go? {
      NextStable(step.next, more, decode);
    }
  }

  /** Draining before more bytes arrive changes nothing. */
  lemma {:induction false} DrainStable(st: State, more: seq<byte>, decode: SequenceDecoder)
    requires OnTrack(st, more)
    ensures var (events, next) := Drain(st, decode);
      && OnTrack(next, more)
      && Drain(Fed(st, more), decode) == (events + Drain(Fed(next, more), decode).0, Drain(Fed(next, more), decode).1)
    decreases |st.pending|
  {
    hide OnTrack, NextEvent;
    NextStable(st, more, decode);
    var (event, next) := NextEvent(st, decode);
    if event.Some? {
      DrainStable(next, more, decode);
      var (events, end) := Drain(next, decode);
      var later := Drain(Fed(end, more), decode);
      assert [event.value] + (events + later.0) == ([event.value] + events) + later.0;
    } else {
      SameDrain(Fed(st, more), Fed(next, more), decode);
      assert [] + Drain(Fed(next, more), decode).0 == Drain(Fed(next, more), decode).0;
    }
  }

  lemma SameDrain(a: State, b: State, decode: SequenceDecoder)
    requires NextEvent(a, decode) == NextEvent(b, decode)
    ensures Drain(a, decode) == Drain(b, decode)
  {
    hide NextEvent;
  }

  /** A drained parser has nothing more to say. */
  lemma {:induction false} DrainedIsIdle(st: State, more: seq<byte>, decode: SequenceDecoder)
    requires OnTrack(st, more)
    ensures var end := Drain(st, decode).1; Drain(end, decode) == ([], end)
    decreases |st.pending|
  {
    hide OnTrack, StepOf;
    NextStable(st, more, decode);
    var (event, next) := NextEvent(st, decode);
    if event.Some? {
      DrainedIsIdle(next, more, decode);
    } else {
      NextIsIdle(st, more, decode);
    }
  }

  lemma {:induction false} NextIsIdle(st: State, more: seq<byte>, decode: SequenceDecoder)
    requires OnTrack(st, more) && NextEvent(st, decode).0.None?
    ensures NextEvent(NextEvent(st, decode).1, decode) == NextEvent(st, decode)
    decreases |st.pending|
  {
    hide OnTrack, StepOf;
    StepStable(st, more, decode);
    var step := StepOf(st, decode);
    if step.Go? {
      NextIsIdle(step.next, more, decode);
    }
  }

  /**
   Chunking does not matter: however a well-framed stream is cut into chunks,
   feeding them one by one and taking events in between gives the events of
   feeding it whole, and leaves the parser in the same state.
   */
  lemma {:induction false} ChunksDoNotMatter(st: State, chunks: seq<seq<byte>>, decode: SequenceDecoder)
    requires OnTrack(st, Concat(chunks)) && Drain(st, decode) == ([], st)
    ensures FeedAll(st, chunks, decode) == Drain(Fed(st, Concat(chunks)), decode)
    decreases |chunks|
  {
    hide OnTrack, Drain;
    if chunks == [] {
      assert st.pending + [] == st.pending;
    } else {
      var rest := Concat(chunks[1..]);
      var fed := Fed(st, chunks[0]);
      assert st.pending + chunks[0] + rest == st.pending + (chunks[0] + rest);
      assert Fed(st, Concat(chunks)) == Fed(fed, rest);
      FedOnTrack(st, chunks[0], rest);
      DrainStable(fed, rest, decode);
      DrainedIsIdle(fed, rest, decode);
      ChunksDoNotMatter(Drain(fed, decode).1, chunks[1..], decode);
    }
  }

  lemma FedOnTrack(st: State, bytes: seq<byte>, more: seq<byte>)
    requires OnTrack(st, bytes + more)
    ensures OnTrack(Fed(st, bytes), more)
  {
    assert st.pending + bytes + more == st.pending + (bytes + more);
  }

  // ----- What the events are -------------------------------------------------

  /** Something a user does: types a character, pastes, or presses a key that sends an escape sequence. */
  datatype Piece = Typed(c: char) | Pasted(body: seq<byte>) | Pressed(lead: byte, parameters: seq<byte>, final: byte)

  function SequenceBytes(lead: byte, parameters: seq<byte>, final: byte): seq<byte> {
    [ESC, lead] + parameters + [final]
  }

  function BytesOf(pieces: seq<Piece>): seq<byte> {
    if pieces == [] then []
    else
      (match pieces[0]
       case Typed(c) => Encode(c)
       case Pasted(body) => PASTE_BEGIN + body + PASTE_END
       case Pressed(lead, parameters, final) => SequenceBytes(lead, parameters, final)) + BytesOf(pieces[1..])
  }

  function Capped(body: seq<byte>): seq<byte> {
    if |body| <= PASTE_LIMIT then body else body[..PASTE_LIMIT]
  }

  function KeyOf(c: char): Event {
    if c as int < 128 && ControlKey(c as int).Some?
    then Key(ControlKey(c as int).value.0, ControlKey(c as int).value.1)
    else Key(Char(c), PLAIN)
  }

  /** The control characters: Enter, Tab and Backspace have names, the others are Control with a letter or the space bar. */
  lemma KeysAre(c: char)
    ensures c as int == 13 ==> KeyOf(c) == Key(Enter, PLAIN)
    ensures c as int == 9 ==> KeyOf(c) == Key(Tab, PLAIN)
    ensures c as int == 8 || c as int == 127 ==> KeyOf(c) == Key(Backspace, PLAIN)
    ensures c as int == 0 ==> KeyOf(c) == Key(Char(' '), CONTROL)
    ensures 1 <= c as int <= 26 && c as int !in {8, 9, 13} ==> KeyOf(c) == Key(Char((96 + c as int) as char), CONTROL)
    ensures 27 <= c as int && c as int != 127 ==> KeyOf(c) == Key(Char(c), PLAIN)
  {
  }

  /** What a key that sends a sequence means is the decoder's business; it may mean nothing. */
  function PressedEvents(sequence: seq<byte>, decode: SequenceDecoder): seq<Event> {
    match decode(sequence) case Some(event) => [event] case None => []
  }

  function EventsOf(pieces: seq<Piece>, decode: SequenceDecoder): seq<Event> {
    if pieces == [] then []
    else
      (match pieces[0]
       case Typed(c) => [KeyOf(c)]
       case Pasted(body) => [Paste(Capped(body))]
       case Pressed(lead, parameters, final) => PressedEvents(SequenceBytes(lead, parameters, final), decode))
      + EventsOf(pieces[1..], decode)
  }

  /** The end marker is nowhere in the body. */
  ghost predicate NoMarker(body: seq<byte>) {
    forall i: nat :: !MarkerAt(body, i)
  }

  predicate MarkerAt(body: seq<byte>, i: nat) {
    i + 6 <= |body| && body[i..i + 6] == PASTE_END
  }

  ghost predicate Proper(piece: Piece) {
    match piece
    case Typed(c) => c as int != ESC
    case Pasted(body) => NoMarker(body)
    case Pressed(lead, parameters, final) => ProperSequence(lead, parameters, final)
  }

  /**
   A control sequence (ECMA-48, section 5.4) or a single shift: parameter and
   intermediate bytes, then a final byte, of at most 97 bytes. Mouse reports and
   the start of a paste are not among them.
   */
  predicate ProperSequence(lead: byte, parameters: seq<byte>, final: byte) {
    && lead in {91, 79} && 0x40 <= final <= 0x7E && |parameters| <= 94
    && (forall i :: 0 <= i < |parameters| ==> 0x20 <= parameters[i] <= 0x3F)
    && (parameters != [] ==> parameters[0] != 60)
    && SequenceBytes(lead, parameters, final) != PASTE_BEGIN
  }

  /** A sequence is read up to its final byte and no further. */
  lemma PressedStep(lead: byte, parameters: seq<byte>, final: byte, rest: seq<byte>, decode: SequenceDecoder)
    requires ProperSequence(lead, parameters, final)
    ensures var sequence := SequenceBytes(lead, parameters, final);
      && StepOf(State(sequence + rest, None), decode) ==
         (match decode(sequence) case Some(event) => Emit(event, State(rest, None)) case None => Go(State(rest, None)))
      && (WellFramed(rest, false) ==> WellFramed(sequence + rest, false))
  {
    hide WellFramed;
    var sequence := SequenceBytes(lead, parameters, final);
    var p := sequence + rest;
    var at := 2 + |parameters|;
    assert p[0] == ESC && p[1] == lead && p[at] == final;
    assert forall i :: 2 <= i < at ==> p[i] == parameters[i - 2];
    assert !IsMouse(p);
    assert EndsAt(p, at) && forall j :: 2 <= j < at ==> !EndsAt(p, j);
    FoundAt(p, at);
    assert p[..at + 1] == sequence && p[at + 1..] == rest;
    if WellFramed(rest, false) {
      FramedStep(p, at);
    }
  }

  /**
   A mouse report ends at its press letter, or at its release letter unless a
   letter follows that; it is read up to there and no further.
   */
  lemma MouseReport(parameters: seq<byte>, press: bool, rest: seq<byte>, decode: SequenceDecoder)
    requires forall i :: 0 <= i < |parameters| ==> 0x30 <= parameters[i] <= 0x3B
    requires !press && rest != [] ==> !IsAlphabetic(rest[0])
    ensures var report := [ESC, 91, 60] + parameters + [if press then 77 else 109];
      StepOf(State(report + rest, None), decode) ==
        match decode(report) case Some(event) => Emit(event, State(rest, None)) case None => Go(State(rest, None))
  {
    var report := [ESC, 91, 60] + parameters + [if press then 77 else 109];
    var p := report + rest;
    var at := 3 + |parameters|;
    assert p[0] == ESC && p[1] == 91 && p[2] == 60 && p[at] == report[at];
    assert forall i :: 3 <= i < at ==> p[i] == parameters[i - 3];
    assert at + 1 < |p| ==> p[at + 1] == rest[0];
    assert EndsAt(p, at) && forall j :: 2 <= j < at ==> !EndsAt(p, j);
    FoundAt(p, at);
    assert p[..at + 1] == report && p[at + 1..] == rest;
    assert report[2] != PASTE_BEGIN[2];
  }

  lemma FoundAt(p: seq<byte>, at: nat)
    requires 2 <= at < |p| && EndsAt(p, at) && forall j :: 2 <= j < at ==> !EndsAt(p, j)
    ensures FindEnd(p, 2) == Some(at)
  {
    hide FindEnd, EndsAt;
    var end := FindEnd(p, 2);
    if end.None? {
      assert false;
    }
  }

  lemma FramedStep(p: seq<byte>, at: nat)
    requires Framed(p) && FindEnd(p, 2) == Some(at) && p[..at + 1] != PASTE_BEGIN && WellFramed(p[at + 1..], false)
    ensures WellFramed(p, false)
  {
  }

  lemma TypedStep(c: char, rest: seq<byte>, decode: SequenceDecoder)
    requires c as int != ESC
    ensures NextEvent(State(Encode(c) + rest, None), decode) == (Some(KeyOf(c)), State(rest, None))
    ensures forall i :: 0 <= i < |Encode(c)| ==> Encode(c)[i] != ESC
  {
    DecodeEncode(c);
    FirstByte(c);
    hide Decode;
    var p := Encode(c) + rest;
    hide Encode;
    var n := |Encode(c)|;
    assert p[0] == Encode(c)[0];
    assert p[..n] == Encode(c) && p[n..] == rest;
    DecodedHasNoEscape(Encode(c));
    hide ControlKey;
    assert StepOf(State(p, None), decode) == PlainStep(p);
    if ControlKey(p[0]).Some? {
      ControlIsAscii(p[0]);
      assert n == 1;
    } else {
      assert KeyOf(c) == Key(Char(c), PLAIN);
    }
  }

  lemma ControlIsAscii(b: byte)
    requires ControlKey(b).Some?
    ensures b < 128
  {
  }

  /** An ASCII character is its own byte; other characters start above. */
  lemma FirstByte(c: char)
    ensures c as int < 128 ==> Encode(c) == [c as int]
    ensures c as int >= 128 ==> Encode(c)[0] >= 128
  {
  }

  lemma NoMarkerAhead(body: seq<byte>, rest: seq<byte>)
    requires body != [] && NoMarker(body)
    ensures var p := body + PASTE_END + rest; !(PASTE_END <= p) && !(p <= PASTE_END)
    ensures NoMarker(body[1..])
  {
    var p := body + PASTE_END + rest;
    if |body| >= 6 {
      assert body[0..6] == p[..6];
      assert !MarkerAt(body, 0);
    } else {
      assert p[|body|] == ESC && PASTE_END[|body|] != ESC;
      DiffersAt(p, |body|);
    }
    forall i: nat
      ensures !MarkerAt(body[1..], i)
    {
      assert !MarkerAt(body, i + 1);
      assert i + 6 <= |body[1..]| ==> body[1..][i..i + 6] == body[i + 1..i + 7];
    }
  }

  /** Reading a paste to its end keeps the first bytes of the body and nothing else. */
  lemma {:induction false} PasteRun(body: seq<byte>, rest: seq<byte>, kept: seq<byte>, whole: seq<byte>, decode: SequenceDecoder)
    requires NoMarker(body) && |whole| >= |body| && whole[|whole| - |body|..] == body
    requires kept == Capped(whole[..|whole| - |body|])
    ensures NextEvent(State(body + PASTE_END + rest, Some(kept)), decode) == (Some(Paste(Capped(whole))), State(rest, None))
    decreases |body|
  {
    var p := body + PASTE_END + rest;
    if body == [] {
      assert p == PASTE_END + rest;
      assert p[6..] == rest;
      assert whole[..|whole|] == whole;
      assert StepOf(State(p, Some(kept)), decode) == Emit(Paste(kept), State(rest, None));
    } else {
      NoMarkerAhead(body, rest);
      var at := |whole| - |body|;
      assert p[1..] == body[1..] + PASTE_END + rest;
      assert whole[at..][0] == whole[at];
      assert whole[..at + 1] == whole[..at] + [body[0]];
      assert whole[at + 1..] == whole[at..][1..];
      assert Kept(kept, p[0]) == Capped(whole[..at + 1]);
      assert StepOf(State(p, Some(kept)), decode) == Go(State(p[1..], Some(Kept(kept, p[0]))));
      PasteRun(body[1..], rest, Kept(kept, p[0]), whole, decode);
    }
  }

  lemma BeginStep(more: seq<byte>, decode: SequenceDecoder)
    ensures StepOf(State(PASTE_BEGIN + more, None), decode) == Go(State(more, Some([])))
    ensures Framed(PASTE_BEGIN + more) && FindEnd(PASTE_BEGIN + more, 2) == Some(5)
  {
    var p := PASTE_BEGIN + more;
    assert p[0] == 27 && p[1] == 91 && p[2] == 50 && p[3] == 48 && p[4] == 48 && p[5] == 126;
    assert !EndsAt(p, 2) && !EndsAt(p, 3) && !EndsAt(p, 4) && EndsAt(p, 5);
    assert FindEnd(p, 5) == Some(5);
    assert FindEnd(p, 4) == Some(5);
    assert FindEnd(p, 3) == Some(5);
    assert p[..6] == PASTE_BEGIN && p[6..] == more;
  }

  lemma PastedStep(body: seq<byte>, rest: seq<byte>, decode: SequenceDecoder)
    requires NoMarker(body)
    ensures NextEvent(State(PASTE_BEGIN + body + PASTE_END + rest, None), decode) == (Some(Paste(Capped(body))), State(rest, None))
  {
    var more := body + PASTE_END + rest;
    assert PASTE_BEGIN + body + PASTE_END + rest == PASTE_BEGIN + more;
    BeginStep(more, decode);
    hide StepOf;
    assert body[..0] == [] && body[0..] == body;
    PasteRun(body, rest, [], body, decode);
    assert NextEvent(State(PASTE_BEGIN + more, None), decode) == NextEvent(State(more, Some([])), decode);
  }

  lemma {:induction false} OrdinaryFramed(s: seq<byte>, rest: seq<byte>)
    requires WellFramed(rest, false) && forall i :: 0 <= i < |s| ==> s[i] != ESC
    ensures WellFramed(s + rest, false)
  {
    if s == [] {
      assert s + rest == rest;
    } else {
      assert (s + rest)[1..] == s[1..] + rest;
      OrdinaryFramed(s[1..], rest);
    }
  }

  lemma {:induction false} BodyFramed(body: seq<byte>, rest: seq<byte>)
    requires NoMarker(body) && WellFramed(rest, false)
    ensures WellFramed(body + PASTE_END + rest, true)
    decreases |body|
  {
    var p := body + PASTE_END + rest;
    if body == [] {
      assert p == PASTE_END + rest;
      assert p[6..] == rest;
    } else {
      NoMarkerAhead(body, rest);
      assert p[1..] == body[1..] + PASTE_END + rest;
      BodyFramed(body[1..], rest);
    }
  }

  /** What the pieces say, drained at once, and that their bytes are well framed. */
  lemma {:induction false} PiecesDrain(pieces: seq<Piece>, decode: SequenceDecoder)
    requires forall p :: p in pieces ==> Proper(p)
    ensures WellFramed(BytesOf(pieces), false)
    ensures Drain(State(BytesOf(pieces), None), decode) == (EventsOf(pieces, decode), State([], None))
  {
    hide NextEvent, Encode, NoMarker, Capped, KeyOf, WellFramed;
    if pieces == [] {
      EmptyDrains(decode);
    } else {
      var rest := BytesOf(pieces[1..]);
      assert Proper(pieces[0]);
      PiecesDrain(pieces[1..], decode);
      match pieces[0] {
        case Typed(c) =>
          TypedStep(c, rest, decode);
          OrdinaryFramed(Encode(c), rest);
        case Pasted(body) =>
          PastedStep(body, rest, decode);
          PasteFramed(body, rest, decode);
        case Pressed(lead, parameters, final) =>
          PressedDrain(lead, parameters, final, rest, decode);
      }
    }
  }

  lemma PressedDrain(lead: byte, parameters: seq<byte>, final: byte, rest: seq<byte>, decode: SequenceDecoder)
    requires ProperSequence(lead, parameters, final) && WellFramed(rest, false)
    ensures var sequence := SequenceBytes(lead, parameters, final);
      && WellFramed(sequence + rest, false)
      && Drain(State(sequence + rest, None), decode) ==
         (PressedEvents(sequence, decode) + Drain(State(rest, None), decode).0, Drain(State(rest, None), decode).1)
  {
    hide StepOf, WellFramed, SequenceBytes, ProperSequence;
    PressedStep(lead, parameters, final, rest, decode);
    var sequence := SequenceBytes(lead, parameters, final);
    if decode(sequence).None? {
      SameDrain(State(sequence + rest, None), State(rest, None), decode);
      assert [] + Drain(State(rest, None), decode).0 == Drain(State(rest, None), decode).0;
    }
  }

  lemma EmptyDrains(decode: SequenceDecoder)
    ensures Drain(State([], None), decode) == ([], State([], None)) && WellFramed([], false)
  {
  }

  lemma PasteFramed(body: seq<byte>, rest: seq<byte>, decode: SequenceDecoder)
    requires NoMarker(body) && WellFramed(rest, false)
    ensures WellFramed(PASTE_BEGIN + body + PASTE_END + rest, false)
  {
    var more := body + PASTE_END + rest;
    var p := PASTE_BEGIN + more;
    assert PASTE_BEGIN + body + PASTE_END + rest == p;
    BodyFramed(body, rest);
    BeginStep(more, decode);
    assert p[6..] == more && p[..6] == PASTE_BEGIN;
    assert p[0] == ESC;
  }

  /**
   Whatever is typed, pasted and pressed, and however the terminal cuts its bytes
   into chunks: one key per typed character, one event per paste with the first
   65,537 bytes of its body, what the decoder makes of each escape sequence, in
   order, and nothing left over.
   */
  lemma InputComesThrough(pieces: seq<Piece>, chunks: seq<seq<byte>>, decode: SequenceDecoder)
    requires (forall p :: p in pieces ==> Proper(p)) && Concat(chunks) == BytesOf(pieces)
    ensures FeedAll(State([], None), chunks, decode) == (EventsOf(pieces, decode), State([], None))
  {
    hide Drain, WellFramed, FeedAll, BytesOf, EventsOf, Proper;
    PiecesDrain(pieces, decode);
    EmptyDrains(decode);
    assert [] + Concat(chunks) == Concat(chunks);
    ChunksDoNotMatter(State([], None), chunks, decode);
  }
}
