/** What an inventory shows of an elided element. */
module Previews {
  import opened Text
  import opened Projection

  /*
   The preview of a text is one line, never empty and never long, and shows the
   words of the first line that has any.
   */

  // ----- Words ---------------------------------------------------------------

  /** Something to read, with no white space in it. */
  predicate IsWord(w: string) {
    w != [] && forall i :: 0 <= i < |w| ==> !IsWhitespace(w[i])
  }

  lemma {:induction false} WordIsWord(s: string)
    ensures forall i :: 0 <= i < |Word(s)| ==> !IsWhitespace(Word(s)[i])
    ensures |Word(s)| < |s| ==> IsWhitespace(s[|Word(s)|])
  {
    if s != [] && !IsWhitespace(s[0]) {
      WordIsWord(s[1..]);
    }
  }

  lemma {:induction false} WordsAreWords(s: string)
    ensures forall w :: w in Words(s) ==> IsWord(w)
    ensures Words(s) == [] <==> IsBlank(s)
    decreases |s|
  {
    if s != [] {
      if IsWhitespace(s[0]) {
        WordsAreWords(s[1..]);
        assert s == [s[0]] + s[1..];
      } else {
        WordIsWord(s);
        WordsAreWords(s[|Word(s)|..]);
      }
    }
  }

  lemma {:induction false} WordOf(w: string, rest: string)
    requires (forall i :: 0 <= i < |w| ==> !IsWhitespace(w[i])) && (rest == [] || IsWhitespace(rest[0]))
    ensures Word(w + rest) == w
  {
    if w == [] {
      assert w + rest == rest;
    } else {
      assert (w + rest)[1..] == w[1..] + rest;
      WordOf(w[1..], rest);
    }
  }

  /** Words joined by blanks are those words. */
  lemma {:induction false} WordsOfJoin(ws: seq<string>)
    requires forall w :: w in ws ==> IsWord(w)
    ensures Words(Join(ws, " ")) == ws
  {
    hide IsWhitespace;
    if ws != [] {
      var w := ws[0];
      assert IsWord(w);
      if |ws| == 1 {
        assert w + [] == w;
        OneWord(w, []);
        assert ws == [w];
      } else {
        var more := Join(ws[1..], " ");
        var rest := " " + more;
        assert Join(ws, " ") == w + rest;
        BlankIsWhite();
        OneWord(w, rest);
        assert rest[1..] == more;
        WordsOfJoin(ws[1..]);
      }
    }
  }

  lemma BlankIsWhite()
    ensures IsWhitespace(' ')
  {
  }

  lemma OneWord(w: string, rest: string)
    requires IsWord(w) && (rest == [] || IsWhitespace(rest[0]))
    ensures Words(w + rest) == [w] + Words(rest)
  {
    hide IsWhitespace;
    WordOf(w, rest);
    var s := w + rest;
    assert s[0] == w[0] && s[|w|..] == rest;
  }

  // ----- The first line with words -------------------------------------------

  lemma {:induction false} LineHasNoBreak(text: string)
    ensures '\n' !in Line(text)
    ensures |Line(text)| < |text| ==> text[|Line(text)|] == '\n'
  {
    if text != [] && text[0] != '\n' {
      LineHasNoBreak(text[1..]);
    }
  }

  /** Where the first line with something to read is: behind blank lines only, and up to its line feed. */
  lemma {:induction false} InkedLineIsFirst(text: string) returns (before: string, after: string)
    ensures var line := FirstInkedLine(text);
      && IsBlank(before)
      && '\n' !in line
      && (if line == [] then before == text && after == [] else
            && text == before + line + after && !IsBlank(line)
            && (before == [] || before[|before| - 1] == '\n')
            && (after == [] || after[0] == '\n'))
    decreases |text|
  {
    hide IsWhitespace, Line, IsBlank;
    var line := Line(text);
    LineHasNoBreak(text);
    NothingIsBlank();
    if !IsBlank(line) {
      before, after := [], text[|line|..];
      assert text == before + line + after;
    } else if |line| == |text| {
      assert line == text;
      before, after := text, [];
    } else {
      var skipped, rest := text[..|line| + 1], text[|line| + 1..];
      var b, a := InkedLineIsFirst(rest);
      before, after := skipped + b, a;
      assert text == skipped + rest && skipped == line + "\n";
      BlankLineBefore(line, b);
      SkippedBefore(skipped, b, FirstInkedLine(rest), a);
    }
  }

  lemma NothingIsBlank()
    ensures IsBlank([])
  {
  }

  lemma BlankLineBefore(line: string, b: string)
    requires IsBlank(line) && IsBlank(b)
    ensures IsBlank(line + "\n" + b)
  {
    hide IsWhitespace;
    BreakIsWhite();
  }

  lemma SkippedBefore(skipped: string, b: string, line: string, a: string)
    ensures skipped + (b + line + a) == skipped + b + line + a
  {
  }

  lemma BreakIsWhite()
    ensures IsWhitespace('\n')
  {
  }

  // ----- The preview ---------------------------------------------------------

  const ELLIPSIS := "\U{2026}"

  lemma WordHasNoBreak(w: string)
    requires IsWord(w)
    ensures '\n' !in w
  {
    hide IsWhitespace;
    BreakIsWhite();
    forall i | 0 <= i < |w|
      ensures w[i] != '\n'
    {
    }
  }

  lemma {:induction false} JoinIsWordsAndBlanks(ws: seq<string>)
    requires forall w :: w in ws ==> IsWord(w)
    ensures '\n' !in Join(ws, " ")
    ensures ws != [] ==> Join(ws, " ") != []
  {
    hide IsWhitespace;
    BreakIsWhite();
    if ws != [] {
      assert IsWord(ws[0]);
      WordHasNoBreak(ws[0]);
      JoinIsWordsAndBlanks(ws[1..]);
    }
  }

  lemma FirstFits(s: string)
    requires ByteLen(s) > MAX_PREVIEW_CHARS
    ensures PrefixWithin(s, MAX_PREVIEW_CHARS) != []
  {
  }

  /**
   The preview is one line of at most 99 bytes and never empty. A text that is all
   blank is shown as empty; one whose first inked line is short is shown by
   exactly its words; of a longer one the preview is the beginning of those words
   and an ellipsis.
   */
  lemma PreviewShows(text: string)
    ensures var preview, words := PreviewLine(text), Words(FirstInkedLine(text));
      && preview != [] && '\n' !in preview && ByteLen(preview) <= 99
      && (IsBlank(text) ==> preview == "(empty)")
      && (!IsBlank(text) && ByteLen(Join(words, " ")) <= 96 ==> words != [] && Words(preview) == words)
      && (ByteLen(Join(words, " ")) > 96 ==>
            preview[|preview| - 1..] == ELLIPSIS && preview[..|preview| - 1] <= Join(words, " "))
  {
    hide IsWhitespace, Words, FirstInkedLine, Word, PrefixWithin, Join;
    var line := FirstInkedLine(text);
    var words := Words(line);
    WordsAreWords(line);
    WordsOfJoin(words);
    JoinIsWordsAndBlanks(words);
    var before, after := InkedLineIsFirst(text);
    var collapsed := Join(words, " ");
    EmptyWords();
    if ByteLen(collapsed) > 96 {
      FirstFits(collapsed);
      var head := PrefixWithin(collapsed, 96);
      ByteLenConcat(head, ELLIPSIS);
      OneEllipsis();
    } else {
      NoteIsShort();
    }
    BlankHasNoInk(text);
  }

  lemma EmptyWords()
    ensures Join([], " ") == [] && Words([]) == []
  {
  }

  lemma OneEllipsis()
    ensures ByteLen(ELLIPSIS) == 3 && ELLIPSIS[0] != '\n'
  {
  }

  lemma NoteIsShort()
    ensures ByteLen("(empty)") == 7 && '\n' !in "(empty)"
  {
  }

  lemma BlankHasNoInk(text: string)
    ensures IsBlank(text) <==> FirstInkedLine(text) == []
  {
    hide IsWhitespace, FirstInkedLine;
    var before, after := InkedLineIsFirst(text);
    var line := FirstInkedLine(text);
    assert line != [] ==> forall i :: 0 <= i < |line| ==> line[i] == text[|before| + i];
  }
}
