/** The tokens of a document read off its lines in one go, without a state machine: runs of prose,
    prefixed lines, table rows and fenced blocks. */
module Reading {
  import opened Text
  import opened Tokenizer

  /** A line that goes into the paragraph around it. */
  predicate InParagraph(line: string) {
    !IsFence(line) && (Classify(line) == Prose || Classify(line) == Blank)
  }

  /** How many lines at the front belong to one paragraph. */
  function ParagraphRun(lines: seq<string>): (n: nat)
    ensures n <= |lines|
  {
    if lines == [] || !InParagraph(lines[0]) then 0 else 1 + ParagraphRun(lines[1..])
  }

  /** How many lines at the front stand before the next fence. */
  function CodeRun(lines: seq<string>): (n: nat)
    ensures n <= |lines|
  {
    if lines == [] || IsFence(lines[0]) then 0 else 1 + CodeRun(lines[1..])
  }

  /** The text of a paragraph: a space ends each of its lines, and an empty line is a line break. */
  function Merged(lines: seq<string>): string {
    if lines == [] then ""
    else (if lines[0] == "" then "\n" else lines[0] + " ") + Merged(lines[1..])
  }

  /** What stands behind the marks of a fence. */
  function LanguageOf(fence: string): string
    requires IsFence(fence)
  {
    TrimRight(TrimLeft(fence[3..]))
  }

  /** A prefixed line with something behind its prefix. */
  predicate HasText(line: string) {
    Classify(line).Block? && Classify(line).content != ""
  }

  /** The tokens of some lines outside a block. `pending` is the language of an empty block in front of
      them, which goes to the next token that is not a table row. */
  function Read(lines: seq<string>, pending: string): seq<Token>
    decreases |lines|
  {
    if lines == [] then []
    else if IsFence(lines[0]) then ReadFence(lines, CodeRun(lines[1..]))
    else if InParagraph(lines[0]) then
      var n := ParagraphRun(lines[1..]) + 1;
      [Token(Paragraph, Merged(lines[..n]), pending)] + Read(lines[n..], "")
    else if Classify(lines[0]) == Row then [Token(Paragraph, lines[0], "")] + Read(lines[1..], pending)
    else if HasText(lines[0]) then
      var element := Classify(lines[0]);
      [Token(element.kind, element.content, pending)] + Read(lines[1..], "")
    else Read(lines[1..], pending)
  }

  /** A block whose code is the next `n` lines: closed by a fence, or left open and then a paragraph. */
  function ReadFence(lines: seq<string>, n: nat): seq<Token>
    requires lines != [] && IsFence(lines[0]) && n < |lines|
    decreases |lines|, 0
  {
    var code, language := lines[1..n + 1], LanguageOf(lines[0]);
    if n + 1 == |lines| then if code == [] then [] else [Token(Paragraph, Joined(code), language)]
    else if code == [] then Read(lines[2..], language)
    else [Token(CodeBlock, Joined(code), language)] + Read(lines[n + 2..], "")
  }

  // ----- the state machine reads the same -----

  /** Text is conserved: from any state outside a block, the lines of a paragraph are appended to the
      buffer, and nothing else changes. */
  lemma {:induction false} FeedParagraph(s: State, lines: seq<string>)
    requires !s.inBlock && forall i :: 0 <= i < |lines| ==> InParagraph(lines[i])
    ensures Feed(s, lines) == s.(buffer := s.buffer + Merged(lines))
    decreases |lines|
  {
    if lines == [] {
      assert s.buffer + "" == s.buffer;
    } else {
      var piece := if lines[0] == "" then "\n" else lines[0] + " ";
      var t := s.(buffer := s.buffer + piece);
      assert StepLine(s, lines[0]) == t by {
        ParagraphStep(s, lines[0]);
      }
      FeedParagraph(t, lines[1..]);
      Regroup(s.buffer, piece, Merged(lines[1..]));
    }
  }

  lemma ParagraphStep(s: State, line: string)
    requires !s.inBlock && InParagraph(line)
    ensures StepLine(s, line) == s.(buffer := s.buffer + if line == "" then "\n" else line + " ")
  {
    assert Classify(line) == Blank <==> line == "" by {
      OnlyEmptyIsBlank(line);
    }
    hide Classify;
    Regroup(s.buffer, line, " ");
  }

  lemma OnlyEmptyIsBlank(line: string)
    ensures Classify(line) == Blank <==> line == ""
  {
  }

  lemma {:induction false} ParagraphRunIs(lines: seq<string>)
    ensures var n := ParagraphRun(lines);
            && (forall i :: 0 <= i < n ==> InParagraph(lines[i]))
            && (n < |lines| ==> !InParagraph(lines[n]))
  {
    if lines != [] && InParagraph(lines[0]) {
      ParagraphRunIs(lines[1..]);
    }
  }

  lemma {:induction false} CodeRunIs(lines: seq<string>)
    ensures var n := CodeRun(lines);
            NoFence(lines[..n]) && (n < |lines| ==> IsFence(lines[n]))
  {
    if lines != [] && !IsFence(lines[0]) {
      CodeRunIs(lines[1..]);
      var n := CodeRun(lines[1..]);
      assert lines[..n + 1] == [lines[0]] + lines[1..][..n];
    }
  }

  /** Whatever ends a paragraph flushes it first. */
  lemma FlushFirst(s: State, line: string)
    requires !s.inBlock && !InParagraph(line)
    ensures StepLine(s, line) == StepLine(Push(s, Paragraph), line)
  {
    hide Classify;
  }

  /** The tokens of the rest, once the text is flushed at its end. */
  function Rest(s: State, lines: seq<string>): seq<Token> {
    Push(Feed(s, lines), Paragraph).tokens
  }

  lemma RestFlushed(s: State, lines: seq<string>)
    requires !s.inBlock && (lines != [] ==> !InParagraph(lines[0]))
    ensures Rest(s, lines) == Rest(Push(s, Paragraph), lines)
  {
    if lines != [] {
      FlushFirst(s, lines[0]);
      hide StepLine;
    }
  }

  lemma RestSplit(s: State, lines: seq<string>, n: nat)
    requires n <= |lines|
    ensures Rest(s, lines) == Rest(Feed(s, lines[..n]), lines[n..])
  {
    hide Feed, Push;
    TakeDrop(lines, n);
    FeedAppend(s, lines[..n], lines[n..]);
  }

  lemma RestOne(s: State, lines: seq<string>)
    requires lines != []
    ensures Rest(s, lines) == Rest(StepLine(s, lines[0]), lines[1..])
  {
    hide StepLine, Push;
  }

  lemma MergedIsText(lines: seq<string>)
    requires lines != []
    ensures Merged(lines) != ""
  {
  }

  lemma RestParagraph(s: State, lines: seq<string>)
    requires s.buffer == "" && !s.inBlock && lines != [] && InParagraph(lines[0])
    ensures var n := ParagraphRun(lines[1..]) + 1;
            Rest(s, lines) ==
            Rest(State(s.tokens + [Token(Paragraph, Merged(lines[..n]), s.language)], "", "", false), lines[n..])
  {
    var n := ParagraphRun(lines[1..]) + 1;
    ParagraphRunIs(lines[1..]);
    assert forall i :: 0 < i < n ==> lines[i] == lines[1..][i - 1];
    assert n < |lines| ==> lines[n] == lines[1..][n - 1];
    MergedIsText(lines[..n]);
    hide InParagraph, Feed, Rest, Merged, ParagraphRun;
    RestSplit(s, lines, n);
    FeedParagraph(s, lines[..n]);
    assert "" + Merged(lines[..n]) == Merged(lines[..n]);
    RestFlushed(s.(buffer := Merged(lines[..n])), lines[n..]);
  }

  /** The state behind a fence and the lines of its block. */
  lemma FeedOpened(s: State, lines: seq<string>, n: nat)
    requires s.buffer == "" && !s.inBlock && n < |lines| && IsFence(lines[0]) && NoFence(lines[1..n + 1])
    ensures Feed(s, lines[..n + 1]) == State(s.tokens, Joined(lines[1..n + 1]), LanguageOf(lines[0]), true)
  {
    var fence, code := lines[0], lines[1..n + 1];
    var start := State(s.tokens, "", LanguageOf(fence), true);
    assert StepLine(s, fence) == start;
    assert lines[..n + 1] == [fence] + code;
    hide StepLine, Feed, LanguageOf;
    FeedOne(s, fence, code);
    FeedCode(start, code);
    assert "" + Joined(code) == Joined(code);
  }

  lemma RestFence(s: State, lines: seq<string>)
    requires s.buffer == "" && !s.inBlock && lines != [] && IsFence(lines[0])
    ensures var n := CodeRun(lines[1..]);
            var code, language := lines[1..n + 1], LanguageOf(lines[0]);
            Rest(s, lines) ==
            if n + 1 == |lines| then s.tokens + (if code == [] then [] else [Token(Paragraph, Joined(code), language)])
            else if code == [] then Rest(s.(language := language), lines[2..])
            else Rest(State(s.tokens + [Token(CodeBlock, Joined(code), language)], "", "", false), lines[n + 2..])
  {
    var n := CodeRun(lines[1..]);
    var code, language := lines[1..n + 1], LanguageOf(lines[0]);
    CodeRunIs(lines[1..]);
    assert lines[1..][..n] == code;
    assert Joined(code) == "" <==> code == [];
    var open := State(s.tokens, Joined(code), language, true);
    FeedOpened(s, lines, n);
    hide NoFence, LanguageOf, Joined, CodeRun;
    RestSplit(s, lines, n + 1);
    if n + 1 == |lines| {
      assert Feed(open, lines[n + 1..]) == open by {
        assert lines[n + 1..] == [];
      }
      hide Feed;
    } else {
      assert lines[n + 1] == lines[1..][n];
      hide Feed;
      RestOne(open, lines[n + 1..]);
      assert lines[n + 1..][1..] == lines[n + 2..];
    }
  }

  lemma RestElement(s: State, lines: seq<string>)
    requires s.buffer == "" && !s.inBlock && lines != [] && !IsFence(lines[0]) && !InParagraph(lines[0])
    ensures Rest(s, lines) ==
            if Classify(lines[0]) == Row then
              Rest(s.(tokens := s.tokens + [Token(Paragraph, lines[0], "")]), lines[1..])
            else if HasText(lines[0]) then
              var element := Classify(lines[0]);
              Rest(State(s.tokens + [Token(element.kind, element.content, s.language)], "", "", false), lines[1..])
            else Rest(s, lines[1..])
  {
    hide Classify, Rest;
    RestOne(s, lines);
    assert s.(buffer := "") == s;
  }

  /** From any state outside a block and between paragraphs, the rest of the text yields what is read
      off its lines. */
  lemma {:induction false} RestIsRead(s: State, lines: seq<string>)
    requires s.buffer == "" && !s.inBlock
    ensures Rest(s, lines) == s.tokens + Read(lines, s.language)
    decreases |lines|
  {
    if lines == [] {
    } else if IsFence(lines[0]) {
      RestIsFence(s, lines);
    } else if InParagraph(lines[0]) {
      var n := ParagraphRun(lines[1..]) + 1;
      var token := Token(Paragraph, Merged(lines[..n]), s.language);
      RestParagraph(s, lines);
      RestIsRead(State(s.tokens + [token], "", "", false), lines[n..]);
      hide InParagraph, Rest, Merged;
      Regroup(s.tokens, [token], Read(lines[n..], ""));
    } else {
      RestElement(s, lines);
      hide Classify, InParagraph, Rest;
      if Classify(lines[0]) == Row {
        var token := Token(Paragraph, lines[0], "");
        RestIsRead(s.(tokens := s.tokens + [token]), lines[1..]);
        Regroup(s.tokens, [token], Read(lines[1..], s.language));
      } else if HasText(lines[0]) {
        var token := Token(Classify(lines[0]).kind, Classify(lines[0]).content, s.language);
        RestIsRead(State(s.tokens + [token], "", "", false), lines[1..]);
        Regroup(s.tokens, [token], Read(lines[1..], ""));
      } else {
        RestIsRead(s, lines[1..]);
      }
    }
  }

  lemma ReadAtFence(lines: seq<string>, pending: string)
    requires lines != [] && IsFence(lines[0])
    ensures var n := CodeRun(lines[1..]);
            var code, language := lines[1..n + 1], LanguageOf(lines[0]);
            Read(lines, pending) ==
            if n + 1 == |lines| then if code == [] then [] else [Token(Paragraph, Joined(code), language)]
            else if code == [] then Read(lines[2..], language)
            else [Token(CodeBlock, Joined(code), language)] + Read(lines[n + 2..], "")
  {
    hide CodeRun, LanguageOf, Joined, IsFence;
  }

  lemma {:induction false} RestIsFence(s: State, lines: seq<string>)
    requires s.buffer == "" && !s.inBlock && lines != [] && IsFence(lines[0])
    ensures Rest(s, lines) == s.tokens + Read(lines, s.language)
    decreases |lines|, 0
  {
    var n := CodeRun(lines[1..]);
    var code, language := lines[1..n + 1], LanguageOf(lines[0]);
    RestFence(s, lines);
    ReadAtFence(lines, s.language);
    hide Rest, CodeRun, LanguageOf, Joined, Read, ReadFence, IsFence;
    if n + 1 < |lines| {
      if code == [] {
        RestIsRead(s.(language := language), lines[2..]);
      } else {
        var token := Token(CodeBlock, Joined(code), language);
        RestIsRead(State(s.tokens + [token], "", "", false), lines[n + 2..]);
        Regroup(s.tokens, [token], Read(lines[n + 2..], ""));
      }
    }
  }

  /** The tokens of every document are what is read off its lines: each paragraph holds all its lines,
      each prefixed line its text, each row its line, each block its code, in order and nothing else. */
  lemma TokensAreRead(text: string)
    ensures Tokenize(text) == Read(Lines(text), "")
  {
    hide Lines, Read;
    RestIsRead(START, Lines(text));
    assert [] + Read(Lines(text), "") == Read(Lines(text), "");
  }
}
