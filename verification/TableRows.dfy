/** Which paragraph tokens the emitter will try as table rows: exactly the single source lines
    that hold an unescaped pipe, never a merged paragraph. */
module TableRows {
  import opened Text
  import opened Tokenizer

  /** A pipe that is not escaped, anywhere in the text. */
  ghost predicate Bare(s: string) {
    exists i: nat :: BareAt(s, i)
  }

  /** Leading white space does not matter to the test. */
  lemma {:induction false} TrimmedPipe(s: string)
    ensures HasTablePipe(s) <==> Bare(s)
  {
    if s != "" && IsSpace(s[0]) {
      TrimmedPipe(s[1..]);
      assert TrimLeft(s) == TrimLeft(s[1..]);
      assert HasTablePipe(s) == HasTablePipe(s[1..]);
      if Bare(s[1..]) {
        var i: nat :| BareAt(s[1..], i);
        assert BareAt(s, i + 1);
      }
      if Bare(s) {
        var i: nat :| BareAt(s, i);
        assert BareAt(s[1..], i - 1);
      }
    } else {
      assert TrimLeft(s) == s;
      if HasTablePipe(s) {
        var i :| 0 <= i < |s| && BareAt(s, i);
        assert BareAt(s, i as nat);
      }
      if Bare(s) {
        var i: nat :| BareAt(s, i);
        assert 0 <= i < |s| && BareAt(s, i);
      }
    }
  }

  /** A line without a bare pipe brings none into a buffer without one. */
  lemma MergedHasNoPipe(buffer: string, line: string)
    requires !HasTablePipe(buffer) && !HasTablePipe(line)
    ensures !HasTablePipe(buffer + line + " ") && !HasTablePipe(buffer + "\n")
  {
    TrimmedPipe(buffer);
    TrimmedPipe(line);
    NoPipeAppend(buffer, line, " ");
    NoPipeAppend(buffer, "", "\n");
    assert buffer + "" + "\n" == buffer + "\n";
    TrimmedPipe(buffer + line + " ");
    TrimmedPipe(buffer + "\n");
  }

  lemma NoPipeAppend(a: string, b: string, end: string)
    requires !Bare(a) && !Bare(b) && |end| == 1 && end[0] != '|'
    ensures !Bare(a + b + end)
  {
    if Bare(a + b + end) {
      var i: nat :| BareAt(a + b + end, i);
      PipeComesFrom(a, b, end, i);
    }
  }

  lemma PipeComesFrom(a: string, b: string, end: string, i: nat)
    requires BareAt(a + b + end, i) && |end| == 1 && end[0] != '|'
    ensures BareAt(a, i) || (|a| <= i && BareAt(b, i - |a|))
  {
  }

  /** The test of the emitter. */
  predicate IsCandidate(t: Token) {
    t.kind == Paragraph && t.content != "" && HasTablePipe(t.content)
  }

  /** The contents of the candidate tokens, in order. */
  function Candidates(tokens: seq<Token>): seq<string> {
    if tokens == [] then []
    else
      var last := tokens[|tokens| - 1];
      Candidates(tokens[..|tokens| - 1]) + (if IsCandidate(last) then [last.content] else [])
  }

  /** The lines of a document that stand outside code blocks and are table rows. */
  function RowLines(lines: seq<string>, inBlock: bool): seq<string> {
    if lines == [] then []
    else if IsFence(lines[0]) then RowLines(lines[1..], !inBlock)
    else (if !inBlock && Classify(lines[0]) == Row then [lines[0]] else []) + RowLines(lines[1..], inBlock)
  }

  /** Outside a block the buffer never holds a bare pipe. */
  predicate Inv(s: State) {
    !s.inBlock ==> !HasTablePipe(s.buffer)
  }

  lemma CandidatesAdd(tokens: seq<Token>, t: Token)
    ensures Candidates(tokens + [t]) == Candidates(tokens) + (if IsCandidate(t) then [t.content] else [])
  {
    assert (tokens + [t])[..|tokens|] == tokens;
  }

  lemma PushCandidates(s: State, kind: TokenType)
    requires kind != Paragraph || !HasTablePipe(s.buffer)
    ensures Candidates(Push(s, kind).tokens) == Candidates(s.tokens)
    ensures Push(s, kind).buffer == "" && Push(s, kind).inBlock == s.inBlock
  {
    CandidatesAdd(s.tokens, Token(kind, s.buffer, s.language));
  }

  lemma EmptyHasNoPipe()
    ensures !HasTablePipe("")
  {
  }

  lemma ElementCandidates(s: State, line: string)
    requires !s.inBlock && Inv(s)
    ensures var t := StepElement(s, line);
            && Inv(t) && !t.inBlock
            && Candidates(t.tokens) == Candidates(s.tokens) + (if Classify(line) == Row then [line] else [])
  {
    EmptyHasNoPipe();
    RowShape(line);
    hide HasTablePipe, Classify, Candidates, Push;
    PushCandidates(s, Paragraph);
    match Classify(line)
    case Block(kind, content) =>
      BlockKind(line);
      PushCandidates(Push(s, Paragraph).(buffer := content), kind);
    case Rule => PushCandidates(Push(s, Paragraph), Divider);
    case Row => CandidatesAdd(Push(s, Paragraph).tokens, Token(Paragraph, line, ""));
    case Blank => MergedHasNoPipe(s.buffer, "");
    case Prose => MergedHasNoPipe(s.buffer, line);
  }

  lemma RowShape(line: string)
    ensures Classify(line) == Row ==> HasTablePipe(line) && line != ""
    ensures Classify(line) == Prose ==> !HasTablePipe(line)
  {
  }

  lemma BlockKind(line: string)
    ensures Classify(line).Block? ==> Classify(line).kind != Paragraph
  {
  }

  lemma LineCandidates(s: State, line: string)
    requires Inv(s)
    ensures var t := StepLine(s, line);
            && Inv(t) && t.inBlock == (if IsFence(line) then !s.inBlock else s.inBlock)
            && Candidates(t.tokens) ==
               Candidates(s.tokens) + (if !IsFence(line) && !s.inBlock && Classify(line) == Row then [line] else [])
  {
    EmptyHasNoPipe();
    hide HasTablePipe, Classify, Candidates, Push, StepElement;
    if IsFence(line) {
      PushCandidates(s, if s.inBlock then CodeBlock else Paragraph);
    } else if !s.inBlock {
      ElementCandidates(s, line);
    }
  }

  lemma {:induction false} FeedCandidates(s: State, lines: seq<string>)
    requires Inv(s)
    ensures Inv(Feed(s, lines))
    ensures Candidates(Feed(s, lines).tokens) == Candidates(s.tokens) + RowLines(lines, s.inBlock)
    decreases |lines|
  {
    hide HasTablePipe, Classify, Candidates, StepLine, Inv;
    if lines != [] {
      LineCandidates(s, lines[0]);
      FeedCandidates(StepLine(s, lines[0]), lines[1..]);
    }
  }

  /** For every document: the candidates are its table rows in order, followed, only if a fence
      is left open, by the unfinished code when that holds a bare pipe. */
  lemma CandidatesAreRows(text: string)
    ensures var end := Feed(START, Lines(text));
            Candidates(Tokenize(text)) ==
            RowLines(Lines(text), false) + (if end.inBlock && HasTablePipe(end.buffer) then [end.buffer] else [])
  {
    EmptyHasNoPipe();
    NoCandidates();
    hide Candidates, HasTablePipe, Lines, RowLines, Feed, Push, Inv;
    assert Inv(START) by {
      InvStart();
    }
    FeedCandidates(START, Lines(text));
    FlushCandidates(Feed(START, Lines(text)));
    assert [] + RowLines(Lines(text), false) == RowLines(Lines(text), false);
  }

  lemma InvStart()
    ensures Inv(START)
  {
  }

  /** The flush at the end of the text. */
  lemma FlushCandidates(end: State)
    requires Inv(end)
    ensures Candidates(Push(end, Paragraph).tokens) ==
            Candidates(end.tokens) + (if end.inBlock && HasTablePipe(end.buffer) then [end.buffer] else [])
  {
    EmptyHasNoPipe();
    hide Candidates, HasTablePipe;
    CandidatesAdd(end.tokens, Token(Paragraph, end.buffer, end.language));
  }

  lemma NoCandidates()
    ensures Candidates([]) == []
  {
  }

  /** With all fences closed, exactly the row lines are candidates. */
  lemma ClosedDocumentCandidates(text: string)
    requires !Feed(START, Lines(text)).inBlock
    ensures Candidates(Tokenize(text)) == RowLines(Lines(text), false)
  {
    CandidatesAreRows(text);
  }
}
