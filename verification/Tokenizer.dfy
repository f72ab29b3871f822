/** The line-driven tokenizer: a state machine that is fed one line at a time. */
module Tokenizer {
  import opened Text

  datatype TokenType =
    | Paragraph | Header1 | Header2 | Header3 | Header4
    | Divider | ListUnordered | ListOrdered | CodeBlock

  datatype Token = Token(kind: TokenType, content: string, language: string)

  // ----- classifying a line -----

  /** What a line outside a code block is, with the text behind its prefix. */
  datatype Element =
    | Block(kind: TokenType, content: string)
    | Rule
    | Row
    | Blank
    | Prose

  predicate IsFence(line: string) {
    "```" <= line
  }

  predicate AllDashes(s: string) {
    forall c :: c in s ==> c == '-'
  }

  function DigitCount(line: string): (n: nat)
    ensures n <= |line|
  {
    if line == "" || !IsDigit(line[0]) then 0 else 1 + DigitCount(line[1..])
  }

  /** Digits, a full stop and a space. */
  predicate IsOrderedItem(line: string) {
    var n := DigitCount(line);
    n > 0 && |line| >= n + 2 && line[n] == '.' && line[n + 1] == ' '
  }

  function TrimLeft(s: string): string {
    if s != "" && IsSpace(s[0]) then TrimLeft(s[1..]) else s
  }

  function TrimRight(s: string): string {
    if s != "" && IsSpace(s[|s| - 1]) then TrimRight(s[..|s| - 1]) else s
  }

  /** A pipe at position `i` that no backslash escapes. */
  predicate BareAt(s: string, i: nat) {
    i < |s| && s[i] == '|' && (i == 0 || s[i - 1] != '\\')
  }

  /** `has_table_pipe`: a bare pipe after leading white space has been removed. */
  predicate HasTablePipe(line: string) {
    exists i :: 0 <= i < |TrimLeft(line)| && BareAt(TrimLeft(line), i)
  }

  /** The branches of `parse_markdown_elements`, in their order. */
  function Classify(line: string): Element {
    if "###### " <= line then Block(Header4, line[7..])
    else if "##### " <= line then Block(Header4, line[6..])
    else if "#### " <= line then Block(Header4, line[5..])
    else if "### " <= line then Block(Header3, line[4..])
    else if "## " <= line then Block(Header2, line[3..])
    else if "# " <= line then Block(Header1, line[2..])
    else if |line| >= 3 && AllDashes(line) then Rule
    else if "* " <= line || "- " <= line then Block(ListUnordered, line[2..])
    else if IsOrderedItem(line) then Block(ListOrdered, line[DigitCount(line) + 2..])
    else if HasTablePipe(line) then Row
    else if line == "" then Blank
    else Prose
  }

  // ----- the state machine on values -----

  datatype State = State(tokens: seq<Token>, buffer: string, language: string, inBlock: bool)

  const START: State := State([], "", "", false)

  /** `push_buffer`: an empty buffer yields no token and keeps the language. */
  function Push(s: State, kind: TokenType): State {
    if s.buffer == "" then s
    else State(s.tokens + [Token(kind, s.buffer, s.language)], "", "", s.inBlock)
  }

  /** `parse_markdown_elements`. */
  function StepElement(s: State, line: string): State {
    match Classify(line)
    case Block(kind, content) => Push(Push(s, Paragraph).(buffer := content), kind)
    case Rule => Push(Push(s, Paragraph), Divider)
    case Row =>
      var p := Push(s, Paragraph);
      p.(tokens := p.tokens + [Token(Paragraph, line, "")])
    case Blank => s.(buffer := s.buffer + "\n")
    case Prose => s.(buffer := s.buffer + line + " ")
  }

  /** `evaluate_line_tokens`. */
  function StepLine(s: State, line: string): State {
    if IsFence(line) then
      if s.inBlock then Push(s, CodeBlock).(inBlock := false)
      else Push(s, Paragraph).(inBlock := true, language := TrimRight(TrimLeft(line[3..])))
    else if s.inBlock then s.(buffer := s.buffer + line + "\n")
    else StepElement(s, line)
  }

  function Feed(s: State, lines: seq<string>): State
    decreases |lines|
  {
    if lines == [] then s else Feed(StepLine(s, lines[0]), lines[1..])
  }

  /** A line less one carriage return at its end. */
  function Chomp(line: string): string {
    if line != "" && line[|line| - 1] == '\r' then line[..|line| - 1] else line
  }

  /** The lines of a text; a final line break starts no further line. */
  function Lines(text: string): seq<string>
    decreases |text|
  {
    if text == "" then []
    else
      match Cut(text, "\n")
      case Absent => [Chomp(text)]
      case Around(line, rest) => [Chomp(line)] + Lines(rest)
  }

  function Tokenize(text: string): seq<Token> {
    Push(Feed(START, Lines(text)), Paragraph).tokens
  }

  // ----- the state machine as it runs -----

  class TokenizerState {
    var tokens: seq<Token>
    var buffer: string
    var language: string
    var inBlock: bool

    function View(): State
      reads this
    {
      State(tokens, buffer, language, inBlock)
    }

    constructor ()
      ensures View() == START
    {
      tokens, buffer, language, inBlock := [], "", "", false;
    }

    method PushBuffer(kind: TokenType)
      modifies this
      ensures View() == Push(old(View()), kind)
    {
      if buffer != "" {
        tokens := tokens + [Token(kind, buffer, language)];
        buffer := "";
        language := "";
      }
    }

    method PushBlock(content: string, kind: TokenType)
      modifies this
      ensures View() == Push(Push(old(View()), Paragraph).(buffer := content), kind)
    {
      PushBuffer(Paragraph);
      buffer := content;
      PushBuffer(kind);
    }

    method ParseElements(line: string)
      modifies this
      ensures View() == StepElement(old(View()), line)
    {
      match Classify(line)
      case Block(kind, content) => PushBlock(content, kind);
      case Rule =>
        PushBuffer(Paragraph);
        PushBuffer(Divider);
      case Row =>
        PushBuffer(Paragraph);
        tokens := tokens + [Token(Paragraph, line, "")];
      case Blank => buffer := buffer + "\n";
      case Prose =>
        buffer := buffer + line;
        buffer := buffer + " ";
    }

    method EvaluateLine(line: string)
      modifies this
      ensures View() == StepLine(old(View()), line)
    {
      if IsFence(line) {
        if inBlock {
          PushBuffer(CodeBlock);
          inBlock := false;
        } else {
          PushBuffer(Paragraph);
          inBlock := true;
          language := TrimRight(TrimLeft(line[3..]));
        }
      } else if inBlock {
        buffer := buffer + line;
        buffer := buffer + "\n";
      } else {
        ParseElements(line);
      }
    }
  }

  /** The state that the rest of the text from `pos` on leads to. */
  function Remaining(s: State, text: string, pos: nat): State
    requires pos <= |text|
  {
    Feed(s, Lines(text[pos..]))
  }

  /** One turn of the tokenizing loop; after a last line without a break the text is used up. */
  method ReadLine(state: TokenizerState, text: string, pos: nat) returns (next: nat)
    requires pos < |text|
    modifies state
    ensures pos < next <= |text|
    ensures Remaining(state.View(), text, next) == Remaining(old(state.View()), text, pos)
  {
    hide Remaining, StepLine, Cut, Chomp, Lines, Feed;
    var newline := Cut(text[pos..], "\n");
    if newline.Absent? {
      FinalLine(state.View(), text, pos);
      state.EvaluateLine(Chomp(text[pos..]));
      next := |text|;
      NoLines(state.View(), text);
    } else {
      NextLine(state.View(), text, pos, newline.before, newline.after);
      state.EvaluateLine(Chomp(newline.before));
      next := pos + |newline.before| + 1;
    }
  }

  method TokenizeText(text: string) returns (tokens: seq<Token>)
    ensures tokens == Tokenize(text)
  {
    var state := new TokenizerState();
    var pos := 0;
    assert text[0..] == text;
    assert Tokenize(text) == Push(Remaining(START, text, 0), Paragraph).tokens;
    hide Tokenize, Remaining, Push;
    while pos < |text|
      invariant pos <= |text| && fresh(state)
      invariant Remaining(state.View(), text, pos) == Remaining(START, text, 0)
    {
      pos := ReadLine(state, text, pos);
    }
    NoLines(state.View(), text);
    state.PushBuffer(Paragraph);
    tokens := state.tokens;
  }

  lemma NoLines(s: State, text: string)
    ensures Remaining(s, text, |text|) == s
  {
    assert text[|text|..] == "";
  }

  lemma LinesCut(text: string)
    requires text != ""
    ensures Lines(text) ==
            var cut := Cut(text, "\n");
            if cut.Absent? then [Chomp(text)] else [Chomp(cut.before)] + Lines(cut.after)
  {
  }

  lemma FeedOne(s: State, line: string, rest: seq<string>)
    ensures Feed(s, [line] + rest) == Feed(StepLine(s, line), rest)
    ensures Feed(s, [line]) == StepLine(s, line)
  {
    hide StepLine;
    assert ([line] + rest)[1..] == rest && [line][1..] == [];
  }

  lemma CutTail(text: string, pos: nat, line: string, rest: string)
    requires pos <= |text| && Cut(text[pos..], "\n") == Around(line, rest)
    ensures pos + |line| + 1 <= |text| && text[pos + |line| + 1..] == rest
  {
    var t := text[pos..];
    CutIsLeftmost(t, "\n");
    hide Cut;
    assert t == line + "\n" + rest;
    assert t[|line| + 1..] == rest;
    assert text[pos + |line| + 1..] == t[|line| + 1..];
  }

  /** The loop's last turn, on a line without a break. */
  lemma FinalLine(s: State, text: string, pos: nat)
    requires pos < |text| && Cut(text[pos..], "\n") == Absent
    ensures Remaining(s, text, pos) == StepLine(s, Chomp(text[pos..]))
  {
    FeedLines(s, text[pos..]);
  }

  /** Any other turn of the loop. */
  lemma NextLine(s: State, text: string, pos: nat, line: string, rest: string)
    requires pos < |text| && Cut(text[pos..], "\n") == Around(line, rest)
    ensures pos + |line| + 1 <= |text|
    ensures Remaining(s, text, pos) == Remaining(StepLine(s, Chomp(line)), text, pos + |line| + 1)
  {
    FeedLines(s, text[pos..]);
    CutTail(text, pos, line, rest);
    hide Lines, Cut, Feed, StepLine, Chomp;
  }

  lemma FeedLines(s: State, t: string)
    requires t != ""
    ensures var cut := Cut(t, "\n");
            Feed(s, Lines(t)) ==
            if cut.Absent? then StepLine(s, Chomp(t)) else Feed(StepLine(s, Chomp(cut.before)), Lines(cut.after))
  {
    LinesCut(t);
    hide Lines, Cut, Feed, StepLine, Chomp;
    var cut := Cut(t, "\n");
    if cut.Around? {
      FeedOne(s, Chomp(cut.before), Lines(cut.after));
    } else {
      FeedOne(s, Chomp(t), []);
    }
  }

  // ----- stability under appending -----

  /** A text that ends between lines. */
  predicate Complete(text: string) {
    text == "" || text[|text| - 1] == '\n'
  }

  lemma {:induction false} CompleteCuts(a: string)
    requires a != "" && Complete(a)
    ensures Cut(a, "\n").Around? && Complete(Cut(a, "\n").after)
  {
    CutIsLeftmost(a, "\n");
    assert At(a, |a| - 1, "\n");
    var cut := Cut(a, "\n");
    if cut.after != "" {
      assert cut.after[|cut.after| - 1] == a[|a| - 1];
    }
  }

  lemma {:induction false} LinesAppend(a: string, b: string)
    requires Complete(a)
    ensures Lines(a + b) == Lines(a) + Lines(b)
    decreases |a|
  {
    if a == "" {
      assert a + b == b && Lines(a) == [];
    } else {
      var cut := Cut(a, "\n");
      assert a + b != "";
      assert Lines(a) == [Chomp(cut.before)] + Lines(cut.after) by {
        CompleteCuts(a);
        LinesCut(a);
      }
      assert Lines(a + b) == [Chomp(cut.before)] + Lines(cut.after + b) by {
        CompleteCuts(a);
        CutAppend(a, b, '\n');
        LinesCut(a + b);
      }
      assert Lines(cut.after + b) == Lines(cut.after) + Lines(b) by {
        CompleteCuts(a);
        LinesAppend(cut.after, b);
      }
      hide Lines, Cut, Chomp;
      Regroup([Chomp(cut.before)], Lines(cut.after), Lines(b));
    }
  }

  lemma {:induction false} FeedAppend(s: State, a: seq<string>, b: seq<string>)
    ensures Feed(s, a + b) == Feed(Feed(s, a), b)
    decreases |a|
  {
    if a == [] {
      assert a + b == b;
    } else {
      assert (a + b)[0] == a[0] && (a + b)[1..] == a[1..] + b;
      FeedAppend(StepLine(s, a[0]), a[1..], b);
    }
  }

  /** Tokens are only ever added at the end. */
  lemma PushGrows(s: State, kind: TokenType)
    ensures s.tokens <= Push(s, kind).tokens && |Push(s, kind).tokens| <= |s.tokens| + 1
  {
  }

  lemma StepGrows(s: State, line: string)
    ensures s.tokens <= StepLine(s, line).tokens
  {
    hide Classify;
    PushGrows(s, Paragraph);
    PushGrows(s, CodeBlock);
  }

  lemma {:induction false} FeedGrows(s: State, lines: seq<string>)
    ensures s.tokens <= Feed(s, lines).tokens
    decreases |lines|
  {
    hide StepLine;
    if lines != [] {
      StepGrows(s, lines[0]);
      FeedGrows(StepLine(s, lines[0]), lines[1..]);
    }
  }

  /** The tokens committed after scanning complete lines survive whatever text follows, and
      ending the text there adds at most one token, a flushed paragraph. */
  lemma StableUnderAppend(a: string, b: string)
    requires Complete(a)
    ensures Feed(START, Lines(a)).tokens <= Tokenize(a + b)
    ensures var committed := Feed(START, Lines(a)).tokens;
            Tokenize(a) == committed ||
            (|Tokenize(a)| == |committed| + 1 && committed <= Tokenize(a) && Tokenize(a)[|committed|].kind == Paragraph)
  {
    var s := Feed(START, Lines(a));
    LinesAppend(a, b);
    FeedAppend(START, Lines(a), Lines(b));
    FeedGrows(s, Lines(b));
    PushGrows(Feed(s, Lines(b)), Paragraph);
    PushGrows(s, Paragraph);
  }

  // ----- fenced code -----

  predicate NoFence(lines: seq<string>) {
    forall i :: 0 <= i < |lines| ==> !IsFence(lines[i])
  }

  /** Lines, each ended by a line break. */
  function Joined(lines: seq<string>): string {
    if lines == [] then "" else lines[0] + "\n" + Joined(lines[1..])
  }

  lemma {:induction false} FeedCode(s: State, body: seq<string>)
    requires s.inBlock && NoFence(body)
    ensures Feed(s, body) == s.(buffer := s.buffer + Joined(body))
    decreases |body|
  {
    if body == [] {
      assert s.buffer + "" == s.buffer;
    } else {
      assert !IsFence(body[0]);
      var t := StepLine(s, body[0]);
      assert NoFence(body[1..]);
      FeedCode(t, body[1..]);
      assert t.buffer + Joined(body[1..]) == s.buffer + Joined(body);
    }
  }

  /** The token of a fenced block: its lines verbatim, and the trimmed words behind the fence. */
  function CodeToken(fence: string, body: seq<string>): Token
    requires IsFence(fence)
  {
    Token(CodeBlock, Joined(body), TrimRight(TrimLeft(fence[3..])))
  }

  /** A closed, non-empty fenced block becomes exactly one code token. */
  lemma FencedBlock(s: State, fence: string, body: seq<string>, close: string)
    requires !s.inBlock && IsFence(fence) && IsFence(close) && body != [] && NoFence(body)
    ensures Feed(s, [fence] + body + [close]) ==
            State(Push(s, Paragraph).tokens + [CodeToken(fence, body)], "", "", false)
  {
    var start := StepLine(s, fence);
    var filled := start.(buffer := Joined(body));
    assert Feed(s, [fence]) == start by {
      assert [fence][1..] == [];
    }
    FeedCode(start, body);
    assert start.buffer + Joined(body) == Joined(body);
    FeedAppend(s, [fence], body);
    FeedAppend(s, [fence] + body, [close]);
    assert Feed(filled, [close]) == StepLine(filled, close) by {
      assert [close][1..] == [];
    }
  }

  /** A line with its line break, as it stands in a text. */
  predicate IsLine(line: string) {
    '\n' !in line
  }

  lemma LinesOfLine(line: string, rest: string)
    requires IsLine(line)
    ensures Lines(line + "\n" + rest) == [Chomp(line)] + Lines(rest)
  {
    CutAtFirst(line, rest, '\n');
  }

  function ChompAll(lines: seq<string>): seq<string> {
    if lines == [] then [] else [Chomp(lines[0])] + ChompAll(lines[1..])
  }

  lemma {:induction false} LinesOfJoined(lines: seq<string>, rest: string)
    requires forall l :: l in lines ==> IsLine(l)
    ensures Lines(Joined(lines) + rest) == ChompAll(lines) + Lines(rest)
  {
    if lines == [] {
      assert Joined(lines) + rest == rest;
    } else {
      var more := Joined(lines[1..]) + rest;
      LinesOfJoined(lines[1..], rest);
      assert Joined(lines) == lines[0] + "\n" + Joined(lines[1..]);
      assert ChompAll(lines) == [Chomp(lines[0])] + ChompAll(lines[1..]);
      hide Joined, ChompAll, Lines, Chomp;
      Regroup(lines[0] + "\n", Joined(lines[1..]), rest);
      LinesOfLine(lines[0], more);
      Regroup([Chomp(lines[0])], ChompAll(lines[1..]), Lines(rest));
    }
  }

  lemma {:induction false} ChompNoFence(lines: seq<string>)
    requires NoFence(lines)
    ensures NoFence(ChompAll(lines)) && |ChompAll(lines)| == |lines|
  {
    if lines != [] {
      ChompNoFence(lines[1..]);
      ChompIsPrefix(lines[0], "```");
    }
  }

  lemma ChompIsPrefix(line: string, p: string)
    ensures p <= Chomp(line) ==> p <= line
  {
  }

  lemma ChompFence(fence: string)
    requires IsFence(fence)
    ensures IsFence(Chomp(fence))
  {
    assert fence[2] == '`';
  }

  /** A fenced block as it stands in a text, with what follows. */
  function BlockText(fence: string, body: seq<string>, close: string, after: string): string {
    fence + "\n" + (Joined(body) + (close + "\n" + after))
  }

  /** The lines of such a text. */
  lemma BlockLines(fence: string, body: seq<string>, close: string, after: string)
    requires IsLine(fence) && IsLine(close) && forall l :: l in body ==> IsLine(l)
    ensures Lines(BlockText(fence, body, close, after)) ==
            [Chomp(fence)] + ChompAll(body) + [Chomp(close)] + Lines(after)
  {
    hide Lines, Chomp, ChompAll, Joined;
    var tail := close + "\n" + after;
    LinesOfLine(fence, Joined(body) + tail);
    LinesOfJoined(body, tail);
    LinesOfLine(close, after);
    Regroup(ChompAll(body), [Chomp(close)], Lines(after));
    Regroup([Chomp(fence)], ChompAll(body) + [Chomp(close)], Lines(after));
    Regroup([Chomp(fence)], ChompAll(body), [Chomp(close)]);
  }

  /** What was fed after complete lines stays in front of what follows. */
  lemma FedStays(before: string, lines: seq<string>, rest: seq<string>, text: string)
    requires Complete(before) && Lines(text) == lines + rest
    ensures Feed(Feed(START, Lines(before)), lines).tokens <= Tokenize(before + text)
  {
    hide Lines, Feed, Push, Complete;
    var s := Feed(START, Lines(before));
    LinesAppend(before, text);
    FeedAppend(START, Lines(before), Lines(text));
    FeedAppend(s, lines, rest);
    FeedGrows(Feed(s, lines), rest);
    PushGrows(Feed(Feed(s, lines), rest), Paragraph);
  }

  /** In a whole document: a fenced block that opens outside a block and is closed shows up as
      one token that holds its lines, each less a carriage return at its end and with a line
      break, whatever stands before and after. */
  lemma FencedBlockInText(before: string, fence: string, body: seq<string>, close: string, after: string)
    requires Complete(before) && !Feed(START, Lines(before)).inBlock
    requires IsFence(fence) && IsLine(fence) && IsFence(close) && IsLine(close)
    requires body != [] && NoFence(body) && forall l :: l in body ==> IsLine(l)
    ensures var at := |Push(Feed(START, Lines(before)), Paragraph).tokens|;
            var tokens := Tokenize(before + BlockText(fence, body, close, after));
            at < |tokens| && IsFence(Chomp(fence)) && tokens[at] == CodeToken(Chomp(fence), ChompAll(body))
  {
    hide Lines, Feed, Push, Chomp, ChompAll, BlockText, CodeToken, Tokenize, Complete, IsFence, NoFence;
    ChompFence(fence);
    ChompFence(close);
    ChompNoFence(body);
    BlockLines(fence, body, close, after);
    var lines := [Chomp(fence)] + ChompAll(body) + [Chomp(close)];
    FencedBlock(Feed(START, Lines(before)), Chomp(fence), ChompAll(body), Chomp(close));
    FedStays(before, lines, Lines(after), BlockText(fence, body, close, after));
    var done := Push(Feed(START, Lines(before)), Paragraph).tokens;
    assert (done + [CodeToken(Chomp(fence), ChompAll(body))])[|done|] == CodeToken(Chomp(fence), ChompAll(body));
  }

  lemma {:induction false} CutHasBreak(s: string, c: char)
    requires Cut(s, [c]).Around?
    ensures c in s
  {
    if s[0] != c {
      CutHasBreak(s[1..], c);
    }
  }

  /** A line without a break is the whole of its text's lines. */
  lemma LastLineOnly(line: string)
    requires IsLine(line) && line != ""
    ensures Lines(line) == [Chomp(line)]
  {
    if Cut(line, "\n").Around? {
      CutHasBreak(line, '\n');
    }
  }

  /** The same block at the end of a text that stops right behind its closing fence: nothing but
      the block's token follows what stands before. */
  lemma FencedBlockAtEnd(before: string, fence: string, body: seq<string>, close: string)
    requires Complete(before) && !Feed(START, Lines(before)).inBlock
    requires IsFence(fence) && IsLine(fence) && IsFence(close) && IsLine(close)
    requires body != [] && NoFence(body) && forall l :: l in body ==> IsLine(l)
    ensures IsFence(Chomp(fence))
    ensures Tokenize(before + (fence + "\n" + (Joined(body) + close))) ==
            Push(Feed(START, Lines(before)), Paragraph).tokens + [CodeToken(Chomp(fence), ChompAll(body))]
  {
    assert close != "";
    hide Lines, Feed, Push, Chomp, ChompAll, Joined, CodeToken, Complete, IsFence, NoFence, IsLine;
    var s := Feed(START, Lines(before));
    var text := fence + "\n" + (Joined(body) + close);
    ChompFence(fence);
    ChompFence(close);
    ChompNoFence(body);
    LinesOfLine(fence, Joined(body) + close);
    LinesOfJoined(body, close);
    LastLineOnly(close);
    Regroup([Chomp(fence)], ChompAll(body), [Chomp(close)]);
    LinesAppend(before, text);
    FeedAppend(START, Lines(before), Lines(text));
    FencedBlock(s, Chomp(fence), ChompAll(body), Chomp(close));
    NothingToPush(Feed(s, Lines(text)));
  }

  lemma NothingToPush(s: State)
    ensures s.buffer == "" ==> Push(s, Paragraph) == s
  {
  }

  // ----- what every token is like -----

  /** No token is a divider, none is empty, its language is part of one line, and code ends in a
      line break. */
  predicate TokenFacts(t: Token) {
    && t.kind != Divider && t.content != "" && '\n' !in t.language
    && (t.kind == CodeBlock ==> t.content[|t.content| - 1] == '\n')
  }

  predicate StateFacts(s: State) {
    && (forall t :: t in s.tokens ==> TokenFacts(t)) && '\n' !in s.language
    && (s.inBlock ==> s.buffer == "" || s.buffer[|s.buffer| - 1] == '\n')
  }

  lemma PushFacts(s: State, kind: TokenType)
    requires (forall t :: t in s.tokens ==> TokenFacts(t)) && '\n' !in s.language
    requires kind != Divider || s.buffer == ""
    requires kind == CodeBlock ==> s.buffer == "" || s.buffer[|s.buffer| - 1] == '\n'
    ensures StateFacts(Push(s, kind)) && Push(s, kind).buffer == "" && Push(s, kind).inBlock == s.inBlock
  {
  }

  lemma {:induction false} TrimLeftKeeps(s: string, c: char)
    requires c !in s
    ensures c !in TrimLeft(s)
  {
    if s != "" && IsSpace(s[0]) {
      TrimLeftKeeps(s[1..], c);
    }
  }

  lemma {:induction false} TrimRightKeeps(s: string, c: char)
    requires c !in s
    ensures c !in TrimRight(s)
  {
    if s != "" && IsSpace(s[|s| - 1]) {
      TrimRightKeeps(s[..|s| - 1], c);
    }
  }

  lemma ClassifiedKind(line: string)
    ensures Classify(line).Block? ==> Classify(line).kind != Divider && Classify(line).kind != CodeBlock
    ensures Classify(line) == Row ==> line != ""
  {
  }

  lemma StepFacts(s: State, line: string)
    requires StateFacts(s) && IsLine(line)
    ensures StateFacts(StepLine(s, line))
  {
    ClassifiedKind(line);
    hide Classify, Push;
    PushFacts(s, Paragraph);
    if IsFence(line) {
      if s.inBlock {
        PushFacts(s, CodeBlock);
      } else {
        TrimLeftKeeps(line[3..], '\n');
        TrimRightKeeps(TrimLeft(line[3..]), '\n');
      }
    } else if !s.inBlock {
      var p := Push(s, Paragraph);
      match Classify(line)
      case Block(kind, content) => PushFacts(p.(buffer := content), kind);
      case Rule => PushFacts(p, Divider);
      case _ =>
    }
  }

  lemma {:induction false} FeedFacts(s: State, lines: seq<string>)
    requires StateFacts(s) && forall l :: l in lines ==> IsLine(l)
    ensures StateFacts(Feed(s, lines))
    decreases |lines|
  {
    hide StateFacts, StepLine;
    if lines != [] {
      assert lines[0] in lines;
      StepFacts(s, lines[0]);
      FeedFacts(StepLine(s, lines[0]), lines[1..]);
    }
  }

  lemma {:induction false} BeforeCut(s: string, c: char)
    requires Cut(s, [c]).Around?
    ensures c !in Cut(s, [c]).before
  {
    if s[0] != c {
      BeforeCut(s[1..], c);
    }
  }

  lemma {:induction false} LinesAreLines(text: string)
    ensures forall l :: l in Lines(text) ==> IsLine(l)
    decreases |text|
  {
    if text != "" {
      LinesCut(text);
      hide Lines;
      var cut := Cut(text, "\n");
      if cut.Around? {
        BeforeCut(text, '\n');
        ChompIsLine(cut.before);
        LinesAreLines(cut.after);
      } else {
        CutAbsent(text, '\n');
        ChompIsLine(text);
      }
    }
  }

  lemma ChompIsLine(line: string)
    requires IsLine(line)
    ensures IsLine(Chomp(line))
  {
  }

  /** Of every token of every text. In particular a line of dashes yields none. */
  lemma EveryToken(text: string)
    ensures forall t :: t in Tokenize(text) ==> TokenFacts(t)
  {
    LinesAreLines(text);
    hide Lines, Feed, TokenFacts;
    FeedFacts(START, Lines(text));
    PushFacts(Feed(START, Lines(text)), Paragraph);
  }
}
