/** From markdown text to HTML, and from a table's cells through text back to the same table. */
module Pipeline {
  import opened Text
  import opened Tokenizer
  import opened TableRows
  import opened Cells
  import opened Blocks
  import opened Emitter
  import opened Theme
  import opened Written
  import CodeBlock
  import Lru
  import R = RenderCache

  /** `process`: tokenize, then emit, with the two caches as earlier documents have left them.
      Whatever they hold, the document looks as without them, unless two of the inputs that were
      ever decorated collide. */
  method Process(theme: Theme, registry: string -> CodeBlock.Grammar, text: string,
                 inlineCache: Lru.Cache, codeCache: Lru.Cache,
                 ghost inlines: iset<R.InlineInput>, ghost codes: iset<R.CodeInput>)
    returns (html: string, inlineAfter: Lru.Cache, codeAfter: Lru.Cache)
    requires R.SoundRegistry(registry) && Apart(registry, inlines, codes)
    requires Warmed(registry, inlines, codes, inlineCache, codeCache)
    requires forall t :: t in Tokenize(text) ==> Covered(theme, inlines, codes, t)
    ensures html == Html(StyleOf(theme, registry), Tokenize(text))
    ensures Warmed(registry, inlines, codes, inlineAfter, codeAfter)
  {
    hide Tokenize, Apart, Warmed, Covered, StyleOf, Html, R.SoundRegistry;
    var tokens := TokenizeText(text);
    var emitter := new HtmlEmitter(theme, registry, inlineCache, codeCache, inlines, codes);
    emitter.Emit(tokens);
    html, inlineAfter, codeAfter := emitter.html, emitter.inlineCache, emitter.codeCache;
  }

  /** A document in the theme it is shown in. */
  datatype Document = Document(theme: Theme, text: string)

  ghost predicate DocumentCovered(d: Document, inlines: iset<R.InlineInput>, codes: iset<R.CodeInput>) {
    forall t :: t in Tokenize(d.text) ==> Covered(d.theme, inlines, codes, t)
  }

  /** The documents as they look without caches. */
  ghost function Uncached(registry: string -> CodeBlock.Grammar, documents: seq<Document>): seq<string>
    requires R.SoundRegistry(registry)
  {
    if documents == [] then []
    else [Html(StyleOf(documents[0].theme, registry), Tokenize(documents[0].text))] + Uncached(registry, documents[1..])
  }

  lemma UncachedTurn(registry: string -> CodeBlock.Grammar, documents: seq<Document>, i: nat)
    requires R.SoundRegistry(registry) && i < |documents|
    ensures Uncached(registry, documents[i..]) ==
            [Html(StyleOf(documents[i].theme, registry), Tokenize(documents[i].text))]
            + Uncached(registry, documents[i + 1..])
  {
    hide Html, StyleOf, Tokenize, R.SoundRegistry;
    assert documents[i..][0] == documents[i] && documents[i..][1..] == documents[i + 1..];
  }

  /** A session from empty caches: documents one after another, in changing themes, through caches
      that all of them share. */
  method Session(registry: string -> CodeBlock.Grammar, documents: seq<Document>,
                 ghost inlines: iset<R.InlineInput>, ghost codes: iset<R.CodeInput>)
    returns (pages: seq<string>)
    requires R.SoundRegistry(registry) && Apart(registry, inlines, codes)
    requires forall d :: d in documents ==> DocumentCovered(d, inlines, codes)
    ensures pages == Uncached(registry, documents)
  {
    hide Tokenize, Apart, Warmed, Covered, StyleOf, Html, R.SoundRegistry;
    EmptyWarmed(registry, inlines, codes);
    var inlineCache, codeCache := R.EMPTY, R.EMPTY;
    pages := [];
    assert documents[0..] == documents;
    for i := 0 to |documents|
      invariant Warmed(registry, inlines, codes, inlineCache, codeCache)
      invariant pages + Uncached(registry, documents[i..]) == Uncached(registry, documents)
    {
      UncachedTurn(registry, documents, i);
      assert DocumentCovered(documents[i], inlines, codes);
      hide Uncached;
      var page;
      page, inlineCache, codeCache :=
        Process(documents[i].theme, registry, documents[i].text, inlineCache, codeCache, inlines, codes);
      Regroup(pages, [page], Uncached(registry, documents[i + 1..]));
      pages := pages + [page];
    }
  }

  lemma EmptyWarmed(registry: string -> CodeBlock.Grammar, inlines: iset<R.InlineInput>, codes: iset<R.CodeInput>)
    requires R.SoundRegistry(registry)
    ensures Warmed(registry, inlines, codes, R.EMPTY, R.EMPTY)
  {
  }

  // ----- which inputs a session decorates -----

  predicate TrimmedCell(cells: seq<string>, text: string) {
    exists k :: 0 <= k < |cells| && text == Trim(cells[k])
  }

  /** The texts that the emitter may decorate for a token: its content, and for a table row its cells
      and the empty cells it is padded with. */
  predicate Decorated(t: Token, text: string) {
    || (t.kind != CodeBlock && text == t.content)
    || (IsCandidate(t) && (text == "" || TrimmedCell(ParseRow(t.content), text)))
  }

  predicate DecoratedIn(d: Document, theme: Theme, text: string) {
    d.theme == theme && exists t :: t in Tokenize(d.text) && Decorated(t, text)
  }

  predicate CodeOf(t: Token, i: R.CodeInput) {
    t.kind == CodeBlock && i.code == t.content && i.lang == t.language
  }

  predicate CodeIn(d: Document, i: R.CodeInput) {
    d.theme == i.theme && exists t :: t in Tokenize(d.text) && CodeOf(t, i)
  }

  ghost function InlineInputs(documents: seq<Document>): iset<R.InlineInput> {
    iset i: R.InlineInput | exists d :: d in documents && DecoratedIn(d, i.0, i.1)
  }

  predicate CodeInAny(documents: seq<Document>, i: R.CodeInput) {
    exists d :: d in documents && CodeIn(d, i)
  }

  ghost function CodeInputs(documents: seq<Document>): iset<R.CodeInput> {
    iset i: R.CodeInput | CodeInAny(documents, i)
  }

  /** A theme whose fields are plain names, with text colours and string colours of given lengths. */
  predicate Usable(theme: Theme, textWidth: nat, stringWidth: nat) {
    && R.Clean(theme) && R.OneLine(theme)
    && |theme.textPrimary| == textWidth && |theme.codeString| == stringWidth
  }

  /** What the code cache's key relies on is so of every code token of every text. */
  lemma CodeTokensTokenized(d: Document, i: R.CodeInput)
    requires R.Clean(d.theme) && R.OneLine(d.theme) && CodeIn(d, i)
    ensures R.Tokenized(i) && i.theme == d.theme
  {
    EveryToken(d.text);
    hide Tokenize;
  }

  lemma DocumentsCovered(documents: seq<Document>, d: Document)
    requires d in documents
    ensures DocumentCovered(d, InlineInputs(documents), CodeInputs(documents))
  {
    hide Tokenize, IsCandidate, ParseRow, Trim;
    var inlines, codes := InlineInputs(documents), CodeInputs(documents);
    forall t | t in Tokenize(d.text)
      ensures Covered(d.theme, inlines, codes, t)
    {
      if t.kind == CodeBlock {
        var i := R.CodeInput(d.theme, t.content, t.language);
        assert CodeOf(t, i) && CodeIn(d, i);
      } else {
        assert Decorated(t, t.content) && DecoratedIn(d, d.theme, t.content);
      }
      if IsCandidate(t) {
        assert Decorated(t, "") && DecoratedIn(d, d.theme, "");
        forall c | c in ParseRow(t.content)
          ensures (d.theme, Trim(c)) in inlines
        {
          assert TrimmedCell(ParseRow(t.content), Trim(c));
          assert Decorated(t, Trim(c)) && DecoratedIn(d, d.theme, Trim(c));
        }
      }
    }
  }

  /** In usable themes no two inputs of a session collide, as far as the hash keeps the hashed
      strings apart. */
  lemma InputsApart(registry: string -> CodeBlock.Grammar, documents: seq<Document>, textWidth: nat, stringWidth: nat)
    requires R.SoundRegistry(registry)
    requires forall d :: d in documents ==> Usable(d.theme, textWidth, stringWidth)
    requires R.KeepsInlineApart(InlineInputs(documents)) && R.KeepsCodeApart(CodeInputs(documents))
    ensures Apart(registry, InlineInputs(documents), CodeInputs(documents))
  {
    var inlines, codes := InlineInputs(documents), CodeInputs(documents);
    assert forall i :: i in inlines ==> R.Clean(i.0) && |i.0.textPrimary| == textWidth;
    forall i | i in codes
      ensures R.Tokenized(i) && |i.theme.codeString| == stringWidth
    {
      var d :| d in documents && CodeIn(d, i);
      CodeTokensTokenized(d, i);
    }
    hide InlineInputs, CodeInputs, R.KeepsInlineApart, R.KeepsCodeApart, R.Tokenized, R.Clean, R.Transparent;
    R.InlineTransparent(inlines, textWidth);
    R.CodeTransparent(registry, codes, stringWidth);
    R.TransparentIff(R.InlineKeyOf, R.InlineRender, inlines);
    R.TransparentIff(R.CodeKeyOf, R.CodeRenderer(registry), codes);
  }

  /** A session in usable themes, with no other demand than that the 64-bit hash keeps apart the
      strings it is given: every page looks as without caches. */
  method Browse(registry: string -> CodeBlock.Grammar, documents: seq<Document>,
                ghost textWidth: nat, ghost stringWidth: nat)
    returns (pages: seq<string>)
    requires R.SoundRegistry(registry)
    requires forall d :: d in documents ==> Usable(d.theme, textWidth, stringWidth)
    requires R.KeepsInlineApart(InlineInputs(documents)) && R.KeepsCodeApart(CodeInputs(documents))
    ensures pages == Uncached(registry, documents)
  {
    hide InlineInputs, CodeInputs, DocumentCovered, Apart, R.SoundRegistry, Uncached, Usable;
    InputsApart(registry, documents, textWidth, stringWidth);
    forall d | d in documents
      ensures DocumentCovered(d, InlineInputs(documents), CodeInputs(documents))
    {
      DocumentsCovered(documents, d);
    }
    pages := Session(registry, documents, InlineInputs(documents), CodeInputs(documents));
  }

  /** The page of every document is made of pieces whose tags close in order, those of its code
      blocks included. */
  lemma PageBalanced(theme: Theme, registry: string -> CodeBlock.Grammar, text: string)
    requires R.SoundRegistry(registry)
    ensures var pieces := AllPieces(StyleOf(theme, registry), Blocks.Blocks(Tokenize(text)));
            Neutral(pieces, []) && Flat(pieces) == Html(StyleOf(theme, registry), Tokenize(text))
  {
    hide Neutral, Flat, AllPieces, StyleOf, Tokenize, Framed, Blocks.Blocks, R.SoundRegistry;
    StyleFramed(theme, registry);
    AllNeutral(StyleOf(theme, registry), Blocks.Blocks(Tokenize(text)));
  }

  // ----- printed tables -----

  function PrintRows(rows: seq<seq<string>>): seq<string> {
    if rows == [] then [] else [PrintRow(rows[0])] + PrintRows(rows[1..])
  }

  /** One line a row. */
  function PrintTable(rows: seq<seq<string>>): string {
    Joined(PrintRows(rows))
  }

  /** Cells that a row of text can hold: no line break, and no backslash at the end. */
  predicate Printable(cells: seq<string>) {
    cells != [] && forall i :: 0 <= i < |cells| ==> '\n' !in cells[i] && !EndsInSlash(cells[i])
  }

  function RowToken(cells: seq<string>): Token {
    Token(Paragraph, PrintRow(cells), "")
  }

  function RowTokens(rows: seq<seq<string>>): seq<Token> {
    if rows == [] then [] else [RowToken(rows[0])] + RowTokens(rows[1..])
  }

  function FitAll(rows: seq<seq<string>>, n: nat): seq<seq<string>> {
    if rows == [] then [] else [Fit(rows[0], n)] + FitAll(rows[1..], n)
  }

  // ----- a printed row is one line, and one token -----

  lemma {:induction false} EscapedHasNoBreak(cell: string)
    requires '\n' !in cell
    ensures '\n' !in EscapePipes(cell)
  {
    if cell != "" {
      EscapedHasNoBreak(cell[1..]);
    }
  }

  lemma {:induction false} ClosedHasNoBreak(cells: seq<string>)
    requires forall i :: 0 <= i < |cells| ==> '\n' !in cells[i]
    ensures '\n' !in Closed(cells)
    ensures cells != [] ==> Closed(cells) != "" && Closed(cells)[|Closed(cells)| - 1] == '|'
  {
    if cells != [] {
      EscapedHasNoBreak(cells[0]);
      ClosedHasNoBreak(cells[1..]);
    }
  }

  lemma PipedLine(line: string)
    requires line != "" && line[0] == '|' && line[|line| - 1] == '|'
    ensures Chomp(line) == line && !IsFence(line) && Classify(line) == Row && HasTablePipe(line)
  {
    assert TrimLeft(line) == line && BareAt(line, 0);
    assert DigitCount(line) == 0;
    assert line[0] in line && !AllDashes(line);
    hide TrimLeft, DigitCount, AllDashes;
    assert HasTablePipe(line);
    hide HasTablePipe;
  }

  lemma PrintedLine(cells: seq<string>)
    requires Printable(cells)
    ensures IsLine(PrintRow(cells)) && Chomp(PrintRow(cells)) == PrintRow(cells)
    ensures !IsFence(PrintRow(cells)) && HasTablePipe(PrintRow(cells)) && Classify(PrintRow(cells)) == Row
  {
    ClosedHasNoBreak(cells);
    hide Closed;
    PipedLine(PrintRow(cells));
  }

  lemma {:induction false} PrintedLines(rows: seq<seq<string>>)
    requires forall r :: r in rows ==> Printable(r)
    ensures forall l :: l in PrintRows(rows) ==> IsLine(l)
    ensures ChompAll(PrintRows(rows)) == PrintRows(rows)
  {
    if rows != [] {
      PrintedLine(rows[0]);
      PrintedLines(rows[1..]);
      assert PrintRows(rows)[1..] == PrintRows(rows[1..]);
    }
  }

  lemma StepRow(s: State, cells: seq<string>)
    requires s.buffer == "" && !s.inBlock && Printable(cells)
    ensures StepLine(s, PrintRow(cells)) == s.(tokens := s.tokens + [RowToken(cells)])
  {
    PrintedLine(cells);
    hide PrintRow, Classify;
  }

  lemma {:induction false} FeedRows(s: State, rows: seq<seq<string>>)
    requires s.buffer == "" && !s.inBlock && forall r :: r in rows ==> Printable(r)
    ensures Feed(s, PrintRows(rows)) == s.(tokens := s.tokens + RowTokens(rows))
    decreases |rows|
  {
    hide StepLine, PrintRow, RowToken, Printable;
    if rows == [] {
      assert s.tokens + [] == s.tokens;
    } else {
      var row, rest := RowToken(rows[0]), rows[1..];
      assert rows[0] in rows;
      StepRow(s, rows[0]);
      FeedRows(s.(tokens := s.tokens + [row]), rest);
      assert PrintRows(rows) == [PrintRow(rows[0])] + PrintRows(rest) && RowTokens(rows) == [row] + RowTokens(rest);
      hide Feed, PrintRows, RowTokens;
      FeedOne(s, PrintRow(rows[0]), PrintRows(rest));
      Regroup(s.tokens, [row], RowTokens(rest));
    }
  }

  lemma PrintedTokens(rows: seq<seq<string>>)
    requires forall r :: r in rows ==> Printable(r)
    ensures Tokenize(PrintTable(rows)) == RowTokens(rows)
  {
    PrintedLines(rows);
    LinesOfJoined(PrintRows(rows), "");
    FeedRows(START, rows);
    assert PrintTable(rows) + "" == PrintTable(rows);
    assert Lines("") == [];
    hide Feed, Joined, PrintRows, RowTokens;
    assert PrintRows(rows) + [] == PrintRows(rows);
  }

  // ----- and the tokens are one table -----

  lemma {:induction false} PrintedCandidates(rows: seq<seq<string>>)
    requires forall r :: r in rows ==> Printable(r)
    ensures CandidateRun(RowTokens(rows)) == |RowTokens(rows)| == |rows|
  {
    if rows != [] {
      PrintedLine(rows[0]);
      PrintedCandidates(rows[1..]);
      assert RowTokens(rows)[1..] == RowTokens(rows[1..]);
    }
  }

  lemma {:induction false} PrintedData(rows: seq<seq<string>>, n: nat)
    requires forall r :: r in rows ==> Printable(r)
    ensures DataRows(RowTokens(rows), n) == FitAll(rows, n)
  {
    if rows != [] {
      assert rows[0] in rows;
      RoundTripIff(rows[0]);
      PrintedData(rows[1..], n);
      hide ParseRow, PrintRow, Fit;
      assert RowTokens(rows)[1..] == RowTokens(rows[1..]);
    }
  }

  /** A table whose second row delimits the first. */
  predicate IsTable(rows: seq<seq<string>>) {
    |rows| >= 2 && |rows[1]| == |rows[0]| && Delimiters(rows[1])
  }

  /** Text and back: a printed table is rendered as that table. Every cell is found again, pipes
      and all, and every data row is cut or padded to the header's width. */
  lemma PrintedTable(st: Style, rows: seq<seq<string>>)
    requires IsTable(rows) && forall r :: r in rows ==> Printable(r)
    ensures Html(st, Tokenize(PrintTable(rows))) == TableText(st, rows[0], FitAll(rows[2..], |rows[0]|))
  {
    PrintedTokens(rows);
    PrintedBlocks(rows);
    hide Html, TableText, TablePieces, Flat, RowTokens, FitAll, Tokenize, PrintTable;
    HtmlOfBlock(st, RowTokens(rows), Table(RowTokens(rows), rows[0], FitAll(rows[2..], |rows[0]|)));
    TablePiecesHtml(st, rows[0], FitAll(rows[2..], |rows[0]|));
  }

  lemma PrintedBlocks(rows: seq<seq<string>>)
    requires IsTable(rows) && forall r :: r in rows ==> Printable(r)
    ensures Blocks.Blocks(RowTokens(rows)) == [Table(RowTokens(rows), rows[0], FitAll(rows[2..], |rows[0]|))]
  {
    var tokens := RowTokens(rows);
    PrintedCandidates(rows);
    assert rows[0] in rows && rows[1] in rows;
    RoundTripIff(rows[0]);
    RoundTripIff(rows[1]);
    PrintedData(rows[2..], |rows[0]|);
    assert tokens[2..] == RowTokens(rows[2..]) && tokens[0] == RowToken(rows[0]) && tokens[1] == RowToken(rows[1]) by {
      assert tokens[1..] == RowTokens(rows[1..]) && rows[1..][1..] == rows[2..];
      assert RowTokens(rows[1..])[1..] == RowTokens(rows[2..]);
    }
    hide RowTokens, Printable;
    WholeTable(tokens, rows[0], FitAll(rows[2..], |rows[0]|));
  }

  /** Tokens that are one table throughout are one block. */
  lemma WholeTable(tokens: seq<Token>, header: seq<string>, rows: seq<seq<string>>)
    requires CandidateRun(tokens) == |tokens| >= 2 && header != []
    requires ParseRow(tokens[0].content) == header
    requires |ParseRow(tokens[1].content)| == |header| && Delimiters(ParseRow(tokens[1].content))
    requires DataRows(tokens[2..], |header|) == rows
    ensures Blocks.Blocks(tokens) == [Table(tokens, header, rows)]
  {
    assert TableAhead(tokens);
    hide ParseRow, DataRows, CandidateRun, Delimiters;
    assert tokens[..|tokens|] == tokens && tokens[2..|tokens|] == tokens[2..] && tokens[|tokens|..] == [];
    assert FirstBlock(tokens) == Table(tokens, header, rows);
    hide FirstBlock;
    assert Blocks.Blocks([]) == [];
  }
}
