/** The HTML of a token list, read as blocks: maximal lists, whole tables and single tokens. */
module Blocks {
  import opened Text
  import opened Theme
  import opened Tokenizer
  import opened TableRows
  import opened Cells

  // ----- output pieces -----

  /** A piece of output: an opening tag, a closing tag, or text that the block level treats as
      opaque (decorated text, the text of a code block, a void tag). */
  datatype Piece =
    | Open(tag: string, html: string)
    | Close(tag: string, html: string)
    | Leaf(html: string)

  function Flat(ps: seq<Piece>): string {
    if ps == [] then "" else ps[0].html + Flat(ps[1..])
  }

  lemma {:induction false} FlatConcat(a: seq<Piece>, b: seq<Piece>)
    ensures Flat(a + b) == Flat(a) + Flat(b)
  {
    if a == [] {
      assert a + b == b;
    } else {
      calc {
        Flat(a + b);
        { assert (a + b)[1..] == a[1..] + b; }
        a[0].html + Flat(a[1..] + b);
        { FlatConcat(a[1..], b); }
        a[0].html + (Flat(a[1..]) + Flat(b));
        Flat(a) + Flat(b);
      }
    }
  }

  lemma FlatOne(p: Piece)
    ensures Flat([p]) == p.html
  {
    assert [p][1..] == [];
  }

  lemma FlatPair(p: Piece, q: Piece)
    ensures Flat([p, q]) == p.html + q.html
  {
    assert [p, q][1..] == [q] && [q][1..] == [];
    assert Flat([q]) == q.html + "";
  }

  /** A theme with its two decorators: any text for running text, and any pieces for code. */
  datatype Style = Style(theme: Theme, inline: string -> string, code: (string, string) -> seq<Piece>)

  function Tag(tag: string, attributes: string): Piece {
    Open(tag, OpenTag(tag, attributes))
  }

  function End(tag: string): Piece {
    Close(tag, CloseTag(tag))
  }

  // The markup around decorated text.

  function HeaderMarkup(theme: Theme, size: string, text: string): seq<Piece> {
    [Leaf("<br>"), Tag("b", ""),
     Tag("font", " size=\"" + size + "\" color=\"" + theme.textAccent + "\""),
     Leaf(text), End("font"), End("b"), Leaf("<br><br>")]
  }

  function ParagraphMarkup(text: string): seq<Piece> {
    [Tag("p", ""), Leaf(text), End("p")]
  }

  function ItemMarkup(text: string): seq<Piece> {
    [Tag("li", ""), Leaf(text), End("li")]
  }

  function ItemPieces(st: Style, content: string): seq<Piece> {
    ItemMarkup(st.inline(content))
  }

  function ListTag(ordered: bool): string {
    if ordered then "ol" else "ul"
  }

  function ListOpen(ordered: bool): seq<Piece> {
    [Tag(ListTag(ordered), "")]
  }

  function ListClose(ordered: bool): seq<Piece> {
    [End(ListTag(ordered))] + (if ordered then [Leaf("<br>")] else [])
  }

  predicate IsHeader(kind: TokenType) {
    kind == Header1 || kind == Header2 || kind == Header3 || kind == Header4
  }

  function HeaderSize(kind: TokenType): string {
    match kind
    case Header1 => "+2"
    case Header2 => "+1"
    case Header3 => "+0"
    case _ => "-1"
  }

  /** A token that is neither a list item nor part of a table. */
  function SinglePieces(st: Style, t: Token): seq<Piece> {
    if IsHeader(t.kind) then HeaderMarkup(st.theme, HeaderSize(t.kind), st.inline(t.content))
    else if t.kind == Divider then [Leaf("<hr>")]
    else if t.kind == CodeBlock then st.code(t.content, t.language)
    else if t.content == "" then []
    else ParagraphMarkup(st.inline(t.content))
  }

  function CellMarkup(theme: Theme, head: bool, text: string): seq<Piece> {
    if head then
      [Tag("th", " bgcolor=\"" + theme.surfaceColor + "\""), Tag("b", ""),
       Tag("font", " color=\"" + theme.textAccent + "\""), Leaf(text), End("font"), End("b"), End("th")]
    else
      [Tag("td", " bgcolor=\"" + theme.codeBg + "\""), Leaf(" "),
       Tag("font", " color=\"" + theme.textPrimary + "\""), Leaf(text), End("font"), End("td")]
  }

  function CellPieces(st: Style, head: bool, cell: string): seq<Piece> {
    CellMarkup(st.theme, head, st.inline(Trim(cell)))
  }

  function CellsPieces(st: Style, head: bool, cells: seq<string>): seq<Piece> {
    if cells == [] then [] else CellPieces(st, head, cells[0]) + CellsPieces(st, head, cells[1..])
  }

  function RowPieces(st: Style, head: bool, cells: seq<string>): seq<Piece> {
    [Tag("tr", "")] + CellsPieces(st, head, cells) + [End("tr")]
  }

  function RowsPieces(st: Style, rows: seq<seq<string>>): seq<Piece> {
    if rows == [] then [] else RowPieces(st, false, rows[0]) + RowsPieces(st, rows[1..])
  }

  function TableTag(theme: Theme): Piece {
    Tag("table",
        " width=\"100%\"" + " border=\"1\"" + " cellspacing=\"0\"" + " cellpadding=\"6\""
        + " bgcolor=\"" + theme.codeBg + "\"")
  }

  function TablePieces(st: Style, header: seq<string>, rows: seq<seq<string>>): seq<Piece> {
    [Leaf("<br>"), TableTag(st.theme)] + RowPieces(st, true, header) + RowsPieces(st, rows)
    + [End("table"), Leaf("<br>")]
  }

  // ----- blocks -----

  /** How many tokens at the front are table candidates. */
  function CandidateRun(tokens: seq<Token>): (n: nat)
    ensures n <= |tokens|
  {
    if tokens == [] || !IsCandidate(tokens[0]) then 0 else 1 + CandidateRun(tokens[1..])
  }

  predicate Delimiters(cells: seq<string>) {
    forall i :: 0 <= i < |cells| ==> IsDelimiterCell(cells[i])
  }

  /** A table starts at the front: at least two candidate rows, a header with cells, and a
      delimiter row with as many. */
  predicate TableAhead(tokens: seq<Token>) {
    CandidateRun(tokens) >= 2 &&
    var header := ParseRow(tokens[0].content);
    var delimiters := ParseRow(tokens[1].content);
    header != [] && |delimiters| == |header| && Delimiters(delimiters)
  }

  /** A row cut or padded with empty cells to `n` cells. */
  function Fit(cells: seq<string>, n: nat): (r: seq<string>)
    ensures |r| == n
    ensures forall i :: 0 <= i < n ==> r[i] == if i < |cells| then cells[i] else ""
  {
    if |cells| < n then cells + seq(n - |cells|, _ => "") else cells[..n]
  }

  function DataRows(tokens: seq<Token>, n: nat): seq<seq<string>> {
    if tokens == [] then [] else [Fit(ParseRow(tokens[0].content), n)] + DataRows(tokens[1..], n)
  }

  /** The token type of a list's items. */
  function Kind(ordered: bool): TokenType {
    if ordered then ListOrdered else ListUnordered
  }

  predicate IsListItem(t: Token) {
    t.kind == ListUnordered || t.kind == ListOrdered
  }

  function ItemRun(tokens: seq<Token>, kind: TokenType): (n: nat)
    ensures n <= |tokens|
  {
    if tokens == [] || tokens[0].kind != kind then 0 else 1 + ItemRun(tokens[1..], kind)
  }

  /** A block with the tokens it is made of. */
  datatype Block =
    | Table(source: seq<Token>, header: seq<string>, rows: seq<seq<string>>)
    | List(source: seq<Token>, ordered: bool)
    | Single(source: seq<Token>)

  /** The first block of a token list. */
  function FirstBlock(tokens: seq<Token>): (b: Block)
    requires tokens != []
  {
    if TableAhead(tokens) then
      var header := ParseRow(tokens[0].content);
      var n := CandidateRun(tokens);
      Table(tokens[..n], header, DataRows(tokens[2..n], |header|))
    else if IsListItem(tokens[0]) then List(tokens[..ItemRun(tokens, tokens[0].kind)], tokens[0].kind == ListOrdered)
    else Single(tokens[..1])
  }

  lemma FirstBlockSize(tokens: seq<Token>)
    requires tokens != []
    ensures var n := |FirstBlock(tokens).source|;
            0 < n <= |tokens| && FirstBlock(tokens).source == tokens[..n]
  {
  }

  function Blocks(tokens: seq<Token>): seq<Block>
    decreases |tokens|
  {
    if tokens == [] then []
    else
      FirstBlockSize(tokens);
      [FirstBlock(tokens)] + Blocks(tokens[|FirstBlock(tokens).source|..])
  }

  function ItemsPieces(st: Style, items: seq<Token>): seq<Piece> {
    if items == [] then [] else ItemPieces(st, items[0].content) + ItemsPieces(st, items[1..])
  }

  function BlockPieces(st: Style, b: Block): seq<Piece> {
    match b
    case Table(_, header, rows) => TablePieces(st, header, rows)
    case List(source, ordered) => ListOpen(ordered) + ItemsPieces(st, source) + ListClose(ordered)
    case Single(source) => if source == [] then [] else SinglePieces(st, source[0])
  }

  function AllPieces(st: Style, bs: seq<Block>): seq<Piece> {
    if bs == [] then [] else BlockPieces(st, bs[0]) + AllPieces(st, bs[1..])
  }

  /** The grouped reading of a token list. */
  function Html(st: Style, tokens: seq<Token>): string {
    Flat(AllPieces(st, Blocks(tokens)))
  }

  // ----- the blocks partition the tokens -----

  function Sources(bs: seq<Block>): seq<Token> {
    if bs == [] then [] else bs[0].source + Sources(bs[1..])
  }

  /** Every token belongs to exactly one block, in order. */
  lemma {:induction false} BlocksPartition(tokens: seq<Token>)
    ensures Sources(Blocks(tokens)) == tokens
    decreases |tokens|
  {
    if tokens != [] {
      hide FirstBlock;
      FirstBlockSize(tokens);
      var b := FirstBlock(tokens);
      var rest := tokens[|b.source|..];
      BlocksPartition(rest);
      TakeDrop(tokens, |b.source|);
      FirstRest(b, Blocks(rest));
    }
  }

  /** What one block is made of. */
  ghost predicate Formed(b: Block) {
    b.source != [] &&
    match b
    case Table(source, header, rows) =>
      && |source| >= 2 && (forall t :: t in source ==> IsCandidate(t))
      && header != [] && header == ParseRow(source[0].content)
      && |ParseRow(source[1].content)| == |header| && Delimiters(ParseRow(source[1].content))
      && |rows| == |source| - 2
      && (forall i :: 0 <= i < |rows| ==> rows[i] == Fit(ParseRow(source[i + 2].content), |header|))
    case List(source, ordered) =>
      forall t :: t in source ==> t.kind == Kind(ordered)
    case Single(source) => |source| == 1 && !IsListItem(source[0])
  }

  /** A list or a table takes all it can: what follows it would not fit. */
  ghost predicate Maximal(b: Block, rest: seq<Token>) {
    rest != [] ==>
      match b
      case Table(_, _, _) => !IsCandidate(rest[0])
      case List(_, ordered) => rest[0].kind != Kind(ordered)
      case Single(_) => true
  }

  /** Blocks that are formed and maximal throughout. */
  ghost predicate Grouped(bs: seq<Block>) {
    bs == [] || (Formed(bs[0]) && Maximal(bs[0], Sources(bs[1..])) && Grouped(bs[1..]))
  }

  lemma {:induction false} CandidateRunIs(tokens: seq<Token>)
    ensures var n := CandidateRun(tokens);
            && (forall t :: t in tokens[..n] ==> IsCandidate(t))
            && (n < |tokens| ==> !IsCandidate(tokens[n]))
  {
    if tokens != [] && IsCandidate(tokens[0]) {
      CandidateRunIs(tokens[1..]);
      var n := CandidateRun(tokens[1..]);
      assert tokens[..n + 1] == [tokens[0]] + tokens[1..][..n];
    }
  }

  lemma {:induction false} ItemRunIs(tokens: seq<Token>, kind: TokenType)
    ensures var n := ItemRun(tokens, kind);
            && (forall t :: t in tokens[..n] ==> t.kind == kind)
            && (n < |tokens| ==> tokens[n].kind != kind)
  {
    if tokens != [] && tokens[0].kind == kind {
      ItemRunIs(tokens[1..], kind);
      var n := ItemRun(tokens[1..], kind);
      assert tokens[..n + 1] == [tokens[0]] + tokens[1..][..n];
    }
  }

  lemma {:induction false} DataRowsFit(tokens: seq<Token>, n: nat)
    ensures |DataRows(tokens, n)| == |tokens|
    ensures forall i :: 0 <= i < |tokens| ==> DataRows(tokens, n)[i] == Fit(ParseRow(tokens[i].content), n)
  {
    if tokens != [] {
      DataRowsFit(tokens[1..], n);
    }
  }

  lemma FirstBlockFormed(tokens: seq<Token>)
    requires tokens != []
    ensures var b := FirstBlock(tokens); Formed(b) && Maximal(b, tokens[|b.source|..])
  {
    CandidateRunIs(tokens);
    ItemRunIs(tokens, tokens[0].kind);
    if TableAhead(tokens) {
      DataRowsFit(tokens[2..CandidateRun(tokens)], |ParseRow(tokens[0].content)|);
    }
  }

  /** Tables are whole and rectangular, and lists are never split in two. */
  lemma {:induction false} BlocksGrouped(tokens: seq<Token>)
    ensures Grouped(Blocks(tokens))
    decreases |tokens|
  {
    if tokens != [] {
      FirstBlockSize(tokens);
      FirstBlockFormed(tokens);
      var b := FirstBlock(tokens);
      var rest := tokens[|b.source|..];
      BlocksPartition(rest);
      BlocksGrouped(rest);
      hide FirstBlock, Formed, Maximal;
      assert ([b] + Blocks(rest))[1..] == Blocks(rest);
    }
  }

  // ----- block tags balance -----

  /** Runs a stack of open tags over the pieces; `None` on a closing tag that does not match. */
  function Stack(ps: seq<Piece>, open: seq<string>): Option<seq<string>> {
    if ps == [] then Some(open)
    else match ps[0]
      case Leaf(_) => Stack(ps[1..], open)
      case Open(tag, _) => Stack(ps[1..], [tag] + open)
      case Close(tag, _) => if open != [] && open[0] == tag then Stack(ps[1..], open[1..]) else None
  }

  lemma {:induction false} StackConcat(a: seq<Piece>, b: seq<Piece>, open: seq<string>)
    ensures Stack(a + b, open) == match Stack(a, open) case None => None case Some(o) => Stack(b, o)
    decreases |a|
  {
    if a == [] {
      assert a + b == b;
    } else {
      assert (a + b)[0] == a[0] && (a + b)[1..] == a[1..] + b;
      match a[0]
      case Leaf(_) => StackConcat(a[1..], b, open);
      case Open(tag, _) => StackConcat(a[1..], b, [tag] + open);
      case Close(tag, _) =>
        if open != [] && open[0] == tag {
          StackConcat(a[1..], b, open[1..]);
        }
    }
  }

  /** The pieces close exactly what they open, on any stack. */
  predicate Neutral(ps: seq<Piece>, open: seq<string>) {
    Stack(ps, open) == Some(open)
  }

  lemma NeutralConcat(a: seq<Piece>, b: seq<Piece>, open: seq<string>)
    requires Neutral(a, open) && Neutral(b, open)
    ensures Neutral(a + b, open)
  {
    StackConcat(a, b, open);
  }

  lemma NeutralWrap(p: Piece, inner: seq<Piece>, q: Piece, open: seq<string>)
    requires p.Open? && q.Close? && p.tag == q.tag && Neutral(inner, [p.tag] + open)
    ensures Neutral([p] + inner + [q], open)
  {
    StackConcat([p] + inner, [q], open);
    StackConcat([p], inner, open);
    assert [p][1..] == [] && [q][1..] == [] && ([p.tag] + open)[1..] == open;
  }

  lemma NeutralLeaf(html: string, open: seq<string>)
    ensures Neutral([Leaf(html)], open) && Neutral([], open)
  {
    assert [Leaf(html)][1..] == [];
  }

  /** Decorated text in one tag. */
  lemma WrappedText(p: Piece, html: string, open: seq<string>)
    requires p.Open?
    ensures Neutral([p] + [Leaf(html)] + [End(p.tag)], open)
  {
    NeutralLeaf(html, [p.tag] + open);
    NeutralWrap(p, [Leaf(html)], End(p.tag), open);
  }

  lemma BoldFont(p: Piece, font: Piece, html: string, open: seq<string>)
    requires p.Open? && font.Open?
    ensures Neutral([p] + ([font] + [Leaf(html)] + [End(font.tag)]) + [End(p.tag)], open)
  {
    WrappedText(font, html, [p.tag] + open);
    NeutralWrap(p, [font] + [Leaf(html)] + [End(font.tag)], End(p.tag), open);
  }

  /** Rendered code closes what it opens. */
  ghost predicate Framed(st: Style) {
    forall code, lang, open :: Neutral(st.code(code, lang), open)
  }

  lemma SingleNeutral(st: Style, t: Token, open: seq<string>)
    requires Framed(st)
    ensures Neutral(SinglePieces(st, t), open)
  {
    if IsHeader(t.kind) {
      HeaderNeutral(st.theme, HeaderSize(t.kind), st.inline(t.content), open);
    } else if t.kind == Divider {
      NeutralLeaf("<hr>", open);
    } else if t.kind == CodeBlock {
      assert Neutral(st.code(t.content, t.language), open);
    } else {
      NeutralLeaf("", open);
      var p := Tag("p", "");
      WrappedText(p, st.inline(t.content), open);
      assert [p] + [Leaf(st.inline(t.content))] + [End("p")] == ParagraphMarkup(st.inline(t.content));
    }
  }

  lemma HeaderNeutral(theme: Theme, size: string, text: string, open: seq<string>)
    ensures Neutral(HeaderMarkup(theme, size, text), open)
  {
    var b := Tag("b", "");
    var font := Tag("font", " size=\"" + size + "\" color=\"" + theme.textAccent + "\"");
    var inner := [b] + ([font] + [Leaf(text)] + [End("font")]) + [End("b")];
    BoldFont(b, font, text, open);
    NeutralLeaf("<br>", open);
    NeutralLeaf("<br><br>", open);
    NeutralConcat([Leaf("<br>")], inner, open);
    NeutralConcat([Leaf("<br>")] + inner, [Leaf("<br><br>")], open);
    assert HeaderMarkup(theme, size, text) == [Leaf("<br>")] + inner + [Leaf("<br><br>")];
  }

  lemma CellNeutral(st: Style, head: bool, cell: string, open: seq<string>)
    ensures Neutral(CellPieces(st, head, cell), open)
  {
    var text := Leaf(st.inline(Trim(cell)));
    if head {
      var th, b := Tag("th", " bgcolor=\"" + st.theme.surfaceColor + "\""), Tag("b", "");
      var font := Tag("font", " color=\"" + st.theme.textAccent + "\"");
      var inner := [b] + ([font] + [text] + [End("font")]) + [End("b")];
      BoldFont(b, font, text.html, ["th"] + open);
      NeutralWrap(th, inner, End("th"), open);
      assert CellPieces(st, head, cell) == [th] + inner + [End("th")];
    } else {
      var td := Tag("td", " bgcolor=\"" + st.theme.codeBg + "\"");
      var font := Tag("font", " color=\"" + st.theme.textPrimary + "\"");
      var inner := [font] + [text] + [End("font")];
      WrappedText(font, text.html, ["td"] + open);
      NeutralLeaf(" ", ["td"] + open);
      NeutralConcat([Leaf(" ")], inner, ["td"] + open);
      NeutralWrap(td, [Leaf(" ")] + inner, End("td"), open);
      assert CellPieces(st, head, cell) == [td] + ([Leaf(" ")] + inner) + [End("td")];
    }
  }

  lemma {:induction false} CellsNeutral(st: Style, head: bool, cells: seq<string>, open: seq<string>)
    ensures Neutral(CellsPieces(st, head, cells), open)
  {
    hide CellPieces;
    if cells != [] {
      CellNeutral(st, head, cells[0], open);
      CellsNeutral(st, head, cells[1..], open);
      NeutralConcat(CellPieces(st, head, cells[0]), CellsPieces(st, head, cells[1..]), open);
    }
  }

  lemma RowNeutral(st: Style, head: bool, cells: seq<string>, open: seq<string>)
    ensures Neutral(RowPieces(st, head, cells), open)
  {
    CellsNeutral(st, head, cells, ["tr"] + open);
    NeutralWrap(Tag("tr", ""), CellsPieces(st, head, cells), End("tr"), open);
  }

  lemma {:induction false} RowsNeutral(st: Style, rows: seq<seq<string>>, open: seq<string>)
    ensures Neutral(RowsPieces(st, rows), open)
  {
    hide RowPieces;
    if rows != [] {
      RowNeutral(st, false, rows[0], open);
      RowsNeutral(st, rows[1..], open);
      NeutralConcat(RowPieces(st, false, rows[0]), RowsPieces(st, rows[1..]), open);
    }
  }

  lemma TableNeutral(st: Style, header: seq<string>, rows: seq<seq<string>>, open: seq<string>)
    ensures Neutral(TablePieces(st, header, rows), open)
  {
    var br, tag := [Leaf("<br>")], TableTag(st.theme);
    var head, body := RowPieces(st, true, header), RowsPieces(st, rows);
    hide RowPieces, RowsPieces;
    RowNeutral(st, true, header, ["table"] + open);
    RowsNeutral(st, rows, ["table"] + open);
    NeutralConcat(head, body, ["table"] + open);
    NeutralWrap(tag, head + body, End("table"), open);
    NeutralLeaf("<br>", open);
    var inner := [tag] + (head + body) + [End("table")];
    NeutralConcat(br, inner, open);
    NeutralConcat(br + inner, br, open);
    assert TablePieces(st, header, rows) == br + inner + br;
  }

  lemma {:induction false} ItemsNeutral(st: Style, items: seq<Token>, open: seq<string>)
    ensures Neutral(ItemsPieces(st, items), open)
  {
    if items != [] {
      var li, text := Tag("li", ""), st.inline(items[0].content);
      WrappedText(li, text, open);
      assert ItemPieces(st, items[0].content) == [li] + [Leaf(text)] + [End("li")];
      ItemsNeutral(st, items[1..], open);
      NeutralConcat(ItemPieces(st, items[0].content), ItemsPieces(st, items[1..]), open);
    }
  }

  lemma ListNeutral(st: Style, items: seq<Token>, ordered: bool, open: seq<string>)
    ensures Neutral(ListOpen(ordered) + ItemsPieces(st, items) + ListClose(ordered), open)
  {
    var inner := ItemsPieces(st, items);
    var tag := Tag(ListTag(ordered), "");
    ItemsNeutral(st, items, [tag.tag] + open);
    hide ItemsPieces;
    NeutralWrap(tag, inner, End(tag.tag), open);
    NeutralLeaf("<br>", open);
    var wrapped := [tag] + inner + [End(tag.tag)];
    var br := if ordered then [Leaf("<br>")] else [];
    NeutralConcat(wrapped, br, open);
    assert ListOpen(ordered) + inner + ListClose(ordered) == wrapped + br;
  }

  lemma BlockNeutral(st: Style, b: Block, open: seq<string>)
    requires Framed(st)
    ensures Neutral(BlockPieces(st, b), open)
  {
    hide TablePieces, ItemsPieces, SinglePieces, ListOpen, ListClose;
    match b
    case Table(_, header, rows) => TableNeutral(st, header, rows, open);
    case List(source, ordered) => ListNeutral(st, source, ordered, open);
    case Single(source) =>
      NeutralLeaf("", open);
      if source != [] {
        SingleNeutral(st, source[0], open);
      }
  }

  /** The block tags of every rendered document balance on a stack. */
  lemma {:induction false} AllNeutral(st: Style, bs: seq<Block>)
    requires Framed(st)
    ensures Neutral(AllPieces(st, bs), [])
  {
    hide BlockPieces;
    if bs != [] {
      BlockNeutral(st, bs[0], []);
      AllNeutral(st, bs[1..]);
      NeutralConcat(BlockPieces(st, bs[0]), AllPieces(st, bs[1..]), []);
    }
  }
}
