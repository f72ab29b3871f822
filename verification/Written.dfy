/** What is written for a token list, letter by letter: list by list, table by table, token by token. */
module Written {
  import opened Text
  import opened Theme
  import opened Tokenizer
  import opened TableRows
  import opened Cells
  import opened Blocks
  import Emitter

  // ----- where token lists can be cut -----

  /** Two tokens that may end up in one block: rows of a table, or items of one kind. */
  predicate Joins(x: Token, y: Token) {
    (IsCandidate(x) && IsCandidate(y)) || (IsListItem(x) && x.kind == y.kind)
  }

  predicate Cuttable(a: seq<Token>, b: seq<Token>) {
    a != [] && b != [] ==> !Joins(a[|a| - 1], b[0])
  }

  lemma CuttableTail(a: seq<Token>, b: seq<Token>, n: nat)
    requires Cuttable(a, b) && n <= |a|
    ensures Cuttable(a[n..], b)
  {
  }

  lemma {:induction false} CandidateRunStops(a: seq<Token>, b: seq<Token>)
    requires a != [] && Cuttable(a, b)
    ensures CandidateRun(a + b) == CandidateRun(a)
  {
    assert (a + b)[0] == a[0] && (a + b)[1..] == a[1..] + b;
    hide IsCandidate;
    if |a| > 1 {
      CandidateRunStops(a[1..], b);
    } else if b != [] {
      assert a[1..] + b == b;
    }
  }

  lemma {:induction false} ItemRunStops(a: seq<Token>, b: seq<Token>, kind: TokenType)
    requires a != [] && Cuttable(a, b) && (kind == ListUnordered || kind == ListOrdered)
    ensures ItemRun(a + b, kind) == ItemRun(a, kind)
  {
    assert (a + b)[0] == a[0] && (a + b)[1..] == a[1..] + b;
    if |a| > 1 {
      ItemRunStops(a[1..], b, kind);
    } else if b != [] {
      assert a[1..] + b == b;
    }
  }

  lemma TableStops(a: seq<Token>, b: seq<Token>)
    requires a != [] && CandidateRun(a + b) == CandidateRun(a)
    ensures TableAhead(a + b) == TableAhead(a)
  {
    hide CandidateRun, ParseRow, Delimiters;
  }

  lemma FirstBlockStops(a: seq<Token>, b: seq<Token>)
    requires a != [] && Cuttable(a, b)
    ensures FirstBlock(a + b) == FirstBlock(a)
  {
    CandidateRunStops(a, b);
    TableStops(a, b);
    if IsListItem(a[0]) {
      ItemRunStops(a, b, a[0].kind);
    }
    assert forall n, m :: 0 <= m <= n <= |a| ==> (a + b)[m..n] == a[m..n];
    assert forall n :: 0 <= n <= |a| ==> (a + b)[..n] == a[..n];
    hide CandidateRun, ItemRun, ParseRow, Delimiters, DataRows;
  }

  lemma {:induction false} BlocksJoin(a: seq<Token>, b: seq<Token>)
    requires Cuttable(a, b)
    ensures Blocks.Blocks(a + b) == Blocks.Blocks(a) + Blocks.Blocks(b)
    decreases |a|
  {
    if a == [] {
      assert a + b == b;
    } else {
      hide FirstBlock, Cuttable, Blocks.Blocks;
      BlocksTurn(a);
      BlocksTurn(a + b);
      FirstBlockStops(a, b);
      var first, n := FirstBlock(a), |FirstBlock(a).source|;
      CuttableTail(a, b, n);
      BlocksJoin(a[n..], b);
      DropAppend(a, b, n);
      Regroup([first], Blocks.Blocks(a[n..]), Blocks.Blocks(b));
    }
  }

  lemma DropAppend(a: seq<Token>, b: seq<Token>, n: nat)
    requires n <= |a|
    ensures (a + b)[n..] == a[n..] + b
  {
  }

  lemma BlocksTurn(tokens: seq<Token>)
    requires tokens != []
    ensures var b := FirstBlock(tokens);
            0 < |b.source| <= |tokens| && Blocks.Blocks(tokens) == [b] + Blocks.Blocks(tokens[|b.source|..])
  {
    FirstBlockSize(tokens);
    hide FirstBlock;
  }

  lemma {:induction false} AllPiecesConcat(st: Style, a: seq<Block>, b: seq<Block>)
    ensures AllPieces(st, a + b) == AllPieces(st, a) + AllPieces(st, b)
  {
    if a == [] {
      assert a + b == b;
    } else {
      assert (a + b)[0] == a[0] && (a + b)[1..] == a[1..] + b;
      AllPiecesConcat(st, a[1..], b);
      hide BlockPieces;
      Regroup(BlockPieces(st, a[0]), AllPieces(st, a[1..]), AllPieces(st, b));
    }
  }

  /** The page of a token list can be cut wherever no table and no list goes on: both sides are rendered
      as if they stood alone. */
  lemma HtmlJoins(st: Style, a: seq<Token>, b: seq<Token>)
    requires Cuttable(a, b)
    ensures Html(st, a + b) == Html(st, a) + Html(st, b)
  {
    BlocksJoin(a, b);
    hide Blocks.Blocks, AllPieces, Flat;
    AllPiecesConcat(st, Blocks.Blocks(a), Blocks.Blocks(b));
    FlatConcat(AllPieces(st, Blocks.Blocks(a)), AllPieces(st, Blocks.Blocks(b)));
  }

  /** So a token that is neither an item nor a candidate is rendered by itself, whatever is around it. */
  lemma HtmlAround(st: Style, a: seq<Token>, t: Token, b: seq<Token>)
    requires !IsCandidate(t) && !IsListItem(t)
    ensures Html(st, a + [t] + b) == Html(st, a) + Html(st, [t]) + Html(st, b)
  {
    hide Html, IsCandidate;
    HtmlJoins(st, a + [t], b);
    HtmlJoins(st, a, [t]);
  }

  // ----- single tokens -----

  lemma HtmlOfBlock(st: Style, tokens: seq<Token>, b: Block)
    requires Blocks.Blocks(tokens) == [b]
    ensures Html(st, tokens) == Flat(BlockPieces(st, b))
  {
    hide Blocks.Blocks, BlockPieces, Flat;
    FirstRest(b, []);
    assert [b] + [] == [b];
    assert AllPieces(st, [b]) == BlockPieces(st, b) + [] == BlockPieces(st, b);
  }

  lemma SingleHtml(st: Style, t: Token)
    requires !IsListItem(t)
    ensures Html(st, [t]) == Flat(SinglePieces(st, t))
  {
    var tokens := [t];
    assert tokens[1..] == [] && tokens[..1] == tokens;
    assert CandidateRun(tokens) <= 1;
    assert FirstBlock(tokens) == Single(tokens);
    assert Blocks.Blocks([]) == [];
    assert Blocks.Blocks(tokens) == [Single(tokens)];
    hide Blocks.Blocks, SinglePieces, Flat, Html;
    HtmlOfBlock(st, tokens, Single(tokens));
  }

  lemma FlatAt(ps: seq<Piece>, k: nat)
    requires k < |ps|
    ensures Flat(ps[k..]) == ps[k].html + Flat(ps[k + 1..])
  {
    assert ps[k..][0] == ps[k] && ps[k..][1..] == ps[k + 1..];
  }

  lemma FlatThree(p: Piece, q: Piece, r: Piece)
    ensures Flat([p, q, r]) == p.html + q.html + r.html
  {
    var ps := [p, q, r];
    FlatAt(ps, 0);
    FlatAt(ps, 1);
    FlatAt(ps, 2);
    assert ps[0..] == ps && Flat(ps[3..]) == "";
    hide Flat;
    assert r.html + "" == r.html;
  }

  lemma FlatFive(ps: seq<Piece>)
    requires |ps| == 5
    ensures Flat(ps) == ps[0].html + ps[1].html + ps[2].html + ps[3].html + ps[4].html
  {
    FlatConcat(ps[..3], ps[3..]);
    assert ps == ps[..3] + ps[3..] && ps[..3] == [ps[0], ps[1], ps[2]] && ps[3..] == [ps[3], ps[4]];
    hide Flat;
    FlatThree(ps[0], ps[1], ps[2]);
    FlatPair(ps[3], ps[4]);
    Regroup(ps[0].html + ps[1].html + ps[2].html, ps[3].html, ps[4].html);
  }

  lemma FlatSeven(ps: seq<Piece>)
    requires |ps| == 7
    ensures Flat(ps) == ps[0].html + ps[1].html + ps[2].html + ps[3].html + ps[4].html + ps[5].html + ps[6].html
  {
    FlatConcat(ps[..5], ps[5..]);
    assert ps == ps[..5] + ps[5..] && ps[5..] == [ps[5], ps[6]];
    hide Flat;
    FlatFive(ps[..5]);
    FlatPair(ps[5], ps[6]);
    Regroup(Flat(ps[..5]), ps[5].html, ps[6].html);
  }

  /** The tags without attributes. */
  lemma PlainTags(tag: string)
    ensures OpenTag(tag, "") == "<" + tag + ">"
    ensures Tag(tag, "").html == "<" + tag + ">" && End(tag).html == "</" + tag + ">"
  {
    assert tag + "" == tag && "<" + tag + "" == "<" + tag;
  }

  /** A tag with an attribute value behind a prefix. */
  lemma TagWith(tag: string, prefix: string, value: string, head: string)
    requires head == "<" + tag + prefix
    ensures Tag(tag, prefix + value + "\"").html == head + value + "\">"
  {
    assert "<" + tag + (prefix + value + "\"") + ">" == "<" + tag + prefix + value + "\">";
  }

  lemma FlatNothing()
    ensures Flat([]) == ""
  {
  }

  /** A paragraph; an empty one is not written. */
  lemma ParagraphHtml(st: Style, content: string, language: string)
    ensures Html(st, [Token(Paragraph, content, language)]) ==
            if content == "" then "" else "<p>" + st.inline(content) + "</p>"
  {
    SingleHtml(st, Token(Paragraph, content, language));
    hide Html, Flat, ParagraphMarkup;
    ParagraphMarkupHtml(st.inline(content));
    FlatNothing();
  }

  lemma ParagraphMarkupHtml(text: string)
    ensures Flat(ParagraphMarkup(text)) == "<p>" + text + "</p>"
  {
    PlainTags("p");
    hide Flat, OpenTag, CloseTag;
    FlatThree(Tag("p", ""), Leaf(text), End("p"));
    assert "<" + "p" + ">" == "<p>" && "</" + "p" + ">" == "</p>";
  }

  /** A header, in the size of its level. */
  lemma HeaderHtml(st: Style, kind: TokenType, content: string, language: string)
    requires IsHeader(kind)
    ensures var size := match kind case Header1 => "+2" case Header2 => "+1" case Header3 => "+0" case _ => "-1";
            Html(st, [Token(kind, content, language)]) ==
            "<br>" + "<b>" + ("<font size=\"" + size + "\" color=\"" + st.theme.textAccent + "\">")
            + st.inline(content) + "</font>" + "</b>" + "<br><br>"
  {
    SingleHtml(st, Token(kind, content, language));
    hide Html, Flat, HeaderMarkup;
    HeaderMarkupHtml(st.theme, HeaderSize(kind), st.inline(content));
  }

  lemma HeaderMarkupHtml(theme: Theme, size: string, text: string)
    ensures Flat(HeaderMarkup(theme, size, text)) ==
            "<br>" + "<b>" + ("<font size=\"" + size + "\" color=\"" + theme.textAccent + "\">")
            + text + "</font>" + "</b>" + "<br><br>"
  {
    var ps := HeaderMarkup(theme, size, text);
    HeaderFont(size, theme.textAccent);
    PlainTags("b");
    PlainTags("font");
    hide Flat, OpenTag, CloseTag;
    FlatSeven(ps);
    assert "<" + "b" + ">" == "<b>" && "</" + "b" + ">" == "</b>" && "</" + "font" + ">" == "</font>";
  }

  lemma HeaderFont(size: string, color: string)
    ensures OpenTag("font", " size=\"" + size + "\" color=\"" + color + "\"") ==
            "<font size=\"" + size + "\" color=\"" + color + "\">"
  {
  }

  /** A rule and a code block. */
  lemma RuleAndCodeHtml(st: Style, content: string, language: string)
    ensures Html(st, [Token(Divider, content, language)]) == "<hr>"
    ensures Html(st, [Token(CodeBlock, content, language)]) == Flat(st.code(content, language))
  {
    SingleHtml(st, Token(Divider, content, language));
    SingleHtml(st, Token(CodeBlock, content, language));
    hide Html, Flat;
    FlatOne(Leaf("<hr>"));
  }

  // ----- lists -----

  /** Items, one behind the other. */
  function ItemsText(st: Style, items: seq<Token>): string {
    if items == [] then "" else "<li>" + st.inline(items[0].content) + "</li>" + ItemsText(st, items[1..])
  }

  lemma ItemHtml(st: Style, content: string)
    ensures Flat(ItemPieces(st, content)) == "<li>" + st.inline(content) + "</li>"
  {
    PlainTags("li");
    hide Flat, OpenTag, CloseTag;
    FlatThree(Tag("li", ""), Leaf(st.inline(content)), End("li"));
    assert "<" + "li" + ">" == "<li>" && "</" + "li" + ">" == "</li>";
  }

  lemma {:induction false} ItemsHtml(st: Style, items: seq<Token>)
    ensures Flat(ItemsPieces(st, items)) == ItemsText(st, items)
  {
    if items == [] {
      FlatNothing();
    } else {
      ItemsHtml(st, items[1..]);
      ItemHtml(st, items[0].content);
      hide ItemPieces, Flat;
      FlatConcat(ItemPieces(st, items[0].content), ItemsPieces(st, items[1..]));
    }
  }

  /** Items of one kind are one list. */
  lemma ListHtml(st: Style, items: seq<Token>, ordered: bool)
    requires items != [] && forall t :: t in items ==> t.kind == if ordered then ListOrdered else ListUnordered
    ensures Html(st, items) ==
            if ordered then "<ol>" + ItemsText(st, items) + "</ol><br>" else "<ul>" + ItemsText(st, items) + "</ul>"
  {
    ListIsBlock(items, ordered);
    HtmlOfBlock(st, items, List(items, ordered));
    ItemsHtml(st, items);
    hide Html, Flat, ItemsPieces, ItemsText, Blocks.Blocks;
    ListTags(ordered);
    FlatConcat(ListOpen(ordered) + ItemsPieces(st, items), ListClose(ordered));
    FlatConcat(ListOpen(ordered), ItemsPieces(st, items));
  }

  lemma ListTags(ordered: bool)
    ensures Flat(ListOpen(ordered)) == if ordered then "<ol>" else "<ul>"
    ensures Flat(ListClose(ordered)) == if ordered then "</ol><br>" else "</ul>"
  {
    Emitter.OpenStrings(ordered);
    Emitter.CloseStrings();
    hide Flat, ListClose;
  }

  lemma {:induction false} AllItems(items: seq<Token>, kind: TokenType)
    requires forall t :: t in items ==> t.kind == kind
    ensures ItemRun(items, kind) == |items|
  {
    if items != [] {
      assert items[0] in items;
      AllItems(items[1..], kind);
    }
  }

  lemma ListIsBlock(items: seq<Token>, ordered: bool)
    requires items != [] && forall t :: t in items ==> t.kind == Kind(ordered)
    ensures Blocks.Blocks(items) == [List(items, ordered)]
  {
    assert items[0] in items;
    AllItems(items, Kind(ordered));
    var n := |items|;
    assert !TableAhead(items);
    assert items[..n] == items && items[n..] == [];
    BlocksTurn(items);
    assert FirstBlock(items) == List(items, ordered);
    hide FirstBlock;
    assert Blocks.Blocks([]) == [];
  }

  // ----- tables -----

  /** The tag of a table, up to its colour. */
  const TABLE_TAG: string :=
    "<table" + " width=\"100%\"" + " border=\"1\"" + " cellspacing=\"0\"" + " cellpadding=\"6\"" + " bgcolor=\""

  /** Header cells or data cells, one behind the other, each trimmed. */
  function CellsText(st: Style, head: bool, cells: seq<string>): string {
    if cells == [] then ""
    else
      var text := st.inline(Trim(cells[0]));
      (if head then
         "<th bgcolor=\"" + st.theme.surfaceColor + "\">" + "<b>" + ("<font color=\"" + st.theme.textAccent + "\">")
         + text + "</font>" + "</b>" + "</th>"
       else
         "<td bgcolor=\"" + st.theme.codeBg + "\">" + " " + ("<font color=\"" + st.theme.textPrimary + "\">")
         + text + "</font>" + "</td>")
      + CellsText(st, head, cells[1..])
  }

  /** Data rows, one behind the other. */
  function RowsText(st: Style, rows: seq<seq<string>>): string {
    if rows == [] then "" else "<tr>" + CellsText(st, false, rows[0]) + "</tr>" + RowsText(st, rows[1..])
  }

  /** A table: its header cells, and then its data rows. */
  function TableText(st: Style, header: seq<string>, rows: seq<seq<string>>): string {
    "<br>" + (TABLE_TAG + st.theme.codeBg + "\">") + ("<tr>" + CellsText(st, true, header) + "</tr>")
    + RowsText(st, rows) + "</table><br>"
  }

  lemma HeadCell(theme: Theme, text: string)
    ensures Flat(CellMarkup(theme, true, text)) ==
            "<th bgcolor=\"" + theme.surfaceColor + "\">" + "<b>" + ("<font color=\"" + theme.textAccent + "\">")
            + text + "</font>" + "</b>" + "</th>"
  {
    PlainTags("b");
    PlainTags("font");
    PlainTags("th");
    TagWith("th", " bgcolor=\"", theme.surfaceColor, "<th bgcolor=\"");
    TagWith("font", " color=\"", theme.textAccent, "<font color=\"");
    hide Flat, OpenTag, CloseTag;
    FlatSeven(CellMarkup(theme, true, text));
    assert "<" + "b" + ">" == "<b>" && "</" + "b" + ">" == "</b>";
    assert "</" + "font" + ">" == "</font>" && "</" + "th" + ">" == "</th>";
  }

  lemma FlatSix(ps: seq<Piece>)
    requires |ps| == 6
    ensures Flat(ps) == ps[0].html + ps[1].html + ps[2].html + ps[3].html + ps[4].html + ps[5].html
  {
    FlatConcat(ps[..5], ps[5..]);
    assert ps == ps[..5] + ps[5..] && ps[5..] == [ps[5]];
    hide Flat;
    FlatFive(ps[..5]);
    FlatOne(ps[5]);
  }

  lemma DataCell(theme: Theme, text: string)
    ensures Flat(CellMarkup(theme, false, text)) ==
            "<td bgcolor=\"" + theme.codeBg + "\">" + " " + ("<font color=\"" + theme.textPrimary + "\">")
            + text + "</font>" + "</td>"
  {
    PlainTags("font");
    PlainTags("td");
    TagWith("td", " bgcolor=\"", theme.codeBg, "<td bgcolor=\"");
    TagWith("font", " color=\"", theme.textPrimary, "<font color=\"");
    hide Flat, OpenTag, CloseTag;
    FlatSix(CellMarkup(theme, false, text));
    assert "</" + "font" + ">" == "</font>" && "</" + "td" + ">" == "</td>";
  }

  lemma {:induction false} CellsHtml(st: Style, head: bool, cells: seq<string>)
    ensures Flat(CellsPieces(st, head, cells)) == CellsText(st, head, cells)
  {
    if cells == [] {
      FlatNothing();
    } else {
      var text := st.inline(Trim(cells[0]));
      CellsHtml(st, head, cells[1..]);
      HeadCell(st.theme, text);
      DataCell(st.theme, text);
      hide CellMarkup, Flat, Trim;
      FlatConcat(CellPieces(st, head, cells[0]), CellsPieces(st, head, cells[1..]));
    }
  }

  lemma RowHtml(st: Style, head: bool, cells: seq<string>)
    ensures Flat(RowPieces(st, head, cells)) == "<tr>" + CellsText(st, head, cells) + "</tr>"
  {
    CellsHtml(st, head, cells);
    hide RowPieces;
    Emitter.RowStrings(st, head, cells);
  }

  lemma {:induction false} RowsHtml(st: Style, rows: seq<seq<string>>)
    ensures Flat(RowsPieces(st, rows)) == RowsText(st, rows)
  {
    if rows == [] {
      FlatNothing();
    } else {
      RowsHtml(st, rows[1..]);
      RowHtml(st, false, rows[0]);
      hide RowPieces, Flat, CellsText;
      FlatConcat(RowPieces(st, false, rows[0]), RowsPieces(st, rows[1..]));
    }
  }

  lemma TableTags(theme: Theme)
    ensures TableTag(theme).html ==
            TABLE_TAG + theme.codeBg + "\">"
  {
    var front := " width=\"100%\"" + " border=\"1\"" + " cellspacing=\"0\"" + " cellpadding=\"6\"";
    assert "<" + "table" == "<table";
    assert "<" + "table" + (front + " bgcolor=\"") == TABLE_TAG;
    TagWith("table", front + " bgcolor=\"", theme.codeBg, "<" + "table" + (front + " bgcolor=\""));
  }

  lemma TablePiecesHtml(st: Style, header: seq<string>, rows: seq<seq<string>>)
    ensures Flat(TablePieces(st, header, rows)) == TableText(st, header, rows)
  {
    RowHtml(st, true, header);
    RowsHtml(st, rows);
    TableTags(st.theme);
    hide Flat, RowPieces, RowsPieces, CellsText, RowsText, TableTag, TablePieces;
    Emitter.TableStrings(st, header, rows);
  }

  lemma TableIsBlock(tokens: seq<Token>)
    requires TableAhead(tokens) && CandidateRun(tokens) == |tokens|
    ensures var header := ParseRow(tokens[0].content);
            Blocks.Blocks(tokens) == [Table(tokens, header, DataRows(tokens[2..], |header|))]
  {
    BlocksTurn(tokens);
    assert tokens[..|tokens|] == tokens && tokens[2..|tokens|] == tokens[2..] && tokens[|tokens|..] == [];
    assert Blocks.Blocks([]) == [];
    hide ParseRow, DataRows, Blocks.Blocks, CandidateRun;
  }

  /** A whole run of candidates that starts a table is written as that table: the cells of its first row,
      and those of every further row behind the second, cut or padded to the header's width. */
  lemma TableHtml(st: Style, tokens: seq<Token>)
    requires TableAhead(tokens) && CandidateRun(tokens) == |tokens|
    ensures var header := ParseRow(tokens[0].content);
            Html(st, tokens) == TableText(st, header, DataRows(tokens[2..], |header|))
  {
    var header := ParseRow(tokens[0].content);
    var b := Table(tokens, header, DataRows(tokens[2..], |header|));
    TableIsBlock(tokens);
    hide Html, Flat, TablePieces, TableText, Blocks.Blocks, ParseRow, DataRows, CandidateRun;
    HtmlOfBlock(st, tokens, b);
    TablePiecesHtml(st, header, DataRows(tokens[2..], |header|));
  }
}
