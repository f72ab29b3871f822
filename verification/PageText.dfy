/** What a reader sees of a page: tags are dropped, breaks are line breaks, entities are characters. */
module PageText {
  import opened Text
  import opened Theme
  import opened Tokenizer
  import opened TableRows
  import opened Cells
  import opened Blocks
  import C = CodeHtml

  /** The text that is seen of some HTML. */
  function See(html: string): string {
    C.SeenText(C.Scan(html))
  }

  /** The HTML is seen as the text, whatever comes behind it: it ends in no tag and no entity. */
  ghost predicate Shows(html: string, text: string) {
    forall rest: string :: See(html + rest) == text + See(rest)
  }

  lemma ShownIsSeen(html: string, text: string)
    requires Shows(html, text)
    ensures See(html) == text
  {
    assert See(html + "") == text + See("");
    assert html + "" == html && See("") == "";
  }

  lemma ShowsNothing()
    ensures Shows("", "")
  {
    forall rest: string
      ensures See("" + rest) == "" + See(rest)
    {
      assert "" + rest == rest;
    }
  }

  lemma ShowsConcat(a: string, x: string, b: string, y: string)
    requires Shows(a, x) && Shows(b, y)
    ensures Shows(a + b, x + y)
  {
    forall rest: string
      ensures See(a + b + rest) == x + y + See(rest)
    {
      hide See;
      assert See(a + (b + rest)) == x + See(b + rest);
      assert See(b + rest) == y + See(rest);
      Regroup(a, b, rest);
      Regroup(x, y, See(rest));
    }
  }

  lemma SeeEvent(html: string, e: C.Event, rest: string)
    requires C.Scan(html) == [e] + C.Scan(rest)
    ensures See(html) == (if e.Seen? then [e.c] else "") + See(rest)
  {
    FirstRest(e, C.Scan(rest));
  }

  /** Tags show nothing. */
  lemma ShowsTag(w: string)
    requires '>' !in w && w != "br"
    ensures Shows("<" + w + ">", "")
  {
    forall rest: string
      ensures See("<" + w + ">" + rest) == "" + See(rest)
    {
      ScanTag(w, rest);
      SeeEvent("<" + w + ">" + rest, if w == "/font" then C.FontClose else C.FontOpen, rest);
      assert "" + See(rest) == See(rest);
    }
  }

  lemma ScanTag(w: string, rest: string)
    requires '>' !in w && w != "br"
    ensures C.Scan("<" + w + ">" + rest) == [if w == "/font" then C.FontClose else C.FontOpen] + C.Scan(rest)
  {
    var h := "<" + w + ">" + rest;
    assert '>' !in "<" + w;
    C.TagLengthOf("<" + w, rest);
    assert h[0] == '<' && h[|w| + 1] == '>' && h[|w| + 2..] == rest && forall i :: 0 <= i < |w| ==> h[i + 1] == w[i];
    assert "<br>" <= h ==> w == "br" by {
      if "<br>" <= h {
        TagAtFront("br", w, h);
      }
    }
    assert "</font>" <= h <==> w == "/font" by {
      if "</font>" <= h {
        TagAtFront("/font", w, h);
      }
    }
    hide C.TagLength;
  }

  lemma TagAtFront(v: string, w: string, h: string)
    requires '>' !in v && '>' !in w && "<" + v + ">" <= h && "<" + w + ">" <= h
    ensures v == w
  {
    var a, b := "<" + v + ">", "<" + w + ">";
    assert h[|v| + 1] == a[|v| + 1] == '>' && h[|w| + 1] == b[|w| + 1] == '>';
    assert a == b;
    assert v == a[1..|v| + 1] && w == b[1..|w| + 1];
  }

  /** A break is a line break. */
  lemma ShowsBreak()
    ensures Shows("<br>", "\n")
  {
    forall rest: string
      ensures See("<br>" + rest) == "\n" + See(rest)
    {
      assert ("<br>" + rest)[4..] == rest;
      SeeEvent("<br>" + rest, C.Seen('\n'), rest);
    }
  }

  /** Text without brackets and ampersands shows itself. */
  lemma {:induction false} ShowsPlain(s: string)
    requires '<' !in s && '&' !in s
    ensures Shows(s, s)
  {
    if s == "" {
      ShowsNothing();
    } else {
      assert s[0] in s && s == [s[0]] + s[1..];
      ShowsPlain(s[1..]);
      ShowsChar(s[0]);
      ShowsConcat([s[0]], [s[0]], s[1..], s[1..]);
    }
  }

  lemma ShowsChar(c: char)
    requires c != '<' && c != '&'
    ensures Shows([c], [c])
  {
    forall rest: string
      ensures See([c] + rest) == [c] + See(rest)
    {
      var h := [c] + rest;
      assert h[0] == c && h[1..] == rest;
      SeeEvent(h, C.Seen(c), rest);
    }
  }

  /** An entity of the four that are used. */
  lemma ShowsEntity(w: string, c: char)
    requires (w == "&amp;" && c == '&') || (w == "&lt;" && c == '<') || (w == "&gt;" && c == '>')
             || (w == "&nbsp;" && c == ' ')
    ensures Shows(w, [c])
  {
    forall rest: string
      ensures See(w + rest) == [c] + See(rest)
    {
      var h := w + rest;
      assert w <= h && h[0] == '&' && h[1] == w[1] && h[2] == w[2] && h[|w|..] == rest;
      SeeEvent(h, C.Seen(c), rest);
    }
  }

  // ----- what is said on a page -----

  /** The text of trimmed cells, one behind the other; in front of a data cell there is a space. */
  function CellsSaid(inline: string -> string, head: bool, cells: seq<string>): string {
    if cells == [] then ""
    else (if head then "" else " ") + inline(Trim(cells[0])) + CellsSaid(inline, head, cells[1..])
  }

  /** The text of data rows, each cut or padded to `n` cells. */
  function RowsSaid(inline: string -> string, tokens: seq<Token>, n: nat): string {
    if tokens == [] then ""
    else CellsSaid(inline, false, Fit(ParseRow(tokens[0].content), n)) + RowsSaid(inline, tokens[1..], n)
  }

  function ItemsSaid(inline: string -> string, tokens: seq<Token>): string {
    if tokens == [] then "" else inline(tokens[0].content) + ItemsSaid(inline, tokens[1..])
  }

  /** The text of a token that is neither an item nor part of a table. */
  function TokenSaid(inline: string -> string, code: (string, string) -> string, t: Token): string {
    match t.kind
    case Header1 => "\n" + inline(t.content) + "\n\n"
    case Header2 => "\n" + inline(t.content) + "\n\n"
    case Header3 => "\n" + inline(t.content) + "\n\n"
    case Header4 => "\n" + inline(t.content) + "\n\n"
    case Divider => ""
    case CodeBlock => code(t.content, t.language)
    case _ => if t.content == "" then "" else inline(t.content)
  }

  /** The text of a page, given how running text and code are read: the text of every token in order,
      tables on lines of their own, and a line break behind an ordered list. */
  function Said(inline: string -> string, code: (string, string) -> string, tokens: seq<Token>): string
    decreases |tokens|
  {
    if tokens == [] then ""
    else if TableAhead(tokens) then
      var n, header := CandidateRun(tokens), ParseRow(tokens[0].content);
      "\n" + CellsSaid(inline, true, header) + RowsSaid(inline, tokens[2..n], |header|) + "\n"
      + Said(inline, code, tokens[n..])
    else if IsListItem(tokens[0]) then
      var n := ItemRun(tokens[1..], tokens[0].kind) + 1;
      ItemsSaid(inline, tokens[..n]) + (if tokens[0].kind == ListOrdered then "\n" else "")
      + Said(inline, code, tokens[n..])
    else TokenSaid(inline, code, tokens[0]) + Said(inline, code, tokens[1..])
  }

  /** The colours of the theme end no tag. */
  predicate ClosedColors(theme: Theme) {
    && '>' !in theme.textAccent && '>' !in theme.surfaceColor && '>' !in theme.codeBg && '>' !in theme.textPrimary
  }

  /** Decorated text and code are seen as the given functions say. */
  ghost predicate ReadAs(st: Style, inline: string -> string, code: (string, string) -> string) {
    && (forall c :: Shows(st.inline(c), inline(c)))
    && (forall c, l :: Shows(Flat(st.code(c, l)), code(c, l)))
    && ClosedColors(st.theme)
  }

  // ----- and seen -----

  lemma JoinShows(ps: seq<Piece>, x: string, qs: seq<Piece>, y: string)
    requires Shows(Flat(ps), x) && Shows(Flat(qs), y)
    ensures Shows(Flat(ps + qs), x + y)
  {
    hide Shows, Flat;
    FlatConcat(ps, qs);
    ShowsConcat(Flat(ps), x, Flat(qs), y);
  }

  lemma LeafShows(html: string, x: string)
    requires Shows(html, x)
    ensures Shows(Flat([Leaf(html)]), x)
  {
    hide Shows;
    FlatOne(Leaf(html));
  }

  lemma NoPieces()
    ensures Shows(Flat([]), "")
  {
    ShowsNothing();
    hide Shows;
  }

  lemma BreakShows()
    ensures Shows(Flat([Leaf("<br>")]), "\n")
  {
    hide Shows;
    ShowsBreak();
    LeafShows("<br>", "\n");
  }

  lemma TagShows(p: Piece, w: string)
    requires p.html == "<" + w + ">" && '>' !in w && w != "br"
    ensures Shows(Flat([p]), "")
  {
    ShowsTag(w);
    hide Shows, Flat;
    FlatOne(p);
  }

  lemma TagsAre(tag: string, attributes: string)
    requires '>' !in tag && '>' !in attributes
    requires if attributes == "" then |tag| != 2 || tag[0] != 'b' else attributes[0] == ' '
    ensures var w, v := tag + attributes, "/" + tag;
            && OpenTag(tag, attributes) == "<" + w + ">" && CloseTag(tag) == "<" + v + ">"
            && '>' !in w && '>' !in v && w != "br" && v != "br"
  {
    NoBreakTag(tag, attributes);
  }

  lemma NoBreakTag(tag: string, attributes: string)
    requires if attributes == "" then |tag| != 2 || tag[0] != 'b' else attributes[0] == ' '
    ensures tag + attributes != "br" && "/" + tag != "br"
  {
    var w := tag + attributes;
    if attributes == "" {
      assert w == tag;
    } else {
      assert w[|tag|] == ' ' && ' ' !in "br";
    }
    assert ("/" + tag)[0] == '/' && "br"[0] == 'b';
  }

  /** Text in a tag is seen as without. */
  lemma WrapShows(tag: string, attributes: string, ps: seq<Piece>, x: string)
    requires Shows(Flat(ps), x) && '>' !in tag && '>' !in attributes
    requires if attributes == "" then |tag| != 2 || tag[0] != 'b' else attributes[0] == ' '
    ensures Shows(Flat([Tag(tag, attributes)] + ps + [End(tag)]), x)
  {
    TagsAre(tag, attributes);
    hide Shows, Flat, OpenTag, CloseTag;
    TagShows(Tag(tag, attributes), tag + attributes);
    TagShows(End(tag), "/" + tag);
    JoinShows([Tag(tag, attributes)], "", ps, x);
    JoinShows([Tag(tag, attributes)] + ps, "" + x, [End(tag)], "");
    assert "" + x + "" == x;
  }

  lemma HeaderShows(theme: Theme, size: string, text: string, x: string)
    requires Shows(text, x) && '>' !in size && '>' !in theme.textAccent
    ensures Shows(Flat(HeaderMarkup(theme, size, text)), "\n" + x + "\n\n")
  {
    hide Shows, Flat;
    var attributes := " size=\"" + size + "\" color=\"" + theme.textAccent + "\"";
    var inner := [Tag("font", attributes)] + [Leaf(text)] + [End("font")];
    LeafShows(text, x);
    assert '>' !in attributes;
    WrapShows("font", attributes, [Leaf(text)], x);
    WrapShows("b", "", inner, x);
    BreakShows();
    TwoBreaks();
    var bold := [Tag("b", "")] + inner + [End("b")];
    JoinShows([Leaf("<br>")], "\n", bold, x);
    JoinShows([Leaf("<br>")] + bold, "\n" + x, [Leaf("<br><br>")], "\n\n");
    assert HeaderMarkup(theme, size, text) == [Leaf("<br>")] + bold + [Leaf("<br><br>")];
  }

  lemma TwoBreaks()
    ensures Shows(Flat([Leaf("<br><br>")]), "\n\n")
  {
    hide Shows, Flat;
    ShowsBreak();
    ShowsConcat("<br>", "\n", "<br>", "\n");
    assert "<br>" + "<br>" == "<br><br>" && "\n" + "\n" == "\n\n";
    LeafShows("<br><br>", "\n\n");
  }

  lemma HeadCellShows(theme: Theme, text: string, x: string)
    requires Shows(text, x) && ClosedColors(theme)
    ensures Shows(Flat(CellMarkup(theme, true, text)), x)
  {
    hide Shows, Flat;
    var color, surface := " color=\"" + theme.textAccent + "\"", " bgcolor=\"" + theme.surfaceColor + "\"";
    var font := [Tag("font", color)] + [Leaf(text)] + [End("font")];
    var bold := [Tag("b", "")] + font + [End("b")];
    assert '>' !in color && '>' !in surface;
    LeafShows(text, x);
    WrapShows("font", color, [Leaf(text)], x);
    WrapShows("b", "", font, x);
    WrapShows("th", surface, bold, x);
    assert CellMarkup(theme, true, text) == [Tag("th", surface)] + bold + [End("th")];
  }

  lemma DataCellShows(theme: Theme, text: string, x: string)
    requires Shows(text, x) && ClosedColors(theme)
    ensures Shows(Flat(CellMarkup(theme, false, text)), " " + x)
  {
    hide Shows, Flat;
    var color, back := " color=\"" + theme.textPrimary + "\"", " bgcolor=\"" + theme.codeBg + "\"";
    var font := [Tag("font", color)] + [Leaf(text)] + [End("font")];
    assert '>' !in color && '>' !in back;
    LeafShows(text, x);
    WrapShows("font", color, [Leaf(text)], x);
    ShowsPlain(" ");
    LeafShows(" ", " ");
    JoinShows([Leaf(" ")], " ", font, x);
    WrapShows("td", back, [Leaf(" ")] + font, " " + x);
    assert CellMarkup(theme, false, text) == [Tag("td", back)] + ([Leaf(" ")] + font) + [End("td")];
  }

  lemma {:induction false} CellsShow(st: Style, inline: string -> string, head: bool, cells: seq<string>)
    requires (forall c :: Shows(st.inline(c), inline(c))) && ClosedColors(st.theme)
    ensures Shows(Flat(CellsPieces(st, head, cells)), CellsSaid(inline, head, cells))
  {
    hide Shows, Flat, ClosedColors, CellMarkup, Trim;
    if cells == [] {
      NoPieces();
    } else {
      var c := Trim(cells[0]);
      CellsShow(st, inline, head, cells[1..]);
      assert Shows(st.inline(c), inline(c));
      if head {
        HeadCellShows(st.theme, st.inline(c), inline(c));
        assert "" + inline(c) == inline(c);
      } else {
        DataCellShows(st.theme, st.inline(c), inline(c));
      }
      JoinShows(CellPieces(st, head, cells[0]), (if head then "" else " ") + inline(c),
                CellsPieces(st, head, cells[1..]), CellsSaid(inline, head, cells[1..]));
    }
  }

  lemma RowShows(st: Style, inline: string -> string, head: bool, cells: seq<string>)
    requires (forall c :: Shows(st.inline(c), inline(c))) && ClosedColors(st.theme)
    ensures Shows(Flat(RowPieces(st, head, cells)), CellsSaid(inline, head, cells))
  {
    hide Shows, Flat, CellsPieces, CellsSaid;
    CellsShow(st, inline, head, cells);
    WrapShows("tr", "", CellsPieces(st, head, cells), CellsSaid(inline, head, cells));
  }

  lemma {:induction false} RowsShow(st: Style, inline: string -> string, tokens: seq<Token>, n: nat)
    requires (forall c :: Shows(st.inline(c), inline(c))) && ClosedColors(st.theme)
    ensures Shows(Flat(RowsPieces(st, DataRows(tokens, n))), RowsSaid(inline, tokens, n))
  {
    hide Shows, Flat, RowPieces, CellsSaid, Fit, ParseRow;
    if tokens == [] {
      NoPieces();
    } else {
      var row, rows := Fit(ParseRow(tokens[0].content), n), DataRows(tokens[1..], n);
      RowShows(st, inline, false, row);
      RowsShow(st, inline, tokens[1..], n);
      JoinShows(RowPieces(st, false, row), CellsSaid(inline, false, row),
                RowsPieces(st, rows), RowsSaid(inline, tokens[1..], n));
      FirstRest(row, rows);
    }
  }

  lemma TableAttributes(theme: Theme) returns (attributes: string)
    requires '>' !in theme.codeBg
    ensures '>' !in attributes && attributes != "" && attributes[0] == ' '
    ensures TableTag(theme) == Tag("table", attributes)
  {
    var front := " width=\"100%\"" + " border=\"1\"" + " cellspacing=\"0\"" + " cellpadding=\"6\"";
    attributes := front + " bgcolor=\"" + theme.codeBg + "\"";
    hide OpenTag;
    assert '>' !in front && front[0] == ' ';
    assert attributes[0] == front[0];
  }

  lemma TableShows(st: Style, inline: string -> string, header: seq<string>, tokens: seq<Token>)
    requires (forall c :: Shows(st.inline(c), inline(c))) && ClosedColors(st.theme)
    ensures Shows(Flat(TablePieces(st, header, DataRows(tokens, |header|))),
                  "\n" + CellsSaid(inline, true, header) + RowsSaid(inline, tokens, |header|) + "\n")
  {
    hide Shows, Flat, RowPieces, RowsPieces, DataRows, CellsSaid, RowsSaid, TableTag, Tag;
    var attributes := TableAttributes(st.theme);
    var br, rows := [Leaf("<br>")], DataRows(tokens, |header|);
    var head, body := RowPieces(st, true, header), RowsPieces(st, rows);
    var x, y := CellsSaid(inline, true, header), RowsSaid(inline, tokens, |header|);
    RowShows(st, inline, true, header);
    RowsShow(st, inline, tokens, |header|);
    JoinShows(head, x, body, y);
    WrapShows("table", attributes, head + body, x + y);
    BreakShows();
    var table := [Tag("table", attributes)] + (head + body) + [End("table")];
    JoinShows(br, "\n", table, x + y);
    JoinShows(br + table, "\n" + (x + y), br, "\n");
    assert TablePieces(st, header, rows) == br + table + br;
    Regroup("\n", x, y);
  }

  lemma {:induction false} ItemsShow(st: Style, inline: string -> string, items: seq<Token>)
    requires forall c :: Shows(st.inline(c), inline(c))
    ensures Shows(Flat(ItemsPieces(st, items)), ItemsSaid(inline, items))
  {
    hide Shows, Flat;
    if items == [] {
      NoPieces();
    } else {
      var c := items[0].content;
      assert Shows(st.inline(c), inline(c));
      LeafShows(st.inline(c), inline(c));
      WrapShows("li", "", [Leaf(st.inline(c))], inline(c));
      assert ItemPieces(st, c) == [Tag("li", "")] + [Leaf(st.inline(c))] + [End("li")];
      ItemsShow(st, inline, items[1..]);
      JoinShows(ItemPieces(st, c), inline(c), ItemsPieces(st, items[1..]), ItemsSaid(inline, items[1..]));
    }
  }

  lemma ListShows(st: Style, inline: string -> string, items: seq<Token>, ordered: bool)
    requires forall c :: Shows(st.inline(c), inline(c))
    ensures Shows(Flat(ListOpen(ordered) + ItemsPieces(st, items) + ListClose(ordered)),
                  ItemsSaid(inline, items) + if ordered then "\n" else "")
  {
    hide Shows, Flat, ItemsPieces, ItemsSaid;
    var tag, inner, x := ListTag(ordered), ItemsPieces(st, items), ItemsSaid(inline, items);
    ItemsShow(st, inline, items);
    WrapShows(tag, "", inner, x);
    BreakShows();
    NoPieces();
    var list := [Tag(tag, "")] + inner + [End(tag)];
    var br := if ordered then [Leaf("<br>")] else [];
    JoinShows(list, x, br, if ordered then "\n" else "");
    assert ListOpen(ordered) + inner + ListClose(ordered) == list + br;
  }

  lemma SingleShows(st: Style, inline: string -> string, code: (string, string) -> string, t: Token)
    requires ReadAs(st, inline, code) && !IsListItem(t)
    ensures Shows(Flat(SinglePieces(st, t)), TokenSaid(inline, code, t))
  {
    hide Shows, Flat, HeaderMarkup;
    var c := t.content;
    assert Shows(st.inline(c), inline(c)) && Shows(Flat(st.code(c, t.language)), code(c, t.language));
    if IsHeader(t.kind) {
      HeaderShows(st.theme, HeaderSize(t.kind), st.inline(c), inline(c));
    } else if t.kind == Divider {
      assert "<hr>" == "<" + "hr" + ">";
      TagShows(Leaf("<hr>"), "hr");
    } else if t.kind == Paragraph {
      NoPieces();
      LeafShows(st.inline(c), inline(c));
      WrapShows("p", "", [Leaf(st.inline(c))], inline(c));
      assert ParagraphMarkup(st.inline(c)) == [Tag("p", "")] + [Leaf(st.inline(c))] + [End("p")];
    }
  }

  lemma SaidTurn(inline: string -> string, code: (string, string) -> string, tokens: seq<Token>)
    requires tokens != []
    ensures Said(inline, code, tokens) ==
            BlockSaid(inline, code, tokens) + Said(inline, code, tokens[|FirstBlock(tokens).source|..])
  {
    FirstBlockSize(tokens);
    hide TableAhead, CandidateRun, ParseRow, DataRows, CellsSaid, RowsSaid, ItemsSaid, TokenSaid;
  }

  /** The text of the first block. */
  function BlockSaid(inline: string -> string, code: (string, string) -> string, tokens: seq<Token>): string
    requires tokens != []
  {
    if TableAhead(tokens) then
      var n, header := CandidateRun(tokens), ParseRow(tokens[0].content);
      "\n" + CellsSaid(inline, true, header) + RowsSaid(inline, tokens[2..n], |header|) + "\n"
    else if IsListItem(tokens[0]) then
      ItemsSaid(inline, tokens[..ItemRun(tokens[1..], tokens[0].kind) + 1])
      + (if tokens[0].kind == ListOrdered then "\n" else "")
    else TokenSaid(inline, code, tokens[0])
  }

  lemma BlockShows(st: Style, inline: string -> string, code: (string, string) -> string, tokens: seq<Token>)
    requires ReadAs(st, inline, code) && tokens != []
    ensures Shows(Flat(BlockPieces(st, FirstBlock(tokens))), BlockSaid(inline, code, tokens))
  {
    hide Shows, Flat, ParseRow, DataRows, TablePieces, CellsSaid, RowsSaid, ItemsPieces, ItemsSaid;
    hide ListOpen, ListClose, SinglePieces, TokenSaid, Delimiters;
    if TableAhead(tokens) {
      TableShows(st, inline, ParseRow(tokens[0].content), tokens[2..CandidateRun(tokens)]);
    } else if IsListItem(tokens[0]) {
      ListShows(st, inline, tokens[..ItemRun(tokens, tokens[0].kind)], tokens[0].kind == ListOrdered);
    } else {
      SingleShows(st, inline, code, tokens[0]);
    }
  }

  /** Nothing of a document is lost on its page: what a reader sees is the text of every token, in
      order, with what the tables and lists add. */
  lemma {:induction false} PageShows(st: Style, inline: string -> string, code: (string, string) -> string,
                                     tokens: seq<Token>)
    requires ReadAs(st, inline, code)
    ensures Shows(Html(st, tokens), Said(inline, code, tokens))
    decreases |tokens|
  {
    if tokens == [] {
      NoPieces();
    } else {
      FirstBlockSize(tokens);
      BlockShows(st, inline, code, tokens);
      SaidTurn(inline, code, tokens);
      hide Shows, Flat, FirstBlock, BlockPieces, ReadAs, Said, BlockSaid;
      var b, x := FirstBlock(tokens), BlockSaid(inline, code, tokens);
      var rest := tokens[|b.source|..];
      PageShows(st, inline, code, rest);
      FirstRest(b, Blocks.Blocks(rest));
      JoinShows(BlockPieces(st, b), x, AllPieces(st, Blocks.Blocks(rest)), Said(inline, code, rest));
    }
  }
}
