/** A rendered code block as pieces: its table, its font and its links, around the formatted code. */
module CodeFrame {
  import opened Text
  import opened Theme
  import opened Blocks
  import C = CodeBlock
  import CodeHtml
  import Hex

  function LinkPieces(action: string, hex: string, title: string, icon: string): seq<Piece> {
    [Tag("a", " href=\"malama://" + action + ":" + hex + "\" title=\"" + title + "\""),
     Tag("font", " size=\"-1\""), Leaf(icon), End("font"), End("a")]
  }

  function ActionPieces(hex: string): seq<Piece> {
    [Tag("div", " align=\"right\"")]
    + (LinkPieces("copy_code", hex, "Copy", "&#x1F4CB;")
       + ([Leaf("&nbsp;&nbsp;")] + LinkPieces("download_code", hex, "Download", "&#x1F4E5;")))
    + [End("div")]
  }

  function CellPart(theme: Theme, body: string, hex: string): seq<Piece> {
    [Tag("font", " color=\"" + theme.textPrimary + "\" face=\"monospace\"")] + [Leaf(body)] + [End("font")]
    + ActionPieces(hex)
  }

  function FramePieces(theme: Theme, body: string, hex: string): seq<Piece> {
    [Leaf("<br>")]
    + ([Tag("table", " width=\"100%\" bgcolor=\"" + theme.codeBg + "\" cellpadding=\"10\"")]
       + ([Tag("tr", "")]
          + ([Tag("td", " valign=\"top\"")] + CellPart(theme, body, hex) + [End("td")])
          + [End("tr")])
       + [End("table")])
    + [Leaf("<br>")]
  }

  /** The rendered block of a code token. */
  ghost function Pieces(theme: Theme, g: C.Grammar, code: string): seq<Piece>
    requires C.SoundGrammar(g)
  {
    FramePieces(theme, CodeHtml.Formatted(theme, C.Marked(g, code)), Hex.Encode(code))
  }

  // ----- the pieces are the text -----

  lemma FlatFirst(p: Piece, rest: seq<Piece>)
    ensures Flat([p] + rest) == p.html + Flat(rest)
  {
    FirstRest(p, rest);
  }

  lemma FlatAround(p: Piece, inner: seq<Piece>, q: Piece)
    ensures Flat([p] + inner + [q]) == p.html + Flat(inner) + q.html
  {
    hide Flat;
    FlatConcat([p] + inner, [q]);
    FlatFirst(p, inner);
    FlatOne(q);
  }

  lemma LinkFlat(action: string, hex: string, title: string, icon: string)
    ensures Flat(LinkPieces(action, hex, title, icon)) == C.Link(action, hex, title, icon)
  {
    var a := Tag("a", " href=\"malama://" + action + ":" + hex + "\" title=\"" + title + "\"");
    var font := Tag("font", " size=\"-1\"");
    assert LinkPieces(action, hex, title, icon) == [a] + ([font] + [Leaf(icon)] + [End("font")]) + [End("a")];
    hide Flat, OpenTag, CloseTag;
    FlatOne(Leaf(icon));
    FlatAround(font, [Leaf(icon)], End("font"));
    FlatAround(a, [font] + [Leaf(icon)] + [End("font")], End("a"));
    Regroup(a.html, font.html + icon, CloseTag("font"));
    Regroup(a.html, font.html, icon);
  }

  lemma ActionsFlat(hex: string)
    ensures Flat(ActionPieces(hex)) == C.Actions(hex)
  {
    hide Flat, LinkPieces, OpenTag, CloseTag, C.Link;
    var copy := LinkPieces("copy_code", hex, "Copy", "&#x1F4CB;");
    var load := LinkPieces("download_code", hex, "Download", "&#x1F4E5;");
    LinkFlat("copy_code", hex, "Copy", "&#x1F4CB;");
    LinkFlat("download_code", hex, "Download", "&#x1F4E5;");
    FlatFirst(Leaf("&nbsp;&nbsp;"), load);
    FlatConcat(copy, [Leaf("&nbsp;&nbsp;")] + load);
    FlatAround(Tag("div", " align=\"right\""), copy + ([Leaf("&nbsp;&nbsp;")] + load), End("div"));
  }

  lemma CellFlat(theme: Theme, body: string, hex: string)
    ensures Flat(CellPart(theme, body, hex)) ==
            OpenTag("font", " color=\"" + theme.textPrimary + "\" face=\"monospace\"") + body + CloseTag("font")
            + C.Actions(hex)
  {
    ActionsFlat(hex);
    hide Flat, ActionPieces, C.Actions, OpenTag, CloseTag;
    var font := Tag("font", " color=\"" + theme.textPrimary + "\" face=\"monospace\"");
    FlatOne(Leaf(body));
    FlatAround(font, [Leaf(body)], End("font"));
    FlatConcat([font] + [Leaf(body)] + [End("font")], ActionPieces(hex));
  }

  lemma FrameFlat(theme: Theme, body: string, hex: string)
    ensures Flat(FramePieces(theme, body, hex)) == C.Frame(theme, body, C.Actions(hex))
  {
    hide Flat, CellPart, C.Actions, OpenTag, CloseTag;
    CellFlat(theme, body, hex);
    var table := Tag("table", " width=\"100%\" bgcolor=\"" + theme.codeBg + "\" cellpadding=\"10\"");
    var cell := [Tag("td", " valign=\"top\"")] + CellPart(theme, body, hex) + [End("td")];
    var row := [Tag("tr", "")] + cell + [End("tr")];
    FlatAround(Tag("td", " valign=\"top\""), CellPart(theme, body, hex), End("td"));
    FlatAround(Tag("tr", ""), cell, End("tr"));
    FlatAround(table, row, End("table"));
    FlatAround(Leaf("<br>"), [table] + row + [End("table")], Leaf("<br>"));
  }

  /** Joined, the pieces are the block that the renderer writes. */
  lemma PiecesFlat(theme: Theme, g: C.Grammar, code: string)
    requires C.SoundGrammar(g)
    ensures Flat(Pieces(theme, g, code)) == C.Html(theme, g, code)
  {
    hide Flat, FramePieces, C.Frame, C.Actions;
    FrameFlat(theme, CodeHtml.Formatted(theme, C.Marked(g, code)), Hex.Encode(code));
  }

  // ----- its tags balance -----

  lemma LinkNeutral(action: string, hex: string, title: string, icon: string, open: seq<string>)
    ensures Neutral(LinkPieces(action, hex, title, icon), open)
  {
    var a := Tag("a", " href=\"malama://" + action + ":" + hex + "\" title=\"" + title + "\"");
    var font := Tag("font", " size=\"-1\"");
    BoldFont(a, font, icon, open);
    assert LinkPieces(action, hex, title, icon) == [a] + ([font] + [Leaf(icon)] + [End("font")]) + [End("a")];
  }

  lemma ActionsNeutral(hex: string, open: seq<string>)
    ensures Neutral(ActionPieces(hex), open)
  {
    var inner := ["div"] + open;
    var copy := LinkPieces("copy_code", hex, "Copy", "&#x1F4CB;");
    var load := LinkPieces("download_code", hex, "Download", "&#x1F4E5;");
    hide Stack, LinkPieces;
    LinkNeutral("copy_code", hex, "Copy", "&#x1F4CB;", inner);
    LinkNeutral("download_code", hex, "Download", "&#x1F4E5;", inner);
    NeutralLeaf("&nbsp;&nbsp;", inner);
    NeutralConcat([Leaf("&nbsp;&nbsp;")], load, inner);
    NeutralConcat(copy, [Leaf("&nbsp;&nbsp;")] + load, inner);
    NeutralWrap(Tag("div", " align=\"right\""), copy + ([Leaf("&nbsp;&nbsp;")] + load), End("div"), open);
  }

  /** Table, row, cell, font, division and links of a code block close in order, on any stack. */
  lemma FrameNeutral(theme: Theme, body: string, hex: string, open: seq<string>)
    ensures Neutral(FramePieces(theme, body, hex), open)
  {
    hide Stack, ActionPieces, Neutral;
    var table := Tag("table", " width=\"100%\" bgcolor=\"" + theme.codeBg + "\" cellpadding=\"10\"");
    var font := Tag("font", " color=\"" + theme.textPrimary + "\" face=\"monospace\"");
    var inTable := ["table"] + open;
    var inRow := ["tr"] + inTable;
    var inCell := ["td"] + inRow;
    WrappedText(font, body, inCell);
    ActionsNeutral(hex, inCell);
    NeutralConcat([font] + [Leaf(body)] + [End("font")], ActionPieces(hex), inCell);
    var cell := [Tag("td", " valign=\"top\"")] + CellPart(theme, body, hex) + [End("td")];
    NeutralWrap(Tag("td", " valign=\"top\""), CellPart(theme, body, hex), End("td"), inRow);
    var row := [Tag("tr", "")] + cell + [End("tr")];
    NeutralWrap(Tag("tr", ""), cell, End("tr"), inTable);
    NeutralWrap(table, row, End("table"), open);
    NeutralLeaf("<br>", open);
    NeutralConcat([Leaf("<br>")], [table] + row + [End("table")], open);
    NeutralConcat([Leaf("<br>")] + ([table] + row + [End("table")]), [Leaf("<br>")], open);
  }
}
