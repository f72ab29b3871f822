/** What a reader sees of a document: the visible text of everything in it. */
module Seen {
  import opened Text
  import opened Theme
  import opened Tokenizer
  import opened Blocks
  import opened PageText
  import opened PairedMarks
  import opened Emitter
  import C = CodeHtml
  import CodeBlock
  import CodeFrame
  import Hex
  import Highlighter
  import Inline
  import R = RenderCache
  import Reading

  // ----- running text -----

  lemma AtomShows(color: string, a: Inline.Atom)
    requires '>' !in color
    ensures Shows(Inline.Show(Inline.AsHtml(color), a), Inline.Show(Inline.AsText, a))
  {
    hide Shows, Inline.ShowChar, Inline.CodeTag;
    match a
    case Ch(c) => CharShows(c);
    case BoldOpen => NamedTag("<b>", "b");
    case BoldClose => NamedTag("</b>", "/b");
    case CodeClose => NamedTag("</font>", "/font");
    case CodeOpen => CodeTagShows(color);
  }

  lemma CharShows(c: char)
    ensures Shows(Inline.ShowChar(c), [c])
  {
    hide Shows;
    if c == '\n' {
      ShowsBreak();
    } else if c == '&' || c == '<' || c == '>' {
      ShowsEntity(Inline.EscapeChar(c), c);
    } else {
      ShowsChar(c);
    }
  }

  lemma CodeTagShows(color: string)
    requires '>' !in color
    ensures Shows(Inline.CodeTag(color), "")
  {
    hide Shows;
    var w := "font color=\"" + color + "\" face=\"monospace\"";
    assert '>' !in "font color=\"" && '>' !in "\" face=\"monospace\"" && w[0] == 'f';
    NamedTag(Inline.CodeTag(color), w);
  }

  lemma NamedTag(tag: string, w: string)
    requires tag == "<" + w + ">" && '>' !in w && w != "" && (w[0] != 'b' || w == "b")
    ensures Shows(tag, "")
  {
    assert |"br"| == 2 && "br"[0] == 'b';
    ShowsTag(w);
  }

  lemma {:induction false} AtomsShow(color: string, atoms: seq<Inline.Atom>)
    requires '>' !in color
    ensures Shows(Inline.Flat(Inline.AsHtml(color), atoms), Inline.Flat(Inline.AsText, atoms))
  {
    hide Shows, Inline.Show;
    if atoms == [] {
      ShowsNothing();
    } else {
      AtomShows(color, atoms[0]);
      AtomsShow(color, atoms[1..]);
      ShowsConcat(Inline.Show(Inline.AsHtml(color), atoms[0]), Inline.Show(Inline.AsText, atoms[0]),
                  Inline.Flat(Inline.AsHtml(color), atoms[1..]), Inline.Flat(Inline.AsText, atoms[1..]));
    }
  }

  /** Running text less its paired delimiters. */
  function Undelimited(text: string): string {
    Strip(Strip(text, "**"), "`")
  }

  /** Decorated text is seen as the text less its paired delimiters. */
  lemma InlineShows(color: string, text: string)
    requires '>' !in color
    ensures Shows(Inline.Html(color, text), Undelimited(text))
  {
    hide Shows, Inline.Html, Inline.Flat, Inline.Structure, Strip;
    Inline.HtmlIsStructure(color, text);
    AtomsShow(color, Inline.Structure(text));
    Inline.VisibleText(text);
  }

  // ----- code -----

  lemma GlyphShows(theme: Theme, c: char)
    requires C.ColorsHaveNoTagEnd(theme)
    ensures Shows(C.Glyph(theme, c), C.SeenText(C.CharEvents(c)))
  {
    hide C.Glyph, C.CharEvents;
    forall rest: string
      ensures See(C.Glyph(theme, c) + rest) == C.SeenText(C.CharEvents(c)) + See(rest)
    {
      C.ScanGlyph(theme, c, rest);
      hide C.Scan, C.SeenText;
      C.SeenConcat(C.CharEvents(c), C.Scan(rest));
    }
  }

  lemma SpacesShow()
    ensures Shows(C.SPACE2, "  ")
  {
    ShowsEntity("&nbsp;", ' ');
    hide Shows;
    ShowsConcat("&nbsp;", " ", "&nbsp;", " ");
    assert "&nbsp;" + "&nbsp;" == C.SPACE2 && " " + " " == "  ";
  }

  lemma {:induction false} RewrittenShows(theme: Theme, s: string)
    requires C.ColorsHaveNoTagEnd(theme)
    ensures Shows(C.Rewritten(theme, s), C.SeenText(C.Events(s)))
    decreases |s|
  {
    hide Shows, C.Glyph, C.CharEvents, C.SeenText;
    if s == "" {
      ShowsNothing();
      C.SeenNothing();
    } else if |s| >= 2 && s[0] == ' ' && s[1] == ' ' {
      SpacesShow();
      RewrittenShows(theme, s[2..]);
      TwoSpacesSeen(s);
      ShowsConcat(C.SPACE2, "  ", C.Rewritten(theme, s[2..]), C.SeenText(C.Events(s[2..])));
    } else {
      GlyphShows(theme, s[0]);
      RewrittenShows(theme, s[1..]);
      C.SeenConcat(C.CharEvents(s[0]), C.Events(s[1..]));
      ShowsConcat(C.Glyph(theme, s[0]), C.SeenText(C.CharEvents(s[0])),
                  C.Rewritten(theme, s[1..]), C.SeenText(C.Events(s[1..])));
    }
  }

  lemma SeenCons(c: char, rest: seq<C.Event>)
    ensures C.SeenText([C.Seen(c)] + rest) == [c] + C.SeenText(rest)
  {
    FirstRest(C.Seen(c), rest);
  }

  lemma TwoSpacesSeen(s: string)
    requires |s| >= 2 && s[0] == ' ' && s[1] == ' '
    ensures C.SeenText(C.Events(s)) == "  " + C.SeenText(C.Events(s[2..]))
  {
    var one, rest := [C.Seen(' ')], C.Events(s[2..]);
    C.TwoSpaces(s);
    hide C.SeenText, C.Events;
    assert [C.Seen(' '), C.Seen(' ')] + rest == one + (one + rest);
    SeenCons(' ', one + rest);
    SeenCons(' ', rest);
    Regroup(" ", " ", C.SeenText(rest));
  }

  /** The code as it is seen in a block: as highlighted, with tabs as four spaces. */
  ghost function CodeSeen(g: CodeBlock.Grammar, code: string): string
    requires CodeBlock.SoundGrammar(g)
  {
    C.ExpandTabs(Highlighter.EraseMarkers(CodeBlock.Marked(g, code)))
  }

  /** The text of a code block: the code on lines of its own, and the icons of the two links. */
  ghost function BlockSeen(g: CodeBlock.Grammar, code: string): string
    requires CodeBlock.SoundGrammar(g)
  {
    "\n" + (CodeSeen(g, code) + ("&#x1F4CB;" + ("  " + "&#x1F4E5;"))) + "\n"
  }

  lemma FormattedShows(theme: Theme, g: CodeBlock.Grammar, code: string)
    requires CodeBlock.SoundGrammar(g) && CodeBlock.UsableColors(theme)
    ensures Shows(C.Formatted(theme, CodeBlock.Marked(g, code)), CodeSeen(g, code))
  {
    var marked := CodeBlock.Marked(g, code);
    C.FormattedIsRewritten(theme, marked);
    C.SeenOfEvents(marked);
    hide Shows, C.Formatted, C.Rewritten, CodeBlock.Marked;
    RewrittenShows(theme, marked);
  }

  /** An icon is an entity that the reader leaves as it is. */
  lemma IconShows(name: string, icon: string)
    requires icon == "&" + name && name != "" && name[0] == '#' && '<' !in name && '&' !in name
    ensures Shows(icon, icon)
  {
    ShowsPlain(name);
    forall rest: string
      ensures See(icon + rest) == icon + See(rest)
    {
      hide See;
      assert See(name + rest) == name + See(rest);
      Regroup("&", name, rest);
      assert (name + rest)[0] == '#';
      LoneAmpersand(name + rest);
      Regroup("&", name, See(rest));
    }
  }

  lemma LoneAmpersand(rest: string)
    requires rest != "" && rest[0] == '#'
    ensures See("&" + rest) == "&" + See(rest)
  {
    var h := "&" + rest;
    assert h[0] == '&' && h[1] == '#' && h[1..] == rest;
    SeeEvent(h, C.Seen('&'), rest);
  }

  lemma LinkShows(action: string, hex: string, title: string, name: string, icon: string)
    requires '>' !in action && '>' !in hex && '>' !in title
    requires icon == "&" + name && name != "" && name[0] == '#' && '<' !in name && '&' !in name
    ensures Shows(Flat(CodeFrame.LinkPieces(action, hex, title, icon)), icon)
  {
    hide Shows, Flat;
    var attributes := " href=\"malama://" + action + ":" + hex + "\" title=\"" + title + "\"";
    assert attributes[0] == ' ' && '>' !in attributes by {
      assert '>' !in " href=\"malama://" && '>' !in "\" title=\"";
    }
    var font := [Tag("font", " size=\"-1\"")] + [Leaf(icon)] + [End("font")];
    IconShows(name, icon);
    LeafShows(icon, icon);
    WrapShows("font", " size=\"-1\"", [Leaf(icon)], icon);
    WrapShows("a", attributes, font, icon);
    assert CodeFrame.LinkPieces(action, hex, title, icon) == [Tag("a", attributes)] + font + [End("a")];
  }

  lemma ActionsShow(hex: string)
    requires '>' !in hex
    ensures Shows(Flat(CodeFrame.ActionPieces(hex)), "&#x1F4CB;" + ("  " + "&#x1F4E5;"))
  {
    hide Shows, Flat, CodeFrame.LinkPieces;
    var copy := CodeFrame.LinkPieces("copy_code", hex, "Copy", "&#x1F4CB;");
    var load := CodeFrame.LinkPieces("download_code", hex, "Download", "&#x1F4E5;");
    assert "&#x1F4CB;" == "&" + "#x1F4CB;" && "&#x1F4E5;" == "&" + "#x1F4E5;";
    LinkShows("copy_code", hex, "Copy", "#x1F4CB;", "&#x1F4CB;");
    LinkShows("download_code", hex, "Download", "#x1F4E5;", "&#x1F4E5;");
    SpacesShow();
    LeafShows("&nbsp;&nbsp;", "  ");
    JoinShows([Leaf("&nbsp;&nbsp;")], "  ", load, "&#x1F4E5;");
    JoinShows(copy, "&#x1F4CB;", [Leaf("&nbsp;&nbsp;")] + load, "  " + "&#x1F4E5;");
    WrapShows("div", " align=\"right\"", copy + ([Leaf("&nbsp;&nbsp;")] + load), "&#x1F4CB;" + ("  " + "&#x1F4E5;"));
  }

  lemma CellPartShows(theme: Theme, body: string, hex: string, x: string)
    requires Shows(body, x) && '>' !in hex && '>' !in theme.textPrimary
    ensures Shows(Flat(CodeFrame.CellPart(theme, body, hex)), x + ("&#x1F4CB;" + ("  " + "&#x1F4E5;")))
  {
    hide Shows, Flat, CodeFrame.ActionPieces;
    var attributes := " color=\"" + theme.textPrimary + "\" face=\"monospace\"";
    assert attributes[0] == ' ' && '>' !in attributes;
    LeafShows(body, x);
    WrapShows("font", attributes, [Leaf(body)], x);
    ActionsShow(hex);
    JoinShows([Tag("font", attributes)] + [Leaf(body)] + [End("font")], x,
              CodeFrame.ActionPieces(hex), "&#x1F4CB;" + ("  " + "&#x1F4E5;"));
  }

  lemma FrameShows(theme: Theme, body: string, hex: string, x: string)
    requires Shows(body, x) && '>' !in hex && ClosedColors(theme)
    ensures Shows(Flat(CodeFrame.FramePieces(theme, body, hex)),
                  "\n" + (x + ("&#x1F4CB;" + ("  " + "&#x1F4E5;"))) + "\n")
  {
    hide Shows, Flat, CodeFrame.CellPart;
    var seen := x + ("&#x1F4CB;" + ("  " + "&#x1F4E5;"));
    var attributes := " width=\"100%\" bgcolor=\"" + theme.codeBg + "\" cellpadding=\"10\"";
    assert attributes[0] == ' ' && '>' !in attributes by {
      assert '>' !in " width=\"100%\" bgcolor=\"" && '>' !in "\" cellpadding=\"10\"";
    }
    var cell := [Tag("td", " valign=\"top\"")] + CodeFrame.CellPart(theme, body, hex) + [End("td")];
    var row := [Tag("tr", "")] + cell + [End("tr")];
    var table := [Tag("table", attributes)] + row + [End("table")];
    CellPartShows(theme, body, hex, x);
    WrapShows("td", " valign=\"top\"", CodeFrame.CellPart(theme, body, hex), seen);
    WrapShows("tr", "", cell, seen);
    WrapShows("table", attributes, row, seen);
    BreakShows();
    JoinShows([Leaf("<br>")], "\n", table, seen);
    JoinShows([Leaf("<br>")] + table, "\n" + seen, [Leaf("<br>")], "\n");
  }

  lemma {:induction false} NoBracketInHex(s: string)
    ensures '>' !in Hex.Encode(s)
  {
    if s != "" {
      NoBracketInHex(s[1..]);
    }
  }

  /** A rendered code block is seen as the highlighted code with the two icons behind it. */
  lemma CodeShows(theme: Theme, g: CodeBlock.Grammar, code: string)
    requires CodeBlock.SoundGrammar(g) && CodeBlock.UsableColors(theme) && ClosedColors(theme)
    ensures Shows(Flat(CodeFrame.Pieces(theme, g, code)), BlockSeen(g, code))
    ensures Shows(CodeBlock.Html(theme, g, code), BlockSeen(g, code))
  {
    hide Shows, Flat, C.Formatted, CodeBlock.Html, CodeBlock.Marked, CodeFrame.FramePieces, Hex.Encode, CodeSeen;
    FormattedShows(theme, g, code);
    NoBracketInHex(code);
    FrameShows(theme, C.Formatted(theme, CodeBlock.Marked(g, code)), Hex.Encode(code), CodeSeen(g, code));
    CodeFrame.PiecesFlat(theme, g, code);
  }

  // ----- whole pages -----

  function InlineView(): string -> string {
    text => Undelimited(text)
  }

  ghost function CodeView(registry: string -> CodeBlock.Grammar): (string, string) -> string
    requires R.SoundRegistry(registry)
  {
    (code, lang) => BlockSeen(registry(lang), code)
  }

  lemma StyleReadAs(theme: Theme, registry: string -> CodeBlock.Grammar)
    requires R.SoundRegistry(registry) && CodeBlock.UsableColors(theme) && ClosedColors(theme)
    ensures ReadAs(StyleOf(theme, registry), InlineView(), CodeView(registry))
  {
    hide Shows, Flat, Inline.Html, CodeFrame.Pieces, BlockSeen, Undelimited, CodeBlock.SoundGrammar;
    var st := StyleOf(theme, registry);
    forall text
      ensures Shows(st.inline(text), InlineView()(text))
    {
      InlineShows(theme.codeString, text);
    }
    forall code, lang
      ensures Shows(Flat(st.code(code, lang)), CodeView(registry)(code, lang))
    {
      CodeShows(theme, registry(lang), code);
    }
  }

  /** Nothing of a document is lost on its page. What a reader sees is read off the document's lines: the
      text of every paragraph, header, item and table cell less its paired delimiters, and the code of
      every block as highlighted, in order. */
  lemma DocumentSeen(theme: Theme, registry: string -> CodeBlock.Grammar, text: string)
    requires R.SoundRegistry(registry) && CodeBlock.UsableColors(theme) && ClosedColors(theme)
    ensures See(Html(StyleOf(theme, registry), Tokenize(text))) ==
            Said(InlineView(), CodeView(registry), Reading.Read(Lines(text), ""))
  {
    hide See, Shows, Html, Said, Tokenize, Reading.Read, Lines, StyleOf, R.SoundRegistry, ReadAs;
    Reading.TokensAreRead(text);
    StyleReadAs(theme, registry);
    PageShows(StyleOf(theme, registry), InlineView(), CodeView(registry), Tokenize(text));
    ShownIsSeen(Html(StyleOf(theme, registry), Tokenize(text)),
                Said(InlineView(), CodeView(registry), Tokenize(text)));
  }
}
