/** Which colour of the theme highlighted code and inline code are shown in, and what bold text is. */
module Colors {
  import opened Text
  import opened Theme
  import opened CodeHtml
  import opened Highlighter
  import opened PairedMarks
  import Inline

  // ----- highlighted code -----

  lemma {:induction false} RewrittenSplit(theme: Theme, a: string, m: char, b: string)
    requires IsMarker(m)
    ensures Rewritten(theme, a + [m] + b) == Rewritten(theme, a) + Glyph(theme, m) + Rewritten(theme, b)
    decreases |a|
  {
    hide Glyph;
    var s := a + [m] + b;
    if a == "" {
      assert s[0] == m && s[1..] == b;
      assert "" + Glyph(theme, m) == Glyph(theme, m);
    } else if |a| >= 2 && a[0] == ' ' && a[1] == ' ' {
      assert s[0] == ' ' && s[1] == ' ' && s[2..] == a[2..] + [m] + b;
      RewrittenSplit(theme, a[2..], m, b);
      Regroup(SPACE2, Rewritten(theme, a[2..]) + Glyph(theme, m), Rewritten(theme, b));
      Regroup(SPACE2, Rewritten(theme, a[2..]), Glyph(theme, m));
    } else {
      assert s[0] == a[0] && s[1..] == a[1..] + [m] + b;
      assert s[1] == if |a| > 1 then a[1] else m;
      RewrittenSplit(theme, a[1..], m, b);
      Regroup(Glyph(theme, a[0]), Rewritten(theme, a[1..]) + Glyph(theme, m), Rewritten(theme, b));
      Regroup(Glyph(theme, a[0]), Rewritten(theme, a[1..]), Glyph(theme, m));
    }
  }

  /** Text between an opening and a closing marker byte. */
  function Span(open: nat, body: string): string
    requires open < 255
  {
    [Byte(open)] + body + [Byte(open + 1)]
  }

  /** Such a text in a colour. */
  function Colored(color: string, html: string): string {
    "<font color=\"" + color + "\">" + html + "</font>"
  }

  lemma SpanColored(theme: Theme, a: string, open: nat, body: string, b: string)
    requires PlainColors(theme) && open < 255 && Opener(Byte(open)) && Closer(Byte(open + 1))
    ensures Formatted(theme, a + Span(open, body) + b) ==
            Formatted(theme, a) + Colored(Color(theme, Byte(open)), Formatted(theme, body)) + Formatted(theme, b)
  {
    var o, c := Byte(open), Byte(open + 1);
    var s := a + Span(open, body) + b;
    Enclosed(a, [o], body, [c], b);
    assert Glyph(theme, o) == "<font color=\"" + Color(theme, o) + "\">" && Glyph(theme, c) == "</font>";
    hide Formatted, Rewritten, PlainColors, Glyph, Color;
    FormattedIsRewritten(theme, s);
    FormattedIsRewritten(theme, a);
    FormattedIsRewritten(theme, body);
    FormattedIsRewritten(theme, b);
    RewrittenSplit(theme, a, o, body + [c] + b);
    RewrittenSplit(theme, body, c, b);
    Enclosed(Rewritten(theme, a), Glyph(theme, o), Rewritten(theme, body), Glyph(theme, c), Rewritten(theme, b));
  }

  lemma Enclosed(a: string, open: string, body: string, close: string, b: string)
    ensures a + (open + body + close) + b == a + open + (body + close + b)
  {
  }

  /** Wherever it stands in the code: what the rules mark as a string is shown in the theme's string colour,
      a comment in its comment colour and a keyword in its keyword colour; the other four marks have
      colours of their own. */
  lemma SpanColors(theme: Theme, a: string, body: string, b: string)
    requires PlainColors(theme)
    ensures var x, y, z := Formatted(theme, a), Formatted(theme, body), Formatted(theme, b);
            && Formatted(theme, a + Span(0x01, body) + b) == x + Colored(theme.codeString, y) + z
            && Formatted(theme, a + Span(0x03, body) + b) == x + Colored(theme.codeComment, y) + z
            && Formatted(theme, a + Span(0x05, body) + b) == x + Colored(theme.codeKeyword, y) + z
            && Formatted(theme, a + Span(0x07, body) + b) == x + Colored("#E5C07B", y) + z
            && Formatted(theme, a + Span(0x0F, body) + b) == x + Colored("#D19A66", y) + z
            && Formatted(theme, a + Span(0x11, body) + b) == x + Colored("#98C379", y) + z
            && Formatted(theme, a + Span(0x13, body) + b) == x + Colored("#43A047", y) + z
  {
    hide Formatted, PlainColors, Span, Colored;
    SpanColored(theme, a, 0x01, body, b);
    SpanColored(theme, a, 0x03, body, b);
    SpanColored(theme, a, 0x05, body, b);
    SpanColored(theme, a, 0x07, body, b);
    SpanColored(theme, a, 0x0F, body, b);
    SpanColored(theme, a, 0x11, body, b);
    SpanColored(theme, a, 0x13, body, b);
  }

  // ----- inline code -----

  /** Text without delimiters. */
  predicate Unmarked(text: string) {
    '`' !in text && '*' !in text
  }

  function Broken(text: string): string {
    ReplaceChar(Inline.Escape(text), '\n', "<br>")
  }

  lemma {:induction false} BrokenUnmarked(text: string)
    requires Unmarked(text)
    ensures Unmarked(Broken(text))
  {
    if text != "" {
      BrokenUnmarked(text[1..]);
      ReplaceConcat(Inline.EscapeChar(text[0]), Inline.Escape(text[1..]), '\n', "<br>");
      Inline.EscapeBreaks(text[0]);
      assert text[0] in text;
      Inline.EscapedClear(text[0]);
      hide Inline.ShowChar, Inline.EscapeChar;
    }
  }

  lemma NothingWrapped(s: string, d: string, open: string, close: string)
    requires d != "" && d[0] !in s
    ensures WrapPairs(s, d, open, close) == s
  {
    CutsNowhere(s, d);
  }

  predicate Delimiter(d: string) {
    d == "`" || d == "**"
  }

  lemma {:induction false} CutEnd(s: string, d: string)
    requires Delimiter(d) && d[0] !in s
    ensures Cut(s + d, d) == Around(s, "")
  {
    var t := s + d;
    if s == "" {
      assert t == d && t[|d|..] == "";
    } else {
      assert s[0] in s && t[0] == s[0] && t[1..] == s[1..] + d;
      CutEnd(s[1..], d);
      TakeDrop(s, 1);
    }
  }

  lemma CutStart(s: string, d: string)
    requires Delimiter(d)
    ensures Cut(d + s, d) == Around("", s)
  {
    assert d <= d + s && (d + s)[|d|..] == s;
  }

  lemma OneWrapped(s: string, d: string, open: string, close: string)
    requires Delimiter(d) && d[0] !in s
    ensures WrapPairs(d + s + d, d, open, close) == open + s + close
  {
    hide Cut, WrapPairs;
    Regroup(d, s, d);
    CutStart(s + d, d);
    CutEnd(s, d);
    NothingWrapped("", d, open, close);
    WrapOnce(d + s + d, d, "", s + d, s, "", open, close);
    Bare(open, s, close);
  }

  lemma Bare(a: string, b: string, c: string)
    ensures "" + a + b + c + "" == a + b + c
  {
  }

  lemma WrapOnce(s: string, d: string, before: string, rest: string, inner: string, after: string,
                 open: string, close: string)
    requires d != "" && Cut(s, d) == Around(before, rest) && Cut(rest, d) == Around(inner, after)
    ensures WrapPairs(s, d, open, close) == before + open + inner + close + WrapPairs(after, d, open, close)
  {
    hide Cut;
  }

  lemma {:induction false} EscapeBehind(a: string, b: string)
    ensures Inline.Escape(a + b) == Inline.Escape(a) + Inline.Escape(b)
  {
    if a == "" {
      assert a + b == b;
    } else {
      assert (a + b)[1..] == a[1..] + b;
      EscapeBehind(a[1..], b);
      Regroup(Inline.EscapeChar(a[0]), Inline.Escape(a[1..]), Inline.Escape(b));
    }
  }

  lemma BrokenAround(d: string, text: string)
    requires Delimiter(d)
    ensures Broken(d + text + d) == d + Broken(text) + d
  {
    EscapeBehind(d + text, d);
    EscapeBehind(d, text);
    assert d[1..] == "" || (d[1..] == "*" && d[1..][1..] == "");
    assert Inline.Escape("*") == "*" + Inline.Escape("") && Inline.Escape(d) == d;
    hide ReplaceChar, Inline.Escape;
    ReplaceConcat(d + Inline.Escape(text), d, '\n', "<br>");
    ReplaceConcat(d, Inline.Escape(text), '\n', "<br>");
    ReplaceAbsent(d, '\n', "<br>");
  }

  /** Text between backticks is shown in the theme's string colour, in a fixed-width face. */
  lemma InlineCode(color: string, text: string)
    requires Unmarked(text)
    ensures Inline.Html(color, "`" + text + "`") ==
            "<font color=\"" + color + "\" face=\"monospace\">" + Inline.Html(color, text) + "</font>"
  {
    var e := Broken(text);
    BrokenUnmarked(text);
    BrokenAround("`", text);
    hide WrapPairs, Broken;
    NothingWrapped(e, "**", "<b>", "</b>");
    NothingWrapped(e, "`", Inline.CodeTag(color), "</font>");
    NothingWrapped("`" + e + "`", "**", "<b>", "</b>");
    OneWrapped(e, "`", Inline.CodeTag(color), "</font>");
  }

  /** Text between double stars is bold. */
  lemma InlineBold(color: string, text: string)
    requires Unmarked(text)
    ensures Inline.Html(color, "**" + text + "**") == "<b>" + Inline.Html(color, text) + "</b>"
  {
    var e := Broken(text);
    BrokenUnmarked(text);
    BrokenAround("**", text);
    hide WrapPairs, Broken, Inline.CodeTag;
    NothingWrapped(e, "**", "<b>", "</b>");
    NothingWrapped(e, "`", Inline.CodeTag(color), "</font>");
    OneWrapped(e, "**", "<b>", "</b>");
    assert '`' !in "<b>" && '`' !in "</b>";
    NothingWrapped("<b>" + e + "</b>", "`", Inline.CodeTag(color), "</font>");
  }
}
