/** Steps 2 to 4 of `decorate_code_block`: twenty whole-string replacements in a row, against one
    left-to-right rewriting, and the events a reader of the resulting HTML meets. */
module CodeHtml {
  import opened Text
  import opened Theme
  import opened Highlighter

  // ----- chains of single-character replacements -----

  type Table = seq<(char, string)>

  /** The replacements of a table, first entry first. */
  function Chain(t: Table, s: string): string {
    if t == [] then s
    else ReplaceChar(Chain(t[..|t| - 1], s), t[|t| - 1].0, t[|t| - 1].1)
  }

  /** What one character becomes when all entries apply at once. */
  function Lookup(t: Table, c: char): string {
    if t == [] then [c] else if t[0].0 == c then t[0].1 else Lookup(t[1..], c)
  }

  function AtOnce(t: Table, s: string): string {
    if s == "" then "" else Lookup(t, s[0]) + AtOnce(t, s[1..])
  }

  /** No later entry rewrites what an earlier one has written. */
  ghost predicate Independent(t: Table) {
    forall i, j :: 0 <= i < j < |t| ==> t[j].0 !in t[i].1 && t[j].0 != t[i].0
  }

  lemma {:induction false} LookupAppend(t: Table, k: char, r: string, c: char)
    requires forall i :: 0 <= i < |t| ==> k !in t[i].1 && k != t[i].0
    ensures ReplaceChar(Lookup(t, c), k, r) == Lookup(t + [(k, r)], c)
  {
    if t == [] {
      assert [c][1..] == [];
      assert ReplaceChar([], k, r) == [];
      assert (t + [(k, r)])[1..] == [];
    } else {
      assert (t + [(k, r)])[1..] == t[1..] + [(k, r)];
      if t[0].0 == c {
        ReplaceAbsent(t[0].1, k, r);
      } else {
        LookupAppend(t[1..], k, r, c);
      }
    }
  }

  lemma {:induction false} AtOnceAppend(t: Table, k: char, r: string, s: string)
    requires forall i :: 0 <= i < |t| ==> k !in t[i].1 && k != t[i].0
    ensures ReplaceChar(AtOnce(t, s), k, r) == AtOnce(t + [(k, r)], s)
  {
    if s != "" {
      calc {
        ReplaceChar(AtOnce(t, s), k, r);
        { ReplaceConcat(Lookup(t, s[0]), AtOnce(t, s[1..]), k, r); }
        ReplaceChar(Lookup(t, s[0]), k, r) + ReplaceChar(AtOnce(t, s[1..]), k, r);
        { LookupAppend(t, k, r, s[0]); AtOnceAppend(t, k, r, s[1..]); }
        AtOnce(t + [(k, r)], s);
      }
    }
  }

  lemma {:induction false} AtOnceNothing(s: string)
    ensures AtOnce([], s) == s
  {
    if s != "" {
      AtOnceNothing(s[1..]);
      assert s == [s[0]] + s[1..];
    }
  }

  /** Sequential replacement equals simultaneous rewriting when the entries are independent. */
  lemma {:induction false} ChainIsAtOnce(t: Table, s: string)
    requires Independent(t)
    ensures Chain(t, s) == AtOnce(t, s)
  {
    if t == [] {
      AtOnceNothing(s);
    } else {
      var front, last := t[..|t| - 1], t[|t| - 1];
      ChainIsAtOnce(front, s);
      AtOnceAppend(front, last.0, last.1, s);
      assert front + [(last.0, last.1)] == t;
    }
  }

  // ----- the replacements of the source -----

  const SPACE2: string := "&nbsp;&nbsp;"

  /** Entities, line breaks and tabs. */
  const ENTITIES: Table := [
    ('&', "&amp;"), ('<', "&lt;"), ('>', "&gt;"), ('\n', "<br>"), ('\t', "&nbsp;&nbsp;&nbsp;&nbsp;")]

  function FontTag(color: string): string {
    "<font color=\"" + color + "\">"
  }

  function Byte(n: nat): char
    requires n < 256
  {
    n as char
  }

  /** Marker bytes and their tags. */
  function Markers(theme: Theme): Table {
    [(Byte(0x01), FontTag(theme.codeString)), (Byte(0x02), "</font>"),
     (Byte(0x03), FontTag(theme.codeComment)), (Byte(0x04), "</font>"),
     (Byte(0x05), FontTag(theme.codeKeyword)), (Byte(0x06), "</font>"),
     (Byte(0x07), FontTag("#E5C07B")), (Byte(0x08), "</font>"),
     (Byte(0x0F), FontTag("#D19A66")), (Byte(0x10), "</font>"),
     (Byte(0x11), FontTag("#98C379")), (Byte(0x12), "</font>"),
     (Byte(0x13), FontTag("#43A047")), (Byte(0x14), "</font>")]
  }

  /** Two spaces become two `&nbsp;`; a space left over stays. */
  function DoubleSpaces(s: string): string {
    if s == "" then ""
    else if |s| >= 2 && s[0] == ' ' && s[1] == ' ' then SPACE2 + DoubleSpaces(s[2..])
    else [s[0]] + DoubleSpaces(s[1..])
  }

  /** All twenty replacements, in the source's order. */
  function Formatted(theme: Theme, s: string): string {
    Chain(Markers(theme), DoubleSpaces(Chain(ENTITIES, s)))
  }

  // ----- one left-to-right rewriting -----

  /** The colour an opening marker stands for. */
  function Color(theme: Theme, marker: char): string {
    match marker as int
    case 0x01 => theme.codeString
    case 0x03 => theme.codeComment
    case 0x05 => theme.codeKeyword
    case 0x07 => "#E5C07B"
    case 0x0F => "#D19A66"
    case 0x11 => "#98C379"
    case _ => "#43A047"
  }

  function Tag(theme: Theme, marker: char): string {
    if Opener(marker) then FontTag(Color(theme, marker)) else "</font>"
  }

  function Glyph(theme: Theme, c: char): string {
    if IsMarker(c) then Tag(theme, c) else Lookup(ENTITIES, c)
  }

  function Rewritten(theme: Theme, s: string): string {
    if s == "" then ""
    else if |s| >= 2 && s[0] == ' ' && s[1] == ' ' then SPACE2 + Rewritten(theme, s[2..])
    else Glyph(theme, s[0]) + Rewritten(theme, s[1..])
  }

  /** The theme's code colours hold no marker byte, as every colour name does. */
  predicate PlainColors(theme: Theme) {
    MarkerFree(theme.codeString) && MarkerFree(theme.codeComment) && MarkerFree(theme.codeKeyword)
  }

  lemma EntitiesIndependent()
    ensures Independent(ENTITIES)
  {
  }

  lemma FontTagPlain(color: string)
    requires MarkerFree(color)
    ensures MarkerFree(FontTag(color))
  {
    assert MarkerFree("<font color=\"") && MarkerFree("\">");
  }

  lemma MarkersIndependent(theme: Theme)
    requires PlainColors(theme)
    ensures Independent(Markers(theme))
  {
    FontTagPlain(theme.codeString);
    FontTagPlain(theme.codeComment);
    FontTagPlain(theme.codeKeyword);
    FontTagPlain("#E5C07B");
    FontTagPlain("#D19A66");
    FontTagPlain("#98C379");
    FontTagPlain("#43A047");
    assert MarkerFree("</font>");
    var t := Markers(theme);
    hide FontTag;
    assert forall i :: 0 <= i < |t| ==> MarkerFree(t[i].1) && IsMarker(t[i].0);
  }

  // ----- the chain equals the rewriting -----

  /** What escaping and spacing make of the text, before markers become tags. */
  function Spaced(s: string): string {
    if s == "" then ""
    else if |s| >= 2 && s[0] == ' ' && s[1] == ' ' then SPACE2 + Spaced(s[2..])
    else Lookup(ENTITIES, s[0]) + Spaced(s[1..])
  }

  lemma EntityOf(c: char)
    ensures Lookup(ENTITIES, c) ==
            if c == '&' then "&amp;" else if c == '<' then "&lt;" else if c == '>' then "&gt;"
            else if c == '\n' then "<br>" else if c == '\t' then "&nbsp;&nbsp;&nbsp;&nbsp;" else [c]
  {
    var t := ENTITIES;
    assert t[0] == ('&', "&amp;") && t[1] == ('<', "&lt;") && t[2] == ('>', "&gt;") && t[3] == ('\n', "<br>");
    match c
    case '&' => LookupFound(t, c, 0);
    case '<' => LookupFound(t, c, 1);
    case '>' => LookupFound(t, c, 2);
    case '\n' => LookupFound(t, c, 3);
    case '\t' => LookupFound(t, c, 4);
    case _ => LookupMissing(t, c);
  }

  lemma EntityShape(c: char)
    ensures var w := Lookup(ENTITIES, c); w != "" && (c == ' ' ==> w == " ") && (c != ' ' ==> ' ' !in w)
    ensures !IsMarker(c) ==> MarkerFree(Lookup(ENTITIES, c))
    ensures IsMarker(c) ==> Lookup(ENTITIES, c) == [c]
  {
    EntityOf(c);
    hide Lookup;
  }

  lemma {:induction false} DoubleSpacesSkip(w: string, r: string)
    requires ' ' !in w
    ensures DoubleSpaces(w + r) == w + DoubleSpaces(r)
  {
    if w == "" {
      assert w + r == r;
    } else {
      assert w[0] in w;
      calc {
        DoubleSpaces(w + r);
        { assert (w + r)[1..] == w[1..] + r; }
        [w[0]] + DoubleSpaces(w[1..] + r);
        { DoubleSpacesSkip(w[1..], r); }
        [w[0]] + (w[1..] + DoubleSpaces(r));
        w + DoubleSpaces(r);
      }
    }
  }

  lemma {:induction false} SpacedIs(s: string)
    ensures DoubleSpaces(AtOnce(ENTITIES, s)) == Spaced(s)
    decreases |s|
  {
    hide Lookup;
    if s != "" {
      var w, r := Lookup(ENTITIES, s[0]), AtOnce(ENTITIES, s[1..]);
      EntityShape(s[0]);
      assert AtOnce(ENTITIES, s) == w + r;
      SpacedIs(s[1..]);
      if s[0] != ' ' {
        DoubleSpacesSkip(w, r);
      } else {
        assert (w + r)[1..] == r;
        if |s| >= 2 {
          var w', r' := Lookup(ENTITIES, s[1]), AtOnce(ENTITIES, s[2..]);
          EntityShape(s[1]);
          assert s[1..][1..] == s[2..];
          assert r == w' + r' && r[0] == w'[0] && w'[0] in w';
          if s[1] == ' ' {
            SpacedIs(s[2..]);
            assert (w + r)[2..] == r';
          }
        }
      }
    }
  }

  lemma {:induction false} AtOnceConcat(t: Table, a: string, b: string)
    ensures AtOnce(t, a + b) == AtOnce(t, a) + AtOnce(t, b)
  {
    hide Lookup;
    if a == "" {
      assert a + b == b;
    } else {
      calc {
        AtOnce(t, a + b);
        { assert (a + b)[1..] == a[1..] + b; }
        Lookup(t, a[0]) + AtOnce(t, a[1..] + b);
        { AtOnceConcat(t, a[1..], b); }
        Lookup(t, a[0]) + (AtOnce(t, a[1..]) + AtOnce(t, b));
        AtOnce(t, a) + AtOnce(t, b);
      }
    }
  }

  lemma {:induction false} LookupMissing(t: Table, c: char)
    requires forall i :: 0 <= i < |t| ==> t[i].0 != c
    ensures Lookup(t, c) == [c]
  {
    if t != [] {
      LookupMissing(t[1..], c);
    }
  }

  lemma {:induction false} LookupFound(t: Table, c: char, k: nat)
    requires k < |t| && t[k].0 == c && forall i :: 0 <= i < k ==> t[i].0 != c
    ensures Lookup(t, c) == t[k].1
  {
    if k > 0 {
      LookupFound(t[1..], c, k - 1);
    }
  }

  lemma MarkerLookup(theme: Theme, c: char)
    ensures Lookup(Markers(theme), c) == if IsMarker(c) then Tag(theme, c) else [c]
  {
    hide FontTag;
    var t := Markers(theme);
    if IsMarker(c) {
      var k := if c as int <= 8 then c as int - 1 else c as int - 7;
      assert 0 <= k < 14 && t[k].0 == c && t[k].1 == Tag(theme, c);
      LookupFound(t, c, k);
    } else {
      LookupMissing(t, c);
    }
  }

  lemma {:induction false} MarkersKeepPlain(theme: Theme, s: string)
    requires MarkerFree(s)
    ensures AtOnce(Markers(theme), s) == s
  {
    hide Lookup, Markers, Tag;
    if s != "" {
      assert s[0] in s;
      MarkerLookup(theme, s[0]);
      MarkersKeepPlain(theme, s[1..]);
      assert s == [s[0]] + s[1..];
    }
  }

  lemma MarkersGlyph(theme: Theme, c: char)
    ensures AtOnce(Markers(theme), Lookup(ENTITIES, c)) == Glyph(theme, c)
  {
    hide Lookup, Markers, Tag;
    EntityShape(c);
    if IsMarker(c) {
      MarkerLookup(theme, c);
      assert [c][1..] == "";
      assert AtOnce(Markers(theme), [c]) == Lookup(Markers(theme), c) + AtOnce(Markers(theme), "");
    } else {
      MarkersKeepPlain(theme, Lookup(ENTITIES, c));
    }
  }

  lemma {:induction false} TaggedIs(theme: Theme, s: string)
    ensures AtOnce(Markers(theme), Spaced(s)) == Rewritten(theme, s)
    decreases |s|
  {
    hide Lookup, Markers, Tag, AtOnce, Glyph;
    var t := Markers(theme);
    if s == "" {
      MarkersKeepPlain(theme, "");
    } else if |s| >= 2 && s[0] == ' ' && s[1] == ' ' {
      assert MarkerFree(SPACE2);
      MarkersKeepPlain(theme, SPACE2);
      AtOnceConcat(t, SPACE2, Spaced(s[2..]));
      TaggedIs(theme, s[2..]);
    } else {
      MarkersGlyph(theme, s[0]);
      AtOnceConcat(t, Lookup(ENTITIES, s[0]), Spaced(s[1..]));
      TaggedIs(theme, s[1..]);
    }
  }

  /** The twenty replacements are one left-to-right rewriting, for every text and every theme
      whose colours hold no marker byte. */
  lemma FormattedIsRewritten(theme: Theme, s: string)
    requires PlainColors(theme)
    ensures Formatted(theme, s) == Rewritten(theme, s)
  {
    EntitiesIndependent();
    MarkersIndependent(theme);
    ChainIsAtOnce(ENTITIES, s);
    ChainIsAtOnce(Markers(theme), Spaced(s));
    SpacedIs(s);
    TaggedIs(theme, s);
  }

  // ----- no blank is lost -----

  /** No two blanks stand side by side, which a browser would show as one. */
  predicate Spread(h: string) {
    forall i :: 0 < i < |h| ==> h[i - 1] != ' ' || h[i] != ' '
  }

  lemma SpreadConcat(a: string, b: string)
    requires Spread(a) && Spread(b)
    requires a != "" && b != "" ==> a[|a| - 1] != ' ' || b[0] != ' '
    ensures Spread(a + b)
  {
    var h := a + b;
    forall i | 0 < i < |h|
      ensures h[i - 1] != ' ' || h[i] != ' '
    {
      if i == |a| {
        assert h[i - 1] == a[i - 1] && h[i] == b[0];
      } else if i > |a| {
        assert h[i - 1] == b[i - 1 - |a|] && h[i] == b[i - |a|];
      }
    }
  }

  predicate SpreadColors(theme: Theme) {
    Spread(theme.codeString) && Spread(theme.codeComment) && Spread(theme.codeKeyword)
  }

  lemma FontTagSpread(color: string)
    requires Spread(color)
    ensures Spread(FontTag(color)) && FontTag(color)[0] == '<' && FontTag(color)[|FontTag(color)| - 1] == '>'
  {
    var front, back := "<font color=\"", "\">";
    SpreadConcat(front, color);
    SpreadConcat(front + color, back);
  }

  lemma GlyphSpread(theme: Theme, c: char)
    requires SpreadColors(theme)
    ensures var w := Glyph(theme, c);
            w != "" && Spread(w) && (if c == ' ' then w == " " else w[0] != ' ' && w[|w| - 1] != ' ')
  {
    if Opener(c) {
      FontTagSpread(Color(theme, c));
      hide FontTag;
    } else {
      EntityOf(c);
      hide Lookup, FontTag;
    }
  }

  lemma {:induction false} RewrittenSpread(theme: Theme, s: string)
    requires SpreadColors(theme)
    ensures var h := Rewritten(theme, s);
            && Spread(h) && (s != "" <==> h != "")
            && (s != "" && (s[0] != ' ' || (|s| > 1 && s[1] == ' ')) ==> h[0] != ' ')
    decreases |s|
  {
    hide Glyph, SpreadColors;
    if s == "" {
    } else if |s| >= 2 && s[0] == ' ' && s[1] == ' ' {
      RewrittenSpread(theme, s[2..]);
      assert SPACE2[|SPACE2| - 1] == ';' && SPACE2[0] == '&' && Spread(SPACE2);
      SpreadConcat(SPACE2, Rewritten(theme, s[2..]));
    } else {
      GlyphSpread(theme, s[0]);
      RewrittenSpread(theme, s[1..]);
      SpreadConcat(Glyph(theme, s[0]), Rewritten(theme, s[1..]));
    }
  }

  /** The rendered code holds no two blanks side by side, so blanks at the start of a line and runs of
      blanks show with the width that they have in the code. */
  lemma NoBlankMerged(theme: Theme, s: string)
    requires PlainColors(theme) && SpreadColors(theme)
    ensures Spread(Formatted(theme, s))
  {
    hide Formatted, Rewritten, Spread, PlainColors;
    FormattedIsRewritten(theme, s);
    RewrittenSpread(theme, s);
  }

  // ----- what the reader sees -----

  datatype Event = Seen(c: char) | FontOpen | FontClose

  /** The length of a tag: up to and with the first `>`. */
  function TagLength(h: string): (n: nat)
    ensures n <= |h|
    ensures h != "" ==> n > 0
  {
    if h == "" then 0 else if h[0] == '>' then 1 else 1 + TagLength(h[1..])
  }

  /** Reads HTML text: characters and entities are seen, `<br>` is a line break, other tags
      open or close a font. */
  function Scan(h: string): seq<Event>
    decreases |h|
  {
    if h == "" then []
    else if "<br>" <= h then [Seen('\n')] + Scan(h[4..])
    else if "</font>" <= h then [FontClose] + Scan(h[7..])
    else if h[0] == '<' then [FontOpen] + Scan(h[TagLength(h)..])
    else if "&amp;" <= h then [Seen('&')] + Scan(h[5..])
    else if "&lt;" <= h then [Seen('<')] + Scan(h[4..])
    else if "&gt;" <= h then [Seen('>')] + Scan(h[4..])
    else if "&nbsp;" <= h then [Seen(' ')] + Scan(h[6..])
    else [Seen(h[0])] + Scan(h[1..])
  }

  /** What should be seen of one character of the marked text: a tab is four spaces. */
  function CharEvents(c: char): seq<Event> {
    if c == '\t' then [Seen(' '), Seen(' '), Seen(' '), Seen(' ')]
    else if Opener(c) then [FontOpen]
    else if Closer(c) then [FontClose]
    else [Seen(c)]
  }

  function Events(s: string): seq<Event> {
    if s == "" then [] else CharEvents(s[0]) + Events(s[1..])
  }

  predicate ColorsHaveNoTagEnd(theme: Theme) {
    '>' !in theme.codeString && '>' !in theme.codeComment && '>' !in theme.codeKeyword
  }

  lemma {:induction false} TagLengthOf(w: string, r: string)
    requires '>' !in w
    ensures TagLength(w + ">" + r) == |w| + 1
  {
    if w == "" {
      assert (w + ">" + r)[0] == '>';
    } else {
      assert w[0] in w;
      assert (w + ">" + r)[1..] == w[1..] + ">" + r;
      TagLengthOf(w[1..], r);
    }
  }

  lemma ScanFontTag(color: string, r: string)
    requires '>' !in color
    ensures Scan(FontTag(color) + r) == [FontOpen] + Scan(r)
  {
    var w := "<font color=\"" + color + "\"";
    var h := FontTag(color) + r;
    assert '>' !in "<font color=\"" && '>' !in "\"";
    assert FontTag(color) == w + ">" && h == w + ">" + r;
    TagLengthOf(w, r);
    assert h[0] == '<' && h[1] == 'f';
    assert h[|w| + 1..] == r;
  }

  lemma ScanNbsp(r: string)
    ensures Scan("&nbsp;" + r) == [Seen(' ')] + Scan(r)
  {
    var h := "&nbsp;" + r;
    assert h[0] == '&' && h[1] == 'n' && h[6..] == r;
  }

  lemma ScanNbsp2(r: string)
    ensures Scan(SPACE2 + r) == [Seen(' '), Seen(' ')] + Scan(r)
  {
    hide Scan;
    ScanNbsp(r);
    ScanNbsp("&nbsp;" + r);
    assert SPACE2 + r == "&nbsp;" + ("&nbsp;" + r);
  }

  lemma ScanTab(r: string)
    ensures Scan("&nbsp;&nbsp;&nbsp;&nbsp;" + r) == CharEvents('\t') + Scan(r)
  {
    hide Scan;
    ScanNbsp2(r);
    ScanNbsp2(SPACE2 + r);
    assert "&nbsp;&nbsp;&nbsp;&nbsp;" + r == SPACE2 + (SPACE2 + r);
  }

  /** Each glyph is read back as what it stands for. */
  lemma ScanGlyph(theme: Theme, c: char, r: string)
    requires ColorsHaveNoTagEnd(theme)
    ensures Scan(Glyph(theme, c) + r) == CharEvents(c) + Scan(r)
  {
    EntityOf(c);
    hide Lookup;
    if Opener(c) {
      assert '>' !in Color(theme, c);
      hide Scan, FontTag, Color;
      ScanFontTag(Color(theme, c), r);
    } else if c == '\t' {
      hide Scan;
      ScanTab(r);
    } else {
      ScanSimple(theme, c, r);
    }
  }

  lemma ScanSimple(theme: Theme, c: char, r: string)
    requires !Opener(c) && c != '\t'
    ensures Scan(Glyph(theme, c) + r) == CharEvents(c) + Scan(r)
  {
    EntityOf(c);
    hide Lookup, FontTag;
    var w := Glyph(theme, c);
    var h := w + r;
    assert h[|w|..] == r && w <= h && h[0] == w[0];
    assert |w| > 1 ==> h[1] == w[1];
    if Closer(c) {
      assert w == "</font>";
    } else if c == '\n' {
    } else if c == '&' || c == '<' || c == '>' {
      assert h[0] == '&';
    } else {
      assert w == [c];
    }
  }

  /** A longer string colour shows exactly where strings are marked. */
  lemma {:induction false} LongerColor(t: Theme, u: Theme, s: string)
    requires u == t.(codeString := u.codeString) && |u.codeString| > |t.codeString|
    ensures |Rewritten(u, s)| >= |Rewritten(t, s)|
    ensures Rewritten(u, s) == Rewritten(t, s) <==> Byte(0x01) !in s
    ensures Byte(0x01) in s ==> |Rewritten(u, s)| > |Rewritten(t, s)|
    decreases |s|
  {
    if s == "" {
    } else if |s| >= 2 && s[0] == ' ' && s[1] == ' ' {
      LongerColor(t, u, s[2..]);
      assert Byte(0x01) in s <==> Byte(0x01) in s[2..];
    } else {
      LongerGlyph(t, u, s[0]);
      LongerColor(t, u, s[1..]);
      assert Byte(0x01) in s <==> s[0] == Byte(0x01) || Byte(0x01) in s[1..];
      hide Glyph;
    }
  }

  lemma LongerGlyph(t: Theme, u: Theme, c: char)
    requires u == t.(codeString := u.codeString) && |u.codeString| > |t.codeString|
    ensures if c == Byte(0x01) then |Glyph(u, c)| > |Glyph(t, c)| else Glyph(u, c) == Glyph(t, c)
  {
  }

  /** The displayed HTML is read as the marked text: tabs as four spaces, markers as font tags. */
  lemma {:induction false} ScanRewritten(theme: Theme, s: string)
    requires ColorsHaveNoTagEnd(theme)
    ensures Scan(Rewritten(theme, s)) == Events(s)
    decreases |s|
  {
    hide Scan, Glyph, CharEvents;
    if s == "" {
      ScanNothing();
    } else if |s| >= 2 && s[0] == ' ' && s[1] == ' ' {
      ScanNbsp2(Rewritten(theme, s[2..]));
      ScanRewritten(theme, s[2..]);
      TwoSpaces(s);
    } else {
      ScanGlyph(theme, s[0], Rewritten(theme, s[1..]));
      ScanRewritten(theme, s[1..]);
    }
  }

  lemma ScanNothing()
    ensures Scan("") == []
  {
  }

  lemma TwoSpaces(s: string)
    requires |s| >= 2 && s[0] == ' ' && s[1] == ' '
    ensures Events(s) == [Seen(' '), Seen(' ')] + Events(s[2..])
  {
    assert s[1..][1..] == s[2..];
  }

  function SeenText(e: seq<Event>): string {
    if e == [] then "" else (if e[0].Seen? then [e[0].c] else "") + SeenText(e[1..])
  }

  function ExpandTabs(s: string): string {
    if s == "" then "" else (if s[0] == '\t' then "    " else [s[0]]) + ExpandTabs(s[1..])
  }

  lemma {:induction false} SeenConcat(a: seq<Event>, b: seq<Event>)
    ensures SeenText(a + b) == SeenText(a) + SeenText(b)
  {
    if a == [] {
      assert a + b == b;
    } else {
      var head := if a[0].Seen? then [a[0].c] else "";
      calc {
        SeenText(a + b);
        { assert (a + b)[1..] == a[1..] + b; }
        head + SeenText(a[1..] + b);
        { SeenConcat(a[1..], b); }
        head + (SeenText(a[1..]) + SeenText(b));
        SeenText(a) + SeenText(b);
      }
    }
  }

  lemma SeenOfChar(c: char)
    ensures SeenText(CharEvents(c)) == if c == '\t' then "    " else if IsMarker(c) then "" else [c]
  {
    if c == '\t' {
      var one := [Seen(' ')];
      assert one[1..] == [] && SeenText(one) == " ";
      SeenConcat(one, one);
      SeenConcat(one + one, one + one);
      assert CharEvents(c) == (one + one) + (one + one);
      assert SeenText(CharEvents(c)) == (" " + " ") + (" " + " ") == "    ";
    } else {
      assert CharEvents(c)[1..] == [];
    }
  }

  lemma {:induction false} SeenOfEvents(s: string)
    ensures SeenText(Events(s)) == ExpandTabs(EraseMarkers(s))
  {
    SeenNothing();
    hide SeenText, CharEvents;
    if s != "" {
      var c, rest := s[0], EraseMarkers(s[1..]);
      SeenConcat(CharEvents(c), Events(s[1..]));
      SeenOfChar(c);
      SeenOfEvents(s[1..]);
      if IsMarker(c) {
        assert EraseMarkers(s) == rest;
      } else {
        assert EraseMarkers(s) == [c] + rest && ([c] + rest)[1..] == rest;
      }
    }
  }

  lemma SeenNothing()
    ensures SeenText([]) == ""
  {
  }

  /** Font tags alternate: none is opened inside another, and all are closed. */
  predicate FontsAlternate(e: seq<Event>, inside: bool) {
    if e == [] then !inside
    else match e[0]
      case FontOpen => !inside && FontsAlternate(e[1..], true)
      case FontClose => inside && FontsAlternate(e[1..], false)
      case Seen(_) => FontsAlternate(e[1..], inside)
  }

  lemma {:induction false} SeenKeepAlternation(a: seq<Event>, b: seq<Event>, inside: bool)
    requires forall x :: x in a ==> x.Seen?
    ensures FontsAlternate(a + b, inside) == FontsAlternate(b, inside)
  {
    if a == [] {
      assert a + b == b;
    } else {
      assert a[0] in a && (a + b)[1..] == a[1..] + b;
      SeenKeepAlternation(a[1..], b, inside);
    }
  }

  /** Paired markers become alternating font tags. */
  lemma {:induction false} PairedAlternates(s: string, open: Option<char>)
    requires Reads(s, open) == Some(None)
    ensures FontsAlternate(Events(s), open.Some?)
  {
    if s != "" {
      var rest := Events(s[1..]);
      if Opener(s[0]) {
        PairedAlternates(s[1..], Some(s[0]));
        assert ([FontOpen] + rest)[1..] == rest;
      } else if Closer(s[0]) {
        PairedAlternates(s[1..], None);
        assert ([FontClose] + rest)[1..] == rest;
      } else {
        PairedAlternates(s[1..], open);
        SeenKeepAlternation(CharEvents(s[0]), rest, open.Some?);
      }
    }
  }
}
