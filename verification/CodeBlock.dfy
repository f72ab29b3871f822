/** A rendered code block: highlighting, formatting and the copy and download links. */
module CodeBlock {
  import opened Text
  import opened Theme
  import opened Highlighter
  import opened CodeHtml
  import Hex

  /** A grammar's rules, or none for an unknown language. */
  type Grammar = Option<seq<Rule>>

  ghost predicate SoundGrammar(g: Grammar) {
    g.Some? ==> Sound(g.value)
  }

  /** The code without carriage returns, which is what gets highlighted. */
  function Source(code: string): string {
    ReplaceChar(code, '\r', "")
  }

  /** What that is: carriage returns are gone, every other character stays where it stands. */
  lemma {:induction false} SourceIs(a: string, b: string)
    ensures '\r' !in Source(a)
    ensures '\r' !in a ==> Source(a) == a
    ensures Source(a + "\r" + b) == Source(a) + Source(b)
  {
    if a == "" {
      assert a + "\r" + b == "\r" + b && ("\r" + b)[1..] == b;
    } else {
      SourceIs(a[1..], b);
      assert (a + "\r" + b)[1..] == a[1..] + "\r" + b;
      assert a == [a[0]] + a[1..];
      assert '\r' !in a ==> a[0] in a && '\r' !in a[1..];
    }
  }

  function Marked(g: Grammar, code: string): string
    requires SoundGrammar(g)
  {
    if g.None? then Source(code) else Highlight(g.value, Source(code), 0)
  }

  /** One of the two links, with its icon. */
  function Link(action: string, hex: string, title: string, icon: string): string {
    OpenTag("a", " href=\"malama://" + action + ":" + hex + "\" title=\"" + title + "\"")
    + OpenTag("font", " size=\"-1\"") + icon + CloseTag("font") + CloseTag("a")
  }

  function Actions(hex: string): string {
    OpenTag("div", " align=\"right\"")
    + (Link("copy_code", hex, "Copy", "&#x1F4CB;")
       + ("&nbsp;&nbsp;" + Link("download_code", hex, "Download", "&#x1F4E5;")))
    + CloseTag("div")
  }

  /** The table around the formatted code. */
  function Frame(theme: Theme, body: string, actions: string): string {
    "<br>"
    + (OpenTag("table", " width=\"100%\" bgcolor=\"" + theme.codeBg + "\" cellpadding=\"10\"")
       + (OpenTag("tr", "")
          + (OpenTag("td", " valign=\"top\"")
             + (OpenTag("font", " color=\"" + theme.textPrimary + "\" face=\"monospace\"") + body + CloseTag("font")
                + actions)
             + CloseTag("td"))
          + CloseTag("tr"))
       + CloseTag("table"))
    + "<br>"
  }

  /** The uncached value of `decorate_code_block`. */
  function Html(theme: Theme, g: Grammar, code: string): string
    requires SoundGrammar(g)
  {
    Frame(theme, Formatted(theme, Marked(g, code)), Actions(Hex.Encode(code)))
  }

  /** What a reader sees of the code. */
  function Shown(theme: Theme, g: Grammar, code: string): string
    requires SoundGrammar(g)
  {
    SeenText(Scan(Formatted(theme, Marked(g, code))))
  }

  predicate UsableColors(theme: Theme) {
    PlainColors(theme) && ColorsHaveNoTagEnd(theme)
  }

  // ----- the straight line of replacements, as the source runs it -----

  /** Escaping, white space and marker tags: the text is reassigned by one replacement after another. */
  method Format(theme: Theme, marked: string) returns (processed: string)
    ensures processed == Formatted(theme, marked)
  {
    processed := Replacements(ENTITIES, marked);
    processed := DoubleSpaces(processed);
    processed := Replacements(Markers(theme), processed);
  }

  /** `processed = regex_replace(processed, pattern, tag)` for each entry in turn. */
  method Replacements(t: Table, s: string) returns (processed: string)
    ensures processed == Chain(t, s)
  {
    processed := s;
    for i := 0 to |t|
      invariant processed == Chain(t[..i], s)
    {
      assert t[..i + 1][..i] == t[..i];
      processed := ReplaceChar(processed, t[i].0, t[i].1);
    }
    assert t[..|t|] == t;
  }

  /** The body of `decorate_code_block` on a cache miss. */
  method Render(theme: Theme, g: Grammar, code: string) returns (html: string)
    requires SoundGrammar(g)
    ensures html == Html(theme, g, code)
  {
    var processed := ReplaceChar(code, '\r', "");
    if g.Some? {
      processed := Run(g.value, processed);
    }
    processed := Format(theme, processed);
    var hex := Hex.EncodePayload(code);
    html := Frame(theme, processed, Actions(hex));
  }

  // ----- what is shown -----

  lemma ShownIs(theme: Theme, g: Grammar, code: string)
    requires SoundGrammar(g) && UsableColors(theme)
    ensures Shown(theme, g, code) == ExpandTabs(EraseMarkers(Marked(g, code)))
  {
    var marked := Marked(g, code);
    FormattedIsRewritten(theme, marked);
    ScanRewritten(theme, marked);
    SeenOfEvents(marked);
  }

  /** A longer string colour changes the rendered block exactly when a string is highlighted in it. */
  lemma ColorShows(t: Theme, u: Theme, g: Grammar, code: string)
    requires SoundGrammar(g) && PlainColors(t) && PlainColors(u)
    requires u == t.(codeString := u.codeString) && |u.codeString| > |t.codeString|
    ensures Html(t, g, code) == Html(u, g, code) <==> CodeHtml.Byte(0x01) !in Marked(g, code)
  {
    hide Formatted, Rewritten, Frame, Actions, Marked, PlainColors;
    var marked := Marked(g, code);
    FormattedIsRewritten(t, marked);
    FormattedIsRewritten(u, marked);
    LongerColor(t, u, marked);
    FrameLength(t, u, Formatted(t, marked), Formatted(u, marked), Actions(Hex.Encode(code)));
  }

  lemma FrameLength(t: Theme, u: Theme, a: string, b: string, actions: string)
    requires u == t.(codeString := u.codeString)
    ensures a == b ==> Frame(t, a, actions) == Frame(u, b, actions)
    ensures |a| != |b| ==> Frame(t, a, actions) != Frame(u, b, actions)
  {
    assert |Frame(t, a, actions)| - |a| == |Frame(u, b, actions)| - |b|;
  }

  lemma {:induction false} ExpandWhole(a: string, b: string)
    requires Subsequence(a, b)
    ensures |ExpandTabs(a)| <= |ExpandTabs(b)|
    ensures |ExpandTabs(a)| == |ExpandTabs(b)| ==> a == b
  {
    if a == "" {
    } else if a[0] == b[0] && Subsequence(a[1..], b[1..]) {
      ExpandWhole(a[1..], b[1..]);
    } else {
      ExpandWhole(a, b[1..]);
    }
  }

  lemma {:induction false} EraseIsSubsequence(s: string)
    ensures Subsequence(EraseMarkers(s), s)
    ensures EraseMarkers(s) == s <==> MarkerFree(s)
  {
    if s != "" {
      var r := EraseMarkers(s[1..]);
      EraseIsSubsequence(s[1..]);
      SubsequenceWhole(r, s[1..]);
      MarkerFreeCons(s[0], s[1..]);
      assert s == [s[0]] + s[1..];
      if IsMarker(s[0]) {
        assert EraseMarkers(s) == r;
      } else {
        assert ([s[0]] + r)[1..] == r;
      }
    }
  }

  lemma MarkerFreeCons(c: char, r: string)
    ensures MarkerFree([c] + r) <==> !IsMarker(c) && MarkerFree(r)
  {
    if MarkerFree([c] + r) {
      assert c in [c] + r;
      assert forall x :: x in r ==> x in [c] + r;
    }
  }

  lemma {:induction false} SourceMarkers(code: string)
    ensures MarkerFree(Source(code)) <==> MarkerFree(code)
  {
    if code != "" {
      SourceMarkers(code[1..]);
      MarkerFreeCons(code[0], code[1..]);
      MarkerFreeCons(code[0], Source(code[1..]));
      assert code == [code[0]] + code[1..];
    }
  }

  /** Without a grammar the reader sees exactly the code, less carriage returns and with tabs as
      four spaces, if and only if the code holds none of the marker bytes. */
  lemma PlainCodeShown(theme: Theme, code: string)
    requires UsableColors(theme)
    ensures Shown(theme, None, code) == ExpandTabs(Source(code)) <==> MarkerFree(code)
  {
    var s := Source(code);
    ShownIs(theme, None, code);
    EraseIsSubsequence(s);
    ExpandWhole(EraseMarkers(s), s);
    SourceMarkers(code);
  }

  function Expanded(): string -> string {
    s => ExpandTabs(s)
  }

  lemma {:induction false} ExpandConcat(a: string, b: string)
    ensures ExpandTabs(a + b) == ExpandTabs(a) + ExpandTabs(b)
  {
    if a == "" {
      assert a + b == b;
    } else {
      assert (a + b)[1..] == a[1..] + b;
      ExpandConcat(a[1..], b);
      Regroup(if a[0] == '\t' then "    " else [a[0]], ExpandTabs(a[1..]), ExpandTabs(b));
    }
  }

  lemma ExpandedPiecewise()
    ensures Piecewise(Expanded())
  {
    forall a, b
      ensures Expanded()(a + b) == Expanded()(a) + Expanded()(b)
    {
      ExpandConcat(a, b);
    }
  }

  /** Exactly when highlighted code is shown whole: every chosen match goes on behind itself, and
      what its format shows looks like what it has matched. */
  lemma HighlightedCodeShown(theme: Theme, rules: seq<Rule>, code: string)
    requires UsableColors(theme) && Sound(rules) && MarkerFree(code) && Modest(Expanded(), rules, Source(code), 0)
    ensures Shown(theme, Some(rules), code) == ExpandTabs(Source(code)) <==> Kept(Expanded(), rules, Source(code), 0)
  {
    var s := Source(code);
    SourceMarkers(code);
    ShownIs(theme, Some(rules), code);
    ExpandedPiecewise();
    KeptIff(Expanded(), rules, s, 0);
    assert s[0..] == s;
  }

  /** If the formats of the chosen matches show all they match, that is when nothing is skipped. */
  lemma HonestCodeShown(theme: Theme, rules: seq<Rule>, code: string)
    requires UsableColors(theme) && Sound(rules) && MarkerFree(code) && Honest(rules, Source(code), 0)
    ensures Shown(theme, Some(rules), code) == ExpandTabs(Source(code)) <==> Skipped(rules, Source(code), 0) == 0
  {
    HonestKept(Expanded(), rules, Source(code), 0);
    HighlightedCodeShown(theme, rules, code);
  }

  /** What the built-in rules for a call make of a name: it is kept, and the white space between it
      and the bracket is not. */
  predicate CallHit(h: Hit, name: string, blank: string) {
    h.start == 0 && h.final == |name| + |blank| && EraseMarkers(h.shown) == name
  }

  /** So a call written with white space in front of its bracket is not shown whole. */
  lemma DroppedBlank(theme: Theme, rules: seq<Rule>, code: string, r: nat, name: string, blank: string, rest: string)
    requires UsableColors(theme) && Sound(rules) && MarkerFree(code) && Modest(Expanded(), rules, Source(code), 0)
    requires Source(code) == name + blank + rest && name != "" && blank != ""
    requires Choose(rules, Source(code), 0, |rules|) == Some(r)
    requires CallHit(rules[r](Source(code), 0).value, name, blank)
    ensures Shown(theme, Some(rules), code) != ExpandTabs(Source(code))
  {
    HighlightedCodeShown(theme, rules, code);
    CallNotKept(rules, Source(code), r, name, blank, rest);
  }

  lemma CallNotKept(rules: seq<Rule>, s: string, r: nat, name: string, blank: string, rest: string)
    requires Sound(rules) && s == name + blank + rest && name != "" && blank != ""
    requires Choose(rules, s, 0, |rules|) == Some(r) && CallHit(rules[r](s, 0).value, name, blank)
    ensures !Kept(Expanded(), rules, s, 0)
  {
    hide EraseMarkers, Choose;
    assert SoundAt(rules[r], s, 0);
    assert s[0..|name| + |blank|] == name + blank;
    ExpandConcat(name, blank);
    assert ExpandTabs(blank) != "";
  }

  /** Code in the built-in HTML grammar is shown as nothing at all. */
  lemma HtmlCodeShownAsNothing(theme: Theme, rules: seq<Rule>, code: string)
    requires UsableColors(theme) && Sound(rules) && rules != [] && rules[0] == EmptyGroupRule()
    ensures Shown(theme, Some(rules), code) == ""
  {
    ShownIs(theme, Some(rules), code);
    HtmlGrammarShowsNothing(rules, Source(code));
  }

  /** Font tags of the shown code alternate when every format pairs its own markers. */
  lemma FontTagsBalanced(theme: Theme, rules: seq<Rule>, code: string)
    requires UsableColors(theme) && Sound(rules) && MarkerFree(code)
    requires forall r: nat, p: nat :: r < |rules| && p <= |Source(code)| && rules[r](Source(code), p).Some? ==>
               Paired(rules[r](Source(code), p).value.shown)
    ensures FontsAlternate(Scan(Formatted(theme, Marked(Some(rules), code))), false)
  {
    var marked := Marked(Some(rules), code);
    SourceMarkers(code);
    HighlightPaired(rules, Source(code), 0);
    FormattedIsRewritten(theme, marked);
    ScanRewritten(theme, marked);
    PairedAlternates(marked, None);
  }
}
