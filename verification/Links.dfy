/** What the copy and download links of a rendered code block carry, read off the block's HTML. */
module Links {
  import opened Text
  import opened Theme
  import opened CodeBlock
  import C = CodeHtml
  import Fnv
  import Hex

  /** How the link of an action begins. */
  function Anchor(action: string): string {
    "<a href=\"malama://" + action + ":"
  }

  predicate IsAction(action: string) {
    action == "copy_code" || action == "download_code"
  }

  /** What stands behind the beginning of an action's first link, up to the next quotation mark. */
  function Payload(html: string, action: string): Option<string> {
    match Cut(html, Anchor(action))
    case Absent => None
    case Around(_, rest) =>
      match Cut(rest, "\"")
      case Absent => None
      case Around(payload, _) => Some(payload)
  }

  /** The colours of the theme hold no quotation mark. */
  predicate Unquoted(theme: Theme) {
    && '"' !in theme.codeString && '"' !in theme.codeComment && '"' !in theme.codeKeyword
    && '"' !in theme.codeBg && '"' !in theme.textPrimary
  }

  // ----- where no link begins -----

  /** `w` from `i` on is not, and does not go on as, the text `d`. */
  ghost predicate Differs(w: string, i: nat, d: string) {
    exists k: nat :: Mismatch(w, i, d, k)
  }

  predicate Mismatch(w: string, i: nat, d: string, k: nat) {
    k < |d| && i + k < |w| && w[i + k] != d[k]
  }

  /** At none of its brackets does `w` begin like `d`, whatever comes behind it. */
  ghost predicate Without(w: string, d: string) {
    forall i: nat :: i < |w| && w[i] == '<' ==> Differs(w, i, d)
  }

  lemma WithoutConcat(a: string, b: string, d: string)
    requires Without(a, d) && Without(b, d)
    ensures Without(a + b, d)
  {
    var w := a + b;
    forall i: nat | i < |w| && w[i] == '<'
      ensures Differs(w, i, d)
    {
      if i < |a| {
        assert Differs(a, i, d);
        var k: nat :| Mismatch(a, i, d, k);
        assert Mismatch(w, i, d, k);
      } else {
        assert b[i - |a|] == '<' && Differs(b, i - |a|, d);
        var k: nat :| Mismatch(b, i - |a|, d, k);
        assert Mismatch(w, i, d, k);
      }
    }
  }

  lemma AnchorShape(action: string)
    requires IsAction(action)
    ensures var d := Anchor(action);
            && |d| > 19 && d[0] == '<' && d[1] == 'a' && d[8] == '"' && d[9] == 'm'
            && (forall k :: 0 <= k < |d| && d[k] == '"' ==> k == 8)
            && d[18] == (if action == "copy_code" then 'c' else 'd')
  {
    var front := "<a href=\"malama://";
    assert |front| == 18;
    assert forall k :: 0 <= k < 18 && front[k] == '"' ==> k == 8;
    assert '"' !in "copy_code" && '"' !in "download_code";
    assert "copy_code"[0] == 'c' && "download_code"[0] == 'd';
  }

  lemma OneBracket(action: string)
    requires IsAction(action)
    ensures forall k :: 0 <= k < |Anchor(action)| && Anchor(action)[k] == '<' ==> k == 0
  {
    var front := "<a href=\"malama://";
    assert forall k :: 0 <= k < |front| && front[k] == '<' ==> k == 0;
    assert '<' !in "copy_code" && '<' !in "download_code";
  }

  /** A text whose only bracket is followed by something else than an `a`. */
  lemma WithoutBracket(w: string, d: string)
    requires |d| > 1 && d[1] == 'a'
    requires forall i :: 0 <= i < |w| && w[i] == '<' ==> i + 1 < |w| && w[i + 1] != 'a'
    ensures Without(w, d)
  {
    forall i: nat | i < |w| && w[i] == '<'
      ensures Differs(w, i, d)
    {
      assert Mismatch(w, i, d, 1);
    }
  }

  /** A tag with a quoted colour: in the colour no link can begin, since the first quotation mark behind it
      is not followed by a link's address. */
  lemma WithoutQuoted(front: string, color: string, back: string, action: string)
    requires IsAction(action) && '"' !in color && '<' !in back && |back| > 1 && back[0] == '"' && back[1] != 'm'
    requires forall i :: 0 <= i < |front| && front[i] == '<' ==> i + 1 < |front| && front[i + 1] != 'a'
    ensures Without(front + color + back, Anchor(action))
  {
    var w, d := front + color + back, Anchor(action);
    AnchorShape(action);
    hide Anchor;
    var quote := |front| + |color|;
    assert w[quote] == '"' && w[quote + 1] == back[1];
    forall i: nat | i < |w| && w[i] == '<'
      ensures Differs(w, i, d)
    {
      if i < |front| {
        assert Mismatch(w, i, d, 1);
      } else {
        assert i < quote;
        var t := quote - i;
        if t < 8 {
          assert Mismatch(w, i, d, t);
        } else if t == 8 {
          assert Mismatch(w, i, d, 9);
        } else {
          assert w[i + 8] == color[i + 8 - |front|];
          assert Mismatch(w, i, d, 8);
        }
      }
    }
  }

  lemma FontWithout(color: string, action: string)
    requires IsAction(action) && '"' !in color
    ensures Without(C.FontTag(color), Anchor(action))
  {
    WithoutQuoted("<font color=\"", color, "\">", action);
  }

  /** The text in front of the markers' replacement: its only brackets are those of line breaks. */
  lemma {:induction false} SpacedWithout(s: string, action: string)
    requires IsAction(action)
    ensures Without(C.Spaced(s), Anchor(action))
    decreases |s|
  {
    hide Without, C.Lookup;
    if s == "" {
      NoBracket("", action);
    } else if |s| >= 2 && s[0] == ' ' && s[1] == ' ' {
      NoBracket(C.SPACE2, action);
      SpacedWithout(s[2..], action);
      WithoutConcat(C.SPACE2, C.Spaced(s[2..]), Anchor(action));
    } else {
      EntityWithout(s[0], action);
      SpacedWithout(s[1..], action);
      WithoutConcat(C.Lookup(C.ENTITIES, s[0]), C.Spaced(s[1..]), Anchor(action));
    }
  }

  lemma NoBracket(w: string, action: string)
    requires '<' !in w
    ensures Without(w, Anchor(action))
  {
  }

  lemma EntityWithout(c: char, action: string)
    requires IsAction(action)
    ensures Without(C.Lookup(C.ENTITIES, c), Anchor(action))
  {
    C.EntityOf(c);
    AnchorShape(action);
    hide Anchor, Without, C.Lookup;
    WithoutBracket(C.Lookup(C.ENTITIES, c), Anchor(action));
  }

  /** A mismatch with `d` from `o` on stays one when a character becomes a tag: at the latest the tag's
      bracket differs. */
  lemma {:induction false} MismatchStays(s: string, m: char, r: string, d: string, o: nat, k: nat) returns (j: nat)
    requires k < |s| && 0 < o && o + k < |d| && s[k] != d[o + k]
    requires r != "" && r[0] == '<' && forall i :: 0 < i < |d| ==> d[i] != '<'
    ensures j < |ReplaceChar(s, m, r)| && o + j < |d| && ReplaceChar(s, m, r)[j] != d[o + j]
  {
    j := 0;
    if s[0] != m && k > 0 {
      var i := MismatchStays(s[1..], m, r, d, o + 1, k - 1);
      j := i + 1;
      assert ReplaceChar(s, m, r) == [s[0]] + ReplaceChar(s[1..], m, r);
    }
  }

  lemma {:induction false} ReplaceWithout(s: string, m: char, r: string, d: string)
    requires Without(s, d) && Without(r, d) && r != "" && r[0] == '<' && m != '<'
    requires d != "" && d[0] == '<' && forall i :: 0 < i < |d| ==> d[i] != '<'
    ensures Without(ReplaceChar(s, m, r), d)
  {
    if s != "" {
      var head, tail := if s[0] == m then r else [s[0]], ReplaceChar(s[1..], m, r);
      WithoutTail(s, d);
      ReplaceWithout(s[1..], m, r, d);
      if s[0] != '<' {
        assert s[0] != m ==> Without(head, d);
        WithoutConcat(head, tail, d);
      } else {
        assert Differs(s, 0, d);
        var k: nat :| Mismatch(s, 0, d, k);
        var j := MismatchStays(s[1..], m, r, d, 1, k - 1);
        assert Mismatch(head + tail, 0, d, j + 1);
        BracketFirst(tail, d);
      }
    }
  }

  lemma WithoutTail(s: string, d: string)
    requires Without(s, d) && s != ""
    ensures Without(s[1..], d)
  {
    forall i: nat | i < |s[1..]| && s[1..][i] == '<'
      ensures Differs(s[1..], i, d)
    {
      assert Differs(s, i + 1, d);
      var k: nat :| Mismatch(s, i + 1, d, k);
      assert Mismatch(s[1..], i, d, k);
    }
  }

  lemma BracketFirst(tail: string, d: string)
    requires Without(tail, d) && Differs("<" + tail, 0, d)
    ensures Without("<" + tail, d)
  {
    var w := "<" + tail;
    forall i: nat | i < |w| && w[i] == '<'
      ensures Differs(w, i, d)
    {
      if i > 0 {
        assert tail[i - 1] == '<' && Differs(tail, i - 1, d);
        var k: nat :| Mismatch(tail, i - 1, d, k);
        assert Mismatch(w, i, d, k);
      }
    }
  }

  /** Tags in which no link begins. */
  ghost predicate TagsWithout(t: C.Table, d: string) {
    forall i :: 0 <= i < |t| ==> t[i].0 != '<' && t[i].1 != "" && t[i].1[0] == '<' && Without(t[i].1, d)
  }

  lemma {:induction false} ChainWithout(t: C.Table, s: string, d: string)
    requires Without(s, d) && TagsWithout(t, d)
    requires d != "" && d[0] == '<' && forall i :: 0 < i < |d| ==> d[i] != '<'
    ensures Without(C.Chain(t, s), d)
  {
    hide Without;
    if t != [] {
      ChainWithout(t[..|t| - 1], s, d);
      ReplaceWithout(C.Chain(t[..|t| - 1], s), t[|t| - 1].0, t[|t| - 1].1, d);
    }
  }

  lemma MarkersWithout(theme: Theme, action: string)
    requires IsAction(action) && Unquoted(theme)
    ensures TagsWithout(C.Markers(theme), Anchor(action))
  {
    hide Anchor, Without;
    FontWithout(theme.codeString, action);
    FontWithout(theme.codeComment, action);
    FontWithout(theme.codeKeyword, action);
    FontWithout("#E5C07B", action);
    FontWithout("#D19A66", action);
    FontWithout("#98C379", action);
    FontWithout("#43A047", action);
    AnchorShape(action);
    WithoutBracket("</font>", Anchor(action));
    FontStarts(theme.codeString);
    FontStarts(theme.codeComment);
    FontStarts(theme.codeKeyword);
    FontStarts("#E5C07B");
    FontStarts("#D19A66");
    FontStarts("#98C379");
    FontStarts("#43A047");
    hide C.FontTag;
  }

  lemma FontStarts(color: string)
    ensures C.FontTag(color) != "" && C.FontTag(color)[0] == '<'
  {
  }

  /** In formatted code no link begins, whatever it is and whatever the colours without quotation marks. */
  lemma FormattedWithout(theme: Theme, s: string, action: string)
    requires Unquoted(theme) && IsAction(action)
    ensures Without(C.Formatted(theme, s), Anchor(action))
  {
    C.EntitiesIndependent();
    C.ChainIsAtOnce(C.ENTITIES, s);
    C.SpacedIs(s);
    hide Without, C.Chain, C.AtOnce, C.DoubleSpaces, C.Spaced, C.Markers, C.ENTITIES;
    SpacedWithout(s, action);
    MarkersWithout(theme, action);
    AnchorShape(action);
    OneBracket(action);
    hide Anchor;
    ChainWithout(C.Markers(theme), C.Spaced(s), Anchor(action));
  }

  // ----- where the link is found -----

  /** The first link of the action carries the payload. */
  ghost predicate Carries(html: string, action: string, payload: string) {
    exists before, after :: Split3(html, before, action, payload, after)
  }

  ghost predicate Split3(html: string, before: string, action: string, payload: string, after: string) {
    Without(before, Anchor(action)) && html == before + (Anchor(action) + (payload + ("\"" + after)))
  }

  lemma CarriesBehind(a: string, html: string, action: string, payload: string)
    requires Without(a, Anchor(action)) && Carries(html, action, payload)
    ensures Carries(a + html, action, payload)
  {
    hide Without, Anchor;
    var before, after :| Split3(html, before, action, payload, after);
    WithoutConcat(a, before, Anchor(action));
    Regroup(a, before, Anchor(action) + (payload + ("\"" + after)));
    assert Split3(a + html, a + before, action, payload, after);
  }

  lemma CarriesBefore(html: string, b: string, action: string, payload: string)
    requires Carries(html, action, payload)
    ensures Carries(html + b, action, payload)
  {
    hide Without, Anchor;
    var before, after :| Split3(html, before, action, payload, after);
    var d := Anchor(action);
    Regroup(before, d + (payload + ("\"" + after)), b);
    Regroup(d, payload + ("\"" + after), b);
    Regroup(payload, "\"" + after, b);
    Regroup("\"", after, b);
    assert Split3(html + b, before, action, payload, after + b);
  }

  lemma CarriedIsRead(html: string, action: string, payload: string)
    requires IsAction(action) && Carries(html, action, payload) && '"' !in payload
    ensures Payload(html, action) == Some(payload)
  {
    var before, after :| Split3(html, before, action, payload, after);
    var d, rest := Anchor(action), payload + ("\"" + after);
    AnchorShape(action);
    hide Anchor;
    Leftmost(html, before, d, rest);
    CutAtFirst(payload, after, '"');
    Regroup(payload, "\"", after);
  }

  lemma NoEarlier(html: string, before: string, d: string, i: nat)
    requires Without(before, d) && before <= html && i < |before| && d != "" && d[0] == '<'
    ensures !At(html, i, d)
  {
    if before[i] == '<' {
      assert Differs(before, i, d);
      var k: nat :| Mismatch(before, i, d, k);
      assert html[i..][k] == before[i + k];
    } else {
      assert html[i..][0] == before[i];
    }
  }

  lemma Leftmost(html: string, before: string, d: string, rest: string)
    requires d != "" && d[0] == '<' && Without(before, d) && html == before + (d + rest)
    ensures Cut(html, d) == Around(before, rest)
  {
    CutIsLeftmost(html, d);
    assert html[|before|..] == d + rest;
    assert At(html, |before|, d);
    var cut := Cut(html, d);
    hide Cut, Without;
    assert html[|cut.before|..] == d + cut.after;
    assert At(html, |cut.before|, d);
    if |cut.before| < |before| {
      NoEarlier(html, before, d, |cut.before|);
    }
    assert cut.before == html[..|before|] == before;
    assert cut.after == html[|before| + |d|..] == rest;
  }

  // ----- the links of a block -----

  lemma LinkTag(action: string, hex: string, title: string)
    ensures OpenTag("a", " href=\"malama://" + action + ":" + hex + "\" title=\"" + title + "\"") ==
            "" + (Anchor(action) + (hex + ("\"" + (" title=\"" + title + "\">"))))
  {
    assert "<" + "a" + " href=\"malama://" == "<a href=\"malama://";
    assert "\"" + " title=\"" == "\" title=\"";
  }

  lemma LinkCarries(action: string, hex: string, title: string, icon: string)
    requires IsAction(action)
    ensures Carries(Link(action, hex, title, icon), action, hex)
  {
    var tag := OpenTag("a", " href=\"malama://" + action + ":" + hex + "\" title=\"" + title + "\"");
    var font := OpenTag("font", " size=\"-1\"");
    LinkTag(action, hex, title);
    assert Without("", Anchor(action));
    hide Anchor, Without, OpenTag, CloseTag;
    assert Split3(tag, "", action, hex, " title=\"" + title + "\">");
    hide Split3;
    CarriesBefore(tag, font, action, hex);
    CarriesBefore(tag + font, icon, action, hex);
    CarriesBefore(tag + font + icon, CloseTag("font"), action, hex);
    CarriesBefore(tag + font + icon + CloseTag("font"), CloseTag("a"), action, hex);
  }

  lemma AnchorsDiffer()
    ensures Without(Anchor("copy_code"), Anchor("download_code"))
  {
    AnchorShape("copy_code");
    AnchorShape("download_code");
    var a, d := Anchor("copy_code"), Anchor("download_code");
    OneBracket("copy_code");
    hide Anchor;
    assert Mismatch(a, 0, d, 18);
  }

  /** What stands behind the address of a link. */
  lemma LinkEndWithout(action: string, title: string, icon: string)
    requires IsAction(action) && '<' !in title && '<' !in icon
    ensures Without("\"" + (" title=\"" + title + "\">"), Anchor(action))
    ensures Without(OpenTag("font", " size=\"-1\"") + icon + CloseTag("font") + CloseTag("a"), Anchor(action))
  {
    AnchorShape(action);
    var font := OpenTag("font", " size=\"-1\"");
    assert font == "<font size=\"-1\">" && CloseTag("font") == "</font>" && CloseTag("a") == "</a>";
    hide Anchor, OpenTag, CloseTag, Without;
    WithoutBracket("\"" + (" title=\"" + title + "\">"), Anchor(action));
    WithoutBracket(font, Anchor(action));
    WithoutBracket(icon, Anchor(action));
    WithoutBracket("</font>", Anchor(action));
    WithoutBracket("</a>", Anchor(action));
    WithoutConcat(font, icon, Anchor(action));
    WithoutConcat(font + icon, "</font>", Anchor(action));
    WithoutConcat(font + icon + "</font>", "</a>", Anchor(action));
  }

  lemma LinkIs(tag: string, icon: string)
    ensures tag + (OpenTag("font", " size=\"-1\"") + icon + CloseTag("font") + CloseTag("a")) ==
            tag + OpenTag("font", " size=\"-1\"") + icon + CloseTag("font") + CloseTag("a")
  {
  }

  /** The copy link is not a download link. */
  lemma CopyIsNoDownload(hex: string, title: string, icon: string)
    requires '<' !in hex && '<' !in title && '<' !in icon
    ensures Without(Link("copy_code", hex, title, icon), Anchor("download_code"))
  {
    var a, d := Anchor("copy_code"), Anchor("download_code");
    var tail := "\"" + (" title=\"" + title + "\">");
    var rest := OpenTag("font", " size=\"-1\"") + icon + CloseTag("font") + CloseTag("a");
    LinkTag("copy_code", hex, title);
    LinkEndWithout("download_code", title, icon);
    AnchorsDiffer();
    assert d[1] == 'a' && |d| > 1 by {
      AnchorShape("download_code");
    }
    hide Anchor, OpenTag, CloseTag, Without;
    WithoutBracket(hex, d);
    WithoutConcat(hex, tail, d);
    WithoutConcat(a, hex + tail, d);
    WithoutConcat(a + (hex + tail), rest, d);
    assert "" + (a + (hex + tail)) == a + (hex + tail);
    LinkIs(a + (hex + tail), icon);
  }

  lemma {:induction false} HexIsPlain(s: string)
    ensures '"' !in Hex.Encode(s) && '<' !in Hex.Encode(s)
  {
    if s != "" {
      HexIsPlain(s[1..]);
    }
  }

  lemma ActionsCarry(hex: string, action: string)
    requires IsAction(action) && '<' !in hex
    ensures Carries(Actions(hex), action, hex)
  {
    var div, end := OpenTag("div", " align=\"right\""), CloseTag("div");
    var copy := Link("copy_code", hex, "Copy", "&#x1F4CB;");
    var load := Link("download_code", hex, "Download", "&#x1F4E5;");
    assert div == "<div align=\"right\">";
    AnchorShape(action);
    hide Anchor, Without, Carries, Link, OpenTag, CloseTag;
    WithoutBracket(div, Anchor(action));
    if action == "copy_code" {
      LinkCarries(action, hex, "Copy", "&#x1F4CB;");
      CarriesBefore(copy, "&nbsp;&nbsp;" + load, action, hex);
    } else {
      LinkCarries(action, hex, "Download", "&#x1F4E5;");
      WithoutBracket("&nbsp;&nbsp;", Anchor(action));
      CarriesBehind("&nbsp;&nbsp;", load, action, hex);
      CopyIsNoDownload(hex, "Copy", "&#x1F4CB;");
      CarriesBehind(copy, "&nbsp;&nbsp;" + load, action, hex);
    }
    CarriesBehind(div, copy + ("&nbsp;&nbsp;" + load), action, hex);
    CarriesBefore(div + (copy + ("&nbsp;&nbsp;" + load)), end, action, hex);
  }

  lemma CellCarries(theme: Theme, body: string, hex: string, action: string)
    requires IsAction(action) && '<' !in hex && Unquoted(theme) && Without(body, Anchor(action))
    ensures Carries(OpenTag("font", " color=\"" + theme.textPrimary + "\" face=\"monospace\"") + body + CloseTag("font")
                    + Actions(hex), action, hex)
  {
    var font, end := OpenTag("font", " color=\"" + theme.textPrimary + "\" face=\"monospace\""), CloseTag("font");
    assert font == "<font color=\"" + theme.textPrimary + "\" face=\"monospace\">" && end == "</font>";
    WithoutQuoted("<font color=\"", theme.textPrimary, "\" face=\"monospace\">", action);
    ActionsCarry(hex, action);
    AnchorShape(action);
    hide Anchor, Without, Carries, Actions, OpenTag, CloseTag;
    WithoutBracket(end, Anchor(action));
    WithoutConcat(font, body, Anchor(action));
    WithoutConcat(font + body, end, Anchor(action));
    CarriesBehind(font + body + end, Actions(hex), action, hex);
  }

  lemma FrameCarries(theme: Theme, body: string, hex: string, action: string)
    requires IsAction(action) && '<' !in hex && Unquoted(theme) && Without(body, Anchor(action))
    ensures Carries(Frame(theme, body, Actions(hex)), action, hex)
  {
    var table := OpenTag("table", " width=\"100%\" bgcolor=\"" + theme.codeBg + "\" cellpadding=\"10\"");
    var row, cell := OpenTag("tr", ""), OpenTag("td", " valign=\"top\"");
    var inner := OpenTag("font", " color=\"" + theme.textPrimary + "\" face=\"monospace\"") + body + CloseTag("font")
                 + Actions(hex);
    FrameTags(theme, action);
    CellCarries(theme, body, hex, action);
    hide Anchor, Without, Carries, Actions, OpenTag, CloseTag;
    CarriesBehind(cell, inner, action, hex);
    CarriesBefore(cell + inner, CloseTag("td"), action, hex);
    CarriesBehind(row, cell + inner + CloseTag("td"), action, hex);
    CarriesBefore(row + (cell + inner + CloseTag("td")), CloseTag("tr"), action, hex);
    var rows := row + (cell + inner + CloseTag("td")) + CloseTag("tr");
    CarriesBehind(table, rows, action, hex);
    CarriesBefore(table + rows, CloseTag("table"), action, hex);
    CarriesBehind("<br>", table + rows + CloseTag("table"), action, hex);
    CarriesBefore("<br>" + (table + rows + CloseTag("table")), "<br>", action, hex);
  }

  lemma FrameTags(theme: Theme, action: string)
    requires IsAction(action) && Unquoted(theme)
    ensures var d := Anchor(action);
            && Without(OpenTag("table", " width=\"100%\" bgcolor=\"" + theme.codeBg + "\" cellpadding=\"10\""), d)
            && Without(OpenTag("tr", ""), d) && Without(OpenTag("td", " valign=\"top\""), d) && Without("<br>", d)
  {
    TableTagIs(theme.codeBg);
    assert OpenTag("tr", "") == "<tr>" && OpenTag("td", " valign=\"top\"") == "<td valign=\"top\">";
    AnchorShape(action);
    hide Anchor, OpenTag, Without;
    WithoutQuoted("<table width=\"100%\" bgcolor=\"", theme.codeBg, "\" cellpadding=\"10\">", action);
    WithoutBracket("<tr>", Anchor(action));
    WithoutBracket("<td valign=\"top\">", Anchor(action));
    WithoutBracket("<br>", Anchor(action));
  }

  lemma TableTagIs(color: string)
    ensures OpenTag("table", " width=\"100%\" bgcolor=\"" + color + "\" cellpadding=\"10\"") ==
            "<table width=\"100%\" bgcolor=\"" + color + "\" cellpadding=\"10\">"
  {
    assert "<" + "table" + " width=\"100%\" bgcolor=\"" == "<table width=\"100%\" bgcolor=\"";
    assert "\" cellpadding=\"10\"" + ">" == "\" cellpadding=\"10\">";
  }

  lemma PayloadIs(theme: Theme, g: Grammar, code: string, action: string)
    requires SoundGrammar(g) && Unquoted(theme) && IsAction(action)
    ensures Payload(Html(theme, g, code), action) == Some(Hex.Encode(code))
  {
    hide Payload, Frame, Actions, Without, Carries, Anchor, C.Formatted, Marked, Hex.Encode, Unquoted;
    FormattedWithout(theme, Marked(g, code), action);
    HexIsPlain(code);
    FrameCarries(theme, C.Formatted(theme, Marked(g, code)), Hex.Encode(code), action);
    CarriedIsRead(Html(theme, g, code), action, Hex.Encode(code));
  }

  /** The action's link decodes to the given text. */
  predicate Decodes(html: string, action: string, text: string) {
    Payload(html, action).Some? && Hex.Decode(Payload(html, action).value) == text
  }

  /** Both links of every rendered block carry the code itself, byte for byte, and not what is shown of it,
      whatever the code, its grammar and the colours are. */
  lemma LinksCarryCode(theme: Theme, g: Grammar, code: string)
    requires SoundGrammar(g) && Unquoted(theme) && Fnv.IsBytes(code)
    ensures Decodes(Html(theme, g, code), "copy_code", code)
    ensures Decodes(Html(theme, g, code), "download_code", code)
  {
    hide Payload, Html, Hex.Encode, Hex.Decode, Unquoted, SoundGrammar;
    PayloadIs(theme, g, code, "copy_code");
    PayloadIs(theme, g, code, "download_code");
    Hex.DecodeEncode(code);
  }
}
