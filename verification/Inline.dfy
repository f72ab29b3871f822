/** Inline decoration: escape, line breaks, `**bold**` and `` `code` ``, as chained whole-string
    rewrites, against a structured reading of the text. */
module Inline {
  import opened Text
  import opened PairedMarks

  // ----- the rewriting chain -----

  function EscapeChar(c: char): string {
    match c
    case '&' => "&amp;"
    case '<' => "&lt;"
    case '>' => "&gt;"
    case _ => [c]
  }

  function Escape(s: string): string {
    if s == [] then [] else EscapeChar(s[0]) + Escape(s[1..])
  }

  function CodeTag(codeString: string): string {
    "<font color=\"" + codeString + "\" face=\"monospace\">"
  }

  /** The uncached value of `decorate_inline_text`. */
  function Html(codeString: string, text: string): string {
    var escaped := Escape(text);
    var broken := ReplaceChar(escaped, '\n', "<br>");
    var bold := WrapPairs(broken, "**", "<b>", "</b>");
    WrapPairs(bold, "`", CodeTag(codeString), "</font>")
  }

  // ----- the structured reading -----

  /** A character of the text, or one of the pipeline's own tags. */
  datatype Atom = Ch(c: char) | BoldOpen | BoldClose | CodeOpen | CodeClose

  /** How atoms are shown: as HTML in a theme, as the text a reader sees, or as they were typed. */
  datatype View = AsHtml(codeString: string) | AsText | AsSource

  function ShowChar(c: char): string {
    if c == '\n' then "<br>" else EscapeChar(c)
  }

  function Show(v: View, a: Atom): string {
    match (v, a)
    case (AsText, Ch(c)) => [c]
    case (AsText, _) => ""
    case (AsSource, Ch(c)) => [c]
    case (AsSource, _) => if a.BoldOpen? || a.BoldClose? then "**" else "`"
    case (AsHtml(_), Ch(c)) => ShowChar(c)
    case (AsHtml(_), BoldOpen) => "<b>"
    case (AsHtml(_), BoldClose) => "</b>"
    case (AsHtml(cs), CodeOpen) => CodeTag(cs)
    case (AsHtml(_), CodeClose) => "</font>"
  }

  function Flat(v: View, atoms: seq<Atom>): string {
    if atoms == [] then [] else Show(v, atoms[0]) + Flat(v, atoms[1..])
  }

  function Plain(text: string): seq<Atom> {
    if text == [] then [] else [Ch(text[0])] + Plain(text[1..])
  }

  const STARS: seq<Atom> := [Ch('*'), Ch('*')]
  const TICK: seq<Atom> := [Ch('`')]

  function Bolded(text: string): seq<Atom> {
    Mark(Plain(text), STARS, [BoldOpen], [BoldClose], 0, Paired(Plain(text), STARS))
  }

  /** Characters and tags of the decorated text. */
  function Structure(text: string): seq<Atom> {
    Mark(Bolded(text), TICK, [CodeOpen], [CodeClose], 0, Paired(Bolded(text), TICK))
  }

  // ----- the chain equals the structured reading -----

  lemma {:induction false} FlatConcat(v: View, a: seq<Atom>, b: seq<Atom>)
    ensures Flat(v, a + b) == Flat(v, a) + Flat(v, b)
  {
    hide Show;
    if a == [] {
      assert a + b == b;
    } else {
      calc {
        Flat(v, a + b);
        { assert (a + b)[1..] == a[1..] + b; }
        Show(v, a[0]) + Flat(v, a[1..] + b);
        { FlatConcat(v, a[1..], b); }
        Show(v, a[0]) + (Flat(v, a[1..]) + Flat(v, b));
        Flat(v, a) + Flat(v, b);
      }
    }
  }

  lemma FlatOne(v: View, a: Atom)
    ensures Flat(v, [a]) == Show(v, a)
  {
  }

  /** `x` shows up in the view exactly where the character `x` stands. */
  predicate Clear(v: View, a: Atom, x: char) {
    if a == Ch(x) then Show(v, a) == [x] else x !in Show(v, a)
  }

  function Rep<T>(x: T, twice: bool): (d: seq<T>)
    ensures d != [] && d[0] == x
  {
    if twice then [x, x] else [x]
  }

  /** Marking atoms and then showing them is showing them and then marking the string. */
  lemma {:induction false} MarkFlat(v: View, atoms: seq<Atom>, x: char, twice: bool,
                                    open: seq<Atom>, close: seq<Atom>, k: nat, limit: nat)
    requires forall a :: a in atoms ==> Clear(v, a, x) && (twice ==> Show(v, a) != [])
    ensures Count(Flat(v, atoms), Rep(x, twice)) == Count(atoms, Rep(Ch(x), twice))
    ensures Flat(v, Mark(atoms, Rep(Ch(x), twice), open, close, k, limit)) ==
            Mark(Flat(v, atoms), Rep(x, twice), Flat(v, open), Flat(v, close), k, limit)
    decreases |atoms|
  {
    var da, ds := Rep(Ch(x), twice), Rep(x, twice);
    if atoms == [] {
    } else if da <= atoms {
      var rest := atoms[|da|..];
      assert Flat(v, da) == ds by {
        assert atoms[0] == Ch(x) && atoms[0] in atoms;
        FlatOne(v, Ch(x));
        if twice {
          FlatConcat(v, [Ch(x)], [Ch(x)]);
          assert [Ch(x)] + [Ch(x)] == da;
        }
      }
      hide Mark, Count, Flat, Rep, Show, Clear;
      var flat := Flat(v, atoms);
      assert flat == ds + Flat(v, rest) by {
        FlatConcat(v, da, rest);
        assert atoms == da + rest;
      }
      assert ds <= flat && flat[|ds|..] == Flat(v, rest);
      AtDelimiter(atoms, da, open, close, k, limit);
      AtDelimiter(flat, ds, Flat(v, open), Flat(v, close), k, limit);
      MarkFlat(v, rest, x, twice, open, close, k + 1, limit);
      var piece := if k < limit then (if k % 2 == 0 then open else close) else da;
      FlatConcat(v, piece, Mark(rest, da, open, close, k + 1, limit));
    } else {
      MarkFlatElement(v, atoms, x, twice, open, close, k, limit);
      MarkFlat(v, atoms[1..], x, twice, open, close, k, limit);
    }
  }

  lemma {:induction false} MarkFlatElement(v: View, atoms: seq<Atom>, x: char, twice: bool,
                                           open: seq<Atom>, close: seq<Atom>, k: nat, limit: nat)
    requires atoms != [] && !(Rep(Ch(x), twice) <= atoms)
    requires forall a :: a in atoms ==> Clear(v, a, x) && (twice ==> Show(v, a) != [])
    ensures Count(Flat(v, atoms), Rep(x, twice)) == Count(Flat(v, atoms[1..]), Rep(x, twice))
    ensures Count(atoms, Rep(Ch(x), twice)) == Count(atoms[1..], Rep(Ch(x), twice))
    ensures Flat(v, Mark(atoms, Rep(Ch(x), twice), open, close, k, limit)) ==
            Show(v, atoms[0]) + Flat(v, Mark(atoms[1..], Rep(Ch(x), twice), open, close, k, limit))
    ensures Mark(Flat(v, atoms), Rep(x, twice), Flat(v, open), Flat(v, close), k, limit) ==
            Show(v, atoms[0]) + Mark(Flat(v, atoms[1..]), Rep(x, twice), Flat(v, open), Flat(v, close), k, limit)
  {
    hide Show;
    var da, ds := Rep(Ch(x), twice), Rep(x, twice);
    var flat, rest := Flat(v, atoms), Flat(v, atoms[1..]);
    assert flat == Show(v, atoms[0]) + rest;
    assert atoms[0] == Ch(x) ==> flat != [] && flat[1..] == rest && !(ds <= flat) by {
      if atoms[0] == Ch(x) {
        assert Show(v, atoms[0]) == [x];
        assert twice;
        if |atoms| > 1 {
          assert atoms[1] in atoms && atoms[1] != Ch(x);
          assert rest == Show(v, atoms[1]) + Flat(v, atoms[1..][1..]);
          assert rest[0] in Show(v, atoms[1]);
        }
      }
    }
    assert atoms[0] != Ch(x) ==> ds[0] !in Show(v, atoms[0]) by {
      assert atoms[0] in atoms;
    }
    assert atoms[0] == Ch(x) ==> Show(v, atoms[0]) == [x] == [flat[0]] by {
      assert atoms[0] in atoms;
    }
    Advance(atoms, da, open, close, k, limit);
    var m := Mark(atoms[1..], da, open, close, k, limit);
    assert Flat(v, [atoms[0]] + m) == Show(v, atoms[0]) + Flat(v, m) by {
      assert ([atoms[0]] + m)[1..] == m;
    }
    hide Mark, Count, Flat, Rep;
    if atoms[0] == Ch(x) {
      Advance(flat, ds, Flat(v, open), Flat(v, close), k, limit);
    } else {
      MarkSkip(Show(v, atoms[0]), rest, ds, Flat(v, open), Flat(v, close), k, limit);
    }
  }

  lemma {:induction false} EscapeBreaks(c: char)
    ensures ReplaceChar(EscapeChar(c), '\n', "<br>") == ShowChar(c)
  {
    if c == '\n' {
      assert EscapeChar(c) == ['\n'] && ['\n'][1..] == [];
      assert ReplaceChar([], '\n', "<br>") == [];
    } else {
      assert '\n' !in EscapeChar(c);
      ReplaceAbsent(EscapeChar(c), '\n', "<br>");
    }
  }

  /** The first two rewrites are one character map. */
  lemma {:induction false} PlainAsHtml(codeString: string, text: string)
    ensures Flat(AsHtml(codeString), Plain(text)) == ReplaceChar(Escape(text), '\n', "<br>")
  {
    if text != [] {
      var c, rest := text[0], text[1..];
      var v := AsHtml(codeString);
      calc {
        ReplaceChar(Escape(text), '\n', "<br>");
        ReplaceChar(EscapeChar(c) + Escape(rest), '\n', "<br>");
        { ReplaceConcat(EscapeChar(c), Escape(rest), '\n', "<br>"); EscapeBreaks(c); }
        ShowChar(c) + ReplaceChar(Escape(rest), '\n', "<br>");
        { PlainAsHtml(codeString, rest); }
        Show(v, Ch(c)) + Flat(v, Plain(rest));
        { assert Plain(text)[1..] == Plain(rest); }
        Flat(v, Plain(text));
      }
    }
  }

  lemma {:induction false} PlainAsText(text: string)
    ensures Flat(AsText, Plain(text)) == text
  {
    if text != [] {
      PlainAsText(text[1..]);
      assert Plain(text)[1..] == Plain(text[1..]);
      assert text == [text[0]] + text[1..];
    }
  }

  lemma {:induction false} PlainAtoms(text: string)
    ensures forall a :: a in Plain(text) ==> a.Ch?
  {
    if text != [] {
      PlainAtoms(text[1..]);
    }
  }

  /** Atoms of the text after the bold pass. */
  lemma BoldedAtoms(text: string)
    ensures forall a :: a in Bolded(text) ==> a.Ch? || a.BoldOpen? || a.BoldClose?
  {
    PlainAtoms(text);
    MarkElements(Plain(text), STARS, [BoldOpen], [BoldClose], 0, Paired(Plain(text), STARS));
  }

  lemma EscapedClear(c: char)
    ensures '*' in ShowChar(c) ==> c == '*'
    ensures '`' in ShowChar(c) ==> c == '`'
    ensures ShowChar(c) != []
    ensures ShowChar('*') == "*" && ShowChar('`') == "`"
  {
  }

  /** The bold pass over the shown text is the bold pass over the atoms. */
  lemma {:induction false} BoldPass(codeString: string, text: string)
    ensures WrapPairs(Flat(AsHtml(codeString), Plain(text)), "**", "<b>", "</b>") ==
            Flat(AsHtml(codeString), Bolded(text))
  {
    var v := AsHtml(codeString);
    forall a | a in Plain(text)
      ensures Clear(v, a, '*') && Show(v, a) != []
    {
      PlainAtoms(text);
      EscapedClear(a.c);
    }
    FlatOne(v, BoldOpen);
    FlatOne(v, BoldClose);
    hide Mark, Count, WrapPairs, Flat, Clear;
    MarkFlat(v, Plain(text), '*', true, [BoldOpen], [BoldClose], 0, Paired(Plain(text), STARS));
    WrapPairsIsMark(Flat(v, Plain(text)), "**", "<b>", "</b>");
  }

  /** The code pass over the shown text is the code pass over the atoms. */
  lemma {:induction false} CodePass(codeString: string, text: string)
    ensures WrapPairs(Flat(AsHtml(codeString), Bolded(text)), "`", CodeTag(codeString), "</font>") ==
            Flat(AsHtml(codeString), Structure(text))
  {
    var v := AsHtml(codeString);
    forall a | a in Bolded(text)
      ensures Clear(v, a, '`')
    {
      BoldedAtoms(text);
      if a.Ch? {
        EscapedClear(a.c);
      }
    }
    FlatOne(v, CodeOpen);
    FlatOne(v, CodeClose);
    hide Mark, Count, WrapPairs, Flat, Clear, CodeTag, Bolded;
    MarkFlat(v, Bolded(text), '`', false, [CodeOpen], [CodeClose], 0, Paired(Bolded(text), TICK));
    WrapPairsIsMark(Flat(v, Bolded(text)), "`", CodeTag(codeString), "</font>");
  }

  /** The chained rewrites build exactly the structured text. */
  lemma {:induction false} HtmlIsStructure(codeString: string, text: string)
    ensures Html(codeString, text) == Flat(AsHtml(codeString), Structure(text))
  {
    hide Mark, WrapPairs, Flat, CodeTag, ReplaceChar, Escape, Bolded, Structure;
    PlainAsHtml(codeString, text);
    BoldPass(codeString, text);
    CodePass(codeString, text);
  }

  /** What a reader sees is the text less its paired delimiters. */
  lemma {:induction false} VisibleText(text: string)
    ensures Flat(AsText, Structure(text)) == Strip(Strip(text, "**"), "`")
  {
    var v := AsText;
    PlainAsText(text);
    PlainAtoms(text);
    MarkFlat(v, Plain(text), '*', true, [BoldOpen], [BoldClose], 0, Paired(Plain(text), STARS));
    FlatOne(v, BoldOpen);
    FlatOne(v, BoldClose);
    assert Flat(v, Bolded(text)) == Strip(text, "**");
    BoldedAtoms(text);
    MarkFlat(v, Bolded(text), '`', false, [CodeOpen], [CodeClose], 0, Paired(Bolded(text), TICK));
    FlatOne(v, CodeOpen);
    FlatOne(v, CodeClose);
  }

  // ----- decoding -----

  /** The first atom of an HTML text and the number of characters it takes. */
  function First(codeString: string, s: string): (r: (Atom, nat))
    requires s != []
    ensures 0 < r.1 <= |s|
  {
    if "<br>" <= s then (Ch('\n'), 4)
    else if "<b>" <= s then (BoldOpen, 3)
    else if "</b>" <= s then (BoldClose, 4)
    else if "</font>" <= s then (CodeClose, 7)
    else if CodeTag(codeString) <= s then (CodeOpen, |CodeTag(codeString)|)
    else if "&amp;" <= s then (Ch('&'), 5)
    else if "&lt;" <= s then (Ch('<'), 4)
    else if "&gt;" <= s then (Ch('>'), 4)
    else (Ch(s[0]), 1)
  }

  /** Reads an HTML text back into atoms. */
  function Parse(codeString: string, s: string): seq<Atom> {
    if s == [] then []
    else [First(codeString, s).0] + Parse(codeString, s[First(codeString, s).1..])
  }

  lemma FirstShown(codeString: string, a: Atom, rest: string)
    ensures First(codeString, Show(AsHtml(codeString), a) + rest) == (a, |Show(AsHtml(codeString), a)|)
  {
    var w := Show(AsHtml(codeString), a);
    var s := w + rest;
    assert w <= s && s[0] == w[0];
    assert |w| > 1 ==> s[1] == w[1];
    assert |w| > 2 ==> s[2] == w[2];
    match a
    case CodeOpen => assert w[0] == '<' && w[1] == 'f';
    case Ch(c) =>
      if c == '\n' {
      } else if c == '&' || c == '<' || c == '>' {
        assert w[0] == '&';
      } else {
        assert w == [c];
      }
    case _ =>
  }

  /** Different structures never show as the same HTML. */
  lemma {:induction false} ParseInverts(codeString: string, atoms: seq<Atom>)
    ensures Parse(codeString, Flat(AsHtml(codeString), atoms)) == atoms
  {
    if atoms != [] {
      var v := AsHtml(codeString);
      var rest := Flat(v, atoms[1..]);
      var w := Show(v, atoms[0]);
      FirstShown(codeString, atoms[0], rest);
      hide Show, First;
      calc {
        Parse(codeString, Flat(v, atoms));
        Parse(codeString, w + rest);
        { assert (w + rest)[|w|..] == rest; }
        [atoms[0]] + Parse(codeString, rest);
        { ParseInverts(codeString, atoms[1..]); }
        [atoms[0]] + atoms[1..];
        atoms;
      }
    }
  }

  /** Decoding the decorated text, dropping the pipeline's own tags, gives the input with
      exactly its leftmost-paired delimiters removed. */
  lemma {:induction false} DecodeRecoversText(codeString: string, text: string)
    ensures Flat(AsText, Parse(codeString, Html(codeString, text))) == Strip(Strip(text, "**"), "`")
  {
    HtmlIsStructure(codeString, text);
    ParseInverts(codeString, Structure(text));
    VisibleText(text);
  }

  lemma {:induction false} PlainAsSource(text: string)
    ensures Flat(AsSource, Plain(text)) == text
  {
    if text != [] {
      PlainAsSource(text[1..]);
      assert Plain(text)[1..] == Plain(text[1..]);
      assert text == [text[0]] + text[1..];
    }
  }

  /** Turning the tags back into their delimiters gives the text as it was. */
  lemma SourceText(text: string)
    ensures Flat(AsSource, Structure(text)) == text
  {
    var v := AsSource;
    PlainAsSource(text);
    PlainAtoms(text);
    BoldedAtoms(text);
    FlatOne(v, BoldOpen);
    FlatOne(v, BoldClose);
    FlatOne(v, CodeOpen);
    FlatOne(v, CodeClose);
    hide Mark, Count, Flat;
    MarkFlat(v, Plain(text), '*', true, [BoldOpen], [BoldClose], 0, Paired(Plain(text), STARS));
    MarkIdentity(text, "**", 0, Paired(Plain(text), STARS));
    MarkFlat(v, Bolded(text), '`', false, [CodeOpen], [CodeClose], 0, Paired(Bolded(text), TICK));
    MarkIdentity(text, "`", 0, Paired(Bolded(text), TICK));
  }

  /** The decorated text determines the text: no two texts ever look the same. */
  lemma HtmlInjective(codeString: string, x: string, y: string)
    ensures Html(codeString, x) == Html(codeString, y) <==> x == y
  {
    hide Html, Structure, Flat, Parse;
    HtmlIsStructure(codeString, x);
    HtmlIsStructure(codeString, y);
    ParseInverts(codeString, Structure(x));
    ParseInverts(codeString, Structure(y));
    SourceText(x);
    SourceText(y);
  }

  // ----- the tags -----

  /** `open` and `close` alternate in `atoms`, starting inside an open pair if `inside`. */
  predicate Alternates(atoms: seq<Atom>, open: Atom, close: Atom, inside: bool) {
    if atoms == [] then !inside
    else if atoms[0] == open then !inside && Alternates(atoms[1..], open, close, true)
    else if atoms[0] == close then inside && Alternates(atoms[1..], open, close, false)
    else Alternates(atoms[1..], open, close, inside)
  }

  /** A pass's own tags alternate. */
  lemma {:induction false} MarkAlternates(s: seq<Atom>, d: seq<Atom>, open: Atom, close: Atom, k: nat, limit: nat)
    requires d != [] && open != close && open !in s && close !in s
    requires limit % 2 == 0 && limit <= k + Count(s, d) && (k % 2 == 0 || k < limit)
    ensures Alternates(Mark(s, d, [open], [close], k, limit), open, close, k % 2 == 1)
    decreases |s|
  {
    if s == [] {
    } else {
      var rest := s[Unit(s, d)..];
      assert open !in rest && close !in rest;
      if d <= s && k < limit {
        MarkAlternates(rest, d, open, close, k + 1, limit);
        var m := Mark(rest, d, [open], [close], k + 1, limit);
        FirstRest(open, m);
        FirstRest(close, m);
      } else if d <= s {
        MarkPastLimit(s, d, [open], [close], k, limit);
        AlternatesAbsent(s, open, close);
      } else {
        MarkAlternates(rest, d, open, close, k, limit);
        var m := Mark(rest, d, [open], [close], k, limit);
        assert s[..1] == [s[0]] && s[0] in s;
        FirstRest(s[0], m);
      }
    }
  }

  lemma {:induction false} AlternatesAbsent(s: seq<Atom>, open: Atom, close: Atom)
    requires open !in s && close !in s
    ensures Alternates(s, open, close, false)
  {
    if s != [] {
      assert s[0] in s;
      AlternatesAbsent(s[1..], open, close);
    }
  }

  /** A later pass over a one-character delimiter leaves the alternation of earlier tags alone. */
  lemma {:induction false} MarkKeepsAlternation(s: seq<Atom>, x: Atom, open2: Atom, close2: Atom, k: nat, limit: nat,
                                                open: Atom, close: Atom, inside: bool)
    requires open !in [x, open2, close2] && close !in [x, open2, close2]
    requires Alternates(s, open, close, inside)
    ensures Alternates(Mark(s, [x], [open2], [close2], k, limit), open, close, inside)
    decreases |s|
  {
    if s != [] {
      var rest := s[1..];
      var hit := s[0] == x;
      var piece := Piece(s, [x], [open2], [close2], k, limit);
      var inside' := if s[0] == open then true else if s[0] == close then false else inside;
      MarkKeepsAlternation(rest, x, open2, close2, if hit then k + 1 else k, limit, open, close, inside');
      var m := Mark(rest, [x], [open2], [close2], if hit then k + 1 else k, limit);
      assert Unit(s, [x]) == 1 && [x] <= s <==> hit;
      assert piece == [piece[0]];
      FirstRest(piece[0], m);
      assert Mark(s, [x], [open2], [close2], k, limit) == [piece[0]] + m;
    }
  }

  /** Bold tags alternate, and so do inline-code tags: each kind is balanced and never holds
      itself. (The two kinds may cross, since the second pass ignores the first one's tags.) */
  lemma TagsAlternate(text: string)
    ensures Alternates(Structure(text), BoldOpen, BoldClose, false)
    ensures Alternates(Structure(text), CodeOpen, CodeClose, false)
  {
    PlainAtoms(text);
    MarkAlternates(Plain(text), STARS, BoldOpen, BoldClose, 0, Paired(Plain(text), STARS));
    MarkKeepsAlternation(Bolded(text), Ch('`'), CodeOpen, CodeClose, 0, Paired(Bolded(text), TICK),
                         BoldOpen, BoldClose, false);
    BoldedAtoms(text);
    MarkAlternates(Bolded(text), TICK, CodeOpen, CodeClose, 0, Paired(Bolded(text), TICK));
  }

  predicate OwnTag(codeString: string, t: string) {
    t == "<br>" || t == "<b>" || t == "</b>" || t == CodeTag(codeString) || t == "</font>"
  }

  /** Every `<` of `s` starts one of the pipeline's own tags. */
  ghost predicate OnlyOwnTags(codeString: string, s: string) {
    forall i :: 0 <= i < |s| && s[i] == '<' ==> exists t :: OwnTag(codeString, t) && t <= s[i..]
  }

  lemma CodeTagHead(codeString: string)
    requires '<' !in codeString
    ensures var w := CodeTag(codeString); forall i :: 0 <= i < |w| && w[i] == '<' ==> i == 0
  {
    var head, tail := "font color=\"", "\" face=\"monospace\">";
    assert '<' !in head && '<' !in tail;
    var w := CodeTag(codeString);
    assert w == "<" + (head + codeString + tail);
  }

  lemma OneShownTag(codeString: string, a: Atom)
    requires '<' !in codeString
    ensures var w := Show(AsHtml(codeString), a);
            forall i :: 0 <= i < |w| && w[i] == '<' ==> i == 0 && OwnTag(codeString, w)
  {
    CodeTagHead(codeString);
    hide CodeTag;
  }

  /** User text never smuggles in a tag: markup in the input comes out escaped. */
  lemma {:induction false} FlatOnlyOwnTags(codeString: string, atoms: seq<Atom>)
    requires '<' !in codeString
    ensures OnlyOwnTags(codeString, Flat(AsHtml(codeString), atoms))
  {
    if atoms != [] {
      var w, r := Show(AsHtml(codeString), atoms[0]), Flat(AsHtml(codeString), atoms[1..]);
      FlatOnlyOwnTags(codeString, atoms[1..]);
      OneShownTag(codeString, atoms[0]);
      var s := w + r;
      hide Show, OwnTag, CodeTag;
      forall i | 0 <= i < |s| && s[i] == '<'
        ensures exists t :: OwnTag(codeString, t) && t <= s[i..]
      {
        if i < |w| {
          assert w[i] == '<';
          assert OwnTag(codeString, w) && w <= s[0..];
        } else {
          assert r[i - |w|] == '<';
          var t :| OwnTag(codeString, t) && t <= r[i - |w|..];
          assert s[i..] == r[i - |w|..];
        }
      }
    }
  }

  lemma HtmlOnlyOwnTags(codeString: string, text: string)
    requires '<' !in codeString
    ensures OnlyOwnTags(codeString, Html(codeString, text))
  {
    HtmlIsStructure(codeString, text);
    FlatOnlyOwnTags(codeString, Structure(text));
  }
}
