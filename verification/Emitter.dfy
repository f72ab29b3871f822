/** The flag-driven emitter: it walks the tokens once with two list flags and a table lookahead,
    and produces exactly the grouped HTML of module `Blocks`. */
module Emitter {
  import opened Text
  import opened Theme
  import opened Tokenizer
  import opened TableRows
  import opened Cells
  import opened Blocks
  import CodeBlock
  import CodeFrame
  import CodeHtml
  import Hex
  import Inline
  import Lru
  import R = RenderCache

  /** Which list is open. */
  datatype Mode = NoList | InList(ordered: bool)

  function CloseMode(mode: Mode): string {
    if mode.NoList? then "" else Flat(ListClose(mode.ordered))
  }

  /** What an item writes, with the tags that switching to its list takes. */
  function ItemHtml(st: Style, mode: Mode, ordered: bool, content: string): string {
    (if mode == InList(ordered) then "" else CloseMode(mode) + Flat(ListOpen(ordered))) +
    Flat(ItemPieces(st, content))
  }

  function TableHtml(st: Style, tokens: seq<Token>): string
    requires TableAhead(tokens)
  {
    Flat(BlockPieces(st, FirstBlock(tokens)))
  }

  /** What the emitter writes for the rest of the tokens while `mode` is open. */
  function Flow(st: Style, tokens: seq<Token>, mode: Mode): string
    decreases |tokens|
  {
    if tokens == [] then CloseMode(mode)
    else if TableAhead(tokens) then
      CloseMode(mode) + TableHtml(st, tokens) + Flow(st, tokens[CandidateRun(tokens)..], NoList)
    else if IsListItem(tokens[0]) then
      var ordered := tokens[0].kind == ListOrdered;
      ItemHtml(st, mode, ordered, tokens[0].content) + Flow(st, tokens[1..], InList(ordered))
    else
      CloseMode(mode) + Flat(SinglePieces(st, tokens[0])) + Flow(st, tokens[1..], NoList)
  }

  // ----- flags against grouping -----

  lemma FlowTable(st: Style, tokens: seq<Token>, mode: Mode)
    requires tokens != [] && TableAhead(tokens)
    ensures Flow(st, tokens, mode) ==
            CloseMode(mode) + TableHtml(st, tokens) + Flow(st, tokens[CandidateRun(tokens)..], NoList)
  {
    hide TableHtml, CloseMode, TableAhead;
  }

  lemma FlowSingle(st: Style, tokens: seq<Token>, mode: Mode)
    requires tokens != [] && !TableAhead(tokens) && !IsListItem(tokens[0])
    ensures Flow(st, tokens, mode) ==
            CloseMode(mode) + Flat(SinglePieces(st, tokens[0])) + Flow(st, tokens[1..], NoList)
  {
    hide SinglePieces, Flat, CloseMode, TableAhead;
  }

  lemma FlowItem(st: Style, tokens: seq<Token>, mode: Mode, ordered: bool)
    requires tokens != [] && tokens[0].kind == Kind(ordered)
    ensures Flow(st, tokens, mode) ==
            ItemHtml(st, mode, ordered, tokens[0].content) + Flow(st, tokens[1..], InList(ordered))
  {
    ItemIsNoTable(tokens);
    hide ItemHtml, TableAhead;
  }

  lemma FlowEnd(st: Style, tokens: seq<Token>, mode: Mode)
    requires tokens == []
    ensures Flow(st, tokens, mode) == CloseMode(mode)
  {
  }

  lemma NothingToClose(s: string)
    ensures CloseMode(NoList) + s == s
  {
  }

  /** A list that no item continues is closed first, whatever comes next. */
  lemma FlowCloses(st: Style, tokens: seq<Token>, ordered: bool)
    requires tokens == [] || tokens[0].kind != Kind(ordered)
    ensures Flow(st, tokens, InList(ordered)) == CloseMode(InList(ordered)) + Flow(st, tokens, NoList)
  {
    hide Flow, SinglePieces, ItemHtml, TableHtml, TableAhead, CloseMode, Flat;
    var mode := InList(ordered);
    if tokens == [] {
      FlowEnd(st, tokens, mode);
      FlowEnd(st, tokens, NoList);
      NothingToClose("");
      assert CloseMode(mode) + "" == CloseMode(mode);
    } else if TableAhead(tokens) {
      FlowTable(st, tokens, mode);
      FlowTable(st, tokens, NoList);
      NothingToClose(TableHtml(st, tokens));
    } else if IsListItem(tokens[0]) {
      FlowItem(st, tokens, mode, !ordered);
      FlowItem(st, tokens, NoList, !ordered);
      ItemCloses(st, ordered, tokens[0].content);
    } else {
      FlowSingle(st, tokens, mode);
      FlowSingle(st, tokens, NoList);
      NothingToClose(Flat(SinglePieces(st, tokens[0])));
    }
  }

  lemma ItemCloses(st: Style, ordered: bool, content: string)
    ensures ItemHtml(st, InList(ordered), !ordered, content) ==
            CloseMode(InList(ordered)) + ItemHtml(st, NoList, !ordered, content)
  {
    var close, open, item := CloseMode(InList(ordered)), Flat(ListOpen(!ordered)), Flat(ItemPieces(st, content));
    hide Flat, CloseMode;
    NothingToClose(open);
    assert (close + open) + item == close + (open + item);
  }

  lemma ItemIsNoTable(tokens: seq<Token>)
    requires tokens != [] && IsListItem(tokens[0])
    ensures !TableAhead(tokens)
  {
  }

  /** While a list is open its items follow one another, and then it is closed. */
  lemma {:induction false} FlowRun(st: Style, tokens: seq<Token>, ordered: bool)
    ensures var n := ItemRun(tokens, Kind(ordered));
            Flow(st, tokens, InList(ordered)) ==
            Flat(ItemsPieces(st, tokens[..n])) + (CloseMode(InList(ordered)) + Flow(st, tokens[n..], NoList))
    decreases |tokens|
  {
    hide Flow, ItemPieces, ItemsPieces, CloseMode, Flat, ItemHtml;
    if tokens == [] || tokens[0].kind != Kind(ordered) {
      FlowCloses(st, tokens, ordered);
      NoItems(st, tokens);
    } else {
      var n := ItemRun(tokens[1..], Kind(ordered));
      assert ItemRun(tokens, Kind(ordered)) == n + 1;
      hide ItemRun;
      var item, items := ItemPieces(st, tokens[0].content), ItemsPieces(st, tokens[1..][..n]);
      FlowItem(st, tokens, InList(ordered), ordered);
      FlowRun(st, tokens[1..], ordered);
      SameList(st, ordered, tokens[0].content);
      ItemsFlat(st, tokens, n);
      DropDrop(tokens, 1, n);
      Regroup(Flat(item), Flat(items), CloseMode(InList(ordered)) + Flow(st, tokens[n + 1..], NoList));
    }
  }

  lemma NoItems(st: Style, tokens: seq<Token>)
    ensures Flat(ItemsPieces(st, tokens[..0])) == "" && tokens[0..] == tokens
  {
  }

  lemma SameList(st: Style, ordered: bool, content: string)
    ensures ItemHtml(st, InList(ordered), ordered, content) == Flat(ItemPieces(st, content))
  {
  }

  lemma ListFlat(st: Style, items: seq<Token>, ordered: bool)
    ensures Flat(ListOpen(ordered) + ItemsPieces(st, items) + ListClose(ordered)) ==
            Flat(ListOpen(ordered)) + Flat(ItemsPieces(st, items)) + CloseMode(InList(ordered))
  {
    hide Flat, ItemsPieces, ListOpen, ListClose;
    FlatConcat(ListOpen(ordered), ItemsPieces(st, items));
    FlatConcat(ListOpen(ordered) + ItemsPieces(st, items), ListClose(ordered));
  }

  lemma ItemsFlat(st: Style, tokens: seq<Token>, n: nat)
    requires n < |tokens|
    ensures Flat(ItemsPieces(st, tokens[..n + 1])) ==
            Flat(ItemPieces(st, tokens[0].content)) + Flat(ItemsPieces(st, tokens[1..][..n]))
  {
    hide Flat, ItemPieces;
    assert tokens[..n + 1][0] == tokens[0] && tokens[..n + 1][1..] == tokens[1..][..n];
    FlatConcat(ItemPieces(st, tokens[0].content), ItemsPieces(st, tokens[1..][..n]));
  }

  lemma FirstItem(st: Style, ordered: bool, content: string)
    ensures ItemHtml(st, NoList, ordered, content) == Flat(ListOpen(ordered)) + Flat(ItemPieces(st, content))
  {
    hide Flat, ItemPieces, ListOpen;
    assert "" + Flat(ListOpen(ordered)) == Flat(ListOpen(ordered));
  }

  lemma Regrouped(a: string, b: string, c: string, d: string, e: string)
    ensures a + b + (c + (d + e)) == a + (b + c) + d + e
  {
  }

  /** A list from its first item on is one list block. */
  lemma FlowList(st: Style, tokens: seq<Token>, ordered: bool)
    requires tokens != [] && tokens[0].kind == Kind(ordered)
    ensures var n := ItemRun(tokens, Kind(ordered));
            n > 0 && Flow(st, tokens, NoList) ==
            Flat(ListOpen(ordered) + ItemsPieces(st, tokens[..n]) + ListClose(ordered)) + Flow(st, tokens[n..], NoList)
  {
    var n := ItemRun(tokens[1..], Kind(ordered));
    assert ItemRun(tokens, Kind(ordered)) == n + 1;
    hide Flow, ItemPieces, ItemsPieces, CloseMode, ListOpen, ListClose, ItemHtml, Flat, ItemRun;
    FlowItem(st, tokens, NoList, ordered);
    FlowRun(st, tokens[1..], ordered);
    assert tokens[n + 1..] == tokens[1..][n..];
    FirstItem(st, ordered, tokens[0].content);
    ItemsFlat(st, tokens, n);
    ListFlat(st, tokens[..n + 1], ordered);
    Regrouped(Flat(ListOpen(ordered)), Flat(ItemPieces(st, tokens[0].content)),
              Flat(ItemsPieces(st, tokens[1..][..n])), CloseMode(InList(ordered)), Flow(st, tokens[n + 1..], NoList));
  }

  /** One block at a time. */
  lemma FlowBlock(st: Style, tokens: seq<Token>)
    requires tokens != []
    ensures var b := FirstBlock(tokens);
            |b.source| <= |tokens| &&
            Flow(st, tokens, NoList) == Flat(BlockPieces(st, b)) + Flow(st, tokens[|b.source|..], NoList)
  {
    FirstBlockSize(tokens);
    var b := FirstBlock(tokens);
    if TableAhead(tokens) {
      assert |b.source| == CandidateRun(tokens);
      hide Flow, BlockPieces, Flat, CloseMode;
      FlowTable(st, tokens, NoList);
      NothingToClose(TableHtml(st, tokens));
    } else if IsListItem(tokens[0]) {
      var ordered := tokens[0].kind == ListOrdered;
      assert tokens[0].kind == Kind(ordered);
      hide Flow, Flat, ItemsPieces, ListOpen, ListClose;
      FlowList(st, tokens, ordered);
    } else {
      assert tokens[..1][0] == tokens[0];
      hide Flow, SinglePieces, Flat, CloseMode;
      FlowSingle(st, tokens, NoList);
      NothingToClose(Flat(SinglePieces(st, tokens[0])));
    }
  }

  /** The flag-driven output is the grouped one: every maximal run of items of one kind is one
      list, and every accepted table is one table. */
  lemma {:induction false} FlowIsGrouped(st: Style, tokens: seq<Token>)
    ensures Flow(st, tokens, NoList) == Blocks.Html(st, tokens)
    decreases |tokens|
  {
    if tokens != [] {
      FirstBlockSize(tokens);
      FlowBlock(st, tokens);
      var b := FirstBlock(tokens);
      var rest := tokens[|b.source|..];
      FlowIsGrouped(st, rest);
      hide Flow, FirstBlock, BlockPieces, Flat;
      FirstRest(b, Blocks.Blocks(rest));
      FlatConcat(BlockPieces(st, b), AllPieces(st, Blocks.Blocks(rest)));
    }
  }

  // ----- the emitter as it runs -----

  /** How many candidate tokens stand at `from` and after, as the lookahead loop counts them. */
  method LookAhead(tokens: seq<Token>, from: nat) returns (n: nat)
    requires from <= |tokens|
    ensures n == CandidateRun(tokens[from..])
  {
    n := 0;
    while from + n < |tokens| && IsCandidate(tokens[from + n])
      invariant from + n <= |tokens|
      invariant n + CandidateRun(tokens[from + n..]) == CandidateRun(tokens[from..])
    {
      assert tokens[from + n..][1..] == tokens[from + n + 1..];
      n := n + 1;
    }
  }

  lemma DataRowsTurn(tokens: seq<Token>, i: nat, columns: nat)
    requires i < |tokens|
    ensures DataRows(tokens[i..], columns) ==
            [Fit(ParseRow(tokens[i].content), columns)] + DataRows(tokens[i + 1..], columns)
  {
    hide Fit, ParseRow;
    assert tokens[i..][0] == tokens[i] && tokens[i..][1..] == tokens[i + 1..];
  }

  /** The data rows, each cut or padded to the header's width. */
  method NormalizeRows(tokens: seq<Token>, columns: nat) returns (rows: seq<seq<string>>)
    ensures rows == DataRows(tokens, columns)
  {
    rows := [];
    for i := 0 to |tokens|
      invariant rows + DataRows(tokens[i..], columns) == DataRows(tokens, columns)
    {
      var cells := ParseRowCells(tokens[i].content);
      DataRowsTurn(tokens, i, columns);
      hide DataRows, Fit, ParseRow;
      Regroup(rows, [Fit(cells, columns)], DataRows(tokens[i + 1..], columns));
      rows := rows + [Fit(cells, columns)];
    }
  }

  lemma NoCandidate(tokens: seq<Token>, idx: nat)
    requires idx < |tokens|
    ensures !IsCandidate(tokens[idx]) ==> !TableAhead(tokens[idx..])
    ensures CandidateRun(tokens[idx..]) <= |tokens| - idx
  {
    hide IsCandidate;
    assert tokens[idx..][0] == tokens[idx];
  }

  lemma TableAheadIs(tokens: seq<Token>, idx: nat, n: nat)
    requires idx < |tokens| && n == CandidateRun(tokens[idx..]) && n <= |tokens| - idx
    ensures TableAhead(tokens[idx..]) <==>
            n >= 2 && ParseRow(tokens[idx].content) != []
            && |ParseRow(tokens[idx + 1].content)| == |ParseRow(tokens[idx].content)|
            && Delimiters(ParseRow(tokens[idx + 1].content))
  {
    hide CandidateRun, ParseRow, Delimiters;
    if n >= 2 {
      Ahead(tokens, idx, n);
    }
  }

  /** The checks of `scan_and_emit_table`, and the rows of an accepted table. */
  method FindTable(tokens: seq<Token>, idx: nat)
    returns (found: bool, n: nat, header: seq<string>, rows: seq<seq<string>>)
    requires idx < |tokens|
    ensures found == TableAhead(tokens[idx..])
    ensures found ==> n == CandidateRun(tokens[idx..]) && 2 <= n <= |tokens| - idx
    ensures found ==> header == ParseRow(tokens[idx].content)
    ensures found ==> rows == DataRows(tokens[idx + 2..idx + n], |header|)
  {
    hide TableAhead, CandidateRun, ParseRow, DataRows, Delimiters;
    found, n, header, rows := false, 0, [], [];
    NoCandidate(tokens, idx);
    if !IsCandidate(tokens[idx]) {
      return;
    }
    n := LookAhead(tokens, idx);
    TableAheadIs(tokens, idx, n);
    if n < 2 {
      return;
    }
    header := ParseRowCells(tokens[idx].content);
    if |header| == 0 {
      return;
    }
    var separator := ParseRowCells(tokens[idx + 1].content);
    if |separator| != |header| || !Delimiters(separator) {
      return;
    }
    rows := NormalizeRows(tokens[idx + 2..idx + n], |header|);
    found := true;
  }

  lemma TableHtmlIs(st: Style, tokens: seq<Token>)
    requires TableAhead(tokens)
    ensures var header := ParseRow(tokens[0].content);
            TableHtml(st, tokens) == Flat(TablePieces(st, header, DataRows(tokens[2..CandidateRun(tokens)], |header|)))
  {
    hide Flat, TablePieces, ParseRow, CandidateRun, DataRows, Delimiters;
  }

  lemma Ahead(tokens: seq<Token>, idx: nat, n: nat)
    requires 2 <= n <= |tokens| - idx
    ensures tokens[idx..][0] == tokens[idx] && tokens[idx..][1] == tokens[idx + 1]
    ensures tokens[idx..][2..n] == tokens[idx + 2..idx + n]
  {
  }

  ghost function CodePieces(theme: Theme, registry: string -> CodeBlock.Grammar, code: string, lang: string): seq<Piece>
    requires R.SoundRegistry(registry)
  {
    CodeFrame.Pieces(theme, registry(lang), code)
  }

  /** A theme with the two decorators as they render without a cache. */
  ghost function StyleOf(theme: Theme, registry: string -> CodeBlock.Grammar): Style
    requires R.SoundRegistry(registry)
  {
    Style(theme, text => R.InlineRender((theme, text)),
          (code, lang) => CodePieces(theme, registry, code, lang))
  }

  /** The inputs that the decorators may be given, without two that collide. */
  ghost predicate Apart(registry: string -> CodeBlock.Grammar, inlines: iset<R.InlineInput>, codes: iset<R.CodeInput>)
    requires R.SoundRegistry(registry)
  {
    && !R.Collides(R.InlineKeyOf, R.InlineRender, inlines)
    && !R.Collides(R.CodeKeyOf, R.CodeRenderer(registry), codes)
  }

  /** Caches that hold renders of such inputs only. */
  ghost predicate Warmed(registry: string -> CodeBlock.Grammar, inlines: iset<R.InlineInput>, codes: iset<R.CodeInput>,
                         inlineCache: Lru.Cache, codeCache: Lru.Cache)
    requires R.SoundRegistry(registry)
  {
    && R.Coherent(R.InlineKeyOf, R.InlineRender, inlines, inlineCache)
    && R.Coherent(R.CodeKeyOf, R.CodeRenderer(registry), codes, codeCache)
  }

  /** Everything the emitter may decorate for a token is among the inputs. */
  ghost predicate Covered(theme: Theme, inlines: iset<R.InlineInput>, codes: iset<R.CodeInput>, t: Token) {
    && (t.kind == CodeBlock ==> R.CodeInput(theme, t.content, t.language) in codes)
    && (t.kind != CodeBlock ==> (theme, t.content) in inlines)
    && (IsCandidate(t) ==> (theme, "") in inlines && CellsCovered(theme, inlines, ParseRow(t.content)))
  }

  ghost predicate CellsCovered(theme: Theme, inlines: iset<R.InlineInput>, cells: seq<string>) {
    forall c :: c in cells ==> (theme, Trim(c)) in inlines
  }

  lemma CodeLook(theme: Theme, registry: string -> CodeBlock.Grammar, code: string, lang: string)
    requires R.SoundRegistry(registry)
    ensures CodeBlock.SoundGrammar(registry(lang))
    ensures var rendered := CodeBlock.Html(theme, registry(lang), code);
            && Flat(StyleOf(theme, registry).code(code, lang)) == rendered
            && R.CodeRenderer(registry)(R.CodeInput(theme, code, lang)) == rendered
  {
    hide CodeBlock.Html, CodeBlock.SoundGrammar, CodeFrame.Pieces, Flat;
    CodeFrame.PiecesFlat(theme, registry(lang), code);
  }

  /** Code as it is rendered closes the tags it opens. */
  lemma StyleFramed(theme: Theme, registry: string -> CodeBlock.Grammar)
    requires R.SoundRegistry(registry)
    ensures Framed(StyleOf(theme, registry))
  {
    hide Neutral, CodeFrame.FramePieces, CodeHtml.Formatted, CodeBlock.Marked, Hex.Encode;
    forall code, lang, open
      ensures Neutral(StyleOf(theme, registry).code(code, lang), open)
    {
      CodeFrame.FrameNeutral(theme, CodeHtml.Formatted(theme, CodeBlock.Marked(registry(lang), code)),
                             Hex.Encode(code), open);
    }
  }

  /** What a call of `decorate_code_block` answers, and what it leaves in the cache. */
  lemma ServeCode(theme: Theme, registry: string -> CodeBlock.Grammar,
                  inlines: iset<R.InlineInput>, codes: iset<R.CodeInput>,
                  inlineCache: Lru.Cache, codeCache: Lru.Cache, code: string, lang: string)
    requires R.SoundRegistry(registry) && Apart(registry, inlines, codes)
    requires R.CodeInput(theme, code, lang) in codes
    requires Warmed(registry, inlines, codes, inlineCache, codeCache)
    ensures var key, rendered := R.CodeKey(theme, code, lang), Flat(StyleOf(theme, registry).code(code, lang));
            && (key in codeCache.store ==> codeCache.store[key] == rendered)
            && Warmed(registry, inlines, codes, inlineCache, R.Serve(codeCache, key, rendered).0)
  {
    hide StyleOf, R.SoundRegistry, R.CodeRenderer, R.CodeKey, R.Coherent, R.Collides, CodeBlock.Html, Flat;
    CodeLook(theme, registry, code, lang);
    var render, i := R.CodeRenderer(registry), R.CodeInput(theme, code, lang);
    assert R.CodeKeyOf(i) == R.CodeKey(theme, code, lang);
    hide R.CodeKeyOf;
    R.ServeCoherent(R.CodeKeyOf, render, codes, codeCache, i);
  }

  class HtmlEmitter {
    const theme: Theme
    const registry: string -> CodeBlock.Grammar
    var html: string
    var inUnordered: bool
    var inOrdered: bool

    // The two static caches, as the plain lists that the heap-allocated ones refine.
    var inlineCache: Lru.Cache
    var codeCache: Lru.Cache

    ghost const st: Style
    ghost const inlines: iset<R.InlineInput>
    ghost const codes: iset<R.CodeInput>

    /** The two flags are never up together. */
    ghost predicate Valid()
      reads this`inUnordered, this`inOrdered
    {
      !(inUnordered && inOrdered) && st.theme == theme
    }

    function CurrentMode(): Mode
      reads this`inUnordered, this`inOrdered
    {
      if inUnordered then InList(false) else if inOrdered then InList(true) else NoList
    }

    /** Whatever the caches answer is what rendering would answer. */
    ghost predicate Warm()
      reads this`inlineCache, this`codeCache
    {
      && R.SoundRegistry(registry) && st == StyleOf(theme, registry)
      && Apart(registry, inlines, codes) && Warmed(registry, inlines, codes, inlineCache, codeCache)
    }

    constructor (theme: Theme, registry: string -> CodeBlock.Grammar, inlineCache: Lru.Cache, codeCache: Lru.Cache,
                 ghost inlines: iset<R.InlineInput>, ghost codes: iset<R.CodeInput>)
      requires R.SoundRegistry(registry) && Apart(registry, inlines, codes)
      requires Warmed(registry, inlines, codes, inlineCache, codeCache)
      ensures this.theme == theme && this.registry == registry && this.inlines == inlines && this.codes == codes
      ensures st == StyleOf(theme, registry) && Valid() && Warm() && html == "" && CurrentMode() == NoList
    {
      this.theme, this.registry, this.inlines, this.codes := theme, registry, inlines, codes;
      this.inlineCache, this.codeCache := inlineCache, codeCache;
      this.st := StyleOf(theme, registry);
      html, inUnordered, inOrdered := "", false, false;
    }

    /** `decorate_inline_text`: answered from the cache, or rendered and stored. */
    method DecorateInline(text: string) returns (decorated: string)
      requires Warm() && (theme, text) in inlines
      modifies this`inlineCache
      ensures Warm() && decorated == st.inline(text)
    {
      hide R.Coherent, R.Collides, R.InlineKey, Inline.Html, Lru.Step;
      var key := R.InlineKey(theme, text);
      R.ServeCoherent(R.InlineKeyOf, R.InlineRender, inlines, inlineCache, (theme, text));
      if key in inlineCache.store {
        decorated := inlineCache.store[key];
        inlineCache := Lru.Step(inlineCache, Lru.Get(key));
      } else {
        decorated := R.RenderInline(theme, text);
        inlineCache := Lru.Step(Lru.Step(inlineCache, Lru.Get(key)), Lru.Put(key, decorated));
      }
    }

    /** `decorate_code_block`, likewise. */
    method DecorateCode(code: string, lang: string) returns (decorated: string)
      requires Warm() && R.CodeInput(theme, code, lang) in codes
      modifies this`codeCache
      ensures Warm() && decorated == Flat(st.code(code, lang))
    {
      hide Apart, Warmed, StyleOf, R.SoundRegistry, R.CodeKey, CodeBlock.Html, CodeBlock.SoundGrammar, Lru.Step;
      var key := R.CodeKey(theme, code, lang);
      CodeLook(theme, registry, code, lang);
      ServeCode(theme, registry, inlines, codes, inlineCache, codeCache, code, lang);
      if key in codeCache.store {
        decorated := codeCache.store[key];
        codeCache := Lru.Step(codeCache, Lru.Get(key));
      } else {
        decorated := CodeBlock.Render(theme, registry(lang), code);
        codeCache := Lru.Step(Lru.Step(codeCache, Lru.Get(key)), Lru.Put(key, decorated));
      }
    }

    /** `close_active_lists`. */
    method CloseActiveLists()
      requires Valid()
      modifies this`html, this`inUnordered, this`inOrdered
      ensures Valid() && CurrentMode() == NoList && html == old(html) + CloseMode(old(CurrentMode()))
    {
      CloseStrings();
      if inUnordered {
        html := html + "</ul>";
        inUnordered := false;
      }
      if inOrdered {
        html := html + "</ol><br>";
        inOrdered := false;
      }
    }

    /** The tags of `handle_list`: the other kind of list is closed, this kind is opened if need be. */
    method SwitchTo(ordered: bool)
      requires Valid()
      modifies this`html, this`inUnordered, this`inOrdered
      ensures Valid() && CurrentMode() == InList(ordered)
      ensures html == old(html) + if old(CurrentMode()) == InList(ordered) then ""
                                  else CloseMode(old(CurrentMode())) + Flat(ListOpen(ordered))
    {
      CloseStrings();
      OpenStrings(ordered);
      hide Flat, ListOpen, CloseMode;
      if ordered {
        if inUnordered {
          html := html + "</ul>";
          inUnordered := false;
        }
        if !inOrdered {
          html := html + "<ol>";
          inOrdered := true;
        }
      } else {
        if inOrdered {
          html := html + "</ol><br>";
          inOrdered := false;
        }
        if !inUnordered {
          html := html + "<ul>";
          inUnordered := true;
        }
      }
    }

    /** `handle_list`. */
    method HandleList(content: string, ordered: bool)
      requires Valid() && Warm() && (theme, content) in inlines
      modifies this
      ensures Valid() && Warm() && CurrentMode() == InList(ordered)
      ensures html == old(html) + ItemHtml(st, old(CurrentMode()), ordered, content)
    {
      hide Flat, ListOpen, ItemMarkup, CloseMode, HtmlEmitter.Warm;
      SwitchTo(ordered);
      var text := DecorateInline(content);
      html := html + Flat(ItemMarkup(text));
    }

    /** `emit_rendered_cells`. */
    method EmitCells(cells: seq<string>, head: bool)
      requires Valid() && Warm() && CellsCovered(theme, inlines, cells)
      modifies this`html, this`inlineCache
      ensures Warm() && html == old(html) + Flat(CellsPieces(st, head, cells))
    {
      hide CellMarkup, CellsPieces, Flat, HtmlEmitter.Warm;
      WholeAndNothing(st, head, cells);
      for i := 0 to |cells|
        invariant Warm()
        invariant html + Flat(CellsPieces(st, head, cells[i..])) == old(html) + Flat(CellsPieces(st, head, cells))
      {
        CellsTurn(st, head, cells, i);
        var text := DecorateInline(Trim(cells[i]));
        html := html + Flat(CellMarkup(theme, head, text));
      }
    }

    method EmitRow(cells: seq<string>, head: bool)
      requires Valid() && Warm() && CellsCovered(theme, inlines, cells)
      modifies this`html, this`inlineCache
      ensures Warm() && html == old(html) + Flat(RowPieces(st, head, cells))
    {
      RowStrings(st, head, cells);
      hide CellsPieces, Flat, HtmlEmitter.Warm, CellsCovered;
      html := html + "<tr>";
      EmitCells(cells, head);
      html := html + "</tr>";
    }

    method EmitRows(rows: seq<seq<string>>)
      requires Valid() && Warm() && forall r :: r in rows ==> CellsCovered(theme, inlines, r)
      modifies this`html, this`inlineCache
      ensures Warm() && html == old(html) + Flat(RowsPieces(st, rows))
    {
      hide RowPieces, HtmlEmitter.Warm, CellsCovered;
      for i := 0 to |rows|
        invariant Warm() && html + Flat(RowsPieces(st, rows[i..])) == old(html) + Flat(RowsPieces(st, rows))
      {
        assert rows[i..][0] == rows[i] && rows[i..][1..] == rows[i + 1..];
        FlatConcat(RowPieces(st, false, rows[i]), RowsPieces(st, rows[i + 1..]));
        EmitRow(rows[i], false);
      }
    }

    /** `scan_and_emit_table`: either writes the whole table at `idx` or changes nothing. */
    method ScanAndEmitTable(tokens: seq<Token>, idx: nat) returns (accepted: bool, next: nat)
      requires Valid() && Warm() && idx < |tokens| && forall t :: t in tokens ==> Covered(theme, inlines, codes, t)
      modifies this
      ensures Valid() && Warm() && accepted == TableAhead(tokens[idx..])
      ensures accepted ==> CurrentMode() == NoList && next == idx + CandidateRun(tokens[idx..])
      ensures accepted ==> html == old(html) + CloseMode(old(CurrentMode())) + TableHtml(st, tokens[idx..])
      ensures !accepted ==> unchanged(this)
    {
      hide TableAhead, TableHtml, CloseMode, HtmlEmitter.Warm, HtmlEmitter.Valid, Flat, TablePieces, ParseRow;
      var n, header, rows;
      accepted, n, header, rows := FindTable(tokens, idx);
      if !accepted {
        return false, idx;
      }
      TableCovered(theme, inlines, codes, tokens, idx, n);
      TableHtmlIs(st, tokens[idx..]);
      Ahead(tokens, idx, n);
      hide Covered, CellsCovered, CandidateRun, DataRows;
      WriteTable(header, rows);
      next := idx + n;
    }

    method WriteTable(header: seq<string>, rows: seq<seq<string>>)
      requires Valid() && Warm() && CellsCovered(theme, inlines, header)
      requires forall r :: r in rows ==> CellsCovered(theme, inlines, r)
      modifies this
      ensures Valid() && Warm() && CurrentMode() == NoList
      ensures html == old(html) + CloseMode(old(CurrentMode())) + Flat(TablePieces(st, header, rows))
    {
      TableStrings(st, header, rows);
      hide Flat, RowPieces, RowsPieces, TablePieces, TableTag, CloseMode, HtmlEmitter.Warm, CellsCovered;
      CloseActiveLists();
      ghost var before := html;
      html := html + ("<br>" + TableTag(theme).html);
      EmitRow(header, true);
      EmitRows(rows);
      html := html + "</table><br>";
      Four(before, "<br>" + TableTag(theme).html, Flat(RowPieces(st, true, header)), Flat(RowsPieces(st, rows)),
           "</table><br>");
    }

    /** The loop of `emit`. */
    method Emit(tokens: seq<Token>)
      requires Valid() && Warm() && CurrentMode() == NoList && html == ""
      requires forall t :: t in tokens ==> Covered(theme, inlines, codes, t)
      modifies this
      ensures Warm() && html == Blocks.Html(st, tokens)
    {
      hide Flow, TableAhead, ItemHtml, CloseMode, SinglePieces, Flat, TableHtml, HtmlEmitter.Warm, Covered, Blocks.Html;
      FlowIsGrouped(st, tokens);
      assert tokens[0..] == tokens;
      var idx := 0;
      while idx < |tokens|
        invariant idx <= |tokens| && Valid() && Warm()
        invariant html + Flow(st, tokens[idx..], CurrentMode()) == Blocks.Html(st, tokens)
        decreases |tokens| - idx
      {
        idx := EmitNext(tokens, idx);
      }
      FlowEnd(st, tokens[idx..], CurrentMode());
      CloseActiveLists();
    }

    /** One turn of the loop: a table, a list item or a single token. */
    method EmitNext(tokens: seq<Token>, idx: nat) returns (next: nat)
      requires Valid() && Warm() && idx < |tokens| && forall t :: t in tokens ==> Covered(theme, inlines, codes, t)
      modifies this
      ensures Valid() && Warm() && idx < next <= |tokens|
      ensures html + Flow(st, tokens[next..], CurrentMode()) ==
              old(html) + Flow(st, tokens[idx..], old(CurrentMode()))
    {
      hide Flow, TableAhead, CloseMode, TableHtml, HtmlEmitter.Warm, Covered;
      var accepted;
      accepted, next := ScanAndEmitTable(tokens, idx);
      if accepted {
        TurnTable(st, tokens, idx, old(CurrentMode()), old(html));
      } else {
        EmitToken(tokens, idx);
        next := idx + 1;
      }
    }

    /** The switch of `emit`. */
    method EmitToken(tokens: seq<Token>, idx: nat)
      requires Valid() && Warm() && idx < |tokens| && !TableAhead(tokens[idx..])
      requires Covered(theme, inlines, codes, tokens[idx])
      modifies this
      ensures Valid() && Warm()
      ensures html + Flow(st, tokens[idx + 1..], CurrentMode()) ==
              old(html) + Flow(st, tokens[idx..], old(CurrentMode()))
    {
      hide Flow, TableAhead, ItemHtml, CloseMode, SinglePieces, Flat, HtmlEmitter.Warm, Covered;
      TurnToken(st, tokens, idx, CurrentMode(), html);
      var token := tokens[idx];
      TextCovered(theme, inlines, codes, token);
      if token.kind == ListUnordered {
        HandleList(token.content, false);
      } else if token.kind == ListOrdered {
        HandleList(token.content, true);
      } else {
        CloseActiveLists();
        WriteSingle(token);
      }
    }

    /** `handle_header`, `handle_divider`, `handle_code_block` and `handle_paragraph`. */
    method WriteSingle(token: Token)
      requires Valid() && Warm() && Covered(theme, inlines, codes, token)
      modifies this`html, this`inlineCache, this`codeCache
      ensures Warm() && html == old(html) + Flat(SinglePieces(st, token))
    {
      SingleStrings(st, token);
      hide Flat, HeaderMarkup, ParagraphMarkup, HtmlEmitter.Warm, SinglePieces, Covered;
      TextCovered(theme, inlines, codes, token);
      if IsHeader(token.kind) {
        var text := DecorateInline(token.content);
        html := html + Flat(HeaderMarkup(theme, HeaderSize(token.kind), text));
      } else if token.kind == Divider {
        html := html + "<hr>";
      } else if token.kind == CodeBlock {
        var block := DecorateCode(token.content, token.language);
        html := html + block;
      } else if token.content != "" {
        var text := DecorateInline(token.content);
        html := html + Flat(ParagraphMarkup(text));
      }
    }
  }

  lemma TextCovered(theme: Theme, inlines: iset<R.InlineInput>, codes: iset<R.CodeInput>, t: Token)
    requires Covered(theme, inlines, codes, t)
    ensures t.kind != CodeBlock ==> (theme, t.content) in inlines
    ensures t.kind == CodeBlock ==> R.CodeInput(theme, t.content, t.language) in codes
  {
  }

  lemma SingleStrings(st: Style, t: Token)
    ensures Flat(SinglePieces(st, t)) ==
            if IsHeader(t.kind) then Flat(HeaderMarkup(st.theme, HeaderSize(t.kind), st.inline(t.content)))
            else if t.kind == Divider then "<hr>"
            else if t.kind == CodeBlock then Flat(st.code(t.content, t.language))
            else if t.content == "" then ""
            else Flat(ParagraphMarkup(st.inline(t.content)))
  {
    FlatLeaf("<hr>");
    hide HeaderMarkup, ParagraphMarkup;
  }

  lemma FlatLeaf(html: string)
    ensures Flat([Leaf(html)]) == html && Flat([]) == ""
  {
    FlatOne(Leaf(html));
  }

  lemma TableCovered(theme: Theme, inlines: iset<R.InlineInput>, codes: iset<R.CodeInput>,
                     tokens: seq<Token>, idx: nat, n: nat)
    requires (forall t :: t in tokens ==> Covered(theme, inlines, codes, t)) && idx < |tokens|
    requires 2 <= n <= |tokens| - idx && n == CandidateRun(tokens[idx..])
    ensures var header := ParseRow(tokens[idx].content);
            && CellsCovered(theme, inlines, header)
            && forall r :: r in DataRows(tokens[idx + 2..idx + n], |header|) ==> CellsCovered(theme, inlines, r)
  {
    hide ParseRow, DataRows, CellsCovered, IsCandidate;
    assert forall t :: t in tokens[idx..] ==> t in tokens;
    CandidateRunIs(tokens[idx..]);
    var run := tokens[idx..][..n];
    assert run[0] == tokens[idx] && run[0] in run && tokens[idx] in tokens;
    assert tokens[idx + 2..idx + n] == run[2..] && forall t :: t in run[2..] ==> t in run;
    RowsCovered(theme, inlines, codes, tokens[idx + 2..idx + n], |ParseRow(tokens[idx].content)|);
  }

  /** The cells of the data rows, and those they are padded with, are among the inputs. */
  lemma {:induction false} RowsCovered(theme: Theme, inlines: iset<R.InlineInput>, codes: iset<R.CodeInput>,
                                       tokens: seq<Token>, n: nat)
    requires forall t :: t in tokens ==> IsCandidate(t) && Covered(theme, inlines, codes, t)
    ensures forall r :: r in DataRows(tokens, n) ==> CellsCovered(theme, inlines, r)
  {
    if tokens != [] {
      var cells := ParseRow(tokens[0].content);
      assert tokens[0] in tokens && Trim("") == "";
      assert forall c :: c in Fit(cells, n) ==> c in cells || c == "";
      RowsCovered(theme, inlines, codes, tokens[1..], n);
    }
  }

  lemma CloseStrings()
    ensures CloseMode(NoList) == "" && CloseMode(InList(false)) == "</ul>" && CloseMode(InList(true)) == "</ol><br>"
  {
    FlatOne(End("ul"));
    FlatPair(End("ol"), Leaf("<br>"));
    hide Flat;
    assert ListClose(false) == [End("ul")] && ListClose(true) == [End("ol"), Leaf("<br>")];
    assert "</" + "ul" + ">" == "</ul>" && "</" + "ol" + ">" + "<br>" == "</ol><br>";
  }

  lemma OpenStrings(ordered: bool)
    ensures Flat(ListOpen(ordered)) == if ordered then "<ol>" else "<ul>"
  {
    assert ListOpen(ordered)[1..] == [];
  }

  lemma RowStrings(st: Style, head: bool, cells: seq<string>)
    ensures Flat(RowPieces(st, head, cells)) == "<tr>" + Flat(CellsPieces(st, head, cells)) + "</tr>"
  {
    hide CellsPieces;
    var tr, inner, end := Tag("tr", ""), CellsPieces(st, head, cells), End("tr");
    assert [tr][1..] == [] && [end][1..] == [];
    FlatConcat([tr] + inner, [end]);
    FlatConcat([tr], inner);
    assert Flat([tr]) == "<tr>" && Flat([end]) == "</tr>";
  }

  lemma FlatFour(a: seq<Piece>, b: seq<Piece>, c: seq<Piece>, d: seq<Piece>)
    ensures Flat(a + b + c + d) == Flat(a) + Flat(b) + Flat(c) + Flat(d)
  {
    hide Flat;
    FlatConcat(a + b + c, d);
    FlatConcat(a + b, c);
    FlatConcat(a, b);
  }

  lemma TableStrings(st: Style, header: seq<string>, rows: seq<seq<string>>)
    ensures Flat(TablePieces(st, header, rows)) ==
            ("<br>" + TableTag(st.theme).html) + Flat(RowPieces(st, true, header)) + Flat(RowsPieces(st, rows))
            + "</table><br>"
  {
    hide RowPieces, RowsPieces, Flat, TableTag;
    FlatFour([Leaf("<br>"), TableTag(st.theme)], RowPieces(st, true, header), RowsPieces(st, rows),
             [End("table"), Leaf("<br>")]);
    FlatPair(Leaf("<br>"), TableTag(st.theme));
    FlatPair(End("table"), Leaf("<br>"));
    assert "</" + "table" + ">" + "<br>" == "</table><br>";
  }

  lemma WholeAndNothing(st: Style, head: bool, cells: seq<string>)
    ensures Flat(CellsPieces(st, head, cells[|cells|..])) == ""
    ensures cells[0..] == cells
  {
  }

  lemma CellsTurn(st: Style, head: bool, cells: seq<string>, i: nat)
    requires i < |cells|
    ensures Flat(CellsPieces(st, head, cells[i..])) ==
            Flat(CellPieces(st, head, cells[i])) + Flat(CellsPieces(st, head, cells[i + 1..]))
  {
    hide CellPieces, Flat;
    assert cells[i..][0] == cells[i] && cells[i..][1..] == cells[i + 1..];
    FlatConcat(CellPieces(st, head, cells[i]), CellsPieces(st, head, cells[i + 1..]));
  }

  lemma Four(s: string, a: string, b: string, c: string, d: string)
    ensures s + a + b + c + d == s + (a + b + c + d)
  {
  }

  lemma Prepend(a: string, b: string, c: string, d: string)
    ensures a + (b + c + d) == a + b + c + d
    ensures a + (b + d) == a + b + d
  {
  }

  /** What an accepted table adds to the output is what the flow starts with. */
  lemma TurnTable(st: Style, tokens: seq<Token>, idx: nat, mode: Mode, html: string)
    requires idx < |tokens| && TableAhead(tokens[idx..])
    ensures var n := CandidateRun(tokens[idx..]);
            && 0 < n <= |tokens| - idx
            && html + Flow(st, tokens[idx..], mode) ==
               html + CloseMode(mode) + TableHtml(st, tokens[idx..]) + Flow(st, tokens[idx + n..], NoList)
  {
    hide TableHtml, CloseMode, Flow, TableAhead;
    var ahead := tokens[idx..];
    var n := CandidateRun(ahead);
    TableIsLong(ahead);
    FlowTable(st, ahead, mode);
    DropDrop(tokens, idx, n);
    Prepend(html, CloseMode(mode), TableHtml(st, ahead), Flow(st, tokens[idx + n..], NoList));
  }

  lemma TableIsLong(tokens: seq<Token>)
    requires TableAhead(tokens)
    ensures 0 < CandidateRun(tokens) <= |tokens|
  {
  }

  /** And so is what any other token adds. */
  lemma TurnToken(st: Style, tokens: seq<Token>, idx: nat, mode: Mode, html: string)
    requires idx < |tokens| && !TableAhead(tokens[idx..])
    ensures var t, rest := tokens[idx], tokens[idx + 1..];
            html + Flow(st, tokens[idx..], mode) ==
            if t.kind == ListUnordered then
              html + ItemHtml(st, mode, false, t.content) + Flow(st, rest, InList(false))
            else if t.kind == ListOrdered then
              html + ItemHtml(st, mode, true, t.content) + Flow(st, rest, InList(true))
            else
              html + CloseMode(mode) + Flat(SinglePieces(st, t)) + Flow(st, rest, NoList)
  {
    var ahead, t, rest := tokens[idx..], tokens[idx], tokens[idx + 1..];
    assert ahead[0] == t && ahead[1..] == rest;
    hide ItemHtml, CloseMode, SinglePieces, Flat, TableAhead, Flow;
    if IsListItem(t) {
      var ordered := t.kind == ListOrdered;
      FlowItem(st, ahead, mode, ordered);
      Prepend(html, ItemHtml(st, mode, ordered, t.content), "", Flow(st, rest, InList(ordered)));
    } else {
      FlowSingle(st, ahead, mode);
      Prepend(html, CloseMode(mode), Flat(SinglePieces(st, t)), Flow(st, rest, NoList));
    }
  }
}
