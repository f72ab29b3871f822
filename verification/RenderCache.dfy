/** Rendering through the fragment cache: when a cached render is always the uncached one. */
module RenderCache {
  import opened Text
  import opened Theme
  import opened Fnv
  import opened Lru
  import F = FragmentCache
  import Inline
  import CodeBlock
  import CodeHtml
  import Highlighter

  // ----- any render behind a cache -----

  /** One render call: a hit answers from the cache, a miss renders and stores. */
  function Serve(c: Cache, key: nat, rendered: string): (Cache, string) {
    if key in c.store then (Step(c, Get(key)), c.store[key])
    else (Step(Step(c, Get(key)), Put(key, rendered)), rendered)
  }

  /** What a run of render calls on `xs` answers, starting from the cache `c`. */
  ghost function Replies<I>(key: I -> nat, render: I -> string, c: Cache, xs: seq<I>): seq<string>
    decreases |xs|
  {
    if xs == [] then []
    else
      var r := Serve(c, key(xs[0]), render(xs[0]));
      [r.1] + Replies(key, render, r.0, xs[1..])
  }

  /** What the same calls answer without a cache. */
  ghost function Uncached<I>(render: I -> string, xs: seq<I>): seq<string> {
    if xs == [] then [] else [render(xs[0])] + Uncached(render, xs[1..])
  }

  const EMPTY: Cache := Cache([], map[])

  /** From an empty cache, every run on inputs from `s` answers as without the cache. */
  ghost predicate Transparent<I(!new)>(key: I -> nat, render: I -> string, s: iset<I>) {
    forall xs: seq<I> :: (forall x :: x in xs ==> x in s) ==>
      Replies(key, render, EMPTY, xs) == Uncached(render, xs)
  }

  /** Inputs with the same key render the same. */
  ghost predicate Collides<I(!new)>(key: I -> nat, render: I -> string, s: iset<I>) {
    exists a, b :: a in s && b in s && key(a) == key(b) && render(a) != render(b)
  }

  /** Everything stored is the render of an input from `s` that has this key. */
  ghost predicate Coherent<I(!new)>(key: I -> nat, render: I -> string, s: iset<I>, c: Cache) {
    forall k :: k in c.store ==> exists x :: x in s && key(x) == k && c.store[k] == render(x)
  }

  lemma ServeCoherent<I(!new)>(key: I -> nat, render: I -> string, s: iset<I>, c: Cache, x: I)
    requires !Collides(key, render, s) && Coherent(key, render, s, c) && x in s
    ensures var r := Serve(c, key(x), render(x));
            r.1 == render(x) && Coherent(key, render, s, r.0)
  {
    var r := Serve(c, key(x), render(x));
    forall k | k in r.0.store
      ensures exists y :: y in s && key(y) == k && r.0.store[k] == render(y)
    {
      if k == key(x) {
        assert r.0.store[k] == render(x);
      } else {
        assert k in c.store && r.0.store[k] == c.store[k];
      }
    }
  }

  lemma {:induction false} CoherentReplies<I(!new)>(key: I -> nat, render: I -> string, s: iset<I>, c: Cache,
                                                    xs: seq<I>)
    requires !Collides(key, render, s) && Coherent(key, render, s, c)
    requires forall x :: x in xs ==> x in s
    ensures Replies(key, render, c, xs) == Uncached(render, xs)
    decreases |xs|
  {
    if xs != [] {
      var x := xs[0];
      ServeCoherent(key, render, s, c, x);
      CoherentReplies(key, render, s, Serve(c, key(x), render(x)).0, xs[1..]);
    }
  }

  /** The cache is invisible, over every run with its hits and evictions, exactly when no two
      inputs share a key and render differently. */
  lemma TransparentIff<I(!new)>(key: I -> nat, render: I -> string, s: iset<I>)
    ensures Transparent(key, render, s) <==> !Collides(key, render, s)
  {
    if Collides(key, render, s) {
      var a, b :| a in s && b in s && key(a) == key(b) && render(a) != render(b);
      CollisionShows(key, render, a, b);
      assert forall x :: x in [a, b] ==> x in s;
    } else {
      forall xs: seq<I> | forall x :: x in xs ==> x in s
        ensures Replies(key, render, EMPTY, xs) == Uncached(render, xs)
      {
        CoherentReplies(key, render, s, EMPTY, xs);
      }
    }
  }

  /** The same when it is known which inputs share a key. */
  lemma TransparentExactly<I(!new)>(key: I -> nat, render: I -> string, s: iset<I>, confusable: (I, I) -> bool)
    requires forall i, j :: i in s && j in s ==> (key(i) == key(j) <==> confusable(i, j))
    ensures Transparent(key, render, s) <==>
            forall i, j :: i in s && j in s && confusable(i, j) ==> render(i) == render(j)
  {
    TransparentIff(key, render, s);
  }

  /** Of two inputs with one key, the cache is transparent exactly if they render alike. */
  lemma PairTransparent<I(!new)>(key: I -> nat, render: I -> string, i: I, j: I)
    requires key(i) == key(j)
    ensures Transparent(key, render, iset{i, j}) <==> render(i) == render(j)
  {
    var s := iset{i, j};
    assert i in s && j in s && forall x :: x in s <==> x == i || x == j;
    hide Transparent;
    TransparentIff(key, render, s);
  }

  lemma CollisionShows<I(!new)>(key: I -> nat, render: I -> string, a: I, b: I)
    requires key(a) == key(b) && render(a) != render(b)
    ensures Replies(key, render, EMPTY, [a, b]) != Uncached(render, [a, b])
  {
    var c := Serve(EMPTY, key(a), render(a)).0;
    assert c.store == map[key(a) := render(a)];
    assert [a, b][1..] == [b];
    assert Replies(key, render, EMPTY, [a, b]) == [render(a)] + Replies(key, render, c, [b]);
    assert Replies(key, render, c, [b])[0] == render(a);
    assert Uncached(render, [a, b]) == [render(a)] + Uncached(render, [b]);
    assert Uncached(render, [b])[0] == render(b);
    assert Replies(key, render, EMPTY, [a, b])[1] != Uncached(render, [a, b])[1];
  }

  // ----- the keys -----

  /** The unit separator that joins the fields of a fingerprint. */
  const SEP: char := 0x1f as char

  /** `theme_fingerprint`. */
  function Fingerprint(theme: Theme): string {
    theme.codeString + [SEP] + (theme.codeComment + [SEP] + (theme.codeKeyword + [SEP] +
    (theme.codeBg + [SEP] + theme.textPrimary)))
  }

  function InlineKey(theme: Theme, text: string): nat {
    Hash(text, Hash(Fingerprint(theme), OFFSET_BASIS))
  }

  function CodeKey(theme: Theme, code: string, lang: string): nat {
    Hash(Fingerprint(theme), Hash(lang, Hash(code, OFFSET_BASIS)))
  }

  /** The string whose plain FNV-1a hash the inline key is. */
  function InlineHashed(theme: Theme, text: string): string {
    Fingerprint(theme) + text
  }

  /** The string whose plain FNV-1a hash the code key is. */
  function CodeHashed(theme: Theme, code: string, lang: string): string {
    code + lang + Fingerprint(theme)
  }

  lemma KeysHashConcatenations(theme: Theme, text: string, lang: string)
    ensures InlineKey(theme, text) == Hash(InlineHashed(theme, text), OFFSET_BASIS)
    ensures CodeKey(theme, text, lang) == Hash(CodeHashed(theme, text, lang), OFFSET_BASIS)
  {
    HashConcat(Fingerprint(theme), text, OFFSET_BASIS);
    HashConcat(text + lang, Fingerprint(theme), OFFSET_BASIS);
    HashConcat(text, lang, OFFSET_BASIS);
  }

  // ----- inline text -----

  /** No field of the fingerprint holds the separator. */
  predicate Clean(theme: Theme) {
    && SEP !in theme.codeString && SEP !in theme.codeComment && SEP !in theme.codeKeyword
    && SEP !in theme.codeBg && SEP !in theme.textPrimary
  }

  lemma SplitAtFirst(a: string, b: string, x: string, y: string, c: char)
    requires c !in a && c !in x && a + [c] + b == x + [c] + y
    ensures a == x && b == y
  {
    CutAtFirst(a, b, c);
    CutAtFirst(x, y, c);
  }

  /** What an inline key's string determines: every colour of the fingerprint but the last, and
      the last together with the text. */
  lemma InlineHashedDetermines(t: Theme, x: string, u: Theme, y: string)
    requires Clean(t) && Clean(u)
    ensures InlineHashed(t, x) == InlineHashed(u, y) <==>
            && t.codeString == u.codeString && t.codeComment == u.codeComment
            && t.codeKeyword == u.codeKeyword && t.codeBg == u.codeBg
            && t.textPrimary + x == u.textPrimary + y
  {
    InlineHashedFields(t, x);
    InlineHashedFields(u, y);
    if InlineHashed(t, x) == InlineHashed(u, y) {
      var t4, u4 := t.textPrimary + x, u.textPrimary + y;
      var t3, u3 := t.codeBg + [SEP] + t4, u.codeBg + [SEP] + u4;
      var t2, u2 := t.codeKeyword + [SEP] + t3, u.codeKeyword + [SEP] + u3;
      var t1, u1 := t.codeComment + [SEP] + t2, u.codeComment + [SEP] + u2;
      SplitAtFirst(t.codeString, t1, u.codeString, u1, SEP);
      SplitAtFirst(t.codeComment, t2, u.codeComment, u2, SEP);
      SplitAtFirst(t.codeKeyword, t3, u.codeKeyword, u3, SEP);
      SplitAtFirst(t.codeBg, t4, u.codeBg, u4, SEP);
    }
  }

  lemma InlineHashedFields(t: Theme, x: string)
    ensures InlineHashed(t, x) ==
            t.codeString + [SEP] + (t.codeComment + [SEP] + (t.codeKeyword + [SEP] +
            (t.codeBg + [SEP] + (t.textPrimary + x))))
  {
    var a3, b3 := t.codeBg + [SEP] + t.textPrimary, t.codeBg + [SEP] + (t.textPrimary + x);
    assert a3 + x == b3;
    var a2, b2 := t.codeKeyword + [SEP] + a3, t.codeKeyword + [SEP] + b3;
    assert a2 + x == b2;
    var a1, b1 := t.codeComment + [SEP] + a2, t.codeComment + [SEP] + b2;
    assert a1 + x == b1;
  }

  type InlineInput = (Theme, string)

  function InlineKeyOf(i: InlineInput): nat {
    InlineKey(i.0, i.1)
  }

  function InlineRender(i: InlineInput): string {
    Inline.Html(i.0.codeString, i.1)
  }

  /** The hash gives inputs with different strings different keys. */
  ghost predicate KeepsInlineApart(s: iset<InlineInput>) {
    forall i, j :: i in s && j in s && InlineKeyOf(i) == InlineKeyOf(j) ==>
      InlineHashed(i.0, i.1) == InlineHashed(j.0, j.1)
  }

  /** Two inputs that the fingerprint does not tell apart: only the border between the text colour
      and the text may lie elsewhere. */
  predicate InlineConfusable(i: InlineInput, j: InlineInput) {
    && i.0.codeString == j.0.codeString && i.0.codeComment == j.0.codeComment
    && i.0.codeKeyword == j.0.codeKeyword && i.0.codeBg == j.0.codeBg
    && i.0.textPrimary + i.1 == j.0.textPrimary + j.1
  }

  lemma InlineKeysAgree(s: iset<InlineInput>, i: InlineInput, j: InlineInput)
    requires i in s && j in s && Clean(i.0) && Clean(j.0) && KeepsInlineApart(s)
    ensures InlineKeyOf(i) == InlineKeyOf(j) <==> InlineConfusable(i, j)
  {
    KeysHashConcatenations(i.0, i.1, "");
    KeysHashConcatenations(j.0, j.1, "");
    InlineHashedDetermines(i.0, i.1, j.0, j.1);
  }

  lemma InlineLooks(i: InlineInput, j: InlineInput)
    ensures InlineConfusable(i, j) ==> (InlineRender(i) == InlineRender(j) <==> i.1 == j.1)
  {
    Inline.HtmlInjective(i.0.codeString, i.1, j.1);
  }

  /** Exactly when inline rendering through the cache is transparent, over changing themes and
      every sequence of calls and evictions, as far as the 64-bit hash keeps strings apart. */
  lemma InlineTransparentIff(s: iset<InlineInput>)
    requires (forall i :: i in s ==> Clean(i.0)) && KeepsInlineApart(s)
    ensures Transparent(InlineKeyOf, InlineRender, s) <==>
            forall i, j :: i in s && j in s && InlineConfusable(i, j) ==> i.1 == j.1
  {
    forall i, j | i in s && j in s
      ensures InlineKeyOf(i) == InlineKeyOf(j) <==> InlineConfusable(i, j)
    {
      InlineKeysAgree(s, i, j);
    }
    forall i, j | i in s && j in s && InlineConfusable(i, j)
      ensures InlineRender(i) == InlineRender(j) <==> i.1 == j.1
    {
      InlineLooks(i, j);
    }
    hide InlineKeyOf, InlineRender, InlineConfusable, Transparent, Clean, KeepsInlineApart;
    TransparentExactly(InlineKeyOf, InlineRender, s, InlineConfusable);
  }

  /** In particular with text colours of one length. */
  lemma InlineTransparent(s: iset<InlineInput>, width: nat)
    requires (forall i :: i in s ==> Clean(i.0) && |i.0.textPrimary| == width) && KeepsInlineApart(s)
    ensures Transparent(InlineKeyOf, InlineRender, s)
  {
    InlineTransparentIff(s);
    forall i, j | i in s && j in s && InlineConfusable(i, j)
      ensures i.1 == j.1
    {
      SameSuffix(i.0.textPrimary, i.1, j.0.textPrimary, j.1);
    }
  }

  lemma SameSuffix(a: string, x: string, b: string, y: string)
    requires a + x == b + y && |a| == |b|
    ensures a == b && x == y
  {
    assert a == (a + x)[..|a|] && b == (b + y)[..|b|];
    assert x == (a + x)[|a|..] && y == (b + y)[|b|..];
  }

  /** Without one length for the text colours it is not: the end of the colour and the start of
      the text are hashed without a separator, so two calls can share a key and still render
      differently. */
  lemma TextColorRunsIntoText(t: Theme)
    ensures var u := t.(textPrimary := t.textPrimary + "a");
            && InlineKeyOf((t, "a")) == InlineKeyOf((u, ""))
            && !Transparent(InlineKeyOf, InlineRender, iset{(t, "a"), (u, "")})
  {
    var u := t.(textPrimary := t.textPrimary + "a");
    KeysHashConcatenations(t, "a", "");
    KeysHashConcatenations(u, "", "");
    InlineHashedFields(t, "a");
    InlineHashedFields(u, "");
    assert t.textPrimary + "a" == u.textPrimary + "";
    Inline.HtmlInjective(t.codeString, "a", "");
    hide Inline.Html, Hash, Fingerprint, InlineHashed;
    PairTransparent(InlineKeyOf, InlineRender, (t, "a"), (u, ""));
  }

  // ----- code blocks -----

  /** A call of `decorate_code_block`: the theme, the code and its language. */
  datatype CodeInput = CodeInput(theme: Theme, code: string, lang: string)

  /** Code as the tokenizer closes it, a language as it stands behind a fence, and a theme whose
      fields are free of separators and line breaks. */
  predicate Tokenized(i: CodeInput) {
    EndsLine(i.code) && '\n' !in i.lang && Clean(i.theme) && OneLine(i.theme)
  }

  predicate EndsLine(s: string) {
    s != "" && s[|s| - 1] == '\n'
  }

  predicate OneLine(theme: Theme) {
    && '\n' !in theme.codeString && '\n' !in theme.codeComment && '\n' !in theme.codeKeyword
    && '\n' !in theme.codeBg && '\n' !in theme.textPrimary
  }

  /** What stands behind the last line break. */
  function LastLine(s: string): string {
    if s == "" || s[|s| - 1] == '\n' then "" else LastLine(s[..|s| - 1]) + [s[|s| - 1]]
  }

  lemma {:induction false} LastLineIs(a: string, b: string)
    requires EndsLine(a) && '\n' !in b
    ensures LastLine(a + b) == b
  {
    if b == "" {
      assert a + b == a;
    } else {
      var front, last := b[..|b| - 1], b[|b| - 1];
      assert last in b && a + b == a + front + [last];
      assert (a + b)[..|a + b| - 1] == a + front;
      LastLineIs(a, front);
    }
  }

  lemma SplitAtLineEnd(a: string, b: string, x: string, y: string)
    requires EndsLine(a) && EndsLine(x) && '\n' !in b && '\n' !in y
    ensures a + b == x + y <==> a == x && b == y
  {
    LastLineIs(a, b);
    LastLineIs(x, y);
    if a + b == x + y {
      SameSuffix(a, b, x, y);
    }
  }

  lemma SplitAtLast(a: string, b: string, x: string, y: string, c: char)
    requires c !in b && c !in y
    ensures a + [c] + b == x + [c] + y <==> a == x && b == y
  {
    if a + [c] + b == x + [c] + y {
      LastIs(a, b, c);
      LastIs(x, y, c);
      SameSuffix(a + [c], b, x + [c], y);
      SameSuffix(a, [c], x, [c]);
    }
  }

  /** The last `c` of a text. */
  lemma LastIs(a: string, b: string, c: char)
    requires c !in b
    ensures var s := a + [c] + b;
            s[|a|] == c && forall k :: |a| < k < |s| ==> s[k] != c
  {
  }

  /** Two inputs that the hashed string does not tell apart: only the border between the language
      and the string colour may lie elsewhere. */
  predicate CodeConfusable(i: CodeInput, j: CodeInput) {
    && i.code == j.code && i.lang + i.theme.codeString == j.lang + j.theme.codeString
    && i.theme.codeComment == j.theme.codeComment && i.theme.codeKeyword == j.theme.codeKeyword
    && i.theme.codeBg == j.theme.codeBg && i.theme.textPrimary == j.theme.textPrimary
  }

  /** Language and fingerprint, with the string colour next to the language. */
  function Labelled(i: CodeInput): string {
    i.lang + i.theme.codeString + [SEP] + i.theme.codeComment + [SEP] + i.theme.codeKeyword + [SEP]
    + i.theme.codeBg + [SEP] + i.theme.textPrimary
  }

  lemma LabelledIs(i: CodeInput)
    ensures i.lang + Fingerprint(i.theme) == Labelled(i)
    ensures Tokenized(i) ==> '\n' !in Labelled(i)
  {
  }

  lemma LabelledDetermines(i: CodeInput, j: CodeInput)
    requires Clean(i.theme) && Clean(j.theme)
    ensures Labelled(i) == Labelled(j) <==>
            && i.lang + i.theme.codeString == j.lang + j.theme.codeString
            && i.theme.codeComment == j.theme.codeComment && i.theme.codeKeyword == j.theme.codeKeyword
            && i.theme.codeBg == j.theme.codeBg && i.theme.textPrimary == j.theme.textPrimary
  {
    var t, u := i.theme, j.theme;
    var t1, u1 := i.lang + t.codeString, j.lang + u.codeString;
    var t2, u2 := t1 + [SEP] + t.codeComment, u1 + [SEP] + u.codeComment;
    var t3, u3 := t2 + [SEP] + t.codeKeyword, u2 + [SEP] + u.codeKeyword;
    var t4, u4 := t3 + [SEP] + t.codeBg, u3 + [SEP] + u.codeBg;
    SplitAtLast(t4, t.textPrimary, u4, u.textPrimary, SEP);
    SplitAtLast(t3, t.codeBg, u3, u.codeBg, SEP);
    SplitAtLast(t2, t.codeKeyword, u2, u.codeKeyword, SEP);
    SplitAtLast(t1, t.codeComment, u1, u.codeComment, SEP);
  }

  /** What a code key's string determines: the code, every colour of the fingerprint but the
      first, and the first together with the language. */
  lemma CodeHashedDetermines(i: CodeInput, j: CodeInput)
    requires Tokenized(i) && Tokenized(j)
    ensures CodeHashed(i.theme, i.code, i.lang) == CodeHashed(j.theme, j.code, j.lang) <==> CodeConfusable(i, j)
  {
    LabelledIs(i);
    LabelledIs(j);
    LabelledDetermines(i, j);
    hide Labelled, Fingerprint, LastLine;
    SplitAtLineEnd(i.code, Labelled(i), j.code, Labelled(j));
    Regroup(i.code, i.lang, Fingerprint(i.theme));
    Regroup(j.code, j.lang, Fingerprint(j.theme));
  }

  function CodeKeyOf(i: CodeInput): nat {
    CodeKey(i.theme, i.code, i.lang)
  }

  ghost predicate SoundRegistry(registry: string -> CodeBlock.Grammar) {
    forall l :: CodeBlock.SoundGrammar(registry(l))
  }

  ghost function CodeRender(registry: string -> CodeBlock.Grammar, i: CodeInput): string
    requires SoundRegistry(registry)
  {
    CodeBlock.Html(i.theme, registry(i.lang), i.code)
  }

  ghost function CodeRenderer(registry: string -> CodeBlock.Grammar): CodeInput -> string
    requires SoundRegistry(registry)
  {
    i => CodeRender(registry, i)
  }

  ghost predicate KeepsCodeApart(s: iset<CodeInput>) {
    forall i, j :: i in s && j in s && CodeKeyOf(i) == CodeKeyOf(j) ==>
      CodeHashed(i.theme, i.code, i.lang) == CodeHashed(j.theme, j.code, j.lang)
  }

  ghost predicate CodeCacheTransparent(registry: string -> CodeBlock.Grammar, s: iset<CodeInput>)
    requires SoundRegistry(registry)
  {
    Transparent(CodeKeyOf, CodeRenderer(registry), s)
  }

  /** Exactly when code rendering through the cache is transparent, over changing themes and every
      sequence of calls and evictions, as far as the 64-bit hash keeps strings apart. */
  lemma CodeTransparentIff(registry: string -> CodeBlock.Grammar, s: iset<CodeInput>)
    requires SoundRegistry(registry) && (forall i :: i in s ==> Tokenized(i)) && KeepsCodeApart(s)
    ensures CodeCacheTransparent(registry, s) <==>
            forall i, j :: i in s && j in s && CodeConfusable(i, j) ==>
              CodeRender(registry, i) == CodeRender(registry, j)
  {
    var render := CodeRenderer(registry);
    assert forall i :: render(i) == CodeRender(registry, i);
    forall i, j | i in s && j in s
      ensures CodeKeyOf(i) == CodeKeyOf(j) <==> CodeConfusable(i, j)
    {
      CodeKeysAgree(s, i, j);
    }
    hide CodeRender, CodeRenderer, CodeKeyOf, CodeConfusable, Transparent, Tokenized, KeepsCodeApart;
    TransparentExactly(CodeKeyOf, render, s, CodeConfusable);
  }

  lemma CodeKeysAgree(s: iset<CodeInput>, i: CodeInput, j: CodeInput)
    requires i in s && j in s && Tokenized(i) && Tokenized(j) && KeepsCodeApart(s)
    ensures CodeKeyOf(i) == CodeKeyOf(j) <==> CodeConfusable(i, j)
  {
    KeysHashConcatenations(i.theme, i.code, i.lang);
    KeysHashConcatenations(j.theme, j.code, j.lang);
    CodeHashedDetermines(i, j);
    hide CodeHashed, CodeKey, CodeConfusable, Tokenized;
  }

  /** The fingerprint covers every field that rendering code reads. */
  lemma FingerprintCovers(t: Theme, u: Theme, g: CodeBlock.Grammar, code: string)
    requires CodeBlock.SoundGrammar(g) && Fingerprint(t) == Fingerprint(u) && Clean(t) && Clean(u)
    ensures CodeBlock.Html(t, g, code) == CodeBlock.Html(u, g, code)
  {
    LabelledIs(CodeInput(t, "", ""));
    LabelledIs(CodeInput(u, "", ""));
    LabelledDetermines(CodeInput(t, "", ""), CodeInput(u, "", ""));
    assert "" + t.codeString == t.codeString && "" + u.codeString == u.codeString;
  }

  /** In particular with string colours of one length, whatever else changes in the theme. */
  lemma CodeTransparent(registry: string -> CodeBlock.Grammar, s: iset<CodeInput>, width: nat)
    requires SoundRegistry(registry) && KeepsCodeApart(s)
    requires forall i :: i in s ==> Tokenized(i) && |i.theme.codeString| == width
    ensures CodeCacheTransparent(registry, s)
  {
    CodeTransparentIff(registry, s);
    hide KeepsCodeApart, CodeCacheTransparent, SoundRegistry, Fingerprint, Clean, OneLine, EndsLine;
    forall i, j | i in s && j in s && CodeConfusable(i, j)
      ensures CodeRender(registry, i) == CodeRender(registry, j)
    {
      SameWidth(registry, i, j);
    }
  }

  lemma SameWidth(registry: string -> CodeBlock.Grammar, i: CodeInput, j: CodeInput)
    requires SoundRegistry(registry) && Tokenized(i) && Tokenized(j)
    requires CodeConfusable(i, j) && |i.theme.codeString| == |j.theme.codeString|
    ensures CodeRender(registry, i) == CodeRender(registry, j)
  {
    SameSuffix(i.lang, i.theme.codeString, j.lang, j.theme.codeString);
    hide CodeBlock.Html;
    FingerprintCovers(i.theme, j.theme, registry(i.lang), i.code);
  }

  /** Without one length for the string colours it depends on the code: the language and the start
      of the colour are hashed without a separator. Two names of one grammar, one the beginning of
      the other, share a key in suitable themes, and then the cache is transparent exactly for code
      without a highlighted string. */
  lemma LanguageRunsIntoColor(t: Theme, registry: string -> CodeBlock.Grammar, code: string,
                              short: string, more: string)
    requires SoundRegistry(registry) && registry(short) == registry(short + more) && more != ""
    requires CodeHtml.PlainColors(t) && Highlighter.MarkerFree(more)
    ensures var i := CodeInput(t, code, short + more);
            var j := CodeInput(t.(codeString := more + t.codeString), code, short);
            && CodeKeyOf(i) == CodeKeyOf(j)
            && (CodeCacheTransparent(registry, iset{i, j}) <==>
                CodeHtml.Byte(0x01) !in CodeBlock.Marked(registry(short), code))
  {
    hide Hash, CodeKey, Fingerprint, CodeBlock.Html;
    var u := t.(codeString := more + t.codeString);
    var i, j := CodeInput(t, code, short + more), CodeInput(u, code, short);
    SameLabel(t, code, short, more);
    LongerPlain(more, t.codeString);
    CodeBlock.ColorShows(t, u, registry(short), code);
    TwoInputs(registry, i, j);
  }

  lemma SameLabel(t: Theme, code: string, short: string, more: string)
    ensures CodeKey(t, code, short + more) == CodeKey(t.(codeString := more + t.codeString), code, short)
  {
    var u := t.(codeString := more + t.codeString);
    KeysHashConcatenations(t, code, short + more);
    KeysHashConcatenations(u, code, short);
    LabelledIs(CodeInput(t, code, short + more));
    LabelledIs(CodeInput(u, code, short));
    assert Labelled(CodeInput(t, code, short + more)) == Labelled(CodeInput(u, code, short)) by {
      Regroup(short, more, t.codeString);
    }
    hide Fingerprint, CodeKey, Hash, Labelled;
    Regroup(code, short + more, Fingerprint(t));
    Regroup(code, short, Fingerprint(u));
  }

  lemma LongerPlain(a: string, b: string)
    requires Highlighter.MarkerFree(a) && Highlighter.MarkerFree(b)
    ensures Highlighter.MarkerFree(a + b)
  {
  }

  lemma TwoInputs(registry: string -> CodeBlock.Grammar, i: CodeInput, j: CodeInput)
    requires SoundRegistry(registry) && CodeKeyOf(i) == CodeKeyOf(j)
    ensures CodeCacheTransparent(registry, iset{i, j}) <==> CodeRender(registry, i) == CodeRender(registry, j)
  {
    hide CodeKey, CodeBlock.Html;
    var render := CodeRenderer(registry);
    assert render(i) == CodeRender(registry, i) && render(j) == CodeRender(registry, j);
    hide CodeRender, CodeRenderer, CodeKeyOf;
    PairTransparent(CodeKeyOf, render, i, j);
  }

  // ----- the two decorators over their caches -----

  /** The escaping loop of `decorate_inline_text`. */
  method EscapeText(text: string) returns (processed: string)
    ensures processed == Inline.Escape(text)
  {
    processed := "";
    for i := 0 to |text|
      invariant processed + Inline.Escape(text[i..]) == Inline.Escape(text)
    {
      assert text[i..][0] == text[i] && text[i..][1..] == text[i + 1..];
      processed := processed + Inline.EscapeChar(text[i]);
    }
  }

  method DecorateInlineText(cache: F.FragmentCache, theme: Theme, text: string) returns (html: string)
    requires cache.Valid()
    modifies cache, cache.order.repr
    ensures cache.Valid() && fresh(cache.order.repr - old(cache.order.repr))
    ensures (cache.contents, html) ==
            Serve(old(cache.contents), InlineKey(theme, text), InlineRender((theme, text)))
  {
    var seed := HashWithSeed(Fingerprint(theme), OFFSET_BASIS);
    var key := HashWithSeed(text, seed);
    hide Fingerprint, Hash, Inline.Html, Step, F.FragmentCache.Valid;
    var cached := cache.Get(key);
    if cached.Some? {
      return cached.value;
    }
    var processed := RenderInline(theme, text);
    cache.Put(key, processed);
    html := processed;
  }

  /** The rewrites that run on a miss. */
  method RenderInline(theme: Theme, text: string) returns (processed: string)
    ensures processed == Inline.Html(theme.codeString, text)
  {
    hide Inline.Escape, ReplaceChar, Inline.PairedMarks.WrapPairs;
    processed := EscapeText(text);
    processed := ReplaceChar(processed, '\n', "<br>");
    processed := Inline.PairedMarks.WrapPairs(processed, "**", "<b>", "</b>");
    processed := Inline.PairedMarks.WrapPairs(processed, "`", Inline.CodeTag(theme.codeString), "</font>");
  }

  method DecorateCodeBlock(cache: F.FragmentCache, theme: Theme, g: CodeBlock.Grammar, code: string, lang: string)
    returns (html: string)
    requires cache.Valid() && CodeBlock.SoundGrammar(g)
    modifies cache, cache.order.repr
    ensures cache.Valid() && fresh(cache.order.repr - old(cache.order.repr))
    ensures (cache.contents, html) ==
            Serve(old(cache.contents), CodeKey(theme, code, lang), CodeBlock.Html(theme, g, code))
  {
    var key := HashWithSeed(code, OFFSET_BASIS);
    key := HashWithSeed(lang, key);
    key := HashWithSeed(Fingerprint(theme), key);
    hide Fingerprint, Hash, CodeBlock.Html, Step, F.FragmentCache.Valid;
    var cached := cache.Get(key);
    if cached.Some? {
      return cached.value;
    }
    html := CodeBlock.Render(theme, g, code);
    cache.Put(key, html);
  }
}
