/** From a fenced block in a document to the clipboard, by way of the page. */
module CopyCode {
  import opened Text
  import opened Theme
  import opened Tokenizer
  import opened Blocks
  import opened Emitter
  import opened Links
  import CodeBlock
  import Fnv
  import R = RenderCache
  import Written

  /** A page with a code token shows that token's rendered block, between what is shown of the tokens in
      front of it and of those behind it. */
  lemma BlockOnPage(theme: Theme, registry: string -> CodeBlock.Grammar, tokens: seq<Token>, at: nat)
    requires R.SoundRegistry(registry) && at < |tokens| && tokens[at].kind == CodeBlock
    ensures var st := StyleOf(theme, registry);
            Html(st, tokens) ==
            Html(st, tokens[..at]) + CodeBlock.Html(theme, registry(tokens[at].language), tokens[at].content)
            + Html(st, tokens[at + 1..])
  {
    var st, t := StyleOf(theme, registry), tokens[at];
    assert tokens == tokens[..at] + [t] + tokens[at + 1..];
    hide Html, StyleOf, CodeBlock.Html, R.SoundRegistry, Flat;
    Written.HtmlAround(st, tokens[..at], t, tokens[at + 1..]);
    Written.RuleAndCodeHtml(st, t.content, t.language);
    CodeLook(theme, registry, t.content, t.language);
  }

  /** The block of a token with the given code, as the page shows it, and what its links decode to. */
  ghost predicate Copies(theme: Theme, registry: string -> CodeBlock.Grammar, tokens: seq<Token>, at: nat, code: string)
    requires R.SoundRegistry(registry)
  {
    && at < |tokens| && tokens[at].kind == CodeBlock
    && var st := StyleOf(theme, registry);
       var block := CodeBlock.Html(theme, registry(tokens[at].language), tokens[at].content);
       && Html(st, tokens) == Html(st, tokens[..at]) + block + Html(st, tokens[at + 1..])
       && Decodes(block, "copy_code", code) && Decodes(block, "download_code", code)
  }

  lemma TokenCopies(theme: Theme, registry: string -> CodeBlock.Grammar, tokens: seq<Token>, at: nat)
    requires R.SoundRegistry(registry) && Unquoted(theme)
    requires at < |tokens| && tokens[at].kind == CodeBlock && Fnv.IsBytes(tokens[at].content)
    ensures Copies(theme, registry, tokens, at, tokens[at].content)
  {
    var t := tokens[at];
    BlockOnPage(theme, registry, tokens, at);
    assert CodeBlock.SoundGrammar(registry(t.language));
    hide Html, StyleOf, CodeBlock.Html, R.SoundRegistry, CodeBlock.SoundGrammar, Decodes, Fnv.IsBytes;
    LinksCarryCode(theme, registry(t.language), t.content);
  }

  /** Both links of a closed, non-empty block on the page decode to the block's lines as they stand in the
      document, each less a carriage return at its end, whatever is shown of them. */
  lemma CopyGivesSource(theme: Theme, registry: string -> CodeBlock.Grammar,
                        before: string, fence: string, body: seq<string>, close: string, after: string)
    requires R.SoundRegistry(registry) && Unquoted(theme)
    requires Complete(before) && !Feed(START, Lines(before)).inBlock
    requires IsFence(fence) && IsLine(fence) && IsFence(close) && IsLine(close)
    requires body != [] && NoFence(body) && forall l :: l in body ==> IsLine(l)
    requires Fnv.IsBytes(Joined(ChompAll(body)))
    ensures var tokens := Tokenize(before + BlockText(fence, body, close, after));
            var at := |Push(Feed(START, Lines(before)), Paragraph).tokens|;
            Copies(theme, registry, tokens, at, Joined(ChompAll(body)))
  {
    hide Copies, Feed, Push, Lines, Tokenize, BlockText, Complete, Joined, ChompAll, R.SoundRegistry, NoFence;
    hide Fnv.IsBytes;
    FencedBlockInText(before, fence, body, close, after);
    TokenCopies(theme, registry, Tokenize(before + BlockText(fence, body, close, after)),
                |Push(Feed(START, Lines(before)), Paragraph).tokens|);
  }

  /** The same for a text that ends right behind the closing fence: its last token is the block. */
  lemma CopyGivesSourceAtEnd(theme: Theme, registry: string -> CodeBlock.Grammar,
                             before: string, fence: string, body: seq<string>, close: string)
    requires R.SoundRegistry(registry) && Unquoted(theme)
    requires Complete(before) && !Feed(START, Lines(before)).inBlock
    requires IsFence(fence) && IsLine(fence) && IsFence(close) && IsLine(close)
    requires body != [] && NoFence(body) && forall l :: l in body ==> IsLine(l)
    requires Fnv.IsBytes(Joined(ChompAll(body)))
    ensures var tokens := Tokenize(before + (fence + "\n" + (Joined(body) + close)));
            tokens != [] && Copies(theme, registry, tokens, |tokens| - 1, Joined(ChompAll(body)))
  {
    hide Copies, Feed, Push, Lines, Tokenize, Complete, Joined, ChompAll, R.SoundRegistry, NoFence, Fnv.IsBytes;
    FencedBlockAtEnd(before, fence, body, close);
    var tokens := Tokenize(before + (fence + "\n" + (Joined(body) + close)));
    TokenCopies(theme, registry, tokens, |tokens| - 1);
  }
}
