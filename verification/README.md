# Malama: verified models of the markdown pipeline, the streaming client and the codecs

This project models the parts of the Malama chat client that hold most of its state and branching,
and proves what they promise: the markdown pipeline that turns a model's answer into HTML, the
client that streams answers from an Ollama server, and the small codecs and budgets around them.
`dafny verify dfyconfig.toml` checks everything.

## What is modelled

**Markdown.** `Tokenizer` is the line-driven state machine (a class, and the same machine on values).
`Reading` reads the same tokens off a document's lines without a state machine, and `LineForms` says how
each kind of line is written. `TableRows` says which tokens the emitter will try as table rows, `Cells`
parses and prints rows, and `RowText` says which cells any row has. `Emitter` is the loop over the tokens
with its two list flags, its table lookahead and its two decorators, each of which answers from a cache
that earlier documents have filled; `Blocks` is the reading it is proved equal to: maximal lists, whole
tables, single tokens, decorated without a cache. `Written` spells that reading out letter by letter,
`PageText` and `Seen` read a page back as text. `Pipeline` joins them, runs whole sessions of documents in
changing themes through the shared caches, and follows a table from its cells through text back to its
cells.

**Rendering.** `Inline` renders running text by chained replacements; `PairedMarks` shows that a
replacement of `x(.*?)x` is a one-pass reading, and `Nesting` says when its two kinds of tags nest.
`Highlighter` is the leftmost-match loop over a grammar's rules; a rule is an arbitrary function from a
text and a position to a match, with the bounds a search promises (`Sound`). `CodeHtml` collapses the
twenty replacements of a code block into one rewriting and reads the HTML back; `CodeBlock` puts the
pieces together, `CodeFrame` takes its frame apart into tags, and `Colors` says which colour is used for
what. `Links` reads the payloads off a block's HTML, `Hex` decodes them, and `CopyCode` follows a block
from the document to the clipboard.

**Caching of fragments.** `FragmentCache` is the map with stored iterators into a doubly linked list, node
by node on the heap; it refines the list-and-map cache of `Lru`. `Fnv` is the 64-bit hash, with
wrap-around written out. `RenderCache` says when a cache in front of a renderer cannot be noticed.

**Streaming.** `LineFraming` cuts the response body into lines. `StreamClient` is the shared state of
`ExecuteStreamTask`, with one method for each stretch between two suspension points. `StreamTasks` is the
step system: any number of tasks, each suspended where the coroutine awaits, and a cancellation possible
between any two steps; `Cancellation` is about the calls that a cancellation reaches and those it does
not. `ThinkFilter` is the filter that hides reasoning, and `Answers` compares a streamed answer with its
replay.

**Codecs and budgets.** `Base64` has the 32-bit accumulator against the encoding of section 4 of RFC 4648.
`Attachments` has the attachment queue and the token estimator.

`Text` holds the shared string vocabulary and `Theme` the theme's fields.

## What the proofs show about the code

- The inline renderer may cross bold and code spans, because the second replacement ignores the tags
  of the first: `Nesting.TagsCross` gives a family of such texts. Each kind of tag alternates on its own
  (`Inline.TagsAlternate`); the two nest if and only if, in the text, every bold span opened outside code holds an
  even number of paired backticks and every one opened inside code holds none (`Nesting.TagsNestIff`).
- Nothing of a document is lost: `Reading.TokensAreRead` gives the tokens of every text from its lines, and
  `Seen.DocumentSeen` says what a reader sees of its page, from the same lines, by dropping the tags and
  reading the entities of the HTML. An empty block leaves its language pending, and the next token that is
  no table row takes it.
- A line of dashes yields no token, because the divider's buffer is empty when it is pushed: no token
  of any text is a divider (`Tokenizer.EveryToken`).
- A fence left open is flushed as a paragraph, and then the unfinished code can be taken for a table
  row. `TableRows.CandidatesAreRows` gives the candidates of every document, with that case;
  `TableRows.ClosedDocumentCandidates` is the case of closed fences.
- The first rule of the built-in HTML grammar (src/engine/markdown/syntax_registry.cpp:201) is an empty
  group. It matches at every position, the loop then steps one character without copying it, and so
  HTML code is displayed as nothing (`CodeBlock.HtmlCodeShownAsNothing`).
- Other built-in rules drop or normalise white space: the rules for calls match the blanks in front of
  the bracket and show only the name, so Python's `print (x)` is displayed as `print(x)`
  (`CodeBlock.DroppedBlank`). Highlighted code is shown whole if and only if every match that the loop
  chooses goes on behind itself and its format shows what it has matched
  (`CodeBlock.HighlightedCodeShown`). That takes formats that never show more than they match, as all
  built-in ones are.
- Code without a grammar is shown as it is if and only if it holds none of the bytes that the
  highlighter uses as markers (`CodeBlock.PlainCodeShown`).
- The links of a code block carry the code and not what is shown of it: whatever the block shows, what
  stands in its copy link decodes to the lines of the document (`CopyCode.CopyGivesSource`).
- The inline cache key does not separate the text colour from the text, and the code cache key does not
  separate the language from the string colour. So a change of theme can make a cache answer wrongly:
  `RenderCache.TextColorRunsIntoText` and `RenderCache.LanguageRunsIntoColor` give the inputs, and
  `RenderCache.InlineTransparentIff` and `RenderCache.CodeTransparentIff` say exactly for which inputs
  the caches cannot be noticed. In themes whose colours have one length and are free of separators and
  line breaks they cannot, as far as the 64-bit hash keeps different strings apart; `Pipeline.Browse`
  is a whole session under these conditions.
- The filter for reasoning handles one opening and one closing tag a token, and shows what precedes an
  opening tag even inside a span. `ThinkFilter.TokenExact` says exactly which tokens it handles as
  meant, and `ThinkFilter.StreamVisible` that a stream with unsplit tags comes out right if and only if
  each of its tokens is handled. An opening tag split over two tokens is shown with its span
  (`ThinkFilter.SplitTagIsShown`); a split closing tag is missed, so the filter goes on hiding what is
  no longer reasoning (`ThinkFilter.SplitCloseHides`).
- A response with two reasoning spans can be filtered well while it streams, but not when the cache
  replays it as one token: `Answers.HitLooksTheSame` says exactly when a replay looks the same.
- A cancellation stops the task that runs, which then reads at most the one chunk it was waiting for
  (`Cancellation.CancelStopsReading`), and no later one (`Cancellation.LaterCallsUndisturbed`).
- A run whose last read fails goes on exactly like one whose response is complete
  (`StreamTasks.FailureLooksComplete`), and its response is cached (`StreamTasks.FailedReadIsCached`).
  What is proved of a cached response is that some run delivered it, not that it is complete.
- The repository's README.md speaks of a limit of 4 MB for PDF files; the code's limit is 6 MiB, and
  so is the model's.

## Model

| member | source | states |
|---|---|---|
| Tokenizer.TokenizerState.PushBuffer | src/engine/markdown/pipeline.cpp:240-250 | the buffer becomes a token with the pending language and both are cleared; an empty buffer changes nothing |
| Tokenizer.TokenizerState.ParseElements | src/engine/markdown/pipeline.cpp:253-307 | the class takes the step that the value-level machine takes on a line outside a block, branch by branch |
| Tokenizer.TokenizerState.EvaluateLine | src/engine/markdown/pipeline.cpp:309-338 | the same for every line, with fences opening and closing blocks |
| Tokenizer.TokenizeText | src/engine/markdown/pipeline.cpp:340-369 | the position-based scanning loop feeds exactly the lines of the text, each less one carriage return, to the machine and flushes it |
| Tokenizer.StableUnderAppend | src/engine/markdown/pipeline.cpp:340-369 | if a text ends in a line break, the tokens committed by scanning it are a prefix of the tokens of every continuation, and ending there adds at most one flushed paragraph |
| Tokenizer.FencedBlock | src/engine/markdown/pipeline.cpp:309-335 | from any state outside a block, a closed non-empty fence becomes exactly one code token |
| Tokenizer.FencedBlockInText | src/engine/markdown/pipeline.cpp:309-369 | in a whole document, whatever stands in front of it and on the lines behind it, a closed fence yields the code token of its lines at a known place |
| Tokenizer.FencedBlockAtEnd | src/engine/markdown/pipeline.cpp:348-367 | the same for a text that ends right behind the closing fence: the block's token is the last one |
| Tokenizer.EveryToken | src/engine/markdown/pipeline.cpp:240-250 | no token of any text is a divider, none is empty, no language holds a line break, and code ends in one |
| Reading.FeedParagraph | src/engine/markdown/pipeline.cpp:299-306 | from any state outside a block, the lines of a paragraph are appended to the buffer, each with a space and each empty one as a line break, and nothing else changes |
| Reading.TokensAreRead | src/engine/markdown/pipeline.cpp:253-369 | for every text, the tokens are those read off its lines without a state machine: paragraphs merged, prefixed lines less their prefix, rows as they are, blocks with their code, in order |
| LineForms.HeaderLines | src/engine/markdown/pipeline.cpp:256-279 | a line is a header with some text if and only if it is one to six number signs, a space and that text, and the signs give the level, at most the fourth |
| LineForms.BulletLines | src/engine/markdown/pipeline.cpp:283-287 | a line is an item of an unordered list if and only if it starts with a star or a hyphen, and a space |
| LineForms.NumberLines | src/engine/markdown/pipeline.cpp:164-179 | a line is an item of an ordered list if and only if it starts with a number, a full stop and a space |
| LineForms.DashLines | src/engine/markdown/pipeline.cpp:157-162 | hyphens alone are a rule from three on |
| LineForms.FenceLines | src/engine/markdown/pipeline.cpp:310-329 | a fence opens a block in the trimmed language behind it, or closes one |
| LineForms.LineEndsDoNotMatter | src/engine/markdown/pipeline.cpp:346-358 | a document with carriage returns at its line ends has the same tokens as one without |
| TableRows.TrimmedPipe | src/engine/markdown/pipeline.cpp:181-195 | the table-pipe test holds if and only if the line has an unescaped pipe anywhere; leading white space does not matter |
| TableRows.MergedHasNoPipe | src/engine/markdown/pipeline.cpp:299-306 | merging lines without a bare pipe into the paragraph buffer never creates one |
| TableRows.CandidatesAreRows | src/engine/markdown/pipeline.cpp:292-306 | for every document, the table candidates among its tokens are its row lines in order, followed only by an unclosed block's flushed content when that holds a bare pipe |
| TableRows.ClosedDocumentCandidates | src/engine/markdown/pipeline.cpp:684-687 | when all fences are closed, a paragraph passes the candidate test exactly when it is a single source line with an unescaped pipe |
| Cells.SplitRange | src/engine/markdown/pipeline.cpp:617-657 | the loop with its look-behind splits a range at unescaped pipes and turns an escaped pipe into a pipe |
| Cells.ParseRowCells | src/engine/markdown/pipeline.cpp:617-657 | trimming, the optional outer pipes and the loop together are the specified row parser, also for an empty row |
| Cells.ParsePrinted | src/engine/markdown/pipeline.cpp:617-657 | for every non-empty list of cells, what the parser makes of the printed row, including cells that end in a backslash and swallow the next pipe |
| Cells.RoundTripIff | src/engine/markdown/pipeline.cpp:617-657 | the parser inverts the printer if and only if no cell ends in a backslash |
| RowText.TrimIs | src/engine/markdown/pipeline.cpp:619-626 | trimming removes the white space around a text and nothing else |
| RowText.ParsedIff | src/engine/markdown/pipeline.cpp:617-657 | for every row, with or without outer pipes: its cells are exactly those that spell its text when their pipes are escaped and they are joined by pipes, none but the last ending in a backslash |
| RowText.CellCount | src/engine/markdown/pipeline.cpp:632-657 | a row has one cell more than pipes that are neither escaped nor outer ones, and none if it is blank |
| RowText.OpenRowIff | src/engine/markdown/pipeline.cpp:617-657 | a row printed without outer pipes is read back if and only if no cell but the last ends in a backslash |
| Cells.DelimiterTest | src/engine/markdown/pipeline.cpp:197-223 | a cell is accepted as delimiter if and only if it is, trimmed, one or more hyphens with optional colons around (GFM section 4.10) |
| Blocks.BlocksPartition | src/engine/markdown/pipeline.cpp:770-840 | every token is part of exactly one block, in order |
| Blocks.BlocksGrouped | src/engine/markdown/pipeline.cpp:681-768 | lists are maximal runs of one kind; a table takes a whole run of at least two candidates, its second row delimits its first, and every data row is the parsed row cut or padded to the header's width |
| Blocks.AllNeutral | src/engine/markdown/pipeline.cpp:577-768 | for rendered code that closes what it opens, the block tags of every document balance on a stack |
| CodeFrame.PiecesFlat | src/engine/markdown/pipeline.cpp:556-571 | the frame and links of a code block, taken apart into tags and text, are the block that is written |
| CodeFrame.FrameNeutral | src/engine/markdown/pipeline.cpp:556-571 | table, row, cell, font, division and links of a code block close in order |
| Emitter.FlowIsGrouped | src/engine/markdown/pipeline.cpp:770-840 | for every token list, output produced left to right under the list flags is the grouped output |
| Emitter.HtmlEmitter.CloseActiveLists | src/engine/markdown/pipeline.cpp:775-784 | closes exactly the list that is open, and both flags are down |
| Emitter.HtmlEmitter.DecorateInline | src/engine/markdown/pipeline.cpp:371-413 | on a cache that holds renders of inputs that do not collide, a hit or a miss both give the uncached render, and the cache stays such a cache |
| Emitter.HtmlEmitter.DecorateCode | src/engine/markdown/pipeline.cpp:415-575 | the same for code blocks |
| Emitter.HtmlEmitter.HandleList | src/engine/markdown/pipeline.cpp:588-599 | an item closes the other list if it is open, opens its own if it is not, and is written |
| Emitter.HtmlEmitter.EmitCells | src/engine/markdown/pipeline.cpp:659-679 | the cells of a header or data row are written in order in the row's own markup |
| Emitter.LookAhead | src/engine/markdown/pipeline.cpp:693-699 | the lookahead counts the whole run of candidates |
| Emitter.NormalizeRows | src/engine/markdown/pipeline.cpp:725-740 | all rows from the third on, each cut or padded to the header's width |
| Emitter.FindTable | src/engine/markdown/pipeline.cpp:684-740 | the checks accept exactly when a table starts here, and then give its header and its fitted rows |
| Emitter.HtmlEmitter.WriteSingle | src/engine/markdown/pipeline.cpp:577-616 | headers, rules, code blocks and paragraphs are written around their decorated text, an empty paragraph not at all |
| Emitter.HtmlEmitter.ScanAndEmitTable | src/engine/markdown/pipeline.cpp:681-768 | a table is accepted exactly when one starts here, it is then written after any open list is closed and its whole run is consumed; otherwise nothing changes |
| Emitter.HtmlEmitter.EmitNext | src/engine/markdown/pipeline.cpp:786-835 | every turn of the loop consumes at least one token and moves its output from what is left to what is written |
| Emitter.HtmlEmitter.Emit | src/engine/markdown/pipeline.cpp:770-840 | the emitter terminates and, whatever its caches hold of earlier documents, its output is the grouped reading of the tokens without a cache |
| Written.HtmlJoins | src/engine/markdown/pipeline.cpp:770-840 | the page of a token list can be cut wherever no table and no list goes on, and both sides are rendered as if they stood alone |
| Written.HtmlAround | src/engine/markdown/pipeline.cpp:786-835 | so any token that is neither item nor row is rendered by itself |
| Written.ParagraphHtml | src/engine/markdown/pipeline.cpp:601-607 | the HTML of a paragraph, letter by letter, and that an empty one is not written |
| Written.HeaderHtml | src/engine/markdown/pipeline.cpp:577-586 | the HTML of a header in the size of its level |
| Written.RuleAndCodeHtml | src/engine/markdown/pipeline.cpp:609-615 | the HTML of a rule, and that a code token is its rendered block |
| Written.ListHtml | src/engine/markdown/pipeline.cpp:588-599 | the HTML of a list of either kind, with all its items in order |
| Written.TableHtml | src/engine/markdown/pipeline.cpp:742-767 | the HTML of a table: the header's cells and then those of every further row, in order, each trimmed and in its row's markup |
| PageText.PageShows | src/engine/markdown/pipeline.cpp:577-840 | what is seen of a page, tags dropped and entities read, is the text of every token in order, of header and fitted data cells in row order |
| Pipeline.Process | src/engine/markdown/pipeline.cpp:229-232 | with caches that earlier documents have filled, the document's HTML is the grouped reading of its tokens as rendered without caches, given that no two inputs ever decorated collide |
| Pipeline.Session | src/engine/markdown/pipeline.cpp:120-128 | any sequence of documents in changing themes, through caches that all of them share, looks as without caches, given the same |
| Pipeline.CodeTokensTokenized | src/engine/markdown/pipeline.cpp:309-335 | in a theme of clean one-line fields, every code token of every text meets what the code cache's key relies on |
| Pipeline.InputsApart | src/engine/markdown/pipeline.cpp:372-420 | no two inputs that a session decorates collide, given clean one-line themes with colours of one length and a hash that keeps the hashed strings of the session apart |
| Pipeline.Browse | src/engine/markdown/pipeline.cpp:120-128 | any sequence of documents in such themes looks as without caches |
| Pipeline.PageBalanced | src/engine/markdown/pipeline.cpp:556-768 | the page of every text is made of pieces whose tags, code blocks' included, balance on a stack, with inline text and formatted code opaque |
| Seen.DocumentSeen | src/engine/markdown/pipeline.cpp:229-232 | for every text, in themes whose colours end no tag and hold no marker byte: what a reader sees of its page is the text of its paragraphs, headers, items and cells less their paired delimiters, and its code as highlighted, read off its lines in order |
| Pipeline.PrintedTokens | src/engine/markdown/pipeline.cpp:292-306 | every line of a printed table becomes its own row token, and nothing else does |
| Pipeline.PrintedTable | src/engine/markdown/pipeline.cpp:229-232 | a table printed as text is rendered as one table with the same cells, escaped pipes included, and every data row cut or padded to the header's width |
| PairedMarks.WrapPairsIsMark | src/engine/markdown/pipeline.cpp:401-402 | repeated leftmost replacement of a delimited span equals marking the leftmost pairs of delimiters in one pass |
| RenderCache.EscapeText | src/engine/markdown/pipeline.cpp:380-398 | the loop escapes the three special characters and copies all others |
| Inline.HtmlIsStructure | src/engine/markdown/pipeline.cpp:383-409 | the chained replacements build exactly one structure: escaped characters, breaks, and tags in place of the paired delimiters |
| Inline.VisibleText | src/engine/markdown/pipeline.cpp:400-409 | what that structure shows is the input less its leftmost-paired bold and code delimiters |
| Inline.DecodeRecoversText | src/engine/markdown/pipeline.cpp:383-409 | decoding the output (dropping its own tags, breaks to newlines, unescaping) gives the input with exactly the paired delimiters removed |
| Inline.SourceText | src/engine/markdown/pipeline.cpp:404-409 | turning the tags back into their delimiters gives every text back |
| Inline.HtmlInjective | src/engine/markdown/pipeline.cpp:380-409 | two texts have the same decorated HTML if and only if they are the same text |
| Inline.TagsAlternate | src/engine/markdown/pipeline.cpp:404-409 | bold tags and code tags each alternate open and close, so each kind is balanced and never nests in itself |
| Inline.HtmlOnlyOwnTags | src/engine/markdown/pipeline.cpp:383-409 | every angle bracket of the output starts one of the pipeline's own tags |
| Seen.InlineShows | src/engine/markdown/pipeline.cpp:380-409 | decorated text is seen as the text less its paired delimiters, whatever stands behind it |
| Colors.InlineCode | src/engine/markdown/pipeline.cpp:407-409 | text between backticks is shown in the theme's string colour in a fixed-width face |
| Colors.InlineBold | src/engine/markdown/pipeline.cpp:405 | text between double stars is bold |
| Nesting.TagsNestIff | src/engine/markdown/pipeline.cpp:404-409 | the two kinds of tags nest on a stack if and only if, in the text that goes in, each bold span opened outside code holds an even number of paired backticks and each one opened inside code none |
| Nesting.TagsCross | src/engine/markdown/pipeline.cpp:404-409 | a family of texts whose bold and code tags cross, with the tags they get |
| Highlighter.ChooseIsLeftmost | src/engine/markdown/pipeline.cpp:466-488 | the chosen rule matches leftmost, and first in the list among those that do; none is chosen exactly when none matches in front of the end |
| Highlighter.ChosenUnique | src/engine/markdown/pipeline.cpp:466-488 | leftmost with ties to the lowest index determines the rule |
| Highlighter.FindBest | src/engine/markdown/pipeline.cpp:460-488 | the loop over the rules finds that choice |
| Highlighter.Run | src/engine/markdown/pipeline.cpp:457-500 | the highlighting loop terminates and yields the specified text |
| Highlighter.ErasedLength | src/engine/markdown/pipeline.cpp:490-498 | for all rules: what is shown besides markers, what is skipped and what formats drop add up to the length of the source |
| Highlighter.ErasedHighlight | src/engine/markdown/pipeline.cpp:490-498 | if the formats of the chosen matches only leave characters out, the whole text besides markers is a subsequence of the source |
| Highlighter.KeptIff | src/engine/markdown/pipeline.cpp:490-498 | in any piecewise view of text, and if no chosen match shows more than it matches, the highlighted text looks like the source if and only if every chosen match goes on behind itself and shows what it matches |
| Highlighter.TextKeptIff | src/engine/markdown/pipeline.cpp:490-498 | so for the plain view: when erasing the markers gives the source back, exactly |
| Highlighter.ModestRules | src/engine/markdown/syntax_registry.cpp:36-424 | a grammar whose formats never show more than they match meets that demand on every text |
| Highlighter.NonEmptyRulesSkipNothing | src/engine/markdown/pipeline.cpp:498 | rules that never match the empty string skip nothing |
| Highlighter.HtmlGrammarShowsNothing | src/engine/markdown/syntax_registry.cpp:195-204 | a grammar whose first rule is the empty group keeps no character of any code |
| Highlighter.HighlightPaired | src/engine/markdown/pipeline.cpp:457-500 | if every format pairs its own markers, the highlighted text pairs them, flat and unnested |
| CodeHtml.ChainIsAtOnce | src/engine/markdown/pipeline.cpp:507-540 | one-character replacements in sequence equal one simultaneous rewriting when no replacement text feeds a later one |
| CodeHtml.FormattedIsRewritten | src/engine/markdown/pipeline.cpp:507-540 | escaping, white space and marker replacement together are one left-to-right rewriting of every text |
| CodeHtml.ScanRewritten | src/engine/markdown/pipeline.cpp:507-540 | reading the displayed HTML gives back the characters, with tabs as four spaces and markers as font tags |
| CodeHtml.NoBlankMerged | src/engine/markdown/pipeline.cpp:516 | no two blanks stand side by side in rendered code, so none is merged when it is displayed |
| Colors.SpanColors | src/engine/markdown/pipeline.cpp:521-540 | wherever it stands, a marked string, comment or keyword is shown in the theme's colour for it, and the other marks in colours of their own |
| CodeBlock.Replacements | src/engine/markdown/pipeline.cpp:507-540 | reassigning the text by one replacement after another is the chain over the table |
| CodeBlock.Render | src/engine/markdown/pipeline.cpp:448-571 | the whole body on a cache miss: carriage returns dropped, highlighted if there is a grammar, formatted, framed with the payload of the original code |
| CodeBlock.SourceIs | src/engine/markdown/pipeline.cpp:448-449 | carriage returns are gone and every other character stays where it stands |
| Seen.CodeShows | src/engine/markdown/pipeline.cpp:562-571 | in such themes a rendered block is seen as the highlighted code, tabs as four spaces, with the icons of its links behind |
| CodeBlock.PlainCodeShown | src/engine/markdown/pipeline.cpp:448-540 | without a grammar the reader sees the code less carriage returns and with tabs as four spaces, if and only if it holds no marker byte |
| CodeBlock.HighlightedCodeShown | src/engine/markdown/pipeline.cpp:448-540 | if no chosen match shows more than it matches, the reader sees exactly that if and only if every chosen match goes on behind itself and looks like what it matches |
| CodeBlock.HonestCodeShown | src/engine/markdown/pipeline.cpp:448-540 | if the chosen matches show all they match, that is when nothing is skipped |
| CodeBlock.DroppedBlank | src/engine/markdown/syntax_registry.cpp:140-143 | code that starts with a call written with white space in front of its bracket is not shown whole |
| CodeBlock.HtmlCodeShownAsNothing | src/engine/markdown/syntax_registry.cpp:195-204 | code in the HTML grammar is shown as no text at all |
| CodeBlock.ColorShows | src/engine/markdown/pipeline.cpp:521-522 | a longer string colour changes a rendered block if and only if a string is highlighted in it |
| CodeBlock.FontTagsBalanced | src/engine/markdown/pipeline.cpp:521-540 | the font tags of displayed code open and close alternately when every format pairs its markers |
| Hex.EncodePayload | src/engine/markdown/pipeline.cpp:542-554 | two digits a byte, high nibble first, for the whole code |
| Hex.DecodePayload | src/ui/chat_panel.cpp:67-78 | the index loop decodes pairs of digits and ignores a digit left over |
| Hex.DecodeEncode | src/ui/chat_panel.cpp:52-78 | decoding a payload gives back every byte string |
| Hex.EncodeDecode | src/ui/chat_panel.cpp:52-78 | every payload of whole upper-case pairs is the payload of what it decodes to |
| Hex.SmallDigits | src/ui/chat_panel.cpp:52-78 | the decoder takes digits in either case |
| Links.LinksCarryCode | src/engine/markdown/pipeline.cpp:542-571 | what stands in the copy link and in the download link of a rendered block, up to the next quotation mark, decodes to the code, for every grammar and theme without quotation marks and every byte string |
| CopyCode.BlockOnPage | src/engine/markdown/pipeline.cpp:609-611 | a page with a code token shows that token's block between what is shown of the tokens around it |
| CopyCode.CopyGivesSource | src/engine/markdown/pipeline.cpp:309-335 | wherever a closed non-empty block stands in a document: the page shows its block, and what both links of that block carry decodes to its lines, each less one carriage return and with a line break |
| CopyCode.CopyGivesSourceAtEnd | src/engine/markdown/pipeline.cpp:348-367 | the same for a text that ends right behind the closing fence |
| Fnv.HashWithSeed | src/engine/markdown/pipeline.cpp:133-141 | the byte loop computes the specified fold, wrapping at 64 bits |
| Fnv.HashConcat | src/engine/markdown/pipeline.cpp:374-420 | chaining seeds hashes the concatenation |
| Fnv.TestVectors | src/engine/markdown/pipeline.cpp:133-141 | the hash of the empty text and of one letter, as published for 64-bit FNV-1a |
| Fnv.PrimeInvertible | src/engine/markdown/pipeline.cpp:131 | multiplication by the prime modulo 2^64 is undone by a named inverse |
| Fnv.HashInjectiveInSeed | src/engine/markdown/pipeline.cpp:133-141 | hashing one text never merges two states: equal hashes if and only if equal seeds |
| Fnv.OneByteNeverCollides | src/engine/markdown/pipeline.cpp:133-141 | under one seed, two texts alike but for one byte have the same key if and only if that byte is the same too |
| Lru.RunValid | src/engine/markdown/pipeline.cpp:67-118 | over every run, the order is free of duplicates, has the map's keys and at most 512 of them |
| Lru.LifeOfEntry | src/engine/markdown/pipeline.cpp:81-113 | an unused entry stays, with its fragment, exactly while fewer than 512 keys stand behind it or are used; so the least recently used key is the one evicted |
| Lru.LifeSinceLastUse | src/engine/markdown/pipeline.cpp:81-113 | counted from its last use, an entry lives exactly until 512 other keys have been used |
| FragmentCache.KeyList.PushBack | src/engine/markdown/pipeline.cpp:89-91 | a new node is linked in behind the last one |
| FragmentCache.KeyList.EraseAt | src/engine/markdown/pipeline.cpp:101 | unlinking a node through its own pointers removes exactly it from the list |
| FragmentCache.FragmentCache.Touch | src/engine/markdown/pipeline.cpp:100-104 | the key moves to the back and its stored iterator to the new node |
| FragmentCache.FragmentCache.EvictOldest | src/engine/markdown/pipeline.cpp:106-113 | the front of the list leaves list and map |
| FragmentCache.FragmentCache.Get | src/engine/markdown/pipeline.cpp:71-79 | answers and reorders like the plain LRU list, with every stored iterator still at its key's node |
| FragmentCache.FragmentCache.Put | src/engine/markdown/pipeline.cpp:81-92 | inserts like the plain LRU list; a present key changes nothing |
| RenderCache.TransparentIff | src/engine/markdown/pipeline.cpp:371-424 | over every sequence of calls with its hits and evictions, the cache returns what rendering returns, if and only if no two inputs share a key and render differently |
| RenderCache.CollisionShows | src/engine/markdown/pipeline.cpp:376-378 | two colliding inputs in a row do show |
| RenderCache.KeysHashConcatenations | src/engine/markdown/pipeline.cpp:372-420 | both keys are the hash of one concatenated string |
| RenderCache.InlineHashedDetermines | src/engine/markdown/pipeline.cpp:143-155 | what the string behind an inline key determines, and what it does not: both directions |
| RenderCache.InlineTransparentIff | src/engine/markdown/pipeline.cpp:371-413 | over changing themes, and as far as the hash keeps the hashed strings apart, inline caching is not noticed if and only if inputs whose other colours and whose text colour followed by text agree have the same text |
| RenderCache.InlineTransparent | src/engine/markdown/pipeline.cpp:371-413 | so it is never noticed with text colours of one length |
| RenderCache.TextColorRunsIntoText | src/engine/markdown/pipeline.cpp:153-154 | and it is for two inputs of every theme, which share a key and render differently |
| RenderCache.CodeHashedDetermines | src/engine/markdown/pipeline.cpp:417-420 | two code inputs have one hashed string if and only if code, all colours but the string colour, and language followed by string colour agree |
| RenderCache.FingerprintCovers | src/engine/markdown/pipeline.cpp:143-155 | themes with one fingerprint render all code alike |
| RenderCache.CodeTransparentIff | src/engine/markdown/pipeline.cpp:415-575 | over changing themes, and as far as the hash keeps the hashed strings apart, code caching is not noticed if and only if inputs that so agree render alike |
| RenderCache.CodeTransparent | src/engine/markdown/pipeline.cpp:415-575 | so it is never noticed with string colours of one length, whatever else of the theme changes |
| RenderCache.LanguageRunsIntoColor | src/engine/markdown/syntax_registry.cpp:104-106 | two names of one grammar, one beginning with the other, share a key in suitable themes, and then caching is noticed exactly when the code holds a highlighted string |
| RenderCache.RenderInline | src/engine/markdown/pipeline.cpp:380-409 | the rewrites on a miss compute the specified HTML |
| RenderCache.DecorateInlineText | src/engine/markdown/pipeline.cpp:371-413 | lookup, rendering and insertion on the heap-allocated cache are one step of the cache in front of the renderer |
| RenderCache.DecorateCodeBlock | src/engine/markdown/pipeline.cpp:415-575 | the same for code blocks |
| LineFraming.ParseStreamAccumulator | src/network/ollama_client.cpp:132-151 | the loop delivers the tokens of the complete lines, appends them to the accumulation and leaves the newline-free tail; without a callback the lines are only dropped |
| LineFraming.OneChunk | src/network/ollama_client.cpp:232-238 | after any chunk, what has been delivered and what is left depend only on the whole text so far |
| LineFraming.ChunkingInvisible | src/network/ollama_client.cpp:132-151 | for every split of a body into chunks, the tokens are those of the complete lines of the whole body |
| LineFraming.LinesDecoded | src/network/ollama_client.cpp:132-151 | a body delivers its lines that start with an opening brace and can be decoded, in order, and its last line waits |
| LineFraming.NothingLost | src/network/ollama_client.cpp:149 | consumed bytes and residual are the whole body, and the residual holds no line break |
| StreamClient.OllamaClient.TriggerActiveGenerationCancellation | src/network/ollama_client.cpp:49-53 | sets the flag and touches nothing else of the shared state |
| StreamClient.OllamaClient.CheckCache | src/network/ollama_client.cpp:55-62 | the stored response, or none, and no reordering |
| StreamClient.OllamaClient.UpdateCache | src/network/ollama_client.cpp:64-73 | a full cache drops its oldest insertion, then key and response are added |
| StreamClient.OllamaClient.Begin | src/network/ollama_client.cpp:170-195 | refused with no change while streaming; otherwise flag and residual are reset and the call is answered from the cache or streams |
| StreamClient.OllamaClient.Feed | src/network/ollama_client.cpp:231-239 | one chunk is appended, parsed and accumulated |
| StreamClient.OllamaClient.End | src/network/ollama_client.cpp:246-251 | the response is stored exactly when something was accumulated and no cancellation is pending, and streaming ends |
| StreamTasks.StepInv | src/network/ollama_client.cpp:164-252 | every step of every task, and every cancellation, keeps the invariant of tasks, flags, residual and cache |
| StreamTasks.AtMostOneStreams | src/network/ollama_client.cpp:170-172 | in every interleaving at most one task is past the guard, and the flag is up exactly when there is one |
| StreamTasks.CacheIsRecent | src/network/ollama_client.cpp:64-73 | in every reachable state the order list is free of duplicates, has exactly the table's keys, at most 64, and names the last 64 stored responses, oldest first |
| StreamTasks.CachedIsDelivered | src/network/ollama_client.cpp:219-248 | every cached response is the concatenation of all tokens that a finished run with that key, never stopped, has delivered, and those are the tokens of the body it received |
| StreamTasks.HitReplays | src/network/ollama_client.cpp:188-193 | a cache hit passes on, in one piece, what an earlier run delivered |
| StreamTasks.RefusedStart | src/network/ollama_client.cpp:170-172 | a start during streaming is refused and changes nothing of the running stream |
| StreamTasks.CancelSticks | src/network/ollama_client.cpp:220-248 | once a running task is cancelled it never stores its response, whatever else is started or happens |
| StreamTasks.CancelledNeverCached | src/network/ollama_client.cpp:246-248 | from the start: a task present and not yet stored when a cancellation arrives never enters the log of stored responses |
| Cancellation.StartsClean | src/network/ollama_client.cpp:170-197 | in every reachable state without an active task: a call lowers an old cancellation, empties the line buffer, and is answered from the cache or starts to stream |
| Cancellation.LaterCallsUndisturbed | src/network/ollama_client.cpp:174 | whatever was cancelled before: such a call that no cancellation follows is never stopped, and once finished it is stored if and only if it has accumulated something |
| Cancellation.StepFrame | src/network/ollama_client.cpp:164-252 | which events change the flag, the line buffer, the cache and the log, and that no event touches another task |
| Cancellation.StoppedIff | src/network/ollama_client.cpp:220-226 | a task is stopped, with its notice, by exactly one event: the top of its loop with the response incomplete and a cancellation pending |
| Cancellation.CancelStopsReading | src/network/ollama_client.cpp:219-230 | from a cancellation on the running task reads at most once more, and not at all unless it was waiting for a read |
| StreamTasks.StoredIff | src/network/ollama_client.cpp:246-248 | a finishing task is stored if and only if it has accumulated something and no cancellation is pending, however its last read ended |
| StreamTasks.FailureLooksComplete | src/network/ollama_client.cpp:241-248 | from any state, a failed read and the end of the response lead to the same state |
| StreamTasks.FailedReadIsCached | src/network/ollama_client.cpp:241-248 | a whole run from the start whose only read fails, and whose response is cached |
| ThinkFilter.TokenFilter.OnToken | src/network/stream_worker.cpp:39-72 | nothing without a callback, the token as it is with reasoning shown, and otherwise the filter's pieces and its new state |
| ThinkFilter.RunCobaltTask | src/network/stream_worker.cpp:27-78 | a run makes the calls of its tokens in order and then the final one |
| ThinkFilter.VisibleSplit | src/network/stream_worker.cpp:47-71 | removing spans can be done part by part at every boundary that breaks no tag |
| ThinkFilter.TokenExact | src/network/stream_worker.cpp:47-71 | one token shows exactly its visible part if and only if it has no opening tag, or one with nothing in front inside a span and no second span behind; the state is then right too |
| ThinkFilter.StreamVisible | src/network/stream_worker.cpp:34-72 | with no tag split, the concatenated output is the whole text with all spans removed if and only if every token is of that kind |
| ThinkFilter.SplitTagIsShown | src/network/stream_worker.cpp:48-50 | outside a span, an opening tag split over two tokens is shown with its span |
| ThinkFilter.SplitCloseHides | src/network/stream_worker.cpp:57-66 | inside a span, a closing tag split over two tokens is missed: nothing is shown and the filter stays inside, though the text goes on outside |
| ThinkFilter.SplitCloseText | src/network/stream_worker.cpp:57-66 | so whatever follows such a tag is visible and hidden |
| ThinkFilter.OneFinalCall | src/network/stream_worker.cpp:73-76 | every run with a callback ends in exactly one final call and none follows it |
| ThinkFilter.ThinkingUnchanged | src/network/stream_worker.cpp:43-46 | with reasoning shown the tokens pass unchanged |
| ThinkFilter.HiddenThinking | src/network/stream_worker.cpp:34-76 | with reasoning hidden and no tag split, the panel's text is the response without its spans if and only if every token is of that kind |
| Answers.ReplayLooksTheSame | src/network/stream_worker.cpp:47-71 | for an answer with unsplit tags of which the filter handles every token, or the whole as one token: replayed as one token it looks as streamed if and only if the filter handles both |
| Answers.HitLooksTheSame | src/network/ollama_client.cpp:188-193 | in every reachable state and for such an answer: a call answered from the cache shows what the run behind the cached response has shown, if and only if the filter handles both |
| Base64.Drain | src/network/base64.hpp:37-40 | the inner loop writes the one or two digits due and leaves the bit count below zero |
| Base64.ReadOctet | src/network/base64.hpp:34-41 | although the accumulator wraps, one more octet adds exactly the digits that complete |
| Base64.Encode | src/network/base64.hpp:24-52 | for every input the encoder's output is the encoding of section 4 of RFC 4648, padding included |
| Base64.EncodedLength | src/network/base64.hpp:26 | four digits for every three octets begun |
| Base64.DecodeEncoded | src/network/base64.hpp:24-52 | a standard decoder recovers every input |
| Base64.EncodedDecoded | src/network/base64.hpp:24-52 | every canonical text is the encoding of what it decodes to |
| Base64.TestVectors | src/network/base64.hpp:24-52 | the vectors of section 10 of RFC 4648, and the two digits that are neither letters nor figures |
| Attachments.AttachmentManager.RunningTotal | src/engine/storage/attachment_manager.cpp:108-111 | the running total is the true sum; it cannot wrap |
| Attachments.AttachmentManager.AnalyzeAndAdd | src/engine/storage/attachment_manager.cpp:49-130 | a file is queued exactly when nothing speaks against it; otherwise the first reason in order is reported and the queue is as before |
| Attachments.AttachmentManager.RemoveByIndex | src/engine/storage/attachment_manager.cpp:132-137 | the entry is removed, and an index out of range changes nothing |
| Attachments.AttachmentManager.ClearQueue | src/engine/storage/attachment_manager.cpp:144-146 | the queue is empty |
| Attachments.ImageExtensions | src/engine/storage/attachment_manager.cpp:35-48 | images are the files with one of four extensions, in any case of letters |
| Attachments.ReasonIs | src/engine/storage/attachment_manager.cpp:49-117 | which reason is reported, in which order and with which limits |
| Attachments.QueuedIs | src/engine/storage/attachment_manager.cpp:119-126 | what is queued of an accepted file |
| Attachments.RemovedIs | src/engine/storage/attachment_manager.cpp:132-146 | removing closes the gap and keeps the order of the others; clearing leaves nothing |
| Attachments.AlwaysWithin | src/engine/storage/attachment_manager.cpp:49-146 | after any sequence of operations with any files and parser outcomes: at most 6 entries, at most 32000 tokens, every text entry estimated at a quarter of its cached text |
| Attachments.EstimatePayloadTokens | src/engine/token/token_estimator.cpp:30-55 | the loops add up history with its overhead, queued texts and the prompt, wrapping at 2^64: the result is the sum if and only if the sum is below that |
| Attachments.PayloadParts | src/engine/token/token_estimator.cpp:30-55 | history, queue and prompt are counted each on its own |
| Attachments.MessageTokens | src/engine/token/token_estimator.cpp:22-39 | a message costs four tokens besides those of its text, and a text a quarter of its length but at least one if it is not empty |
| Attachments.TotalsDiffer | src/engine/token/token_estimator.cpp:41-49 | how the queue's total and the estimator's differ, exactly: by the images and by the texts of one to three characters |
| Attachments.EstimatorBound | src/engine/token/token_estimator.cpp:41-49 | for every queue that operations can produce, the estimator's total for it is at most 32005 |
| Attachments.BoundIsMet | src/engine/token/token_estimator.cpp:22-28 | and that bound is met |

## Left out

- The regular expression engine: a grammar rule is an arbitrary search function with ordered bounds; the literal patterns and the two paired patterns of the inline renderer are modelled as scanners.
- The grammars of src/engine/markdown/syntax_registry.cpp beyond the rules named above: whether a format shows no more than it matches, or pairs its markers, is a hypothesis of the highlighting lemmas.
- Theme colours are taken as plain text in replacement formats; a colour with a dollar sign or a backslash would be read as a format directive.
- Sockets, HTTP, request building and the JSON decoder: a response line is decoded by an arbitrary partial function, and read results are events.
- Read failures, resolver failures and completion of the response are arbitrary; failures of connecting, writing and reading the header are ignored by the code and by the model.
- Response cache keys are opaque strings: the key text is not injective and counts images only by number.
- Two atomics and the cache's mutex: each stretch between two suspension points is one step, and a cancellation falls between steps. `GetExecutor`, logging and closing the socket are not part of the model.
- The emitter holds the two caches as plain lists; that the heap-allocated caches behave like these is what `RenderCache.DecorateInlineText`, `RenderCache.DecorateCodeBlock` and `FragmentCache` prove.
- StreamClient.OllamaClient.UpdateCache: guards the removal of the oldest key against an empty order list, which the code does not; a full cache never has one in a reachable state, by StreamTasks.CacheIsRecent.
- Document and image parsers, the file system and the vision pipeline: their outcomes are parameters of `AnalyzeAndAdd`.
- `ImageTransit` in src/network/base64.hpp: a swap under a lock.
- The user interface, SQLite history, export, configuration files, metrics and install validation.
