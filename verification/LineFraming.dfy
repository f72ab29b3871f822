/** The stream client's line framing: chunks are appended to a residual buffer, complete lines are
    decoded and delivered, and the newline-free tail waits for the next chunk. */
module LineFraming {
  import opened Text

  /** The JSON decoder of a response line, which may fail: an arbitrary function. */
  type Decoder = string -> Option<string>

  /** The token of one line: only lines that start with an opening brace are decoded. */
  function TokenOf(decode: Decoder, line: string): seq<string> {
    if line != "" && line[0] == '{' && decode(line).Some? then [decode(line).value] else []
  }

  /** The tokens of the complete lines of a text. */
  function Tokens(decode: Decoder, text: string): seq<string>
    decreases |text|
  {
    match Cut(text, "\n")
    case Absent => []
    case Around(line, rest) => TokenOf(decode, line) + Tokens(decode, rest)
  }

  /** What stands behind the last line break. */
  function Residual(text: string): string
    decreases |text|
  {
    match Cut(text, "\n")
    case Absent => text
    case Around(line, rest) => Residual(rest)
  }

  /** Everything up to and with the last line break. */
  function Consumed(text: string): string
    decreases |text|
  {
    match Cut(text, "\n")
    case Absent => ""
    case Around(line, rest) => line + "\n" + Consumed(rest)
  }

  function Concat(parts: seq<string>): string {
    if parts == [] then "" else parts[0] + Concat(parts[1..])
  }

  // ----- the loop -----

  lemma FirstLine(decode: Decoder, text: string)
    requires Cut(text, "\n").Around?
    ensures var cut := Cut(text, "\n");
            && Tokens(decode, text) == TokenOf(decode, cut.before) + Tokens(decode, cut.after)
            && Residual(text) == Residual(cut.after)
  {
  }

  lemma LastLine(decode: Decoder, text: string)
    requires Cut(text, "\n").Absent?
    ensures Tokens(decode, text) == [] && Residual(text) == text
  {
  }

  lemma {:induction false} ConcatAppend(a: seq<string>, b: seq<string>)
    ensures Concat(a + b) == Concat(a) + Concat(b)
  {
    if a == [] {
      assert a + b == b;
    } else {
      calc {
        Concat(a + b);
        { assert (a + b)[1..] == a[1..] + b; }
        a[0] + Concat(a[1..] + b);
        { ConcatAppend(a[1..], b); }
        a[0] + (Concat(a[1..]) + Concat(b));
        Concat(a) + Concat(b);
      }
    }
  }

  lemma ConcatOne(a: seq<string>, x: string)
    ensures Concat(a + [x]) == Concat(a) + x
  {
    ConcatAppend(a, [x]);
    assert Concat([x]) == x + "";
  }

  /** `ParseStreamAccumulator` on the residual buffer; without a callback the lines are dropped. */
  method ParseStreamAccumulator(decode: Decoder, callback: bool, buffer: string, accumulation: string)
    returns (delivered: seq<string>, residual: string, accumulated: string)
    ensures residual == Residual(buffer)
    ensures delivered == if callback then Tokens(decode, buffer) else []
    ensures accumulated == accumulation + Concat(delivered)
  {
    residual, accumulated, delivered := buffer, accumulation, [];
    hide Tokens, Residual, Cut;
    var cut := Cut(residual, "\n");
    while cut.Around?
      invariant cut == Cut(residual, "\n")
      invariant Residual(residual) == Residual(buffer)
      invariant if callback then delivered + Tokens(decode, residual) == Tokens(decode, buffer) else delivered == []
      invariant accumulated == accumulation + Concat(delivered)
      decreases |residual|
    {
      FirstLine(decode, residual);
      var token := DecodeLine(decode, cut.before);
      if token.Some? && callback {
        ConcatOne(delivered, token.value);
        delivered := delivered + [token.value];
        accumulated := accumulated + token.value;
      }
      residual := cut.after;
      cut := Cut(residual, "\n");
    }
    LastLine(decode, residual);
  }

  /** The test and the decoding of one line. */
  method DecodeLine(decode: Decoder, line: string) returns (token: Option<string>)
    ensures TokenOf(decode, line) == if token.Some? then [token.value] else []
  {
    token := None;
    if line != "" && line[0] == '{' {
      token := decode(line);
    }
  }

  // ----- framing does not depend on chunking -----

  /** One more chunk: what is delivered and what remains only depend on the whole text so far. */
  lemma {:induction false} OneChunk(decode: Decoder, a: string, b: string)
    ensures Tokens(decode, a + b) == Tokens(decode, a) + Tokens(decode, Residual(a) + b)
    ensures Residual(a + b) == Residual(Residual(a) + b)
    decreases |a|
  {
    var cut := Cut(a, "\n");
    if cut.Absent? {
      LastLine(decode, a);
    } else {
      CutAppend(a, b, '\n');
      FirstLine(decode, a);
      FirstLine(decode, a + b);
      OneChunk(decode, cut.after, b);
      hide Tokens, Residual, Cut, TokenOf;
      Regroup(TokenOf(decode, cut.before), Tokens(decode, cut.after), Tokens(decode, Residual(cut.after) + b));
    }
  }

  /** The tokens a run of chunks delivers, one chunk after another. */
  function Delivered(decode: Decoder, residual: string, chunks: seq<string>): seq<string>
    decreases |chunks|
  {
    if chunks == [] then []
    else
      Tokens(decode, residual + chunks[0]) + Delivered(decode, Residual(residual + chunks[0]), chunks[1..])
  }

  function FinalResidual(residual: string, chunks: seq<string>): string
    decreases |chunks|
  {
    if chunks == [] then residual else FinalResidual(Residual(residual + chunks[0]), chunks[1..])
  }

  /** For every way of splitting a body into chunks, the tokens delivered are those of the complete
      lines of the whole body, and its newline-free tail remains. */
  lemma {:induction false} ChunkingInvisible(decode: Decoder, residual: string, chunks: seq<string>)
    requires Residual(residual) == residual && Tokens(decode, residual) == []
    ensures Delivered(decode, residual, chunks) == Tokens(decode, residual + Concat(chunks))
    ensures FinalResidual(residual, chunks) == Residual(residual + Concat(chunks))
    decreases |chunks|
  {
    if chunks == [] {
      assert residual + Concat(chunks) == residual;
    } else {
      var first := residual + chunks[0];
      var next, rest := Residual(first), Concat(chunks[1..]);
      assert residual + Concat(chunks) == first + rest;
      hide Tokens, Residual, Concat;
      ResidualSettled(decode, first);
      ChunkingInvisible(decode, next, chunks[1..]);
      OneChunk(decode, first, rest);
    }
  }

  lemma {:induction false} ResidualSettled(decode: Decoder, text: string)
    ensures Residual(Residual(text)) == Residual(text) && Tokens(decode, Residual(text)) == []
    decreases |text|
  {
    if Cut(text, "\n").Around? {
      ResidualSettled(decode, Cut(text, "\n").after);
    }
  }

  /** The consumed bytes and the residual are the whole body, and the residual holds no line break. */
  lemma {:induction false} NothingLost(text: string)
    ensures text == Consumed(text) + Residual(text)
    ensures '\n' !in Residual(text)
    decreases |text|
  {
    var cut := Cut(text, "\n");
    if cut.Absent? {
      CutAbsent(text, '\n');
      assert Consumed(text) + Residual(text) == text;
    } else {
      NothingLost(cut.after);
      assert text == cut.before + "\n" + cut.after by {
        CutIsLeftmost(text, "\n");
      }
      assert Consumed(text) == cut.before + "\n" + Consumed(cut.after);
      assert Residual(text) == Residual(cut.after);
      hide Consumed, Residual, Cut;
      Regroup(cut.before + "\n", Consumed(cut.after), Residual(cut.after));
    }
  }

  // ----- which lines are tokens -----

  function Terminated(lines: seq<string>): string {
    if lines == [] then "" else lines[0] + "\n" + Terminated(lines[1..])
  }

  /** What the lines deliver: each that starts with an opening brace and can be decoded, in order. */
  function Decoded(decode: Decoder, lines: seq<string>): seq<string> {
    if lines == [] then []
    else if "{" <= lines[0] && decode(lines[0]).Some? then [decode(lines[0]).value] + Decoded(decode, lines[1..])
    else Decoded(decode, lines[1..])
  }

  /** Read line by line: a body delivers its lines that are objects, and its last line waits for its end. */
  lemma {:induction false} LinesDecoded(decode: Decoder, lines: seq<string>, tail: string)
    requires '\n' !in tail && forall l :: l in lines ==> '\n' !in l
    ensures Tokens(decode, Terminated(lines) + tail) == Decoded(decode, lines)
    ensures Residual(Terminated(lines) + tail) == tail
  {
    if lines == [] {
      assert "" + tail == tail;
      CutsNowhere(tail, "\n");
    } else {
      var line, rest := lines[0], Terminated(lines[1..]) + tail;
      assert line in lines;
      LinesDecoded(decode, lines[1..], tail);
      Regroup(line + "\n", Terminated(lines[1..]), tail);
      CutAtFirst(line, rest, '\n');
      FirstLine(decode, Terminated(lines) + tail);
    }
  }
}
