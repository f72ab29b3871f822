/** The reasoning filter between the streaming client and the chat panel: it is meant to remove
    the spans between think tags from the streamed text, token by token. */
module ThinkFilter {
  import opened Text
  import opened LineFraming

  const OPEN: string := "<think>"
  const CLOSE: string := "</think>"

  /** One call of the panel's callback. */
  datatype Call = Call(text: string, final: bool)

  function Tag(inside: bool): string {
    if inside then CLOSE else OPEN
  }

  // ----- what the filter is meant to show -----

  /** The text with every span from an opening tag to the next closing tag removed. */
  function Visible(inside: bool, text: string): string
    decreases |text|
  {
    if text == "" then ""
    else if Tag(inside) <= text then Visible(!inside, text[|Tag(inside)|..])
    else (if inside then "" else [text[0]]) + Visible(inside, text[1..])
  }

  /** Whether the text ends inside a span. */
  predicate EndsInside(inside: bool, text: string)
    decreases |text|
  {
    if text == "" then inside
    else if Tag(inside) <= text then EndsInside(!inside, text[|Tag(inside)|..])
    else EndsInside(inside, text[1..])
  }

  // ----- what it does -----

  function Piece(text: string): seq<string> {
    if text == "" then [] else [text]
  }

  /** The part of a token that stands inside a span: one closing tag is looked for. */
  function Closed(rest: string): (bool, seq<string>) {
    match Cut(rest, CLOSE)
    case Absent => (true, [])
    case Around(_, after) => (false, Piece(after))
  }

  /** One token: at most one opening tag and then at most one closing tag are handled, and what
      stands in front of the opening tag is shown even inside a span. */
  function Filtered(inside: bool, token: string): (bool, seq<string>) {
    match Cut(token, OPEN)
    case Absent => if inside then Closed(token) else (false, Piece(token))
    case Around(before, rest) => (Closed(rest).0, Piece(before) + Closed(rest).1)
  }

  function FilteredAll(inside: bool, tokens: seq<string>): seq<string>
    decreases |tokens|
  {
    if tokens == [] then []
    else Filtered(inside, tokens[0]).1 + FilteredAll(Filtered(inside, tokens[0]).0, tokens[1..])
  }

  function Calls(pieces: seq<string>): seq<Call> {
    if pieces == [] then [] else [Call(pieces[0], false)] + Calls(pieces[1..])
  }

  /** Everything the panel is called with during one run. */
  function RunCalls(callback: bool, thinking: bool, tokens: seq<string>): seq<Call> {
    if callback then Calls(if thinking then tokens else FilteredAll(false, tokens)) + [Call("", true)] else []
  }

  lemma {:induction false} CallsConcat(a: seq<string>, b: seq<string>)
    ensures Calls(a + b) == Calls(a) + Calls(b)
  {
    if a == [] {
      assert a + b == b;
    } else {
      assert (a + b)[1..] == a[1..] + b;
      CallsConcat(a[1..], b);
    }
  }

  /** The lambda that receives the tokens, with the variable it captures. */
  class TokenFilter {
    var inside: bool
    const callback: bool
    const thinking: bool

    constructor (callback: bool, thinking: bool)
      ensures !inside && this.callback == callback && this.thinking == thinking
    {
      this.inside := false;
      this.callback, this.thinking := callback, thinking;
    }

    method OnToken(token: string) returns (calls: seq<Call>)
      modifies this
      ensures !callback ==> calls == [] && inside == old(inside)
      ensures callback && thinking ==> calls == [Call(token, false)] && inside == old(inside)
      ensures callback && !thinking ==>
                calls == Calls(Filtered(old(inside), token).1) && inside == Filtered(old(inside), token).0
    {
      calls := [];
      if !callback {
        return;
      }
      if thinking {
        return [Call(token, false)];
      }
      var buffer := token;
      ghost var pieces: seq<string> := [];
      var cut := Cut(buffer, OPEN);
      if cut.Around? {
        inside := true;
        CutIsLeftmost(buffer, OPEN);
        var position := |cut.before|;
        var before := buffer[..position];
        assert before == cut.before && buffer[position + |OPEN|..] == cut.after;
        if before != "" {
          calls := [Call(before, false)];
        }
        pieces := Piece(before);
        buffer := buffer[position + |OPEN|..];
      }
      assert calls == Calls(pieces);
      var more := AfterOpening(buffer);
      CallsConcat(pieces, if old(inside) || cut.Around? then Closed(buffer).1 else Piece(buffer));
      calls := calls + more;
    }

    /** The second half of the lambda: close the span, or show the text. */
    method AfterOpening(buffer: string) returns (calls: seq<Call>)
      modifies this
      ensures calls == Calls(if old(inside) then Closed(buffer).1 else Piece(buffer))
      ensures inside == (old(inside) && Closed(buffer).0)
    {
      calls := [];
      if inside {
        var close := Cut(buffer, CLOSE);
        if close.Around? {
          inside := false;
          CutIsLeftmost(buffer, CLOSE);
          var after := buffer[|close.before| + |CLOSE|..];
          assert after == close.after;
          if after != "" {
            calls := [Call(after, false)];
          }
        }
      } else if buffer != "" {
        calls := [Call(buffer, false)];
      }
    }
  }

  /** A whole run: the tokens of the stream, and then the final call. */
  method RunCobaltTask(callback: bool, thinking: bool, tokens: seq<string>) returns (calls: seq<Call>)
    ensures calls == RunCalls(callback, thinking, tokens)
  {
    calls := [];
    var filter := new TokenFilter(callback, thinking);
    var n := 0;
    while n < |tokens|
      invariant n <= |tokens| && fresh(filter) && filter.callback == callback && filter.thinking == thinking
      invariant calls + Left(callback, thinking, filter.inside, tokens[n..]) == Left(callback, thinking, false, tokens)
    {
      hide Left, Calls, Filtered;
      ghost var inside := filter.inside;
      var more := filter.OnToken(tokens[n]);
      assert tokens[n..][1..] == tokens[n + 1..];
      LeftStep(callback, thinking, inside, tokens[n..], more, filter.inside);
      Regroup(calls, more, Left(callback, thinking, filter.inside, tokens[n + 1..]));
      calls := calls + more;
      n := n + 1;
    }
    if callback {
      calls := calls + [Call("", true)];
    }
  }

  /** The calls for the tokens to come. */
  function Left(callback: bool, thinking: bool, inside: bool, tokens: seq<string>): seq<Call> {
    if !callback then [] else Calls(if thinking then tokens else FilteredAll(inside, tokens))
  }

  lemma LeftStep(callback: bool, thinking: bool, inside: bool, tokens: seq<string>, more: seq<Call>, next: bool)
    requires tokens != []
    requires !callback ==> more == []
    requires callback && thinking ==> more == [Call(tokens[0], false)] && next == inside
    requires callback && !thinking ==>
               more == Calls(Filtered(inside, tokens[0]).1) && next == Filtered(inside, tokens[0]).0
    ensures Left(callback, thinking, inside, tokens) == more + Left(callback, thinking, next, tokens[1..])
  {
    if callback && !thinking {
      hide Filtered, Calls;
      CallsConcat(Filtered(inside, tokens[0]).1, FilteredAll(next, tokens[1..]));
    }
  }

  // ----- the reference -----

  lemma {:induction false} VisibleOutside(text: string)
    ensures var cut := Cut(text, OPEN);
            if cut.Absent? then Visible(false, text) == text && !EndsInside(false, text)
            else Visible(false, text) == cut.before + Visible(true, cut.after)
                 && EndsInside(false, text) == EndsInside(true, cut.after)
  {
    if text != "" && !(OPEN <= text) {
      VisibleOutside(text[1..]);
      var rest := Cut(text[1..], OPEN);
      if rest.Absent? {
        assert text == [text[0]] + text[1..];
      } else {
        Regroup([text[0]], rest.before, Visible(true, rest.after));
      }
    }
  }

  lemma {:induction false} VisibleInside(text: string)
    ensures var cut := Cut(text, CLOSE);
            if cut.Absent? then Visible(true, text) == "" && EndsInside(true, text)
            else Visible(true, text) == Visible(false, cut.after)
                 && EndsInside(true, text) == EndsInside(false, cut.after)
  {
    if text != "" && !(CLOSE <= text) {
      VisibleInside(text[1..]);
    }
  }

  lemma {:induction false} VisibleShorter(inside: bool, text: string)
    ensures |Visible(inside, text)| <= |text|
    ensures inside && text != "" ==> |Visible(inside, text)| < |text|
    decreases |text|
  {
    if text != "" {
      if Tag(inside) <= text {
        VisibleShorter(!inside, text[|Tag(inside)|..]);
      } else {
        VisibleShorter(inside, text[1..]);
      }
    }
  }

  /** No tag runs across the boundary between two texts. */
  ghost predicate Unbroken(a: string, b: string) {
    && (forall i: nat :: i < |a| && At(a + b, i, OPEN) ==> i + |OPEN| <= |a|)
    && (forall i: nat :: i < |a| && At(a + b, i, CLOSE) ==> i + |CLOSE| <= |a|)
  }

  lemma UnbrokenFrom(a: string, b: string, k: nat)
    requires Unbroken(a, b) && k <= |a|
    ensures Unbroken(a[k..], b)
  {
    assert (a + b)[k..] == a[k..] + b;
    assert forall i: nat :: i <= |a[k..] + b| ==> (a + b)[k + i..] == (a[k..] + b)[i..];
    assert forall i: nat :: At(a[k..] + b, i, OPEN) ==> At(a + b, k + i, OPEN);
    assert forall i: nat :: At(a[k..] + b, i, CLOSE) ==> At(a + b, k + i, CLOSE);
  }

  lemma DropAppend(a: string, b: string, k: nat)
    requires k <= |a|
    ensures (a + b)[k..] == a[k..] + b
  {
  }

  lemma TagAppend(inside: bool, a: string, b: string)
    requires Unbroken(a, b) && a != ""
    ensures Tag(inside) <= a + b <==> Tag(inside) <= a
  {
    var tag := Tag(inside);
    if tag <= a + b {
      assert (a + b)[0..] == a + b;
      assert At(a + b, 0, tag);
      assert (a + b)[..|tag|] == a[..|tag|];
    }
  }

  /** A boundary that breaks no tag can be ignored. */
  lemma {:induction false} VisibleSplit(inside: bool, a: string, b: string)
    requires Unbroken(a, b)
    ensures Visible(inside, a + b) == Visible(inside, a) + Visible(EndsInside(inside, a), b)
    ensures EndsInside(inside, a + b) == EndsInside(EndsInside(inside, a), b)
    decreases |a|
  {
    if a == "" {
      assert a + b == b;
    } else {
      var tag := Tag(inside);
      TagAppend(inside, a, b);
      hide Unbroken;
      if tag <= a {
        UnbrokenFrom(a, b, |tag|);
        DropAppend(a, b, |tag|);
        VisibleSplit(!inside, a[|tag|..], b);
      } else {
        UnbrokenFrom(a, b, 1);
        DropAppend(a, b, 1);
        VisibleSplit(inside, a[1..], b);
        var head := if inside then "" else [a[0]];
        assert Visible(inside, a) == head + Visible(inside, a[1..]);
        assert Visible(inside, a + b) == head + Visible(inside, a[1..] + b);
        hide Visible;
        Regroup(head, Visible(inside, a[1..]), Visible(EndsInside(inside, a[1..]), b));
      }
    }
  }

  // ----- one token -----

  /** The tokens the filter handles as meant: no opening tag, or one that is not preceded by
      anything inside a span and whose span is not followed by another one in the same token. */
  predicate Handled(inside: bool, token: string) {
    var open := Cut(token, OPEN);
    open.Around? ==>
      && (inside ==> open.before == "")
      && var close := Cut(open.after, CLOSE);
         close.Around? ==> Cut(close.after, OPEN).Absent?
  }

  /** A tag has one opening bracket, its first character. */
  lemma OneBracket(text: string, i: nat, tag: string, j: nat)
    requires (tag == OPEN || tag == CLOSE) && At(text, i, tag) && i <= j < i + |tag| && text[j] == '<'
    ensures j == i
  {
    assert tag[j - i] == text[i..][j - i];
  }

  /** In front of an opening tag no tag is broken. */
  lemma OpenUnbroken(before: string, rest: string)
    ensures Unbroken(before, OPEN + rest) && Unbroken(OPEN, rest)
  {
    var text := before + (OPEN + rest);
    forall i: nat, tag | i < |before| && (tag == OPEN || tag == CLOSE) && At(text, i, tag)
      ensures i + |tag| <= |before|
    {
      if |before| < i + |tag| {
        OneBracket(text, i, tag, |before|);
      }
    }
    forall i: nat, tag | i < |OPEN| && (tag == OPEN || tag == CLOSE) && At(OPEN + rest, i, tag)
      ensures i + |tag| <= |OPEN|
    {
      if |OPEN| < i + |tag| {
        assert (OPEN + rest)[i..][0] == tag[0] && (OPEN + rest)[i..][1] == tag[1];
        OneBracket(OPEN + rest, 0, OPEN, i);
      }
    }
  }

  lemma OpenVisible(inside: bool, rest: string)
    ensures Visible(inside, OPEN + rest) == Visible(true, rest)
    ensures EndsInside(inside, OPEN + rest) == EndsInside(true, rest)
  {
    OpenUnbroken("", rest);
    VisibleSplit(inside, OPEN, rest);
    VisibleOutside(OPEN);
    VisibleInside(OPEN);
    assert Cut(OPEN, CLOSE).Absent? by {
      CutIsLeftmost(OPEN, CLOSE);
    }
    assert OPEN[|OPEN|..] == "";
  }

  /** The part after an opening tag: what the filter shows of it is what is visible, unless the
      closed span is followed by another one. */
  lemma ClosedExact(rest: string)
    ensures var close := Cut(rest, CLOSE);
            var single := close.Around? ==> Cut(close.after, OPEN).Absent?;
            var (inside, pieces) := Closed(rest);
            && |Visible(true, rest)| <= |Concat(pieces)|
            && (single <==> Concat(pieces) == Visible(true, rest))
            && (single <==> |Visible(true, rest)| == |Concat(pieces)|)
            && (single ==> inside == EndsInside(true, rest))
  {
    VisibleInside(rest);
    var close := Cut(rest, CLOSE);
    if close.Around? {
      VisibleOutside(close.after);
      PieceConcat(close.after);
      var open := Cut(close.after, OPEN);
      if open.Around? {
        VisibleShorter(true, open.after);
      }
    }
  }

  lemma PieceConcat(text: string)
    ensures Concat(Piece(text)) == text
  {
    assert text != "" ==> Piece(text)[1..] == [];
  }

  /** A token with an opening tag: the text in front is judged as it stands, the rest inside. */
  lemma AroundOpen(inside: bool, before: string, rest: string)
    requires !inside ==> Visible(false, before) == before && !EndsInside(false, before)
    ensures Visible(inside, before + OPEN + rest) == Visible(inside, before) + Visible(true, rest)
    ensures EndsInside(inside, before + OPEN + rest) == EndsInside(true, rest)
  {
    hide Visible, EndsInside, Unbroken;
    OpenUnbroken(before, rest);
    VisibleSplit(inside, before, OPEN + rest);
    OpenVisible(EndsInside(inside, before), rest);
    assert before + OPEN + rest == before + (OPEN + rest);
  }

  lemma CutAt(s: string, tag: string)
    requires Cut(s, tag).Around?
    ensures At(s, |Cut(s, tag).before|, tag)
  {
    CutIsLeftmost(s, tag);
    var cut := Cut(s, tag);
    assert s[|cut.before|..] == tag + cut.after;
  }

  lemma AtShift(a: string, s: string, i: nat, tag: string)
    requires At(s, i, tag)
    ensures At(a + s, |a| + i, tag)
  {
    assert (a + s)[|a| + i..] == s[i..];
  }

  lemma AtExtend(s: string, b: string, c: string, i: nat, tag: string)
    requires At(s, i, tag)
    ensures At(s + b + c, i, tag)
  {
    assert (s + b + c)[i..] == s[i..] + b + c;
  }

  lemma {:induction false} BeforeOpen(text: string)
    requires Cut(text, OPEN).Around?
    ensures Visible(false, Cut(text, OPEN).before) == Cut(text, OPEN).before
    ensures !EndsInside(false, Cut(text, OPEN).before)
  {
    var cut := Cut(text, OPEN);
    CutIsLeftmost(text, OPEN);
    VisibleOutside(cut.before);
    hide Visible, EndsInside, Cut;
    var inner := Cut(cut.before, OPEN);
    if inner.Around? {
      CutAt(cut.before, OPEN);
      AtExtend(cut.before, OPEN, cut.after, |inner.before|, OPEN);
    }
  }

  /** Exactly when the filter shows of a token what is visible of it. */
  lemma TokenExact(inside: bool, token: string)
    ensures Concat(Filtered(inside, token).1) == Visible(inside, token) <==> Handled(inside, token)
    ensures Handled(inside, token) ==> Filtered(inside, token).0 == EndsInside(inside, token)
  {
    var open := Cut(token, OPEN);
    if open.Absent? {
      if inside {
        ClosedExact(token);
        AfterCloseAbsent(token);
      } else {
        VisibleOutside(token);
        PieceConcat(token);
      }
    } else {
      CutIsLeftmost(token, OPEN);
      BeforeOpen(token);
      AroundOpen(inside, open.before, open.after);
      ClosedExact(open.after);
      VisibleShorter(inside, open.before);
      PieceConcat(open.before);
      hide Visible, EndsInside, Closed, Piece, Concat, Cut;
      ConcatAppend(Piece(open.before), Closed(open.after).1);
      SameSplit(open.before, Concat(Closed(open.after).1), Visible(inside, open.before), Visible(true, open.after));
    }
  }

  lemma SameSplit(a: string, b: string, a': string, b': string)
    requires |a'| <= |a| && |b'| <= |b|
    ensures a + b == a' + b' <==> a == a' && b == b'
  {
    if a + b == a' + b' {
      assert |a| == |a'| && |b| == |b'|;
      assert a == (a + b)[..|a|] == (a' + b')[..|a|] == a';
      assert b == (a + b)[|a|..] == (a' + b')[|a|..] == b';
    }
  }

  lemma AfterCloseAbsent(token: string)
    requires Cut(token, OPEN).Absent?
    ensures Cut(token, CLOSE).Around? ==> Cut(Cut(token, CLOSE).after, OPEN).Absent?
  {
    var close := Cut(token, CLOSE);
    if close.Around? {
      CutIsLeftmost(token, CLOSE);
      CutIsLeftmost(token, OPEN);
      var open := Cut(close.after, OPEN);
      if open.Around? {
        CutAt(close.after, OPEN);
        AtShift(close.before + CLOSE, close.after, |open.before|, OPEN);
      }
    }
  }

  // ----- the stream -----

  /** No tag is split over tokens. */
  ghost predicate Unsplit(tokens: seq<string>)
    decreases |tokens|
  {
    tokens != [] ==> Unbroken(tokens[0], Concat(tokens[1..])) && Unsplit(tokens[1..])
  }

  /** Every token is handled as meant in the state the text before it leaves. */
  predicate AllHandled(inside: bool, tokens: seq<string>)
    decreases |tokens|
  {
    tokens != [] ==> Handled(inside, tokens[0]) && AllHandled(EndsInside(inside, tokens[0]), tokens[1..])
  }

  /** The filter never shows less than is visible, and it is inside a span only when the text is. */
  lemma TokenLonger(filtering: bool, inside: bool, token: string)
    requires filtering ==> inside
    ensures |Visible(inside, token)| <= |Concat(Filtered(filtering, token).1)|
    ensures Filtered(filtering, token).0 ==> EndsInside(inside, token)
  {
    var open := Cut(token, OPEN);
    if open.Absent? {
      if filtering {
        ClosedExact(token);
        VisibleInside(token);
      } else {
        VisibleShorter(inside, token);
        PieceConcat(token);
      }
    } else {
      CutIsLeftmost(token, OPEN);
      BeforeOpen(token);
      AroundOpen(inside, open.before, open.after);
      ClosedExact(open.after);
      VisibleInside(open.after);
      VisibleShorter(inside, open.before);
      PieceConcat(open.before);
      hide Visible, EndsInside, Piece, Concat, Cut;
      ConcatAppend(Piece(open.before), Closed(open.after).1);
    }
  }

  lemma {:induction false} StreamLonger(filtering: bool, inside: bool, tokens: seq<string>)
    requires Unsplit(tokens) && (filtering ==> inside)
    ensures |Visible(inside, Concat(tokens))| <= |Concat(FilteredAll(filtering, tokens))|
    decreases |tokens|
  {
    if tokens != [] {
      var token, rest := tokens[0], tokens[1..];
      var (next, pieces) := Filtered(filtering, token);
      TokenLonger(filtering, inside, token);
      VisibleSplit(inside, token, Concat(rest));
      StreamLonger(next, EndsInside(inside, token), rest);
      assert FilteredAll(filtering, tokens) == pieces + FilteredAll(next, rest);
      assert Concat(tokens) == token + Concat(rest);
      hide Visible, Concat, FilteredAll, Filtered, EndsInside;
      ConcatAppend(pieces, FilteredAll(next, rest));
    }
  }

  /** Streamed token by token, the filter shows the whole text without its spans exactly when it
      handles every token: a token it does not handle makes the output longer for good. */
  lemma {:induction false} StreamVisible(inside: bool, tokens: seq<string>)
    requires Unsplit(tokens)
    ensures Concat(FilteredAll(inside, tokens)) == Visible(inside, Concat(tokens)) <==> AllHandled(inside, tokens)
    decreases |tokens|
  {
    if tokens != [] {
      var token, rest := tokens[0], tokens[1..];
      var (next, pieces) := Filtered(inside, token);
      var ends := EndsInside(inside, token);
      TokenExact(inside, token);
      TokenLonger(inside, inside, token);
      VisibleSplit(inside, token, Concat(rest));
      StreamLonger(next, ends, rest);
      StreamVisible(next, rest);
      assert FilteredAll(inside, tokens) == pieces + FilteredAll(next, rest);
      assert Concat(tokens) == token + Concat(rest);
      hide Visible, Concat, FilteredAll, Filtered, EndsInside, Handled;
      ConcatAppend(pieces, FilteredAll(next, rest));
      SameSplit(Concat(pieces), Concat(FilteredAll(next, rest)), Visible(inside, token), Visible(ends, Concat(rest)));
    }
  }

  function Texts(calls: seq<Call>): seq<string> {
    if calls == [] then [] else [calls[0].text] + Texts(calls[1..])
  }

  lemma {:induction false} TextsOfCalls(pieces: seq<string>)
    ensures Texts(Calls(pieces) + [Call("", true)]) == pieces + [""]
    ensures |Calls(pieces)| == |pieces| && forall i :: 0 <= i < |pieces| ==> !Calls(pieces)[i].final
  {
    var calls := Calls(pieces) + [Call("", true)];
    if pieces == [] {
      assert calls == [Call("", true)] && calls[1..] == [];
    } else {
      TextsOfCalls(pieces[1..]);
      assert calls[0] == Call(pieces[0], false) && calls[1..] == Calls(pieces[1..]) + [Call("", true)];
      assert pieces + [""] == [pieces[0]] + (pieces[1..] + [""]);
    }
  }

  /** Every run with a callback ends in exactly one final call, and none follows it; without a
      callback nothing happens. */
  lemma OneFinalCall(thinking: bool, tokens: seq<string>)
    ensures RunCalls(false, thinking, tokens) == []
    ensures var calls := RunCalls(true, thinking, tokens);
            calls != [] && forall i :: 0 <= i < |calls| ==> (calls[i].final <==> i == |calls| - 1)
  {
    TextsOfCalls(if thinking then tokens else FilteredAll(false, tokens));
  }

  /** With reasoning shown, the panel receives the tokens as they are. */
  lemma ThinkingUnchanged(tokens: seq<string>)
    ensures Texts(RunCalls(true, true, tokens)) == tokens + [""]
  {
    TextsOfCalls(tokens);
  }

  /** With reasoning hidden, the panel's text is the whole response without its think spans exactly
      when the filter handles every token. */
  lemma HiddenThinking(tokens: seq<string>)
    requires Unsplit(tokens)
    ensures Concat(Texts(RunCalls(true, false, tokens))) == Visible(false, Concat(tokens)) <==>
            AllHandled(false, tokens)
  {
    var pieces := FilteredAll(false, tokens);
    TextsOfCalls(pieces);
    StreamVisible(false, tokens);
    ConcatAppend(pieces, [""]);
    assert Concat([""]) == "";
  }

  /** The demand that no tag is split is needed: outside a span, a tag split over two tokens is
      shown, and so is the span it opens. */
  lemma SplitTagIsShown(a: string, b: string)
    requires Cut(a, OPEN).Absent? && Cut(b, OPEN).Absent? && Cut(a + b, OPEN).Around?
    ensures Concat(FilteredAll(false, [a, b])) == a + b
    ensures Visible(false, a + b) != a + b
  {
    assert Concat(FilteredAll(false, [a, b])) == a + b by {
      assert [a, b][1..] == [b] && [b][1..] == [];
      assert Filtered(false, a) == (false, Piece(a)) && Filtered(false, b) == (false, Piece(b));
      assert FilteredAll(false, [b]) == Piece(b) + FilteredAll(false, []) == Piece(b);
      PieceConcat(a);
      PieceConcat(b);
      ConcatAppend(Piece(a), Piece(b));
    }
    VisibleOutside(a + b);
    VisibleShorter(true, Cut(a + b, OPEN).after);
  }

  /** And inside a span a closing tag split over two tokens is missed: nothing is shown, and the
      filter goes on hiding although the text is outside again. */
  lemma SplitCloseHides(a: string, b: string)
    requires Cut(a, OPEN).Absent? && Cut(b, OPEN).Absent? && Cut(a, CLOSE).Absent? && Cut(b, CLOSE).Absent?
    requires Cut(a + b, CLOSE).Around?
    ensures Concat(FilteredAll(true, [a, b])) == ""
    ensures Filtered(true, a).0 && Filtered(Filtered(true, a).0, b).0
    ensures Visible(true, a + b) == Visible(false, Cut(a + b, CLOSE).after)
    ensures EndsInside(true, a + b) == EndsInside(false, Cut(a + b, CLOSE).after)
  {
    assert Filtered(true, a) == (true, []) && Filtered(true, b) == (true, []);
    assert [a, b][1..] == [b] && [b][1..] == [];
    assert FilteredAll(true, [b]) == [] + FilteredAll(true, []) == [];
    VisibleInside(a + b);
  }

  /** What such a tag is followed by is visible, and hidden. */
  lemma SplitCloseText(x: string, y: string)
    requires '<' !in x && '<' !in y
    ensures Visible(true, (x + "</th") + ("ink>" + y)) == y
    ensures Concat(FilteredAll(true, [x + "</th", "ink>" + y])) == ""
  {
    var a, b := x + "</th", "ink>" + y;
    NoTagIn(a, |x|);
    NoTagIn(b, |b|);
    assert a + b == x + (CLOSE + y);
    CloseAt(x, y);
    SplitCloseHides(a, b);
    NoTagIn(y, |y|);
    VisibleOutside(y);
  }

  /** A text with at most one bracket, and that too close to its end, holds no tag. */
  lemma NoTagIn(s: string, bracket: nat)
    requires bracket <= |s| && |s| < bracket + |OPEN| && forall i :: 0 <= i < |s| && s[i] == '<' ==> i == bracket
    ensures Cut(s, OPEN).Absent? && Cut(s, CLOSE).Absent?
  {
    if Cut(s, OPEN).Around? {
      TagHasBracket(s, OPEN);
    }
    if Cut(s, CLOSE).Around? {
      TagHasBracket(s, CLOSE);
    }
  }

  lemma TagHasBracket(s: string, tag: string)
    requires (tag == OPEN || tag == CLOSE) && Cut(s, tag).Around?
    ensures var i := |Cut(s, tag).before|; i + |tag| <= |s| && s[i] == '<'
  {
    CutIsLeftmost(s, tag);
    var cut := Cut(s, tag);
    hide Cut;
    assert s == cut.before + (tag + cut.after) by {
      Regroup(cut.before, tag, cut.after);
    }
    assert s[|cut.before|] == (tag + cut.after)[0] == tag[0];
  }

  lemma {:induction false} CloseAt(x: string, y: string)
    requires '<' !in x
    ensures Cut(x + (CLOSE + y), CLOSE) == Around(x, y)
    decreases |x|
  {
    if x == "" {
      assert x + (CLOSE + y) == CLOSE + y && (CLOSE + y)[|CLOSE|..] == y;
    } else {
      var s := x + (CLOSE + y);
      assert s[0] == x[0] && x[0] in x && s[1..] == x[1..] + (CLOSE + y);
      CloseAt(x[1..], y);
      TakeDrop(x, 1);
    }
  }
}
