/** What the panel shows of an answer, streamed and replayed from the response cache. */
module Answers {
  import opened Text
  import opened LineFraming
  import opened ThinkFilter
  import Tasks = StreamTasks

  /** The panel's text after a run that delivers the given tokens, with reasoning hidden. */
  function Panel(tokens: seq<string>): string {
    Concat(Texts(RunCalls(true, false, tokens)))
  }

  lemma PanelIs(tokens: seq<string>)
    ensures Panel(tokens) == Concat(FilteredAll(false, tokens))
  {
    var pieces := FilteredAll(false, tokens);
    TextsOfCalls(pieces);
    hide FilteredAll, Texts, Calls;
    ConcatAppend(pieces, [""]);
    assert Concat([""]) == "";
  }

  lemma OneToken(token: string)
    ensures FilteredAll(false, [token]) == Filtered(false, token).1
  {
    assert [token][1..] == [];
  }

  /** A response is replayed as one token. Known that one of the two, the stream or the replay, comes
      out right, they look the same exactly when both do: when the filter handles every token of the
      stream and the whole response as one token. */
  lemma ReplayLooksTheSame(tokens: seq<string>)
    requires Unsplit(tokens) && (AllHandled(false, tokens) || Handled(false, Concat(tokens)))
    ensures Panel([Concat(tokens)]) == Panel(tokens) <==>
            AllHandled(false, tokens) && Handled(false, Concat(tokens))
  {
    var whole := Concat(tokens);
    StreamVisible(false, tokens);
    OneToken(whole);
    TokenExact(false, whole);
    hide Panel, Concat, Filtered, FilteredAll, Handled, AllHandled, Visible;
    PanelIs(tokens);
    PanelIs([whole]);
  }

  /** If neither comes out right they may still look the same: a single token always does. */
  lemma OneTokenLooksTheSame(token: string)
    ensures Panel([Concat([token])]) == Panel([token])
  {
    assert [token][1..] == [] && token + "" == token;
  }

  /** In every reachable state: a call answered from the cache shows what the run behind the cached
      response has shown exactly when both come out right, if one of them does. */
  lemma HitLooksTheSame(decode: Decoder, events: seq<Tasks.Event>, first: nat, again: nat, key: string)
    requires var s := Tasks.Run(decode, Tasks.INITIAL, events);
             && again !in s.tasks && !s.client.streaming && key in s.client.store.lookup
             && Tasks.FinishedWith(decode, s, first, key, s.client.store.lookup[key])
             && Unsplit(s.tasks[first].delivered)
             && (AllHandled(false, s.tasks[first].delivered) || Handled(false, s.client.store.lookup[key]))
    ensures var s := Tasks.Run(decode, Tasks.INITIAL, events);
            var s' := Tasks.Step(decode, s, Tasks.Start(again, key, true));
            Panel(s'.tasks[again].delivered) == Panel(s.tasks[first].delivered)
            <==> AllHandled(false, s.tasks[first].delivered) && Handled(false, s.client.store.lookup[key])
  {
    var s := Tasks.Run(decode, Tasks.INITIAL, events);
    hide Tasks.Run, Panel, Unsplit, AllHandled, Handled, Concat;
    ReplayLooksTheSame(s.tasks[first].delivered);
  }
}
