/** The state of the streaming client that its coroutines share, and what each stretch of
    `ExecuteStreamTask` between two suspension points does to it. */
module StreamClient {
  import opened Text
  import opened LineFraming

  const MAX_CACHE_ENTRIES: nat := 64

  const STOPPED: string := "\n\n[Prompt generation stopped by the user.]"

  /** The response cache: a table, and its keys in the order of insertion. */
  datatype Store = Store(lookup: map<string, string>, order: seq<string>)

  datatype Client = Client(streaming: bool, cancelled: bool, residual: string, store: Store)

  /** A full cache drops its oldest insertion. */
  function Room(s: Store): Store {
    if |s.lookup| >= MAX_CACHE_ENTRIES && s.order != [] then Store(s.lookup - {s.order[0]}, s.order[1..]) else s
  }

  /** `UpdateCache`. */
  function Updated(s: Store, key: string, value: string): Store {
    Store(Room(s).lookup[key := value], Room(s).order + [key])
  }

  /** What a call to `ExecuteStreamTask` comes to before its first suspension. */
  datatype Begun = Refuse | Hit(response: string) | Stream

  function Admitted(c: Client, key: string): (Client, Begun) {
    if c.streaming then (c, Refuse)
    else
      var clean := c.(cancelled := false, residual := "");
      if key in c.store.lookup then (clean, Hit(c.store.lookup[key]))
      else (clean.(streaming := true), Stream)
  }

  /** A chunk is appended to the residual buffer and its complete lines are parsed. */
  function Fed(c: Client, chunk: string): Client {
    c.(residual := Residual(c.residual + chunk))
  }

  /** A run is worth caching if it delivered something and was not cancelled. */
  predicate Storable(c: Client, accumulated: string) {
    accumulated != "" && !c.cancelled
  }

  function Ended(c: Client, key: string, accumulated: string): Client {
    var kept := if Storable(c, accumulated) then Updated(c.store, key, accumulated) else c.store;
    c.(streaming := false, store := kept)
  }

  class OllamaClient {
    var isStreaming: bool
    var cancellationRequested: bool
    var residualLine: string
    var lookupTable: map<string, string>
    var accessOrder: seq<string>

    function View(): Client
      reads this
    {
      Client(isStreaming, cancellationRequested, residualLine, Store(lookupTable, accessOrder))
    }

    constructor ()
      ensures View() == Client(false, false, "", Store(map[], []))
    {
      isStreaming, cancellationRequested, residualLine := false, false, "";
      lookupTable, accessOrder := map[], [];
    }

    method TriggerActiveGenerationCancellation()
      modifies this
      ensures View() == old(View()).(cancelled := true)
    {
      cancellationRequested := true;
    }

    method CheckCache(key: string) returns (r: Option<string>)
      ensures r == if key in lookupTable then Some(lookupTable[key]) else None
    {
      r := None;
      if key in lookupTable {
        r := Some(lookupTable[key]);
      }
    }

    method UpdateCache(key: string, response: string)
      modifies this`lookupTable, this`accessOrder
      ensures View().store == Updated(old(View()).store, key, response)
    {
      if |lookupTable| >= MAX_CACHE_ENTRIES && accessOrder != [] {
        var oldest := accessOrder[0];
        lookupTable := lookupTable - {oldest};
        accessOrder := accessOrder[1..];
      }
      lookupTable := lookupTable[key := response];
      accessOrder := accessOrder + [key];
    }

    /** The guard, the resets and the cache lookup at the start of `ExecuteStreamTask`. */
    method Begin(key: string) returns (begun: Begun)
      modifies this
      ensures (View(), begun) == Admitted(old(View()), key)
    {
      if isStreaming {
        return Refuse;
      }
      cancellationRequested := false;
      residualLine := "";
      var cached := CheckCache(key);
      if cached.Some? {
        return Hit(cached.value);
      }
      isStreaming := true;
      return Stream;
    }

    /** One chunk of the body: append, parse, erase. */
    method Feed(decode: Decoder, callback: bool, chunk: string, accumulation: string)
      returns (delivered: seq<string>, accumulated: string)
      modifies this`residualLine
      ensures View() == Fed(old(View()), chunk)
      ensures delivered == if callback then Tokens(decode, old(residualLine) + chunk) else []
      ensures accumulated == accumulation + Concat(delivered)
    {
      residualLine := residualLine + chunk;
      delivered, residualLine, accumulated := ParseStreamAccumulator(decode, callback, residualLine, accumulation);
    }

    /** The end of a streamed run: cache what may be cached, and leave. */
    method End(key: string, accumulated: string)
      modifies this
      ensures View() == Ended(old(View()), key, accumulated)
    {
      if accumulated != "" && !cancellationRequested {
        UpdateCache(key, accumulated);
      }
      isStreaming := false;
    }
  }
}
