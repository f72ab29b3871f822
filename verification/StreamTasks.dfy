/** All interleavings of stream tasks and cancellations. Tasks share one worker thread and yield
    only where they suspend; a cancellation comes from another thread at any time. */
module StreamTasks {
  import opened Text
  import opened LineFraming
  import opened StreamClient

  /** Where a task stands: suspended or about to run in one of the active phases, or over. */
  datatype Phase =
    | Resolving | Connecting | Writing | ReadingHeader | LoopTop | AwaitingRead | Finishing
    | Refused | Answered | Unreachable | Finished(stored: bool)

  /** A task with the body received so far and everything it has passed to its callback.
      `stopped` says that it left its read loop because of a cancellation. */
  datatype Task = Task(key: string, callback: bool, phase: Phase, body: string, accumulated: string,
                       delivered: seq<string>, stopped: bool)

  /** A task that has finished and whose response was stored. */
  datatype Entry = Entry(id: nat, task: Task)

  /** `log` lists the stored responses, oldest first. */
  datatype System = System(client: Client, tasks: map<nat, Task>, log: seq<Entry>)

  datatype Event =
    | Start(id: nat, key: string, callback: bool)
    | Resolved(id: nat, ok: bool)
    | Connected(id: nat)
    | Written(id: nat)
    | HeaderRead(id: nat)
    | Turn(id: nat, complete: bool)
    | Read(id: nat, chunk: string, failed: bool)
    | Finish(id: nat)
    | Cancel

  const INITIAL: System := System(Client(false, false, "", Store(map[], [])), map[], [])

  predicate Active(t: Task) {
    t.phase in {Resolving, Connecting, Writing, ReadingHeader, LoopTop, AwaitingRead, Finishing}
  }

  predicate InPhase(s: System, id: nat, phase: Phase) {
    id in s.tasks && s.tasks[id].phase == phase
  }

  predicate Enabled(s: System, e: Event) {
    match e
    case Start(id, _, _) => id !in s.tasks
    case Resolved(id, _) => InPhase(s, id, Resolving)
    case Connected(id) => InPhase(s, id, Connecting)
    case Written(id) => InPhase(s, id, Writing)
    case HeaderRead(id) => InPhase(s, id, ReadingHeader)
    case Turn(id, _) => InPhase(s, id, LoopTop)
    case Read(id, _, _) => InPhase(s, id, AwaitingRead)
    case Finish(id) => InPhase(s, id, Finishing)
    case Cancel => true
  }

  function Move(s: System, id: nat, phase: Phase): System
    requires id in s.tasks
  {
    s.(tasks := s.tasks[id := s.tasks[id].(phase := phase)])
  }

  /** The call: refused while another task streams, answered from the cache, or started. */
  function Started(s: System, id: nat, key: string, callback: bool): System {
    var (client, begun) := Admitted(s.client, key);
    var t := match begun
      case Refuse => Task(key, callback, Refused, "", "", [], false)
      case Hit(response) => Task(key, callback, Answered, "", "", if callback then [response] else [], false)
      case Stream => Task(key, callback, Resolving, "", "", [], false);
    s.(client := client, tasks := s.tasks[id := t])
  }

  /** A task that leaves its read loop on a cancellation, with a notice to its callback. */
  function Halted(t: Task): Task {
    t.(phase := Finishing, delivered := t.delivered + (if t.callback then [STOPPED] else []), stopped := true)
  }

  /** The top of the read loop: the response may be complete, or the run cancelled. */
  function Turned(s: System, id: nat, complete: bool): System
    requires id in s.tasks
  {
    var t := s.tasks[id];
    if complete then Move(s, id, Finishing)
    else if s.client.cancelled then
      s.(tasks := s.tasks[id := Halted(t)])
    else Move(s, id, AwaitingRead)
  }

  /** A read has returned a chunk, possibly none, and possibly an error. */
  function ReadIn(decode: Decoder, s: System, id: nat, chunk: string, failed: bool): System
    requires id in s.tasks
  {
    var t := s.tasks[id];
    var tokens := if t.callback then Tokens(decode, s.client.residual + chunk) else [];
    var t' := t.(phase := if failed then Finishing else LoopTop, body := t.body + chunk,
                 accumulated := t.accumulated + Concat(tokens), delivered := t.delivered + tokens);
    s.(client := Fed(s.client, chunk), tasks := s.tasks[id := t'])
  }

  function FinishedIn(s: System, id: nat): System
    requires id in s.tasks
  {
    var t := s.tasks[id];
    var stored := Storable(s.client, t.accumulated);
    var t' := t.(phase := Finished(stored));
    System(Ended(s.client, t.key, t.accumulated), s.tasks[id := t'],
           if stored then s.log + [Entry(id, t')] else s.log)
  }

  function Step(decode: Decoder, s: System, e: Event): System
    requires Enabled(s, e)
  {
    match e
    case Start(id, key, callback) => Started(s, id, key, callback)
    case Resolved(id, ok) =>
      if ok then Move(s, id, Connecting)
      else Move(s.(client := s.client.(streaming := false)), id, Unreachable)
    case Connected(id) => Move(s, id, Writing)
    case Written(id) => Move(s, id, ReadingHeader)
    case HeaderRead(id) => Move(s, id, LoopTop)
    case Turn(id, complete) => Turned(s, id, complete)
    case Read(id, chunk, failed) => ReadIn(decode, s, id, chunk, failed)
    case Finish(id) => FinishedIn(s, id)
    case Cancel => s.(client := s.client.(cancelled := true))
  }

  /** A run of events; one that is not enabled does not happen. */
  function Run(decode: Decoder, s: System, events: seq<Event>): System
    decreases |events|
  {
    if events == [] then s
    else Run(decode, if Enabled(s, events[0]) then Step(decode, s, events[0]) else s, events[1..])
  }

  // ----- the invariant -----

  /** The tokens of a task's body, as far as its callback wants them. */
  function Tokenized(decode: Decoder, t: Task): seq<string> {
    if t.callback then Tokens(decode, t.body) else []
  }

  /** What a task has received, accumulated and delivered fits together; a stopped task delivers
      its notice last and is not stored. */
  predicate Consistent(decode: Decoder, t: Task) {
    && t.accumulated == Concat(Tokenized(decode, t))
    && (t.phase != Answered ==>
          t.delivered == Tokenized(decode, t) + if t.stopped && t.callback then [STOPPED] else [])
    && (t.stopped ==> t.phase == Finishing || t.phase == Finished(false))
  }

  /** The last `MAX_CACHE_ENTRIES` stored responses. */
  function Recent(log: seq<Entry>): seq<Entry> {
    if |log| > MAX_CACHE_ENTRIES then log[|log| - MAX_CACHE_ENTRIES..] else log
  }

  ghost predicate Exclusive(s: System) {
    && (forall i, j :: i in s.tasks && j in s.tasks && Active(s.tasks[i]) && Active(s.tasks[j]) ==> i == j)
    && (s.client.streaming <==> exists i :: i in s.tasks && Active(s.tasks[i]))
  }

  /** The active task's key is not cached, and its body and the residual buffer belong together. */
  ghost predicate ActiveOk(s: System) {
    forall i :: i in s.tasks && Active(s.tasks[i]) ==>
      && s.tasks[i].key !in s.client.store.lookup && s.client.residual == Residual(s.tasks[i].body)
      && (s.tasks[i].stopped ==> s.client.cancelled)
  }

  ghost predicate TasksOk(decode: Decoder, s: System) {
    forall i :: i in s.tasks ==> Consistent(decode, s.tasks[i])
  }

  /** Table and order list hold the same keys, each once. */
  ghost predicate Matched(c: Store) {
    Distinct(c.order) && forall k :: k in c.lookup <==> k in c.order
  }

  /** The cache holds exactly the given responses, in their order. */
  ghost predicate Holds(c: Store, entries: seq<Entry>) {
    && Matched(c) && |c.order| == |entries|
    && forall n :: 0 <= n < |entries| ==> c.order[n] == entries[n].task.key && Caches(c, entries[n].task)
  }

  predicate Caches(c: Store, t: Task) {
    t.key in c.lookup && c.lookup[t.key] == t.accumulated
  }

  ghost predicate StoreOk(s: System) {
    && (forall x :: x in s.log ==> InPhase(s, x.id, Finished(true)) && s.tasks[x.id] == x.task)
    && Holds(s.client.store, Recent(s.log))
  }

  ghost predicate Inv(decode: Decoder, s: System) {
    Exclusive(s) && ActiveOk(s) && TasksOk(decode, s) && StoreOk(s)
  }

  // ----- every step keeps it -----

  /** Changing one task that stays or becomes active keeps the rest. */
  lemma MoveInv(decode: Decoder, s: System, id: nat, t: Task)
    requires Inv(decode, s) && id in s.tasks && Active(s.tasks[id]) && Active(t)
    requires t.key == s.tasks[id].key && t.body == s.tasks[id].body && Consistent(decode, t)
    requires t.stopped ==> s.client.cancelled
    ensures Inv(decode, s.(tasks := s.tasks[id := t]))
  {
    hide Consistent;
    var s' := s.(tasks := s.tasks[id := t]);
    StoreFrame(s, s');
    ActiveStays(s, s', id);
    hide Exclusive, StoreOk;
  }

  /** Exclusion only looks at which task is active. */
  lemma ActiveStays(s: System, s': System, id: nat)
    requires Exclusive(s) && s'.client.streaming == s.client.streaming && id in s.tasks && Active(s.tasks[id])
    requires s'.tasks.Keys == s.tasks.Keys && Active(s'.tasks[id])
    requires forall i :: i in s.tasks && i != id ==> s'.tasks[i] == s.tasks[i]
    ensures Exclusive(s')
  {
    hide Active;
  }

  /** The store's invariant only looks at the client's store, the log and the finished tasks. */
  lemma StoreFrame(s: System, s': System)
    requires StoreOk(s) && s'.client.store == s.client.store && s'.log == s.log
    requires forall i :: InPhase(s, i, Finished(true)) ==> i in s'.tasks && s'.tasks[i] == s.tasks[i]
    ensures StoreOk(s')
  {
  }

  /** A started call is exclusive: it only becomes active when no task is. */
  lemma StartExclusive(s: System, id: nat, key: string, callback: bool)
    requires Exclusive(s) && id !in s.tasks
    ensures Exclusive(Started(s, id, key, callback))
  {
    var s' := Started(s, id, key, callback);
    assert forall i :: i in s'.tasks && i != id ==> i in s.tasks && s'.tasks[i] == s.tasks[i];
    assert id in s'.tasks && (Active(s'.tasks[id]) <==> !s.client.streaming && s'.client.streaming);
    assert s.client.streaming ==> s'.client.streaming;
    hide Started, Admitted, Active;
    if s.client.streaming {
      var i :| i in s.tasks && Active(s.tasks[i]);
      assert i in s'.tasks && Active(s'.tasks[i]);
    }
  }

  lemma StartActive(s: System, id: nat, key: string, callback: bool)
    requires Exclusive(s) && ActiveOk(s) && id !in s.tasks
    ensures ActiveOk(Started(s, id, key, callback))
  {
    var s' := Started(s, id, key, callback);
    assert Residual("") == "";
    assert s'.client.store == s.client.store;
    forall i | i in s'.tasks && Active(s'.tasks[i])
      ensures && s'.tasks[i].key !in s'.client.store.lookup && s'.client.residual == Residual(s'.tasks[i].body)
              && (s'.tasks[i].stopped ==> s'.client.cancelled)
    {
      if i != id {
        assert i in s.tasks && s.tasks[i] == s'.tasks[i];
        assert s.client.streaming;
      }
    }
  }

  lemma StartInv(decode: Decoder, s: System, id: nat, key: string, callback: bool)
    requires Inv(decode, s) && id !in s.tasks
    ensures Inv(decode, Started(s, id, key, callback))
  {
    var s' := Started(s, id, key, callback);
    StartExclusive(s, id, key, callback);
    StartActive(s, id, key, callback);
    NewConsistent(decode, s'.tasks[id]);
    StoreFrame(s, s');
    hide Consistent, Exclusive, ActiveOk, StoreOk;
    assert forall i :: i in s'.tasks && i != id ==> s'.tasks[i] == s.tasks[i];
  }

  lemma NewConsistent(decode: Decoder, t: Task)
    requires t.body == "" && t.accumulated == "" && !t.stopped && (t.phase == Answered || t.delivered == [])
    ensures Consistent(decode, t)
  {
    NoTokens(decode);
    hide Tokens, Concat;
  }

  lemma NoTokens(decode: Decoder)
    ensures Tokens(decode, "") == [] && Residual("") == "" && Concat([]) == ""
  {
  }

  /** When the active task leaves, none is active. */
  lemma Left(decode: Decoder, s: System, s': System, id: nat)
    requires Exclusive(s) && ActiveOk(s) && TasksOk(decode, s) && id in s.tasks && Active(s.tasks[id])
    requires id in s'.tasks && s'.tasks == s.tasks[id := s'.tasks[id]] && !s'.client.streaming
    requires !Active(s'.tasks[id]) && Consistent(decode, s'.tasks[id])
    ensures Exclusive(s') && ActiveOk(s') && TasksOk(decode, s')
  {
    hide Consistent, Active;
    assert forall i :: i in s'.tasks && i != id ==> i in s.tasks && s'.tasks[i] == s.tasks[i];
    assert forall i :: i in s'.tasks ==> !Active(s'.tasks[i]);
  }

  lemma LeaveInv(decode: Decoder, s: System, id: nat, phase: Phase)
    requires Inv(decode, s) && id in s.tasks && Active(s.tasks[id])
    requires if s.tasks[id].phase == Finishing then phase == Finished(false) else phase == Unreachable
    ensures Inv(decode, Move(s.(client := s.client.(streaming := false)), id, phase))
  {
    var s' := Move(s.(client := s.client.(streaming := false)), id, phase);
    StoreFrame(s, s');
    assert Consistent(decode, s'.tasks[id]);
    hide Consistent, StoreOk, Exclusive, ActiveOk;
    Left(decode, s, s', id);
  }

  /** A chunk: body and residual grow together, and the tokens delivered are those of the body. */
  lemma ReadConsistent(decode: Decoder, t: Task, residual: string, chunk: string)
    requires Consistent(decode, t) && residual == Residual(t.body)
    ensures var tokens := if t.callback then Tokens(decode, residual + chunk) else [];
            Tokenized(decode, t.(body := t.body + chunk)) == Tokenized(decode, t) + tokens
            && t.accumulated + Concat(tokens) == Concat(Tokenized(decode, t) + tokens)
    ensures Residual(residual + chunk) == Residual(t.body + chunk)
  {
    OneChunk(decode, t.body, chunk);
    NoTokens(decode);
    hide Tokens, Residual, Concat;
    ConcatAppend(Tokens(decode, t.body), Tokens(decode, residual + chunk));
    assert t.accumulated + "" == t.accumulated;
    assert Tokenized(decode, t) + [] == Tokenized(decode, t);
  }

  lemma Grown(decode: Decoder, t: Task, t': Task, tokens: seq<string>)
    requires Consistent(decode, t) && t.phase == AwaitingRead && !t'.stopped && t'.phase != Answered
    requires Tokenized(decode, t') == Tokenized(decode, t) + tokens
    requires Concat(Tokenized(decode, t')) == t.accumulated + Concat(tokens)
    requires t'.accumulated == t.accumulated + Concat(tokens) && t'.delivered == t.delivered + tokens
    ensures Consistent(decode, t')
  {
    hide Tokenized, Concat;
    assert Tokenized(decode, t) + [] == Tokenized(decode, t);
  }

  lemma ReadTask(decode: Decoder, s: System, id: nat, chunk: string, failed: bool)
    requires InPhase(s, id, AwaitingRead) && Consistent(decode, s.tasks[id])
    requires s.client.residual == Residual(s.tasks[id].body)
    ensures var s' := ReadIn(decode, s, id, chunk, failed);
            Consistent(decode, s'.tasks[id]) && s'.client.residual == Residual(s'.tasks[id].body)
  {
    var s' := ReadIn(decode, s, id, chunk, failed);
    var t, t' := s.tasks[id], s'.tasks[id];
    hide Consistent, Tokens, Residual, Concat;
    ReadConsistent(decode, t, s.client.residual, chunk);
    var tokens := if t.callback then Tokens(decode, s.client.residual + chunk) else [];
    assert !t.stopped by {
      NotStopped(decode, t);
    }
    assert Tokenized(decode, t') == Tokenized(decode, t.(body := t.body + chunk));
    Grown(decode, t, t', tokens);
  }

  lemma NotStopped(decode: Decoder, t: Task)
    requires Consistent(decode, t) && t.phase != Finishing && t.phase != Finished(false)
    ensures !t.stopped
  {
  }

  lemma ReadInv(decode: Decoder, s: System, id: nat, chunk: string, failed: bool)
    requires Inv(decode, s) && InPhase(s, id, AwaitingRead)
    ensures Inv(decode, ReadIn(decode, s, id, chunk, failed))
  {
    var s' := ReadIn(decode, s, id, chunk, failed);
    ReadTask(decode, s, id, chunk, failed);
    ReadFrame(decode, s, id, chunk, failed);
    hide ReadIn, Consistent, Residual;
    StoreFrame(s, s');
    ActiveStays(s, s', id);
    hide Exclusive, StoreOk;
    ReadOthers(decode, s, s', id);
  }

  /** What a read leaves alone. */
  lemma ReadFrame(decode: Decoder, s: System, id: nat, chunk: string, failed: bool)
    requires InPhase(s, id, AwaitingRead)
    ensures var s' := ReadIn(decode, s, id, chunk, failed);
            && s'.tasks == s.tasks[id := s'.tasks[id]] && s'.log == s.log && s'.client.store == s.client.store
            && s'.client.streaming == s.client.streaming && s'.client.cancelled == s.client.cancelled
            && Active(s'.tasks[id]) && s'.tasks[id].key == s.tasks[id].key
            && s'.tasks[id].stopped == s.tasks[id].stopped
  {
    hide Tokens, Residual, Concat;
  }

  lemma ReadOthers(decode: Decoder, s: System, s': System, id: nat)
    requires Exclusive(s) && ActiveOk(s) && TasksOk(decode, s) && id in s.tasks && Active(s.tasks[id])
    requires id in s'.tasks && s'.tasks == s.tasks[id := s'.tasks[id]] && s'.client.store == s.client.store
    requires s'.client.cancelled == s.client.cancelled && s'.client.residual == Residual(s'.tasks[id].body)
    requires s'.tasks[id].key == s.tasks[id].key && s'.tasks[id].stopped == s.tasks[id].stopped
    requires Consistent(decode, s'.tasks[id])
    ensures ActiveOk(s') && TasksOk(decode, s')
  {
    hide Consistent, Residual, Active;
  }

  lemma RecentPush(log: seq<Entry>, x: Entry)
    ensures Recent(log + [x]) ==
            (if |Recent(log)| >= MAX_CACHE_ENTRIES then Recent(log)[1..] else Recent(log)) + [x]
  {
  }

  lemma RoomMatched(c: Store)
    requires Matched(c)
    ensures Matched(Room(c)) && |c.lookup| == |c.order|
  {
    DistinctSize(c.order, c.lookup.Keys);
    assert |c.lookup| == |c.lookup.Keys|;
    if |c.order| >= MAX_CACHE_ENTRIES {
      assert Room(c) == Store(c.lookup - {c.order[0]}, c.order[1..]);
      hide Room;
      DropOldest(c);
    }
  }

  lemma DropOldest(c: Store)
    requires Matched(c) && c.order != []
    ensures Matched(Store(c.lookup - {c.order[0]}, c.order[1..]))
  {
    var oldest, rest := c.order[0], c.order[1..];
    assert Distinct(rest) && oldest !in rest;
    assert forall k :: k in c.order <==> k == oldest || k in rest;
    hide Distinct;
  }

  /** The key is new, so the table and the order list grow and shrink together. */
  lemma UpdatedFacts(c: Store, key: string, value: string)
    requires Matched(c) && key !in c.lookup
    ensures var u := Updated(c, key, value);
            && u.order == Room(c).order + [key] && Matched(u) && key in u.lookup && u.lookup[key] == value
            && (forall k :: k in Room(c).lookup ==> k in u.lookup && u.lookup[k] == Room(c).lookup[k])
  {
    RoomMatched(c);
    var room := Room(c);
    assert Updated(c, key, value) == Store(room.lookup[key := value], room.order + [key]);
    assert key !in room.order;
    hide Room;
    DistinctAppend(room.order, key);
    assert forall k :: k in room.order + [key] <==> k in room.order || k == key;
  }

  /** Storing under a new key: the cache then holds the new response last, and drops its oldest
      one when it was full. */
  lemma UpdatedHolds(c: Store, entries: seq<Entry>, x: Entry)
    requires Holds(c, entries) && x.task.key !in c.lookup
    ensures Holds(Updated(c, x.task.key, x.task.accumulated),
                  (if |entries| >= MAX_CACHE_ENTRIES then entries[1..] else entries) + [x])
  {
    var u := Updated(c, x.task.key, x.task.accumulated);
    var kept := if |entries| >= MAX_CACHE_ENTRIES then entries[1..] else entries;
    UpdatedFacts(c, x.task.key, x.task.accumulated);
    RoomHolds(c, entries);
    hide Updated, Room;
    GrownHolds(Room(c), u, kept, x);
  }

  lemma GrownHolds(c: Store, u: Store, kept: seq<Entry>, x: Entry)
    requires Holds(c, kept) && Matched(u) && u.order == c.order + [x.task.key] && Caches(u, x.task)
    requires forall k :: k in c.lookup ==> k in u.lookup && u.lookup[k] == c.lookup[k]
    ensures Holds(u, kept + [x])
  {
    hide Matched;
    forall n | 0 <= n < |kept| + 1
      ensures u.order[n] == (kept + [x])[n].task.key && Caches(u, (kept + [x])[n].task)
    {
      if n < |kept| {
        assert c.order[n] == kept[n].task.key && Caches(c, kept[n].task);
      }
    }
  }

  lemma RoomHolds(c: Store, entries: seq<Entry>)
    requires Holds(c, entries)
    ensures Holds(Room(c), if |entries| >= MAX_CACHE_ENTRIES then entries[1..] else entries)
  {
    RoomMatched(c);
    hide Matched;
    if |entries| >= MAX_CACHE_ENTRIES {
      var kept := entries[1..];
      forall n | 0 <= n < |kept|
        ensures Room(c).order[n] == kept[n].task.key && Caches(Room(c), kept[n].task)
      {
        assert kept[n] == entries[n + 1] && Room(c).order[n] == c.order[n + 1];
        assert Room(c).order[n] in Room(c).order;
        InMatched(Room(c), kept[n].task.key);
      }
    }
  }

  lemma InMatched(c: Store, key: string)
    requires Matched(c) && key in c.order
    ensures key in c.lookup
  {
  }

  /** The active task finishes and stores its response. */
  lemma FinishStores(s: System, id: nat)
    requires StoreOk(s) && InPhase(s, id, Finishing) && Storable(s.client, s.tasks[id].accumulated)
    requires s.tasks[id].key !in s.client.store.lookup
    ensures StoreOk(FinishedIn(s, id))
  {
    var t := s.tasks[id];
    var x := Entry(id, t.(phase := Finished(true)));
    hide Holds, Recent, Updated;
    FinishedAs(s, id, x);
    PushHolds(s.client.store, s.log, x);
    LogKept(s, x, FinishedIn(s, id));
  }

  /** What finishing does when it stores. */
  lemma FinishedAs(s: System, id: nat, x: Entry)
    requires id in s.tasks && Storable(s.client, s.tasks[id].accumulated)
    requires x == Entry(id, s.tasks[id].(phase := Finished(true)))
    ensures var s' := FinishedIn(s, id);
            && s'.log == s.log + [x] && s'.tasks == s.tasks[id := x.task]
            && s'.client.store == Updated(s.client.store, x.task.key, x.task.accumulated)
            && !s'.client.streaming
  {
  }

  lemma PushHolds(c: Store, log: seq<Entry>, x: Entry)
    requires Holds(c, Recent(log)) && x.task.key !in c.lookup
    ensures Holds(Updated(c, x.task.key, x.task.accumulated), Recent(log + [x]))
  {
    hide Holds, Recent, Updated;
    RecentPush(log, x);
    UpdatedHolds(c, Recent(log), x);
  }

  lemma LogKept(s: System, x: Entry, s': System)
    requires forall y :: y in s.log ==> InPhase(s, y.id, Finished(true)) && s.tasks[y.id] == y.task
    requires InPhase(s, x.id, Finishing) && x.task.phase == Finished(true)
    requires s'.log == s.log + [x] && s'.tasks == s.tasks[x.id := x.task]
    ensures forall y :: y in s'.log ==> InPhase(s', y.id, Finished(true)) && s'.tasks[y.id] == y.task
  {
    assert forall y :: y in s.log ==> y.id != x.id;
    assert forall y :: y in s'.log <==> y in s.log || y == x;
  }

  lemma FinishInv(decode: Decoder, s: System, id: nat)
    requires Inv(decode, s) && InPhase(s, id, Finishing)
    ensures Inv(decode, FinishedIn(s, id))
  {
    if Storable(s.client, s.tasks[id].accumulated) {
      var t := s.tasks[id];
      var x := Entry(id, t.(phase := Finished(true)));
      FinishedAs(s, id, x);
      FinishStores(s, id);
      assert Consistent(decode, x.task);
      hide StoreOk, FinishedIn, Exclusive, ActiveOk, TasksOk, Consistent;
      Left(decode, s, FinishedIn(s, id), id);
    } else {
      LeaveInv(decode, s, id, Finished(false));
      assert FinishedIn(s, id) == Move(s.(client := s.client.(streaming := false)), id, Finished(false));
    }
  }

  /** Every enabled step keeps the invariant. */
  lemma StepInv(decode: Decoder, s: System, e: Event)
    requires Inv(decode, s) && Enabled(s, e)
    ensures Inv(decode, Step(decode, s, e))
  {
    hide Inv, Consistent;
    match e
    case Start(id, key, callback) => StartInv(decode, s, id, key, callback);
    case Resolved(id, ok) =>
      if ok {
        PhaseInv(decode, s, id, Connecting);
      } else {
        LeaveInv(decode, s, id, Unreachable);
      }
    case Connected(id) => PhaseInv(decode, s, id, Writing);
    case Written(id) => PhaseInv(decode, s, id, ReadingHeader);
    case HeaderRead(id) => PhaseInv(decode, s, id, LoopTop);
    case Turn(id, complete) => TurnInv(decode, s, id, complete);
    case Read(id, chunk, failed) => ReadInv(decode, s, id, chunk, failed);
    case Finish(id) => FinishInv(decode, s, id);
    case Cancel => CancelInv(decode, s);
  }

  lemma PhaseInv(decode: Decoder, s: System, id: nat, phase: Phase)
    requires Inv(decode, s) && id in s.tasks && Active(s.tasks[id]) && s.tasks[id].phase != Finishing
    requires Active(s.tasks[id].(phase := phase))
    ensures Inv(decode, Move(s, id, phase))
  {
    MoveInv(decode, s, id, s.tasks[id].(phase := phase));
  }

  lemma HaltedConsistent(decode: Decoder, t: Task)
    requires Consistent(decode, t) && t.phase == LoopTop
    ensures Consistent(decode, Halted(t))
  {
    hide Tokens, Concat;
    assert Tokenized(decode, t) + [] == Tokenized(decode, t);
  }

  lemma TurnInv(decode: Decoder, s: System, id: nat, complete: bool)
    requires Inv(decode, s) && InPhase(s, id, LoopTop)
    ensures Inv(decode, Turned(s, id, complete))
  {
    var t := s.tasks[id];
    PhaseInv(decode, s, id, Finishing);
    PhaseInv(decode, s, id, AwaitingRead);
    if s.client.cancelled {
      HaltedConsistent(decode, t);
      MoveInv(decode, s, id, Halted(t));
    }
  }

  lemma CancelInv(decode: Decoder, s: System)
    requires Inv(decode, s)
    ensures Inv(decode, s.(client := s.client.(cancelled := true)))
  {
    StoreFrame(s, s.(client := s.client.(cancelled := true)));
  }

  lemma InitialInv(decode: Decoder)
    ensures Inv(decode, INITIAL)
  {
  }

  /** The invariant holds in every reachable state, whatever the interleaving. */
  lemma {:induction false} RunInv(decode: Decoder, s: System, events: seq<Event>)
    requires Inv(decode, s)
    ensures Inv(decode, Run(decode, s, events))
    decreases |events|
  {
    hide Inv, Step, Enabled;
    if events != [] {
      var e := events[0];
      if Enabled(s, e) {
        StepInv(decode, s, e);
        RunInv(decode, Step(decode, s, e), events[1..]);
      } else {
        RunInv(decode, s, events[1..]);
      }
    }
  }

  // ----- what holds in every reachable state -----

  lemma Reachable(decode: Decoder, events: seq<Event>)
    ensures Inv(decode, Run(decode, INITIAL, events))
  {
    InitialInv(decode);
    RunInv(decode, INITIAL, events);
  }

  /** However starts, reads, finishes and cancellations interleave, at most one task is past the
      streaming guard, and the flag says whether there is one. */
  lemma AtMostOneStreams(decode: Decoder, events: seq<Event>)
    ensures var s := Run(decode, INITIAL, events);
            && (forall i, j :: i in s.tasks && j in s.tasks && Active(s.tasks[i]) && Active(s.tasks[j]) ==> i == j)
            && (s.client.streaming <==> exists i :: i in s.tasks && Active(s.tasks[i]))
  {
    Reachable(decode, events);
    hide Run, ActiveOk, TasksOk, StoreOk;
  }

  function Keys(entries: seq<Entry>): seq<string> {
    if entries == [] then [] else [entries[0].task.key] + Keys(entries[1..])
  }

  lemma {:induction false} KeysAt(entries: seq<Entry>, order: seq<string>)
    requires |order| == |entries| && forall n :: 0 <= n < |entries| ==> order[n] == entries[n].task.key
    ensures order == Keys(entries)
    decreases |entries|
  {
    if entries != [] {
      KeysAt(entries[1..], order[1..]);
    }
  }

  /** The order list is free of duplicates, has exactly the table's keys, and names the last 64
      stored responses, oldest first: each insertion into a full cache has evicted the oldest. */
  lemma CacheIsRecent(decode: Decoder, events: seq<Event>)
    ensures var s := Run(decode, INITIAL, events);
            var store := s.client.store;
            && Distinct(store.order) && (forall k :: k in store.lookup <==> k in store.order)
            && |store.lookup| <= 64 && store.order == Keys(Recent(s.log))
  {
    Reachable(decode, events);
    var s := Run(decode, INITIAL, events);
    hide Run, ActiveOk, TasksOk, Exclusive;
    DistinctSize(s.client.store.order, s.client.store.lookup.Keys);
    assert |s.client.store.lookup| == |s.client.store.lookup.Keys|;
    KeysAt(Recent(s.log), s.client.store.order);
  }

  /** A cached response is what some finished, never stopped run with that key has delivered:
      all the tokens of the body it received, in order, and nothing else. */
  ghost predicate Delivered(decode: Decoder, s: System, key: string, response: string) {
    exists id :: FinishedWith(decode, s, id, key, response)
  }

  predicate FinishedWith(decode: Decoder, s: System, id: nat, key: string, response: string) {
    && InPhase(s, id, Finished(true)) && s.tasks[id].key == key && !s.tasks[id].stopped
    && s.tasks[id].delivered == Tokenized(decode, s.tasks[id]) && response == Concat(s.tasks[id].delivered)
  }

  lemma Held(c: Store, entries: seq<Entry>, key: string) returns (x: Entry)
    requires Holds(c, entries) && key in c.lookup
    ensures x in entries && x.task.key == key && c.lookup[key] == x.task.accumulated
  {
    var n :| 0 <= n < |c.order| && c.order[n] == key;
    x := entries[n];
    assert Caches(c, x.task);
  }

  lemma StoredDelivered(decode: Decoder, s: System, key: string)
    requires TasksOk(decode, s) && StoreOk(s) && key in s.client.store.lookup
    ensures Delivered(decode, s, key, s.client.store.lookup[key])
  {
    hide Holds, Tokenized, Concat;
    var x := Held(s.client.store, Recent(s.log), key);
    assert x in s.log;
    hide Recent;
    assert Consistent(decode, s.tasks[x.id]);
    assert Tokenized(decode, x.task) + [] == Tokenized(decode, x.task);
    assert FinishedWith(decode, s, x.id, key, x.task.accumulated);
  }

  lemma CachedIsDelivered(decode: Decoder, events: seq<Event>, key: string)
    requires key in Run(decode, INITIAL, events).client.store.lookup
    ensures var s := Run(decode, INITIAL, events);
            Delivered(decode, s, key, s.client.store.lookup[key])
  {
    Reachable(decode, events);
    hide Run, StoreOk, TasksOk;
    StoredDelivered(decode, Run(decode, INITIAL, events), key);
  }

  /** A call answered from the cache passes on, in one piece, what an earlier run delivered. */
  lemma HitReplays(decode: Decoder, events: seq<Event>, id: nat, key: string)
    requires var s := Run(decode, INITIAL, events);
             id !in s.tasks && !s.client.streaming && key in s.client.store.lookup
    ensures var s := Run(decode, INITIAL, events);
            var s' := Step(decode, s, Start(id, key, true));
            && InPhase(s', id, Answered) && |s'.tasks[id].delivered| == 1
            && Delivered(decode, s, key, s'.tasks[id].delivered[0])
            && s'.client == s.client.(cancelled := false, residual := "")
  {
    CachedIsDelivered(decode, events, key);
    hide Run, Delivered;
  }

  /** A call made while a task streams is refused, and nothing else changes. */
  lemma RefusedStart(decode: Decoder, events: seq<Event>, id: nat, key: string, callback: bool)
    requires var s := Run(decode, INITIAL, events);
             id !in s.tasks && exists i :: i in s.tasks && Active(s.tasks[i])
    ensures var s := Run(decode, INITIAL, events);
            var s' := Step(decode, s, Start(id, key, callback));
            && InPhase(s', id, Refused) && s'.tasks[id].delivered == []
            && s'.client == s.client && s'.log == s.log
            && (forall i :: i in s.tasks ==> i in s'.tasks && s'.tasks[i] == s.tasks[i])
  {
    AtMostOneStreams(decode, events);
    hide Run, Active;
  }

  // ----- a cancellation cannot be lost -----

  /** Over without having stored anything, or running and cancelled. */
  predicate Doomed(s: System, id: nat) {
    id in s.tasks && s.tasks[id].phase != Finished(true) && (Active(s.tasks[id]) ==> s.client.cancelled)
  }

  lemma StepDoomed(decode: Decoder, s: System, e: Event, id: nat)
    requires Inv(decode, s) && Enabled(s, e) && Doomed(s, id)
    ensures Doomed(Step(decode, s, e), id)
  {
    hide Doomed, Enabled, Step, ActiveOk, TasksOk, StoreOk;
    assert id in s.tasks && (Active(s.tasks[id]) ==> s.client.streaming) by {
      DoomedThere(s, id);
    }
    hide Inv, Exclusive;
    FlagsDoomed(decode, s, e, id);
  }

  lemma DoomedThere(s: System, id: nat)
    requires Doomed(s, id)
    ensures id in s.tasks
  {
  }

  lemma FlagsDoomed(decode: Decoder, s: System, e: Event, id: nat)
    requires Enabled(s, e) && Doomed(s, id) && (Active(s.tasks[id]) ==> s.client.streaming)
    ensures Doomed(Step(decode, s, e), id)
  {
    hide Residual, Tokens, Concat, Updated;
  }

  /** Once a running task is cancelled, it never stores its response, whatever else is started
      or happens: only a start resets the flag, and it is refused until then. */
  lemma {:induction false} CancelSticks(decode: Decoder, s: System, events: seq<Event>, id: nat)
    requires Inv(decode, s) && Doomed(s, id)
    ensures !InPhase(Run(decode, s, events), id, Finished(true))
    ensures Doomed(Run(decode, s, events), id)
    decreases |events|
  {
    if events != [] {
      var e := events[0];
      hide Inv, Step, Enabled, Doomed;
      if Enabled(s, e) {
        StepInv(decode, s, e);
        StepDoomed(decode, s, e, id);
        CancelSticks(decode, Step(decode, s, e), events[1..], id);
      } else {
        CancelSticks(decode, s, events[1..], id);
      }
    }
    assert Doomed(Run(decode, s, events), id);
    NotStored(Run(decode, s, events), id);
  }

  lemma NotStored(s: System, id: nat)
    requires Doomed(s, id)
    ensures !InPhase(s, id, Finished(true))
  {
  }

  /** The same from the start: a task that runs when a cancellation arrives is never cached. */
  lemma CancelledNeverCached(decode: Decoder, before: seq<Event>, after: seq<Event>, id: nat)
    requires var s := Run(decode, INITIAL, before);
             id in s.tasks && s.tasks[id].phase != Finished(true)
    ensures var s := Run(decode, Step(decode, Run(decode, INITIAL, before), Cancel), after);
            && !InPhase(s, id, Finished(true)) && forall x :: x in s.log ==> x.id != id
  {
    hide Run, Inv;
    var s := Run(decode, INITIAL, before);
    var s' := Step(decode, s, Cancel);
    Reachable(decode, before);
    CancelInv(decode, s);
    DoomedNeverLogged(decode, s', after, id);
  }

  lemma DoomedNeverLogged(decode: Decoder, s': System, after: seq<Event>, id: nat)
    requires Inv(decode, s') && Doomed(s', id)
    ensures var s := Run(decode, s', after);
            && !InPhase(s, id, Finished(true)) && forall x :: x in s.log ==> x.id != id
  {
    hide Run, Inv, Doomed;
    CancelSticks(decode, s', after, id);
    RunInv(decode, s', after);
    LoggedFinished(decode, Run(decode, s', after));
  }

  lemma LoggedFinished(decode: Decoder, s: System)
    requires Inv(decode, s)
    ensures forall x :: x in s.log ==> InPhase(s, x.id, Finished(true))
  {
  }

  // ----- read errors -----

  /** A finishing task is stored exactly when it has accumulated something and no cancellation is
      pending; otherwise the cache stays as it is. How its last read ended does not matter. */
  lemma StoredIff(s: System, id: nat)
    requires InPhase(s, id, Finishing)
    ensures var s', t := FinishedIn(s, id), s.tasks[id];
            var stored := t.accumulated != "" && !s.client.cancelled;
            && (InPhase(s', id, Finished(true)) <==> stored)
            && (stored ==> Caches(s'.client.store, t))
            && (!stored ==> s'.client.store == s.client.store && s'.log == s.log)
  {
  }

  lemma RunOne(decode: Decoder, s: System, e: Event, rest: seq<Event>)
    requires Enabled(s, e)
    ensures Run(decode, s, [e] + rest) == Run(decode, Step(decode, s, e), rest)
  {
    hide Enabled, Step;
    assert ([e] + rest)[1..] == rest;
  }

  /** A read that fails ends the run just as the end of the response does: the states reached are
      the same in every respect. */
  lemma FailureLooksComplete(decode: Decoder, s: System, id: nat, chunk: string)
    requires InPhase(s, id, AwaitingRead)
    ensures Run(decode, s, [Read(id, chunk, true)] + ([Finish(id)] + [])) ==
            Run(decode, s, [Read(id, chunk, false)] + ([Turn(id, true)] + ([Finish(id)] + [])))
  {
    hide Tokens, Residual, Concat, Updated;
    var failed := ReadIn(decode, s, id, chunk, true);
    var read := ReadIn(decode, s, id, chunk, false);
    var complete := Turned(read, id, true);
    assert failed.client == complete.client && failed.tasks == complete.tasks && failed.log == complete.log;
    RunOne(decode, s, Read(id, chunk, true), [Finish(id)] + []);
    RunOne(decode, s, Read(id, chunk, false), [Turn(id, true)] + ([Finish(id)] + []));
    RunOne(decode, read, Turn(id, true), [Finish(id)] + []);
  }

  /** A single call, somewhere on its way to its first read. */
  function Alone(key: string, phase: Phase): System {
    System(Client(true, false, "", Store(map[], [])), map[0 := Task(key, true, phase, "", "", [], false)], [])
  }

  /** The phase behind an event on that way. */
  predicate Leads(e: Event, from: Phase, to: Phase) {
    || (e == Resolved(0, true) && from == Resolving && to == Connecting)
    || (e == Connected(0) && from == Connecting && to == Writing)
    || (e == Written(0) && from == Writing && to == ReadingHeader)
    || (e == HeaderRead(0) && from == ReadingHeader && to == LoopTop)
    || (e == Turn(0, false) && from == LoopTop && to == AwaitingRead)
  }

  lemma AloneStep(decode: Decoder, key: string, e: Event, from: Phase, to: Phase, rest: seq<Event>)
    requires Leads(e, from, to)
    ensures Run(decode, Alone(key, from), [e] + rest) == Run(decode, Alone(key, to), rest)
  {
    var s := Alone(key, from);
    assert s.tasks[0 := s.tasks[0].(phase := to)] == Alone(key, to).tasks;
    assert Step(decode, s, e) == Alone(key, to);
    RunOne(decode, s, e, rest);
  }

  /** From the call to its first read. */
  function Opening(key: string, rest: seq<Event>): seq<Event> {
    [Start(0, key, true)] + ([Resolved(0, true)] + ([Connected(0)] + ([Written(0)] +
    ([HeaderRead(0)] + ([Turn(0, false)] + rest)))))
  }

  lemma OpeningWaits(decode: Decoder, key: string, rest: seq<Event>)
    ensures Run(decode, INITIAL, Opening(key, rest)) == Run(decode, Alone(key, AwaitingRead), rest)
  {
    assert Step(decode, INITIAL, Start(0, key, true)) == Alone(key, Resolving);
    var e4 := [Turn(0, false)] + rest;
    var e3 := [HeaderRead(0)] + e4;
    var e2 := [Written(0)] + e3;
    var e1 := [Connected(0)] + e2;
    var e0 := [Resolved(0, true)] + e1;
    hide Run, Alone, Step;
    RunOne(decode, INITIAL, Start(0, key, true), e0);
    AloneStep(decode, key, Resolved(0, true), Resolving, Connecting, e1);
    AloneStep(decode, key, Connected(0), Connecting, Writing, e2);
    AloneStep(decode, key, Written(0), Writing, ReadingHeader, e3);
    AloneStep(decode, key, HeaderRead(0), ReadingHeader, LoopTop, e4);
    AloneStep(decode, key, Turn(0, false), LoopTop, AwaitingRead, rest);
  }

  /** So a response cut off by a read error is cached: one line arrives together with the error. */
  lemma FailedReadIsCached(decode: Decoder, key: string, line: string)
    requires line != "" && line[0] == '{' && '\n' !in line && decode(line).Some? && decode(line).value != ""
    ensures var read := [Read(0, line + "\n", true)] + ([Finish(0)] + []);
            Run(decode, INITIAL, Opening(key, read)).client.store == Store(map[key := decode(line).value], [key])
  {
    hide Alone, Run, Opening, ReadIn, FinishedIn, InPhase;
    var s, read := Alone(key, AwaitingRead), Read(0, line + "\n", true);
    LastRead(decode, key, line);
    OpeningWaits(decode, key, [read] + ([Finish(0)] + []));
    ReadAndFinish(decode, s, line + "\n");
  }

  lemma ReadAndFinish(decode: Decoder, s: System, chunk: string)
    requires InPhase(s, 0, AwaitingRead) && InPhase(ReadIn(decode, s, 0, chunk, true), 0, Finishing)
    ensures Run(decode, s, [Read(0, chunk, true)] + ([Finish(0)] + [])) ==
            FinishedIn(ReadIn(decode, s, 0, chunk, true), 0)
  {
    hide Run, ReadIn, FinishedIn;
    var s' := ReadIn(decode, s, 0, chunk, true);
    RunOne(decode, s, Read(0, chunk, true), [Finish(0)] + []);
    RunOne(decode, s', Finish(0), []);
    RunNone(decode, FinishedIn(s', 0));
  }

  lemma LastRead(decode: Decoder, key: string, line: string)
    requires line != "" && line[0] == '{' && '\n' !in line && decode(line).Some? && decode(line).value != ""
    ensures var s := Alone(key, AwaitingRead);
            && InPhase(s, 0, AwaitingRead)
            && var s' := ReadIn(decode, s, 0, line + "\n", true);
               InPhase(s', 0, Finishing)
               && FinishedIn(s', 0).client.store == Store(map[key := decode(line).value], [key])
  {
    OneLine(decode, line);
    hide Tokens, Residual, Concat;
    assert "" + (line + "\n") == line + "\n" && "" + decode(line).value == decode(line).value;
  }

  lemma RunNone(decode: Decoder, s: System)
    ensures Run(decode, s, []) == s
  {
  }

  lemma OneLine(decode: Decoder, line: string)
    requires line != "" && line[0] == '{' && '\n' !in line && decode(line).Some?
    ensures Tokens(decode, line + "\n") == [decode(line).value] && Residual(line + "\n") == ""
    ensures Concat([decode(line).value]) == decode(line).value
  {
    CutAtFirst(line, "", '\n');
    assert line + "\n" + "" == line + "\n";
    FirstLine(decode, line + "\n");
    LastLine(decode, "");
    assert [decode(line).value][1..] == [];
  }
}
