/** What a cancellation does to the task that runs, and that it does nothing to a later one. */
module Cancellation {
  import opened LineFraming
  import opened StreamClient
  import opened StreamTasks

  // ----- a call starts clean -----

  ghost predicate Idle(s: System) {
    forall i :: i in s.tasks ==> !Active(s.tasks[i])
  }

  /** Whatever has happened before, cancellations and half-read lines included: a call made while no
      task is active finds no cancellation and an empty line buffer. It is answered with the cached
      response, or it starts to resolve and streams. */
  lemma StartsClean(decode: Decoder, before: seq<Event>, id: nat, key: string, callback: bool)
    requires id !in Run(decode, INITIAL, before).tasks && Idle(Run(decode, INITIAL, before))
    ensures var s := Run(decode, INITIAL, before);
            var s' := Step(decode, s, Start(id, key, callback));
            var known := key in s.client.store.lookup;
            && s'.client == Client(!known, false, "", s.client.store) && s'.log == s.log
            && InPhase(s', id, if known then Answered else Resolving)
            && s'.tasks[id].delivered == (if known && callback then [s.client.store.lookup[key]] else [])
            && s'.tasks == s.tasks[id := s'.tasks[id]]
  {
    AtMostOneStreams(decode, before);
    hide Run, Active;
  }

  /** Not stopped, with no cancellation waiting for it, and if over then stored exactly when it has
      accumulated something. */
  predicate Undisturbed(s: System, id: nat) {
    id in s.tasks &&
    var t := s.tasks[id];
    && !t.stopped && (Active(t) ==> !s.client.cancelled)
    && (t.phase.Finished? ==> (t.phase == Finished(true) <==> t.accumulated != ""))
  }

  lemma StepUndisturbed(decode: Decoder, s: System, e: Event, id: nat)
    requires Enabled(s, e) && Undisturbed(s, id) && e != Cancel
    ensures Undisturbed(Step(decode, s, e), id)
  {
    hide Updated, Tokens, Residual, Concat;
  }

  lemma {:induction false} RunUndisturbed(decode: Decoder, s: System, events: seq<Event>, id: nat)
    requires Undisturbed(s, id) && Cancel !in events
    ensures Undisturbed(Run(decode, s, events), id)
    decreases |events|
  {
    if events != [] {
      var e := events[0];
      assert e in events && forall x :: x in events[1..] ==> x in events;
      hide Undisturbed, Step, Enabled;
      if Enabled(s, e) {
        StepUndisturbed(decode, s, e, id);
        RunUndisturbed(decode, Step(decode, s, e), events[1..], id);
      } else {
        RunUndisturbed(decode, s, events[1..], id);
      }
    }
  }

  lemma {:induction false} RunAppend(decode: Decoder, s: System, a: seq<Event>, b: seq<Event>)
    ensures Run(decode, s, a + b) == Run(decode, Run(decode, s, a), b)
    decreases |a|
  {
    if a == [] {
      assert a + b == b;
    } else {
      assert (a + b)[0] == a[0] && (a + b)[1..] == a[1..] + b;
      hide Step, Enabled;
      RunAppend(decode, if Enabled(s, a[0]) then Step(decode, s, a[0]) else s, a[1..], b);
    }
  }

  lemma RunStart(decode: Decoder, before: seq<Event>, start: Event, after: seq<Event>)
    requires Enabled(Run(decode, INITIAL, before), start)
    ensures Run(decode, INITIAL, before + [start] + after) ==
            Run(decode, Step(decode, Run(decode, INITIAL, before), start), after)
  {
    hide Step, Enabled, Run;
    RunAppend(decode, INITIAL, before + [start], after);
    RunAppend(decode, INITIAL, before, [start]);
    assert [start] + [] == [start];
    RunOne(decode, Run(decode, INITIAL, before), start, []);
    RunNone(decode, Step(decode, Run(decode, INITIAL, before), start));
  }

  /** A cancellation reaches no later call: a call made while no task is active, and followed by no
      cancellation, is never stopped, and once it has finished its response is stored exactly when
      there is one. So one stop by the user does not spoil the prompts after it. */
  lemma LaterCallsUndisturbed(decode: Decoder, before: seq<Event>, id: nat, key: string, callback: bool,
                              after: seq<Event>)
    requires id !in Run(decode, INITIAL, before).tasks && Idle(Run(decode, INITIAL, before))
    requires Cancel !in after
    ensures var s := Run(decode, INITIAL, before + [Start(id, key, callback)] + after);
            && id in s.tasks && !s.tasks[id].stopped
            && (s.tasks[id].phase.Finished? ==>
                  (s.tasks[id].phase == Finished(true) <==> s.tasks[id].accumulated != ""))
  {
    var s, start := Run(decode, INITIAL, before), Start(id, key, callback);
    StartsClean(decode, before, id, key, callback);
    RunStart(decode, before, start, after);
    assert Undisturbed(Step(decode, s, start), id) by {
      hide Run;
    }
    hide Run, Step, Idle;
    RunUndisturbed(decode, Step(decode, s, start), after, id);
  }

  // ----- what an event leaves alone -----

  /** Every event: the flag is raised by a cancellation only and lowered by an admitted call only, the line
      buffer is changed by a read and emptied by an admitted call, the cache and the log are changed by the
      end of a task only, and no task but the event's own is touched. */
  lemma StepFrame(decode: Decoder, s: System, e: Event)
    requires Enabled(s, e)
    ensures var c, c' := s.client, Step(decode, s, e).client;
            var admitted := e.Start? && !c.streaming;
            && c'.cancelled == (e == Cancel || (c.cancelled && !admitted))
            && c'.residual == (if e.Read? then Residual(c.residual + e.chunk) else if admitted then "" else c.residual)
            && (!e.Finish? ==> c'.store == c.store && Step(decode, s, e).log == s.log)
    ensures if e == Cancel then Step(decode, s, e).tasks == s.tasks
            else e.id in Step(decode, s, e).tasks
                 && Step(decode, s, e).tasks == s.tasks[e.id := Step(decode, s, e).tasks[e.id]]
  {
    hide Updated, Tokens, Residual, Concat;
  }

  // ----- and stops the task that runs -----

  /** The notice: a task is stopped by exactly one kind of event, the top of its own read loop with a
      cancellation pending and the response not complete. */
  lemma StoppedIff(decode: Decoder, s: System, e: Event, id: nat)
    requires Enabled(s, e) && id in s.tasks && !s.tasks[id].stopped
    ensures var t := Step(decode, s, e).tasks[id];
            && (t.stopped <==> e == Turn(id, false) && s.client.cancelled)
            && (t.stopped ==>
                  var notice := if t.callback then ["\n\n[Prompt generation stopped by the user.]"] else [];
                  t == s.tasks[id].(phase := Finishing, stopped := true, delivered := t.delivered)
                  && t.delivered == s.tasks[id].delivered + notice)
  {
    hide Updated, Tokens, Residual, Concat;
  }

  /** How often a task reads in a run. */
  function Reads(decode: Decoder, s: System, events: seq<Event>, id: nat): nat
    decreases |events|
  {
    if events == [] then 0
    else if !Enabled(s, events[0]) then Reads(decode, s, events[1..], id)
    else (if events[0].Read? && events[0].id == id then 1 else 0)
         + Reads(decode, Step(decode, s, events[0]), events[1..], id)
  }

  predicate Pending(s: System, id: nat) {
    InPhase(s, id, AwaitingRead)
  }

  /** No event makes a cancelled task wait for a read again. */
  lemma NeverPendingAgain(decode: Decoder, s: System, e: Event, id: nat)
    requires Enabled(s, e) && Doomed(s, id)
    ensures Pending(Step(decode, s, e), id) ==> Pending(s, id) && !(e.Read? && e.id == id)
    ensures e.Read? && e.id == id ==> Pending(s, id)
  {
    hide Updated, Tokens, Residual, Concat;
  }

  lemma {:induction false} DoomedReads(decode: Decoder, s: System, events: seq<Event>, id: nat)
    requires Inv(decode, s) && Doomed(s, id)
    ensures Reads(decode, s, events, id) <= if Pending(s, id) then 1 else 0
    decreases |events|
  {
    if events != [] {
      var e := events[0];
      hide Inv, Step, Enabled, Doomed, Pending;
      if Enabled(s, e) {
        NeverPendingAgain(decode, s, e, id);
        StepInv(decode, s, e);
        StepDoomed(decode, s, e, id);
        DoomedReads(decode, Step(decode, s, e), events[1..], id);
      } else {
        DoomedReads(decode, s, events[1..], id);
      }
    }
  }

  /** From a cancellation on, whatever else is started or happens, the running task reads no more: at
      most the one read that it was already waiting for comes back. */
  lemma CancelStopsReading(decode: Decoder, before: seq<Event>, after: seq<Event>, id: nat)
    requires var s := Run(decode, INITIAL, before);
             id in s.tasks && s.tasks[id].phase != Finished(true)
    ensures var s := Run(decode, INITIAL, before);
            Reads(decode, Step(decode, s, Cancel), after, id) <= if InPhase(s, id, AwaitingRead) then 1 else 0
  {
    hide Run, Inv, Reads;
    var s := Run(decode, INITIAL, before);
    Reachable(decode, before);
    CancelInv(decode, s);
    DoomedReads(decode, Step(decode, s, Cancel), after, id);
  }
}
