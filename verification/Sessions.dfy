/**
  Whole sessions of an emitter: registrations, changes of mode and queue reads in any order.
*/
module Sessions {
  import opened Dds
  import opened Emitters

  datatype Event =
    | Registration(messageType: nat, func: nat)
    | ModeChange(async: bool)
    | QueueRead(messageType: nat, messages: seq<int>)

  function Step(e: EmitterState, event: Event): EmitterState {
    match event
    case Registration(ty, func) => e.AddCallback(ty, func)
    case ModeChange(async) => e.SetAsync(async)
    case QueueRead(_, _) => e
  }

  /** The emitter after the first n events. */
  function After(e: EmitterState, events: seq<Event>, n: nat): EmitterState
    requires n <= |events|
  {
    if n == 0 then e else Step(After(e, events, n - 1), events[n - 1])
  }

  /** What one event calls: a read delivers to what is registered by then. */
  function CallsOf(e: EmitterState, event: Event): seq<Call> {
    if event.QueueRead? then Deliveries(Registered(e.callbacks, event.messageType), event.messages) else []
  }

  /** What the first n events send, to a dispatcher that takes capacity jobs in all. */
  function SentBy(e: EmitterState, events: seq<Event>, n: nat, capacity: nat): Sent
    requires n <= |events|
  {
    if n == 0 then NOTHING
    else
      var e' := After(e, events, n - 1);
      SendAll(SentBy(e, events, n - 1, capacity), CallsOf(e', events[n - 1]), e'.async, capacity)
  }

  // ---- the two traces of a session ----

  /** What the n-th event calls in one of the two modes. */
  function Part(e: EmitterState, events: seq<Event>, n: nat, async: bool): seq<Call>
    requires n < |events|
  {
    if After(e, events, n).async == async then CallsOf(After(e, events, n), events[n]) else []
  }

  /** The calls the first n events cause in one of the two modes. */
  function Trace(e: EmitterState, events: seq<Event>, n: nat, async: bool): seq<Call>
    requires n <= |events|
  {
    if n == 0 then [] else Trace(e, events, n - 1, async) + Part(e, events, n - 1, async)
  }

  /** In any session the user is called for the synchronous reads, in order, and the dispatcher
      gets the calls of the asynchronous ones, in order, as far as it accepts them; no read
      disturbs what an earlier one, in either mode, has sent. */
  lemma {:induction false} SessionSends(e: EmitterState, events: seq<Event>, n: nat, capacity: nat)
    requires n <= |events|
    ensures SentBy(e, events, n, capacity)
         == Sent(Trace(e, events, n, false), Accepted(Trace(e, events, n, true), capacity))
  {
    if n == 0 {
    } else {
      var before, earlier := SentBy(e, events, n - 1, capacity), Trace(e, events, n - 1, true);
      var e' := After(e, events, n - 1);
      SessionSends(e, events, n - 1, capacity);
      SentInOrder(before, earlier, CallsOf(e', events[n - 1]), e'.async, capacity);
      assert before.calls + [] == before.calls && earlier + [] == earlier;
    }
  }

  // ---- where a message goes ----

  predicate CallAt(trace: seq<Call>, k: int, call: Call) {
    0 <= k < |trace| && trace[k] == call
  }

  lemma {:induction false} TraceAt(e: EmitterState, events: seq<Event>, async: bool, n: nat, m: nat, k: nat, call: Call)
    requires n < m <= |events| && CallAt(Part(e, events, n, async), k, call)
    ensures CallAt(Trace(e, events, m, async), |Trace(e, events, n, async)| + k, call)
    decreases m
  {
    if n + 1 == m {
    } else {
      TraceAt(e, events, async, n, m - 1, k, call);
    }
  }

  /** The functions the first n events register for a type, in order. */
  function RegisteredBy(events: seq<Event>, n: nat, ty: nat): seq<nat>
    requires n <= |events|
  {
    if n == 0 then []
    else
      RegisteredBy(events, n - 1, ty)
      + if events[n - 1].Registration? && events[n - 1].messageType == ty then [events[n - 1].func] else []
  }

  /** The mode the first n events leave; a new emitter is synchronous. */
  predicate AsyncAfter(events: seq<Event>, n: nat)
    requires n <= |events|
  {
    n > 0 && if events[n - 1].ModeChange? then events[n - 1].async else AsyncAfter(events, n - 1)
  }

  lemma {:induction false} EmitterAfter(reader: Handle, events: seq<Event>, n: nat, ty: nat)
    requires n <= |events|
    ensures Registered(After(NewEmitter(reader), events, n).callbacks, ty) == RegisteredBy(events, n, ty)
    ensures After(NewEmitter(reader), events, n).async == AsyncAfter(events, n)
  {
    if n == 0 {
    } else {
      EmitterAfter(reader, events, n - 1, ty);
    }
  }

  lemma DeliveredAt(funcs: seq<nat>, messages: seq<int>, i: nat, j: nat)
    requires i < |messages| && j < |funcs|
    ensures i * |funcs| + j >= 0 && |Deliveries(funcs, messages)| == |messages| * |funcs|
    ensures CallAt(Deliveries(funcs, messages), i * |funcs| + j, Call(funcs[j], messages[i]))
  {
    DeliveryPosition(funcs, messages, i, j);
  }

  lemma ReadDelivers(reader: Handle, events: seq<Event>, n: nat, funcs: seq<nat>)
    requires n < |events| && events[n].QueueRead? && funcs == RegisteredBy(events, n, events[n].messageType)
    ensures Part(NewEmitter(reader), events, n, AsyncAfter(events, n)) == Deliveries(funcs, events[n].messages)
  {
    EmitterAfter(reader, events, n, events[n].messageType);
  }

  /** In any session the i-th message of the n-th event, a read, goes to the j-th function
      registered for its type before that read, once, at a place in the trace of the mode in force,
      fixed by i and j: message after message, and for each message in registration order.
      Synchronously that call is made; asynchronously it is a job iff its place is below the
      dispatcher's capacity. */
  lemma {:induction false} SessionDelivers(reader: Handle, events: seq<Event>, n: nat, i: nat, j: nat, capacity: nat)
    requires n < |events| && events[n].QueueRead? && i < |events[n].messages|
    requires j < |RegisteredBy(events, n, events[n].messageType)|
    ensures var e, funcs, messages := NewEmitter(reader), RegisteredBy(events, n, events[n].messageType), events[n].messages;
            var async, sent := AsyncAfter(events, n), SentBy(e, events, |events|, capacity);
            var place, call := |Trace(e, events, n, async)| + (i * |funcs| + j), Call(funcs[j], messages[i]);
            && |Trace(e, events, n + 1, async)| == |Trace(e, events, n, async)| + |messages| * |funcs|
            && CallAt(Trace(e, events, |events|, async), place, call)
            && (!async ==> CallAt(sent.calls, place, call))
            && (async ==> (CallAt(sent.jobs, place, call) <==> place < capacity))
  {
    var e, funcs, messages := NewEmitter(reader), RegisteredBy(events, n, events[n].messageType), events[n].messages;
    ReadDelivers(reader, events, n, funcs);
    DeliveredAt(funcs, messages, i, j);
    TraceAt(e, events, AsyncAfter(events, n), n, |events|, i * |funcs| + j, Call(funcs[j], messages[i]));
    SessionSends(e, events, |events|, capacity);
  }
}
