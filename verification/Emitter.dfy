/**
  The callback emitter: its thread handle (run, stop, setReader) and the
  delivery of taken messages to the registered callbacks.
*/
module Emitters {
  import opened Dds

  /** What the std::thread member holds. Both Listening and Returned are joinable:
      Returned is a listen() that gave up before its loop. */
  datatype Thread = NoThread | Listening | Returned

  /** Registered functions per message type, in registration order. */
  type Listeners = map<nat, seq<nat>>

  datatype EmitterState = EmitterState(
    running: bool, thread: Thread, reader: Handle, async: bool, callbacks: Listeners)
  {
    predicate Joinable() {
      thread != NoThread
    }

    predicate Consistent() {
      (running <==> Joinable()) && (thread == Listening ==> reader != NIL)
    }

    /** run(); attached says whether listen() got as far as its loop. */
    function Run(attached: bool): EmitterState {
      if running then this
      else this.(running := true, thread := if attached && reader != NIL then Listening else Returned)
    }

    /** stop(): a listen() loop clears the reader on its way out. */
    function Stop(): EmitterState {
      this.(running := false, thread := NoThread, reader := if thread == Listening then NIL else reader)
    }

    function SetReader(r: Handle): EmitterState {
      this.(reader := r)
    }

    function AddCallback(messageType: nat, func: nat): EmitterState {
      this.(callbacks := callbacks[messageType := Registered(callbacks, messageType) + [func]])
    }

    function SetAsync(on: bool): EmitterState {
      this.(async := on)
    }
  }

  function NewEmitter(reader: Handle): EmitterState {
    EmitterState(false, NoThread, reader, false, map[])
  }

  function Registered(callbacks: Listeners, messageType: nat): seq<nat> {
    if messageType in callbacks then callbacks[messageType] else []
  }

  datatype Call = Call(func: nat, message: int)

  /** The calls one message causes. */
  function CallsFor(funcs: seq<nat>, message: int): seq<Call> {
    seq(|funcs|, j requires 0 <= j < |funcs| => Call(funcs[j], message))
  }

  /** The calls a list of messages causes, message after message. */
  function Deliveries(funcs: seq<nat>, messages: seq<int>): seq<Call> {
    if messages == [] then []
    else Deliveries(funcs, messages[..|messages| - 1]) + CallsFor(funcs, messages[|messages| - 1])
  }

  lemma {:induction false} DeliveriesLength(funcs: seq<nat>, messages: seq<int>)
    ensures |Deliveries(funcs, messages)| == |messages| * |funcs|
  {
    if messages == [] {
    } else {
      var n := |messages|;
      DeliveriesLength(funcs, messages[..n - 1]);
      assert n * |funcs| == (n - 1) * |funcs| + |funcs|;
    }
  }

  /** Message-major order: the i-th message goes to the j-th registered callback
      at position i * |funcs| + j, and nothing else is called. */
  lemma {:induction false} DeliveryPosition(funcs: seq<nat>, messages: seq<int>, i: nat, j: nat)
    requires i < |messages| && j < |funcs|
    ensures |Deliveries(funcs, messages)| == |messages| * |funcs|
    ensures i * |funcs| + j < |messages| * |funcs|
    ensures Deliveries(funcs, messages)[i * |funcs| + j] == Call(funcs[j], messages[i])
  {
    var n, k := |messages|, |funcs|;
    DeliveriesLength(funcs, messages);
    DeliveriesLength(funcs, messages[..n - 1]);
    assert n * k == (n - 1) * k + k;
    if i == n - 1 {
    } else {
      DeliveryPosition(funcs, messages[..n - 1], i, j);
    }
  }

  /** Reading in several readQueue calls delivers what one call would. */
  lemma {:induction false} DeliveriesCompose(funcs: seq<nat>, a: seq<int>, b: seq<int>)
    ensures Deliveries(funcs, a + b) == Deliveries(funcs, a) + Deliveries(funcs, b)
  {
    if b == [] {
      assert a + b == a;
    } else {
      var b' := b[..|b| - 1];
      assert (a + b)[..|a + b| - 1] == a + b';
      DeliveriesCompose(funcs, a, b');
    }
  }

  /** take(): an error, or the samples (RETCODE_NO_DATA is the empty list). */
  datatype Taken = TakeFailed | Taken(messages: seq<int>)

  /** Calls made so far, and jobs handed to the dispatcher. */
  datatype Sent = Sent(calls: seq<Call>, jobs: seq<Call>)

  const NOTHING := Sent([], [])

  /** In async mode a call becomes a job, if the dispatcher still accepts one. */
  function Send(s: Sent, call: Call, async: bool, capacity: nat): Sent {
    if !async then s.(calls := s.calls + [call])
    else if |s.jobs| < capacity then s.(jobs := s.jobs + [call]) else s
  }

  function SendAll(s: Sent, calls: seq<Call>, async: bool, capacity: nat): Sent {
    if calls == [] then s
    else Send(SendAll(s, calls[..|calls| - 1], async, capacity), calls[|calls| - 1], async, capacity)
  }

  lemma {:induction false} SendAllComposes(s: Sent, a: seq<Call>, b: seq<Call>, async: bool, capacity: nat)
    ensures SendAll(s, a + b, async, capacity) == SendAll(SendAll(s, a, async, capacity), b, async, capacity)
  {
    if b == [] {
      assert a + b == a;
    } else {
      assert (a + b)[..|a + b| - 1] == a + b[..|b| - 1];
      SendAllComposes(s, a, b[..|b| - 1], async, capacity);
    }
  }

  /** What a dispatcher that takes capacity jobs in all makes of these. */
  function Accepted(calls: seq<Call>, capacity: nat): seq<Call> {
    if |calls| <= capacity then calls else calls[..capacity]
  }

  /** Synchronously all calls are made, in order; asynchronously they become jobs behind the
      earlier ones, in the same order, up to the moment the dispatcher stops accepting them. */
  lemma {:induction false} SentInOrder(s: Sent, earlier: seq<Call>, calls: seq<Call>, async: bool, capacity: nat)
    requires s.jobs == Accepted(earlier, capacity)
    ensures SendAll(s, calls, async, capacity)
         == if async then Sent(s.calls, Accepted(earlier + calls, capacity)) else Sent(s.calls + calls, s.jobs)
  {
    if calls == [] {
      assert earlier + calls == earlier;
    } else {
      var n := |calls| - 1;
      SentInOrder(s, earlier, calls[..n], async, capacity);
      assert earlier + calls == earlier + calls[..n] + [calls[n]];
    }
  }

  class Emitter {
    var m_running: bool
    var m_asyncEmitter: bool
    var m_callbacks: Listeners
    var m_reader: Handle
    var m_dataThread: Thread

    function State(): EmitterState
      reads this
    {
      EmitterState(m_running, m_dataThread, m_reader, m_asyncEmitter, m_callbacks)
    }

    constructor (reader: Handle)
      ensures State() == NewEmitter(reader)
    {
      m_running, m_asyncEmitter, m_callbacks := false, false, map[];
      m_reader, m_dataThread := reader, NoThread;
    }

    /** Assigning to a joinable std::thread would terminate the program. */
    method Run(attached: bool)
      requires State().Consistent()
      modifies this
      ensures State() == old(State()).Run(attached) && State().Consistent()
    {
      if !m_running {
        m_running := true;
        assert m_dataThread == NoThread;
        m_dataThread := if attached && m_reader != NIL then Listening else Returned;
      }
    }

    method Stop()
      modifies this
      ensures State() == old(State()).Stop() && State().Consistent()
    {
      m_running := false;
      if m_dataThread != NoThread {
        if m_dataThread == Listening {
          m_reader := NIL;
        }
        m_dataThread := NoThread;
      }
    }

    method SetReader(reader: Handle)
      modifies this
      ensures State() == old(State()).SetReader(reader)
    {
      m_reader := reader;
    }

    method SetAsync(on: bool)
      modifies this
      ensures State() == old(State()).SetAsync(on)
    {
      m_asyncEmitter := on;
    }

    method AddCallback(messageType: nat, func: nat)
      modifies this
      ensures State() == old(State()).AddCallback(messageType, func)
    {
      m_callbacks := m_callbacks[messageType := Registered(m_callbacks, messageType) + [func]];
    }

    /** Calls every function of the type, or queues it on a dispatcher that
        accepts capacity jobs in all before it is shut down. */
    method EmitMessage(before: Sent, messageType: nat, message: int, capacity: nat) returns (sent: Sent)
      ensures sent == SendAll(before, CallsFor(Registered(m_callbacks, messageType), message), m_asyncEmitter, capacity)
    {
      sent := before;
      if messageType in m_callbacks {
        var funcs := m_callbacks[messageType];
        ghost var all := CallsFor(funcs, message);
        for j := 0 to |funcs|
          invariant sent == SendAll(before, all[..j], m_asyncEmitter, capacity)
        {
          assert all[..j + 1][..j] == all[..j];
          if m_asyncEmitter {
            if |sent.jobs| < capacity {
              sent := sent.(jobs := sent.jobs + [Call(funcs[j], message)]);
            }
          } else {
            sent := sent.(calls := sent.calls + [Call(funcs[j], message)]);
          }
        }
        assert all[..|funcs|] == all;
      }
    }

    /** readQueue(): every taken message to every callback of the type. */
    method ReadQueue(before: Sent, messageType: nat, take: Taken, capacity: nat) returns (sent: Sent)
      ensures m_reader == NIL || take.TakeFailed? ==> sent == before
      ensures m_reader != NIL && take.Taken? ==>
                sent == SendAll(before, Deliveries(Registered(m_callbacks, messageType), take.messages), m_asyncEmitter, capacity)
    {
      sent := before;
      if m_reader == NIL || take.TakeFailed? {
        return;
      }
      var messages := take.messages;
      ghost var funcs := Registered(m_callbacks, messageType);
      for i := 0 to |messages|
        invariant sent == SendAll(before, Deliveries(funcs, messages[..i]), m_asyncEmitter, capacity)
      {
        assert messages[..i + 1][..i] == messages[..i];
        SendAllComposes(before, Deliveries(funcs, messages[..i]), CallsFor(funcs, messages[i]), m_asyncEmitter, capacity);
        sent := EmitMessage(sent, messageType, messages[i], capacity);
      }
      assert messages[..|messages|] == messages;
    }
  }
}
