/**
  Whole runs of the registry: any sequence of operations, with every creation
  and every filter deletion free to fail.
*/
module RegistryRuns {
  import opened Dds
  import opened Emitters
  import opened RegistrySpec
  import opened RegistryInvariant
  import opened RegistrySteps
  import opened RegistryTeardown
  import opened RegistryOperations

  datatype Op =
    | Join
    | Register(t: string, preset: int, topicOk: bool, refused: set<Handle>)
    | ApplyPreset(t: string, preset: int, refused: set<Handle>)
    | Subscribe(t: string, r: string, filter: string, subscriberOk: bool, filterOk: bool, readerOk: bool)
    | Publish(t: string, publisherOk: bool, writerOk: bool)
    | Refilter(t: string, r: string, filter: string, env: ReplaceEnv)
    | Listen(t: string, r: string, messageType: nat, func: nat, queue: bool, async: bool, attached: bool)
    | Unregister(t: string)
    | Partition(t: string, name: string)
    | ReaderQosTo(t: string, readerQos: ReaderQos, refused: set<Handle>)
    | WriterQosTo(t: string, writerQos: int, refused: set<Handle>)
    | PublisherQosTo(t: string, groupQos: GroupQos, refused: set<Handle>)
    | SubscriberQosTo(t: string, groupQos: GroupQos, refused: set<Handle>)
    | MaxDataRate(t: string, r: string, rate: int, refused: set<Handle>)
    | ReaderHandlerTo(handler: nat)
    | WriterHandlerTo(handler: nat)
    | TakeSamples(h: Handle)
    | ReturnSamples(h: Handle)

  /** Unregistering waits for loans; a run ends where the program crashes. */
  ghost predicate Enabled(s: Registry, op: Op) {
    match op
    case Unregister(t) => t in s.topics ==> !OnLoan(s.dds, s.topics[t])
    case WriterHandlerTo(h) => SetWriterListenerHandler(s, h).HandlerSet?
    case _ => true
  }

  ghost function Apply(s: Registry, op: Op): Registry
    requires Enabled(s, op)
  {
    match op
    case Join => s.(joined := true)
    case Register(t, preset, ok, refused) =>
      var o := RegisterTopic(s, t, preset, ok, refused); if o.Threw? then s else o.step.next
    case ApplyPreset(t, preset, refused) => RegisterQos(s, t, preset, refused).next
    case Subscribe(t, r, filter, a, b, c) => CreateSubscriber(s, t, r, filter, a, b, c).next
    case Publish(t, a, b) => CreatePublisher(s, t, a, b).next
    case Refilter(t, r, filter, env) => ReplaceFilter(s, t, r, filter, env).next
    case Listen(t, r, ty, f, queue, async, attached) => AddCallback(s, t, r, ty, f, queue, async, attached).next
    case Unregister(t) => UnregisterTopic(s, t).next
    case Partition(t, name) => AddPartition(s, t, name).next
    case ReaderQosTo(t, qos, refused) => SetReaderQos(s, t, qos, refused)
    case WriterQosTo(t, qos, refused) => SetWriterQos(s, t, qos, refused)
    case PublisherQosTo(t, qos, refused) => SetPublisherQos(s, t, qos, refused)
    case SubscriberQosTo(t, qos, refused) => SetSubscriberQos(s, t, qos, refused)
    case MaxDataRate(t, r, rate, refused) => SetMaxDataRate(s, t, r, rate, refused).next
    case ReaderHandlerTo(h) => SetReaderListenerHandler(s, h)
    case WriterHandlerTo(h) => SetWriterListenerHandler(s, h).next
    case TakeSamples(h) => s.(dds := s.dds.Take(h))
    case ReturnSamples(h) => s.(dds := s.dds.ReturnLoan(h))
  }

  ghost predicate Legal(s: Registry, ops: seq<Op>)
    decreases |ops|
  {
    ops == [] || (Enabled(s, ops[0]) && Legal(Apply(s, ops[0]), ops[1..]))
  }

  ghost function Run(s: Registry, ops: seq<Op>): Registry
    requires Legal(s, ops)
    decreases |ops|
  {
    if ops == [] then s else Run(Apply(s, ops[0]), ops[1..])
  }

  lemma ApplyInv(s: Registry, op: Op)
    requires Inv(s) && Enabled(s, op)
    ensures Inv(Apply(s, op))
  {
    match op
    case Join => JoinInv(s);
    case Register(t, preset, ok, refused) => RegisterTopicInv(s, t, preset, ok, refused);
    case ApplyPreset(t, preset, refused) => RegisterQosInv(s, t, preset, refused);
    case Subscribe(t, r, filter, a, b, c) => CreateSubscriberInv(s, t, r, filter, a, b, c);
    case Publish(t, a, b) => CreatePublisherInv(s, t, a, b);
    case Refilter(t, r, filter, env) => ReplaceFilterInv(s, t, r, filter, env);
    case Listen(t, r, ty, f, queue, async, attached) => AddCallbackInv(s, t, r, ty, f, queue, async, attached);
    case Unregister(t) => UnregisterTopicInv(s, t);
    case Partition(t, name) => AddPartitionInv(s, t, name);
    case ReaderQosTo(t, qos, refused) => SetReaderQosInv(s, t, qos, refused);
    case WriterQosTo(t, qos, refused) => SetWriterQosInv(s, t, qos, refused);
    case PublisherQosTo(t, qos, refused) => SetPublisherQosInv(s, t, qos, refused);
    case SubscriberQosTo(t, qos, refused) => SetSubscriberQosInv(s, t, qos, refused);
    case MaxDataRate(t, r, rate, refused) => SetMaxDataRateInv(s, t, r, rate, refused);
    case ReaderHandlerTo(h) => SetReaderListenerHandlerInv(s, h);
    case WriterHandlerTo(h) => SetWriterListenerHandlerInv(s, h);
    case TakeSamples(h) => LoansInv(s, s.dds.Take(h));
    case ReturnSamples(h) => LoansInv(s, s.dds.ReturnLoan(h));
  }

  lemma JoinInv(s: Registry)
    requires Inv(s)
    ensures Inv(s.(joined := true))
  {
    var s' := s.(joined := true);
    forall t | t in s'.topics ensures InvOf(s', t) {
      assert InvOf(s, t);
    }
    SameTopicsKeepOwners(s, s');
  }

  /** The registry invariant holds after every run. */
  lemma {:induction false} RunInv(s: Registry, ops: seq<Op>)
    requires Inv(s) && Legal(s, ops)
    ensures Inv(Run(s, ops))
    decreases |ops|
  {
    if ops == [] {
    } else {
      ApplyInv(s, ops[0]);
      RunInv(Apply(s, ops[0]), ops[1..]);
    }
  }
}
