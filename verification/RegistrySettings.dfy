/**
  What the user asked for and what is stored: the QoS of every topic after any run, the
  handlers, and when the calls that set them succeed.
*/
module RegistrySettings {
  import opened Dds
  import opened Emitters
  import opened RegistrySpec
  import opened RegistryInvariant
  import opened RegistryRuns
  import opened RegistryFrame
  import Names

  /** The QoS a topic's group stores; known if there is a group. */
  datatype Settings = Settings(
    known: bool, reader: ReaderQos, writer: int, pub: GroupQos, sub: GroupQos, preset: int)

  const DEFAULTS := Settings(false, ReaderQos(0, 0), 0, GroupQos([], 0), GroupQos([], 0), -1)

  function SettingsOf(s: Registry, t: string): Settings {
    var g := GroupOrNew(s, t);
    Settings(t in s.topics, g.readerQos, g.writerQos, g.pubQos, g.subQos, g.qosPreset)
  }

  // ---- what a run asks for ----

  /** registerTopic gets as far as creating the topic. */
  predicate MakesTopic(s: Registry, t: string, topicOk: bool) {
    && s.joined && (t in s.topics ==> s.topics[t].topic == NIL)
    && topicOk && !s.dds.NameInUse(t)
  }

  /** The first accepted preset sets the QoS of readers and writers; later ones do not. */
  function WithPreset(st: Settings, preset: int): Settings {
    if st.preset == -1 && 0 <= preset <= 3
    then st.(reader := ReaderQos(preset, 0), writer := preset, preset := preset) else st
  }

  function Appended(qos: GroupQos, name: string): GroupQos {
    GroupQos(qos.partition + [name], qos.policies)
  }

  function NextSettings(s: Registry, op: Op, t: string, st: Settings): Settings {
    if !IsFor(op, t) then st
    else
      match op
      case Register(_, preset, ok, _) => if MakesTopic(s, t, ok) then WithPreset(st.(known := true), preset) else st
      case ApplyPreset(_, preset, _) => if st.known then WithPreset(st, preset) else st
      case Partition(_, name) =>
        if st.known then st.(pub := Appended(st.pub, name), sub := Appended(st.sub, name)) else st
      case ReaderQosTo(_, qos, _) => st.(known := true, reader := qos)
      case WriterQosTo(_, qos, _) => st.(known := true, writer := qos)
      case PublisherQosTo(_, qos, _) => st.(known := true, pub := qos)
      case SubscriberQosTo(_, qos, _) => st.(known := true, sub := qos)
      case Unregister(_) => DEFAULTS
      case _ => st
  }

  ghost function SettingsAfter(s: Registry, ops: seq<Op>, t: string, st: Settings): Settings
    requires Legal(s, ops)
    decreases |ops|
  {
    if ops == [] then st else SettingsAfter(Apply(s, ops[0]), ops[1..], t, NextSettings(s, ops[0], t, st))
  }

  // ---- one call ----

  lemma PresetSets(s: Registry, t: string, preset: int, refused: set<Handle>)
    ensures var step, st := RegisterQos(s, t, preset, refused), SettingsOf(s, t);
            && SettingsOf(step.next, t) == (if st.known then WithPreset(st, preset) else st)
            && (step.result <==> st.known && (st.preset != -1 || 0 <= preset <= 3))
  {
  }

  lemma TopicKeepsSettings(s: Registry, t: string, accept: bool)
    ensures var (s1, h) := AddTopic(s, t, accept); var st := SettingsOf(s, t);
            && (h != NIL <==> accept && !s.dds.NameInUse(t) && s.dds.next != NIL)
            && SettingsOf(s1, t) == if h != NIL then st.(known := true) else st
  {
  }

  lemma RegisterSets(s: Registry, t: string, preset: int, accept: bool, refused: set<Handle>)
    requires Inv(s)
    ensures var o, st := RegisterTopic(s, t, preset, accept, refused), SettingsOf(s, t);
            SettingsOf(if o.Threw? then s else o.step.next, t)
            == if MakesTopic(s, t, accept) then WithPreset(st.(known := true), preset) else st
  {
    assert s.dds.next != NIL;
    TopicKeepsSettings(s, t, accept);
    PresetSets(AddTopic(s, t, accept).0, t, preset, refused);
    hide AddTopic, RegisterQos, Inv;
  }

  /** registerTopic throws iff nobody joined; it returns true iff the topic is there already, or is
      created now and the preset asked for is one there is, or another was applied before. */
  lemma RegisterTopicSucceedsIff(s: Registry, t: string, preset: int, topicOk: bool, refused: set<Handle>)
    requires Inv(s)
    ensures var o := RegisterTopic(s, t, preset, topicOk, refused);
            && (o.Threw? <==> !s.joined)
            && (o.Finished? ==>
                  (o.step.result <==>
                     || (t in s.topics && s.topics[t].topic != NIL)
                     || (MakesTopic(s, t, topicOk) && (SettingsOf(s, t).preset != -1 || 0 <= preset <= 3))))
  {
    assert s.dds.next != NIL;
    TopicKeepsSettings(s, t, topicOk);
    PresetSets(AddTopic(s, t, topicOk).0, t, preset, refused);
    hide AddTopic, RegisterQos, Inv;
  }

  /** registerQos returns true iff there is a group and the preset is one there is, or another
      was applied before. */
  lemma RegisterQosSucceedsIff(s: Registry, t: string, preset: int, refused: set<Handle>)
    ensures RegisterQos(s, t, preset, refused).result
            <==> t in s.topics && (s.topics[t].qosPreset != -1 || 0 <= preset <= 3)
  {
  }

  lemma SetterSets(s: Registry, op: Op, t: string)
    requires Enabled(s, op) && IsSetter(op) && op.t == t
    ensures SettingsOf(Apply(s, op), t) == NextSettings(s, op, t, SettingsOf(s, t))
  {
    hide RegisterTopic, RegisterQos, CreateSubscriber, CreatePublisher, ReplaceFilter, AddCallback, UnregisterTopic;
    hide SetReaderListenerHandler, SetWriterListenerHandler, ApplyReaderQos, GetReader, MakesTopic, WithPreset;
  }

  lemma ApplySets(s: Registry, op: Op, t: string)
    requires Inv(s) && Enabled(s, op)
    ensures SettingsOf(Apply(s, op), t) == NextSettings(s, op, t, SettingsOf(s, t))
  {
    if !IsFor(op, t) {
      OtherGroupKept(s, op, t);
      hide Apply;
    } else if IsSetter(op) {
      SetterSets(s, op, t);
    } else {
      hide RegisterTopic, RegisterQos, CreateSubscriber, CreatePublisher, ReplaceFilter, Teardown, MakesTopic, WithPreset;
      match op
      case Register(_, preset, ok, refused) => RegisterSets(s, t, preset, ok, refused);
      case ApplyPreset(_, preset, refused) => PresetSets(s, t, preset, refused);
      case Subscribe(_, r, filter, a, b, c) => SubscribeChanges(s, t, r, filter, a, b, c);
      case Publish(_, a, b) => PublishChanges(s, t, a, b);
      case Refilter(_, r, filter, env) => RefilterChanges(s, t, r, filter, env);
      case Listen(_, _, _, _, _, _, _) =>
      case Unregister(_) =>
    }
  }

  /** After any run a topic's group stores the QoS that was asked for: what the last setter or the first
      accepted preset since the topic was unregistered asked for, or the default, with every partition
      added since. */
  lemma {:induction false} SettingsFollowRequests(s: Registry, ops: seq<Op>, t: string)
    requires Inv(s) && Legal(s, ops)
    ensures SettingsOf(Run(s, ops), t) == SettingsAfter(s, ops, t, SettingsOf(s, t))
    decreases |ops|
  {
    if ops == [] {
    } else {
      hide Inv, SettingsOf, NextSettings, Enabled, Apply;
      ApplySets(s, ops[0], t);
      ApplyInv(s, ops[0]);
      SettingsFollowRequests(Apply(s, ops[0]), ops[1..], t);
    }
  }

  // ---- what belongs to no topic ----

  datatype Wide = Wide(joined: bool, readerHandler: nat, writerHandler: nat)

  function WideOf(s: Registry): Wide {
    Wide(s.joined, s.rlHandler, s.wlHandler)
  }

  function NextWide(op: Op, w: Wide): Wide {
    match op
    case Join => w.(joined := true)
    case ReaderHandlerTo(handler) => w.(readerHandler := handler)
    case WriterHandlerTo(handler) => w.(writerHandler := handler)
    case _ => w
  }

  function WideAfter(ops: seq<Op>, w: Wide): Wide {
    if ops == [] then w else WideAfter(ops[1..], NextWide(ops[0], w))
  }

  lemma ApplyMovesWide(s: Registry, op: Op)
    requires Enabled(s, op)
    ensures WideOf(Apply(s, op)) == NextWide(op, WideOf(s))
  {
    if !SetsHandler(op) {
      HandlersKept(s, op);
      hide Apply;
    }
  }

  /** After any run the manager has joined iff some call joined, and the handlers are the last set. */
  lemma {:induction false} WideFollowsRequests(s: Registry, ops: seq<Op>)
    requires Legal(s, ops)
    ensures WideOf(Run(s, ops)) == WideAfter(ops, WideOf(s))
    decreases |ops|
  {
    if ops == [] {
    } else {
      hide WideOf, NextWide, Enabled, Apply;
      ApplyMovesWide(s, ops[0]);
      WideFollowsRequests(Apply(s, ops[0]), ops[1..]);
    }
  }

  // ---- when the other calls succeed ----

  /** createPublisher succeeds iff the topic is registered and has a publisher already, or the service
      creates the publisher and then the writer. */
  lemma CreatePublisherSucceedsIff(s: Registry, t: string, publisherOk: bool, writerOk: bool)
    requires Inv(s)
    ensures CreatePublisher(s, t, publisherOk, writerOk).result
            <==> && t in s.topics && s.topics[t].topic != NIL
                 && (s.topics[t].publisher != NIL || (publisherOk && writerOk))
  {
    if t in s.topics {
      assert InvOf(s, t);
    }
  }

  /** addPartition succeeds iff there is a group; setMaxDataRate iff the rate is positive and the reader
      recorded; addCallback iff the reader is recorded; unregisterTopic iff there is a group, all of whose
      emitters it stops. Failing, they change nothing. */
  lemma OtherCallsSucceedIff(s: Registry, t: string, r: string, name: string, rate: int, refused: set<Handle>,
                             messageType: nat, func: nat, queue: bool, async: bool, attached: bool)
    requires Inv(s)
    ensures var step := AddPartition(s, t, name); (step.result <==> t in s.topics) && (!step.result ==> step.next == s)
    ensures var step := SetMaxDataRate(s, t, r, rate, refused);
            (step.result <==> rate >= 1 && t in s.topics && r in s.topics[t].readers) && (!step.result ==> step.next == s)
    ensures var step := AddCallback(s, t, r, messageType, func, queue, async, attached);
            (step.result <==> t in s.topics && r in s.topics[t].readers) && (!step.result ==> step.next == s)
    ensures var u := UnregisterTopic(s, t);
            && (u.result <==> t in s.topics) && u.next.topics == s.topics - {t}
            && (!u.result ==> u.next == s && u.clean && u.stopped == map[])
            && (u.result ==>
                  u.stopped.Keys == s.topics[t].emitters.Keys && forall q :: q in u.stopped ==> !u.stopped[q].Joinable())
  {
    if t in s.topics {
      assert InvOf(s, t);
      assert r in s.topics[t].readers ==> ReaderOk(t, s.topics[t], s.dds, r);
    }
    hide Teardown;
  }
}
