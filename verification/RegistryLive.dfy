/**
  What the live entities of a topic were created with or last set to, after any run.
*/
module RegistryLive {
  import opened Collections
  import opened Dds
  import opened Emitters
  import opened RegistrySpec
  import opened RegistryInvariant
  import opened RegistrySteps
  import opened RegistryTeardown
  import opened RegistryOperations
  import opened RegistryRuns
  import opened RegistryReplace
  import opened RegistryTheorems
  import opened RegistryForever
  import opened RegistryFrame
  import opened RegistrySettings
  import Names

  // ---- one registerTopic ----

  predicate HasEntity(s: Registry, h: Handle, e: Entity) {
    h in s.dds.entities && s.dds.entities[h] == e
  }

  /** registerTopic makes a topic of that name with a listener of its own, which has no handler, or changes nothing. */
  lemma TopicDelivers(s: Registry, t: string, preset: int, topicOk: bool, refused: set<Handle>)
    requires Inv(s)
    ensures var o := RegisterTopic(s, t, preset, topicOk, refused);
            if !MakesTopic(s, t, topicOk) then o.Finished? ==> o.step.next == s
            else
              && o.Finished? && t in o.step.next.topics
              && var s', g' := o.step.next, o.step.next.topics[t];
              && g'.topic !in s.dds.entities && HasEntity(s', g'.topic, Topic(t, g'.topicListener))
              && g'.topicListener !in s.listeners && s'.listeners == s.listeners[g'.topicListener := NIL]
  {
    assert s.dds.next != NIL && s.dds.next !in s.dds.entities && s.nextListener !in s.listeners;
    var (s1, h) := AddTopic(s, t, topicOk);
    TopicKeepsSettings(s, t, topicOk);
    if MakesTopic(s, t, topicOk) {
      PresetKeepsTopics(s1, t, preset, refused, h);
      PresetChanges(s1, t, preset, refused);
      assert t in s1.topics && HasEntity(s1, h, Topic(t, s1.topics[t].topicListener));
      hide Inv, RegisterQos;
    } else {
      hide Inv, RegisterQos;
    }
  }

  lemma PresetKeepsTopics(s: Registry, t: string, preset: int, refused: set<Handle>, h: Handle)
    ensures var s' := RegisterQos(s, t, preset, refused).next;
            && s'.listeners == s.listeners
            && (h in s.dds.entities && s.dds.entities[h].Topic? ==> HasEntity(s', h, s.dds.entities[h]))
  {
  }

  // ---- one createPublisher ----

  predicate Registered(s: Registry, t: string) {
    t in s.topics && s.topics[t].topic != NIL
  }

  /** createPublisher makes a publisher with the stored QoS, partitions included, and then a writer of the
      topic on it with the stored QoS and a listener that knows the current handler. */
  lemma PublisherDelivers(s: Registry, t: string, a: bool, b: bool)
    requires Inv(s)
    ensures var s' := CreatePublisher(s, t, a, b).next;
            if !(Registered(s, t) && s.topics[t].publisher == NIL && a) then s' == s
            else
              && t in s'.topics
              && var g, g' := s.topics[t], s'.topics[t];
              && g'.publisher !in s.dds.entities && HasEntity(s', g'.publisher, Publisher(g.pubQos))
              && (!b ==> g'.writer == NIL && s'.listeners == s.listeners)
              && (b ==>
                    && g'.writer !in s.dds.entities && g'.writerListener !in s.listeners
                    && HasEntity(s', g'.writer, Writer(g'.publisher, g.topic, g'.writerListener, g.writerQos))
                    && s'.listeners == s.listeners[g'.writerListener := s.wlHandler])
  {
    if t in s.topics {
      assert InvOf(s, t);
    }
  }

  // ---- one createSubscriber ----

  predicate CanSubscribe(s: Registry, t: string, r: string) {
    r != "" && Registered(s, t) && r !in s.topics[t].readers
  }

  /** A reader of this topic, or of a filtered topic of this name and expression, if a filter was asked for. */
  predicate ReadsFrom(s: Registry, e: Entity, topic: Handle, name: string, filter: string) {
    && e.Reader?
    && if filter == "" then e.description == topic else HasEntity(s, e.description, FilteredTopic(name, topic, filter))
  }

  /** createSubscriber makes a missing subscriber with the stored QoS, partitions included, even if it then
      fails. If it succeeds there is a new reader on it, with the stored QoS, of the topic or of a filtered
      topic called topic_reader_0 with the filter asked for, and with a listener of its own. */
  lemma SubscriberDelivers(s: Registry, t: string, r: string, filter: string, a: bool, b: bool, c: bool)
    requires Inv(s)
    ensures var step := CreateSubscriber(s, t, r, filter, a, b, c); var s' := step.next;
            if !CanSubscribe(s, t, r) then s' == s
            else
              && t in s'.topics
              && var g, g' := s.topics[t], s'.topics[t];
              && (if g.subscriber == NIL && a
                  then g'.subscriber !in s.dds.entities && HasEntity(s', g'.subscriber, Subscriber(g.subQos))
                  else g'.subscriber == g.subscriber)
              && (!step.result ==> g'.readers == g.readers && s'.listeners == s.listeners)
              && (step.result ==>
                    && r in g'.readers && g'.readers == g.readers[r := g'.readers[r]]
                    && r in g'.readerListeners
                    && var h, l := g'.readers[r], g'.readerListeners[r];
                    && h !in s.dds.entities && h in s'.dds.entities && l !in s.listeners
                    && ReadsFrom(s', s'.dds.entities[h], g.topic, t + "_" + r + "_0", filter)
                    && s'.dds.entities[h] == Reader(g'.subscriber, s'.dds.entities[h].description, l, g.readerQos)
                    && s'.listeners == s.listeners[l := s.rlHandler])
  {
    if CanSubscribe(s, t, r) {
      assert InvOf(s, t);
      assert Names.FilterName(t, r, 0) == t + "_" + r + "_0";
      assert s.nextListener !in s.listeners && s.dds.next !in s.dds.entities;
      var s1, name := EnsureSubscriber(s, t, a), Names.FilterName(t, r, 0);
      EnsuredDelivers(s, t, a);
      hide Inv, InvOf, EnsureSubscriber, AddReader, AddFilter, Names.FilterName;
      if s1.topics[t].subscriber == NIL {
      } else if filter == "" {
        AddReaderDelivers(s1, t, r, s1.topics[t].topic, c);
      } else {
        NewFilterDelivers(s1, t, name, filter, b);
        var (s2, f) := AddFilter(s1, t, name, filter, b);
        AddReaderDelivers(s2, t, r, f, c);
      }
    } else if t in s.topics {
      assert InvOf(s, t);
    }
  }

  lemma EnsuredDelivers(s: Registry, t: string, a: bool)
    requires t in s.topics
    ensures var s1, g := EnsureSubscriber(s, t, a), s.topics[t];
            && s1 == s.(dds := s1.dds, topics := s1.topics) && t in s1.topics
            && s1.topics[t] == g.(subscriber := s1.topics[t].subscriber)
            && s1.dds.next >= s.dds.next
            && (forall k :: k in s1.dds.entities ==> k in s.dds.entities || s.dds.next <= k < s1.dds.next)
            && (if g.subscriber == NIL && a && s.dds.next != NIL
                then
                  && s1.topics[t].subscriber == s.dds.next && s.dds.next < s1.dds.next
                  && HasEntity(s1, s.dds.next, Subscriber(g.subQos))
                else s1 == s)
  {
  }

  lemma NewFilterDelivers(s: Registry, t: string, name: string, filter: string, accept: bool)
    requires t in s.topics
    ensures var (s2, h) := AddFilter(s, t, name, filter, accept);
            && s2 == s.(dds := s2.dds, topics := s2.topics) && t in s2.topics
            && s2.topics[t] == s.topics[t].(filteredTopics := s2.topics[t].filteredTopics)
            && s2.dds.next >= s.dds.next
            && (forall k :: k in s.dds.entities && k != s.dds.next ==> HasEntity(s2, k, s.dds.entities[k]))
            && (h != NIL ==>
                  && h == s.dds.next && s2.dds.next == h + 1
                  && HasEntity(s2, h, FilteredTopic(name, s.topics[t].topic, filter)))
  {
  }

  lemma AddReaderDelivers(s: Registry, t: string, r: string, d: Handle, accept: bool)
    requires t in s.topics
    ensures var step := AddReader(s, t, r, d, accept);
            var s', g, h, l := step.next, s.topics[t], s.dds.next, s.nextListener;
            && (!step.result ==> s' == s)
            && (step.result ==>
                  && t in s'.topics
                  && s'.topics[t] == g.(readers := g.readers[r := h], readerListeners := g.readerListeners[r := l])
                  && HasEntity(s', h, Reader(g.subscriber, d, l, g.readerQos))
                  && (forall k :: k in s.dds.entities && k != h ==> HasEntity(s', k, s.dds.entities[k]))
                  && s'.listeners == s.listeners[l := s.rlHandler])
  {
  }

  // ---- operations that set no QoS leave what lives as it is ----

  /** Entities are made and deleted, and none is changed. */
  ghost predicate Unchanged(p: Participant, q: Participant) {
    && p.next <= q.next
    && forall h :: h in q.entities && h < p.next ==> h in p.entities && q.entities[h] == p.entities[h]
  }

  predicate SetsQos(op: Op) {
    || op.Register? || op.ApplyPreset? || op.ReaderQosTo? || op.WriterQosTo?
    || op.PublisherQosTo? || op.SubscriberQosTo? || op.MaxDataRate?
  }

  lemma ApplyChangesNone(s: Registry, op: Op)
    requires Inv(s) && Enabled(s, op) && !SetsQos(op)
    ensures Unchanged(s.dds, Apply(s, op).dds)
  {
    hide CreateSubscriber, CreatePublisher, ReplaceFilter;
    match op
    case Subscribe(t, r, filter, a, b, c) => SubscribeChangesNone(s, t, r, filter, a, b, c);
    case Publish(t, a, b) => PublishChangesNone(s, t, a, b);
    case Refilter(t, r, filter, env) => RefilterChangesNone(s, t, r, filter, env);
    case Unregister(t) =>
      if t in s.topics {
        TeardownResult(s, t);
        hide Teardown;
      }
    case _ =>
  }

  lemma UnchangedOn(p: Participant, q: Participant, u: Participant)
    requires Unchanged(p, q) && Unchanged(q, u)
    ensures Unchanged(p, u)
  {
  }

  lemma CreationChangesNone(s: Registry, t: string, r: string, a: bool, name: string, filter: string, d: Handle, b: bool, c: bool)
    requires t in s.topics
    ensures Unchanged(s.dds, EnsureSubscriber(s, t, a).dds)
    ensures Unchanged(s.dds, AddFilter(s, t, name, filter, b).0.dds)
    ensures Unchanged(s.dds, AddReader(s, t, r, d, c).next.dds)
  {
  }

  lemma SubscribeChangesNone(s: Registry, t: string, r: string, filter: string, a: bool, b: bool, c: bool)
    ensures Unchanged(s.dds, CreateSubscriber(s, t, r, filter, a, b, c).next.dds)
  {
    if r != "" && Registered(s, t) && r !in s.topics[t].readerListeners {
      var s1, name := EnsureSubscriber(s, t, a), Names.FilterName(t, r, 0);
      CreationChangesNone(s, t, r, a, name, filter, NIL, b, c);
      hide EnsureSubscriber, AddFilter, AddReader, Unchanged;
      if s1.topics[t].subscriber == NIL {
      } else if filter == "" {
        CreationChangesNone(s1, t, r, a, name, filter, s1.topics[t].topic, b, c);
        UnchangedOn(s.dds, s1.dds, AddReader(s1, t, r, s1.topics[t].topic, c).next.dds);
      } else {
        CreationChangesNone(s1, t, r, a, name, filter, NIL, b, c);
        var (s2, h) := AddFilter(s1, t, name, filter, b);
        UnchangedOn(s.dds, s1.dds, s2.dds);
        if h != NIL {
          CreationChangesNone(s2, t, r, a, name, filter, h, b, c);
          UnchangedOn(s.dds, s2.dds, AddReader(s2, t, r, h, c).next.dds);
        }
      }
    }
  }

  lemma PublishChangesNone(s: Registry, t: string, a: bool, b: bool)
    ensures Unchanged(s.dds, CreatePublisher(s, t, a, b).next.dds)
  {
    if t in s.topics {
      var s1 := AddPublisher(s, t, a);
      assert t in s1.topics && Unchanged(s.dds, s1.dds) && Unchanged(s1.dds, AddWriter(s1, t, b).next.dds);
    }
  }

  lemma RefilterChangesNone(s: Registry, t: string, r: string, filter: string, env: ReplaceEnv)
    requires Inv(s)
    ensures Unchanged(s.dds, ReplaceFilter(s, t, r, filter, env).next.dds)
  {
    TwoHalves(s, t, r, filter, env);
    if Replaceable(s, t, r) && env.containedOk {
      var d := DescriptionOf(s, t, r);
      var drop := s.dds.entities[d].FilteredTopic? && env.filterDeleteOk;
      var s2 := TakenDown(s, t, r, s.topics[t].readers[r], d, drop);
      var name := NextFilterName(t, r, FilterNameOf(s.dds, d));
      assert Unchanged(s.dds, s2.dds);
      RebuildChangesNone(s2, t, r, filter, name, env);
      hide *;
      UnchangedOn(s.dds, s2.dds, Rebuild(s2, t, r, filter, name, env).next.dds);
    }
    hide ReplaceFilter, Rebuild;
  }

  lemma RebuildChangesNone(s: Registry, t: string, r: string, filter: string, name: string, env: ReplaceEnv)
    requires t in s.topics && r in s.topics[t].readerListeners
    ensures Unchanged(s.dds, Rebuild(s, t, r, filter, name, env).next.dds)
  {
    CreationChangesNone(s, t, r, true, name, filter, NIL, env.filterOk, true);
    var (s3, f) := AddFilter(s, t, name, filter, env.filterOk);
    FinishChangesNone(s, t, r, s.topics[t].topic, env);
    FinishChangesNone(s3, t, r, f, env);
    hide FinishReplace, AddFilter;
  }

  lemma FinishChangesNone(s: Registry, t: string, r: string, d: Handle, env: ReplaceEnv)
    requires t in s.topics && r in s.topics[t].readerListeners
    ensures Unchanged(s.dds, FinishReplace(s, t, r, d, env).next.dds)
  {
  }

  // ---- operations that set QoS leave the entities of other topics as they are ----

  ghost predicate UnchangedBut(s: Registry, s': Registry, x: string) {
    forall h: Handle :: h in s'.dds.entities && h < s.dds.next && !GroupOwns(s, x, h) ==>
      h in s.dds.entities && s'.dds.entities[h] == s.dds.entities[h]
  }

  lemma ReaderQosChangesOwn(s: Registry, x: string, qos: ReaderQos, refused: set<Handle>)
    requires Inv(s)
    ensures UnchangedBut(s, SetReaderQos(s, x, qos, refused), x)
    ensures forall h: Handle :: GroupOwns(SetReaderQos(s, x, qos, refused), x, h) ==> GroupOwns(s, x, h)
  {
    var g, s' := GroupOrNew(s, x), SetReaderQos(s, x, qos, refused);
    forall h: Handle | h in s.dds.entities && h in g.readers.Values ensures GroupOwns(s, x, h) {
      var r :| r in g.readers && g.readers[r] == h;
      assert OwnsReader(g, h);
    }
    SameOwnership(g, s'.topics[x]);
  }

  lemma WriterQosChangesOwn(s: Registry, x: string, qos: int, refused: set<Handle>)
    ensures UnchangedBut(s, SetWriterQos(s, x, qos, refused), x)
  {
  }

  lemma GroupQosChangesOwn(s: Registry, x: string, qos: GroupQos, refused: set<Handle>)
    ensures UnchangedBut(s, SetPublisherQos(s, x, qos, refused), x)
    ensures UnchangedBut(s, SetSubscriberQos(s, x, qos, refused), x)
  {
  }

  lemma PresetChangesOwn(s: Registry, x: string, preset: int, refused: set<Handle>)
    requires Inv(s)
    ensures UnchangedBut(s, RegisterQos(s, x, preset, refused).next, x)
  {
    var s1 := SetReaderQos(s, x, PresetReaderQos(preset), refused);
    ReaderQosChangesOwn(s, x, PresetReaderQos(preset), refused);
    WriterQosChangesOwn(s1, x, preset, refused);
    hide SetReaderQos, SetWriterQos, Inv, GroupOwns;
  }

  // ---- what lives, and what it was made with or last set to ----

  datatype LiveReader = LiveReader(qos: ReaderQos, filter: string)

  /** The QoS of the live entities of a topic, and the QoS and filter of one of its readers. */
  datatype Live = Live(
    pub: Option<GroupQos>, sub: Option<GroupQos>, writer: Option<int>, reader: Option<LiveReader>)

  const NOTHING_LIVES := Live(None, None, None, None)

  function PubOf(s: Registry, h: Handle): Option<GroupQos> {
    if h in s.dds.entities && s.dds.entities[h].Publisher? then Some(s.dds.entities[h].groupQos) else None
  }

  function SubOf(s: Registry, h: Handle): Option<GroupQos> {
    if h in s.dds.entities && s.dds.entities[h].Subscriber? then Some(s.dds.entities[h].groupQos) else None
  }

  function WriterOf(s: Registry, h: Handle): Option<int> {
    if h in s.dds.entities && s.dds.entities[h].Writer? then Some(s.dds.entities[h].writerQos) else None
  }

  function ReaderOf(s: Registry, h: Handle): Option<LiveReader> {
    if h in s.dds.entities && s.dds.entities[h].Reader?
    then Some(LiveReader(s.dds.entities[h].readerQos, FilterAt(s, s.dds.entities[h].description))) else None
  }

  function FilterAt(s: Registry, d: Handle): string {
    if d in s.dds.entities && s.dds.entities[d].FilteredTopic? then s.dds.entities[d].expression else ""
  }

  function LiveOf(s: Registry, t: string, r: string): Live {
    var g := GroupOrNew(s, t);
    Live(PubOf(s, g.publisher), SubOf(s, g.subscriber), WriterOf(s, g.writer),
         if r in g.readers then ReaderOf(s, g.readers[r]) else None)
  }

  /** set_qos on an entity that lives and does not refuse. */
  function SetUnless<T>(was: Option<T>, h: Handle, refused: set<Handle>, qos: T): Option<T> {
    if was.Some? && h !in refused then Some(qos) else was
  }

  function SetReader(l: Live, h: Handle, refused: set<Handle>, qos: ReaderQos): Live {
    if l.reader.Some? && h !in refused then l.(reader := Some(LiveReader(qos, l.reader.value.filter))) else l
  }

  function ReaderHandle(s: Registry, t: string, r: string): Handle {
    if r in GroupOrNew(s, t).readers then GroupOrNew(s, t).readers[r] else NIL
  }

  ghost function NextLive(s: Registry, op: Op, t: string, r: string, l: Live): Live
    requires Inv(s)
  {
    var st, g := SettingsOf(s, t), GroupOrNew(s, t);
    if !IsFor(op, t) then l
    else
      match op
      case Publish(_, a, b) =>
        if Registered(s, t) && l.pub == None && a
        then l.(pub := Some(st.pub), writer := if b then Some(st.writer) else None) else l
      case Subscribe(_, q, filter, a, b, c) =>
        if !CanSubscribe(s, t, q) then l
        else
          l.(sub := if l.sub == None && a then Some(st.sub) else l.sub,
             reader := if q == r && CreateSubscriber(s, t, q, filter, a, b, c).result
                       then Some(LiveReader(st.reader, filter)) else l.reader)
      case Refilter(_, q, filter, env) =>
        if q != r then l
        else if ReplaceFilter(s, t, q, filter, env).result then l.(reader := Some(LiveReader(st.reader, filter)))
        else if Loses(s, op, t, r) then l.(reader := None) else l
      case ApplyPreset(_, preset, refused) =>
        if st.known && st.preset == -1 && 0 <= preset <= 3
        then
          SetReader(l, ReaderHandle(s, t, r), refused, ReaderQos(preset, 0))
            .(writer := SetUnless(l.writer, g.writer, refused, preset))
        else l
      case ReaderQosTo(_, qos, refused) => SetReader(l, ReaderHandle(s, t, r), refused, qos)
      case WriterQosTo(_, qos, refused) => l.(writer := SetUnless(l.writer, g.writer, refused, qos))
      case PublisherQosTo(_, qos, refused) => l.(pub := SetUnless(l.pub, g.publisher, refused, qos))
      case SubscriberQosTo(_, qos, refused) => l.(sub := SetUnless(l.sub, g.subscriber, refused, qos))
      case MaxDataRate(_, q, rate, refused) =>
        if q == r && rate >= 1
        then SetReader(l, ReaderHandle(s, t, r), refused, ReaderQos(st.reader.policies, rate * 1000000 % 0x1_0000_0000)) else l
      case Unregister(_) => NOTHING_LIVES
      case _ => l
  }

  ghost function LiveAfter(s: Registry, ops: seq<Op>, t: string, r: string, l: Live): Live
    requires Inv(s) && Legal(s, ops)
    decreases |ops|
  {
    if ops == [] then l
    else
      ApplyInv(s, ops[0]);
      LiveAfter(Apply(s, ops[0]), ops[1..], t, r, NextLive(s, ops[0], t, r, l))
  }

  // ---- what stays ----

  /** An entity the group records in both states, other than a reader, is there in both. */
  lemma FieldKept(s: Registry, s': Registry, t: string)
    requires Inv(s) && Inv(s') && t in s.topics && t in s'.topics
    requires OwnedKept(s, s', t)
    ensures var g, g' := s.topics[t], s'.topics[t];
            && (g'.publisher == g.publisher ==> PubOf(s', g.publisher) == PubOf(s, g.publisher))
            && (g'.subscriber == g.subscriber ==> SubOf(s', g.subscriber) == SubOf(s, g.subscriber))
            && (g'.writer == g.writer ==> WriterOf(s', g.writer) == WriterOf(s, g.writer))
  {
    assert InvOf(s, t) && InvOf(s', t);
    assert NIL !in s.dds.entities && NIL !in s'.dds.entities;
  }

  /** A reader that keeps its handle and lives on keeps its QoS and its filter. */
  lemma ReaderKept(s: Registry, s': Registry, t: string, r: string, free: string)
    requires Inv(s) && Inv(s') && t in s.topics && t in s'.topics && Evolves(s, s', t, free) && r != free
    requires OwnedKept(s, s', t)
    requires r in s.topics[t].readers
    ensures r in s'.topics[t].readers && ReaderOf(s', s'.topics[t].readers[r]) == ReaderOf(s, s.topics[t].readers[r])
  {
    var g, h := s.topics[t], s.topics[t].readers[r];
    assert InvOf(s, t) && ReaderOk(t, g, s.dds, r) && OwnsReader(g, h);
    if h in s.dds.entities {
      var d := s.dds.entities[h].description;
      assert s.dds.WellReferenced(s.dds.entities[h]) && s'.dds.WellReferenced(s'.dds.entities[h]);
      ReferenceIsOwned(s, t, r);
    }
  }

  lemma ReferenceIsOwned(s: Registry, t: string, r: string)
    requires Inv(s) && t in s.topics && r in s.topics[t].readers && s.topics[t].readers[r] in s.dds.entities
    requires s.dds.entities[s.topics[t].readers[r]].Reader?
    ensures Owns(s.topics[t], s.dds.entities[s.topics[t].readers[r]].description)
  {
    var g, h := s.topics[t], s.topics[t].readers[r];
    assert InvOf(s, t) && ReaderOk(t, g, s.dds, r) && OwnsReader(g, h);
    ReferenceStaysInside(t, g, s.dds, s.listeners, s.rlHandler, s.wlHandler, h, s.dds.entities[h].description);
  }

  /** What the topic's group owns and still lives is as it was. */
  ghost predicate OwnedKept(s: Registry, s': Registry, t: string) {
    forall h: Handle :: GroupOwns(s, t, h) && h in s'.dds.entities ==>
      h in s.dds.entities && s'.dds.entities[h] == s.dds.entities[h]
  }

  lemma UnchangedKeepsOwned(s: Registry, s': Registry, t: string)
    requires Inv(s) && Unchanged(s.dds, s'.dds)
    ensures OwnedKept(s, s', t)
  {
    if t in s.topics {
      HandlesAreOld(s, t);
    }
  }

  lemma RegisterChangesOwn(s: Registry, x: string, preset: int, accept: bool, refused: set<Handle>)
    requires Inv(s)
    ensures var o := RegisterTopic(s, x, preset, accept, refused); o.Finished? ==> UnchangedBut(s, o.step.next, x)
  {
    if s.joined && !Registered(s, x) {
      var (s1, h) := AddTopic(s, x, accept);
      AddTopicInv(s, x, accept);
      PresetChangesOwn(s1, x, preset, refused);
      if h != NIL {
        assert x in s.topics ==> InvOf(s, x);
        assert forall k: Handle :: GroupOwns(s1, x, k) ==> k == h;
        hide RegisterQos;
      }
    }
  }

  lemma RateChangesOwn(s: Registry, x: string, q: string, rate: int, refused: set<Handle>)
    ensures UnchangedBut(s, SetMaxDataRate(s, x, q, rate, refused).next, x)
  {
    var h := GetReader(s, x, q);
    assert h != NIL ==> OwnsReader(s.topics[x], h) && GroupOwns(s, x, h);
  }

  lemma QosOpChangesOwn(s: Registry, op: Op)
    requires Inv(s) && Enabled(s, op) && SetsQos(op)
    ensures UnchangedBut(s, Apply(s, op), op.t)
  {
    hide RegisterTopic, RegisterQos, SetReaderQos, SetWriterQos, SetPublisherQos, SetSubscriberQos, SetMaxDataRate;
    match op
    case Register(x, preset, ok, refused) => RegisterChangesOwn(s, x, preset, ok, refused);
    case ApplyPreset(x, preset, refused) => PresetChangesOwn(s, x, preset, refused);
    case ReaderQosTo(x, qos, refused) => ReaderQosChangesOwn(s, x, qos, refused);
    case WriterQosTo(x, qos, refused) => WriterQosChangesOwn(s, x, qos, refused);
    case PublisherQosTo(x, qos, refused) => GroupQosChangesOwn(s, x, qos, refused);
    case SubscriberQosTo(x, qos, refused) => GroupQosChangesOwn(s, x, qos, refused);
    case MaxDataRate(x, q, rate, refused) => RateChangesOwn(s, x, q, rate, refused);
  }

  // ---- operations for other topics ----

  lemma OthersKeepLive(s: Registry, op: Op, t: string, r: string)
    requires Inv(s) && Enabled(s, op) && !IsFor(op, t)
    ensures LiveOf(Apply(s, op), t, r) == LiveOf(s, t, r)
  {
    var s' := Apply(s, op);
    ApplyInv(s, op);
    OtherGroupKept(s, op, t);
    ApplyEvolves(s, op, t);
    OthersKeepOwned(s, op, t);
    hide Apply, ReaderOf;
    if t in s.topics {
      FieldKept(s, s', t);
      if r in s.topics[t].readers {
        ReadersAreNamed(s, t);
        ReaderKept(s, s', t, r, "");
      }
    }
  }

  lemma OthersKeepOwned(s: Registry, op: Op, t: string)
    requires Inv(s) && Enabled(s, op) && !IsFor(op, t)
    ensures OwnedKept(s, Apply(s, op), t)
  {
    if SetsQos(op) {
      QosOpChangesOwn(s, op);
      if t in s.topics {
        HandlesAreOld(s, t);
      }
    } else {
      ApplyChangesNone(s, op);
      UnchangedKeepsOwned(s, Apply(s, op), t);
    }
    hide Apply;
  }

  // ---- operations for the topic itself ----

  /** What keeps its handle is as it was, but for the reader called free. */
  ghost predicate Keeps(s: Registry, s': Registry, t: string, r: string, free: string)
  {
    var g, g', l, l' := GroupOrNew(s, t), GroupOrNew(s', t), LiveOf(s, t, r), LiveOf(s', t, r);
    && (g'.publisher == g.publisher ==> l'.pub == l.pub)
    && (g'.subscriber == g.subscriber ==> l'.sub == l.sub)
    && (g'.writer == g.writer ==> l'.writer == l.writer)
    && (r in g.readers && r != free ==> l'.reader == l.reader)
  }

  lemma EvolutionKeeps(s: Registry, s': Registry, t: string, r: string, free: string)
    requires Inv(s) && Inv(s') && t in s.topics && t in s'.topics && Evolves(s, s', t, free)
    requires Unchanged(s.dds, s'.dds)
    ensures Keeps(s, s', t, r, free) && (free == "" ==> r in s.topics[t].readers ==> r != free)
  {
    UnchangedKeepsOwned(s, s', t);
    FieldKept(s, s', t);
    if r in s.topics[t].readers {
      ReadersAreNamed(s, t);
      if r != free {
        ReaderKept(s, s', t, r, free);
      }
    }
    hide Inv, Evolves, OwnedKept, Unchanged, PubOf, SubOf, WriterOf, ReaderOf;
  }

  /** No handle means that nothing lives, and a handle of anything but a reader that it does. */
  lemma NothingAtNil(s: Registry, t: string, r: string)
    requires Inv(s) && t in s.topics
    ensures var g, l := s.topics[t], LiveOf(s, t, r);
            && (g.publisher == NIL <==> l.pub == None)
            && (g.subscriber == NIL <==> l.sub == None)
            && (g.writer == NIL <==> l.writer == None)
            && (g.publisher == NIL ==> g.writer == NIL)
  {
    assert InvOf(s, t);
  }

  lemma PublishKeepsLive(s: Registry, t: string, a: bool, b: bool, r: string)
    requires Inv(s) && t in s.topics
    ensures Keeps(s, CreatePublisher(s, t, a, b).next, t, r, "") && "" !in s.topics[t].readers
  {
    CreatePublisherInv(s, t, a, b);
    PublishChangesNone(s, t, a, b);
    PublishEvolves(s, t, a, b, t);
    PublishChanges(s, t, a, b);
    hide *;
    EvolutionKeeps(s, CreatePublisher(s, t, a, b).next, t, r, "");
    ReadersAreNamed(s, t);
  }

  lemma PublishMovesLive(s: Registry, t: string, a: bool, b: bool, r: string)
    requires Inv(s)
    ensures LiveOf(CreatePublisher(s, t, a, b).next, t, r) == NextLive(s, Publish(t, a, b), t, r, LiveOf(s, t, r))
  {
    PublisherDelivers(s, t, a, b);
    if t in s.topics {
      NothingAtNil(s, t, r);
      PublishChanges(s, t, a, b);
      PublishKeepsLive(s, t, a, b, r);
      hide CreatePublisher, ReaderOf, Inv;
    }
  }


  lemma SubscribeKeepsLive(s: Registry, t: string, q: string, filter: string, a: bool, b: bool, c: bool, r: string)
    requires Inv(s) && t in s.topics
    ensures Keeps(s, CreateSubscriber(s, t, q, filter, a, b, c).next, t, r, "") && "" !in s.topics[t].readers
  {
    CreateSubscriberInv(s, t, q, filter, a, b, c);
    SubscribeChangesNone(s, t, q, filter, a, b, c);
    SubscribeEvolves(s, t, q, filter, a, b, c, t);
    SubscribeChanges(s, t, q, filter, a, b, c);
    hide *;
    EvolutionKeeps(s, CreateSubscriber(s, t, q, filter, a, b, c).next, t, r, "");
    ReadersAreNamed(s, t);
  }

  lemma NewReaderLives(s: Registry, t: string, q: string, filter: string, a: bool, b: bool, c: bool)
    requires Inv(s) && CanSubscribe(s, t, q) && CreateSubscriber(s, t, q, filter, a, b, c).result
    ensures var s' := CreateSubscriber(s, t, q, filter, a, b, c).next;
            && t in s'.topics && q in s'.topics[t].readers
            && ReaderOf(s', s'.topics[t].readers[q]) == Some(LiveReader(s.topics[t].readerQos, filter))
  {
    var s' := CreateSubscriber(s, t, q, filter, a, b, c).next;
    SubscriberDelivers(s, t, q, filter, a, b, c);
    CreateSubscriberInv(s, t, q, filter, a, b, c);
    SubscribeChanges(s, t, q, filter, a, b, c);
    assert s'.topics[t].topic in s'.dds.entities && s'.dds.entities[s'.topics[t].topic].Topic? by {
      hide CreateSubscriber;
      assert InvOf(s', t);
    }
    hide CreateSubscriber, Inv;
  }

  lemma SubscribeMovesLive(s: Registry, t: string, q: string, filter: string, a: bool, b: bool, c: bool, r: string)
    requires Inv(s)
    ensures LiveOf(CreateSubscriber(s, t, q, filter, a, b, c).next, t, r)
         == NextLive(s, Subscribe(t, q, filter, a, b, c), t, r, LiveOf(s, t, r))
  {
    SubscriberDelivers(s, t, q, filter, a, b, c);
    if CanSubscribe(s, t, q) {
      NothingAtNil(s, t, r);
      SubscribeChanges(s, t, q, filter, a, b, c);
      SubscribeKeepsLive(s, t, q, filter, a, b, c, r);
      if CreateSubscriber(s, t, q, filter, a, b, c).result {
        NewReaderLives(s, t, q, filter, a, b, c);
      }
      hide CreateSubscriber, ReaderOf, Inv, ReadsFrom;
    } else {
      hide CreateSubscriber, Inv, LiveOf;
    }
  }

  lemma RefilterKeepsLive(s: Registry, t: string, q: string, filter: string, env: ReplaceEnv, r: string)
    requires Inv(s) && t in s.topics
    ensures Keeps(s, ReplaceFilter(s, t, q, filter, env).next, t, r, q)
  {
    ReplaceFilterInv(s, t, q, filter, env);
    RefilterChangesNone(s, t, q, filter, env);
    RefilterEvolves(s, t, q, filter, env, t);
    RefilterChanges(s, t, q, filter, env);
    hide *;
    EvolutionKeeps(s, ReplaceFilter(s, t, q, filter, env).next, t, r, q);
  }

  lemma ReplacedReaderLives(s: Registry, t: string, r: string, filter: string, env: ReplaceEnv)
    requires Inv(s) && t in s.topics && ReplaceFilter(s, t, r, filter, env).result
    ensures var s' := ReplaceFilter(s, t, r, filter, env).next;
            && t in s'.topics && r in s'.topics[t].readers
            && ReaderOf(s', s'.topics[t].readers[r]) == Some(LiveReader(s.topics[t].readerQos, filter))
  {
    var s' := ReplaceFilter(s, t, r, filter, env).next;
    ReplaceFilterDelivers(s, t, r, filter, env);
    ReplaceFilterInv(s, t, r, filter, env);
    RefilterChanges(s, t, r, filter, env);
    hide ReplaceFilter, NextFilterName;
    assert InvOf(s', t);
    assert s'.topics[t].topic == s.topics[t].topic;
    assert s'.topics[t].readers != map[];
    assert s'.topics[t].topic != NIL && s'.topics[t].topic in s'.dds.entities && s'.dds.entities[s'.topics[t].topic].Topic?;
  }

  /** A replaceFilter that gets nowhere leaves the reader; one that gets half way loses it. */
  lemma RefusedReaderLives(s: Registry, t: string, r: string, filter: string, env: ReplaceEnv)
    requires Inv(s) && t in s.topics && !ReplaceFilter(s, t, r, filter, env).result
    ensures LiveOf(ReplaceFilter(s, t, r, filter, env).next, t, r).reader
         == if Loses(s, Refilter(t, r, filter, env), t, r) then None else LiveOf(s, t, r).reader
  {
    ReplaceFilterSucceedsIff(s, t, r, filter, env);
    if Loses(s, Refilter(t, r, filter, env), t, r) {
      ReplaceFilterGoesStaleIff(s, t, r, filter, env);
      hide ReplaceFilter, Inv, Loses;
    } else {
      TwoHalves(s, t, r, filter, env);
      hide ReplaceFilter, Inv, NextNameTaken;
    }
  }

  lemma RefilterMovesReader(s: Registry, t: string, r: string, filter: string, env: ReplaceEnv)
    requires Inv(s) && t in s.topics
    ensures LiveOf(ReplaceFilter(s, t, r, filter, env).next, t, r).reader
         == if ReplaceFilter(s, t, r, filter, env).result then Some(LiveReader(s.topics[t].readerQos, filter))
            else if Loses(s, Refilter(t, r, filter, env), t, r) then None else LiveOf(s, t, r).reader
  {
    if ReplaceFilter(s, t, r, filter, env).result {
      ReplacedReaderLives(s, t, r, filter, env);
    } else {
      RefusedReaderLives(s, t, r, filter, env);
      hide LiveOf;
    }
    hide ReplaceFilter, PubOf, SubOf, WriterOf, ReaderOf, Inv, Loses;
  }

  lemma RefilterMovesLive(s: Registry, t: string, q: string, filter: string, env: ReplaceEnv, r: string)
    requires Inv(s)
    ensures LiveOf(ReplaceFilter(s, t, q, filter, env).next, t, r)
         == NextLive(s, Refilter(t, q, filter, env), t, r, LiveOf(s, t, r))
  {
    if t in s.topics {
      RefilterChanges(s, t, q, filter, env);
      RefilterKeepsLive(s, t, q, filter, env, r);
      RefilterMovesReader(s, t, q, filter, env);
      hide ReplaceFilter, PubOf, SubOf, WriterOf, ReaderOf, Inv, Loses;
    } else {
      assert ReplaceFilter(s, t, q, filter, env) == Step(s, false);
      hide ReplaceFilter, Inv, LiveOf;
    }
  }

  lemma RegisterMovesLive(s: Registry, t: string, preset: int, accept: bool, refused: set<Handle>, r: string)
    requires Inv(s)
    ensures var o := RegisterTopic(s, t, preset, accept, refused);
            LiveOf(if o.Threw? then s else o.step.next, t, r) == LiveOf(s, t, r)
  {
    RegisterChanges(s, t, preset, accept, refused);
    if s.joined && !Registered(s, t) && AddTopic(s, t, accept).1 != NIL {
      RegisterTopicInv(s, t, preset, accept, refused);
      assert t in s.topics ==> InvOf(s, t);
    } else {
      hide RegisterQos;
    }
  }

  lemma ReaderQosMovesLive(s: Registry, t: string, qos: ReaderQos, refused: set<Handle>, r: string)
    requires Inv(s)
    ensures LiveOf(SetReaderQos(s, t, qos, refused), t, r) == SetReader(LiveOf(s, t, r), ReaderHandle(s, t, r), refused, qos)
  {
    var g := GroupOrNew(s, t);
    assert r in g.readers ==> g.readers[r] in g.readers.Values;
  }

  lemma WriterQosMovesLive(s: Registry, t: string, qos: int, refused: set<Handle>, r: string)
    requires Inv(s)
    ensures var l := LiveOf(s, t, r);
            LiveOf(SetWriterQos(s, t, qos, refused), t, r)
            == l.(writer := SetUnless(l.writer, GroupOrNew(s, t).writer, refused, qos))
  {
  }

  lemma PresetIsNotLive(s: Registry, t: string, preset: int, r: string)
    requires t in s.topics
    ensures LiveOf(Put(s, t, s.topics[t].(qosPreset := preset)), t, r) == LiveOf(s, t, r)
  {
  }

  lemma AppliedPresetMovesLive(s: Registry, t: string, preset: int, refused: set<Handle>, r: string)
    requires Inv(s) && t in s.topics && s.topics[t].qosPreset == -1 && 0 <= preset <= LAST_PRESET
    ensures var l := LiveOf(s, t, r);
            LiveOf(RegisterQos(s, t, preset, refused).next, t, r)
            == SetReader(l, ReaderHandle(s, t, r), refused, PresetReaderQos(preset))
               .(writer := SetUnless(l.writer, s.topics[t].writer, refused, preset))
  {
    var s1 := SetReaderQos(s, t, PresetReaderQos(preset), refused);
    var s2, g, l := SetWriterQos(s1, t, preset, refused), s.topics[t], LiveOf(s, t, r);
    assert t in s2.topics;
    PresetIsNotLive(s2, t, preset, r);
    SetReaderQosInv(s, t, PresetReaderQos(preset), refused);
    assert GroupOrNew(s1, t).writer == g.writer;
    ReaderQosMovesLive(s, t, PresetReaderQos(preset), refused, r);
    WriterQosMovesLive(s1, t, preset, refused, r);
    assert LiveOf(RegisterQos(s, t, preset, refused).next, t, r)
           == SetReader(l, ReaderHandle(s, t, r), refused, PresetReaderQos(preset))
              .(writer := SetUnless(l.writer, g.writer, refused, preset)) by {
      hide LiveOf, SetReaderQos, SetWriterQos, SetUnless, ReaderHandle, Inv;
    }
  }

  lemma PresetMovesLive(s: Registry, t: string, preset: int, refused: set<Handle>, r: string)
    requires Inv(s)
    ensures LiveOf(RegisterQos(s, t, preset, refused).next, t, r)
         == NextLive(s, ApplyPreset(t, preset, refused), t, r, LiveOf(s, t, r))
  {
    if t in s.topics && s.topics[t].qosPreset == -1 && 0 <= preset <= LAST_PRESET {
      hide LiveOf, Inv, RegisterQos, ReaderHandle, SetUnless;
      AppliedPresetMovesLive(s, t, preset, refused, r);
      assert LiveOf(RegisterQos(s, t, preset, refused).next, t, r)
             == NextLive(s, ApplyPreset(t, preset, refused), t, r, LiveOf(s, t, r));
    } else {
      assert RegisterQos(s, t, preset, refused).next == s;
    }
  }

  lemma PublisherQosMovesLive(s: Registry, t: string, qos: GroupQos, refused: set<Handle>, r: string)
    requires Inv(s)
    ensures var l := LiveOf(s, t, r);
            LiveOf(SetPublisherQos(s, t, qos, refused), t, r)
            == l.(pub := SetUnless(l.pub, GroupOrNew(s, t).publisher, refused, qos))
  {
    if t in s.topics {
      assert InvOf(s, t);
    }
  }

  lemma SubscriberQosMovesLive(s: Registry, t: string, qos: GroupQos, refused: set<Handle>, r: string)
    requires Inv(s)
    ensures var l := LiveOf(s, t, r);
            LiveOf(SetSubscriberQos(s, t, qos, refused), t, r)
            == l.(sub := SetUnless(l.sub, GroupOrNew(s, t).subscriber, refused, qos))
  {
    if t in s.topics {
      assert InvOf(s, t);
    }
  }

  lemma RateMovesLive(s: Registry, t: string, q: string, rate: int, refused: set<Handle>, r: string)
    requires Inv(s)
    ensures LiveOf(SetMaxDataRate(s, t, q, rate, refused).next, t, r)
         == NextLive(s, MaxDataRate(t, q, rate, refused), t, r, LiveOf(s, t, r))
  {
    var h := GetReader(s, t, q);
    if rate >= 1 && h != NIL && h !in refused {
      assert InvOf(s, t) && ReaderOk(t, s.topics[t], s.dds, q);
      var qos := s.topics[t].readerQos.(minimumSeparation := Separation(rate));
      var s' := s.(dds := s.dds.SetReaderQos(h, qos));
      assert SetMaxDataRate(s, t, q, rate, refused).next == s';
      OneReaderMoves(s, t, q, qos, r);
      hide SetMaxDataRate, Inv, LiveOf;
    } else if t in s.topics && q in s.topics[t].readers {
      assert InvOf(s, t) && ReaderOk(t, s.topics[t], s.dds, q);
      hide Inv, PubOf, SubOf, WriterOf, ReaderOf;
    } else {
      hide Inv, PubOf, SubOf, WriterOf, ReaderOf;
    }
  }

  lemma OneReaderMoves(s: Registry, t: string, q: string, qos: ReaderQos, r: string)
    requires Inv(s) && t in s.topics && q in s.topics[t].readers
    ensures var l := LiveOf(s, t, r);
            LiveOf(s.(dds := s.dds.SetReaderQos(s.topics[t].readers[q], qos)), t, r)
            == if q == r then SetReader(l, s.topics[t].readers[q], {}, qos) else l
  {
    assert InvOf(s, t);
    hide Inv;
  }

  lemma QuietMovesLive(s: Registry, op: Op, t: string, r: string)
    requires Inv(s) && Enabled(s, op) && IsFor(op, t) && (op.Listen? || op.Partition?)
    ensures LiveOf(Apply(s, op), t, r) == LiveOf(s, t, r)
  {
    hide RegisterTopic, RegisterQos, CreateSubscriber, CreatePublisher, ReplaceFilter, UnregisterTopic;
  }

  lemma UnregisterMovesLive(s: Registry, t: string, r: string)
    requires Inv(s) && Enabled(s, Unregister(t))
    ensures LiveOf(UnregisterTopic(s, t).next, t, r) == NOTHING_LIVES
  {
    UnregisterTopicInv(s, t);
    hide Teardown;
  }

  lemma ApplyMovesLive(s: Registry, op: Op, t: string, r: string)
    requires Inv(s) && Enabled(s, op)
    ensures LiveOf(Apply(s, op), t, r) == NextLive(s, op, t, r, LiveOf(s, t, r))
  {
    hide LiveOf, Inv, RegisterTopic, RegisterQos, CreateSubscriber, CreatePublisher, ReplaceFilter, UnregisterTopic, AddCallback;
    hide SetReaderQos, SetWriterQos, SetPublisherQos, SetSubscriberQos, SetMaxDataRate, AddPartition;
    if !IsFor(op, t) {
      OthersKeepLive(s, op, t, r);
    } else {
      match op
      case Register(_, preset, ok, refused) => RegisterMovesLive(s, t, preset, ok, refused, r);
      case ApplyPreset(_, preset, refused) => PresetMovesLive(s, t, preset, refused, r);
      case Subscribe(_, q, filter, a, b, c) => SubscribeMovesLive(s, t, q, filter, a, b, c, r);
      case Publish(_, a, b) => PublishMovesLive(s, t, a, b, r);
      case Refilter(_, q, filter, env) => RefilterMovesLive(s, t, q, filter, env, r);
      case Listen(_, _, _, _, _, _, _) => QuietMovesLive(s, op, t, r);
      case Unregister(_) => UnregisterMovesLive(s, t, r);
      case Partition(_, _) => QuietMovesLive(s, op, t, r);
      case ReaderQosTo(_, qos, refused) => ReaderQosMovesLive(s, t, qos, refused, r);
      case WriterQosTo(_, qos, refused) => WriterQosMovesLive(s, t, qos, refused, r);
      case PublisherQosTo(_, qos, refused) => PublisherQosMovesLive(s, t, qos, refused, r);
      case SubscriberQosTo(_, qos, refused) => SubscriberQosMovesLive(s, t, qos, refused, r);
      case MaxDataRate(_, q, rate, refused) => RateMovesLive(s, t, q, rate, refused, r);
    }
    assert LiveOf(Apply(s, op), t, r) == NextLive(s, op, t, r, LiveOf(s, t, r));
  }

  /** After any run the live entities of a topic are those made since it was registered, with the QoS (partitions
      included) that the topic stored then, or that they were last set to, and its readers read what passes the
      filter that they were last given. */
  lemma {:induction false} LiveFollowsRequests(s: Registry, ops: seq<Op>, t: string, r: string)
    requires Inv(s) && Legal(s, ops)
    ensures LiveOf(Run(s, ops), t, r) == LiveAfter(s, ops, t, r, LiveOf(s, t, r))
    decreases |ops|
  {
    if ops == [] {
    } else {
      ApplyMovesLive(s, ops[0], t, r);
      ApplyInv(s, ops[0]);
      hide Inv, LiveOf, NextLive, Enabled, Apply;
      LiveFollowsRequests(Apply(s, ops[0]), ops[1..], t, r);
      assert LiveOf(Run(s, ops), t, r) == LiveAfter(s, ops, t, r, LiveOf(s, t, r));
    }
  }
}
