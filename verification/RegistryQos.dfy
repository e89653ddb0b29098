/**
  The QoS a group stores against the QoS its live entities have.
*/
module RegistryQos {
  import opened Dds
  import opened Emitters
  import opened RegistrySpec
  import opened RegistryInvariant
  import opened RegistrySteps
  import opened RegistryTeardown
  import opened RegistryOperations
  import opened RegistryRuns
  import opened RegistryReplace
  import Names

  /** A live partition list is a prefix of the stored one; the rest is equal. */
  predicate Follows(live: GroupQos, stored: GroupQos) {
    live.partition <= stored.partition && live.policies == stored.policies
  }

  ghost predicate ReaderFollows(g: Group, p: Participant, r: string)
    requires r in g.readers
  {
    var h := g.readers[r];
    h in p.entities && p.entities[h].Reader? ==> p.entities[h].readerQos.policies == g.readerQos.policies
  }

  ghost predicate QosOk(g: Group, p: Participant) {
    && (g.writer in p.entities && p.entities[g.writer].Writer? ==> p.entities[g.writer].writerQos == g.writerQos)
    && (g.publisher in p.entities && p.entities[g.publisher].Publisher? ==>
          Follows(p.entities[g.publisher].groupQos, g.pubQos))
    && (g.subscriber in p.entities && p.entities[g.subscriber].Subscriber? ==>
          Follows(p.entities[g.subscriber].groupQos, g.subQos))
    && (forall r {:trigger ReaderFollows(g, p, r)} :: r in g.readers ==> ReaderFollows(g, p, r))
  }

  ghost predicate QosInv(s: Registry) {
    forall t {:trigger QosOk(s.topics[t], s.dds)} :: t in s.topics ==> QosOk(s.topics[t], s.dds)
  }

  /** A step that changes nothing another group owns. */
  lemma QosStep(s: Registry, s': Registry, t: string)
    requires Inv(s) && QosInv(s)
    requires forall x :: x in s'.topics && x != t ==> x in s.topics && s'.topics[x] == s.topics[x]
    requires forall h: Handle :: h in s'.dds.entities ==> h in s.dds.entities || s.dds.next <= h
    requires forall h: Handle :: h in s.dds.entities && h in s'.dds.entities && !GroupOwns(s, t, h) ==>
               s'.dds.entities[h] == s.dds.entities[h]
    requires t in s'.topics ==> QosOk(s'.topics[t], s'.dds)
    ensures QosInv(s')
  {
    forall x | x in s'.topics ensures QosOk(s'.topics[x], s'.dds) {
      if x != t {
        OtherGroupFollows(s, s', t, x);
      }
    }
  }

  lemma OtherGroupFollows(s: Registry, s': Registry, t: string, x: string)
    requires Inv(s) && QosInv(s) && x in s.topics && x != t
    requires forall h: Handle :: h in s'.dds.entities ==> h in s.dds.entities || s.dds.next <= h
    requires forall h: Handle :: h in s.dds.entities && h in s'.dds.entities && !GroupOwns(s, t, h) ==>
               s'.dds.entities[h] == s.dds.entities[h]
    ensures QosOk(s.topics[x], s'.dds)
  {
    var g := s.topics[x];
    HandlesAreOld(s, x);
    assert QosOk(g, s.dds);
    forall h: Handle | Owns(g, h) && h in s'.dds.entities
      ensures h in s.dds.entities && s'.dds.entities[h] == s.dds.entities[h]
    {
      if GroupOwns(s, t, h) {
        assert GroupOwns(s, x, h);
      }
    }
    assert NIL !in s'.dds.entities || s.dds.next <= NIL;
    assert g.writer != NIL ==> Owns(g, g.writer);
    assert g.publisher != NIL ==> Owns(g, g.publisher);
    assert g.subscriber != NIL ==> Owns(g, g.subscriber);
    forall r | r in g.readers ensures ReaderFollows(g, s'.dds, r) {
      assert ReaderFollows(g, s.dds, r) && OwnsReader(g, g.readers[r]);
      assert g.readers[r] != NIL ==> Owns(g, g.readers[r]);
    }
  }

  /** Creating an entity keeps what the group already has in step. */
  lemma GrowingKeepsQos(s: Registry, t: string, e: Entity)
    requires Inv(s) && QosInv(s) && t in s.topics
    ensures QosOk(s.topics[t], s.dds.Add(e))
  {
    var g := s.topics[t];
    HandlesAreOld(s, t);
    assert InvOf(s, t) && QosOk(g, s.dds);
    forall r | r in g.readers ensures ReaderFollows(g, s.dds.Add(e), r) {
      assert ReaderFollows(g, s.dds, r) && ReaderOk(t, g, s.dds, r);
    }
    assert g.writer != NIL ==> Owns(g, g.writer);
    assert g.publisher != NIL ==> Owns(g, g.publisher);
    assert g.subscriber != NIL ==> Owns(g, g.subscriber);
  }

  lemma EnsureSubscriberQos(s: Registry, t: string, accept: bool)
    requires Inv(s) && QosInv(s) && t in s.topics
    ensures QosInv(EnsureSubscriber(s, t, accept))
  {
    var s' := EnsureSubscriber(s, t, accept);
    if s' != s {
      GrowingKeepsQos(s, t, Subscriber(s.topics[t].subQos));
      SameReadersFollow(s.topics[t], s'.topics[t], s'.dds);
      QosStep(s, s', t);
    }
  }

  lemma SameReadersFollow(g: Group, g': Group, p: Participant)
    requires QosOk(g, p) && g'.readers == g.readers && g'.readerQos.policies == g.readerQos.policies
    ensures forall r {:trigger ReaderFollows(g', p, r)} :: r in g'.readers ==> ReaderFollows(g', p, r)
  {
    forall r | r in g'.readers ensures ReaderFollows(g', p, r) {
      assert ReaderFollows(g, p, r);
    }
  }

  lemma AddFilterQos(s: Registry, t: string, name: string, filter: string, accept: bool)
    requires Inv(s) && QosInv(s) && t in s.topics
    ensures QosInv(AddFilter(s, t, name, filter, accept).0)
  {
    var (s', h) := AddFilter(s, t, name, filter, accept);
    if h != NIL {
      GrowingKeepsQos(s, t, FilteredTopic(name, s.topics[t].topic, filter));
      SameReadersFollow(s.topics[t], s'.topics[t], s'.dds);
      QosStep(s, s', t);
    }
  }

  /** A reader created with the stored QoS follows it. */
  lemma NewReaderQos(s: Registry, s': Registry, t: string, r: string, e: Entity)
    requires Inv(s) && QosInv(s) && t in s.topics && t in s'.topics
    requires e.Reader? && e.readerQos == s.topics[t].readerQos && s'.dds == s.dds.Add(e)
    requires s'.topics == s.topics[t := s'.topics[t]]
    requires s'.topics[t] == s.topics[t].(readers := s.topics[t].readers[r := s.dds.next],
                                          readerListeners := s'.topics[t].readerListeners,
                                          emitters := s'.topics[t].emitters)
    ensures QosInv(s')
  {
    var g, g' := s.topics[t], s'.topics[t];
    GrowingKeepsQos(s, t, e);
    forall q | q in g'.readers ensures ReaderFollows(g', s'.dds, q) {
      if q != r {
        assert ReaderFollows(g, s'.dds, q);
      }
    }
    QosStep(s, s', t);
  }

  lemma CreateSubscriberQos(s: Registry, t: string, r: string, filter: string, a: bool, b: bool, c: bool)
    requires Inv(s) && QosInv(s)
    ensures QosInv(CreateSubscriber(s, t, r, filter, a, b, c).next)
  {
    assert 0 < s.dds.next;
    hide Inv, QosInv, AddReader;
    if r != "" && t in s.topics && s.topics[t].topic != NIL && r !in s.topics[t].readerListeners {
      EnsureSubscriberInv(s, t, a);
      EnsureSubscriberQos(s, t, a);
      var s1, name := EnsureSubscriber(s, t, a), Names.FilterName(t, r, 0);
      if s1.topics[t].subscriber != NIL {
        if filter != "" {
          Names.FilterCounterInvertsName(t, r, 0);
          AddFilterInv(s1, t, name, filter, b);
          AddFilterQos(s1, t, name, filter, b);
        }
        var (s2, d) := if filter == "" then (s1, s1.topics[t].topic) else AddFilter(s1, t, name, filter, b);
        AddReaderQos(s2, t, r, d, c);
      }
    }
  }

  lemma AddReaderQos(s: Registry, t: string, r: string, d: Handle, accept: bool)
    requires Inv(s) && QosInv(s) && t in s.topics
    ensures QosInv(AddReader(s, t, r, d, accept).next)
  {
    var step := AddReader(s, t, r, d, accept);
    if step.result {
      NewReaderQos(s, step.next, t, r, Reader(s.topics[t].subscriber, d, s.nextListener, s.topics[t].readerQos));
    }
  }

  lemma CreatePublisherQos(s: Registry, t: string, a: bool, b: bool)
    requires Inv(s) && QosInv(s)
    ensures QosInv(CreatePublisher(s, t, a, b).next)
  {
    if t in s.topics && s.topics[t].topic != NIL && s.topics[t].publisher == NIL {
      AddPublisherInv(s, t, a);
      var s1 := AddPublisher(s, t, a);
      assert InvOf(s, t);
      if s1 != s {
        GrowingKeepsQos(s, t, Publisher(s.topics[t].pubQos));
        SameReadersFollow(s.topics[t], s1.topics[t], s1.dds);
        QosStep(s, s1, t);
      }
      if s1.topics[t].publisher != NIL {
        AddWriterQos(s1, t, b);
      }
    }
  }

  lemma AddWriterQos(s: Registry, t: string, accept: bool)
    requires Inv(s) && QosInv(s) && t in s.topics
    ensures QosInv(AddWriter(s, t, accept).next)
  {
    var s', g := AddWriter(s, t, accept).next, s.topics[t];
    if s' != s {
      GrowingKeepsQos(s, t, Writer(g.publisher, g.topic, s.nextListener, g.writerQos));
      SameReadersFollow(g, s'.topics[t], s'.dds);
      QosStep(s, s', t);
    }
  }

  // ---- replaceFilter ----

  lemma ReplaceFilterQos(s: Registry, t: string, r: string, filter: string, env: ReplaceEnv)
    requires Inv(s) && QosInv(s)
    ensures QosInv(ReplaceFilter(s, t, r, filter, env).next)
  {
    var h := GetReader(s, t, r);
    if h != NIL && s.topics[t].subscriber != NIL && r in s.topics[t].readerListeners {
      StopEmitterInv(s, t, r);
      var s1 := StopEmitter(s, t, r);
      assert QosOk(s.topics[t], s.dds);
      SameReadersFollow(s.topics[t], s1.topics[t], s1.dds);
      QosStep(s, s1, t);
      TwoHalves(s, t, r, filter, env);
      if Replaceable(s, t, r) && env.containedOk {
        var d := DescriptionOf(s, t, r);
        FirstHalf(s, t, r, env.filterDeleteOk);
        TakenDownQos(s1, t, r, env.filterDeleteOk);
        var (p, rc) := s1.dds.DeleteReader(s1.topics[t].subscriber, h);
        var s2 := DropFilter(s1.(dds := p), t, d, env.filterDeleteOk);
        TakenDownInv(s1, t, r, env.filterDeleteOk);
        NextCounterBelow(s1, t, r);
        RebuildQos(s2, t, r, filter, NextFilterName(t, r, FilterNameOf(s.dds, d)), env);
      }
    }
  }

  lemma TakenDownQos(s: Registry, t: string, r: string, filterDeleteOk: bool)
    requires Inv(s) && QosInv(s) && t in s.topics && r in s.topics[t].readers && r in s.topics[t].readerListeners
    requires s.dds.DeleteReader(s.topics[t].subscriber, s.topics[t].readers[r]).1 == RETCODE_OK
    ensures var p := s.dds.DeleteReader(s.topics[t].subscriber, s.topics[t].readers[r]).0;
            var d := s.dds.entities[s.topics[t].readers[r]].description;
            QosInv(DropFilter(s.(dds := p), t, d, filterDeleteOk))
  {
    var p := s.dds.DeleteReader(s.topics[t].subscriber, s.topics[t].readers[r]).0;
    var s2 := DropFilter(s.(dds := p), t, s.dds.entities[s.topics[t].readers[r]].description, filterDeleteOk);
    ShrinkingKeepsQos(s, s2, t);
  }

  /** Deleting entities keeps what is left in step. */
  lemma ShrinkingKeepsQos(s: Registry, s': Registry, t: string)
    requires Inv(s) && QosInv(s)
    requires forall x :: x in s'.topics ==> x in s.topics && (x == t || s'.topics[x] == s.topics[x])
    requires t in s'.topics ==> s'.topics[t] == s.topics[t].(filteredTopics := s'.topics[t].filteredTopics)
    requires forall h: Handle :: h in s'.dds.entities ==> h in s.dds.entities && s'.dds.entities[h] == s.dds.entities[h]
    ensures QosInv(s')
  {
    if t in s'.topics {
      var g' := s'.topics[t];
      assert QosOk(s.topics[t], s.dds);
      forall r | r in g'.readers ensures ReaderFollows(g', s'.dds, r) {
        assert ReaderFollows(s.topics[t], s.dds, r);
      }
    }
    QosStep(s, s', t);
  }

  lemma RebuildQos(s: Registry, t: string, r: string, filter: string, name: string, env: ReplaceEnv)
    requires Inv(s) && QosInv(s) && t in s.topics && s.topics[t].topic != NIL && s.topics[t].subscriber != NIL
    requires r in s.topics[t].readerListeners && CounterBelow(name, s.dds.next)
    ensures QosInv(Rebuild(s, t, r, filter, name, env).next)
  {
    if filter == "" {
      FinishReplaceQos(s, t, r, s.topics[t].topic, env);
    } else {
      AddFilterInv(s, t, name, filter, env.filterOk);
      AddFilterQos(s, t, name, filter, env.filterOk);
      var (s3, d) := AddFilter(s, t, name, filter, env.filterOk);
      FinishReplaceQos(s3, t, r, d, env);
    }
  }

  lemma FinishReplaceQos(s: Registry, t: string, r: string, d: Handle, env: ReplaceEnv)
    requires Inv(s) && QosInv(s) && t in s.topics && r in s.topics[t].readerListeners
    ensures QosInv(FinishReplace(s, t, r, d, env).next)
  {
    var step, g := FinishReplace(s, t, r, d, env), s.topics[t];
    if step.result {
      assert step.next.topics == s.topics[t := step.next.topics[t]];
      NewReaderQos(s, step.next, t, r, Reader(g.subscriber, d, g.readerListeners[r], g.readerQos));
    }
  }

  // ---- the setters, with every set_qos accepted ----

  lemma SetReaderQosQos(s: Registry, t: string, qos: ReaderQos)
    requires Inv(s) && QosInv(s)
    ensures QosInv(SetReaderQos(s, t, qos, {}))
  {
    var s' := SetReaderQos(s, t, qos, {});
    var g, g' := GroupOrNew(s, t), s'.topics[t];
    assert g.readers.Values - {} == g.readers.Values;
    forall h: Handle | h in s.dds.entities && h in g.readers.Values ensures GroupOwns(s, t, h) {
      assert 0 < h && OwnsReader(s.topics[t], h);
    }
    forall r | r in g'.readers ensures ReaderFollows(g', s'.dds, r) {
      assert g.readers[r] in g.readers.Values;
    }
    KindsKeepQos(s, s', t);
    QosStep(s, s', t);
  }

  /** What is not a reader keeps its QoS under set_qos on readers. */
  lemma KindsKeepQos(s: Registry, s': Registry, t: string)
    requires Inv(s) && QosInv(s) && t in s'.topics
    requires s'.dds.entities.Keys == s.dds.entities.Keys
    requires forall h: Handle :: h in s.dds.entities ==> SameShape(s.dds.entities[h], s'.dds.entities[h])
    requires forall h: Handle :: h in s.dds.entities && !s.dds.entities[h].Reader? ==> s'.dds.entities[h] == s.dds.entities[h]
    requires s'.topics[t] == GroupOrNew(s, t).(readerQos := s'.topics[t].readerQos)
    requires forall r {:trigger ReaderFollows(s'.topics[t], s'.dds, r)} :: r in s'.topics[t].readers ==>
               ReaderFollows(s'.topics[t], s'.dds, r)
    ensures QosOk(s'.topics[t], s'.dds)
  {
    assert NIL !in s.dds.entities;
    if t in s.topics {
      assert QosOk(s.topics[t], s.dds) && InvOf(s, t);
    }
  }

  lemma SetWriterQosQos(s: Registry, t: string, qos: int)
    requires Inv(s) && QosInv(s)
    ensures QosInv(SetWriterQos(s, t, qos, {}))
  {
    assert t in s.topics ==> InvOf(s, t);
    GroupSetterQos(s, SetWriterQos(s, t, qos, {}), t);
  }

  lemma SetPublisherQosQos(s: Registry, t: string, qos: GroupQos)
    requires Inv(s) && QosInv(s)
    ensures QosInv(SetPublisherQos(s, t, qos, {}))
  {
    assert t in s.topics ==> InvOf(s, t);
    GroupSetterQos(s, SetPublisherQos(s, t, qos, {}), t);
  }

  lemma SetSubscriberQosQos(s: Registry, t: string, qos: GroupQos)
    requires Inv(s) && QosInv(s)
    ensures QosInv(SetSubscriberQos(s, t, qos, {}))
  {
    assert t in s.topics ==> InvOf(s, t);
    GroupSetterQos(s, SetSubscriberQos(s, t, qos, {}), t);
  }

  lemma AddPartitionQos(s: Registry, t: string, name: string)
    requires Inv(s) && QosInv(s)
    ensures QosInv(AddPartition(s, t, name).next)
  {
    if t in s.topics {
      assert s.topics[t].pubQos.partition <= s.topics[t].pubQos.partition + [name];
      assert s.topics[t].subQos.partition <= s.topics[t].subQos.partition + [name];
      GroupSetterQos(s, AddPartition(s, t, name).next, t);
    }
  }

  /** A change of the writer's, the publisher's or the subscriber's QoS that keeps each in step. */
  lemma GroupSetterQos(s: Registry, s': Registry, t: string)
    requires Inv(s) && QosInv(s) && t in s'.topics && s' == Put(s.(dds := s'.dds), t, s'.topics[t])
    requires s'.dds.entities.Keys == s.dds.entities.Keys
    requires var g, g' := GroupOrNew(s, t), s'.topics[t];
             && g' == g.(pubQos := g'.pubQos, subQos := g'.subQos, writerQos := g'.writerQos)
             && (forall h: Handle :: h in s.dds.entities && h !in {g.writer, g.publisher, g.subscriber} ==>
                   s'.dds.entities[h] == s.dds.entities[h])
             && (forall h: Handle :: h in s.dds.entities ==> SameShape(s.dds.entities[h], s'.dds.entities[h]))
             && (g.writer in s.dds.entities && s.dds.entities[g.writer].Writer? ==>
                   s'.dds.entities[g.writer].writerQos == g'.writerQos
                   || (s'.dds.entities[g.writer] == s.dds.entities[g.writer] && g'.writerQos == g.writerQos))
             && (g.publisher in s.dds.entities && s.dds.entities[g.publisher].Publisher? ==>
                   InStep(s.dds.entities[g.publisher].groupQos, g.pubQos, s'.dds.entities[g.publisher].groupQos, g'.pubQos))
             && (g.subscriber in s.dds.entities && s.dds.entities[g.subscriber].Subscriber? ==>
                   InStep(s.dds.entities[g.subscriber].groupQos, g.subQos, s'.dds.entities[g.subscriber].groupQos, g'.subQos))
    ensures QosInv(s')
  {
    var g, g' := GroupOrNew(s, t), s'.topics[t];
    assert NIL !in s.dds.entities;
    if t in s.topics {
      assert InvOf(s, t) && QosOk(g, s.dds);
      assert g.writer != NIL ==> Owns(g, g.writer);
      assert g.publisher != NIL ==> Owns(g, g.publisher);
      assert g.subscriber != NIL ==> Owns(g, g.subscriber);
      forall r | r in g'.readers ensures ReaderFollows(g', s'.dds, r) {
        assert ReaderFollows(g, s.dds, r) && ReaderOk(t, g, s.dds, r);
      }
    }
    QosStep(s, s', t);
  }

  /** If live followed stored before, it does now. */
  predicate InStep(live: GroupQos, stored: GroupQos, live': GroupQos, stored': GroupQos) {
    Follows(live, stored) ==> Follows(live', stored')
  }

  lemma SetMaxDataRateQos(s: Registry, t: string, r: string, rate: int, refused: set<Handle>)
    requires Inv(s) && QosInv(s)
    ensures QosInv(SetMaxDataRate(s, t, r, rate, refused).next)
  {
    var s', h := SetMaxDataRate(s, t, r, rate, refused).next, GetReader(s, t, r);
    if s' != s {
      var g := s.topics[t];
      assert OwnsReader(g, h);
      assert QosOk(g, s.dds);
      forall q | q in g.readers ensures ReaderFollows(g, s'.dds, q) {
        assert ReaderFollows(g, s.dds, q);
      }
      KindsKeepQos(s, s', t);
      QosStep(s, s', t);
    }
  }

  lemma RegisterQosQos(s: Registry, t: string, preset: int)
    requires Inv(s) && QosInv(s)
    ensures QosInv(RegisterQos(s, t, preset, {}).next)
  {
    if t in s.topics && s.topics[t].qosPreset == -1 && 0 <= preset <= LAST_PRESET {
      SetReaderQosInv(s, t, PresetReaderQos(preset), {});
      SetReaderQosQos(s, t, PresetReaderQos(preset));
      var s1 := SetReaderQos(s, t, PresetReaderQos(preset), {});
      SetWriterQosInv(s1, t, preset, {});
      SetWriterQosQos(s1, t, preset);
      var s2 := SetWriterQos(s1, t, preset, {});
      SameFieldsKeepQos(s2, t, s2.topics[t].(qosPreset := preset));
    }
  }

  /** Emitters and the preset have no part in it. */
  lemma SameFieldsKeepQos(s: Registry, t: string, g': Group)
    requires Inv(s) && QosInv(s) && t in s.topics
    requires g' == s.topics[t].(qosPreset := g'.qosPreset, emitters := g'.emitters)
    ensures QosInv(Put(s, t, g'))
  {
    assert QosOk(s.topics[t], s.dds);
    SameReadersFollow(s.topics[t], g', s.dds);
    QosStep(s, Put(s, t, g'), t);
  }

  lemma RegisterTopicQos(s: Registry, t: string, preset: int, accept: bool)
    requires Inv(s) && QosInv(s)
    ensures var o := RegisterTopic(s, t, preset, accept, {}); o.Finished? ==> QosInv(o.step.next)
  {
    if s.joined && !(t in s.topics && s.topics[t].topic != NIL) {
      AddTopicInv(s, t, accept);
      var (s1, h) := AddTopic(s, t, accept);
      if h != NIL {
        if t in s.topics {
          assert InvOf(s, t);
        }
        QosStep(s, s1, t);
        RegisterQosQos(s1, t, preset);
      }
    }
  }

  // ---- whole runs ----

  /** Every set_qos this operation makes is accepted. */
  predicate Accepted(op: Op) {
    match op
    case Register(_, _, _, refused) => refused == {}
    case ApplyPreset(_, _, refused) => refused == {}
    case ReaderQosTo(_, _, refused) => refused == {}
    case WriterQosTo(_, _, refused) => refused == {}
    case PublisherQosTo(_, _, refused) => refused == {}
    case SubscriberQosTo(_, _, refused) => refused == {}
    case _ => true
  }

  lemma ApplyQos(s: Registry, op: Op)
    requires Inv(s) && QosInv(s) && Enabled(s, op) && Accepted(op)
    ensures QosInv(Apply(s, op))
  {
    match op
    case Register(t, preset, ok, _) => RegisterTopicQos(s, t, preset, ok);
    case ApplyPreset(t, preset, _) => RegisterQosQos(s, t, preset);
    case Subscribe(t, r, filter, a, b, c) => CreateSubscriberQos(s, t, r, filter, a, b, c);
    case Publish(t, a, b) => CreatePublisherQos(s, t, a, b);
    case Refilter(t, r, filter, env) => ReplaceFilterQos(s, t, r, filter, env);
    case Listen(t, r, ty, f, queue, async, attached) =>
      if GetReader(s, t, r) != NIL {
        SameFieldsKeepQos(s, t, AddCallback(s, t, r, ty, f, queue, async, attached).next.topics[t]);
      }
    case Unregister(t) =>
      if t in s.topics {
        TeardownResult(s, t);
        ShrinkingKeepsQos(s, UnregisterTopic(s, t).next, t);
      }
    case Partition(t, name) => AddPartitionQos(s, t, name);
    case ReaderQosTo(t, qos, _) => SetReaderQosQos(s, t, qos);
    case WriterQosTo(t, qos, _) => SetWriterQosQos(s, t, qos);
    case PublisherQosTo(t, qos, _) => SetPublisherQosQos(s, t, qos);
    case SubscriberQosTo(t, qos, _) => SetSubscriberQosQos(s, t, qos);
    case MaxDataRate(t, r, rate, refused) => SetMaxDataRateQos(s, t, r, rate, refused);
    case TakeSamples(h) => LoansKeepQos(s, Apply(s, op));
    case ReturnSamples(h) => LoansKeepQos(s, Apply(s, op));
    case Join => LoansKeepQos(s, Apply(s, op));
    case ReaderHandlerTo(_) => LoansKeepQos(s, Apply(s, op));
    case WriterHandlerTo(_) => LoansKeepQos(s, Apply(s, op));
  }

  lemma LoansKeepQos(s: Registry, s': Registry)
    requires QosInv(s) && s'.topics == s.topics && s'.dds.entities == s.dds.entities
    ensures QosInv(s')
  {
    forall t | t in s'.topics ensures QosOk(s'.topics[t], s'.dds) {
      assert QosOk(s.topics[t], s.dds);
      forall r | r in s.topics[t].readers ensures ReaderFollows(s.topics[t], s'.dds, r) {
        assert ReaderFollows(s.topics[t], s.dds, r);
      }
    }
  }

  /** With every set_qos accepted, after any run: a live writer has the stored QoS,
      a live reader too but for its minimum separation, and a live publisher's or
      subscriber's partition list is a prefix of the stored one. */
  lemma {:induction false} RunQos(s: Registry, ops: seq<Op>)
    requires Inv(s) && QosInv(s) && Legal(s, ops) && (forall op :: op in ops ==> Accepted(op))
    ensures QosInv(Run(s, ops))
    decreases |ops|
  {
    if ops == [] {
    } else {
      ApplyInv(s, ops[0]);
      ApplyQos(s, ops[0]);
      RunQos(Apply(s, ops[0]), ops[1..]);
    }
  }
}
