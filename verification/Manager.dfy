/**
  DDSManager, updated in place. Each method is proved to take the registry's abstract
  state where RegistrySpec says, and each public operation keeps the object valid: the
  registry invariant holds of its state.
*/
module Manager {
  import opened Dds
  import opened Emitters
  import opened Groups
  import opened RegistrySpec
  import opened RegistryInvariant
  import Names
  import RegistrySteps
  import RegistryTeardown
  import RegistryOperations
  import RegistryRuns
  import RegistryTheorems

  /** m_topics[t] as the source's operator[] leaves it: an empty group for a new topic. */
  function EnsureGroup(s: Registry, t: string): Registry {
    if t in s.topics then s else Put(s, t, NEW_GROUP)
  }

  lemma EnsureGroupThenPut(s: Registry, t: string)
    ensures GroupOrNew(EnsureGroup(s, t), t) == GroupOrNew(s, t)
    ensures forall p, g :: Put(EnsureGroup(s, t).(dds := p), t, g) == Put(s.(dds := p), t, g)
  {
    forall p, g ensures Put(EnsureGroup(s, t).(dds := p), t, g) == Put(s.(dds := p), t, g) {
      assert Put(EnsureGroup(s, t).(dds := p), t, g).topics == Put(s.(dds := p), t, g).topics;
    }
  }

  lemma TopicStored(s: Registry, s1: Registry, t: string, h: Handle, accept: bool)
    requires h != NIL && (s1.dds, h) == s.dds.CreateTopic(t, s.nextListener, accept)
    requires s1 == s.(dds := s1.dds, listeners := s.listeners[s.nextListener := NIL], nextListener := s.nextListener + 1)
    ensures var g := EnsureGroup(s1, t).topics[t].(domain := true, topic := h, topicListener := s.nextListener);
            (Put(EnsureGroup(s1, t), t, g), h) == RegistrySpec.AddTopic(s, t, accept)
  {
    EnsureGroupThenPut(s1, t);
    assert EnsureGroup(s1, t).(dds := s1.dds) == EnsureGroup(s1, t);
  }

  /** The reader listeners of the topics in ts. */
  ghost function ListenersOf(s: Registry, ts: set<string>): set<nat> {
    set t, r | t in ts && t in s.topics && r in s.topics[t].readerListeners :: s.topics[t].readerListeners[r]
  }

  lemma OneMoreTopic(s: Registry, ts: set<string>, t: string, handler: nat)
    requires t in s.topics
    ensures ListenersOf(s, ts + {t}) == ListenersOf(s, ts) + s.topics[t].readerListeners.Values
    ensures WithHandler(WithHandler(s.listeners, ListenersOf(s, ts), handler), s.topics[t].readerListeners.Values, handler)
            == WithHandler(s.listeners, ListenersOf(s, ts + {t}), handler)
  {
    forall l | l in ListenersOf(s, ts) + s.topics[t].readerListeners.Values ensures l in ListenersOf(s, ts + {t}) {
    }
  }

  /** The writer listeners of the topics in ts, NIL where there is none. */
  ghost function WritersOf(s: Registry, ts: set<string>): set<nat> {
    set t | t in ts && t in s.topics :: s.topics[t].writerListener
  }

  lemma OneMoreWriter(s: Registry, ts: set<string>, t: string, handler: nat)
    requires t in s.topics
    ensures WritersOf(s, ts + {t}) == WritersOf(s, ts) + {s.topics[t].writerListener}
    ensures s.topics[t].writerListener in s.listeners ==>
              WithHandler(s.listeners, WritersOf(s, ts), handler)[s.topics[t].writerListener := handler]
              == WithHandler(s.listeners, WritersOf(s, ts + {t}), handler)
  {
  }

  lemma ListenersAreAllocated(s: Registry)
    requires Inv(s)
    ensures forall t :: t in s.topics ==> s.topics[t].readerListeners.Values <= s.listeners.Keys
    ensures forall t :: t in s.topics ==> s.topics[t].writerListener in s.listeners.Keys + {NIL}
  {
    forall t | t in s.topics
      ensures s.topics[t].readerListeners.Values <= s.listeners.Keys
      ensures s.topics[t].writerListener != NIL ==> s.topics[t].writerListener in s.listeners
    {
      assert InvOf(s, t);
    }
  }

  lemma GroupCanBeDestroyed(s: Registry, t: string)
    requires Inv(s) && t in s.topics
    ensures CanBeDestroyed(s.topics[t], s.dds)
  {
    var g := s.topics[t];
    assert InvOf(s, t);
    forall x, y | x in g.filteredTopics && y in g.filteredTopics && g.filteredTopics[x] == g.filteredTopics[y] ensures x == y {
      assert IsFilter(s.dds.entities[g.filteredTopics[x]], x, g.topic);
    }
  }

  class DDSManager {
    var m_topics: map<string, TopicGroup>
    const m_domainParticipant: DomainParticipant
    var m_joined: bool
    var m_domainID: int
    var m_rlHandler: nat
    var m_wlHandler: nat
    /** The wrapper listener objects that have been allocated and not freed. */
    var listenerObjects: map<nat, nat>
    var nextListener: nat

    /** No two topics share a group object; handle 0 is never given out. */
    ghost predicate Linked()
      reads this, m_domainParticipant
    {
      && 0 < m_domainParticipant.graph.next
      && (forall t, t' {:trigger m_topics[t], m_topics[t']} ::
            t in m_topics && t' in m_topics && m_topics[t] == m_topics[t'] ==> t == t')
    }

    function State(): Registry
      reads this, m_domainParticipant, m_topics.Values
    {
      Registry(m_joined, map t | t in m_topics :: m_topics[t].State(), m_domainParticipant.graph,
               listenerObjects, nextListener, m_rlHandler, m_wlHandler)
    }

    /** The class invariant: what every run of the operations keeps. */
    ghost predicate Valid()
      reads this, m_domainParticipant, m_topics.Values
    {
      Linked() && Inv(State())
    }

    constructor ()
      ensures Valid() && State() == EMPTY_REGISTRY
      ensures fresh(m_domainParticipant) && m_topics == map[]
    {
      m_topics, m_joined, m_domainID, m_rlHandler, m_wlHandler := map[], false, 0, 0, 0;
      m_domainParticipant := new DomainParticipant();
      listenerObjects, nextListener := map[], 1;
      new;
      EmptyInv();
      assert State() == EMPTY_REGISTRY;
    }

    /** The participant is made on the first successful join, and stays if the join then fails:
        configOk says whether the config it names, if any, is known. */
    method JoinDomain(domainID: int, participantOk: bool, configOk: bool) returns (ok: bool)
      requires Valid()
      modifies `m_joined, `m_domainID
      ensures Valid() && State() == old(State()).(joined := old(m_joined) || participantOk)
      ensures m_domainID == if old(m_joined) then old(m_domainID) else domainID
      ensures ok == if old(m_joined) then domainID == old(m_domainID) else participantOk && configOk
    {
      ghost var s := State();
      RegistryRuns.JoinInv(s);
      assert s.(joined := s.joined) == s;
      if m_joined {
        return domainID == m_domainID;
      }
      m_domainID := domainID;
      if participantOk {
        m_joined := true;
      }
      NoGroupChanged();
      return participantOk && configOk;
    }

    /** Every group there is was there before under the same topic, or is new. */
    twostate predicate OnlyNewGroups()
      reads this
    {
      forall t :: t in m_topics ==> (t in old(m_topics) && m_topics[t] == old(m_topics)[t]) || fresh(m_topics[t])
    }

    /** Only the group of t has changed, if any. */
    twostate lemma OneGroupChanged(t: string)
      requires t in m_topics && m_topics == old(m_topics) && forall x :: x in m_topics && x != t ==> unchanged(m_topics[x])
      ensures State().topics == old(State()).topics[t := m_topics[t].State()]
      ensures old(State()).topics[t] == old(m_topics[t].State())
      ensures m_topics[t].State() == old(m_topics[t].State()) ==> State().topics == old(State()).topics
    {
    }

    twostate lemma OneGroupAdded(t: string)
      requires t !in old(m_topics) && t in m_topics && m_topics == old(m_topics)[t := m_topics[t]]
      requires forall x :: x in old(m_topics) ==> unchanged(old(m_topics[x]))
      ensures State().topics == old(State()).topics[t := m_topics[t].State()]
    {
    }

    twostate lemma NoGroupChanged()
      requires m_topics == old(m_topics) && forall x :: x in m_topics ==> unchanged(m_topics[x])
      ensures State().topics == old(State()).topics
    {
    }

    // ---- createSubscriber ----

    method EnsureSubscriber(t: string, accept: bool)
      requires Linked() && t in m_topics
      modifies m_domainParticipant, m_topics[t]
      ensures Linked() && State() == RegistrySpec.EnsureSubscriber(old(State()), t, accept)
    {
      var g := m_topics[t];
      if g.subscriber == NIL {
        g.subscriber := m_domainParticipant.CreateSubscriber(g.subQos, accept);
        OneGroupChanged(t);
      }
    }

    method AddFilter(t: string, name: string, expression: string, accept: bool) returns (h: Handle)
      requires Linked() && t in m_topics
      modifies m_domainParticipant, m_topics[t]
      ensures Linked() && (State(), h) == RegistrySpec.AddFilter(old(State()), t, name, expression, accept)
    {
      var g := m_topics[t];
      h := m_domainParticipant.CreateFilteredTopic(name, g.topic, expression, accept);
      if h != NIL {
        g.filteredTopics := g.filteredTopics[name := h];
      }
      OneGroupChanged(t);
    }

    /** A listener object that outlives the call, with its handler. */
    method KeepListener(handler: nat) returns (l: nat)
      requires Linked()
      modifies `listenerObjects, `nextListener
      ensures Linked() && l == old(nextListener)
      ensures var s := old(State()); State() == s.(listeners := s.listeners[l := handler], nextListener := l + 1)
    {
      l := nextListener;
      listenerObjects, nextListener := listenerObjects[l := handler], l + 1;
      NoGroupChanged();
    }

    method AddReader(t: string, r: string, description: Handle, accept: bool) returns (ok: bool)
      requires Linked() && t in m_topics
      modifies `listenerObjects, `nextListener, m_domainParticipant, m_topics[t]
      ensures Linked() && Step(State(), ok) == RegistrySpec.AddReader(old(State()), t, r, description, accept)
    {
      var g := m_topics[t];
      var h := m_domainParticipant.CreateReader(g.subscriber, description, nextListener, g.dataReaderQos, accept);
      NoGroupChanged();
      if h == NIL {
        return false;
      }
      var l := KeepListener(m_rlHandler);
      StoreReader(t, r, h, l);
      return true;
    }

    method StoreReader(t: string, r: string, h: Handle, l: nat)
      requires Linked() && t in m_topics
      modifies m_topics[t]
      ensures Linked()
      ensures var s := old(State());
              var g := s.topics[t];
              State() == Put(s, t, g.(readers := g.readers[r := h], readerListeners := g.readerListeners[r := l]))
    {
      m_topics[t].StoreReader(r, h, l);
      OneGroupChanged(t);
    }

    method CreateSubscriber(t: string, r: string, filter: string, subscriberOk: bool, filterOk: bool, readerOk: bool)
      returns (ok: bool)
      requires Valid()
      modifies `listenerObjects, `nextListener, m_domainParticipant, m_topics.Values
      ensures Valid()
      ensures Step(State(), ok) == RegistrySpec.CreateSubscriber(old(State()), t, r, filter, subscriberOk, filterOk, readerOk)
    {
      RegistryOperations.CreateSubscriberInv(State(), t, r, filter, subscriberOk, filterOk, readerOk);
      if r == "" || t !in m_topics || m_topics[t].topic == NIL || r in m_topics[t].m_readerListeners {
        return false;
      }
      EnsureSubscriber(t, subscriberOk);
      if m_topics[t].subscriber == NIL {
        return false;
      }
      if filter != "" {
        var filteredTopic := AddFilter(t, Names.FilterName(t, r, 0), filter, filterOk);
        if filteredTopic == NIL {
          return false;
        }
        ok := AddReader(t, r, filteredTopic, readerOk);
      } else {
        ok := AddReader(t, r, m_topics[t].topic, readerOk);
      }
    }

    // ---- createPublisher ----

    method AddPublisher(t: string, accept: bool)
      requires Linked() && t in m_topics && m_topics[t].publisher == NIL
      modifies m_domainParticipant, m_topics[t]
      ensures Linked() && State() == RegistrySpec.AddPublisher(old(State()), t, accept)
    {
      var g := m_topics[t];
      g.publisher := m_domainParticipant.CreatePublisher(g.pubQos, accept);
      OneGroupChanged(t);
    }

    /** The listener is moved into the group only once the writer exists. */
    method AddWriter(t: string, accept: bool) returns (ok: bool)
      requires Linked() && t in m_topics && m_topics[t].writer == NIL
      modifies `listenerObjects, `nextListener, m_domainParticipant, m_topics[t]
      ensures Linked() && Step(State(), ok) == RegistrySpec.AddWriter(old(State()), t, accept)
    {
      var g := m_topics[t];
      var h := m_domainParticipant.CreateWriter(g.publisher, g.topic, nextListener, g.dataWriterQos, accept);
      NoGroupChanged();
      if h == NIL {
        return false;
      }
      var l := KeepListener(m_wlHandler);
      StoreWriter(t, h, l);
      return true;
    }

    method StoreWriter(t: string, h: Handle, l: nat)
      requires Linked() && t in m_topics
      modifies m_topics[t]
      ensures Linked()
      ensures var s := old(State()); State() == Put(s, t, s.topics[t].(writer := h, writerListener := l))
    {
      m_topics[t].StoreWriter(h, l);
      OneGroupChanged(t);
    }

    method CreatePublisher(t: string, publisherOk: bool, writerOk: bool) returns (ok: bool)
      requires Valid()
      modifies `listenerObjects, `nextListener, m_domainParticipant, m_topics.Values
      ensures Valid() && Step(State(), ok) == RegistrySpec.CreatePublisher(old(State()), t, publisherOk, writerOk)
    {
      RegistryOperations.CreatePublisherInv(State(), t, publisherOk, writerOk);
      if t !in m_topics || m_topics[t].topic == NIL {
        return false;
      }
      if m_topics[t].publisher == NIL {
        assert InvOf(State(), t);
        AddPublisher(t, publisherOk);
        if m_topics[t].publisher == NIL {
          return false;
        }
        ok := AddWriter(t, writerOk);
      } else {
        ok := true;
      }
    }

    // ---- registerTopic, registerQos and the QoS setters ----

    /** Make the group of t if there is none. */
    method FindOrAddGroup(t: string)
      requires Linked()
      modifies `m_topics
      ensures Linked() && t in m_topics
      ensures t in old(m_topics) ==> m_topics == old(m_topics)
      ensures t !in old(m_topics) ==> m_topics == old(m_topics)[t := m_topics[t]] && fresh(m_topics[t])
      ensures State() == EnsureGroup(old(State()), t)
    {
      if t !in m_topics {
        var n := new TopicGroup();
        m_topics := m_topics[t := n];
        OneGroupAdded(t);
      }
    }

    method SetReaderQos(t: string, qos: ReaderQos, refused: set<Handle>)
      requires Valid()
      modifies `m_topics, m_domainParticipant, m_topics.Values
      ensures Valid() && State() == RegistrySpec.SetReaderQos(old(State()), t, qos, refused)
      ensures t in old(m_topics) ==> m_topics == old(m_topics)
      ensures OnlyNewGroups()
    {
      RegistrySteps.SetReaderQosInv(State(), t, qos, refused);
      ghost var s := State();
      FindOrAddGroup(t);
      SetReaderQosOf(t, qos, refused);
      EnsureGroupThenPut(s, t);
    }

    /** setReaderQos on a group that is there. */
    method SetReaderQosOf(t: string, qos: ReaderQos, refused: set<Handle>)
      requires Linked() && t in m_topics
      modifies m_domainParticipant, m_topics[t]
      ensures Linked() && State() == RegistrySpec.SetReaderQos(old(State()), t, qos, refused)
    {
      var g := m_topics[t];
      m_domainParticipant.SetReadersQos(g.readers, qos, refused);
      g.dataReaderQos := qos;
      OneGroupChanged(t);
    }

    method SetWriterQos(t: string, qos: int, refused: set<Handle>)
      requires Valid()
      modifies `m_topics, m_domainParticipant, m_topics.Values
      ensures Valid() && State() == RegistrySpec.SetWriterQos(old(State()), t, qos, refused)
      ensures t in old(m_topics) ==> m_topics == old(m_topics)
      ensures OnlyNewGroups()
    {
      RegistrySteps.SetWriterQosInv(State(), t, qos, refused);
      ghost var s := State();
      FindOrAddGroup(t);
      SetWriterQosOf(t, qos, refused);
      EnsureGroupThenPut(s, t);
    }

    method SetWriterQosOf(t: string, qos: int, refused: set<Handle>)
      requires Linked() && t in m_topics
      modifies m_domainParticipant, m_topics[t]
      ensures Linked() && State() == RegistrySpec.SetWriterQos(old(State()), t, qos, refused)
    {
      var g := m_topics[t];
      if g.writer != NIL {
        m_domainParticipant.SetWriterQos(g.writer, qos, refused);
      }
      g.dataWriterQos := qos;
      OneGroupChanged(t);
    }

    method SetPublisherQos(t: string, qos: GroupQos, refused: set<Handle>)
      requires Valid()
      modifies `m_topics, m_domainParticipant, m_topics.Values
      ensures Valid() && State() == RegistrySpec.SetPublisherQos(old(State()), t, qos, refused)
      ensures t in old(m_topics) ==> m_topics == old(m_topics)
      ensures OnlyNewGroups()
    {
      RegistrySteps.SetPublisherQosInv(State(), t, qos, refused);
      ghost var s := State();
      FindOrAddGroup(t);
      SetPublisherQosOf(t, qos, refused);
      EnsureGroupThenPut(s, t);
    }

    method SetPublisherQosOf(t: string, qos: GroupQos, refused: set<Handle>)
      requires Linked() && t in m_topics
      modifies m_domainParticipant, m_topics[t]
      ensures Linked() && State() == RegistrySpec.SetPublisherQos(old(State()), t, qos, refused)
    {
      var g := m_topics[t];
      if g.publisher != NIL {
        m_domainParticipant.SetGroupQos(g.publisher, qos, refused);
      }
      g.pubQos := qos;
      OneGroupChanged(t);
    }

    method SetSubscriberQos(t: string, qos: GroupQos, refused: set<Handle>)
      requires Valid()
      modifies `m_topics, m_domainParticipant, m_topics.Values
      ensures Valid() && State() == RegistrySpec.SetSubscriberQos(old(State()), t, qos, refused)
      ensures t in old(m_topics) ==> m_topics == old(m_topics)
      ensures OnlyNewGroups()
    {
      RegistrySteps.SetSubscriberQosInv(State(), t, qos, refused);
      ghost var s := State();
      FindOrAddGroup(t);
      SetSubscriberQosOf(t, qos, refused);
      EnsureGroupThenPut(s, t);
    }

    method SetSubscriberQosOf(t: string, qos: GroupQos, refused: set<Handle>)
      requires Linked() && t in m_topics
      modifies m_domainParticipant, m_topics[t]
      ensures Linked() && State() == RegistrySpec.SetSubscriberQos(old(State()), t, qos, refused)
    {
      var g := m_topics[t];
      if g.subscriber != NIL {
        m_domainParticipant.SetGroupQos(g.subscriber, qos, refused);
      }
      g.subQos := qos;
      OneGroupChanged(t);
    }

    method RegisterQos(t: string, preset: int, refused: set<Handle>) returns (ok: bool)
      requires Valid()
      modifies `m_topics, m_domainParticipant, m_topics.Values
      ensures Valid() && Step(State(), ok) == RegistrySpec.RegisterQos(old(State()), t, preset, refused)
      ensures OnlyNewGroups()
    {
      RegistrySteps.RegisterQosInv(State(), t, preset, refused);
      if t !in m_topics {
        return false;
      }
      if m_topics[t].qosPreset != -1 {
        return true;
      }
      if !(0 <= preset <= LAST_PRESET) {
        return false;
      }
      ApplyPreset(t, preset, refused);
      return true;
    }

    method ApplyPreset(t: string, preset: int, refused: set<Handle>)
      requires Linked() && t in m_topics
      modifies m_domainParticipant, m_topics[t]
      ensures Linked()
      ensures var s := RegistrySpec.SetReaderQos(old(State()), t, PresetReaderQos(preset), refused);
              var s' := RegistrySpec.SetWriterQos(s, t, preset, refused);
              State() == Put(s', t, s'.topics[t].(qosPreset := preset))
    {
      SetReaderQosOf(t, PresetReaderQos(preset), refused);
      SetWriterQosOf(t, preset, refused);
      StorePreset(t, preset);
    }

    method StorePreset(t: string, preset: int)
      requires Linked() && t in m_topics
      modifies m_topics[t]
      ensures Linked() && var s := old(State()); State() == Put(s, t, s.topics[t].(qosPreset := preset))
    {
      m_topics[t].qosPreset := preset;
      OneGroupChanged(t);
    }

    /** The topic of a group that has none; the group is stored once the topic exists. */
    method AddTopic(t: string, accept: bool) returns (h: Handle)
      requires Linked()
      modifies `m_topics, `listenerObjects, `nextListener, m_domainParticipant, m_topics.Values
      ensures Linked() && (State(), h) == RegistrySpec.AddTopic(old(State()), t, accept)
      ensures OnlyNewGroups()
    {
      ghost var s := State();
      h := CreateTopicFor(t, accept);
      if h != NIL {
        TopicStored(s, State(), t, h, accept);
        StoreTopic(t, h, nextListener - 1);
      }
    }

    method CreateTopicFor(t: string, accept: bool) returns (h: Handle)
      requires Linked()
      modifies `listenerObjects, `nextListener, m_domainParticipant
      ensures var s, s1 := old(State()), State();
              && Linked() && (s1.dds, h) == s.dds.CreateTopic(t, s.nextListener, accept)
              && s1 == if h == NIL then s
                       else s.(dds := s1.dds, listeners := s.listeners[s.nextListener := NIL],
                               nextListener := s.nextListener + 1)
    {
      h := m_domainParticipant.CreateTopic(t, nextListener, accept);
      if h != NIL {
        listenerObjects, nextListener := listenerObjects[nextListener := NIL], nextListener + 1;
      }
      NoGroupChanged();
    }

    method StoreTopic(t: string, h: Handle, l: nat)
      requires Linked()
      modifies `m_topics, m_topics.Values
      ensures Linked() && OnlyNewGroups()
      ensures var s := EnsureGroup(old(State()), t);
              State() == Put(s, t, s.topics[t].(domain := true, topic := h, topicListener := l))
    {
      FindOrAddGroup(t);
      StoreTopicOf(t, h, l);
    }

    method StoreTopicOf(t: string, h: Handle, l: nat)
      requires Linked() && t in m_topics
      modifies m_topics[t]
      ensures Linked()
      ensures var s := old(State());
              State() == Put(s, t, s.topics[t].(domain := true, topic := h, topicListener := l))
    {
      m_topics[t].StoreTopic(h, l);
      OneGroupChanged(t);
    }

    method RegisterTopic(t: string, preset: int, topicOk: bool, refused: set<Handle>) returns (threw: bool, ok: bool)
      requires Valid()
      modifies `m_topics, `listenerObjects, `nextListener, m_domainParticipant, m_topics.Values
      ensures Valid()
      ensures (if threw then Threw else Finished(Step(State(), ok)))
              == RegistrySpec.RegisterTopic(old(State()), t, preset, topicOk, refused)
      ensures threw ==> State() == old(State())
      ensures OnlyNewGroups()
    {
      RegistryOperations.RegisterTopicInv(State(), t, preset, topicOk, refused);
      if !m_joined {
        return true, false;
      }
      if t in m_topics && m_topics[t].topic != NIL {
        return false, true;
      }
      RegistrySteps.AddTopicInv(State(), t, topicOk);
      var topic := AddTopic(t, topicOk);
      if topic == NIL {
        return false, false;
      }
      ok := RegisterQos(t, preset, refused);
      return false, ok;
    }

    method AddPartition(t: string, name: string) returns (ok: bool)
      requires Valid()
      modifies m_topics.Values
      ensures Valid() && Step(State(), ok) == RegistrySpec.AddPartition(old(State()), t, name)
    {
      RegistrySteps.AddPartitionInv(State(), t, name);
      if t !in m_topics {
        return false;
      }
      AppendPartition(t, name);
      return true;
    }

    method AppendPartition(t: string, name: string)
      requires Linked() && t in m_topics
      modifies m_topics[t]
      ensures Linked() && State() == RegistrySpec.AddPartition(old(State()), t, name).next
    {
      var g := m_topics[t];
      g.subQos := WithPartition(g.subQos, name);
      g.pubQos := WithPartition(g.pubQos, name);
      OneGroupChanged(t);
    }

    method GetReader(t: string, r: string) returns (h: Handle)
      ensures h == RegistrySpec.GetReader(State(), t, r)
    {
      if r == "" || t !in m_topics || r !in m_topics[t].readers {
        return NIL;
      }
      return m_topics[t].readers[r];
    }

    method SetMaxDataRate(t: string, r: string, rate: int, refused: set<Handle>) returns (ok: bool)
      requires Valid()
      modifies m_domainParticipant
      ensures Valid() && Step(State(), ok) == RegistrySpec.SetMaxDataRate(old(State()), t, r, rate, refused)
    {
      RegistrySteps.SetMaxDataRateInv(State(), t, r, rate, refused);
      ok := LimitRate(t, r, rate, refused);
    }

    method LimitRate(t: string, r: string, rate: int, refused: set<Handle>) returns (ok: bool)
      requires Linked()
      modifies m_domainParticipant
      ensures Linked() && Step(State(), ok) == RegistrySpec.SetMaxDataRate(old(State()), t, r, rate, refused)
    {
      if rate < 1 {
        return false;
      }
      var reader := GetReader(t, r);
      if reader == NIL {
        return false;
      }
      var qos := m_topics[t].dataReaderQos.(minimumSeparation := Separation(rate));
      m_domainParticipant.SetReaderQos(reader, qos, refused);
      NoGroupChanged();
      return true;
    }

    // ---- replaceFilter ----

    method StopEmitter(t: string, r: string)
      requires Linked() && t in m_topics
      modifies m_topics[t]
      ensures Linked() && State() == RegistrySpec.StopEmitter(old(State()), t, r)
    {
      var g := m_topics[t];
      if r in g.emitters && g.emitters[r].running {
        g.emitters := g.emitters[r := g.emitters[r].Stop()];
        OneGroupChanged(t);
      }
    }

    method RestartEmitter(t: string, r: string, attached: bool)
      requires Linked() && t in m_topics && r in m_topics[t].readers
      modifies m_topics[t]
      ensures Linked() && State() == RegistrySpec.RestartEmitter(old(State()), t, r, attached)
    {
      var g := m_topics[t];
      if r in g.emitters {
        g.emitters := g.emitters[r := g.emitters[r].SetReader(g.readers[r]).Run(attached)];
        OneGroupChanged(t);
      }
    }

    /** Look the filtered topic up in the group; delete it and erase its entry, then stop looking. */
    method DropFilter(t: string, description: Handle, accept: bool)
      requires Linked() && t in m_topics && Injective(m_topics[t].filteredTopics)
      modifies m_domainParticipant, m_topics[t]
      ensures Linked() && State() == RegistrySpec.DropFilter(old(State()), t, description, accept)
    {
      var g := m_topics[t];
      var names := g.filteredTopics.Keys;
      while names != {}
        invariant names <= g.filteredTopics.Keys
        invariant forall n :: n in g.filteredTopics && n !in names ==> g.filteredTopics[n] != description
        invariant State() == old(State()) && Linked()
      {
        var n :| n in names;
        names := names - {n};
        if g.filteredTopics[n] == description {
          ghost var found := set m | m in g.filteredTopics && g.filteredTopics[m] == description;
          assert found == {n};
          DeleteFilter(t, n, accept);
          return;
        }
      }
    }

    /** delete_contentfilteredtopic, and the entry goes if that worked. */
    method DeleteFilter(t: string, n: string, accept: bool)
      requires Linked() && t in m_topics && n in m_topics[t].filteredTopics
      modifies m_domainParticipant, m_topics[t]
      ensures Linked()
      ensures var s := old(State());
              var (p, rc) := s.dds.Delete(s.topics[t].filteredTopics[n]);
              State() == if !accept || rc != RETCODE_OK then s
                         else Put(s.(dds := p), t, s.topics[t].(filteredTopics := s.topics[t].filteredTopics - {n}))
    {
      var g := m_topics[t];
      if accept {
        var rc := m_domainParticipant.Delete(g.filteredTopics[n]);
        if rc == RETCODE_OK {
          g.filteredTopics := g.filteredTopics - {n};
        }
      }
      OneGroupChanged(t);
    }

    method RecreateReader(t: string, r: string, description: Handle, accept: bool) returns (ok: bool)
      requires Linked() && t in m_topics && r in m_topics[t].m_readerListeners
      modifies m_domainParticipant, m_topics[t]
      ensures Linked() && Step(State(), ok) == RegistrySpec.RecreateReader(old(State()), t, r, description, accept)
    {
      var g := m_topics[t];
      var h := m_domainParticipant.CreateReader(g.subscriber, description, g.m_readerListeners[r], g.dataReaderQos, accept);
      if h != NIL {
        g.readers := g.readers[r := h];
      }
      OneGroupChanged(t);
      return h != NIL;
    }

    method FinishReplace(t: string, r: string, description: Handle, env: ReplaceEnv) returns (ok: bool)
      requires Linked() && t in m_topics && r in m_topics[t].m_readerListeners
      modifies m_domainParticipant, m_topics[t]
      ensures Linked() && Step(State(), ok) == RegistrySpec.FinishReplace(old(State()), t, r, description, env)
    {
      ok := RecreateReader(t, r, description, env.readerOk);
      if ok {
        assert r in State().topics[t].readers;
        RestartEmitter(t, r, env.attached);
      }
    }

    method Rebuild(t: string, r: string, filter: string, name: string, env: ReplaceEnv) returns (ok: bool)
      requires Linked() && t in m_topics && r in m_topics[t].m_readerListeners
      modifies m_domainParticipant, m_topics[t]
      ensures Linked() && Step(State(), ok) == RegistrySpec.Rebuild(old(State()), t, r, filter, name, env)
    {
      var target := m_topics[t].topic;
      if filter != "" {
        target := AddFilter(t, name, filter, env.filterOk);
        if target == NIL {
          return false;
        }
      }
      assert r in State().topics[t].readerListeners;
      ok := FinishReplace(t, r, target, env);
    }

    method ReplaceFilter(t: string, r: string, filter: string, env: ReplaceEnv) returns (ok: bool)
      requires Valid()
      modifies m_domainParticipant, m_topics.Values
      ensures Valid() && Step(State(), ok) == RegistrySpec.ReplaceFilter(old(State()), t, r, filter, env)
    {
      ghost var s := State();
      if t in m_topics {
        GroupCanBeDestroyed(s, t);
      }
      ok := StopAndReplace(t, r, filter, env);
      RegistryOperations.ReplaceFilterInv(s, t, r, filter, env);
    }

    method StopAndReplace(t: string, r: string, filter: string, env: ReplaceEnv) returns (ok: bool)
      requires Linked() && (t in m_topics ==> Injective(m_topics[t].filteredTopics))
      modifies m_domainParticipant, m_topics.Values
      ensures Linked() && Step(State(), ok) == RegistrySpec.ReplaceFilter(old(State()), t, r, filter, env)
    {
      if r == "" || t !in m_topics || m_topics[t].subscriber == NIL {
        return false;
      }
      var reader := GetReader(t, r);
      if reader == NIL || r !in m_topics[t].m_readerListeners {
        return false;
      }
      StopEmitter(t, r);
      if !env.containedOk {
        return false;
      }
      ok := ReplaceReader(t, r, filter, reader, env);
    }

    /** The part of replaceFilter that runs with the emitter stopped. */
    method ReplaceReader(t: string, r: string, filter: string, reader: Handle, env: ReplaceEnv) returns (ok: bool)
      requires Linked() && t in m_topics && r in m_topics[t].m_readerListeners && Injective(m_topics[t].filteredTopics)
      modifies m_domainParticipant, m_topics[t]
      ensures Linked()
      ensures var s := old(State());
              var (p, rc) := s.dds.DeleteReader(s.topics[t].subscriber, reader);
              if rc != RETCODE_OK then !ok && State() == s
              else
                var description := s.dds.entities[reader].description;
                var name := NextFilterName(t, r, FilterNameOf(s.dds, description));
                var dropped := RegistrySpec.DropFilter(s.(dds := p), t, description, env.filterDeleteOk);
                Step(State(), ok) == RegistrySpec.Rebuild(dropped, t, r, filter, name, env)
    {
      ghost var s := State();
      var graph := m_domainParticipant.graph;
      var rc := DeleteReader(t, reader);
      if rc != RETCODE_OK {
        return false;
      }
      var description := graph.entities[reader].description;
      var existing := FilterNameOf(graph, description);
      DropFilter(t, description, env.filterDeleteOk);
      assert r in State().topics[t].readerListeners;
      ok := Rebuild(t, r, filter, NextFilterName(t, r, existing), env);
    }

    method DeleteReader(t: string, reader: Handle) returns (rc: ReturnCode)
      requires Linked() && t in m_topics
      modifies m_domainParticipant
      ensures var s := old(State());
              && Linked() && State() == s.(dds := State().dds)
              && (State().dds, rc) == s.dds.DeleteReader(s.topics[t].subscriber, reader)
              && (rc != RETCODE_OK ==> State() == s)
    {
      rc := m_domainParticipant.DeleteReader(m_topics[t].subscriber, reader);
      NoGroupChanged();
    }

    // ---- callbacks and handlers ----

    method AddCallback(t: string, r: string, messageType: nat, func: nat, queue: bool, async: bool, attached: bool)
      returns (ok: bool)
      requires Valid()
      modifies m_topics.Values
      ensures Valid()
      ensures Step(State(), ok) == RegistrySpec.AddCallback(old(State()), t, r, messageType, func, queue, async, attached)
    {
      RegistrySteps.AddCallbackInv(State(), t, r, messageType, func, queue, async, attached);
      var reader := GetReader(t, r);
      if reader == NIL {
        return false;
      }
      AddToEmitter(t, r, reader, messageType, func, queue, async, attached);
      return true;
    }

    method AddToEmitter(t: string, r: string, reader: Handle, messageType: nat, func: nat,
                        queue: bool, async: bool, attached: bool)
      requires Linked() && t in m_topics
      modifies m_topics[t]
      ensures Linked()
      ensures var s := old(State());
              var g := s.topics[t];
              var e := (if r in g.emitters then g.emitters[r] else NewEmitter(reader)).AddCallback(messageType, func).SetAsync(async);
              State() == Put(s, t, g.(emitters := g.emitters[r := if queue then e else e.Run(attached)]))
    {
      var g := m_topics[t];
      var e := if r in g.emitters then g.emitters[r] else NewEmitter(reader);
      e := e.AddCallback(messageType, func).SetAsync(async);
      if !queue {
        e := e.Run(attached);
      }
      g.emitters := g.emitters[r := e];
      OneGroupChanged(t);
    }

    /** SetHandler on the listener objects that hs names one after the other. */
    method SetHandlers(hs: map<string, nat>, handler: nat)
      requires hs.Values <= listenerObjects.Keys
      modifies `listenerObjects
      ensures listenerObjects == WithHandler(old(listenerObjects), hs.Values, handler)
    {
      ghost var done: set<nat> := {};
      var names := hs.Keys;
      while names != {}
        invariant names <= hs.Keys
        invariant done == set r | r in hs && r !in names :: hs[r]
        invariant listenerObjects == WithHandler(old(listenerObjects), done, handler)
      {
        var r :| r in names;
        assert hs[r] in hs.Values;
        listenerObjects := listenerObjects[hs[r] := handler];
        names, done := names - {r}, done + {hs[r]};
      }
      assert done == hs.Values;
    }

    method SetReaderListenerHandler(handler: nat)
      requires Valid()
      modifies `m_rlHandler, `listenerObjects
      ensures Valid() && State() == RegistrySpec.SetReaderListenerHandler(old(State()), handler)
    {
      RegistryOperations.SetReaderListenerHandlerInv(State(), handler);
      ListenersAreAllocated(State());
      m_rlHandler := handler;
      NoGroupChanged();
      TellReaderListeners(handler);
    }

    method TellReaderListeners(handler: nat)
      requires Linked() && forall t :: t in State().topics ==> State().topics[t].readerListeners.Values <= listenerObjects.Keys
      modifies `listenerObjects
      ensures Linked()
      ensures var s := old(State()); State() == s.(listeners := WithHandler(s.listeners, ReaderListeners(s), handler))
    {
      ghost var s, done: set<string> := State(), {};
      var names := m_topics.Keys;
      while names != {}
        invariant names <= m_topics.Keys && done == m_topics.Keys - names
        invariant listenerObjects == WithHandler(s.listeners, ListenersOf(s, done), handler)
      {
        var t :| t in names;
        OneMoreTopic(s, done, t, handler);
        assert s.topics[t] == m_topics[t].State();
        SetHandlers(m_topics[t].m_readerListeners, handler);
        names, done := names - {t}, done + {t};
      }
      assert ListenersOf(s, done) == ReaderListeners(s);
      NoGroupChanged();
    }

    /** Tell every group's writer listener; a group without one ends the program. */
    method SetWriterListenerHandler(handler: nat) returns (crashed: bool)
      requires Valid()
      modifies `m_wlHandler, `listenerObjects
      ensures !crashed ==> Valid()
      ensures (if crashed then Crashed else HandlerSet(State())) == RegistrySpec.SetWriterListenerHandler(old(State()), handler)
    {
      ghost var s := State();
      ListenersAreAllocated(s);
      if RegistrySpec.SetWriterListenerHandler(s, handler).HandlerSet? {
        RegistryOperations.SetWriterListenerHandlerInv(s, handler);
      }
      m_wlHandler := handler;
      NoGroupChanged();
      crashed := TellWriterListeners(handler);
      assert WritersOf(s, s.topics.Keys) == set t | t in s.topics :: s.topics[t].writerListener;
    }

    method TellWriterListeners(handler: nat) returns (crashed: bool)
      requires Linked() && forall t :: t in State().topics ==> State().topics[t].writerListener in listenerObjects.Keys + {NIL}
      modifies `listenerObjects
      ensures Linked()
      ensures var s := old(State());
              var ls := WritersOf(s, s.topics.Keys);
              && crashed == (NIL in ls)
              && (!crashed ==> State() == s.(listeners := WithHandler(s.listeners, ls, handler)))
    {
      ghost var s, done: set<string> := State(), {};
      assert WritersOf(s, done) == {} && WithHandler(s.listeners, {}, handler) == s.listeners;
      hide WithHandler, WritersOf;
      var names := m_topics.Keys;
      while names != {}
        invariant names <= m_topics.Keys && done == s.topics.Keys - names
        invariant NIL !in WritersOf(s, done) && listenerObjects == WithHandler(s.listeners, WritersOf(s, done), handler)
      {
        var t :| t in names;
        var l := m_topics[t].m_writerListener;
        OneMoreWriter(s, done, t, handler);
        assert s.topics[t] == m_topics[t].State();
        if l == NIL {
          OneMoreWriter(s, s.topics.Keys, t, handler);
          assert s.topics.Keys + {t} == s.topics.Keys;
          return true;
        }
        listenerObjects := listenerObjects[l := handler];
        assert s.topics.Keys - (names - {t}) == done + {t};
        names, done := names - {t}, done + {t};
      }
      assert done == s.topics.Keys;
      NoGroupChanged();
      return false;
    }

    // ---- unregisterTopic ----

    method UnregisterTopic(t: string) returns (ok: bool, clean: bool, ghost stopped: map<string, EmitterState>)
      requires Valid()
      modifies `m_topics, `listenerObjects, m_domainParticipant, m_topics.Values
      ensures Linked() && Unregistered(State(), ok, clean, stopped) == RegistrySpec.UnregisterTopic(old(State()), t)
      ensures (t in old(m_topics) ==> !RegistryTeardown.OnLoan(old(State()).dds, old(State()).topics[t])) ==> Valid()
      ensures m_topics == old(m_topics) - {t} && forall r :: r in stopped ==> !stopped[r].Joinable()
    {
      ghost var s := State();
      if t in s.topics ==> !RegistryTeardown.OnLoan(s.dds, s.topics[t]) {
        RegistryOperations.UnregisterTopicInv(s, t);
      }
      if t !in m_topics {
        return false, true, map[];
      }
      GroupCanBeDestroyed(s, t);
      clean, stopped := EraseAndDestroy(t);
      return true, clean, stopped;
    }

    /** The group leaves the map first and is destroyed after the lock is released. */
    method EraseAndDestroy(t: string) returns (clean: bool, ghost stopped: map<string, EmitterState>)
      requires Linked() && t in m_topics && m_domainParticipant.graph.Valid()
      requires CanBeDestroyed(m_topics[t].State(), m_domainParticipant.graph)
      modifies `m_topics, `listenerObjects, m_domainParticipant, m_topics[t]
      ensures Linked() && Unregistered(State(), true, clean, stopped) == RegistrySpec.UnregisterTopic(old(State()), t)
      ensures m_topics == old(m_topics) - {t} && forall r :: r in stopped ==> !stopped[r].Joinable()
    {
      var g := m_topics[t];
      m_topics := m_topics - {t};
      var listeners := OwnListeners(g.State());
      clean, stopped := g.Destroy(m_domainParticipant);
      listenerObjects := listenerObjects - listeners;
      OneGroupGone(t);
    }

    twostate lemma OneGroupGone(t: string)
      requires t in old(m_topics) && m_topics == old(m_topics) - {t} && forall x :: x in m_topics ==> unchanged(m_topics[x])
      ensures State().topics == old(State()).topics - {t}
      ensures old(State()).topics[t] == old(m_topics[t].State())
    {
    }

    /** cleanUpTopicsForOneManager with its tasks run one after the other: with nothing on
        loan, no topic and no entity is left, and every task found its topic. */
    method CleanUpTopics() returns (allClear: bool)
      requires Valid() && m_domainParticipant.graph.loans == {}
      modifies `m_topics, `listenerObjects, m_domainParticipant, m_topics.Values
      ensures Valid() && allClear && m_topics == map[] && m_domainParticipant.graph.entities == map[]
    {
      allClear := true;
      while m_topics != map[]
        invariant Valid() && m_domainParticipant.graph.loans == {} && allClear
        invariant m_topics.Values <= old(m_topics.Values)
        decreases |m_topics|
      {
        var t :| t in m_topics;
        RegistryTeardown.TeardownResult(State(), t);
        var ok, clean, stopped := UnregisterTopic(t);
        allClear := allClear && ok;
      }
      RegistryTheorems.NoTopicsNoEntities(State());
    }
  }
}
