/**
  The participant handle and the TopicGroup objects, updated in place; the group's
  destructor is proved to do what the registry's teardown says.
*/
module Groups {
  import opened Dds
  import opened Emitters
  import opened RegistrySpec
  import opened RegistryInvariant

  /** The participant handle: every call goes to the service. */
  class DomainParticipant {
    var graph: Participant

    constructor ()
      ensures graph == EMPTY_PARTICIPANT
    {
      graph := EMPTY_PARTICIPANT;
    }

    method CreateTopic(name: string, listener: nat, accept: bool) returns (h: Handle)
      modifies this
      ensures (graph, h) == old(graph).CreateTopic(name, listener, accept)
    {
      var (p, k) := graph.CreateTopic(name, listener, accept);
      graph, h := p, k;
    }

    method CreateFilteredTopic(name: string, related: Handle, expression: string, accept: bool) returns (h: Handle)
      modifies this
      ensures (graph, h) == old(graph).CreateFilteredTopic(name, related, expression, accept)
    {
      var (p, k) := graph.CreateFilteredTopic(name, related, expression, accept);
      graph, h := p, k;
    }

    method CreatePublisher(qos: GroupQos, accept: bool) returns (h: Handle)
      modifies this
      ensures (graph, h) == old(graph).CreatePublisher(qos, accept)
    {
      var (p, k) := graph.CreatePublisher(qos, accept);
      graph, h := p, k;
    }

    method CreateSubscriber(qos: GroupQos, accept: bool) returns (h: Handle)
      modifies this
      ensures (graph, h) == old(graph).CreateSubscriber(qos, accept)
    {
      var (p, k) := graph.CreateSubscriber(qos, accept);
      graph, h := p, k;
    }

    method CreateWriter(publisher: Handle, topic: Handle, listener: nat, qos: int, accept: bool) returns (h: Handle)
      modifies this
      ensures (graph, h) == old(graph).CreateWriter(publisher, topic, listener, qos, accept)
    {
      var (p, k) := graph.CreateWriter(publisher, topic, listener, qos, accept);
      graph, h := p, k;
    }

    method CreateReader(subscriber: Handle, description: Handle, listener: nat, qos: ReaderQos, accept: bool)
      returns (h: Handle)
      modifies this
      ensures (graph, h) == old(graph).CreateReader(subscriber, description, listener, qos, accept)
    {
      var (p, k) := graph.CreateReader(subscriber, description, listener, qos, accept);
      graph, h := p, k;
    }

    /** set_qos on one reader after the other. */
    method SetReadersQos(readers: map<string, Handle>, qos: ReaderQos, refused: set<Handle>)
      modifies this
      ensures graph == ApplyReaderQos(old(graph), readers.Values - refused, qos)
    {
      ghost var p, done: set<Handle> := graph, {};
      var names := readers.Keys;
      assert graph.entities == ApplyReaderQos(p, done - refused, qos).entities;
      while names != {}
        invariant names <= readers.Keys
        invariant done == set r | r in readers && r !in names :: readers[r]
        invariant graph == ApplyReaderQos(p, done - refused, qos)
      {
        var r :| r in names;
        SetReaderQos(readers[r], qos, refused);
        names, done := names - {r}, done + {readers[r]};
        assert graph.entities == ApplyReaderQos(p, done - refused, qos).entities;
      }
      assert done == readers.Values;
    }

    method SetReaderQos(h: Handle, qos: ReaderQos, refused: set<Handle>)
      modifies this
      ensures graph == if h in refused then old(graph) else old(graph).SetReaderQos(h, qos)
    {
      if h !in refused {
        graph := graph.SetReaderQos(h, qos);
      }
    }

    method SetWriterQos(h: Handle, qos: int, refused: set<Handle>)
      modifies this
      ensures graph == if h in refused then old(graph) else old(graph).SetWriterQos(h, qos)
    {
      if h !in refused {
        graph := graph.SetWriterQos(h, qos);
      }
    }

    method SetGroupQos(h: Handle, qos: GroupQos, refused: set<Handle>)
      modifies this
      ensures graph == if h in refused then old(graph) else old(graph).SetGroupQos(h, qos)
    {
      if h !in refused {
        graph := graph.SetGroupQos(h, qos);
      }
    }

    method Delete(h: Handle) returns (rc: ReturnCode)
      modifies this
      ensures (graph, rc) == old(graph).Delete(h)
    {
      var (p, code) := graph.Delete(h);
      graph, rc := p, code;
    }

    method DeleteReader(subscriber: Handle, h: Handle) returns (rc: ReturnCode)
      modifies this
      ensures (graph, rc) == old(graph).DeleteReader(subscriber, h)
    {
      var (p, code) := graph.DeleteReader(subscriber, h);
      graph, rc := p, code;
    }
  }

  ghost predicate Injective(m: map<string, Handle>) {
    forall x, y :: x in m && y in m && m[x] == m[y] ==> x == y
  }

  lemma RemoveNothing(p: Participant)
    ensures Remove(p, {}) == p
  {
    assert Remove(p, {}).entities == p.entities;
  }

  /** What a group's destructor relies on; the registry invariant gives it. */
  ghost predicate CanBeDestroyed(g: Group, p: Participant) {
    Injective(g.readers) && Injective(g.filteredTopics) && OnlyFilters(g.filteredTopics.Values, p)
  }

  ghost predicate OnlyFilters(hs: set<Handle>, p: Participant) {
    forall h :: h in hs && h in p.entities ==> p.entities[h].FilteredTopic?
  }

  ghost predicate ReadersGone(p: Participant, g: Group, q: Participant, ok: bool) {
    var readers := if g.subscriber != NIL then g.readers.Values else {};
    var gone := Deletable(p, g.subscriber, readers);
    q == Remove(p, gone) && ok == (gone == readers)
  }

  ghost predicate FiltersGone(p: Participant, g: Group, q: Participant, ok: bool) {
    var filters := if g.domain then g.filteredTopics.Values else {};
    var dropped := Unreferenced(p, filters);
    q == Remove(p, dropped) && ok == (dropped == filters)
  }

  ghost predicate OneGone(p: Participant, cond: bool, h: Handle, q: Participant, ok: bool) {
    (q, ok) == DeleteIf(p, cond, h)
  }

  lemma FiltersIgnoreRest(p: Participant, g: Group, g': Group)
    requires g.domain == g'.domain && g.filteredTopics == g'.filteredTopics
    ensures forall q, ok :: FiltersGone(p, g, q, ok) == FiltersGone(p, g', q, ok)
  {
  }

  lemma TeardownInStages(p: Participant, g: Group, p1: Participant, ok1: bool, p2: Participant, ok2: bool,
                         p3: Participant, ok3: bool, p4: Participant, ok4: bool, p5: Participant, ok5: bool,
                         p6: Participant, ok6: bool)
    requires ReadersGone(p, g, p1, ok1)
    requires OneGone(p1, g.publisher != NIL, g.writer, p2, ok2)
    requires OneGone(p2, g.domain, g.publisher, p3, ok3)
    requires OneGone(p3, g.domain, g.subscriber, p4, ok4)
    requires FiltersGone(p4, g, p5, ok5)
    requires OneGone(p5, g.domain, g.topic, p6, ok6)
    ensures Teardown(p, g) == (p6, ok1 && ok2 && ok3 && ok4 && ok5 && ok6)
  {
  }

  /** Deleting readers one after the other is deleting all that could be deleted at the start. */
  lemma ReaderGoesIffDeletable(p: Participant, q: Participant, subscriber: Handle, tried: set<Handle>, h: Handle)
    requires p.Valid() && q.Valid() && q == Remove(p, Deletable(p, subscriber, tried)) && h !in tried
    ensures q.DeleteReader(subscriber, h).0.Valid()
    ensures q.DeleteReader(subscriber, h).0 == Remove(p, Deletable(p, subscriber, tried + {h}))
    ensures q.DeleteReader(subscriber, h).1 == RETCODE_OK <==> h in Deletable(p, subscriber, {h})
    ensures Deletable(p, subscriber, tried + {h}) == tried + {h}
            <==> Deletable(p, subscriber, tried) == tried && h in Deletable(p, subscriber, {h})
  {
    DeleteIsValid(q, h);
    if h in q.entities && q.entities[h].Reader? {
      forall x | x in q.entities ensures !q.entities[x].RefersTo(h) {
        assert q.WellReferenced(q.entities[x]);
      }
    }
    var gone := Deletable(p, subscriber, tried);
    assert Deletable(p, subscriber, tried + {h}) == gone + Deletable(p, subscriber, {h});
    assert q.DeleteReader(subscriber, h).0.entities == Remove(p, Deletable(p, subscriber, tried + {h})).entities;
  }

  lemma FilterGoesIffUnreferenced(p: Participant, q: Participant, tried: set<Handle>, h: Handle)
    requires p.Valid() && q.Valid() && q == Remove(p, Unreferenced(p, tried)) && h !in tried
    requires OnlyFilters(tried + {h}, p)
    ensures q.Delete(h).0.Valid()
    ensures q.Delete(h).0 == Remove(p, Unreferenced(p, tried + {h}))
    ensures q.Delete(h).1 == RETCODE_OK <==> h in Unreferenced(p, {h})
    ensures Unreferenced(p, tried + {h}) == tried + {h}
            <==> Unreferenced(p, tried) == tried && h in Unreferenced(p, {h})
  {
    DeleteIsValid(q, h);
    if h in q.entities && p.Referenced(h) {
      var x :| x in p.entities && p.entities[x].RefersTo(h);
      assert p.WellReferenced(p.entities[x]);
      assert x in q.entities && q.Referenced(h);
    }
    var gone := Unreferenced(p, tried);
    assert Unreferenced(p, tried + {h}) == gone + Unreferenced(p, {h});
    assert q.Delete(h).0.entities == Remove(p, Unreferenced(p, tried + {h})).entities;
  }

  class TopicGroup {
    var domain: bool
    var topic: Handle
    var publisher: Handle
    var subscriber: Handle
    var writer: Handle
    var pubQos: GroupQos
    var subQos: GroupQos
    var dataWriterQos: int
    var dataReaderQos: ReaderQos
    var qosPreset: int
    var m_listener: nat
    var m_writerListener: nat
    var m_readerListeners: map<string, nat>
    var filteredTopics: map<string, Handle>
    var readers: map<string, Handle>
    var emitters: map<string, EmitterState>

    function State(): Group
      reads this
    {
      Group(domain, topic, publisher, subscriber, writer, pubQos, subQos, dataWriterQos, dataReaderQos, qosPreset,
            m_listener, m_writerListener, m_readerListeners, filteredTopics, readers, emitters)
    }

    method StoreTopic(h: Handle, listener: nat)
      modifies this
      ensures State() == old(State()).(domain := true, topic := h, topicListener := listener)
    {
      domain, topic, m_listener := true, h, listener;
    }

    method StoreReader(r: string, reader: Handle, listener: nat)
      modifies this
      ensures State() == old(State()).(readers := old(readers)[r := reader],
                                       readerListeners := old(m_readerListeners)[r := listener])
    {
      readers := readers[r := reader];
      m_readerListeners := m_readerListeners[r := listener];
    }

    method StoreWriter(h: Handle, listener: nat)
      modifies this
      ensures State() == old(State()).(writer := h, writerListener := listener)
    {
      writer, m_writerListener := h, listener;
    }

    // ---- the destructor ----

    /** delete_datareader on every recorded reader. */
    method DestroyReaders(dp: DomainParticipant) returns (clean: bool)
      requires dp.graph.Valid() && Injective(readers)
      modifies dp, `readers
      ensures ReadersGone(old(dp.graph), old(State()), dp.graph, clean) && dp.graph.Valid()
      ensures OnlyFilters(filteredTopics.Values, old(dp.graph)) ==> OnlyFilters(filteredTopics.Values, dp.graph)
    {
      if subscriber == NIL {
        RemoveNothing(dp.graph);
        assert Deletable(dp.graph, subscriber, {}) == {};
        return true;
      }
      ghost var p, tried: set<Handle> := dp.graph, {};
      clean := true;
      var names := readers.Keys;
      while names != {}
        invariant names <= readers.Keys && readers == old(readers)
        invariant tried == set r | r in readers && r !in names :: readers[r]
        invariant dp.graph.Valid() && dp.graph == Remove(p, Deletable(p, subscriber, tried))
        invariant clean == (Deletable(p, subscriber, tried) == tried)
      {
        var r :| r in names;
        ReaderGoesIffDeletable(p, dp.graph, subscriber, tried, readers[r]);
        var rc := dp.DeleteReader(subscriber, readers[r]);
        clean := clean && rc == RETCODE_OK;
        names, tried := names - {r}, tried + {readers[r]};
      }
      assert tried == readers.Values;
      readers := map[];
    }

    /** Stop every emitter, and only then let it go: no joinable thread handle is destroyed. */
    method StopEmitters() returns (ghost stopped: map<string, EmitterState>)
      modifies `emitters
      ensures emitters == map[]
      ensures stopped == Stopped(old(emitters)) && forall r :: r in stopped ==> !stopped[r].Joinable()
    {
      var names := emitters.Keys;
      while names != {}
        invariant names <= emitters.Keys == old(emitters).Keys
        invariant forall r :: r in emitters ==> emitters[r] == if r in names then old(emitters)[r] else old(emitters)[r].Stop()
      {
        var r :| r in names;
        emitters := emitters[r := emitters[r].Stop()];
        names := names - {r};
      }
      stopped := emitters;
      emitters := map[];
    }

    /** delete_contentfilteredtopic on every recorded filter. */
    method DestroyFilters(dp: DomainParticipant) returns (clean: bool)
      requires dp.graph.Valid() && Injective(filteredTopics) && OnlyFilters(filteredTopics.Values, dp.graph)
      modifies dp, `filteredTopics
      ensures FiltersGone(old(dp.graph), old(State()), dp.graph, clean) && dp.graph.Valid()
    {
      if !domain {
        RemoveNothing(dp.graph);
        assert Unreferenced(dp.graph, {}) == {};
        return true;
      }
      ghost var p, tried: set<Handle> := dp.graph, {};
      clean := true;
      var names := filteredTopics.Keys;
      while names != {}
        invariant names <= filteredTopics.Keys && filteredTopics == old(filteredTopics)
        invariant tried == set n | n in filteredTopics && n !in names :: filteredTopics[n]
        invariant dp.graph.Valid() && dp.graph == Remove(p, Unreferenced(p, tried))
        invariant clean == (Unreferenced(p, tried) == tried)
      {
        var n :| n in names;
        FilterGoesIffUnreferenced(p, dp.graph, tried, filteredTopics[n]);
        var rc := dp.Delete(filteredTopics[n]);
        clean := clean && rc == RETCODE_OK;
        names, tried := names - {n}, tried + {filteredTopics[n]};
      }
      assert tried == filteredTopics.Values;
      filteredTopics := map[];
    }

    /** ~TopicGroup: readers, writer, publisher, subscriber, emitters, filters, topic. */
    method Destroy(dp: DomainParticipant) returns (clean: bool, ghost stopped: map<string, EmitterState>)
      requires dp.graph.Valid() && CanBeDestroyed(State(), dp.graph)
      modifies dp, this
      ensures (dp.graph, clean) == Teardown(old(dp.graph), old(State())) && dp.graph.Valid()
      ensures stopped == Stopped(old(emitters)) && forall r :: r in stopped ==> !stopped[r].Joinable()
    {
      ghost var g, p := State(), dp.graph;
      var ok1 := DestroyReaders(dp);
      ghost var p1 := dp.graph;
      var ok2 := DestroyOne(dp, publisher != NIL, writer);
      ghost var p2 := dp.graph;
      var ok3 := DestroyOne(dp, domain, publisher);
      ghost var p3 := dp.graph;
      var ok4 := DestroyOne(dp, domain, subscriber);
      ghost var p4 := dp.graph;
      stopped := StopEmitters();
      FiltersIgnoreRest(p4, State(), g);
      var ok5 := DestroyFilters(dp);
      ghost var p5 := dp.graph;
      var ok6 := DestroyOne(dp, domain, topic);
      TeardownInStages(p, g, p1, ok1, p2, ok2, p3, ok3, p4, ok4, p5, ok5, dp.graph, ok6);
      writer, publisher, subscriber, topic, domain := NIL, NIL, NIL, NIL, false;
      clean := ok1 && ok2 && ok3 && ok4 && ok5 && ok6;
    }

    method DestroyOne(dp: DomainParticipant, cond: bool, h: Handle) returns (ok: bool)
      requires dp.graph.Valid()
      modifies dp
      ensures OneGone(old(dp.graph), cond, h, dp.graph, ok) && dp.graph.Valid()
      ensures OnlyFilters(filteredTopics.Values, old(dp.graph)) ==> OnlyFilters(filteredTopics.Values, dp.graph)
    {
      ok := true;
      if cond && h != NIL {
        DeleteIsValid(dp.graph, h);
        var rc := dp.Delete(h);
        ok := rc == RETCODE_OK;
      }
    }

    constructor ()
      ensures State() == NEW_GROUP
    {
      domain, topic, publisher, subscriber, writer := false, NIL, NIL, NIL, NIL;
      pubQos, subQos := GroupQos([], 0), GroupQos([], 0);
      dataWriterQos, dataReaderQos, qosPreset := DEFAULT_PRESET, PresetReaderQos(DEFAULT_PRESET), -1;
      m_listener, m_writerListener := NIL, NIL;
      m_readerListeners, filteredTopics, readers, emitters := map[], map[], map[], map[];
    }
  }
}
