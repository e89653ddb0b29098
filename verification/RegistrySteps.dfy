/**
  Every small step of an operation preserves the registry invariant.
*/
module RegistrySteps {
  import opened Dds
  import opened Emitters
  import opened RegistrySpec
  import opened RegistryInvariant

  /** A group stays in order while the participant and the listener table grow. */
  lemma GroupInvGrows(s: Registry, t: string, e: Entity, l: nat, handler: nat)
    requires Inv(s) && t in s.topics && l == s.nextListener
    ensures GroupInv(t, s.topics[t], s.dds.Add(e), s.listeners, s.rlHandler, s.wlHandler)
    ensures GroupInv(t, s.topics[t], s.dds.Add(e), s.listeners[l := handler], s.rlHandler, s.wlHandler)
  {
    var g, p := s.topics[t], s.dds;
    assert InvOf(s, t);
    forall h | Owns(g, h) ensures SameOn(p, p.Add(e), h) {
      OwnedIsOld(t, g, p, s.listeners, s.rlHandler, s.wlHandler, h);
    }
    GroupInvFrame(t, g, p, p.Add(e), s.listeners, s.listeners, s.rlHandler, s.wlHandler);
    GroupInvFrame(t, g, p, p.Add(e), s.listeners, s.listeners[l := handler], s.rlHandler, s.wlHandler);
  }

  /** Creating one entity and recording it in group t is a local change. */
  lemma AddedIsLocal(s: Registry, s': Registry, t: string, e: Entity)
    requires t in s'.topics && s'.topics == s.topics[t := s'.topics[t]]
    requires s'.joined == s.joined && s'.rlHandler == s.rlHandler && s'.wlHandler == s.wlHandler
    requires s'.dds == s.dds.Add(e)
    requires forall h: Handle :: Owns(s'.topics[t], h) ==> GroupOwns(s, t, h) || h == s.dds.next
    requires forall h: Handle :: h in s.dds.entities && GroupOwns(s, t, h) ==> Owns(s'.topics[t], h)
    requires Owns(s'.topics[t], s.dds.next)
    requires forall h: Handle :: h in s.dds.entities ==> h < s.dds.next
    requires (s'.listeners == s.listeners && s'.nextListener == s.nextListener)
             || (s'.nextListener == s.nextListener + 1 && s'.listeners.Keys == s.listeners.Keys + {s.nextListener}
                 && forall l :: l in s.listeners && l < s.nextListener ==> s'.listeners[l] == s.listeners[l])
    requires forall l: nat :: OwnsListener(s'.topics[t], l) ==>
               GroupOwnsListener(s, t, l) || s.nextListener <= l < s'.nextListener
    ensures LocalChange(s, s', t)
  {
  }

  lemma EnsureSubscriberInv(s: Registry, t: string, accept: bool)
    requires Inv(s) && t in s.topics && s.topics[t].topic != NIL
    ensures Inv(EnsureSubscriber(s, t, accept))
  {
    var s' := EnsureSubscriber(s, t, accept);
    if s' != s {
      var g, e := s.topics[t], Subscriber(s.topics[t].subQos);
      AddIsValid(s.dds, e);
      GroupInvGrows(s, t, e, s.nextListener, 0);
      assert InvOf(s, t);
      OwnsAfterChange(g, s'.topics[t]);
      LocalStep(s, s', t);
    }
  }

  /** Changing only the subscriber field changes only that part of what is owned. */
  lemma OwnsAfterChange(g: Group, g': Group)
    requires g'.readers == g.readers && g'.filteredTopics == g.filteredTopics
    ensures forall h :: OwnsReader(g', h) == OwnsReader(g, h) && OwnsFilter(g', h) == OwnsFilter(g, h)
  {
  }

  lemma AddFilterInv(s: Registry, t: string, name: string, filter: string, accept: bool)
    requires Inv(s) && t in s.topics && s.topics[t].topic != NIL && s.topics[t].subscriber != NIL
    requires CounterBelow(name, s.dds.next)
    ensures Inv(AddFilter(s, t, name, filter, accept).0)
    ensures var (s', h) := AddFilter(s, t, name, filter, accept);
            h != NIL ==> name !in s.topics[t].filteredTopics
  {
    var (s', h) := AddFilter(s, t, name, filter, accept);
    if h != NIL {
      var e := FilteredTopic(name, s.topics[t].topic, filter);
      AddIsValid(s.dds, e);
      FilterNameIsFree(s, t, name);
      AddedFilterGroupInv(s, t, name, filter);
      AddedFilterIsLocal(s, t, name, filter);
      hide InvOf, LocalChange, CounterBelow;
      LocalStep(s, s', t);
    }
  }

  lemma AddedFilterGroupInv(s: Registry, t: string, name: string, filter: string)
    requires Inv(s) && t in s.topics && s.topics[t].topic != NIL && s.topics[t].subscriber != NIL
    requires CounterBelow(name, s.dds.next) && AddFilter(s, t, name, filter, true).1 != NIL
    ensures InvOf(AddFilter(s, t, name, filter, true).0, t)
  {
    var s', g, e := AddFilter(s, t, name, filter, true).0, s.topics[t], FilteredTopic(name, s.topics[t].topic, filter);
    assert InvOf(s, t);
    GroupInvGrows(s, t, e, s.nextListener, 0);
    FilterNameIsFree(s, t, name);
    forall r | r in g.readers ensures ReaderOk(t, s'.topics[t], s'.dds, r) {
      assert ReaderOk(t, g, s.dds.Add(e), r);
      DescriptionKept(t, g, s'.topics[t], s'.dds, r);
    }
  }

  lemma AddedFilterIsLocal(s: Registry, t: string, name: string, filter: string)
    requires Inv(s) && t in s.topics && AddFilter(s, t, name, filter, true).1 != NIL
    ensures LocalChange(s, AddFilter(s, t, name, filter, true).0, t)
  {
    var (s', h) := AddFilter(s, t, name, filter, true);
    FilterNameIsFree(s, t, name);
    OwnsAfterNewFilter(s.topics[t], s'.topics[t], name, h);
    AddedIsLocal(s, s', t, FilteredTopic(name, s.topics[t].topic, filter));
  }

  lemma OwnsAfterNewFilter(g: Group, g': Group, name: string, h: Handle)
    requires name !in g.filteredTopics && g' == g.(filteredTopics := g.filteredTopics[name := h]) && h != NIL
    ensures forall x :: Owns(g', x) <==> x == h || Owns(g, x)
  {
    assert g'.filteredTopics[name] == h && OwnsFilter(g', h);
    forall x | Owns(g', x) ensures x == h || Owns(g, x) {}
    forall x | Owns(g, x) ensures Owns(g', x) {
      if OwnsFilter(g, x) {
        var n :| n in g.filteredTopics && g.filteredTopics[n] == x;
        assert g'.filteredTopics[n] == x && OwnsFilter(g', x);
      } else if OwnsReader(g, x) {
        assert OwnsReader(g', x);
      }
    }
  }

  /** A name the participant does not use is not recorded by the group. */
  lemma FilterNameIsFree(s: Registry, t: string, name: string)
    requires Inv(s) && t in s.topics && !s.dds.NameInUse(name)
    ensures name !in s.topics[t].filteredTopics
  {
    assert InvOf(s, t);
    var g := s.topics[t];
    if name in g.filteredTopics {
      assert s.dds.Named(g.filteredTopics[name], name);
    }
  }

  /** Recording more filters keeps every description in order. */
  lemma DescriptionKept(t: string, g: Group, g': Group, p: Participant, r: string)
    requires r in g.readers && r in g.readerListeners && ReaderOk(t, g, p, r)
    requires r in g'.readers && r in g'.readerListeners
    requires g'.readers[r] == g.readers[r] && g'.readerListeners[r] == g.readerListeners[r]
    requires g'.subscriber == g.subscriber && g'.topic == g.topic
    requires forall n :: n in g.filteredTopics ==> n in g'.filteredTopics && g'.filteredTopics[n] == g.filteredTopics[n]
    ensures ReaderOk(t, g', p, r)
  {
    var h := g.readers[r];
    if h in p.entities {
      var d := p.entities[h].description;
      if d != g.topic {
        assert IsOwnFilter(t, g, r, d);
        var k :| IsOwnFilterAt(t, g, r, d, k);
        assert IsOwnFilterAt(t, g', r, d, k);
      }
    }
  }

  /** Owned handles follow the records they are kept in. */
  lemma OwnsAfterNewReader(g: Group, g': Group, r: string, h: Handle)
    requires g' == g.(readers := g.readers[r := h], readerListeners := g'.readerListeners) && h != NIL
    ensures forall x :: Owns(g', x) ==> x == h || Owns(g, x)
    ensures forall x :: Owns(g, x) && (r in g.readers ==> x != g.readers[r]) ==> Owns(g', x)
    ensures Owns(g', h)
  {
    assert g'.readers[r] == h && OwnsReader(g', h);
    forall x | Owns(g', x) ensures x == h || Owns(g, x) {}
    forall x | Owns(g, x) && (r in g.readers ==> x != g.readers[r]) ensures Owns(g', x) {
      if OwnsReader(g, x) {
        var q :| q in g.readers && g.readers[q] == x;
        assert g'.readers[q] == x && OwnsReader(g', x);
      } else if OwnsFilter(g, x) {
        assert OwnsFilter(g', x);
      }
    }
  }

  lemma DescriptionStillOk(t: string, g: Group, g': Group, r: string, description: Handle)
    requires DescriptionOk(t, g, r, description) && g'.topic == g.topic && g'.filteredTopics == g.filteredTopics
    ensures DescriptionOk(t, g', r, description)
  {
    if description != g.topic {
      var k :| IsOwnFilterAt(t, g, r, description, k);
      assert IsOwnFilterAt(t, g', r, description, k);
    }
  }

  /** A group with a new reader under r is in order again. */
  lemma NewReaderGroupInv(t: string, g: Group, g': Group, p: Participant, ls: map<nat, nat>, rl: nat, wl: nat,
                          r: string, h: Handle)
    requires GroupInv(t, g, p, ls, rl, wl)
    requires g' == g.(readers := g.readers[r := h], readerListeners := g'.readerListeners, emitters := g'.emitters)
    requires g'.readerListeners == g.readerListeners[r := if r in g'.readerListeners then g'.readerListeners[r] else 0]
    requires g.topic != NIL && g.subscriber != NIL && r != "" && h != NIL && h < p.next
    requires h in p.entities && p.entities[h].Reader? && p.entities[h].subscriber == g.subscriber
    requires r in g'.readerListeners && p.entities[h].listener == g'.readerListeners[r]
    requires DescriptionOk(t, g, r, p.entities[h].description)
    requires forall q :: q in g.readers ==> g.readers[q] != h
    requires ListenersOk(g', ls, rl, wl) && EmittersOk(g')
    ensures GroupInv(t, g', p, ls, rl, wl)
  {
    forall q | q in g'.readers ensures ReaderOk(t, g', p, q) {
      if q != r {
        assert ReaderOk(t, g, p, q);
        DescriptionKept(t, g, g', p, q);
      } else {
        DescriptionStillOk(t, g, g', r, p.entities[h].description);
      }
    }
  }

  lemma AddReaderInv(s: Registry, t: string, r: string, description: Handle, accept: bool)
    requires Inv(s) && t in s.topics && s.topics[t].topic != NIL && s.topics[t].subscriber != NIL
    requires r != "" && r !in s.topics[t].readerListeners
    requires DescriptionOk(t, s.topics[t], r, description)
    ensures Inv(AddReader(s, t, r, description, accept).next)
  {
    var step := AddReader(s, t, r, description, accept);
    if step.result {
      AddIsValid(s.dds, Reader(s.topics[t].subscriber, description, s.nextListener, s.topics[t].readerQos));
      AddedReaderGroupInv(s, t, r, description);
      AddedReaderIsLocal(s, t, r, description);
      hide InvOf, LocalChange;
      LocalStep(s, step.next, t);
    }
  }

  lemma AddedReaderGroupInv(s: Registry, t: string, r: string, description: Handle)
    requires Inv(s) && t in s.topics && s.topics[t].topic != NIL && s.topics[t].subscriber != NIL
    requires r != "" && r !in s.topics[t].readerListeners
    requires DescriptionOk(t, s.topics[t], r, description)
    requires AddReader(s, t, r, description, true).result
    ensures InvOf(AddReader(s, t, r, description, true).next, t)
  {
    var s', l, g := AddReader(s, t, r, description, true).next, s.nextListener, s.topics[t];
    GroupInvGrows(s, t, Reader(g.subscriber, description, l, g.readerQos), l, s.rlHandler);
    HandlesAreOld(s, t);
    NewReaderGroupInv(t, g, s'.topics[t], s'.dds, s'.listeners, s.rlHandler, s.wlHandler, r, s.dds.next);
  }

  lemma AddedReaderIsLocal(s: Registry, t: string, r: string, description: Handle)
    requires Inv(s) && t in s.topics && r !in s.topics[t].readerListeners
    requires AddReader(s, t, r, description, true).result
    ensures LocalChange(s, AddReader(s, t, r, description, true).next, t)
  {
    var s', g := AddReader(s, t, r, description, true).next, s.topics[t];
    assert InvOf(s, t);
    OwnsAfterNewReader(g, s'.topics[t], r, s.dds.next);
    AddedIsLocal(s, s', t, Reader(g.subscriber, description, s.nextListener, g.readerQos));
  }

  /** A group records nothing that does not exist yet. */
  lemma HandlesAreOld(s: Registry, t: string)
    requires Inv(s) && t in s.topics
    ensures forall h: Handle :: Owns(s.topics[t], h) ==> h < s.dds.next
    ensures forall r :: r in s.topics[t].readers ==> s.topics[t].readers[r] < s.dds.next
    ensures forall l: nat :: OwnsListener(s.topics[t], l) ==> l < s.nextListener
    ensures forall r :: r in s.topics[t].readerListeners ==> s.topics[t].readerListeners[r] < s.nextListener
  {
    var g := s.topics[t];
    assert InvOf(s, t);
    forall h: Handle | Owns(g, h) ensures h < s.dds.next {
      OwnedIsOld(t, g, s.dds, s.listeners, s.rlHandler, s.wlHandler, h);
    }
    forall r | r in g.readers ensures g.readers[r] < s.dds.next {
      assert ReaderOk(t, g, s.dds, r);
    }
  }

  /** From s to s' a new reader e with the old listener takes the place of a deleted one. */
  ghost predicate ReaderReplaced(s: Registry, s': Registry, t: string, r: string, e: Entity) {
    && t in s.topics && s.topics[t].topic != NIL && s.topics[t].subscriber != NIL
    && r in s.topics[t].readerListeners && r in s.topics[t].readers && s.topics[t].readers[r] !in s.dds.entities
    && e.Reader? && e.subscriber == s.topics[t].subscriber && e.listener == s.topics[t].readerListeners[r]
    && s.dds.WellReferenced(e) && DescriptionOk(t, s.topics[t], r, e.description)
    && t in s'.topics && EmittersOk(s'.topics[t])
    && s' == Put(s.(dds := s.dds.Add(e)), t,
                 s.topics[t].(readers := s.topics[t].readers[r := s.dds.next], emitters := s'.topics[t].emitters))
  }

  lemma ReplacedReaderInv(s: Registry, s': Registry, t: string, r: string, e: Entity)
    requires Inv(s) && ReaderReplaced(s, s', t, r, e)
    ensures Inv(s')
  {
    AddIsValid(s.dds, e);
    ReplacedReaderGroupInv(s, s', t, r, e);
    ReplacedReaderIsLocal(s, s', t, r, e);
    hide InvOf, LocalChange;
    LocalStep(s, s', t);
  }

  lemma ReplacedReaderGroupInv(s: Registry, s': Registry, t: string, r: string, e: Entity)
    requires Inv(s) && ReaderReplaced(s, s', t, r, e)
    ensures InvOf(s', t)
  {
    var g := s.topics[t];
    GroupInvGrows(s, t, e, s.nextListener, 0);
    HandlesAreOld(s, t);
    assert s'.topics[t].readerListeners == g.readerListeners[r := g.readerListeners[r]];
    assert InvOf(s, t) && ReaderOk(t, g, s.dds, r);
    NewReaderGroupInv(t, g, s'.topics[t], s'.dds, s.listeners, s.rlHandler, s.wlHandler, r, s.dds.next);
  }

  lemma ReplacedReaderIsLocal(s: Registry, s': Registry, t: string, r: string, e: Entity)
    requires Inv(s) && ReaderReplaced(s, s', t, r, e)
    ensures LocalChange(s, s', t)
  {
    var g, g' := s.topics[t], s'.topics[t].(emitters := s.topics[t].emitters);
    OwnsAfterNewReader(g, g', r, s.dds.next);
    SameOwnership(g', s'.topics[t]);
    AddedIsLocal(s, s', t, e);
  }

  /** The end of replaceFilter: the emitter is pointed at the new reader and started. */
  lemma FinishReplaceInv(s: Registry, t: string, r: string, description: Handle, env: ReplaceEnv)
    requires Inv(s) && t in s.topics && s.topics[t].topic != NIL && s.topics[t].subscriber != NIL
    requires r in s.topics[t].readerListeners && r in s.topics[t].readers
    requires s.topics[t].readers[r] !in s.dds.entities
    requires DescriptionOk(t, s.topics[t], r, description)
    ensures Inv(FinishReplace(s, t, r, description, env).next)
  {
    var step, g := FinishReplace(s, t, r, description, env), s.topics[t];
    if step.result {
      var e := Reader(g.subscriber, description, g.readerListeners[r], g.readerQos);
      assert InvOf(s, t) && EmittersOk(g);
      RestartedEmittersOk(s, t, r, description, env);
      FinishedState(s, t, r, description, env);
      hide Inv, InvOf, EmittersOk, DescriptionOk, FinishReplace;
      ReplacedReaderInv(s, step.next, t, r, e);
    }
  }

  lemma FinishedState(s: Registry, t: string, r: string, description: Handle, env: ReplaceEnv)
    requires t in s.topics && r in s.topics[t].readerListeners && FinishReplace(s, t, r, description, env).result
    ensures var s', g := FinishReplace(s, t, r, description, env).next, s.topics[t];
            var e := Reader(g.subscriber, description, g.readerListeners[r], g.readerQos);
            && s.dds.WellReferenced(e) && t in s'.topics
            && s' == Put(s.(dds := s.dds.Add(e)), t,
                         g.(readers := g.readers[r := s.dds.next], emitters := s'.topics[t].emitters))
  {
  }

  lemma RestartedEmittersOk(s: Registry, t: string, r: string, description: Handle, env: ReplaceEnv)
    requires t in s.topics && r in s.topics[t].readerListeners && EmittersOk(s.topics[t])
    requires FinishReplace(s, t, r, description, env).result
    ensures var s' := FinishReplace(s, t, r, description, env).next; t in s'.topics && EmittersOk(s'.topics[t])
  {
  }

  lemma SameOwnership(g: Group, g': Group)
    requires g'.topic == g.topic && g'.publisher == g.publisher && g'.subscriber == g.subscriber && g'.writer == g.writer
    requires g'.readers == g.readers && g'.filteredTopics == g.filteredTopics
    ensures forall h :: Owns(g', h) == Owns(g, h)
  {
  }

  // ---- topic, publisher and writer ----

  lemma AddTopicInv(s: Registry, t: string, accept: bool)
    requires Inv(s) && s.joined
    requires t in s.topics ==> s.topics[t].topic == NIL
    ensures Inv(AddTopic(s, t, accept).0)
  {
    var (s', h) := AddTopic(s, t, accept);
    if h != NIL {
      AddIsValid(s.dds, Topic(t, s.nextListener));
      assert t in s.topics ==> InvOf(s, t);
      AddedIsLocal(s, s', t, Topic(t, s.nextListener));
      LocalStep(s, s', t);
    }
  }

  lemma AddPublisherInv(s: Registry, t: string, accept: bool)
    requires Inv(s) && t in s.topics && s.topics[t].topic != NIL && s.topics[t].publisher == NIL
    ensures Inv(AddPublisher(s, t, accept))
  {
    var s' := AddPublisher(s, t, accept);
    if s' != s {
      var g, e := s.topics[t], Publisher(s.topics[t].pubQos);
      AddIsValid(s.dds, e);
      GroupInvGrows(s, t, e, s.nextListener, 0);
      assert InvOf(s, t);
      SameReaders(t, g, s'.topics[t], s'.dds);
      OwnsAfterChange(g, s'.topics[t]);
      AddedIsLocal(s, s', t, e);
      LocalStep(s, s', t);
    }
  }

  lemma AddWriterInv(s: Registry, t: string, accept: bool)
    requires Inv(s) && t in s.topics && s.topics[t].topic != NIL
    requires s.topics[t].publisher != NIL && s.topics[t].writer == NIL
    ensures Inv(AddWriter(s, t, accept).next)
  {
    var step := AddWriter(s, t, accept);
    if step.result {
      var s', g := step.next, s.topics[t];
      var e := Writer(g.publisher, g.topic, s.nextListener, g.writerQos);
      AddIsValid(s.dds, e);
      GroupInvGrows(s, t, e, s.nextListener, s.wlHandler);
      assert InvOf(s, t);
      HandlesAreOld(s, t);
      SameReaders(t, g, s'.topics[t], s'.dds);
      OwnsAfterChange(g, s'.topics[t]);
      AddedIsLocal(s, s', t, e);
      LocalStep(s, s', t);
    }
  }

  /** The readers of a group do not depend on its other fields. */
  lemma SameReaders(t: string, g: Group, g': Group, p: Participant)
    requires ReadersOk(t, g, p)
    requires g'.readers == g.readers && g'.readerListeners == g.readerListeners && g'.filteredTopics == g.filteredTopics
    requires g'.subscriber == g.subscriber && g'.topic == g.topic
    ensures ReadersOk(t, g', p)
  {
    forall r | r in g'.readers ensures ReaderOk(t, g', p, r) {
      assert ReaderOk(t, g, p, r);
      DescriptionKept(t, g, g', p, r);
    }
  }

  // ---- QoS ----

  /** Equal but for the stored QoS and preset. */
  predicate SameRecords(g: Group, g': Group) {
    g' == g.(pubQos := g'.pubQos, subQos := g'.subQos, writerQos := g'.writerQos,
             readerQos := g'.readerQos, qosPreset := g'.qosPreset)
  }

  /** Changing QoS, stored or live, of one group. */
  lemma QosChangeInv(s: Registry, s': Registry, t: string)
    requires Inv(s) && t in s'.topics && s' == Put(s.(dds := s'.dds), t, s'.topics[t])
    requires SameRecords(GroupOrNew(s, t), s'.topics[t])
    requires SameGraph(s.dds, s'.dds)
    requires forall h: Handle :: h in s.dds.entities && !GroupOwns(s, t, h) ==> s.dds.entities[h] == s'.dds.entities[h]
    ensures Inv(s')
  {
    var g, g' := GroupOrNew(s, t), s'.topics[t];
    SameGraphIsValid(s.dds, s'.dds);
    if t in s.topics {
      assert InvOf(s, t);
      SameShapeGroupInv(t, g, g', s.dds, s'.dds, s.listeners, s.rlHandler, s.wlHandler);
      HandlesAreOld(s, t);
    }
    SameOwnership(g, g');
    LocalStep(s, s', t);
  }

  lemma SameShapeGroupInv(t: string, g: Group, g': Group, p: Participant, q: Participant,
                          ls: map<nat, nat>, rl: nat, wl: nat)
    requires GroupInv(t, g, p, ls, rl, wl) && SameRecords(g, g') && SameGraph(p, q)
    ensures GroupInv(t, g', q, ls, rl, wl)
  {
    assert forall h :: h in p.entities ==> SameShape(p.entities[h], q.entities[h]);
    forall r | r in g.readers ensures ReaderOk(t, g', q, r) {
      assert ReaderOk(t, g, p, r);
      var h := g.readers[r];
      if h in p.entities {
        assert SameShape(p.entities[h], q.entities[h]);
        DescriptionStillOk(t, g, g', r, p.entities[h].description);
      }
    }
  }

  lemma SetReaderQosInv(s: Registry, t: string, qos: ReaderQos, refused: set<Handle>)
    requires Inv(s)
    ensures Inv(SetReaderQos(s, t, qos, refused))
  {
    var s' := SetReaderQos(s, t, qos, refused);
    assert s'.dds.entities.Keys == s.dds.entities.Keys;
    forall h: Handle | h in s.dds.entities && h in GroupOrNew(s, t).readers.Values ensures GroupOwns(s, t, h) {
      assert 0 < h && OwnsReader(s.topics[t], h);
    }
    QosChangeInv(s, s', t);
  }

  lemma SetWriterQosInv(s: Registry, t: string, qos: int, refused: set<Handle>)
    requires Inv(s)
    ensures Inv(SetWriterQos(s, t, qos, refused))
  {
    QosChangeInv(s, SetWriterQos(s, t, qos, refused), t);
  }

  lemma SetPublisherQosInv(s: Registry, t: string, qos: GroupQos, refused: set<Handle>)
    requires Inv(s)
    ensures Inv(SetPublisherQos(s, t, qos, refused))
  {
    QosChangeInv(s, SetPublisherQos(s, t, qos, refused), t);
  }

  lemma SetSubscriberQosInv(s: Registry, t: string, qos: GroupQos, refused: set<Handle>)
    requires Inv(s)
    ensures Inv(SetSubscriberQos(s, t, qos, refused))
  {
    QosChangeInv(s, SetSubscriberQos(s, t, qos, refused), t);
  }

  lemma AddPartitionInv(s: Registry, t: string, name: string)
    requires Inv(s)
    ensures Inv(AddPartition(s, t, name).next)
  {
    if t in s.topics {
      QosChangeInv(s, AddPartition(s, t, name).next, t);
    }
  }

  lemma SetMaxDataRateInv(s: Registry, t: string, r: string, rate: int, refused: set<Handle>)
    requires Inv(s)
    ensures Inv(SetMaxDataRate(s, t, r, rate, refused).next)
  {
    var s', h := SetMaxDataRate(s, t, r, rate, refused).next, GetReader(s, t, r);
    if h != NIL {
      assert OwnsReader(s.topics[t], h);
      assert s'.topics == s.topics[t := s.topics[t]];
      QosChangeInv(s, s', t);
    }
  }

  lemma RegisterQosInv(s: Registry, t: string, preset: int, refused: set<Handle>)
    requires Inv(s)
    ensures Inv(RegisterQos(s, t, preset, refused).next)
  {
    if t in s.topics && 0 <= preset <= LAST_PRESET {
      SetReaderQosInv(s, t, PresetReaderQos(preset), refused);
      var s1 := SetReaderQos(s, t, PresetReaderQos(preset), refused);
      SetWriterQosInv(s1, t, preset, refused);
      var s2 := SetWriterQos(s1, t, preset, refused);
      QosChangeInv(s2, Put(s2, t, s2.topics[t].(qosPreset := preset)), t);
    }
  }

  // ---- emitters ----

  /** Changing the emitters of a group. */
  lemma EmitterChangeInv(s: Registry, t: string, ems: map<string, EmitterState>)
    requires Inv(s) && t in s.topics && s.topics[t].topic != NIL
    requires EmittersOk(s.topics[t].(emitters := ems))
    ensures Inv(Put(s, t, s.topics[t].(emitters := ems)))
  {
    var g, g', s' := s.topics[t], s.topics[t].(emitters := ems), Put(s, t, s.topics[t].(emitters := ems));
    assert InvOf(s, t);
    SameReaders(t, g, g', s.dds);
    HandlesAreOld(s, t);
    SameOwnership(g, g');
    LocalStep(s, s', t);
  }

  lemma StopEmitterInv(s: Registry, t: string, r: string)
    requires Inv(s) && t in s.topics
    ensures Inv(StopEmitter(s, t, r))
  {
    if r in s.topics[t].emitters {
      assert InvOf(s, t);
      assert EmittersOk(s.topics[t]);
      EmitterChangeInv(s, t, StopEmitter(s, t, r).topics[t].emitters);
    }
  }

  lemma AddCallbackInv(s: Registry, t: string, r: string, messageType: nat, func: nat,
                       queue: bool, async: bool, attached: bool)
    requires Inv(s)
    ensures Inv(AddCallback(s, t, r, messageType, func, queue, async, attached).next)
  {
    if GetReader(s, t, r) != NIL {
      assert InvOf(s, t);
      assert EmittersOk(s.topics[t]);
      EmitterChangeInv(s, t, AddCallback(s, t, r, messageType, func, queue, async, attached).next.topics[t].emitters);
    }
  }

  // ---- deletions during replaceFilter ----

  lemma DeleteReaderInv(s: Registry, t: string, r: string)
    requires Inv(s) && t in s.topics && r in s.topics[t].readers
    ensures Inv(s.(dds := s.dds.DeleteReader(s.topics[t].subscriber, s.topics[t].readers[r]).0))
  {
    var g, h := s.topics[t], s.topics[t].readers[r];
    var (p, rc) := s.dds.DeleteReader(g.subscriber, h);
    if rc == RETCODE_OK {
      DeleteIsValid(s.dds, h);
      assert OwnsReader(g, h);
      DeletedReaderGroupInv(s, t, r);
      HandlesAreOld(s, t);
      assert s.topics[t := g] == s.topics;
      LocalStep(s, s.(dds := p), t);
    }
  }

  lemma DeletedReaderGroupInv(s: Registry, t: string, r: string)
    requires Inv(s) && t in s.topics && r in s.topics[t].readers
    requires s.dds.DeleteReader(s.topics[t].subscriber, s.topics[t].readers[r]).1 == RETCODE_OK
    ensures var p := s.dds.DeleteReader(s.topics[t].subscriber, s.topics[t].readers[r]).0;
            GroupInv(t, s.topics[t], p, s.listeners, s.rlHandler, s.wlHandler)
  {
    var g, h := s.topics[t], s.topics[t].readers[r];
    var p := s.dds.DeleteReader(g.subscriber, h).0;
    assert InvOf(s, t);
    forall q | q in g.readers ensures ReaderOk(t, g, p, q) {
      assert ReaderOk(t, g, s.dds, q);
    }
  }

  lemma DropFilterInv(s: Registry, t: string, description: Handle, accept: bool)
    requires Inv(s) && t in s.topics
    ensures Inv(DropFilter(s, t, description, accept))
  {
    var s' := DropFilter(s, t, description, accept);
    if s' != s {
      var g, g' := s.topics[t], s'.topics[t];
      DeleteIsValid(s.dds, description);
      assert OwnsFilter(g, description);
      DroppedFilterGroupInv(s, t, description, accept);
      HandlesAreOld(s, t);
      forall h | h in s'.dds.entities && Owns(g, h) ensures Owns(g', h) {
        if OwnsFilter(g, h) {
          var n :| n in g.filteredTopics && g.filteredTopics[n] == h;
          assert g'.filteredTopics[n] == h && OwnsFilter(g', h);
        } else if OwnsReader(g, h) {
          assert OwnsReader(g', h);
        }
      }
      LocalStep(s, s', t);
    }
  }

  lemma DroppedFilterGroupInv(s: Registry, t: string, description: Handle, accept: bool)
    requires Inv(s) && t in s.topics && DropFilter(s, t, description, accept) != s
    ensures InvOf(DropFilter(s, t, description, accept), t)
  {
    var s' := DropFilter(s, t, description, accept);
    var g, g' := s.topics[t], s'.topics[t];
    assert InvOf(s, t);
    var n :| n in g.filteredTopics && g.filteredTopics[n] == description;
    forall q | q in g.readers ensures ReaderOk(t, g', s'.dds, q) {
      DroppedFilterKeepsReader(s, t, description, accept, q);
    }
  }

  lemma DroppedFilterKeepsReader(s: Registry, t: string, description: Handle, accept: bool, q: string)
    requires t in s.topics && DropFilter(s, t, description, accept) != s
    requires q in s.topics[t].readers && q in s.topics[t].readerListeners && ReaderOk(t, s.topics[t], s.dds, q)
    ensures ReaderOk(t, DropFilter(s, t, description, accept).topics[t], DropFilter(s, t, description, accept).dds, q)
  {
    var s', g, h := DropFilter(s, t, description, accept), s.topics[t], s.topics[t].readers[q];
    if h in s'.dds.entities {
      var d := s.dds.entities[h].description;
      assert d != description by {
        assert !s.dds.entities[h].RefersTo(description);
      }
      if d != g.topic {
        var k: nat :| IsOwnFilterAt(t, g, q, d, k);
        assert IsOwnFilterAt(t, s'.topics[t], q, d, k);
      }
    }
  }
}
