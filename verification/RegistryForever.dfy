/**
  Whole runs that do not unregister a topic: what its records keep, when one of its readers
  goes stale, and where the reader reads from.
*/
module RegistryForever {
  import opened Dds
  import opened Emitters
  import opened RegistrySpec
  import opened RegistryInvariant
  import opened RegistrySteps
  import opened RegistryTeardown
  import opened RegistryOperations
  import opened RegistryRuns
  import opened RegistryReplace
  import opened RegistryTheorems
  import Names

  /** Topic t records a filtered topic under this name and nothing reads from it. */
  ghost predicate Orphan(s: Registry, t: string, name: string) {
    && t in s.topics && name in s.topics[t].filteredTopics
    && IsOrphan(s.dds, s.topics[t].filteredTopics[name], name)
  }

  ghost predicate IsOrphan(p: Participant, h: Handle, name: string) {
    h in p.entities && p.entities[h].FilteredTopic? && p.entities[h].name == name && !p.Referenced(h)
  }

  // ---- how a topic's records evolve ----

  /** From s to s', with topic t still registered: handles are not reused, live entities change in
      QoS only, nothing new reads from an old filtered topic, and t keeps its records. */
  ghost predicate Evolves(s: Registry, s': Registry, t: string, free: string) {
    && ServiceEvolves(s.dds, s'.dds)
    && (t in s.topics ==> t in s'.topics && GroupEvolves(s.dds, s'.dds, s.topics[t], s'.topics[t], free))
  }

  ghost predicate ServiceEvolves(p: Participant, q: Participant) {
    && p.next <= q.next
    && (forall h :: h in q.entities && h < p.next ==> h in p.entities && SameShape(p.entities[h], q.entities[h]))
    && (forall x, h :: x in q.entities && p.next <= x && q.entities[x].RefersTo(h) ==> !OldFilter(p, q, h))
  }

  ghost predicate OldFilter(p: Participant, q: Participant, h: Handle) {
    h in p.entities && h in q.entities && h < p.next && p.entities[h].FilteredTopic?
  }

  /** The reader called free may be deleted and get another handle, no other; an orphan stays on record. */
  ghost predicate GroupEvolves(p: Participant, q: Participant, g: Group, g': Group, free: string) {
    && (g.topic != NIL ==> g'.topic == g.topic)
    && (forall r :: r in g.readers && r != free ==>
          r in g'.readers && g'.readers[r] == g.readers[r] && (g.readers[r] in p.entities ==> g.readers[r] in q.entities))
    && (forall name :: name in g.filteredTopics && IsOrphan(p, g.filteredTopics[name], name) ==>
          name in g'.filteredTopics && g'.filteredTopics[name] == g.filteredTopics[name] && g.filteredTopics[name] in q.entities)
  }

  lemma OrphanStaysUnread(p: Participant, q: Participant, h: Handle, name: string)
    requires ServiceEvolves(p, q) && IsOrphan(p, h, name) && h < p.next && h in q.entities
    ensures IsOrphan(q, h, name)
  {
    forall x | x in q.entities ensures !q.entities[x].RefersTo(h) {
      if x < p.next {
        assert SameShape(p.entities[x], q.entities[x]) && !p.entities[x].RefersTo(h);
      } else {
        assert OldFilter(p, q, h);
      }
    }
    assert SameShape(p.entities[h], q.entities[h]);
  }

  lemma ServiceEvolvesOn(p: Participant, q: Participant, u: Participant)
    requires ServiceEvolves(p, q) && ServiceEvolves(q, u)
    ensures ServiceEvolves(p, u)
  {
    forall h | h in u.entities && h < p.next ensures h in p.entities && SameShape(p.entities[h], u.entities[h]) {
      assert SameShape(q.entities[h], u.entities[h]) && SameShape(p.entities[h], q.entities[h]);
    }
    forall x, h | x in u.entities && p.next <= x && u.entities[x].RefersTo(h) ensures !OldFilter(p, u, h) {
      if OldFilter(p, u, h) {
        assert h in q.entities && SameShape(p.entities[h], q.entities[h]);
        if x < q.next {
          assert SameShape(q.entities[x], u.entities[x]);
          assert OldFilter(p, q, h);
        } else {
          assert OldFilter(q, u, h);
        }
      }
    }
  }

  lemma EvolvesOn(a: Registry, b: Registry, c: Registry, t: string, free: string)
    requires Inv(a) && Evolves(a, b, t, free) && Evolves(b, c, t, free)
    ensures Evolves(a, c, t, free)
  {
    ServiceEvolvesOn(a.dds, b.dds, c.dds);
    if t in a.topics {
      var g := a.topics[t];
      forall name | name in g.filteredTopics && IsOrphan(a.dds, g.filteredTopics[name], name)
        ensures IsOrphan(b.dds, g.filteredTopics[name], name)
      {
        OrphanStaysUnread(a.dds, b.dds, g.filteredTopics[name], name);
      }
    }
  }

  // ---- what evolution keeps ----

  lemma ReadersAreNamed(s: Registry, t: string)
    requires Inv(s) && t in s.topics
    ensures "" !in s.topics[t].readers
  {
    var g := s.topics[t];
    assert InvOf(s, t);
    assert "" in g.readers ==> ReaderOk(t, g, s.dds, "");
  }

  lemma EvolutionKeepsOrphan(s: Registry, s': Registry, t: string, free: string, name: string)
    requires Inv(s) && Evolves(s, s', t, free) && Orphan(s, t, name)
    ensures Orphan(s', t, name)
  {
    OrphanStaysUnread(s.dds, s'.dds, s.topics[t].filteredTopics[name], name);
  }

  lemma EvolutionKeepsStale(s: Registry, s': Registry, t: string, free: string, r: string)
    requires Inv(s) && Evolves(s, s', t, free) && Stale(s, t, r) && r != free
    ensures Stale(s', t, r)
  {
    assert InvOf(s, t) && ReaderOk(t, s.topics[t], s.dds, r);
  }

  /** The reader is live and reads from its k-th filtered topic, or from the topic itself, which counts as 0. */
  ghost predicate ReadsAt(s: Registry, t: string, r: string, k: nat) {
    ReadsFilter(s, t, r, k) || (k == 0 && ReadsTopic(s, t, r))
  }

  ghost predicate ReadsTopic(s: Registry, t: string, r: string) {
    && t in s.topics && r in s.topics[t].readers && s.topics[t].readers[r] in s.dds.entities
    && s.dds.entities[s.topics[t].readers[r]].Reader?
    && s.dds.entities[s.topics[t].readers[r]].description == s.topics[t].topic
  }

  /** A reader keeps reading from where it does. */
  lemma EvolutionKeepsReading(s: Registry, s': Registry, t: string, free: string, r: string, k: nat)
    requires Inv(s) && Inv(s') && Evolves(s, s', t, free) && ReadsAt(s, t, r, k) && r != free
    ensures ReadsAt(s', t, r, k)
  {
    assert InvOf(s, t);
    var h := s.topics[t].readers[r];
    var d := s.dds.entities[h].description;
    assert SameShape(s.dds.entities[h], s'.dds.entities[h]);
    assert s'.dds.WellReferenced(s'.dds.entities[h]);
    assert SameShape(s.dds.entities[d], s'.dds.entities[d]);
  }

  // ---- small steps ----

  /** A change of QoS, listeners, emitters or loans. */
  lemma QuietEvolves(s: Registry, s': Registry, t: string, free: string)
    requires s'.dds.next == s.dds.next && s'.dds.entities.Keys == s.dds.entities.Keys
    requires forall h :: h in s.dds.entities ==> h < s.dds.next && SameShape(s.dds.entities[h], s'.dds.entities[h])
    requires t in s.topics ==> t in s'.topics && SameRecordsIn(s.topics[t], s'.topics[t])
    ensures Evolves(s, s', t, free)
  {
  }

  lemma SameEntitiesEvolve(s: Registry, s': Registry, t: string)
    requires Inv(s) && s'.dds.next == s.dds.next && s'.dds.entities == s.dds.entities
    requires t in s.topics ==> t in s'.topics && SameRecordsIn(s.topics[t], s'.topics[t])
    ensures Evolves(s, s', t, "")
  {
    QuietEvolves(s, s', t, "");
  }

  predicate SameRecordsIn(g: Group, g': Group) {
    g'.topic == g.topic && g'.readers == g.readers && g'.filteredTopics == g.filteredTopics
  }

  /** A new entity that does not read from a filtered topic. */
  lemma AddEvolves(s: Registry, s': Registry, t: string, e: Entity, free: string)
    requires s'.dds == s.dds.Add(e)
    requires forall h :: h in s.dds.entities ==> h < s.dds.next && (s.dds.entities[h].FilteredTopic? ==> !e.RefersTo(h))
    requires t in s.topics ==> t in s'.topics && KeepsRecords(s.dds, s.topics[t], s'.topics[t], free)
    ensures Evolves(s, s', t, free)
  {
  }

  ghost predicate KeepsRecords(p: Participant, g: Group, g': Group, free: string) {
    && (g.topic != NIL ==> g'.topic == g.topic)
    && (forall r :: r in g.readers && r != free ==> r in g'.readers && g'.readers[r] == g.readers[r])
    && (forall name :: name in g.filteredTopics && p.Named(g.filteredTopics[name], name) ==>
          name in g'.filteredTopics && g'.filteredTopics[name] == g.filteredTopics[name])
  }

  /** A new filtered topic and a reader of it. */
  lemma AddFilterAndReaderEvolves(s: Registry, s': Registry, t: string, f: Entity, e: Entity, free: string)
    requires f.FilteredTopic? && e.Reader? && e.description == s.dds.next && s'.dds == s.dds.Add(f).Add(e)
    requires s.dds.Valid() && f.related in s.dds.entities && s.dds.entities[f.related].Topic?
    requires e.subscriber in s.dds.entities && s.dds.entities[e.subscriber].Subscriber?
    requires t in s.topics ==> t in s'.topics && KeepsRecords(s.dds, s.topics[t], s'.topics[t], free)
    ensures Evolves(s, s', t, free)
  {
  }

  // ---- the operations ----

  lemma ReaderQosEvolves(s: Registry, x: string, qos: ReaderQos, refused: set<Handle>, t: string)
    requires Inv(s)
    ensures Evolves(s, SetReaderQos(s, x, qos, refused), t, "")
  {
    QuietEvolves(s, SetReaderQos(s, x, qos, refused), t, "");
  }

  lemma WriterQosEvolves(s: Registry, x: string, qos: int, refused: set<Handle>, t: string)
    requires Inv(s)
    ensures Evolves(s, SetWriterQos(s, x, qos, refused), t, "")
  {
    QuietEvolves(s, SetWriterQos(s, x, qos, refused), t, "");
  }

  lemma PublisherQosEvolves(s: Registry, x: string, qos: GroupQos, refused: set<Handle>, t: string)
    requires Inv(s)
    ensures Evolves(s, SetPublisherQos(s, x, qos, refused), t, "")
  {
    QuietEvolves(s, SetPublisherQos(s, x, qos, refused), t, "");
  }

  lemma SubscriberQosEvolves(s: Registry, x: string, qos: GroupQos, refused: set<Handle>, t: string)
    requires Inv(s)
    ensures Evolves(s, SetSubscriberQos(s, x, qos, refused), t, "")
  {
    QuietEvolves(s, SetSubscriberQos(s, x, qos, refused), t, "");
  }

  lemma DataRateEvolves(s: Registry, x: string, q: string, rate: int, refused: set<Handle>, t: string)
    requires Inv(s)
    ensures Evolves(s, SetMaxDataRate(s, x, q, rate, refused).next, t, "")
  {
    QuietEvolves(s, SetMaxDataRate(s, x, q, rate, refused).next, t, "");
  }

  lemma PresetEvolves(s: Registry, x: string, preset: int, refused: set<Handle>, t: string)
    requires Inv(s)
    ensures Evolves(s, RegisterQos(s, x, preset, refused).next, t, "")
  {
    hide Evolves, Inv;
    if x in s.topics && s.topics[x].qosPreset == -1 && 0 <= preset <= LAST_PRESET {
      var s1 := SetReaderQos(s, x, PresetReaderQos(preset), refused);
      var s2 := SetWriterQos(s1, x, preset, refused);
      ReaderQosEvolves(s, x, PresetReaderQos(preset), refused, t);
      SetReaderQosInv(s, x, PresetReaderQos(preset), refused);
      WriterQosEvolves(s1, x, preset, refused, t);
      EvolvesOn(s, s1, s2, t, "");
      SetWriterQosInv(s1, x, preset, refused);
      SameEntitiesEvolve(s2, RegisterQos(s, x, preset, refused).next, t);
      EvolvesOn(s, s2, RegisterQos(s, x, preset, refused).next, t, "");
    } else {
      SameEntitiesEvolve(s, s, t);
    }
  }

  lemma RegisterEvolves(s: Registry, x: string, preset: int, accept: bool, refused: set<Handle>, t: string)
    requires Inv(s)
    ensures var o := RegisterTopic(s, x, preset, accept, refused); o.Finished? ==> Evolves(s, o.step.next, t, "")
  {
    QuietEvolves(s, s, t, "");
    if s.joined && !(x in s.topics && s.topics[x].topic != NIL) {
      var (s1, h) := AddTopic(s, x, accept);
      if h != NIL {
        AddEvolves(s, s1, t, Topic(x, s.nextListener), "");
        AddTopicInv(s, x, accept);
        PresetEvolves(s1, x, preset, refused, t);
        EvolvesOn(s, s1, RegisterQos(s1, x, preset, refused).next, t, "");
      }
    }
  }

  lemma PublishEvolves(s: Registry, x: string, a: bool, b: bool, t: string)
    requires Inv(s)
    ensures Evolves(s, CreatePublisher(s, x, a, b).next, t, "")
  {
    QuietEvolves(s, s, t, "");
    if x in s.topics && s.topics[x].topic != NIL && s.topics[x].publisher == NIL && a {
      var s1 := AddPublisher(s, x, a);
      assert InvOf(s, x);
      AddEvolves(s, s1, t, Publisher(s.topics[x].pubQos), "");
      AddPublisherInv(s, x, a);
      WriterEvolves(s1, x, b, t);
      EvolvesOn(s, s1, AddWriter(s1, x, b).next, t, "");
    }
  }

  lemma WriterEvolves(s: Registry, x: string, accept: bool, t: string)
    requires Inv(s) && x in s.topics && s.topics[x].topic != NIL && s.topics[x].publisher != NIL
    ensures Evolves(s, AddWriter(s, x, accept).next, t, "")
  {
    var g := s.topics[x];
    assert InvOf(s, x);
    if AddWriter(s, x, accept).result {
      AddEvolves(s, AddWriter(s, x, accept).next, t, Writer(g.publisher, g.topic, s.nextListener, g.writerQos), "");
    } else {
      QuietEvolves(s, s, t, "");
    }
  }

  lemma SubscribeEvolves(s: Registry, x: string, q: string, filter: string, a: bool, b: bool, c: bool, t: string)
    requires Inv(s)
    ensures Evolves(s, CreateSubscriber(s, x, q, filter, a, b, c).next, t, "")
  {
    QuietEvolves(s, s, t, "");
    if q != "" && x in s.topics && s.topics[x].topic != NIL && q !in s.topics[x].readerListeners {
      var s1 := EnsureSubscriber(s, x, a);
      assert InvOf(s, x);
      EnsureSubscriberInv(s, x, a);
      if s1 != s {
        AddEvolves(s, s1, t, Subscriber(s.topics[x].subQos), "");
      }
      if s1.topics[x].subscriber != NIL {
        SubscribedEvolves(s1, x, q, filter, b, c, t);
        EvolvesOn(s, s1, CreateSubscriber(s, x, q, filter, a, b, c).next, t, "");
      }
    }
  }

  /** createSubscriber once the subscriber is there. */
  lemma SubscribedEvolves(s: Registry, x: string, q: string, filter: string, b: bool, c: bool, t: string)
    requires Inv(s) && x in s.topics && s.topics[x].topic != NIL && s.topics[x].subscriber != NIL
    requires q !in s.topics[x].readerListeners
    ensures var (s2, h) := if filter == "" then (s, s.topics[x].topic) else AddFilter(s, x, Names.FilterName(x, q, 0), filter, b);
            Evolves(s, if h == NIL then s2 else AddReader(s2, x, q, h, c).next, t, "")
  {
    var g, name := s.topics[x], Names.FilterName(x, q, 0);
    assert InvOf(s, x);
    QuietEvolves(s, s, t, "");
    if filter == "" {
      if AddReader(s, x, q, g.topic, c).result {
        AddEvolves(s, AddReader(s, x, q, g.topic, c).next, t, Reader(g.subscriber, g.topic, s.nextListener, g.readerQos), "");
      }
    } else {
      var (s2, h) := AddFilter(s, x, name, filter, b);
      if h != NIL {
        var f, e := FilteredTopic(name, g.topic, filter), Reader(g.subscriber, h, s.nextListener, g.readerQos);
        if AddReader(s2, x, q, h, c).result {
          AddFilterAndReaderEvolves(s, AddReader(s2, x, q, h, c).next, t, f, e, "");
        } else {
          AddEvolves(s, s2, t, f, "");
        }
      }
    }
  }

  lemma RefilterEvolves(s: Registry, x: string, q: string, filter: string, env: ReplaceEnv, t: string)
    requires Inv(s)
    ensures Evolves(s, ReplaceFilter(s, x, q, filter, env).next, t, if x == t then q else "")
  {
    hide Evolves, ReplaceFilter, Rebuild;
    var s', free := ReplaceFilter(s, x, q, filter, env).next, if x == t then q else "";
    TwoHalves(s, x, q, filter, env);
    if Replaceable(s, x, q) && env.containedOk {
      var d := DescriptionOf(s, x, q);
      var drop := s.dds.entities[d].FilteredTopic? && env.filterDeleteOk;
      TakenDownEvolves(s, x, q, drop, t, free);
      TakenDownIsValid(s, x, q, env.filterDeleteOk);
      FirstHalfKeepsBase(s, x, q, drop);
      var s2 := TakenDown(s, x, q, s.topics[x].readers[q], d, drop);
      RebuildEvolves(s2, x, q, filter, NextFilterName(x, q, FilterNameOf(s.dds, d)), env, t);
      EvolvesOn(s, s2, s', t, free);
    } else {
      QuietEvolves(s, s', t, free);
    }
  }

  lemma TakenDownIsValid(s: Registry, x: string, q: string, filterDeleteOk: bool)
    requires Inv(s) && Replaceable(s, x, q)
    ensures var d := DescriptionOf(s, x, q);
            Inv(TakenDown(s, x, q, s.topics[x].readers[q], d, s.dds.entities[d].FilteredTopic? && filterDeleteOk))
  {
    var s1 := StopEmitter(s, x, q);
    StopEmitterInv(s, x, q);
    FirstHalf(s, x, q, filterDeleteOk);
    assert q in s1.topics[x].readers && q in s1.topics[x].readerListeners by {
      assert InvOf(s, x);
    }
    TakenDownInv(s1, x, q, filterDeleteOk);
  }

  lemma TakenDownEvolves(s: Registry, x: string, q: string, drop: bool, t: string, free: string)
    requires Inv(s) && Replaceable(s, x, q) && (x == t ==> free == q)
    ensures Evolves(s, TakenDown(s, x, q, s.topics[x].readers[q], DescriptionOf(s, x, q), drop), t, free)
  {
    var s' := TakenDown(s, x, q, s.topics[x].readers[q], DescriptionOf(s, x, q), drop);
    assert ServiceEvolves(s.dds, s'.dds);
    if t in s.topics {
      var g, g' := s.topics[t], s'.topics[t];
      forall name | name in g.filteredTopics && IsOrphan(s.dds, g.filteredTopics[name], name)
        ensures name in g'.filteredTopics && g'.filteredTopics[name] == g.filteredTopics[name]
        ensures g.filteredTopics[name] in s'.dds.entities
      {
        OrphanIsNotTakenDown(s, x, q, g.filteredTopics[name], name);
      }
      forall r | r in g.readers && r != free && g.readers[r] in s.dds.entities ensures g.readers[r] in s'.dds.entities {
        OtherReaderIsNotTakenDown(s, x, q, t, r);
      }
    }
  }

  lemma OtherReaderIsNotTakenDown(s: Registry, x: string, q: string, t: string, r: string)
    requires Inv(s) && Replaceable(s, x, q) && t in s.topics && r in s.topics[t].readers && (t, r) != (x, q)
    requires s.topics[t].readers[r] in s.dds.entities
    ensures s.topics[t].readers[r] !in {s.topics[x].readers[q], DescriptionOf(s, x, q)}
  {
    GetReaderFindsIff(s, x, q);
    GetReaderFindsIff(s, t, r);
  }

  /** replaceFilter takes down neither an orphan nor its record. */
  lemma OrphanIsNotTakenDown(s: Registry, x: string, q: string, f: Handle, name: string)
    requires Inv(s) && Replaceable(s, x, q) && IsOrphan(s.dds, f, name)
    ensures var d := DescriptionOf(s, x, q); f != s.topics[x].readers[q] && f != d && name != s.dds.entities[d].name
  {
    var h, d := s.topics[x].readers[q], DescriptionOf(s, x, q);
    assert s.dds.entities[h].Reader? && s.dds.entities[h].RefersTo(d) by {
      assert InvOf(s, x) && ReaderOk(x, s.topics[x], s.dds, q);
    }
    assert s.dds.Named(f, name) && s.dds.Named(d, s.dds.entities[d].name);
  }

  lemma RebuildEvolves(s: Registry, x: string, q: string, filter: string, name: string, env: ReplaceEnv, t: string)
    requires s.dds.Valid() && x in s.topics && q in s.topics[x].readerListeners
    requires s.topics[x].topic in s.dds.entities && s.dds.entities[s.topics[x].topic].Topic?
    requires s.topics[x].subscriber in s.dds.entities && s.dds.entities[s.topics[x].subscriber].Subscriber?
    ensures Evolves(s, Rebuild(s, x, q, filter, name, env).next, t, if x == t then q else "")
  {
    if filter == "" {
      var g, free := s.topics[x], if x == t then q else "";
      var step := FinishReplace(s, x, q, g.topic, env);
      SecondHalf(s, x, q, g.topic, env);
      if step.result {
        AddEvolves(s, step.next, t, Reader(g.subscriber, g.topic, g.readerListeners[q], g.readerQos), free);
      } else {
        QuietEvolves(s, s, t, free);
      }
    } else {
      FilteredRebuildEvolves(s, x, q, filter, name, env, t);
    }
  }

  lemma FilteredRebuildEvolves(s: Registry, x: string, q: string, filter: string, name: string, env: ReplaceEnv, t: string)
    requires s.dds.Valid() && x in s.topics && q in s.topics[x].readerListeners
    requires s.topics[x].topic in s.dds.entities && s.dds.entities[s.topics[x].topic].Topic?
    requires s.topics[x].subscriber in s.dds.entities && s.dds.entities[s.topics[x].subscriber].Subscriber?
    ensures var (s3, h) := AddFilter(s, x, name, filter, env.filterOk);
            Evolves(s, if h == NIL then s3 else FinishReplace(s3, x, q, h, env).next, t, if x == t then q else "")
  {
    var g, free := s.topics[x], if x == t then q else "";
    var (s3, h) := AddFilter(s, x, name, filter, env.filterOk);
    if h == NIL {
      QuietEvolves(s, s, t, free);
    } else {
      var step, f := FinishReplace(s3, x, q, h, env), FilteredTopic(name, g.topic, filter);
      SecondHalf(s3, x, q, h, env);
      if step.result {
        AddFilterAndReaderEvolves(s, step.next, t, f, Reader(g.subscriber, h, g.readerListeners[q], g.readerQos), free);
      } else {
        AddEvolves(s, s3, t, f, free);
      }
    }
  }

  lemma UnregisterEvolves(s: Registry, x: string, t: string)
    requires Inv(s) && x != t
    ensures Evolves(s, UnregisterTopic(s, x).next, t, "")
  {
    var s' := UnregisterTopic(s, x).next;
    hide Teardown;
    QuietEvolves(s, s, t, "");
    if x in s.topics {
      TeardownResult(s, x);
      if t in s.topics {
        forall h: Handle | Owns(s.topics[t], h) && h in s.dds.entities ensures h in s'.dds.entities {
          assert GroupOwns(s, t, h) && !GroupOwns(s, x, h);
        }
        RecordsAreOwned(s, t);
        hide HeldByLoan;
      }
    }
  }

  lemma RecordsAreOwned(s: Registry, t: string)
    requires Inv(s) && t in s.topics
    ensures forall r :: r in s.topics[t].readers ==> Owns(s.topics[t], s.topics[t].readers[r])
    ensures forall name :: name in s.topics[t].filteredTopics ==> Owns(s.topics[t], s.topics[t].filteredTopics[name])
  {
    var g := s.topics[t];
    assert InvOf(s, t);
    forall r | r in g.readers ensures Owns(g, g.readers[r]) {
      assert ReaderOk(t, g, s.dds, r) && OwnsReader(g, g.readers[r]);
    }
    forall name | name in g.filteredTopics ensures Owns(g, g.filteredTopics[name]) {
      assert OwnsFilter(g, g.filteredTopics[name]);
    }
  }

  /** The reader of topic t that an operation may give another handle. */
  function FreeReader(op: Op, t: string): string {
    if op.Refilter? && op.t == t then op.r else ""
  }

  lemma ListenEvolves(s: Registry, x: string, q: string, messageType: nat, func: nat,
                      queue: bool, async: bool, attached: bool, t: string)
    requires Inv(s)
    ensures Evolves(s, AddCallback(s, x, q, messageType, func, queue, async, attached).next, t, "")
  {
    SameEntitiesEvolve(s, AddCallback(s, x, q, messageType, func, queue, async, attached).next, t);
  }

  lemma PartitionEvolves(s: Registry, x: string, name: string, t: string)
    requires Inv(s)
    ensures Evolves(s, AddPartition(s, x, name).next, t, "")
  {
    SameEntitiesEvolve(s, AddPartition(s, x, name).next, t);
  }

  lemma HandlersEvolve(s: Registry, handler: nat, t: string)
    requires Inv(s)
    ensures Evolves(s, SetReaderListenerHandler(s, handler), t, "")
    ensures var o := SetWriterListenerHandler(s, handler); o.HandlerSet? ==> Evolves(s, o.next, t, "")
  {
    SameEntitiesEvolve(s, SetReaderListenerHandler(s, handler), t);
    if SetWriterListenerHandler(s, handler).HandlerSet? {
      SameEntitiesEvolve(s, SetWriterListenerHandler(s, handler).next, t);
    }
  }

  lemma ApplyEvolves(s: Registry, op: Op, t: string)
    requires Inv(s) && Enabled(s, op) && op != Unregister(t)
    ensures Evolves(s, Apply(s, op), t, FreeReader(op, t))
  {
    hide Evolves, Inv, RegisterTopic, RegisterQos, CreateSubscriber, CreatePublisher, ReplaceFilter, AddCallback, AddPartition;
    hide UnregisterTopic, SetReaderQos, SetWriterQos, SetPublisherQos, SetSubscriberQos, SetMaxDataRate;
    hide SetReaderListenerHandler, SetWriterListenerHandler;
    match op
    case Join => SameEntitiesEvolve(s, s.(joined := true), t);
    case Register(x, preset, ok, refused) => RegisterEvolves(s, x, preset, ok, refused, t); SameEntitiesEvolve(s, s, t);
    case ApplyPreset(x, preset, refused) => PresetEvolves(s, x, preset, refused, t);
    case Subscribe(x, q, filter, a, b, c) => SubscribeEvolves(s, x, q, filter, a, b, c, t);
    case Publish(x, a, b) => PublishEvolves(s, x, a, b, t);
    case Refilter(x, q, filter, env) => RefilterEvolves(s, x, q, filter, env, t);
    case Listen(x, q, ty, f, queue, async, attached) => ListenEvolves(s, x, q, ty, f, queue, async, attached, t);
    case Unregister(x) => UnregisterEvolves(s, x, t);
    case Partition(x, name) => PartitionEvolves(s, x, name, t);
    case ReaderQosTo(x, qos, refused) => ReaderQosEvolves(s, x, qos, refused, t);
    case WriterQosTo(x, qos, refused) => WriterQosEvolves(s, x, qos, refused, t);
    case PublisherQosTo(x, qos, refused) => PublisherQosEvolves(s, x, qos, refused, t);
    case SubscriberQosTo(x, qos, refused) => SubscriberQosEvolves(s, x, qos, refused, t);
    case MaxDataRate(x, q, rate, refused) => DataRateEvolves(s, x, q, rate, refused, t);
    case ReaderHandlerTo(handler) => HandlersEvolve(s, handler, t);
    case WriterHandlerTo(handler) => HandlersEvolve(s, handler, t);
    case TakeSamples(h) => SameEntitiesEvolve(s, s.(dds := s.dds.Take(h)), t);
    case ReturnSamples(h) => SameEntitiesEvolve(s, s.(dds := s.dds.ReturnLoan(h)), t);
  }

  // ---- stale readers ----

  lemma ApplyKeepsStale(s: Registry, op: Op, t: string, r: string)
    requires Inv(s) && Enabled(s, op) && Stale(s, t, r) && op != Unregister(t)
    ensures Stale(Apply(s, op), t, r)
  {
    assert InvOf(s, t) && ReaderOk(t, s.topics[t], s.dds, r);
    if op.Refilter? && op.t == t && op.r == r {
      StaleCannotBeRepaired(s, t, r, op.filter, op.env, false, false, false);
    } else {
      ApplyEvolves(s, op, t);
      EvolutionKeepsStale(s, Apply(s, op), t, FreeReader(op, t), r);
    }
  }

  /** Once stale, a reader stays stale through every run that does not unregister its topic. */
  lemma {:induction false} StaleForever(s: Registry, ops: seq<Op>, t: string, r: string)
    requires Inv(s) && Legal(s, ops) && Stale(s, t, r) && Unregister(t) !in ops
    ensures Stale(Run(s, ops), t, r)
    decreases |ops|
  {
    hide Inv, Stale, Enabled, Apply;
    if ops == [] {
    } else {
      ApplyKeepsStale(s, ops[0], t, r);
      ApplyInv(s, ops[0]);
      StaleForever(Apply(s, ops[0]), ops[1..], t, r);
    }
  }

  // ---- the counter in a reader's filter name ----

  /** A successful replaceFilter raises the counter by one, or sets it back if it asks for no filter. */
  ghost function NextCounter(s: Registry, op: Op, t: string, r: string, k: nat): nat {
    if op.Refilter? && op.t == t && op.r == r && ReplaceFilter(s, t, r, op.filter, op.env).result
    then if op.filter == "" then 0 else k + 1
    else k
  }

  ghost function CounterAfter(s: Registry, ops: seq<Op>, t: string, r: string, k: nat): nat
    requires Legal(s, ops)
    decreases |ops|
  {
    if ops == [] then k else CounterAfter(Apply(s, ops[0]), ops[1..], t, r, NextCounter(s, ops[0], t, r, k))
  }

  lemma ReplacementMovesCounter(s: Registry, t: string, r: string, k: nat, filter: string, env: ReplaceEnv)
    requires Inv(s) && ReadsAt(s, t, r, k) && ReplaceFilter(s, t, r, filter, env).result
    ensures ReadsAt(ReplaceFilter(s, t, r, filter, env).next, t, r, if filter == "" then 0 else k + 1)
  {
    hide ReplaceFilter, NextFilterName, FilterNameOf, Names.FilterName, Inv;
    ReplaceFilterDelivers(s, t, r, filter, env);
    ReplaceKeepsTopic(s, t, r, filter, env);
    NextNameHasNextCounter(s, t, r, k);
  }

  lemma NextNameHasNextCounter(s: Registry, t: string, r: string, k: nat)
    requires Inv(s) && ReadsAt(s, t, r, k) && Replaceable(s, t, r)
    ensures NextFilterName(t, r, FilterNameOf(s.dds, DescriptionOf(s, t, r))) == Names.FilterName(t, r, k + 1)
  {
    assert InvOf(s, t);
    FilterCounterIncreases(t, r, k);
  }

  /** replaceFilter on this reader gets as far as deleting it and can then not make it again. */
  ghost predicate Loses(s: Registry, op: Op, t: string, r: string)
    requires Inv(s)
  {
    && op.Refilter? && op.t == t && op.r == r && Replaceable(s, t, r) && op.env.containedOk
    && (!op.env.readerOk || (op.filter != "" && (!op.env.filterOk || NextNameTaken(s, t, r, op.env.filterDeleteOk))))
  }

  ghost predicate LostIn(s: Registry, ops: seq<Op>, t: string, r: string)
    requires Inv(s) && Legal(s, ops)
    decreases |ops|
  {
    ops != [] && (Loses(s, ops[0], t, r) || (ApplyInv(s, ops[0]); LostIn(Apply(s, ops[0]), ops[1..], t, r)))
  }

  lemma RefilterMovesCounter(s: Registry, t: string, r: string, k: nat, filter: string, env: ReplaceEnv)
    requires Inv(s) && ReadsAt(s, t, r, k)
    ensures var op, s' := Refilter(t, r, filter, env), ReplaceFilter(s, t, r, filter, env).next;
            if Loses(s, op, t, r) then Stale(s', t, r) else ReadsAt(s', t, r, NextCounter(s, op, t, r, k))
  {
    hide ReplaceFilter, Inv, NextNameTaken, NextFilterName;
    ReplaceFilterSucceedsIff(s, t, r, filter, env);
    ReplaceFilterGoesStaleIff(s, t, r, filter, env);
    if ReplaceFilter(s, t, r, filter, env).result {
      ReplacementMovesCounter(s, t, r, k, filter, env);
    } else {
      TwoHalves(s, t, r, filter, env);
    }
  }

  lemma ApplyMovesCounter(s: Registry, op: Op, t: string, r: string, k: nat)
    requires Inv(s) && Enabled(s, op) && ReadsAt(s, t, r, k) && op != Unregister(t)
    ensures if Loses(s, op, t, r) then Stale(Apply(s, op), t, r)
            else ReadsAt(Apply(s, op), t, r, NextCounter(s, op, t, r, k))
  {
    assert r != "" by {
      assert InvOf(s, t) && ReaderOk(t, s.topics[t], s.dds, r);
    }
    hide Evolves, Inv, Stale, ReadsAt;
    if op.Refilter? && op.t == t && op.r == r {
      RefilterMovesCounter(s, t, r, k, op.filter, op.env);
    } else {
      ApplyEvolves(s, op, t);
      ApplyInv(s, op);
      EvolutionKeepsReading(s, Apply(s, op), t, FreeReader(op, t), r, k);
    }
  }

  /** Through any run that does not unregister its topic, a live reader becomes stale iff some replaceFilter
      on it fails half way. Otherwise it ends live, and the counter of its filter has gone up by one with each
      successful replacement by a filter, back to 0 with each by none, and changed with nothing else. */
  lemma {:induction false} ReaderGoesStaleIff(s: Registry, ops: seq<Op>, t: string, r: string, k: nat)
    requires Inv(s) && ReadsAt(s, t, r, k) && Legal(s, ops) && Unregister(t) !in ops
    ensures Stale(Run(s, ops), t, r) <==> LostIn(s, ops, t, r)
    ensures !LostIn(s, ops, t, r) ==> ReadsAt(Run(s, ops), t, r, CounterAfter(s, ops, t, r, k))
    decreases |ops|
  {
    if ops == [] {
    } else {
      hide Inv, ReadsAt, Stale, Enabled, Apply, NextCounter, Loses;
      var s' := Apply(s, ops[0]);
      ApplyMovesCounter(s, ops[0], t, r, k);
      ApplyInv(s, ops[0]);
      if Loses(s, ops[0], t, r) {
        StaleForever(s', ops[1..], t, r);
      } else {
        ReaderGoesStaleIff(s', ops[1..], t, r, NextCounter(s, ops[0], t, r, k));
      }
    }
  }
}
