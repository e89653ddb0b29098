/**
  What an operation leaves alone: the groups of all other topics, and most fields of its own.
*/
module RegistryFrame {
  import opened Dds
  import opened Emitters
  import opened RegistrySpec
  import opened RegistryRuns
  import Names

  function FiltersOf(s: Registry, t: string): map<string, Handle> {
    GroupOrNew(s, t).filteredTopics
  }

  function EmittersOf(s: Registry, t: string): map<string, EmitterState> {
    GroupOrNew(s, t).emitters
  }

  predicate IsFor(op: Op, t: string) {
    match op
    case Join => false
    case ReaderHandlerTo(_) => false
    case WriterHandlerTo(_) => false
    case TakeSamples(_) => false
    case ReturnSamples(_) => false
    case _ => op.t == t
  }

  // ---- the groups of other topics ----

  predicate SameGroup(s: Registry, s': Registry, t: string) {
    (t in s'.topics <==> t in s.topics) && GroupOrNew(s', t) == GroupOrNew(s, t)
  }

  predicate SameHandlers(s: Registry, s': Registry) {
    s'.joined == s.joined && s'.rlHandler == s.rlHandler && s'.wlHandler == s.wlHandler
  }

  predicate SameOutside(s: Registry, s': Registry, t: string) {
    SameGroup(s, s', t) && SameHandlers(s, s')
  }

  predicate SetsHandler(op: Op) {
    op.Join? || op.ReaderHandlerTo? || op.WriterHandlerTo?
  }

  lemma OtherGroupKept(s: Registry, op: Op, t: string)
    requires Enabled(s, op) && !IsFor(op, t)
    ensures SameGroup(s, Apply(s, op), t) && (!SetsHandler(op) ==> SameHandlers(s, Apply(s, op)))
  {
    hide SameGroup, SameHandlers;
    match op
    case Register(x, preset, ok, refused) => RegisterKeepsOthers(s, x, preset, ok, refused, t);
    case ApplyPreset(x, preset, refused) => PresetKeepsOthers(s, x, preset, refused, t);
    case Subscribe(x, r, filter, a, b, c) => SubscribeKeepsOthers(s, x, r, filter, a, b, c, t);
    case Publish(x, a, b) => PublishKeepsOthers(s, x, a, b, t);
    case Refilter(x, r, filter, env) => RefilterKeepsOthers(s, x, r, filter, env, t);
    case _ =>
      if IsSetter(op) {
        SetterKeepsOthers(s, op, t);
      } else {
        RestKeepsOthers(s, op, t);
      }
  }

  lemma RegisterKeepsOthers(s: Registry, x: string, preset: int, accept: bool, refused: set<Handle>, t: string)
    requires x != t
    ensures var o := RegisterTopic(s, x, preset, accept, refused);
            SameOutside(s, if o.Threw? then s else o.step.next, t)
  {
    var s1 := AddTopic(s, x, accept).0;
    assert SameOutside(s, s1, t);
    PresetKeepsOthers(s1, x, preset, refused, t);
    hide RegisterQos, AddTopic;
  }

  lemma PresetKeepsOthers(s: Registry, x: string, preset: int, refused: set<Handle>, t: string)
    requires x != t
    ensures SameOutside(s, RegisterQos(s, x, preset, refused).next, t)
  {
    var s1 := SetReaderQos(s, x, PresetReaderQos(preset), refused);
    assert SameOutside(s, s1, t) && SameOutside(s1, SetWriterQos(s1, x, preset, refused), t);
  }

  lemma PublishKeepsOthers(s: Registry, x: string, a: bool, b: bool, t: string)
    requires x != t
    ensures SameOutside(s, CreatePublisher(s, x, a, b).next, t)
  {
    if x in s.topics {
      var s1 := AddPublisher(s, x, a);
      assert x in s1.topics && SameOutside(s, s1, t) && SameOutside(s1, AddWriter(s1, x, b).next, t);
    }
  }

  lemma SubscribeKeepsOthers(s: Registry, x: string, r: string, filter: string, a: bool, b: bool, c: bool, t: string)
    requires x != t
    ensures SameOutside(s, CreateSubscriber(s, x, r, filter, a, b, c).next, t)
  {
    if x in s.topics {
      var s1 := EnsureSubscriber(s, x, a);
      assert x in s1.topics && SameOutside(s, s1, t);
      CreationKeepsOthers(s1, x, r, Names.FilterName(x, r, 0), filter, s1.topics[x].topic, b, c, t);
      var (s2, h) := AddFilter(s1, x, Names.FilterName(x, r, 0), filter, b);
      CreationKeepsOthers(s2, x, r, "", "", h, b, c, t);
      hide EnsureSubscriber, AddFilter, AddReader, SameOutside;
    }
  }

  lemma CreationKeepsOthers(s: Registry, x: string, r: string, name: string, filter: string, d: Handle, b: bool, c: bool, t: string)
    requires x != t && x in s.topics
    ensures x in AddFilter(s, x, name, filter, b).0.topics && SameOutside(s, AddFilter(s, x, name, filter, b).0, t)
    ensures SameOutside(s, AddReader(s, x, r, d, c).next, t)
  {
  }

  lemma RefilterKeepsOthers(s: Registry, x: string, r: string, filter: string, env: ReplaceEnv, t: string)
    requires x != t
    ensures SameOutside(s, ReplaceFilter(s, x, r, filter, env).next, t)
  {
    var h := GetReader(s, x, r);
    if h != NIL && s.topics[x].subscriber != NIL && r in s.topics[x].readerListeners {
      var s1 := StopEmitter(s, x, r);
      TearKeepsOthers(s, x, r, NIL, true, t);
      var (p, rc) := s1.dds.DeleteReader(s1.topics[x].subscriber, h);
      if rc == RETCODE_OK {
        var d := s1.dds.entities[h].description;
        var s2 := DropFilter(s1.(dds := p), x, d, env.filterDeleteOk);
        TearKeepsOthers(s1.(dds := p), x, r, d, env.filterDeleteOk, t);
        RebuildKeepsOthers(s2, x, r, filter, NextFilterName(x, r, FilterNameOf(s1.dds, d)), env, t);
      }
      hide StopEmitter, DropFilter, Rebuild, SameOutside;
    }
  }

  lemma TearKeepsOthers(s: Registry, x: string, r: string, d: Handle, accept: bool, t: string)
    requires x != t && x in s.topics && r in s.topics[x].readerListeners
    ensures var s1 := StopEmitter(s, x, r); x in s1.topics && r in s1.topics[x].readerListeners && SameOutside(s, s1, t)
    ensures var s2 := DropFilter(s, x, d, accept); x in s2.topics && r in s2.topics[x].readerListeners
    ensures SameOutside(s, DropFilter(s, x, d, accept), t)
    ensures forall p :: SameOutside(s, s.(dds := p), t)
  {
  }

  lemma RebuildKeepsOthers(s: Registry, x: string, r: string, filter: string, name: string, env: ReplaceEnv, t: string)
    requires x != t && x in s.topics && r in s.topics[x].readerListeners
    ensures SameOutside(s, Rebuild(s, x, r, filter, name, env).next, t)
  {
    CreationKeepsOthers(s, x, r, name, filter, NIL, env.filterOk, true, t);
    var (s3, f) := AddFilter(s, x, name, filter, env.filterOk);
    FinishKeepsOthers(s, x, r, s.topics[x].topic, env, t);
    FinishKeepsOthers(s3, x, r, f, env, t);
    hide SameOutside, FinishReplace;
  }

  lemma FinishKeepsOthers(s: Registry, x: string, r: string, d: Handle, env: ReplaceEnv, t: string)
    requires x != t && x in s.topics && r in s.topics[x].readerListeners
    ensures SameOutside(s, FinishReplace(s, x, r, d, env).next, t)
  {
  }

  predicate IsSetter(op: Op) {
    op.Partition? || op.ReaderQosTo? || op.WriterQosTo? || op.PublisherQosTo? || op.SubscriberQosTo? || op.MaxDataRate?
  }

  lemma SetterKeepsOthers(s: Registry, op: Op, t: string)
    requires Enabled(s, op) && IsSetter(op) && op.t != t
    ensures SameOutside(s, Apply(s, op), t)
  {
    hide RegisterTopic, RegisterQos, CreateSubscriber, CreatePublisher, ReplaceFilter, AddCallback, UnregisterTopic;
    hide SetReaderListenerHandler, SetWriterListenerHandler, ApplyReaderQos, GetReader;
  }

  lemma RestKeepsOthers(s: Registry, op: Op, t: string)
    requires Enabled(s, op) && !IsFor(op, t) && !IsSetter(op)
    requires !op.Register? && !op.ApplyPreset? && !op.Subscribe? && !op.Publish? && !op.Refilter?
    ensures SameGroup(s, Apply(s, op), t) && (!SetsHandler(op) ==> SameHandlers(s, Apply(s, op)))
  {
    hide RegisterTopic, RegisterQos, CreateSubscriber, CreatePublisher, ReplaceFilter, Teardown;
  }

  /** Only joining and the two handler setters change what belongs to no topic. */
  lemma HandlersKept(s: Registry, op: Op)
    requires Enabled(s, op) && !SetsHandler(op)
    ensures SameHandlers(s, Apply(s, op))
  {
    if op.TakeSamples? || op.ReturnSamples? {
    } else {
      assert op.t + "'" != op.t;
      OtherGroupKept(s, op, op.t + "'");
      hide Apply;
    }
  }

  // ---- the other fields of the operation's own group ----

  lemma SubscribeChanges(s: Registry, t: string, r: string, filter: string, a: bool, b: bool, c: bool)
    ensures var s' := CreateSubscriber(s, t, r, filter, a, b, c).next;
            && (t in s'.topics <==> t in s.topics)
            && var g, g' := GroupOrNew(s, t), GroupOrNew(s', t);
               g' == g.(subscriber := g'.subscriber, filteredTopics := g'.filteredTopics,
                        readers := g'.readers, readerListeners := g'.readerListeners)
  {
    if r == "" || t !in s.topics || s.topics[t].topic == NIL || r in s.topics[t].readerListeners {
    } else {
      var s1, name := EnsureSubscriber(s, t, a), Names.FilterName(t, r, 0);
      CreationChanges(s, t, r, a, name, filter, NIL, b, c);
      hide EnsureSubscriber, AddFilter, AddReader;
      if s1.topics[t].subscriber == NIL {
      } else if filter == "" {
        CreationChanges(s1, t, r, a, name, filter, s1.topics[t].topic, b, c);
      } else {
        CreationChanges(s1, t, r, a, name, filter, NIL, b, c);
        var (s2, h) := AddFilter(s1, t, name, filter, b);
        CreationChanges(s2, t, r, a, "", "", h, b, c);
      }
    }
  }

  lemma CreationChanges(s: Registry, t: string, r: string, a: bool, name: string, filter: string, d: Handle, b: bool, c: bool)
    requires t in s.topics
    ensures var s1 := EnsureSubscriber(s, t, a);
            t in s1.topics && s1.topics[t] == s.topics[t].(subscriber := s1.topics[t].subscriber)
    ensures var s1 := AddFilter(s, t, name, filter, b).0;
            t in s1.topics && s1.topics[t] == s.topics[t].(filteredTopics := s1.topics[t].filteredTopics)
    ensures var s1 := AddReader(s, t, r, d, c).next;
            && t in s1.topics
            && s1.topics[t] == s.topics[t].(readers := s1.topics[t].readers, readerListeners := s1.topics[t].readerListeners)
  {
  }

  lemma PublishChanges(s: Registry, t: string, a: bool, b: bool)
    ensures var s' := CreatePublisher(s, t, a, b).next;
            && (t in s'.topics <==> t in s.topics)
            && var g, g' := GroupOrNew(s, t), GroupOrNew(s', t);
               g' == g.(publisher := g'.publisher, writer := g'.writer, writerListener := g'.writerListener)
  {
    if t in s.topics {
      var s1 := AddPublisher(s, t, a);
      assert t in s1.topics && s1.topics[t] == s.topics[t].(publisher := s1.topics[t].publisher);
    }
  }

  lemma RefilterChanges(s: Registry, t: string, r: string, filter: string, env: ReplaceEnv)
    ensures var s' := ReplaceFilter(s, t, r, filter, env).next;
            && (t in s'.topics <==> t in s.topics)
            && var g, g' := GroupOrNew(s, t), GroupOrNew(s', t);
               && g' == g.(filteredTopics := g'.filteredTopics, readers := g'.readers, emitters := g'.emitters)
               && g'.readers.Keys <= g.readers.Keys + {r}
  {
    var h := GetReader(s, t, r);
    if h != NIL && s.topics[t].subscriber != NIL && r in s.topics[t].readerListeners {
      var s1 := StopEmitter(s, t, r);
      TearChanges(s, t, r, NIL, true);
      var (p, rc) := s1.dds.DeleteReader(s1.topics[t].subscriber, h);
      if rc == RETCODE_OK {
        var d := s1.dds.entities[h].description;
        var s2 := DropFilter(s1.(dds := p), t, d, env.filterDeleteOk);
        TearChanges(s1.(dds := p), t, r, d, env.filterDeleteOk);
        RebuildChanges(s2, t, r, filter, NextFilterName(t, r, FilterNameOf(s1.dds, d)), env);
      }
      hide StopEmitter, DropFilter, Rebuild;
    }
  }

  lemma TearChanges(s: Registry, t: string, r: string, d: Handle, accept: bool)
    requires t in s.topics
    ensures var s1 := StopEmitter(s, t, r);
            t in s1.topics && s1.topics[t] == s.topics[t].(emitters := s1.topics[t].emitters)
    ensures var s2 := DropFilter(s, t, d, accept);
            t in s2.topics && s2.topics[t] == s.topics[t].(filteredTopics := s2.topics[t].filteredTopics)
  {
  }

  lemma RebuildChanges(s: Registry, t: string, r: string, filter: string, name: string, env: ReplaceEnv)
    requires t in s.topics && r in s.topics[t].readerListeners
    ensures var s' := Rebuild(s, t, r, filter, name, env).next;
            && t in s'.topics
            && var g, g' := s.topics[t], s'.topics[t];
               && g' == g.(filteredTopics := g'.filteredTopics, readers := g'.readers, emitters := g'.emitters)
               && g'.readers.Keys <= g.readers.Keys + {r}
  {
    CreationChanges(s, t, r, true, name, filter, NIL, env.filterOk, true);
    var (s3, f) := AddFilter(s, t, name, filter, env.filterOk);
    FinishChanges(s, t, r, s.topics[t].topic, env);
    FinishChanges(s3, t, r, f, env);
    hide FinishReplace, AddFilter;
  }

  lemma FinishChanges(s: Registry, t: string, r: string, d: Handle, env: ReplaceEnv)
    requires t in s.topics && r in s.topics[t].readerListeners
    ensures var s' := FinishReplace(s, t, r, d, env).next;
            && t in s'.topics
            && s'.topics[t] == s.topics[t].(readers := s'.topics[t].readers, emitters := s'.topics[t].emitters)
            && s'.topics[t].readers.Keys <= s.topics[t].readers.Keys + {r}
  {
  }

  lemma PresetChanges(s: Registry, t: string, preset: int, refused: set<Handle>)
    ensures var s' := RegisterQos(s, t, preset, refused).next;
            && (t in s'.topics <==> t in s.topics)
            && var g, g' := GroupOrNew(s, t), GroupOrNew(s', t);
               g' == g.(readerQos := g'.readerQos, writerQos := g'.writerQos, qosPreset := g'.qosPreset)
  {
  }

  lemma RegisterChanges(s: Registry, t: string, preset: int, accept: bool, refused: set<Handle>)
    ensures var o := RegisterTopic(s, t, preset, accept, refused);
            o.Finished? ==>
              var g, g' := GroupOrNew(s, t), GroupOrNew(o.step.next, t);
              g' == g.(domain := g'.domain, topic := g'.topic, topicListener := g'.topicListener,
                       readerQos := g'.readerQos, writerQos := g'.writerQos, qosPreset := g'.qosPreset)
  {
    var s1 := AddTopic(s, t, accept).0;
    PresetChanges(s1, t, preset, refused);
    hide RegisterQos;
  }

  lemma SetterChanges(s: Registry, op: Op, t: string)
    requires Enabled(s, op) && IsSetter(op) && op.t == t
    ensures var g, g' := GroupOrNew(s, t), GroupOrNew(Apply(s, op), t);
            g' == g.(readerQos := g'.readerQos, writerQos := g'.writerQos, pubQos := g'.pubQos, subQos := g'.subQos)
  {
    hide RegisterTopic, RegisterQos, CreateSubscriber, CreatePublisher, ReplaceFilter, AddCallback, UnregisterTopic;
    hide SetReaderListenerHandler, SetWriterListenerHandler, ApplyReaderQos, GetReader;
  }

  // ---- filters and emitters ----

  predicate SameRecords(s: Registry, s': Registry, t: string) {
    FiltersOf(s', t) == FiltersOf(s, t) && EmittersOf(s', t) == EmittersOf(s, t)
  }

  predicate Touches(op: Op, t: string) {
    (op.Subscribe? || op.Listen? || op.Refilter? || op.Unregister?) && op.t == t
  }

  lemma ApplyKeepsRecords(s: Registry, op: Op, t: string)
    requires Enabled(s, op) && !Touches(op, t)
    ensures SameRecords(s, Apply(s, op), t)
  {
    if !IsFor(op, t) {
      OtherGroupKept(s, op, t);
      hide Apply;
    } else if IsSetter(op) {
      SetterChanges(s, op, t);
      hide Apply;
    } else {
      hide RegisterTopic, RegisterQos, CreatePublisher;
      match op
      case Register(_, preset, ok, refused) => RegisterChanges(s, t, preset, ok, refused);
      case ApplyPreset(_, preset, refused) => PresetChanges(s, t, preset, refused);
      case Publish(_, a, b) => PublishChanges(s, t, a, b);
    }
  }

  // ---- the emitters of other readers ----

  predicate SameEmitter(s: Registry, s': Registry, t: string, r: string) {
    && (r in EmittersOf(s', t) <==> r in EmittersOf(s, t))
    && (r in EmittersOf(s, t) ==> EmittersOf(s', t)[r] == EmittersOf(s, t)[r])
  }

  lemma RefilterKeepsEmitter(s: Registry, t: string, q: string, filter: string, env: ReplaceEnv, r: string)
    requires q != r
    ensures SameEmitter(s, ReplaceFilter(s, t, q, filter, env).next, t, r)
  {
    var h := GetReader(s, t, q);
    if h != NIL && s.topics[t].subscriber != NIL && q in s.topics[t].readerListeners {
      var s1 := StopEmitter(s, t, q);
      assert t in s1.topics && q in s1.topics[t].readerListeners && SameEmitter(s, s1, t, r);
      var (p, rc) := s1.dds.DeleteReader(s1.topics[t].subscriber, h);
      if rc == RETCODE_OK {
        var d := s1.dds.entities[h].description;
        var s2 := DropFilter(s1.(dds := p), t, d, env.filterDeleteOk);
        assert t in s2.topics && q in s2.topics[t].readerListeners && SameEmitter(s1, s2, t, r);
        RebuildKeepsEmitter(s2, t, q, filter, NextFilterName(t, q, FilterNameOf(s1.dds, d)), env, r);
      }
      hide StopEmitter, DropFilter, Rebuild, EmittersOf;
    }
  }

  lemma RebuildKeepsEmitter(s: Registry, t: string, q: string, filter: string, name: string, env: ReplaceEnv, r: string)
    requires q != r && t in s.topics && q in s.topics[t].readerListeners
    ensures SameEmitter(s, Rebuild(s, t, q, filter, name, env).next, t, r)
  {
    CreationChanges(s, t, q, true, name, filter, NIL, env.filterOk, true);
    var (s3, f) := AddFilter(s, t, name, filter, env.filterOk);
    FinishKeepsEmitter(s, t, q, s.topics[t].topic, env, r);
    FinishKeepsEmitter(s3, t, q, f, env, r);
    hide FinishReplace, EmittersOf;
  }

  lemma FinishKeepsEmitter(s: Registry, t: string, q: string, d: Handle, env: ReplaceEnv, r: string)
    requires q != r && t in s.topics && q in s.topics[t].readerListeners
    ensures SameEmitter(s, FinishReplace(s, t, q, d, env).next, t, r)
  {
  }
}
