/**
  What the registry invariant means for a user of the library.
*/
module RegistryTheorems {
  import opened Dds
  import opened Emitters
  import opened RegistrySpec
  import opened RegistryInvariant
  import opened RegistrySteps
  import opened RegistryTeardown
  import opened RegistryOperations
  import opened RegistryRuns
  import Names

  // ---- the groups mirror the participant ----

  /** After any run every live entity is recorded in exactly one group, and
      everything recorded is live, but for reader handles. */
  lemma RegistryMirrorsParticipant(ops: seq<Op>)
    requires Legal(EMPTY_REGISTRY, ops)
    ensures var s := Run(EMPTY_REGISTRY, ops);
            && (forall h :: h in s.dds.entities ==> exists t :: GroupOwns(s, t, h))
            && (forall t, t', h: Handle :: GroupOwns(s, t, h) && GroupOwns(s, t', h) ==> t == t')
            && (forall t, h: Handle :: GroupOwns(s, t, h) && h !in s.dds.entities ==> OwnsReader(s.topics[t], h))
  {
    EmptyInv();
    RunInv(EMPTY_REGISTRY, ops);
    var s := Run(EMPTY_REGISTRY, ops);
    forall h | h in s.dds.entities ensures exists t :: GroupOwns(s, t, h) {
      assert Recorded(s, h);
    }
    forall t, h: Handle | GroupOwns(s, t, h) && h !in s.dds.entities ensures OwnsReader(s.topics[t], h) {
      assert InvOf(s, t);
    }
  }

  // ---- teardown ----

  /** Unregistering a topic removes its entities, all of them, iff no sample of
      its readers is on loan; nothing else changes. */
  lemma UnregisterRemovesEverythingIffNoLoans(s: Registry, t: string)
    requires Inv(s) && t in s.topics
    ensures var g, s' := s.topics[t], UnregisterTopic(s, t).next;
            && (forall h :: h in s'.dds.entities ==> h in s.dds.entities && s'.dds.entities[h] == s.dds.entities[h])
            && (forall h :: h in s.dds.entities && !Owns(g, h) ==> h in s'.dds.entities)
            && ((forall h :: Owns(g, h) ==> h !in s'.dds.entities) <==> !OnLoan(s.dds, g))
  {
    var g := s.topics[t];
    TeardownResult(s, t);
    if OnLoan(s.dds, g) {
      var r :| r in g.readers && g.readers[r] in s.dds.loans;
      assert HeldByReader(s.dds, g, g.readers[r], r) && OwnsReader(g, g.readers[r]);
      assert InvOf(s, t) && ReaderOk(t, g, s.dds, r);
    }
  }

  /** The destructor prints no error iff nothing was on loan and no reader was stale. */
  lemma UnregisterIsCleanIff(s: Registry, t: string)
    requires Inv(s) && t in s.topics
    ensures UnregisterTopic(s, t).clean <==> !OnLoan(s.dds, s.topics[t]) && !HasStaleReader(s.dds, s.topics[t])
  {
    TeardownResult(s, t);
  }

  ghost function UnregisterAll(s: Registry, names: seq<string>): Registry
    decreases |names|
  {
    if names == [] then s else UnregisterAll(UnregisterTopic(s, names[0]).next, names[1..])
  }

  lemma NoTopicsNoEntities(s: Registry)
    requires Inv(s) && s.topics == map[]
    ensures s.dds.entities == map[]
  {
    forall h ensures h !in s.dds.entities {
      assert !Recorded(s, h);
    }
  }

  /** Unregistering every topic, in any order, leaves an empty participant. */
  lemma {:induction false} UnregisterAllEmptiesParticipant(s: Registry, names: seq<string>)
    requires Inv(s) && s.dds.loans == {} && (forall t :: t in s.topics ==> t in names)
    ensures UnregisterAll(s, names).topics == map[]
    ensures UnregisterAll(s, names).dds.entities == map[]
    decreases |names|
  {
    if names == [] {
      assert s.topics == map[];
      NoTopicsNoEntities(s);
    } else {
      var s' := UnregisterTopic(s, names[0]).next;
      assert names[0] in s.topics ==> !OnLoan(s.dds, s.topics[names[0]]);
      UnregisterTopicInv(s, names[0]);
      if names[0] in s.topics {
        TeardownResult(s, names[0]);
      }
      forall t | t in s'.topics ensures t in names[1..] {
        assert t in s.topics && t != names[0];
      }
      UnregisterAllEmptiesParticipant(s', names[1..]);
    }
  }

  // ---- wrapper listeners ----

  /** A live entity calls back into a wrapper listener that has been freed. */
  ghost predicate Dangling(s: Registry, h: Handle) {
    h in s.dds.entities && s.dds.entities[h].HasListener() && s.dds.entities[h].listener !in s.listeners
  }

  /** After any run no live topic, reader or writer refers to a freed listener, and every
      reader or writer listener knows the current handler. */
  lemma ListenersOutliveEntities(ops: seq<Op>)
    requires Legal(EMPTY_REGISTRY, ops)
    ensures var s := Run(EMPTY_REGISTRY, ops);
            && (forall h :: !Dangling(s, h))
            && (forall h :: h in s.dds.entities && s.dds.entities[h].Reader? ==>
                  s.dds.entities[h].listener in s.listeners && s.listeners[s.dds.entities[h].listener] == s.rlHandler)
            && (forall h :: h in s.dds.entities && s.dds.entities[h].Writer? ==>
                  s.dds.entities[h].listener in s.listeners && s.listeners[s.dds.entities[h].listener] == s.wlHandler)
  {
    EmptyInv();
    RunInv(EMPTY_REGISTRY, ops);
    var s := Run(EMPTY_REGISTRY, ops);
    forall h | h in s.dds.entities && s.dds.entities[h].HasListener()
      ensures s.dds.entities[h].listener in s.listeners
      ensures s.dds.entities[h].Reader? ==> s.listeners[s.dds.entities[h].listener] == s.rlHandler
      ensures s.dds.entities[h].Writer? ==> s.listeners[s.dds.entities[h].listener] == s.wlHandler
    {
      ListenerIsAllocated(s, h);
    }
  }

  lemma ListenerIsAllocated(s: Registry, h: Handle)
    requires Inv(s) && h in s.dds.entities && s.dds.entities[h].HasListener()
    ensures s.dds.entities[h].listener in s.listeners
    ensures s.dds.entities[h].Reader? ==> s.listeners[s.dds.entities[h].listener] == s.rlHandler
    ensures s.dds.entities[h].Writer? ==> s.listeners[s.dds.entities[h].listener] == s.wlHandler
    ensures forall t :: GroupOwns(s, t, h) ==> s.dds.entities[h].listener in OwnListeners(s.topics[t])
    ensures forall t :: t in s.topics && s.dds.entities[h].listener in OwnListeners(s.topics[t]) ==> GroupOwns(s, t, h)
  {
    assert Recorded(s, h);
    var t :| GroupOwns(s, t, h);
    var g, l := s.topics[t], s.dds.entities[h].listener;
    assert InvOf(s, t);
    OwnedKind(t, g, s.dds, s.listeners, s.rlHandler, s.wlHandler, h);
    if s.dds.entities[h].Reader? {
      var r :| r in g.readers && g.readers[r] == h;
      assert ReaderOk(t, g, s.dds, r);
    }
    assert GroupOwnsListener(s, t, l);
    forall x | x in s.topics && l in OwnListeners(s.topics[x]) ensures x == t {
      assert GroupOwnsListener(s, x, l);
    }
  }

  /** Destroying a group leaves a live entity with a freed listener iff a sample
      of one of its readers is on loan. */
  lemma UnregisterDanglesIffOnLoan(s: Registry, t: string)
    requires Inv(s) && t in s.topics
    ensures (exists h :: Dangling(UnregisterTopic(s, t).next, h)) <==> OnLoan(s.dds, s.topics[t])
  {
    var g, s' := s.topics[t], UnregisterTopic(s, t).next;
    TeardownResult(s, t);
    if OnLoan(s.dds, g) {
      var r :| r in g.readers && g.readers[r] in s.dds.loans;
      var h := g.readers[r];
      assert HeldByReader(s.dds, g, h, r) && OwnsReader(g, h);
      assert InvOf(s, t) && ReaderOk(t, g, s.dds, r);
      assert GroupOwns(s, t, h);
      ListenerIsAllocated(s, h);
      assert Dangling(s', h);
    } else {
      forall h ensures !Dangling(s', h) {
        if h in s'.dds.entities && s'.dds.entities[h].HasListener() {
          ListenerIsAllocated(s, h);
        }
      }
    }
  }

  // ---- creating publishers and subscribers ----

  /** createPublisher reports success for a group without a writer iff an earlier
      call created the publisher and then failed to create the writer. */
  lemma PublisherWithoutWriterIff(s: Registry, t: string, publisherOk: bool, writerOk: bool)
    requires Inv(s)
    ensures var step := CreatePublisher(s, t, publisherOk, writerOk);
            (step.result && step.next.topics[t].writer == NIL)
            <==> t in s.topics && s.topics[t].publisher != NIL && s.topics[t].writer == NIL
  {
    if t in s.topics {
      assert InvOf(s, t);
    }
  }

  /** createSubscriber succeeds iff the topic is registered, the reader name is new,
      the service creates what it is asked for, and the filter's name is free. */
  lemma CreateSubscriberSucceedsIff(s: Registry, t: string, r: string, filter: string,
                                    subscriberOk: bool, filterOk: bool, readerOk: bool)
    requires Inv(s)
    ensures CreateSubscriber(s, t, r, filter, subscriberOk, filterOk, readerOk).result <==>
              && r != "" && t in s.topics && s.topics[t].topic != NIL && r !in s.topics[t].readers
              && (s.topics[t].subscriber == NIL ==> subscriberOk) && readerOk
              && (filter != "" ==> filterOk && !s.dds.NameInUse(Names.FilterName(t, r, 0)))
  {
    if t in s.topics {
      assert InvOf(s, t);
      if s.topics[t].topic != NIL && r != "" && r !in s.topics[t].readerListeners {
        EnsuredSubscriber(s, t, subscriberOk);
        var s1, name := EnsureSubscriber(s, t, subscriberOk), Names.FilterName(t, r, 0);
        if s1.topics[t].subscriber != NIL {
          SubscribedIff(s1, t, r, name, filter, filterOk, readerOk);
        }
      }
    }
  }

  lemma EnsuredSubscriber(s: Registry, t: string, accept: bool)
    requires Inv(s) && t in s.topics && s.topics[t].topic != NIL
    ensures var s1 := EnsureSubscriber(s, t, accept); var g, p := s1.topics[t], s1.dds;
            && (g.subscriber == NIL <==> s.topics[t].subscriber == NIL && !accept)
            && g.topic == s.topics[t].topic && 0 < p.next && (forall h :: h in p.entities ==> h < p.next)
            && g.topic in p.entities && p.entities[g.topic].Topic?
            && (g.subscriber != NIL ==> g.subscriber in p.entities && p.entities[g.subscriber].Subscriber?)
            && (forall name :: p.NameInUse(name) <==> s.dds.NameInUse(name))
  {
    var p, q := s.dds, EnsureSubscriber(s, t, accept).dds;
    assert InvOf(s, t);
    forall name ensures q.NameInUse(name) <==> p.NameInUse(name) {
      if p.NameInUse(name) {
        var h :| h in p.entities && p.Named(h, name);
        assert q.Named(h, name);
      }
      if q.NameInUse(name) {
        var h :| h in q.entities && q.Named(h, name);
        assert p.Named(h, name);
      }
    }
  }

  lemma SubscribedIff(s: Registry, t: string, r: string, name: string, filter: string, filterOk: bool, readerOk: bool)
    requires t in s.topics
    requires var g, p := s.topics[t], s.dds;
             && 0 < p.next && (forall h :: h in p.entities ==> h < p.next)
             && g.topic in p.entities && p.entities[g.topic].Topic?
             && g.subscriber in p.entities && p.entities[g.subscriber].Subscriber?
    ensures AddReader(s, t, r, s.topics[t].topic, readerOk).result <==> readerOk
    ensures var (s2, h) := AddFilter(s, t, name, filter, filterOk);
            && (h != NIL <==> filterOk && !s.dds.NameInUse(name))
            && (h != NIL ==> (AddReader(s2, t, r, h, readerOk).result <==> readerOk))
  {
  }

  // ---- filter counters ----

  /** After any run the counter in a recorded filter's name is below the filter's handle, so
      the source's int cannot overflow, nor std::stoi throw, before 2^31 entities were created. */
  lemma FilterCountersStayBelowHandles(ops: seq<Op>)
    requires Legal(EMPTY_REGISTRY, ops)
    ensures var s := Run(EMPTY_REGISTRY, ops);
            forall t, name :: t in s.topics && name in s.topics[t].filteredTopics ==>
              Names.FilterCounter(name) < s.topics[t].filteredTopics[name] < s.dds.next
  {
    EmptyInv();
    RunInv(EMPTY_REGISTRY, ops);
    var s := Run(EMPTY_REGISTRY, ops);
    forall t, name | t in s.topics && name in s.topics[t].filteredTopics
      ensures Names.FilterCounter(name) < s.topics[t].filteredTopics[name] < s.dds.next
    {
      assert InvOf(s, t) && CounterBelow(name, s.topics[t].filteredTopics[name]);
    }
  }

  // ---- emitters ----

  /** After any run: an emitter runs iff its thread handle is joinable (so run() never
      assigns to a joinable handle), its reader is nil or the recorded one, and while it
      listens it is the recorded one. */
  lemma EmittersAreConsistent(ops: seq<Op>)
    requires Legal(EMPTY_REGISTRY, ops)
    ensures var s := Run(EMPTY_REGISTRY, ops);
            forall t, r :: t in s.topics && r in s.topics[t].emitters ==>
              var e := s.topics[t].emitters[r];
              && (e.running <==> e.Joinable())
              && r in s.topics[t].readers && e.reader in {NIL, s.topics[t].readers[r]}
              && (e.thread == Listening ==> e.reader == s.topics[t].readers[r])
  {
    EmptyInv();
    RunInv(EMPTY_REGISTRY, ops);
    var s := Run(EMPTY_REGISTRY, ops);
    forall t, r | t in s.topics && r in s.topics[t].emitters
      ensures var e := s.topics[t].emitters[r];
              && (e.running <==> e.Joinable())
              && r in s.topics[t].readers && e.reader in {NIL, s.topics[t].readers[r]}
              && (e.thread == Listening ==> e.reader == s.topics[t].readers[r])
    {
      assert InvOf(s, t);
    }
  }

  // ---- the writer handler ----

  /** SetWriterListenerHandler crashes iff some topic of the manager has no writer. */
  lemma WriterHandlerCrashesIff(s: Registry, handler: nat)
    requires Inv(s)
    ensures SetWriterListenerHandler(s, handler).Crashed? <==> exists t :: t in s.topics && s.topics[t].writer == NIL
  {
    forall t | t in s.topics ensures s.topics[t].writer == NIL <==> s.topics[t].writerListener == NIL {
      assert InvOf(s, t);
    }
  }

  /** That is within reach: joining and registering a topic is enough. */
  lemma WriterHandlerCanCrash(handler: nat)
    ensures exists ops :: Legal(EMPTY_REGISTRY, ops) && SetWriterListenerHandler(Run(EMPTY_REGISTRY, ops), handler).Crashed?
  {
    var register := Register("t", 0, true, {});
    var ops := [Join, register];
    var s1 := Apply(EMPTY_REGISTRY, Join);
    var s2 := Apply(s1, register);
    assert ops[1..] == [register] && [register][1..] == [];
    assert Legal(s2, []);
    assert Legal(s1, [register]) && Run(s1, [register]) == s2;
    assert Legal(EMPTY_REGISTRY, ops) && Run(EMPTY_REGISTRY, ops) == s2;
    assert !s1.dds.NameInUse("t");
    assert "t" in s2.topics && s2.topics["t"].writerListener == NIL;
  }

  // ---- looking readers up ----

  /** getReader finds a reader iff the group records one of that name; what it finds is that
      group's own live reader with that name's listener, or a handle that has been deleted;
      and no other names find the same reader. */
  lemma GetReaderFindsIff(s: Registry, t: string, r: string)
    requires Inv(s)
    ensures GetReader(s, t, r) != NIL <==> t in s.topics && r in s.topics[t].readers
    ensures var h := GetReader(s, t, r);
            h in s.dds.entities ==>
              var e := s.dds.entities[h];
              && e.Reader? && e.subscriber == s.topics[t].subscriber
              && r in s.topics[t].readerListeners && e.listener == s.topics[t].readerListeners[r]
              && DescriptionOk(t, s.topics[t], r, e.description)
    ensures forall t', r' :: GetReader(s, t, r) != NIL && GetReader(s, t', r') == GetReader(s, t, r) ==> (t', r') == (t, r)
  {
    var h := GetReader(s, t, r);
    if t in s.topics && r in s.topics[t].readers {
      assert InvOf(s, t) && ReaderOk(t, s.topics[t], s.dds, r);
      forall t', r' | h != NIL && GetReader(s, t', r') == h ensures (t', r') == (t, r) {
        assert GroupOwns(s, t, h) by { assert OwnsReader(s.topics[t], h); }
        assert GroupOwns(s, t', h) by { assert OwnsReader(s.topics[t'], h); }
      }
    }
  }

  // ---- the rate limit ----

  /** setMaxDataRate asks for a million nanoseconds per unit of rate modulo 2^32: for the separation meant iff
      the product fits 32 bits; the signed product overflows from 2148 on, and from 1000 on the nanoseconds
      are a second or more. */
  lemma SeparationIsMeantIff(rate: int)
    requires rate >= 1
    ensures Separation(rate) < 0x1_0000_0000 && (rate * 1000000 - Separation(rate)) % 0x1_0000_0000 == 0
    ensures Separation(rate) == rate * 1000000 <==> rate <= 4294
    ensures rate * 1000000 < 0x8000_0000 <==> rate <= 2147
    ensures rate * 1000000 < 1000000000 <==> rate <= 999
  {
  }
}
