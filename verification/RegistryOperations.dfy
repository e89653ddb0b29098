/**
  Every public operation preserves the registry invariant.
*/
module RegistryOperations {
  import opened Dds
  import opened Emitters
  import opened RegistrySpec
  import opened RegistryInvariant
  import opened RegistrySteps
  import opened RegistryTeardown
  import Names

  lemma RegisterTopicInv(s: Registry, t: string, preset: int, accept: bool, refused: set<Handle>)
    requires Inv(s)
    ensures var o := RegisterTopic(s, t, preset, accept, refused); o.Finished? ==> Inv(o.step.next)
  {
    if s.joined && !(t in s.topics && s.topics[t].topic != NIL) {
      AddTopicInv(s, t, accept);
      var (s1, h) := AddTopic(s, t, accept);
      if h != NIL {
        RegisterQosInv(s1, t, preset, refused);
      }
    }
  }

  lemma CreateSubscriberInv(s: Registry, t: string, r: string, filter: string,
                            subscriberOk: bool, filterOk: bool, readerOk: bool)
    requires Inv(s)
    ensures Inv(CreateSubscriber(s, t, r, filter, subscriberOk, filterOk, readerOk).next)
  {
    if r != "" && t in s.topics && s.topics[t].topic != NIL && r !in s.topics[t].readerListeners {
      EnsureSubscriberInv(s, t, subscriberOk);
      var s1 := EnsureSubscriber(s, t, subscriberOk);
      if s1.topics[t].subscriber != NIL {
        if filter == "" {
          AddReaderInv(s1, t, r, s1.topics[t].topic, readerOk);
        } else {
          var name := Names.FilterName(t, r, 0);
          Names.FilterCounterInvertsName(t, r, 0);
          AddFilterInv(s1, t, name, filter, filterOk);
          var (s2, h) := AddFilter(s1, t, name, filter, filterOk);
          if h != NIL {
            assert IsOwnFilterAt(t, s2.topics[t], r, h, 0);
            AddReaderInv(s2, t, r, h, readerOk);
          }
        }
      }
    }
  }

  lemma CreatePublisherInv(s: Registry, t: string, publisherOk: bool, writerOk: bool)
    requires Inv(s)
    ensures Inv(CreatePublisher(s, t, publisherOk, writerOk).next)
  {
    if t in s.topics && s.topics[t].topic != NIL && s.topics[t].publisher == NIL {
      AddPublisherInv(s, t, publisherOk);
      var s1 := AddPublisher(s, t, publisherOk);
      if s1.topics[t].publisher != NIL {
        assert InvOf(s, t);
        AddWriterInv(s1, t, writerOk);
      }
    }
  }

  // ---- replaceFilter ----

  lemma ReplaceFilterInv(s: Registry, t: string, r: string, filter: string, env: ReplaceEnv)
    requires Inv(s)
    ensures Inv(ReplaceFilter(s, t, r, filter, env).next)
  {
    var h := GetReader(s, t, r);
    if h != NIL && s.topics[t].subscriber != NIL && r in s.topics[t].readerListeners {
      StopEmitterInv(s, t, r);
      var s1 := StopEmitter(s, t, r);
      var (p, rc) := s1.dds.DeleteReader(s1.topics[t].subscriber, h);
      if env.containedOk && rc == RETCODE_OK {
        var description := s1.dds.entities[h].description;
        var s2 := DropFilter(s1.(dds := p), t, description, env.filterDeleteOk);
        TakenDownInv(s1, t, r, env.filterDeleteOk);
        NextCounterBelow(s1, t, r);
        var existing := FilterNameOf(s1.dds, description);
        RebuildInv(s2, t, r, filter, NextFilterName(t, r, existing),
                   1 + if existing == "" then 0 else Names.FilterCounter(existing), env);
      }
    }
  }

  /** The next counter of a live reader's filter is below the next handle. */
  lemma NextCounterBelow(s: Registry, t: string, r: string)
    requires Inv(s) && t in s.topics && r in s.topics[t].readers && s.topics[t].readers[r] in s.dds.entities
    requires s.dds.entities[s.topics[t].readers[r]].Reader?
    ensures CounterBelow(NextFilterName(t, r, FilterNameOf(s.dds, s.dds.entities[s.topics[t].readers[r]].description)), s.dds.next)
  {
    var g, d := s.topics[t], s.dds.entities[s.topics[t].readers[r]].description;
    hide Names.FilterName, Names.FilterCounter;
    Names.FilterCounterInvertsName(t, r, 1);
    assert InvOf(s, t) && ReaderOk(t, g, s.dds, r);
    hide Inv;
    if d != g.topic {
      var k: nat :| IsOwnFilterAt(t, g, r, d, k);
      OwnFilterCounter(s, t, Names.FilterName(t, r, k));
      Names.FilterCounterInvertsName(t, r, k);
      Names.FilterCounterInvertsName(t, r, k + 1);
    }
  }

  lemma OwnFilterCounter(s: Registry, t: string, name: string)
    requires Inv(s) && t in s.topics && name in s.topics[t].filteredTopics
    ensures var d := s.topics[t].filteredTopics[name];
            FilterNameOf(s.dds, d) == name && Names.FilterCounter(name) < d < s.dds.next
  {
    assert InvOf(s, t) && CounterBelow(name, s.topics[t].filteredTopics[name]);
  }

  /** The first half of replaceFilter: the reader is deleted, and its filtered
      topic too unless the service refuses. */
  lemma TakenDownInv(s: Registry, t: string, r: string, filterDeleteOk: bool)
    requires Inv(s) && t in s.topics && r in s.topics[t].readers && r in s.topics[t].readerListeners
    requires s.dds.DeleteReader(s.topics[t].subscriber, s.topics[t].readers[r]).1 == RETCODE_OK
    ensures var h := s.topics[t].readers[r];
            var p := s.dds.DeleteReader(s.topics[t].subscriber, h).0;
            var s2 := DropFilter(s.(dds := p), t, s.dds.entities[h].description, filterDeleteOk);
            var g2 := s2.topics[t];
            && Inv(s2) && g2.topic != NIL && g2.subscriber != NIL
            && r in g2.readerListeners && r in g2.readers && g2.readers[r] !in s2.dds.entities
            && s2.dds.next == s.dds.next
  {
    var h := s.topics[t].readers[r];
    var p := s.dds.DeleteReader(s.topics[t].subscriber, h).0;
    assert InvOf(s, t);
    DeleteReaderInv(s, t, r);
    DropFilterInv(s.(dds := p), t, s.dds.entities[h].description, filterDeleteOk);
  }

  /** The second half of replaceFilter: with the old reader deleted, a new
      filtered topic if one is asked for, and then the new reader. */
  lemma RebuildInv(s: Registry, t: string, r: string, filter: string, name: string, k: nat, env: ReplaceEnv)
    requires Inv(s) && t in s.topics && s.topics[t].topic != NIL && s.topics[t].subscriber != NIL
    requires r in s.topics[t].readerListeners && r in s.topics[t].readers
    requires s.topics[t].readers[r] !in s.dds.entities
    requires name == Names.FilterName(t, r, k) && CounterBelow(name, s.dds.next)
    ensures Inv(Rebuild(s, t, r, filter, name, env).next)
  {
    if filter == "" {
      FinishReplaceInv(s, t, r, s.topics[t].topic, env);
    } else {
      AddFilterInv(s, t, name, filter, env.filterOk);
      var (s3, f) := AddFilter(s, t, name, filter, env.filterOk);
      if f != NIL {
        assert IsOwnFilterAt(t, s3.topics[t], r, f, k);
        HandlesAreOld(s, t);
        FinishReplaceInv(s3, t, r, f, env);
      }
    }
  }

  // ---- handlers, loans ----

  lemma SetReaderListenerHandlerInv(s: Registry, handler: nat)
    requires Inv(s)
    ensures Inv(SetReaderListenerHandler(s, handler))
  {
    var s' := SetReaderListenerHandler(s, handler);
    forall t | t in s.topics ensures InvOf(s', t) {
      assert InvOf(s, t);
      var g := s.topics[t];
      forall r | r in g.readerListeners ensures s'.listeners[g.readerListeners[r]] == handler {
        assert g.readerListeners[r] in ReaderListeners(s);
      }
      if g.writerListener != NIL {
        WriterListenerIsNoReaderListener(s, t);
      }
    }
    SameTopicsKeepOwners(s, s');
  }

  lemma WriterListenerIsNoReaderListener(s: Registry, t: string)
    requires Inv(s) && t in s.topics && s.topics[t].writerListener != NIL
    ensures s.topics[t].writerListener !in ReaderListeners(s)
  {
    var l := s.topics[t].writerListener;
    assert InvOf(s, t);
    if l in ReaderListeners(s) {
      var x, r :| x in s.topics && r in s.topics[x].readerListeners && s.topics[x].readerListeners[r] == l;
      assert GroupOwnsListener(s, t, l) && GroupOwnsListener(s, x, l);
    }
  }

  lemma SetWriterListenerHandlerInv(s: Registry, handler: nat)
    requires Inv(s) && SetWriterListenerHandler(s, handler).HandlerSet?
    ensures Inv(SetWriterListenerHandler(s, handler).next)
  {
    var s' := SetWriterListenerHandler(s, handler).next;
    forall t | t in s.topics ensures InvOf(s', t) {
      assert InvOf(s, t);
      var g := s.topics[t];
      forall r | r in g.readerListeners ensures s'.listeners[g.readerListeners[r]] == s.rlHandler {
        ReaderListenerIsNoWriterListener(s, t, r);
      }
    }
    SameTopicsKeepOwners(s, s');
  }

  lemma ReaderListenerIsNoWriterListener(s: Registry, t: string, r: string)
    requires Inv(s) && t in s.topics && r in s.topics[t].readerListeners
    ensures forall x :: x in s.topics ==> s.topics[x].writerListener != s.topics[t].readerListeners[r]
  {
    assert InvOf(s, t);
    forall x | x in s.topics ensures s.topics[x].writerListener != s.topics[t].readerListeners[r] {
      if s.topics[x].writerListener == s.topics[t].readerListeners[r] {
        var l := s.topics[x].writerListener;
        assert GroupOwnsListener(s, t, l) && GroupOwnsListener(s, x, l);
      }
    }
  }

  lemma SameTopicsKeepOwners(s: Registry, s': Registry)
    requires NoLeak(s) && NoSharing(s) && s'.topics == s.topics && s'.dds.entities == s.dds.entities
    ensures NoLeak(s') && NoSharing(s')
  {
    forall h | h in s'.dds.entities ensures Recorded(s', h) {
      assert Recorded(s, h);
      var t :| GroupOwns(s, t, h);
      assert GroupOwns(s', t, h);
    }
    forall t, x, h: Handle | GroupOwns(s', t, h) && GroupOwns(s', x, h) ensures t == x {
      assert GroupOwns(s, t, h) && GroupOwns(s, x, h);
    }
    forall t, x, l: nat | GroupOwnsListener(s', t, l) && GroupOwnsListener(s', x, l) ensures t == x {
      assert GroupOwnsListener(s, t, l) && GroupOwnsListener(s, x, l);
    }
  }

  /** Taking samples or returning them changes no entity. */
  lemma LoansInv(s: Registry, p: Participant)
    requires Inv(s) && p == s.dds.(loans := p.loans)
    requires forall h :: h in p.loans ==> h in p.entities && p.entities[h].Reader?
    ensures Inv(s.(dds := p))
  {
    var s' := s.(dds := p);
    forall h | h in p.entities ensures p.WellReferenced(p.entities[h]) {
      assert s.dds.WellReferenced(s.dds.entities[h]);
    }
    forall h, k, name | p.Named(h, name) && p.Named(k, name) ensures h == k {
      assert s.dds.Named(h, name) && s.dds.Named(k, name);
    }
    forall t | t in s.topics ensures InvOf(s', t) {
      assert InvOf(s, t);
      GroupInvFrame(t, s.topics[t], s.dds, p, s.listeners, s.listeners, s.rlHandler, s.wlHandler);
    }
    SameTopicsKeepOwners(s, s');
  }

  // ---- unregisterTopic ----

  lemma UnregisterTopicInv(s: Registry, t: string)
    requires Inv(s) && (t in s.topics ==> !OnLoan(s.dds, s.topics[t]))
    ensures Inv(UnregisterTopic(s, t).next)
  {
    if t in s.topics {
      var g, s' := s.topics[t], UnregisterTopic(s, t).next;
      TeardownResult(s, t);
      assert forall h :: h in s'.dds.entities <==> h in s.dds.entities && !Owns(g, h);
      TornParticipantIsValid(s, t, s'.dds);
      forall x | x in s'.topics ensures InvOf(s', x) {
        SurvivorKeepsInv(s, t, x);
      }
      TornKeepsOwners(s, t);
    }
  }

  lemma TornParticipantIsValid(s: Registry, t: string, q: Participant)
    requires Inv(s) && t in s.topics && !OnLoan(s.dds, s.topics[t])
    requires forall h :: h in q.entities <==> h in s.dds.entities && !Owns(s.topics[t], h)
    requires forall h :: h in q.entities ==> q.entities[h] == s.dds.entities[h]
    requires q.next == s.dds.next && q.loans == s.dds.loans
    ensures q.Valid()
  {
    var p, g := s.dds, s.topics[t];
    forall h | h in q.entities ensures q.WellReferenced(q.entities[h]) {
      assert p.WellReferenced(p.entities[h]);
      forall k | p.entities[h].RefersTo(k) && k in p.entities ensures k in q.entities {
        if Owns(g, k) {
          ReferrerIsOwned(s, t, k, h);
        }
      }
    }
    forall h, k, name | q.Named(h, name) && q.Named(k, name) ensures h == k {
      assert p.Named(h, name) && p.Named(k, name);
    }
    forall h | h in q.loans ensures h in q.entities {
      LoanedIsNotOwned(s, t, h);
    }
  }

  lemma LoanedIsNotOwned(s: Registry, t: string, h: Handle)
    requires Inv(s) && t in s.topics && !OnLoan(s.dds, s.topics[t]) && h in s.dds.loans
    ensures !Owns(s.topics[t], h)
  {
    if Owns(s.topics[t], h) {
      assert InvOf(s, t);
      OwnedKind(t, s.topics[t], s.dds, s.listeners, s.rlHandler, s.wlHandler, h);
    }
  }

  lemma SurvivorKeepsInv(s: Registry, t: string, x: string)
    requires Inv(s) && t in s.topics && x in s.topics && x != t && !OnLoan(s.dds, s.topics[t])
    ensures InvOf(UnregisterTopic(s, t).next, x)
  {
    hide Teardown;
    var s' := UnregisterTopic(s, t).next;
    TeardownResult(s, t);
    assert InvOf(s, x);
    forall h | Owns(s.topics[x], h) ensures SameOn(s.dds, s'.dds, h) {
      assert GroupOwns(s, x, h) && (Owns(s.topics[t], h) ==> GroupOwns(s, t, h));
    }
    forall l | OwnsListener(s.topics[x], l) ensures SameListenerOn(s.listeners, s'.listeners, l) {
      assert GroupOwnsListener(s, x, l) && (l in OwnListeners(s.topics[t]) ==> GroupOwnsListener(s, t, l));
    }
    GroupInvFrame(x, s.topics[x], s.dds, s'.dds, s.listeners, s'.listeners, s.rlHandler, s.wlHandler);
  }

  lemma TornKeepsOwners(s: Registry, t: string)
    requires Inv(s) && t in s.topics && !OnLoan(s.dds, s.topics[t])
    ensures NoLeak(UnregisterTopic(s, t).next) && NoSharing(UnregisterTopic(s, t).next)
  {
    var s' := UnregisterTopic(s, t).next;
    TeardownResult(s, t);
    forall h | h in s'.dds.entities ensures Recorded(s', h) {
      assert Recorded(s, h);
      var x :| GroupOwns(s, x, h);
      assert GroupOwns(s', x, h);
    }
    forall x, y, h: Handle | GroupOwns(s', x, h) && GroupOwns(s', y, h) ensures x == y {
      assert GroupOwns(s, x, h) && GroupOwns(s, y, h);
    }
    forall x, y, l: nat | GroupOwnsListener(s', x, l) && GroupOwnsListener(s', y, l) ensures x == y {
      assert GroupOwnsListener(s, x, l) && GroupOwnsListener(s, y, l);
    }
  }
}
