/**
  The registry invariant: the topic groups mirror the live entities of the
  participant, own their wrapper listeners alone, and keep emitters consistent.
  Every small step of one group preserves it.
*/
module RegistryInvariant {
  import opened Dds
  import opened Emitters
  import opened RegistrySpec
  import Names

  // ---- ownership ----

  ghost predicate OwnsReader(g: Group, h: Handle) {
    exists r :: r in g.readers && g.readers[r] == h
  }

  ghost predicate OwnsFilter(g: Group, h: Handle) {
    exists n :: n in g.filteredTopics && g.filteredTopics[n] == h
  }

  /** The group records handle h. */
  ghost predicate Owns(g: Group, h: Handle) {
    h != NIL && (h == g.topic || h == g.publisher || h == g.subscriber || h == g.writer
                 || OwnsReader(g, h) || OwnsFilter(g, h))
  }

  ghost predicate OwnsListener(g: Group, l: nat) {
    l != NIL && (l == g.topicListener || l == g.writerListener
                 || exists r :: r in g.readerListeners && g.readerListeners[r] == l)
  }

  // ---- one group against the participant ----

  ghost predicate TopicOk(t: string, g: Group, p: Participant) {
    if g.topic == NIL then
      && g.publisher == NIL && g.subscriber == NIL && g.writer == NIL
      && g.topicListener == NIL && g.writerListener == NIL
      && g.readers == map[] && g.filteredTopics == map[] && g.readerListeners == map[] && g.emitters == map[]
    else
      && g.domain && g.topicListener != NIL
      && g.topic in p.entities && p.entities[g.topic] == Topic(t, g.topicListener)
  }

  ghost predicate PublisherOk(g: Group, p: Participant) {
    && (g.publisher != NIL ==> g.publisher in p.entities && p.entities[g.publisher].Publisher?)
    && (g.writer == NIL <==> g.writerListener == NIL)
    && (g.writer != NIL ==>
          && g.publisher != NIL && g.writer in p.entities
          && p.entities[g.writer].Writer?
          && p.entities[g.writer].publisher == g.publisher && p.entities[g.writer].topic == g.topic
          && p.entities[g.writer].listener == g.writerListener)
  }

  ghost predicate SubscriberOk(g: Group, p: Participant) {
    && (g.subscriber != NIL ==> g.subscriber in p.entities && p.entities[g.subscriber].Subscriber?)
    && (g.readers != map[] || g.filteredTopics != map[] ==> g.subscriber != NIL)
  }

  predicate IsFilter(e: Entity, name: string, related: Handle) {
    e.FilteredTopic? && e.name == name && e.related == related
  }

  ghost predicate FiltersOk(g: Group, p: Participant) {
    forall n :: n in g.filteredTopics ==>
      && g.filteredTopics[n] != NIL && g.filteredTopics[n] in p.entities
      && IsFilter(p.entities[g.filteredTopics[n]], n, g.topic)
  }

  /** The counter in a filter's name is smaller than the filter's handle. */
  ghost predicate CountersOk(g: Group) {
    forall n {:trigger CounterBelow(n, g.filteredTopics[n])} :: n in g.filteredTopics ==> CounterBelow(n, g.filteredTopics[n])
  }

  predicate CounterBelow(name: string, h: Handle) {
    Names.FilterCounter(name) < h
  }

  /** A reader reads from the group's topic or from a filtered topic made for it. */
  ghost predicate DescriptionOk(t: string, g: Group, r: string, description: Handle) {
    description == g.topic || IsOwnFilter(t, g, r, description)
  }

  ghost predicate IsOwnFilter(t: string, g: Group, r: string, description: Handle) {
    exists k :: IsOwnFilterAt(t, g, r, description, k)
  }

  predicate IsOwnFilterAt(t: string, g: Group, r: string, description: Handle, k: nat) {
    Names.FilterName(t, r, k) in g.filteredTopics && g.filteredTopics[Names.FilterName(t, r, k)] == description
  }

  /** A recorded reader is this group's, or it is a stale handle. */
  ghost predicate ReaderOk(t: string, g: Group, p: Participant, r: string)
    requires r in g.readers && r in g.readerListeners
  {
    var h := g.readers[r];
    && r != "" && h != NIL && h < p.next
    && (h in p.entities ==>
          && p.entities[h].Reader?
          && p.entities[h].subscriber == g.subscriber
          && p.entities[h].listener == g.readerListeners[r]
          && DescriptionOk(t, g, r, p.entities[h].description))
  }

  ghost predicate ReadersOk(t: string, g: Group, p: Participant) {
    && g.readers.Keys == g.readerListeners.Keys
    && (forall r {:trigger ReaderOk(t, g, p, r)} :: r in g.readers ==> ReaderOk(t, g, p, r))
    && (forall r, r' :: r in g.readers && r' in g.readers && g.readers[r] == g.readers[r'] ==> r == r')
  }

  /** Every wrapper listener of the group is allocated, used once, and knows the current handler. */
  ghost predicate ListenersOk(g: Group, listeners: map<nat, nat>, rlHandler: nat, wlHandler: nat) {
    && (g.topicListener != NIL ==> g.topicListener in listeners)
    && (g.writerListener != NIL ==> g.writerListener in listeners && listeners[g.writerListener] == wlHandler)
    && (g.writerListener == g.topicListener ==> g.topicListener == NIL)
    && (forall r :: r in g.readerListeners ==>
          var l := g.readerListeners[r];
          l != NIL && l in listeners && listeners[l] == rlHandler && l != g.topicListener && l != g.writerListener)
    && (forall r, r' | r in g.readerListeners && r' in g.readerListeners ::
          g.readerListeners[r] == g.readerListeners[r'] ==> r == r')
  }

  ghost predicate EmittersOk(g: Group) {
    forall r :: r in g.emitters ==>
      r in g.readers && g.emitters[r].Consistent() && g.emitters[r].reader in {NIL, g.readers[r]}
  }

  ghost predicate GroupInv(t: string, g: Group, p: Participant, listeners: map<nat, nat>, rl: nat, wl: nat) {
    && TopicOk(t, g, p)
    && PublisherOk(g, p)
    && SubscriberOk(g, p)
    && FiltersOk(g, p)
    && CountersOk(g)
    && ReadersOk(t, g, p)
    && ListenersOk(g, listeners, rl, wl)
    && EmittersOk(g)
  }

  // ---- the whole registry ----

  ghost predicate GroupOwns(s: Registry, t: string, h: Handle) {
    t in s.topics && Owns(s.topics[t], h)
  }

  ghost predicate GroupOwnsListener(s: Registry, t: string, l: nat) {
    t in s.topics && OwnsListener(s.topics[t], l)
  }

  /** No leak: every live entity is recorded. */
  ghost predicate NoLeak(s: Registry) {
    forall h {:trigger Recorded(s, h)} :: h in s.dds.entities ==> Recorded(s, h)
  }

  ghost predicate Recorded(s: Registry, h: Handle) {
    exists t :: GroupOwns(s, t, h)
  }

  /** No sharing: no handle and no listener is recorded by two groups. */
  ghost predicate NoSharing(s: Registry) {
    && (forall t, t', h: Handle :: GroupOwns(s, t, h) && GroupOwns(s, t', h) ==> t == t')
    && (forall t, t', l: nat :: GroupOwnsListener(s, t, l) && GroupOwnsListener(s, t', l) ==> t == t')
  }

  ghost predicate InvOf(s: Registry, t: string)
    requires t in s.topics
  {
    GroupInv(t, s.topics[t], s.dds, s.listeners, s.rlHandler, s.wlHandler)
  }

  ghost predicate Inv(s: Registry) {
    && s.dds.Valid()
    && 0 < s.nextListener
    && (forall l :: l in s.listeners ==> 0 < l < s.nextListener)
    && (forall t {:trigger InvOf(s, t)} :: t in s.topics ==> InvOf(s, t))
    && (!s.joined ==> forall t :: t in s.topics ==> s.topics[t].topic == NIL)
    && NoLeak(s)
    && NoSharing(s)
  }

  lemma EmptyInv()
    ensures Inv(EMPTY_REGISTRY)
  {
  }

  /** What a group records is below the participant's next handle. */
  lemma OwnedIsOld(t: string, g: Group, p: Participant, ls: map<nat, nat>, rl: nat, wl: nat, h: Handle)
    requires p.Valid() && GroupInv(t, g, p, ls, rl, wl) && Owns(g, h)
    ensures h < p.next
  {
    if OwnsReader(g, h) {
      var r :| r in g.readers && g.readers[r] == h;
      assert ReaderOk(t, g, p, r);
    }
  }

  // ---- a step that touches one group ----

  ghost predicate SameOn(p: Participant, q: Participant, h: Handle) {
    (h in p.entities <==> h in q.entities) && (h in p.entities ==> p.entities[h] == q.entities[h])
  }

  ghost predicate SameListenerOn(a: map<nat, nat>, b: map<nat, nat>, l: nat) {
    l in a ==> l in b && a[l] == b[l]
  }

  lemma GroupInvFrame(t: string, g: Group, p: Participant, q: Participant,
                      ls: map<nat, nat>, ls': map<nat, nat>, rl: nat, wl: nat)
    requires GroupInv(t, g, p, ls, rl, wl)
    requires p.next <= q.next
    requires forall h :: Owns(g, h) ==> SameOn(p, q, h)
    requires forall l :: OwnsListener(g, l) ==> SameListenerOn(ls, ls', l)
    ensures GroupInv(t, g, q, ls', rl, wl)
  {
    assert g.topic != NIL ==> Owns(g, g.topic) && OwnsListener(g, g.topicListener);
    assert g.publisher != NIL ==> Owns(g, g.publisher);
    assert g.subscriber != NIL ==> Owns(g, g.subscriber);
    assert g.writer != NIL ==> Owns(g, g.writer) && OwnsListener(g, g.writerListener);
    forall n | n in g.filteredTopics
      ensures g.filteredTopics[n] in q.entities && IsFilter(q.entities[g.filteredTopics[n]], n, g.topic)
    {
      var h := g.filteredTopics[n];
      assert OwnsFilter(g, h) && Owns(g, h) && SameOn(p, q, h);
    }
    forall r | r in g.readers ensures ReaderOk(t, g, q, r) {
      assert ReaderOk(t, g, p, r);
      assert OwnsReader(g, g.readers[r]) && Owns(g, g.readers[r]) && SameOn(p, q, g.readers[r]);
    }
    forall r | r in g.readerListeners ensures g.readerListeners[r] in ls' && ls'[g.readerListeners[r]] == rl {
      assert OwnsListener(g, g.readerListeners[r]);
    }
  }

  /** Only group t, what it owns and fresh handles and listeners may change. */
  ghost predicate LocalChange(s: Registry, s': Registry, t: string) {
    && t in s'.topics && s'.topics == s.topics[t := s'.topics[t]]
    && s'.joined == s.joined && s'.rlHandler == s.rlHandler && s'.wlHandler == s.wlHandler
    && s.dds.next <= s'.dds.next && s.nextListener <= s'.nextListener
    && (forall h: Handle :: Owns(s'.topics[t], h) ==> GroupOwns(s, t, h) || s.dds.next <= h < s'.dds.next)
    && (forall l: nat :: OwnsListener(s'.topics[t], l) ==> GroupOwnsListener(s, t, l) || s.nextListener <= l < s'.nextListener)
    && (forall h: Handle :: h < s.dds.next && !GroupOwns(s, t, h) ==> SameOn(s.dds, s'.dds, h))
    && (forall l: nat :: l < s.nextListener && !GroupOwnsListener(s, t, l) ==> SameListenerOn(s.listeners, s'.listeners, l))
    && (forall h :: h in s'.dds.entities && (s.dds.next <= h || GroupOwns(s, t, h)) ==> Owns(s'.topics[t], h))
  }

  lemma LocalStep(s: Registry, s': Registry, t: string)
    requires Inv(s) && LocalChange(s, s', t)
    requires s'.dds.Valid() && InvOf(s', t)
    requires s'.topics[t].topic != NIL ==> s.joined
    requires forall l :: l in s'.listeners ==> 0 < l < s'.nextListener
    ensures Inv(s')
  {
    forall x | x in s'.topics ensures InvOf(s', x) {
      if x != t {
        OthersKeepInv(s, s', t, x);
      }
    }
    LocalNoLeak(s, s', t);
    LocalNoSharing(s, s', t);
  }

  lemma LocalNoLeak(s: Registry, s': Registry, t: string)
    requires Inv(s) && LocalChange(s, s', t)
    ensures NoLeak(s')
  {
    forall h | h in s'.dds.entities ensures Recorded(s', h) {
      if s.dds.next <= h || GroupOwns(s, t, h) {
        assert GroupOwns(s', t, h);
      } else {
        assert SameOn(s.dds, s'.dds, h);
        assert Recorded(s, h);
        var x :| GroupOwns(s, x, h);
        assert GroupOwns(s', x, h);
      }
    }
  }

  lemma LocalNoSharing(s: Registry, s': Registry, t: string)
    requires Inv(s) && LocalChange(s, s', t)
    ensures NoSharing(s')
  {
    forall x, y, h: Handle | GroupOwns(s', x, h) && GroupOwns(s', y, h) ensures x == y {
      OwnershipIsOldOrFresh(s, s', t, x, h);
      OwnershipIsOldOrFresh(s, s', t, y, h);
    }
    forall x, y, l: nat | GroupOwnsListener(s', x, l) && GroupOwnsListener(s', y, l) ensures x == y {
      ListenerIsOldOrFresh(s, s', t, x, l);
      ListenerIsOldOrFresh(s, s', t, y, l);
    }
  }

  lemma OthersKeepInv(s: Registry, s': Registry, t: string, x: string)
    requires Inv(s) && LocalChange(s, s', t) && x in s.topics && x != t
    ensures InvOf(s', x)
  {
    forall h | Owns(s.topics[x], h) ensures SameOn(s.dds, s'.dds, h) {
      OthersKeepHandle(s, s', t, x, h);
    }
    forall l | OwnsListener(s.topics[x], l) ensures SameListenerOn(s.listeners, s'.listeners, l) {
      OthersKeepListener(s, s', t, x, l);
    }
    assert InvOf(s, x);
    GroupInvFrame(x, s.topics[x], s.dds, s'.dds, s.listeners, s'.listeners, s.rlHandler, s.wlHandler);
  }

  lemma OthersKeepHandle(s: Registry, s': Registry, t: string, x: string, h: Handle)
    requires Inv(s) && LocalChange(s, s', t) && x in s.topics && x != t && Owns(s.topics[x], h)
    ensures SameOn(s.dds, s'.dds, h)
  {
    assert GroupOwns(s, x, h);
    assert InvOf(s, x);
    OwnedIsOld(x, s.topics[x], s.dds, s.listeners, s.rlHandler, s.wlHandler, h);
  }

  lemma OthersKeepListener(s: Registry, s': Registry, t: string, x: string, l: nat)
    requires Inv(s) && LocalChange(s, s', t) && x in s.topics && x != t && OwnsListener(s.topics[x], l)
    ensures SameListenerOn(s.listeners, s'.listeners, l)
  {
    assert GroupOwnsListener(s, x, l);
  }

  lemma OwnershipIsOldOrFresh(s: Registry, s': Registry, t: string, x: string, h: Handle)
    requires Inv(s) && LocalChange(s, s', t) && x in s'.topics && Owns(s'.topics[x], h)
    ensures if h < s.dds.next then GroupOwns(s, x, h) else x == t
  {
    if x != t {
      assert InvOf(s, x);
      OwnedIsOld(x, s.topics[x], s.dds, s.listeners, s.rlHandler, s.wlHandler, h);
    } else if GroupOwns(s, t, h) {
      assert InvOf(s, t);
      OwnedIsOld(t, s.topics[t], s.dds, s.listeners, s.rlHandler, s.wlHandler, h);
    }
  }

  lemma ListenerIsOldOrFresh(s: Registry, s': Registry, t: string, x: string, l: nat)
    requires Inv(s) && LocalChange(s, s', t) && x in s'.topics && OwnsListener(s'.topics[x], l)
    ensures if l < s.nextListener then GroupOwnsListener(s, x, l) else x == t
  {
    if x != t {
      assert InvOf(s, x);
    } else if GroupOwnsListener(s, t, l) {
      assert InvOf(s, t);
    }
  }
}
