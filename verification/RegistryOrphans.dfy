/**
  Filtered topics that stay behind unread: which calls leave one, and what that costs.
*/
module RegistryOrphans {
  import opened Dds
  import opened Emitters
  import opened RegistrySpec
  import opened RegistryInvariant
  import opened RegistrySteps
  import opened RegistryTeardown
  import opened RegistryOperations
  import opened RegistryRuns
  import opened RegistryReplace
  import opened RegistryTheorems
  import opened RegistryForever
  import opened RegistryFrame
  import Names

  // ---- an orphan that was recorded before ----

  /** Who reads from a topic's filter still does, unless it is the reader called free. */
  lemma ReferenceStays(s: Registry, s': Registry, t: string, free: string, f: Handle, x: Handle)
    requires Inv(s) && Evolves(s, s', t, free) && t in s.topics && OwnsFilter(s.topics[t], f)
    requires free in s.topics[t].readers ==> s.topics[t].readers[free] !in s.dds.entities
    requires x in s.dds.entities && s.dds.entities[x].RefersTo(f)
    ensures s'.dds.Referenced(f)
  {
    FilterIsReadByOwnReader(s, t, f, x);
    assert SameShape(s.dds.entities[x], s'.dds.entities[x]) && s'.dds.entities[x].RefersTo(f);
  }

  lemma FilterIsReadByOwnReader(s: Registry, t: string, f: Handle, x: Handle)
    requires Inv(s) && t in s.topics && OwnsFilter(s.topics[t], f)
    requires x in s.dds.entities && s.dds.entities[x].RefersTo(f)
    ensures OwnsReader(s.topics[t], x)
  {
    assert InvOf(s, t);
    ReferrerIsOwned(s, t, f, x);
    OwnedKind(t, s.topics[t], s.dds, s.listeners, s.rlHandler, s.wlHandler, x);
    assert s.dds.WellReferenced(s.dds.entities[x]);
  }

  predicate SameFilter(s: Registry, s': Registry, t: string, name: string) {
    && (name in FiltersOf(s', t) <==> name in FiltersOf(s, t))
    && (name in FiltersOf(s, t) ==> FiltersOf(s', t)[name] == FiltersOf(s, t)[name])
  }

  /** A filter whose record stays is an orphan afterwards iff it was one before. */
  lemma KeptFilterIsOrphanIff(s: Registry, s': Registry, t: string, free: string, name: string)
    requires Inv(s) && Evolves(s, s', t, free) && SameFilter(s, s', t, name)
    requires free != "" ==> t in s.topics && free in s.topics[t].readers && s.topics[t].readers[free] !in s.dds.entities
    ensures Orphan(s', t, name) <==> Orphan(s, t, name)
  {
    if Orphan(s, t, name) {
      EvolutionKeepsOrphan(s, s', t, free, name);
    } else if Orphan(s', t, name) {
      var f := s.topics[t].filteredTopics[name];
      assert InvOf(s, t) && OwnsFilter(s.topics[t], f);
      assert s.dds.Referenced(f);
      var x :| x in s.dds.entities && s.dds.entities[x].RefersTo(f);
      ReadersAreNamed(s, t);
      ReferenceStays(s, s', t, free, f, x);
    }
  }

  // ---- a new filtered topic and the reader that should read from it ----

  /** The filtered topic is recorded and the reader refused, or it has its reader. */
  lemma NewFilterIsOrphanIff(s: Registry, s': Registry, t: string, name: string, filter: string, e: Entity, read: bool)
    requires Inv(s) && t in s.topics && t in s'.topics
    requires s.topics[t].topic in s.dds.entities && s.dds.entities[s.topics[t].topic].Topic?
    requires var f := FilteredTopic(name, s.topics[t].topic, filter);
             && s'.dds == (if read then s.dds.Add(f).Add(e) else s.dds.Add(f)) && e.RefersTo(s.dds.next)
             && name in s'.topics[t].filteredTopics && s'.topics[t].filteredTopics[name] == s.dds.next
    ensures Orphan(s', t, name) <==> !read
  {
    var h, q := s.dds.next, s'.dds;
    if read {
      assert q.entities[h + 1].RefersTo(h);
    } else {
      forall x | x in q.entities ensures !q.entities[x].RefersTo(h) {
        assert x != h ==> s.dds.WellReferenced(s.dds.entities[x]);
      }
    }
  }

  // ---- createSubscriber ----

  /** createSubscriber gets past its checks, up to creating the filtered topic and the reader. */
  ghost predicate CanFilter(s: Registry, t: string, r: string, subscriberOk: bool) {
    && r != "" && t in s.topics && s.topics[t].topic != NIL && r !in s.topics[t].readers
    && (s.topics[t].subscriber == NIL ==> subscriberOk) && !s.dds.NameInUse(Names.FilterName(t, r, 0))
  }

  /** createSubscriber leaves this filtered topic unread: a filter was asked for, everything up to
      the filtered topic worked, and the service refused the reader. */
  ghost predicate SubscribeOrphans(s: Registry, t: string, r: string, filter: string, a: bool, b: bool, c: bool, name: string) {
    name == Names.FilterName(t, r, 0) && filter != "" && CanFilter(s, t, r, a) && b && !c
  }

  lemma SubscribeLeavesOrphanIff(s: Registry, t: string, r: string, filter: string, a: bool, b: bool, c: bool, name: string)
    requires Inv(s)
    ensures Orphan(CreateSubscriber(s, t, r, filter, a, b, c).next, t, name)
            <==> Orphan(s, t, name) || SubscribeOrphans(s, t, r, filter, a, b, c, name)
  {
    var s', f := CreateSubscriber(s, t, r, filter, a, b, c).next, Names.FilterName(t, r, 0);
    SubscribeEvolves(s, t, r, filter, a, b, c, t);
    if filter != "" && CanFilter(s, t, r, a) && b && name == f {
      FilteredSubscribe(s, t, r, filter, a, c);
    } else {
      SubscribeKeepsFilter(s, t, r, filter, a, b, c, name);
      KeptFilterIsOrphanIff(s, s', t, "", name);
    }
  }

  lemma SubscribeKeepsFilter(s: Registry, t: string, r: string, filter: string, a: bool, b: bool, c: bool, name: string)
    requires Inv(s) && !(filter != "" && CanFilter(s, t, r, a) && b && name == Names.FilterName(t, r, 0))
    ensures SameFilter(s, CreateSubscriber(s, t, r, filter, a, b, c).next, t, name)
  {
    if r != "" && t in s.topics && s.topics[t].topic != NIL && r !in s.topics[t].readerListeners {
      var s1, f := EnsureSubscriber(s, t, a), Names.FilterName(t, r, 0);
      assert InvOf(s, t);
      EnsuredSubscriber(s, t, a);
      assert FiltersOf(s1, t) == FiltersOf(s, t);
      NewFilterOnly(s1, t, r, f, filter, b, s1.topics[t].topic, c, name);
      NewFilterOnly(AddFilter(s1, t, f, filter, b).0, t, r, f, filter, b, AddFilter(s1, t, f, filter, b).1, c, name);
      hide EnsureSubscriber, AddFilter, AddReader;
    }
  }

  lemma NewFilterOnly(s: Registry, t: string, r: string, f: string, filter: string, filterOk: bool, d: Handle, readerOk: bool, name: string)
    requires t in s.topics
    ensures FiltersOf(AddReader(s, t, r, d, readerOk).next, t) == FiltersOf(s, t)
    ensures var s2 := AddFilter(s, t, f, filter, filterOk).0;
            t in s2.topics && (name != f || !filterOk || s.dds.NameInUse(f) ==> SameFilter(s, s2, t, name))
  {
  }

  /** With its filtered topic made, createSubscriber leaves an orphan iff the reader is refused. */
  lemma FilteredSubscribe(s: Registry, t: string, r: string, filter: string, a: bool, c: bool)
    requires Inv(s) && filter != "" && CanFilter(s, t, r, a)
    ensures var name := Names.FilterName(t, r, 0);
            && !Orphan(s, t, name)
            && (Orphan(CreateSubscriber(s, t, r, filter, a, true, c).next, t, name) <==> !c)
  {
    var s1, name := EnsureSubscriber(s, t, a), Names.FilterName(t, r, 0);
    assert InvOf(s, t);
    EnsureSubscriberInv(s, t, a);
    EnsuredSubscriber(s, t, a);
    var (s2, h) := AddFilter(s1, t, name, filter, true);
    SubscribedIff(s1, t, r, name, filter, true, c);
    var e := Reader(s2.topics[t].subscriber, h, s2.nextListener, s2.topics[t].readerQos);
    NewFilterIsOrphanIff(s1, AddReader(s2, t, r, h, c).next, t, name, filter, e, c);
    assert Orphan(s, t, name) ==> s.dds.Named(s.topics[t].filteredTopics[name], name);
  }

  // ---- replaceFilter ----

  /** replaceFilter leaves this filtered topic unread: the old one, because the service refuses to
      delete it, or the new one, because the service then refuses the reader. */
  ghost predicate RefilterOrphans(s: Registry, t: string, r: string, filter: string, env: ReplaceEnv, name: string)
    requires Inv(s)
  {
    && Replaceable(s, t, r) && env.containedOk
    && var d := DescriptionOf(s, t, r);
       || (s.dds.entities[d].FilteredTopic? && name == s.dds.entities[d].name && !env.filterDeleteOk)
       || (filter != "" && name == NextFilterName(t, r, FilterNameOf(s.dds, d)) && env.filterOk && !env.readerOk
           && !NextNameTaken(s, t, r, env.filterDeleteOk))
  }

  lemma RefilterLeavesOrphanIff(s: Registry, t: string, r: string, filter: string, env: ReplaceEnv, name: string)
    requires Inv(s)
    ensures Orphan(ReplaceFilter(s, t, r, filter, env).next, t, name)
            <==> Orphan(s, t, name) || RefilterOrphans(s, t, r, filter, env, name)
  {
    hide ReplaceFilter, Rebuild, Orphan, NextFilterName;
    TwoHalves(s, t, r, filter, env);
    if Replaceable(s, t, r) && env.containedOk {
      var d := DescriptionOf(s, t, r);
      var drop := s.dds.entities[d].FilteredTopic? && env.filterDeleteOk;
      var s2 := TakenDown(s, t, r, s.topics[t].readers[r], d, drop);
      TakenDownOrphansIff(s, t, r, env.filterDeleteOk, name);
      TakenDownIsValid(s, t, r, env.filterDeleteOk);
      FirstHalfKeepsBase(s, t, r, drop);
      assert r != "" by {
        assert InvOf(s, t) && ReaderOk(t, s.topics[t], s.dds, r);
      }
      assert s2.topics[t].readers == s.topics[t].readers && s.topics[t].readers[r] !in s2.dds.entities;
      RebuildOrphansIff(s2, t, r, filter, NextFilterName(t, r, FilterNameOf(s.dds, d)), env, name);
    } else {
      StoppedEmitterOrphansIff(s, t, r, name);
    }
  }

  lemma StoppedEmitterOrphansIff(s: Registry, t: string, r: string, name: string)
    requires Inv(s)
    ensures t in s.topics ==> (Orphan(StopEmitter(s, t, r), t, name) <==> Orphan(s, t, name))
  {
  }

  /** The old filtered topic is an orphan once its reader is gone and it is not. */
  lemma TakenDownOrphansIff(s: Registry, t: string, r: string, filterDeleteOk: bool, name: string)
    requires Inv(s) && Replaceable(s, t, r)
    ensures var d := DescriptionOf(s, t, r);
            var filtered := s.dds.entities[d].FilteredTopic?;
            var s2 := TakenDown(s, t, r, s.topics[t].readers[r], d, filtered && filterDeleteOk);
            Orphan(s2, t, name) <==> Orphan(s, t, name) || (filtered && name == s.dds.entities[d].name && !filterDeleteOk)
  {
    var d := DescriptionOf(s, t, r);
    var filtered := s.dds.entities[d].FilteredTopic?;
    TakenDownEvolves(s, t, r, filtered && filterDeleteOk, t, r);
    if Orphan(s, t, name) {
      EvolutionKeepsOrphan(s, TakenDown(s, t, r, s.topics[t].readers[r], d, filtered && filterDeleteOk), t, r, name);
    } else if filtered && name == s.dds.entities[d].name {
      OwnFilterFreed(s, t, r, filterDeleteOk);
    } else if name in s.topics[t].filteredTopics {
      OtherFilterStaysRead(s, t, r, filtered && filterDeleteOk, name);
    }
  }

  lemma OwnFilterFreed(s: Registry, t: string, r: string, drop: bool)
    requires Inv(s) && Replaceable(s, t, r) && s.dds.entities[DescriptionOf(s, t, r)].FilteredTopic?
    ensures var d := DescriptionOf(s, t, r);
            Orphan(TakenDown(s, t, r, s.topics[t].readers[r], d, drop), t, s.dds.entities[d].name) <==> !drop
  {
    var h, d := s.topics[t].readers[r], DescriptionOf(s, t, r);
    var q := TakenDown(s, t, r, h, d, drop).dds;
    FilterHasOneReader(s, t, r);
    assert s.dds.entities[h].Reader? by {
      assert InvOf(s, t) && ReaderOk(t, s.topics[t], s.dds, r);
    }
    forall x | x in q.entities ensures !q.entities[x].RefersTo(d) {
      assert x in s.dds.entities && q.entities[x] == s.dds.entities[x];
    }
  }

  lemma OtherFilterStaysRead(s: Registry, t: string, r: string, drop: bool, name: string)
    requires Inv(s) && Replaceable(s, t, r) && name in s.topics[t].filteredTopics && !Orphan(s, t, name)
    requires var d := DescriptionOf(s, t, r); s.dds.entities[d].FilteredTopic? ==> name != s.dds.entities[d].name
    ensures !Orphan(TakenDown(s, t, r, s.topics[t].readers[r], DescriptionOf(s, t, r), drop), t, name)
  {
    var f, h, d := s.topics[t].filteredTopics[name], s.topics[t].readers[r], DescriptionOf(s, t, r);
    assert InvOf(s, t) && ReaderOk(t, s.topics[t], s.dds, r) && OwnsFilter(s.topics[t], f);
    assert s.dds.Referenced(f);
    var x :| x in s.dds.entities && s.dds.entities[x].RefersTo(f);
    assert s.dds.WellReferenced(s.dds.entities[x]) && s.dds.WellReferenced(s.dds.entities[h]);
    assert x != h && x != d;
    var q := TakenDown(s, t, r, h, d, drop).dds;
    assert q.entities[x].RefersTo(f);
  }

  /** Making the reader again leaves the new filtered topic unread iff the reader is refused. */
  lemma RebuildOrphansIff(s: Registry, t: string, r: string, filter: string, name: string, env: ReplaceEnv, n: string)
    requires Inv(s) && t in s.topics && r in s.topics[t].readerListeners && r in s.topics[t].readers
    requires r != "" && s.topics[t].readers[r] !in s.dds.entities
    requires s.topics[t].topic in s.dds.entities && s.dds.entities[s.topics[t].topic].Topic?
    requires s.topics[t].subscriber in s.dds.entities && s.dds.entities[s.topics[t].subscriber].Subscriber?
    ensures Orphan(Rebuild(s, t, r, filter, name, env).next, t, n)
            <==> Orphan(s, t, n) || (filter != "" && n == name && env.filterOk && !s.dds.NameInUse(name) && !env.readerOk)
  {
    var s' := Rebuild(s, t, r, filter, name, env).next;
    RebuildEvolves(s, t, r, filter, name, env, t);
    if filter != "" && n == name && env.filterOk && !s.dds.NameInUse(name) {
      FilteredRebuild(s, t, r, filter, name, env);
    } else {
      RebuildKeepsFilter(s, t, r, filter, name, env, n);
      KeptFilterIsOrphanIff(s, s', t, r, n);
    }
  }

  lemma RebuildKeepsFilter(s: Registry, t: string, r: string, filter: string, name: string, env: ReplaceEnv, n: string)
    requires Inv(s) && t in s.topics && r in s.topics[t].readerListeners
    requires !(filter != "" && n == name && env.filterOk && !s.dds.NameInUse(name))
    ensures SameFilter(s, Rebuild(s, t, r, filter, name, env).next, t, n)
  {
    var (s3, f) := if filter == "" then (s, s.topics[t].topic) else AddFilter(s, t, name, filter, env.filterOk);
    SecondHalf(s3, t, r, f, env);
    hide FinishReplace;
  }

  lemma FilteredRebuild(s: Registry, t: string, r: string, filter: string, name: string, env: ReplaceEnv)
    requires Inv(s) && t in s.topics && r in s.topics[t].readerListeners
    requires filter != "" && env.filterOk && !s.dds.NameInUse(name)
    requires s.topics[t].topic in s.dds.entities && s.dds.entities[s.topics[t].topic].Topic?
    requires s.topics[t].subscriber in s.dds.entities && s.dds.entities[s.topics[t].subscriber].Subscriber?
    ensures !Orphan(s, t, name) && (Orphan(Rebuild(s, t, r, filter, name, env).next, t, name) <==> !env.readerOk)
  {
    var (s3, h) := AddFilter(s, t, name, filter, true);
    SecondHalf(s3, t, r, h, env);
    var e := Reader(s3.topics[t].subscriber, h, s3.topics[t].readerListeners[r], s3.topics[t].readerQos);
    assert s3.dds.WellReferenced(e);
    NewFilterIsOrphanIff(s, FinishReplace(s3, t, r, h, env).next, t, name, filter, e, env.readerOk);
    assert Orphan(s, t, name) ==> s.dds.Named(s.topics[t].filteredTopics[name], name);
    hide FinishReplace;
  }

  // ---- whole runs ----

  /** This call leaves the filtered topic unread. */
  ghost predicate Orphans(s: Registry, op: Op, t: string, name: string)
    requires Inv(s)
  {
    match op
    case Subscribe(x, r, filter, a, b, c) => x == t && SubscribeOrphans(s, t, r, filter, a, b, c, name)
    case Refilter(x, r, filter, env) => x == t && RefilterOrphans(s, t, r, filter, env, name)
    case _ => false
  }

  /** A call leaves a topic's filtered topic unread iff it was unread already, or the call is a
      createSubscriber or a replaceFilter that fails at the reader, or a replaceFilter whose old
      filtered topic the service does not delete. */
  lemma ApplyOrphansIff(s: Registry, op: Op, t: string, name: string)
    requires Inv(s) && Enabled(s, op) && op != Unregister(t)
    ensures Orphan(Apply(s, op), t, name) <==> Orphan(s, t, name) || Orphans(s, op, t, name)
  {
    hide Inv, Orphan, SubscribeOrphans, RefilterOrphans, CreateSubscriber, ReplaceFilter;
    if op.Subscribe? && op.t == t {
      SubscribeLeavesOrphanIff(s, t, op.r, op.filter, op.subscriberOk, op.filterOk, op.readerOk, name);
    } else if op.Refilter? && op.t == t {
      RefilterLeavesOrphanIff(s, t, op.r, op.filter, op.env, name);
    } else {
      OthersKeepFilters(s, op, t);
      ApplyEvolves(s, op, t);
      KeptFilterIsOrphanIff(s, Apply(s, op), t, "", name);
    }
  }

  lemma OthersKeepFilters(s: Registry, op: Op, t: string)
    requires Enabled(s, op) && !((op.Subscribe? || op.Refilter? || op.Unregister?) && op.t == t)
    ensures FiltersOf(Apply(s, op), t) == FiltersOf(s, t)
  {
    if op.Listen? && op.t == t {
    } else {
      ApplyKeepsRecords(s, op, t);
      hide Apply;
    }
  }

  /** Whether the filtered topic is an orphan after a run, from whether it was one before. */
  ghost predicate OrphanAfter(s: Registry, ops: seq<Op>, t: string, name: string, before: bool)
    requires Inv(s) && Legal(s, ops)
    decreases |ops|
  {
    if ops == [] then before
    else
      ApplyInv(s, ops[0]);
      OrphanAfter(Apply(s, ops[0]), ops[1..], t, name, OrphanNext(s, ops[0], t, name, before))
  }

  ghost predicate OrphanNext(s: Registry, op: Op, t: string, name: string, before: bool)
    requires Inv(s)
  {
    op != Unregister(t) && (before || Orphans(s, op, t, name))
  }

  /** After any run a filtered topic is recorded and unread iff it was so before or some call left it
      so, and the topic has not been unregistered since. */
  lemma {:induction false} RunOrphansIff(s: Registry, ops: seq<Op>, t: string, name: string)
    requires Inv(s) && Legal(s, ops)
    ensures Orphan(Run(s, ops), t, name) <==> OrphanAfter(s, ops, t, name, Orphan(s, t, name))
    decreases |ops|
  {
    if ops == [] {
    } else {
      hide Inv, Orphan, Enabled, Apply, Orphans;
      ApplyInv(s, ops[0]);
      if ops[0] == Unregister(t) {
        UnregisterForgets(s, t, name);
      } else {
        ApplyOrphansIff(s, ops[0], t, name);
      }
      RunOrphansIff(Apply(s, ops[0]), ops[1..], t, name);
    }
  }

  lemma UnregisterForgets(s: Registry, t: string, name: string)
    requires Enabled(s, Unregister(t))
    ensures !Orphan(Apply(s, Unregister(t)), t, name)
  {
    hide Teardown;
  }

  /** An orphaned filtered topic stays one through every run that does not unregister its topic. */
  lemma {:induction false} OrphanForever(s: Registry, ops: seq<Op>, t: string, name: string)
    requires Inv(s) && Legal(s, ops) && Orphan(s, t, name) && Unregister(t) !in ops
    ensures Orphan(Run(s, ops), t, name)
    decreases |ops|
  {
    hide Inv, Orphan, Evolves, Enabled, Apply;
    if ops == [] {
    } else {
      ApplyEvolves(s, ops[0], t);
      EvolutionKeepsOrphan(s, Apply(s, ops[0]), t, FreeReader(ops[0], t), name);
      ApplyInv(s, ops[0]);
      OrphanForever(Apply(s, ops[0]), ops[1..], t, name);
    }
  }

  /** After a createSubscriber refused at the reader, no later one can filter this reader until
      the topic is unregistered, whatever the service does. */
  lemma {:induction false} FailedSubscribeBlocksName(s: Registry, t: string, r: string, filter: string, a: bool,
                                                     ops: seq<Op>, filter': string, a': bool, b': bool, c': bool)
    requires Inv(s) && filter != "" && CreateSubscriber(s, t, r, filter, a, true, true).result
    requires Legal(CreateSubscriber(s, t, r, filter, a, true, false).next, ops) && Unregister(t) !in ops && filter' != ""
    ensures var s' := Run(CreateSubscriber(s, t, r, filter, a, true, false).next, ops);
            !CreateSubscriber(s', t, r, filter', a', b', c').result
  {
    var s1, name := CreateSubscriber(s, t, r, filter, a, true, false).next, Names.FilterName(t, r, 0);
    CreateSubscriberInv(s, t, r, filter, a, true, false);
    CreateSubscriberSucceedsIff(s, t, r, filter, a, true, true);
    FilteredSubscribe(s, t, r, filter, a, false);
    OrphanForever(s1, ops, t, name);
    RunInv(s1, ops);
    var s' := Run(s1, ops);
    assert s'.dds.Named(s'.topics[t].filteredTopics[name], name);
    CreateSubscriberSucceedsIff(s', t, r, filter', a', b', c');
  }
}
