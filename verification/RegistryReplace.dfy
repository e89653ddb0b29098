/**
  replaceFilter and createSubscriber seen from outside: when they succeed, what
  they leave behind, and which failures can never be repaired.
*/
module RegistryReplace {
  import opened Dds
  import opened Emitters
  import opened RegistrySpec
  import opened RegistryInvariant
  import opened RegistrySteps
  import opened RegistryTeardown
  import opened RegistryOperations
  import opened RegistryRuns
  import Names

  // ---- the two halves of replaceFilter ----

  /** The recorded reader can be deleted. */
  ghost predicate Replaceable(s: Registry, t: string, r: string) {
    && t in s.topics && r in s.topics[t].readers
    && s.topics[t].readers[r] in s.dds.entities && s.topics[t].readers[r] !in s.dds.loans
  }

  /** Where the reader reads from. */
  ghost function DescriptionOf(s: Registry, t: string, r: string): (d: Handle)
    requires Inv(s) && Replaceable(s, t, r)
    ensures d in s.dds.entities && s.dds.entities[d].IsDescription() && DescriptionOk(t, s.topics[t], r, d)
  {
    assert InvOf(s, t) && ReaderOk(t, s.topics[t], s.dds, r);
    assert s.dds.WellReferenced(s.dds.entities[s.topics[t].readers[r]]);
    s.dds.entities[s.topics[t].readers[r]].description
  }

  lemma ReaderDeleteSucceedsIff(s: Registry, t: string, r: string)
    requires Inv(s) && t in s.topics && r in s.topics[t].readers
    ensures s.dds.DeleteReader(s.topics[t].subscriber, s.topics[t].readers[r]).1 == RETCODE_OK <==> Replaceable(s, t, r)
  {
    var h := s.topics[t].readers[r];
    assert InvOf(s, t) && ReaderOk(t, s.topics[t], s.dds, r);
    if h in s.dds.entities {
      forall x | x in s.dds.entities ensures !s.dds.entities[x].RefersTo(h) {
        assert s.dds.WellReferenced(s.dds.entities[x]);
      }
    }
  }

  /** The state between the halves: the emitter stopped, the reader h gone, and so
      is the filtered topic d it read from, if drop says so. */
  function TakenDown(s: Registry, t: string, r: string, h: Handle, d: Handle, drop: bool): Registry
    requires t in s.topics && d in s.dds.entities && s.dds.entities[d].IsDescription()
  {
    var s1 := StopEmitter(s, t, r);
    if drop then
      Put(s1.(dds := Remove(s.dds, {h, d})), t,
          s1.topics[t].(filteredTopics := s.topics[t].filteredTopics - {s.dds.entities[d].name}))
    else s1.(dds := Remove(s.dds, {h}))
  }

  /** A reader's filtered topic is recorded under its own name and nobody else reads from it. */
  lemma FilterHasOneReader(s: Registry, t: string, r: string)
    requires Inv(s) && Replaceable(s, t, r) && s.dds.entities[DescriptionOf(s, t, r)].FilteredTopic?
    ensures var d := DescriptionOf(s, t, r);
            var name := s.dds.entities[d].name;
            && name != ""
            && name in s.topics[t].filteredTopics && s.topics[t].filteredTopics[name] == d
            && (forall n :: n in s.topics[t].filteredTopics && s.topics[t].filteredTopics[n] == d ==> n == name)
            && (forall x :: x in s.dds.entities && s.dds.entities[x].RefersTo(d) ==> x == s.topics[t].readers[r])
            && (exists k: nat :: name == Names.FilterName(t, r, k))
  {
    var p, g, d := s.dds, s.topics[t], DescriptionOf(s, t, r);
    assert InvOf(s, t);
    var k :| IsOwnFilterAt(t, g, r, d, k);
    assert p.entities[d].name == Names.FilterName(t, r, k);
    assert OwnsFilter(g, d);
    forall x | x in p.entities && p.entities[x].RefersTo(d) ensures x == g.readers[r] {
      ReferrerIsOwned(s, t, d, x);
      OwnedKind(t, g, p, s.listeners, s.rlHandler, s.wlHandler, x);
      assert p.WellReferenced(p.entities[x]);
      var r' :| r' in g.readers && g.readers[r'] == x;
      assert ReaderOk(t, g, p, r');
      var k' :| IsOwnFilterAt(t, g, r', d, k');
      Names.FilterNameInjective(t, r, k, r', k');
    }
  }

  lemma FirstHalf(s: Registry, t: string, r: string, filterDeleteOk: bool)
    requires Inv(s) && Replaceable(s, t, r)
    ensures var h, d := s.topics[t].readers[r], DescriptionOf(s, t, r);
            var s1 := StopEmitter(s, t, r);
            var (p, rc) := s1.dds.DeleteReader(s1.topics[t].subscriber, h);
            && rc == RETCODE_OK
            && DropFilter(s1.(dds := p), t, d, filterDeleteOk)
               == TakenDown(s, t, r, h, d, s.dds.entities[d].FilteredTopic? && filterDeleteOk)
  {
    var s1 := StopEmitter(s, t, r);
    var h, d := s.topics[t].readers[r], DescriptionOf(s, t, r);
    var p := s1.dds.DeleteReader(s1.topics[t].subscriber, h).0;
    assert p == Remove(s.dds, {h}) by {
      ReaderDeleteSucceedsIff(s, t, r);
    }
    if s.dds.entities[d].FilteredTopic? {
      FilterHasOneReader(s, t, r);
      assert s.dds.entities[h].Reader? by {
        assert InvOf(s, t) && ReaderOk(t, s.topics[t], s.dds, r);
      }
      DropOwnFilter(s1.(dds := p), t, d, filterDeleteOk);
      assert p.entities - {d} == Remove(s.dds, {h, d}).entities;
    } else {
      assert InvOf(s, t);
      assert forall n :: n in s.topics[t].filteredTopics ==> s.topics[t].filteredTopics[n] != d;
    }
  }

  /** Dropping a filtered topic nobody reads from removes it and its one record. */
  lemma DropOwnFilter(s: Registry, t: string, d: Handle, accept: bool)
    requires t in s.topics && d in s.dds.entities && s.dds.entities[d].FilteredTopic? && d !in s.dds.loans
    requires var name := s.dds.entities[d].name;
             && name in s.topics[t].filteredTopics && s.topics[t].filteredTopics[name] == d
             && (forall n :: n in s.topics[t].filteredTopics && s.topics[t].filteredTopics[n] == d ==> n == name)
    requires forall x :: x in s.dds.entities ==> !s.dds.entities[x].RefersTo(d)
    ensures var g, name := s.topics[t], s.dds.entities[d].name;
            DropFilter(s, t, d, accept) ==
              if accept
              then Put(s.(dds := s.dds.(entities := s.dds.entities - {d})), t,
                       g.(filteredTopics := g.filteredTopics - {name}))
              else s
  {
    var g, name := s.topics[t], s.dds.entities[d].name;
    assert (set n | n in g.filteredTopics && g.filteredTopics[n] == d) == {name};
  }

  /** Creating the reader again: when it works, and what the group then holds. */
  lemma SecondHalf(s: Registry, t: string, r: string, d: Handle, env: ReplaceEnv)
    requires t in s.topics && r in s.topics[t].readerListeners && 0 < s.dds.next
    ensures var g := s.topics[t];
            var e := Reader(g.subscriber, d, g.readerListeners[r], g.readerQos);
            var step := FinishReplace(s, t, r, d, env);
            && (step.result <==> env.readerOk && s.dds.WellReferenced(e))
            && (step.result ==>
                  && step.next.dds == s.dds.Add(e)
                  && t in step.next.topics
                  && step.next.topics[t].readers == g.readers[r := s.dds.next]
                  && step.next.topics[t].filteredTopics == g.filteredTopics
                  && step.next.topics[t].readerListeners == g.readerListeners
                  && (r in g.emitters ==>
                        var em := step.next.topics[t].emitters; r in em && em[r].running && em[r].reader == s.dds.next))
            && (!step.result ==> step.next == s)
  {
  }

  /** The name replaceFilter will ask for is taken once the old filter is gone (or not). */
  ghost predicate NextNameTaken(s: Registry, t: string, r: string, filterDeleteOk: bool)
    requires Inv(s) && Replaceable(s, t, r)
  {
    var h, d := s.topics[t].readers[r], DescriptionOf(s, t, r);
    var drop := s.dds.entities[d].FilteredTopic? && filterDeleteOk;
    TakenDown(s, t, r, h, d, drop).dds.NameInUse(NextFilterName(t, r, FilterNameOf(s.dds, d)))
  }

  /** With topic and subscriber alive, the rebuild fails only where the service does. */
  lemma RebuildSucceedsIff(s: Registry, t: string, r: string, filter: string, name: string, env: ReplaceEnv)
    requires t in s.topics && r in s.topics[t].readerListeners
    requires var g, p := s.topics[t], s.dds;
             && 0 < p.next && (forall h :: h in p.entities ==> h < p.next)
             && g.topic in p.entities && p.entities[g.topic].Topic?
             && g.subscriber in p.entities && p.entities[g.subscriber].Subscriber?
    ensures Rebuild(s, t, r, filter, name, env).result <==>
              env.readerOk && (filter != "" ==> env.filterOk && !s.dds.NameInUse(name))
  {
    SecondHalf(s, t, r, s.topics[t].topic, env);
    var (s3, f) := AddFilter(s, t, name, filter, env.filterOk);
    if f != NIL {
      SecondHalf(s3, t, r, f, env);
    }
  }

  /** What the rebuild needs is still there after the first half. */
  lemma FirstHalfKeepsBase(s: Registry, t: string, r: string, drop: bool)
    requires Inv(s) && Replaceable(s, t, r)
    requires drop ==> s.dds.entities[DescriptionOf(s, t, r)].FilteredTopic?
    ensures var s2 := TakenDown(s, t, r, s.topics[t].readers[r], DescriptionOf(s, t, r), drop);
            var g, p := s2.topics[t], s2.dds;
            && t in s2.topics && r in g.readerListeners && r in g.readers && g.topic == s.topics[t].topic
            && 0 < p.next && (forall h :: h in p.entities ==> h < p.next)
            && g.topic in p.entities && p.entities[g.topic].Topic?
            && g.subscriber in p.entities && p.entities[g.subscriber].Subscriber?
  {
    assert InvOf(s, t) && ReaderOk(t, s.topics[t], s.dds, r);
  }

  /** replaceFilter is the first half followed by the rebuild. */
  lemma TwoHalves(s: Registry, t: string, r: string, filter: string, env: ReplaceEnv)
    requires Inv(s)
    ensures Replaceable(s, t, r) && env.containedOk ==>
              var d := DescriptionOf(s, t, r);
              var drop := s.dds.entities[d].FilteredTopic? && env.filterDeleteOk;
              var s2 := TakenDown(s, t, r, s.topics[t].readers[r], d, drop);
              && t in s2.topics && r in s2.topics[t].readerListeners
              && ReplaceFilter(s, t, r, filter, env)
                 == Rebuild(s2, t, r, filter, NextFilterName(t, r, FilterNameOf(s.dds, d)), env)
    ensures !(Replaceable(s, t, r) && env.containedOk) ==>
              !ReplaceFilter(s, t, r, filter, env).result
              && ReplaceFilter(s, t, r, filter, env).next
                 == if t in s.topics && GetReader(s, t, r) != NIL then StopEmitter(s, t, r) else s
  {
    if t in s.topics && r in s.topics[t].readers {
      assert InvOf(s, t) && ReaderOk(t, s.topics[t], s.dds, r);
      ReaderDeleteSucceedsIff(s, t, r);
      if Replaceable(s, t, r) {
        FirstHalf(s, t, r, env.filterDeleteOk);
      }
    }
  }

  /** replaceFilter succeeds iff the reader can be deleted, the service creates what
      it is asked for, and the next filter name is free. */
  lemma ReplaceFilterSucceedsIff(s: Registry, t: string, r: string, filter: string, env: ReplaceEnv)
    requires Inv(s)
    ensures ReplaceFilter(s, t, r, filter, env).result <==>
              && Replaceable(s, t, r) && env.containedOk && env.readerOk
              && (filter != "" ==> env.filterOk && !NextNameTaken(s, t, r, env.filterDeleteOk))
  {
    TwoHalves(s, t, r, filter, env);
    if Replaceable(s, t, r) {
      var d := DescriptionOf(s, t, r);
      var drop := s.dds.entities[d].FilteredTopic? && env.filterDeleteOk;
      FirstHalfKeepsBase(s, t, r, drop);
      RebuildSucceedsIff(TakenDown(s, t, r, s.topics[t].readers[r], d, drop), t, r, filter,
                         NextFilterName(t, r, FilterNameOf(s.dds, d)), env);
    }
  }

  /** What a successful replaceFilter leaves: a new reader with the old listener,
      reading from the topic or from the next filtered topic, and the emitter on it. */
  lemma {:induction false} ReplaceFilterDelivers(s: Registry, t: string, r: string, filter: string, env: ReplaceEnv)
    requires Inv(s) && ReplaceFilter(s, t, r, filter, env).result
    ensures Replaceable(s, t, r)
    ensures var h, d, s' := s.topics[t].readers[r], DescriptionOf(s, t, r), ReplaceFilter(s, t, r, filter, env).next;
            && t in s'.topics && r in s'.topics[t].readers
            && var g', h' := s'.topics[t], s'.topics[t].readers[r];
            && h !in s'.dds.entities && h' !in s.dds.entities && h' in s'.dds.entities
            && s'.dds.entities[h'].Reader?
            && s'.dds.entities[h'].listener == s.dds.entities[h].listener
            && s'.dds.entities[h'].readerQos == s.topics[t].readerQos
            && var d' := s'.dds.entities[h'].description;
            && (filter == "" ==> d' == s.topics[t].topic)
            && (filter != "" ==>
                  d' in s'.dds.entities
                  && s'.dds.entities[d'] == FilteredTopic(NextFilterName(t, r, FilterNameOf(s.dds, d)), s.topics[t].topic, filter))
            && (r in s.topics[t].emitters ==>
                  r in g'.emitters && g'.emitters[r].running && g'.emitters[r].reader == h')
  {
    TwoHalves(s, t, r, filter, env);
    var g, p, d := s.topics[t], s.dds, DescriptionOf(s, t, r);
    var drop := p.entities[d].FilteredTopic? && env.filterDeleteOk;
    assert p.entities[g.readers[r]].listener == g.readerListeners[r] && g.readers[r] < p.next by {
      assert InvOf(s, t) && ReaderOk(t, g, p, r);
    }
    FirstHalfKeepsBase(s, t, r, drop);
    RebuildDelivers(TakenDown(s, t, r, g.readers[r], d, drop), t, r, filter, NextFilterName(t, r, FilterNameOf(p, d)), env);
  }

  lemma RebuildDelivers(s: Registry, t: string, r: string, filter: string, name: string, env: ReplaceEnv)
    requires t in s.topics && r in s.topics[t].readerListeners && 0 < s.dds.next
    requires forall h :: h in s.dds.entities ==> h < s.dds.next
    requires Rebuild(s, t, r, filter, name, env).result
    ensures var s', g := Rebuild(s, t, r, filter, name, env).next, s.topics[t];
            && t in s'.topics && r in s'.topics[t].readers
            && var g', h' := s'.topics[t], s'.topics[t].readers[r];
            && s.dds.next <= h' && h' in s'.dds.entities
            && (forall h :: h in s'.dds.entities ==> h in s.dds.entities || s.dds.next <= h)
            && s'.dds.entities[h'].Reader?
            && var d' := s'.dds.entities[h'].description;
            && s'.dds.entities[h'] == Reader(g.subscriber, d', g.readerListeners[r], g.readerQos)
            && (filter == "" ==> d' == g.topic)
            && (filter != "" ==> d' in s'.dds.entities && s'.dds.entities[d'] == FilteredTopic(name, g.topic, filter))
            && (r in g.emitters ==> r in g'.emitters && g'.emitters[r].running && g'.emitters[r].reader == h')
  {
    var (s3, f) := if filter == "" then (s, s.topics[t].topic) else AddFilter(s, t, name, filter, env.filterOk);
    SecondHalf(s3, t, r, f, env);
  }

  /** One filtered replacement after another: the counter in the name goes up by one. */
  lemma FilterCounterIncreases(t: string, r: string, k: nat)
    ensures NextFilterName(t, r, Names.FilterName(t, r, k)) == Names.FilterName(t, r, k + 1)
    ensures Names.FilterCounter(NextFilterName(t, r, Names.FilterName(t, r, k))) == k + 1
  {
    Names.FilterCounterInvertsName(t, r, k);
    Names.FilterCounterInvertsName(t, r, k + 1);
    assert Names.FilterName(t, r, k) != "";
  }

  // ---- stale readers ----

  /** The group has reader r on record, but the reader is gone. */
  ghost predicate Stale(s: Registry, t: string, r: string) {
    t in s.topics && r in s.topics[t].readers && s.topics[t].readers[r] !in s.dds.entities
  }

  /** replaceFilter leaves a stale reader behind iff the old reader can be deleted and then the
      service refuses the reader or the filtered topic, or the filter's next name is taken. */
  lemma ReplaceFilterGoesStaleIff(s: Registry, t: string, r: string, filter: string, env: ReplaceEnv)
    requires Inv(s) && t in s.topics && r in s.topics[t].readers && !Stale(s, t, r)
    ensures Stale(ReplaceFilter(s, t, r, filter, env).next, t, r) <==>
              && Replaceable(s, t, r) && env.containedOk
              && (!env.readerOk || (filter != "" && (!env.filterOk || NextNameTaken(s, t, r, env.filterDeleteOk))))
  {
    ReplaceFilterSucceedsIff(s, t, r, filter, env);
    TwoHalves(s, t, r, filter, env);
    if Replaceable(s, t, r) && env.containedOk {
      var d := DescriptionOf(s, t, r);
      var drop := s.dds.entities[d].FilteredTopic? && env.filterDeleteOk;
      FirstHalfKeepsBase(s, t, r, drop);
      assert s.topics[t].readers[r] < s.dds.next;
      RebuildStaleIff(TakenDown(s, t, r, s.topics[t].readers[r], d, drop), t, r, filter,
                      NextFilterName(t, r, FilterNameOf(s.dds, d)), env);
    }
  }

  lemma RebuildStaleIff(s: Registry, t: string, r: string, filter: string, name: string, env: ReplaceEnv)
    requires t in s.topics && r in s.topics[t].readerListeners && r in s.topics[t].readers && 0 < s.dds.next
    requires s.topics[t].readers[r] !in s.dds.entities && s.topics[t].readers[r] < s.dds.next
    ensures Stale(Rebuild(s, t, r, filter, name, env).next, t, r) <==> !Rebuild(s, t, r, filter, name, env).result
  {
    var (s3, f) := if filter == "" then (s, s.topics[t].topic) else AddFilter(s, t, name, filter, env.filterOk);
    SecondHalf(s3, t, r, f, env);
  }

  /** Nothing repairs a stale reader: neither operation that could make a reader of
      that name succeeds, and both leave it stale. */
  lemma StaleCannotBeRepaired(s: Registry, t: string, r: string, filter: string, env: ReplaceEnv, a: bool, b: bool, c: bool)
    requires Inv(s) && Stale(s, t, r)
    ensures var step := ReplaceFilter(s, t, r, filter, env);
            !step.result && step.next.dds == s.dds && Stale(step.next, t, r)
    ensures var step := CreateSubscriber(s, t, r, filter, a, b, c);
            !step.result && step.next == s
  {
    assert InvOf(s, t);
    ReaderDeleteSucceedsIff(s, t, r);
  }

  // ---- where a reader reads from ----

  /** The reader is live and reads from its k-th filtered topic. */
  ghost predicate ReadsFilter(s: Registry, t: string, r: string, k: nat) {
    && t in s.topics && r in s.topics[t].readers && s.topics[t].readers[r] in s.dds.entities
    && s.dds.entities[s.topics[t].readers[r]].Reader?
    && var d := s.dds.entities[s.topics[t].readers[r]].description;
    && d in s.dds.entities && IsFilter(s.dds.entities[d], Names.FilterName(t, r, k), s.topics[t].topic)
  }

  lemma ReplaceKeepsTopic(s: Registry, t: string, r: string, filter: string, env: ReplaceEnv)
    requires Inv(s) && ReplaceFilter(s, t, r, filter, env).result && Replaceable(s, t, r)
    ensures var s' := ReplaceFilter(s, t, r, filter, env).next; t in s'.topics && s'.topics[t].topic == s.topics[t].topic
  {
    TwoHalves(s, t, r, filter, env);
    var d := DescriptionOf(s, t, r);
    var drop := s.dds.entities[d].FilteredTopic? && env.filterDeleteOk;
    FirstHalfKeepsBase(s, t, r, drop);
    RebuildKeepsTopic(TakenDown(s, t, r, s.topics[t].readers[r], d, drop), t, r, filter,
                      NextFilterName(t, r, FilterNameOf(s.dds, d)), env);
  }

  lemma RebuildKeepsTopic(s: Registry, t: string, r: string, filter: string, name: string, env: ReplaceEnv)
    requires t in s.topics && r in s.topics[t].readerListeners
    ensures var s' := Rebuild(s, t, r, filter, name, env).next; t in s'.topics && s'.topics[t].topic == s.topics[t].topic
  {
    var s3 := if filter == "" then s else AddFilter(s, t, name, filter, env.filterOk).0;
    FinishKeepsTopic(s3, t, r, if filter == "" then s.topics[t].topic else AddFilter(s, t, name, filter, env.filterOk).1, env);
  }

  lemma FinishKeepsTopic(s: Registry, t: string, r: string, d: Handle, env: ReplaceEnv)
    requires t in s.topics && r in s.topics[t].readerListeners
    ensures var s' := FinishReplace(s, t, r, d, env).next; t in s'.topics && s'.topics[t].topic == s.topics[t].topic
  {
  }
}
