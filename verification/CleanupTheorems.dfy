/**
  What every schedule of a clean-up comes to.
*/
module CleanupTheorems {
  import opened Collections
  import opened RegistrySpec
  import opened RegistryInvariant
  import opened RegistryTheorems
  import opened RegistryCleanup

  /** In every schedule no group is destroyed twice, and the registry is at every
      moment what atomic unregister calls, in the order of destruction, would have
      left, apart from the groups erased and not yet destroyed. */
  lemma EveryScheduleIsSerializable(s: Registry, es: seq<Event>)
    requires Legal(Start(s), es)
    ensures var c := Run(Start(s), es);
            && NoDuplicates(c.torn) && (forall t :: t in c.torn ==> t in s.topics)
            && c.registry == UnregisterAll(s, c.torn).(topics := c.registry.topics)
  {
    StartIsGood(s);
    RunIsGood(Start(s), s, es);
  }

  /** Once the main thread is done and every caller has returned, each group has been
      destroyed exactly once and the participant is empty. */
  lemma CleanupEmptiesEverything(s: Registry, es: seq<Event>)
    requires Inv(s) && s.dds.loans == {} && Legal(Start(s), es)
    requires var c := Run(Start(s), es);
             c.main.Finished? && forall x :: x in c.callers ==> x.phase.Done?
    ensures var c := Run(Start(s), es);
            && NoDuplicates(c.torn) && (forall t :: t in c.torn <==> t in s.topics)
            && c.registry.topics == map[] && c.registry.dds.entities == map[]
            && c.registry == UnregisterAll(s, c.torn)
  {
    StartIsGood(s);
    RunIsGood(Start(s), s, es);
    var c := Run(Start(s), es);
    hide Run, Legal, UnregisterAll;
    forall t | t in s.topics ensures t in c.torn {
      var i :| Won(c.callers, i, t);
      assert c.callers[i] in c.callers && CallerOk(c.registry.topics, c.torn, s, c.callers[i]);
    }
    UnregisterAllEmptiesParticipant(s, c.torn);
  }

  /** m_topics is empty when the main thread returns, without its final clear(), and
      the call reports true iff no other caller took one of its topics away. */
  lemma CleanupResultIff(s: Registry, es: seq<Event>)
    requires Legal(Start(s), es) && Run(Start(s), es).main.Finished?
    ensures var c := Run(Start(s), es); var first, tasks := c.main.first, c.main.tasks;
            && c.registry.topics == map[]
            && first + |tasks| <= |c.callers|
            && (c.main.result <==> forall i :: first <= i < first + |tasks| ==> c.callers[i].Found())
            && (c.main.result <==> NoneTakenBy(c.callers, first, tasks))
  {
    StartIsGood(s);
    RunIsGood(Start(s), s, es);
    var c := Run(Start(s), es);
    FinishedResultIff(c, s);
  }

  /** Every caller that found one of the topics is a task. */
  ghost predicate NoneTakenBy(callers: seq<Caller>, first: nat, tasks: seq<string>) {
    forall i :: 0 <= i < |callers| && callers[i].Found() && callers[i].topic in tasks ==> first <= i < first + |tasks|
  }

  lemma FinishedResultIff(c: System, s: Registry)
    requires Good(c, s) && c.main.Finished?
    ensures var first, tasks := c.main.first, c.main.tasks;
            && first + |tasks| <= |c.callers|
            && (c.main.result <==> forall i :: first <= i < first + |tasks| ==> c.callers[i].Found())
            && (c.main.result <==> NoneTakenBy(c.callers, first, tasks))
  {
    hide NoneTakenBy, TornOk;
    var first, tasks := c.main.first, c.main.tasks;
    if c.main.result {
      TasksWonAll(c.callers, first, tasks);
    } else {
      var i :| first <= i < first + |tasks| && c.callers[i].phase != Done(true);
      LoserHasOutsideWinner(c, s, i);
    }
  }

  lemma TasksWonAll(callers: seq<Caller>, first: nat, tasks: seq<string>)
    requires OneWinner(callers) && first + |tasks| <= |callers|
    requires forall i :: first <= i < first + |tasks| ==> callers[i].topic == tasks[i - first]
    requires forall i :: first <= i < first + |tasks| ==> callers[i].phase == Done(true)
    ensures NoneTakenBy(callers, first, tasks)
  {
    forall i | 0 <= i < |callers| && callers[i].Found() && callers[i].topic in tasks ensures first <= i < first + |tasks| {
      var k :| 0 <= k < |tasks| && tasks[k] == callers[i].topic;
      assert callers[first + k].topic == callers[i].topic && callers[first + k].Found();
    }
  }

  lemma LoserHasOutsideWinner(c: System, s: Registry, i: nat)
    requires Good(c, s) && c.main.Finished? && c.main.first <= i < c.main.first + |c.main.tasks|
    requires c.callers[i].phase != Done(true)
    ensures !c.callers[i].Found() && !NoneTakenBy(c.callers, c.main.first, c.main.tasks)
  {
    var t := c.callers[i].topic;
    assert t in c.main.tasks && HasWinner(c.callers, t);
    var j :| Won(c.callers, j, t);
    assert i != j;
  }

  // ---- progress ----

  ghost function Pending(callers: seq<Caller>): nat {
    if callers == [] then 0
    else
      Pending(callers[..|callers| - 1]) +
      match callers[|callers| - 1].phase
      case Ready => 2
      case Holding(_) => 1
      case Done(_) => 0
  }

  /** Steps still to be made by the main thread and by the callers there are. */
  ghost function Work(c: System): nat {
    Pending(c.callers) + match c.main
                         case NotStarted => 3 * |c.registry.topics| + 2
                         case Waiting(_, tasks, collected, _) => (if collected <= |tasks| then |tasks| - collected else 0) + 1
                         case Finished(_, _, _) => 0
  }

  lemma {:induction false} PendingUpdate(callers: seq<Caller>, i: nat, x: Caller)
    requires i < |callers|
    ensures Pending(callers[i := x]) == Pending(callers) - Pending([callers[i]]) + Pending([x])
    decreases |callers|
  {
    var n := |callers| - 1;
    assert [callers[i]][..0] == [] && [x][..0] == [];
    if i < n {
      PendingUpdate(callers[..n], i, x);
      assert callers[i := x][..n] == callers[..n][i := x];
    } else {
      assert callers[i := x][..n] == callers[..n];
    }
  }

  lemma {:induction false} PendingReady(callers: seq<Caller>, order: seq<string>)
    ensures Pending(callers + ReadyCallers(order)) == Pending(callers) + 2 * |order|
    decreases |order|
  {
    var n := |order| - 1;
    if order == [] {
      assert callers + ReadyCallers(order) == callers;
    } else {
      PendingReady(callers, order[..n]);
      var all := callers + ReadyCallers(order);
      assert all[..|all| - 1] == callers + ReadyCallers(order[..n]);
      assert all[|all| - 1].phase == Ready;
    }
  }

  lemma {:induction false} DistinctIsNoLonger(order: seq<string>, keys: set<string>)
    requires NoDuplicates(order) && forall t :: t in order ==> t in keys
    ensures |order| <= |keys|
    decreases |order|
  {
    if order == [] {
    } else {
      var n := |order| - 1;
      DistinctIsNoLonger(order[..n], keys - {order[n]});
    }
  }

  /** No deadlock: until the main thread is done, a step other than a new arrival is
      possible once it has started; and every such step leaves less to do. */
  lemma CleanupMakesProgress(c: System, s: Registry)
    requires Good(c, s)
    ensures c.main.Waiting? ==> exists e: Event :: !e.Arrive? && Enabled(c, e)
    ensures forall e: Event :: !e.Arrive? && Enabled(c, e) ==> Work(Apply(c, e)) < Work(c)
  {
    if c.main.Waiting? {
      var k := c.main.first + c.main.collected;
      if c.main.collected == |c.main.tasks| {
        assert Enabled(c, Clear);
      } else if c.callers[k].phase.Done? {
        assert Enabled(c, Collect);
      } else {
        assert Enabled(c, Advance(k));
      }
    }
    forall e: Event | !e.Arrive? && Enabled(c, e) ensures Work(Apply(c, e)) < Work(c) {
      match e
      case Launch(order) =>
        DistinctIsNoLonger(order, c.registry.topics.Keys);
        PendingReady(c.callers, order);
      case Advance(i) => AdvanceLeavesLess(c, i);
      case _ =>
    }
  }

  lemma AdvanceLeavesLess(c: System, i: nat)
    requires Enabled(c, Advance(i))
    ensures Work(Apply(c, Advance(i))) < Work(c)
  {
    var c' := Apply(c, Advance(i));
    PendingUpdate(c.callers, i, c'.callers[i]);
    assert [c.callers[i]][..0] == [] && [c'.callers[i]][..0] == [];
    assert c'.registry.topics.Keys <= c.registry.topics.Keys;
    FewerTopics(c'.registry.topics, c.registry.topics);
  }

  lemma FewerTopics(a: map<string, Group>, b: map<string, Group>)
    requires a.Keys <= b.Keys
    ensures |a| <= |b|
  {
    assert |a| == |a.Keys| && |b| == |b.Keys|;
    SubsetIsNoLarger(a.Keys, b.Keys);
  }
}
