/**
  Cleaning up a manager: one unregister task per topic, other threads calling
  unregisterTopic at any time, and the main thread waiting for its tasks. A task
  finds and erases its group under the lock and destroys it after releasing it.
  Every schedule is covered; no topic is registered meanwhile.
*/
module RegistryCleanup {
  import opened Collections
  import opened RegistrySpec
  import opened RegistryInvariant
  import opened RegistryTheorems

  /** Holding is the saved pointer between the erase and the destruction. */
  datatype Phase = Ready | Holding(group: Group) | Done(result: bool)

  datatype Caller = Caller(topic: string, phase: Phase)
  {
    predicate Found() {
      phase.Holding? || phase == Done(true)
    }
  }

  /** The tasks are the callers from index first on, in the order of tasks. */
  datatype MainThread =
    | NotStarted
    | Waiting(first: nat, tasks: seq<string>, collected: nat, allClear: bool)
    | Finished(first: nat, tasks: seq<string>, result: bool)

  /** torn lists the topics of the destroyed groups, in the order of destruction. */
  datatype System = System(registry: Registry, callers: seq<Caller>, torn: seq<string>, main: MainThread)

  datatype Event =
    | Arrive(topic: string)
    | Launch(order: seq<string>)
    | Advance(i: nat)
    | Collect
    | Clear

  ghost predicate Enabled(c: System, e: Event) {
    match e
    case Arrive(_) => true
    case Launch(order) =>
      c.main.NotStarted? && NoDuplicates(order) && forall t :: t in order <==> t in c.registry.topics
    case Advance(i) => i < |c.callers| && !c.callers[i].phase.Done?
    case Collect =>
      && c.main.Waiting? && c.main.collected < |c.main.tasks|
      && c.main.first + c.main.collected < |c.callers| && c.callers[c.main.first + c.main.collected].phase.Done?
    case Clear => c.main.Waiting? && c.main.collected == |c.main.tasks|
  }

  ghost function Apply(c: System, e: Event): System
    requires Enabled(c, e)
  {
    match e
    case Arrive(t) => c.(callers := c.callers + [Caller(t, Ready)])
    case Launch(order) =>
      c.(callers := c.callers + ReadyCallers(order), main := Waiting(|c.callers|, order, 0, true))
    case Advance(i) => if c.callers[i].phase.Ready? then FindAndErase(c, i) else Destroy(c, i)
    case Collect =>
      var m := c.main;
      c.(main := m.(collected := m.collected + 1,
                    allClear := m.allClear && c.callers[m.first + m.collected].phase.result))
    case Clear =>
      c.(main := MainThread.Finished(c.main.first, c.main.tasks, c.main.allClear), registry := c.registry.(topics := map[]))
  }

  function ReadyCallers(order: seq<string>): seq<Caller> {
    seq(|order|, k requires 0 <= k < |order| => Caller(order[k], Ready))
  }

  function WithPhase(c: System, i: nat, phase: Phase): System
    requires i < |c.callers|
  {
    c.(callers := c.callers[i := c.callers[i].(phase := phase)])
  }

  /** The part of unregisterTopic under the lock. */
  function FindAndErase(c: System, i: nat): System
    requires i < |c.callers|
  {
    var t := c.callers[i].topic;
    if t !in c.registry.topics then WithPhase(c, i, Done(false))
    else
      WithPhase(c, i, Holding(c.registry.topics[t])).(registry := c.registry.(topics := c.registry.topics - {t}))
  }

  /** The part after it: the saved pointer goes out of scope. */
  function Destroy(c: System, i: nat): System
    requires i < |c.callers| && c.callers[i].phase.Holding?
  {
    var r, g := c.registry, c.callers[i].phase.group;
    WithPhase(c, i, Done(true)).(
      registry := r.(dds := Teardown(r.dds, g).0, listeners := r.listeners - OwnListeners(g)),
      torn := c.torn + [c.callers[i].topic])
  }

  function Start(s: Registry): System {
    System(s, [], [], NotStarted)
  }

  ghost predicate Legal(c: System, es: seq<Event>)
    decreases |es|
  {
    es == [] || (Enabled(c, es[0]) && Legal(Apply(c, es[0]), es[1..]))
  }

  ghost function Run(c: System, es: seq<Event>): System
    requires Legal(c, es)
    decreases |es|
  {
    if es == [] then c else Run(Apply(c, es[0]), es[1..])
  }

  // ---- unregistering one topic more ----

  lemma {:induction false} UnregisterOneMore(s: Registry, names: seq<string>, t: string)
    ensures UnregisterAll(s, names + [t]) == UnregisterTopic(UnregisterAll(s, names), t).next
    decreases |names|
  {
    if names == [] {
      assert names + [t] == [t] && [t][1..] == [];
    } else {
      assert (names + [t])[1..] == names[1..] + [t];
      UnregisterOneMore(UnregisterTopic(s, names[0]).next, names[1..], t);
    }
  }

  lemma {:induction false} TopicsLeft(s: Registry, names: seq<string>)
    ensures UnregisterAll(s, names).topics == s.topics - (set t | t in names)
    decreases |names|
  {
    if names == [] {
    } else {
      var s' := UnregisterTopic(s, names[0]).next;
      TopicsLeft(s', names[1..]);
      assert s'.topics == s.topics - {names[0]};
      assert (set t | t in names) == {names[0]} + set t | t in names[1..];
    }
  }

  // ---- what every schedule keeps ----

  ghost predicate Won(callers: seq<Caller>, i: int, t: string) {
    0 <= i < |callers| && callers[i].topic == t && callers[i].Found()
  }

  ghost predicate HasWinner(callers: seq<Caller>, t: string) {
    exists i :: Won(callers, i, t)
  }

  ghost predicate OneWinner(callers: seq<Caller>) {
    forall i, j :: 0 <= i < j < |callers| && callers[i].Found() && callers[j].Found() ==> callers[i].topic != callers[j].topic
  }

  /** The callers against the registry s the run started from. */
  ghost predicate CallersOk(topics: map<string, Group>, callers: seq<Caller>, torn: seq<string>, s: Registry) {
    && (forall t :: t in topics ==> t in s.topics && topics[t] == s.topics[t])
    && (forall t :: t in s.topics && t !in topics ==> HasWinner(callers, t))
    && OneWinner(callers)
    && (forall i :: 0 <= i < |callers| ==> CallerOk(topics, torn, s, callers[i]))
  }

  ghost predicate CallerOk(topics: map<string, Group>, torn: seq<string>, s: Registry, x: Caller) {
    && (x.phase.Holding? ==> x.topic in s.topics && x.phase.group == s.topics[x.topic] && x.topic !in torn)
    && (x.phase == Done(true) ==> x.topic in s.topics && x.topic in torn)
    && (!x.phase.Ready? ==> x.topic !in topics)
  }

  ghost predicate TornOk(r: Registry, torn: seq<string>, s: Registry) {
    && NoDuplicates(torn)
    && (forall t :: t in torn ==> t in s.topics && t !in r.topics)
    && r == UnregisterAll(s, torn).(topics := r.topics)
  }

  ghost predicate MainOk(main: MainThread, topics: map<string, Group>, callers: seq<Caller>, s: Registry) {
    match main
    case NotStarted => true
    case Waiting(first, tasks, collected, allClear) =>
      && TasksOk(callers, first, tasks, s) && collected <= |tasks|
      && (forall t :: t in topics ==> t in tasks)
      && CollectedOk(callers, first, collected, allClear)
    case Finished(first, tasks, result) =>
      TasksOk(callers, first, tasks, s) && topics == map[] && CollectedOk(callers, first, |tasks|, result)
  }

  ghost predicate TasksOk(callers: seq<Caller>, first: nat, tasks: seq<string>, s: Registry) {
    && NoDuplicates(tasks) && first + |tasks| <= |callers|
    && (forall i :: first <= i < first + |tasks| ==> callers[i].topic == tasks[i - first])
    && (forall k :: 0 <= k < |tasks| ==> tasks[k] in s.topics)
  }

  ghost predicate CollectedOk(callers: seq<Caller>, first: nat, collected: nat, allClear: bool) {
    && first + collected <= |callers|
    && (forall i :: first <= i < first + collected ==> callers[i].phase.Done?)
    && (allClear <==> forall i :: first <= i < first + collected ==> callers[i].phase == Done(true))
  }

  ghost predicate Good(c: System, s: Registry) {
    && CallersOk(c.registry.topics, c.callers, c.torn, s)
    && TornOk(c.registry, c.torn, s)
    && MainOk(c.main, c.registry.topics, c.callers, s)
  }

  lemma AdvanceIsGood(c: System, s: Registry, i: nat)
    requires Good(c, s) && Enabled(c, Advance(i))
    ensures Good(Apply(c, Advance(i)), s)
  {
    if c.callers[i].phase.Ready? {
      EraseKeepsCallers(c, s, i);
    } else {
      DestroyKeepsCallers(c, s, i);
      DestroyIsUnregister(c, s, i);
    }
    var c' := Apply(c, Advance(i));
    AdvanceKeepsMain(c.main, c.registry.topics, c'.registry.topics, c.callers, i, c'.callers[i], s);
  }

  lemma AdvanceKeepsMain(main: MainThread, topics: map<string, Group>, topics': map<string, Group>,
                         callers: seq<Caller>, i: nat, x: Caller, s: Registry)
    requires MainOk(main, topics, callers, s) && topics'.Keys <= topics.Keys
    requires i < |callers| && !callers[i].phase.Done? && x.topic == callers[i].topic
    ensures MainOk(main, topics', callers[i := x], s)
  {
    var callers' := callers[i := x];
    assert forall t :: t in topics' ==> t in topics;
    assert forall j {:trigger callers[j]} {:trigger callers'[j]} :: 0 <= j < |callers| && j != i ==> callers'[j] == callers[j];
  }

  lemma WinnersAfterUpdate(callers: seq<Caller>, i: nat, x: Caller)
    requires i < |callers| && OneWinner(callers) && x.topic == callers[i].topic && (callers[i].Found() ==> x.Found())
    requires x.Found() ==> callers[i].Found() || !HasWinner(callers, x.topic)
    ensures OneWinner(callers[i := x])
    ensures forall t :: HasWinner(callers, t) ==> HasWinner(callers[i := x], t)
    ensures x.Found() ==> HasWinner(callers[i := x], x.topic)
  {
    var callers' := callers[i := x];
    forall t | HasWinner(callers, t) ensures HasWinner(callers', t) {
      var j :| Won(callers, j, t);
      assert Won(callers', j, t);
    }
    assert x.Found() ==> Won(callers', i, x.topic);
    forall j, k | 0 <= j < k < |callers'| && callers'[j].Found() && callers'[k].Found()
      ensures callers'[j].topic != callers'[k].topic
    {
      assert j != i ==> Won(callers, j, callers'[j].topic);
      assert k != i ==> Won(callers, k, callers'[k].topic);
    }
  }

  lemma EraseKeepsCallers(c: System, s: Registry, i: nat)
    requires Good(c, s) && i < |c.callers| && c.callers[i].phase.Ready?
    ensures var c' := FindAndErase(c, i); CallersOk(c'.registry.topics, c'.callers, c'.torn, s)
  {
    var t, c' := c.callers[i].topic, FindAndErase(c, i);
    forall j | Won(c.callers, j, t) ensures t !in c.registry.topics {
      assert CallerOk(c.registry.topics, c.torn, s, c.callers[j]);
    }
    WinnersAfterUpdate(c.callers, i, c'.callers[i]);
    forall j | 0 <= j < |c'.callers| ensures CallerOk(c'.registry.topics, c'.torn, s, c'.callers[j]) {
      assert CallerOk(c.registry.topics, c.torn, s, c.callers[j]);
    }
  }

  lemma DestroyKeepsCallers(c: System, s: Registry, i: nat)
    requires Good(c, s) && i < |c.callers| && c.callers[i].phase.Holding?
    ensures var c' := Destroy(c, i); CallersOk(c'.registry.topics, c'.callers, c'.torn, s)
  {
    var c' := Destroy(c, i);
    WinnersAfterUpdate(c.callers, i, c'.callers[i]);
    assert CallerOk(c.registry.topics, c.torn, s, c.callers[i]);
    forall j | 0 <= j < |c'.callers| ensures CallerOk(c'.registry.topics, c'.torn, s, c'.callers[j]) {
      assert CallerOk(c.registry.topics, c.torn, s, c.callers[j]);
    }
  }

  /** Destroying the held group is what an atomic unregisterTopic would do now. */
  lemma DestroyIsUnregister(c: System, s: Registry, i: nat)
    requires Good(c, s) && i < |c.callers| && c.callers[i].phase.Holding?
    ensures var c' := Destroy(c, i); TornOk(c'.registry, c'.torn, s)
  {
    var t := c.callers[i].topic;
    assert CallerOk(c.registry.topics, c.torn, s, c.callers[i]);
    TopicsLeft(s, c.torn);
    UnregisterOneMore(s, c.torn, t);
  }

  lemma NewcomersKeepCallers(c: System, s: Registry, newcomers: seq<Caller>)
    requires Good(c, s) && forall k :: 0 <= k < |newcomers| ==> newcomers[k].phase.Ready?
    ensures CallersOk(c.registry.topics, c.callers + newcomers, c.torn, s)
  {
    var callers := c.callers + newcomers;
    forall t | t in s.topics && t !in c.registry.topics ensures HasWinner(callers, t) {
      var i :| Won(c.callers, i, t);
      assert Won(callers, i, t);
    }
    forall i | 0 <= i < |callers| ensures CallerOk(c.registry.topics, c.torn, s, callers[i]) {
      assert i < |c.callers| ==> CallerOk(c.registry.topics, c.torn, s, c.callers[i]);
    }
  }

  lemma ArriveIsGood(c: System, s: Registry, t: string)
    requires Good(c, s)
    ensures Good(Apply(c, Arrive(t)), s)
  {
    var callers := c.callers + [Caller(t, Ready)];
    NewcomersKeepCallers(c, s, [Caller(t, Ready)]);
    if !c.main.NotStarted? {
      var n := |c.main.tasks|;
      var collected := if c.main.Waiting? then c.main.collected else n;
      SamePrefix(c.callers, callers, c.main.first, c.main.tasks, collected, c.main.first + n);
    }
  }

  /** The main thread looks at its own tasks only. */
  lemma SamePrefix(a: seq<Caller>, b: seq<Caller>, first: nat, tasks: seq<string>, collected: nat, n: nat)
    requires first + |tasks| == n <= |a| && n <= |b| && a[..n] == b[..n] && collected <= |tasks|
    ensures forall s :: TasksOk(a, first, tasks, s) ==> TasksOk(b, first, tasks, s)
    ensures forall ok :: CollectedOk(a, first, collected, ok) ==> CollectedOk(b, first, collected, ok)
  {
    assert forall i {:trigger a[i]} {:trigger b[i]} :: 0 <= i < n ==> a[i] == a[..n][i] == b[i];
  }

  lemma LaunchIsGood(c: System, s: Registry, order: seq<string>)
    requires Good(c, s) && Enabled(c, Launch(order))
    ensures Good(Apply(c, Launch(order)), s)
  {
    NewcomersKeepCallers(c, s, ReadyCallers(order));
    NewTasksAreOk(c.registry.topics, c.callers, order, s);
  }

  lemma NewTasksAreOk(topics: map<string, Group>, callers: seq<Caller>, order: seq<string>, s: Registry)
    requires NoDuplicates(order) && (forall t :: t in order <==> t in topics) && forall t :: t in topics ==> t in s.topics
    ensures MainOk(Waiting(|callers|, order, 0, true), topics, callers + ReadyCallers(order), s)
  {
    var n, all := |callers|, callers + ReadyCallers(order);
    assert forall i :: n <= i < n + |order| ==> all[i] == ReadyCallers(order)[i - n];
    assert forall k :: 0 <= k < |order| ==> order[k] in order;
  }

  lemma ClearIsGood(c: System, s: Registry)
    requires Good(c, s) && Enabled(c, Clear)
    ensures c.registry.topics == map[] && Good(Apply(c, Clear), s)
  {
    var first, tasks := c.main.first, c.main.tasks;
    forall k | 0 <= k < |tasks| ensures tasks[k] !in c.registry.topics {
      assert CallerOk(c.registry.topics, c.torn, s, c.callers[first + k]);
    }
    assert c.registry.topics == map[];
    assert c.registry.(topics := map[]) == c.registry;
  }

  lemma CollectIsGood(c: System, s: Registry)
    requires Good(c, s) && Enabled(c, Collect)
    ensures Good(Apply(c, Collect), s)
  {
    CollectKeepsMain(c.main, c.registry.topics, c.callers, s);
    var c' := Apply(c, Collect);
    assert c'.registry == c.registry && c'.callers == c.callers && c'.torn == c.torn;
  }

  lemma CollectKeepsMain(m: MainThread, topics: map<string, Group>, callers: seq<Caller>, s: Registry)
    requires MainOk(m, topics, callers, s) && m.Waiting? && m.collected < |m.tasks|
    requires callers[m.first + m.collected].phase.Done?
    ensures MainOk(m.(collected := m.collected + 1, allClear := m.allClear && callers[m.first + m.collected].phase.result),
                   topics, callers, s)
  {
    var x := callers[m.first + m.collected];
    assert x.phase == Done(true) <==> x.phase.result;
  }

  lemma {:induction false} RunIsGood(c: System, s: Registry, es: seq<Event>)
    requires Good(c, s) && Legal(c, es)
    ensures Good(Run(c, es), s)
    decreases |es|
  {
    if es == [] {
    } else {
      match es[0] {
        case Arrive(t) => ArriveIsGood(c, s, t);
        case Launch(order) => LaunchIsGood(c, s, order);
        case Advance(i) => AdvanceIsGood(c, s, i);
        case Collect => CollectIsGood(c, s);
        case Clear => ClearIsGood(c, s);
      }
      RunIsGood(Apply(c, es[0]), s, es[1..]);
    }
  }

  lemma StartIsGood(s: Registry)
    ensures Good(Start(s), s)
  {
    assert UnregisterAll(s, []) == s;
  }
}
