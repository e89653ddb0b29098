/**
  joinDomain's transport set-up: every participant without a configuration of its
  own gets a new one, copied from the global one but for its RTPS transport.
  Managers may be destroyed; the counters and the registry outlive them.
*/
module Transport {
  import Names

  datatype Instance = Instance(name: string, kind: string)

  const RTPS := "rtps_udp"

  /** A config is the bag of its instances' names. */
  type Config = multiset<string>

  /** How a participant got its config: named by the caller, or created for it. */
  datatype Binding = Named(config: string) | Created(config: string)

  /** The service's registry, the program-wide counters, and the managers that have
      a participant, with their domains. */
  datatype World = World(
    global: seq<Instance>,
    configs: map<string, Config>,
    instances: map<string, string>,
    ports: map<string, nat>,
    counts: map<int, nat>,
    managers: map<nat, int>,
    bindings: map<nat, Binding>)

  /** Null dereference, or the new state and the value joinDomain returns. */
  datatype JoinOutcome = Crashed | Joined(world: World, result: bool)

  function CountOf(w: World, domain: int): nat {
    if domain in w.counts then w.counts[domain] else 0
  }

  function ConfigName(domain: int, n: nat): string {
    Names.InstanceName("config", domain, n)
  }

  function RtpsName(domain: int, n: nat): string {
    Names.InstanceName(RTPS, domain, n)
  }

  // ---- the port ----

  /** PB + DG * domainID + D2 in uint16_t. */
  function RtpsPort(domain: int): nat {
    (7400 + 250 * (domain % 0x1_0000) + 1) % 0x1_0000
  }

  /** Section 9.6.1.3 of RTPS 2.2 asks for 7400 + 250 * domain + 1: met iff the domain id is at most 232. */
  lemma PortIsStandardIff(domain: nat)
    ensures RtpsPort(domain) == 7400 + 250 * domain + 1 <==> domain <= 232
  {
  }

  /** Two domains share a port iff their ids are congruent modulo 32768. */
  lemma PortsEqualIff(a: int, b: int)
    ensures RtpsPort(a) == RtpsPort(b) <==> a % 0x8000 == b % 0x8000
  {
    ShortIdKeepsClass(a);
    ShortIdKeepsClass(b);
    PortsOfShortIds(a % 0x1_0000, b % 0x1_0000);
  }

  lemma ShortIdKeepsClass(a: int)
    ensures (a % 0x1_0000) % 0x8000 == a % 0x8000
  {
    var q, x := a / 0x1_0000, a % 0x1_0000;
    assert a == 0x8000 * (2 * q) + x;
  }

  lemma PortsOfShortIds(x: int, y: int)
    requires 0 <= x < 0x1_0000 && 0 <= y < 0x1_0000
    ensures (7400 + 250 * x + 1) % 0x1_0000 == (7400 + 250 * y + 1) % 0x1_0000 <==> x % 0x8000 == y % 0x8000
  {
    if (7400 + 250 * x + 1) % 0x1_0000 == (7400 + 250 * y + 1) % 0x1_0000 {
      OddFactor(x - y, (7400 + 250 * x + 1) / 0x1_0000 - (7400 + 250 * y + 1) / 0x1_0000);
    }
  }

  /** 125 has the inverse 30933 modulo 32768. */
  lemma OddFactor(d: int, k: int)
    requires 125 * d == 0x8000 * k
    ensures d == 0x8000 * (30933 * k - 118 * d)
  {
  }

  // ---- joinDomain ----

  predicate HasRtps(global: seq<Instance>) {
    global != [] && (global[|global| - 1].kind == RTPS || HasRtps(global[..|global| - 1]))
  }

  /** The new config: every global instance, the RTPS one replaced by the one called name. */
  function CopyConfig(global: seq<Instance>, name: string): Config {
    if global == [] then multiset{}
    else
      var n := |global| - 1;
      CopyConfig(global[..n], name) + multiset{if global[n].kind == RTPS then name else global[n].name}
  }

  /** create_inst is refused for some RTPS instance, by the service or because the name is in use;
      the source uses its result unchecked. */
  predicate CopyCrashes(global: seq<Instance>, instances: map<string, string>, name: string, accept: bool) {
    global != []
    && var n := |global| - 1;
       CopyCrashes(global[..n], instances, name, accept)
       || (global[n].kind == RTPS && (!accept || name in instances || HasRtps(global[..n])))
  }

  function CreateConfig(w: World, m: nat, domain: int, n: nat): World {
    var name, rtps := ConfigName(domain, n), RtpsName(domain, n);
    w.(configs := w.configs[name := CopyConfig(w.global, rtps)],
       instances := if HasRtps(w.global) then w.instances[rtps := RTPS] else w.instances,
       ports := if HasRtps(w.global) then w.ports[rtps := RtpsPort(domain)] else w.ports,
       bindings := w.bindings[m := Created(name)])
  }

  /** The world once the manager has its participant and the domain is counted. */
  function Counted(w: World, m: nat, d: int): World {
    w.(managers := w.managers[m := d], counts := w.counts[d := CountOf(w, d) + 1])
  }

  function Create(w: World, m: nat, d: int): World {
    CreateConfig(Counted(w, m, d), m, d, CountOf(w, d) + 1)
  }

  function Join(w: World, m: nat, domain: int, config: string, participantOk: bool, instOk: bool): JoinOutcome {
    if m in w.managers then Joined(w, w.managers[m] == domain)
    else if !participantOk then Joined(w, false)
    else
      var w1, n := Counted(w, m, domain), CountOf(w, domain) + 1;
      if config != "" then
        if config !in w.configs then Joined(w1, false)
        else Joined(w1.(bindings := w.bindings[m := Named(config)]), true)
      else if ConfigName(domain, n) in w.configs then Joined(w1, true)
      else if CopyCrashes(w.global, w.instances, RtpsName(domain, n), instOk) then Crashed
      else Joined(Create(w, m, domain), true)
  }

  /** ~DDSManager: the participant goes; counters, configs and instances stay. */
  function Leave(w: World, m: nat): World {
    w.(managers := w.managers - {m}, bindings := w.bindings - {m})
  }

  class TransportRegistry {
    const global: seq<Instance>
    var configs: map<string, Config>
    var instances: map<string, string>
    var ports: map<string, nat>
    var g_transportInstances: map<int, nat>
    var managers: map<nat, int>
    var bindings: map<nat, Binding>

    function State(): World
      reads this
    {
      World(global, configs, instances, ports, g_transportInstances, managers, bindings)
    }

    constructor (global: seq<Instance>, configs: map<string, Config>, instances: map<string, string>)
      ensures State() == World(global, configs, instances, map[], map[], map[], map[])
    {
      this.global, this.configs, this.instances := global, configs, instances;
      ports, g_transportInstances, managers, bindings := map[], map[], map[], map[];
    }

    /** The service refuses a name in use, and may refuse any other. */
    method CreateInst(name: string, accept: bool) returns (created: bool)
      modifies `instances
      ensures created == (accept && name !in old(instances))
      ensures instances == if created then old(instances)[name := RTPS] else old(instances)
    {
      if accept && name !in instances {
        instances := instances[name := RTPS];
        return true;
      }
      return false;
    }

    /** The global config transport loop. */
    method CopyGlobalConfig(transportName: string, port: nat, instOk: bool) returns (crashed: bool, newConfig: Config)
      modifies `instances, `ports
      ensures crashed == CopyCrashes(global, old(instances), transportName, instOk)
      ensures !crashed ==>
                && newConfig == CopyConfig(global, transportName)
                && instances == (if HasRtps(global) then old(instances)[transportName := RTPS] else old(instances))
                && ports == (if HasRtps(global) then old(ports)[transportName := port] else old(ports))
    {
      newConfig := multiset{};
      for i := 0 to |global|
        invariant !CopyCrashes(global[..i], old(instances), transportName, instOk)
        invariant newConfig == CopyConfig(global[..i], transportName)
        invariant instances == if HasRtps(global[..i]) then old(instances)[transportName := RTPS] else old(instances)
        invariant ports == if HasRtps(global[..i]) then old(ports)[transportName := port] else old(ports)
      {
        assert global[..i + 1][..i] == global[..i];
        if global[i].kind == RTPS {
          var created := CreateInst(transportName, instOk);
          if !created {
            CrashesOn(global, i + 1, old(instances), transportName, instOk);
            return true, newConfig;
          }
          ports := ports[transportName := port];
          newConfig := newConfig + multiset{transportName};
        } else {
          newConfig := newConfig + multiset{global[i].name};
        }
      }
      assert global[..|global|] == global;
      return false, newConfig;
    }

    method JoinDomain(m: nat, domain: int, config: string, participantOk: bool, instOk: bool)
      returns (crashed: bool, ok: bool)
      modifies this
      ensures (if crashed then Crashed else Joined(State(), ok)) == Join(old(State()), m, domain, config, participantOk, instOk)
    {
      if m in managers && domain != managers[m] {
        return false, false;
      }
      if m in managers {
        return false, true;
      }
      if !participantOk {
        return false, false;
      }
      managers := managers[m := domain];
      if domain in g_transportInstances {
        g_transportInstances := g_transportInstances[domain := g_transportInstances[domain] + 1];
      } else {
        g_transportInstances := g_transportInstances[domain := 1];
      }
      if config != "" {
        if config !in configs {
          return false, false;
        }
        bindings := bindings[m := Named(config)];
        return false, true;
      }
      var n := g_transportInstances[domain];
      var configName := ConfigName(domain, n);
      if configName in configs {
        return false, true;
      }
      var nilUsed, newConfig := CopyGlobalConfig(RtpsName(domain, n), RtpsPort(domain), instOk);
      if nilUsed {
        return true, false;
      }
      configs, bindings := configs[configName := newConfig], bindings[m := Created(configName)];
      return false, true;
    }

    method LeaveDomain(m: nat)
      modifies `managers, `bindings
      ensures State() == Leave(old(State()), m)
    {
      managers, bindings := managers - {m}, bindings - {m};
    }
  }

  // ---- when the copy loop crashes ----

  lemma {:induction false} HasRtpsIff(global: seq<Instance>)
    ensures HasRtps(global) <==> exists i :: 0 <= i < |global| && global[i].kind == RTPS
  {
    if global == [] {
    } else {
      HasRtpsIff(global[..|global| - 1]);
    }
  }

  lemma {:induction false} CrashesOn(global: seq<Instance>, i: nat, instances: map<string, string>, name: string, accept: bool)
    requires i <= |global| && CopyCrashes(global[..i], instances, name, accept)
    ensures CopyCrashes(global, instances, name, accept)
    decreases |global|
  {
    if i == |global| {
      assert global[..i] == global;
    } else {
      assert global[..|global| - 1][..i] == global[..i];
      CrashesOn(global[..|global| - 1], i, instances, name, accept);
    }
  }

  predicate AtMostOneRtps(global: seq<Instance>) {
    forall i, j :: 0 <= i < j < |global| ==> global[i].kind != RTPS || global[j].kind != RTPS
  }

  /** The loop crashes iff there is an RTPS instance to copy and the service refuses the copy, or
      its name is in use, be it by the second RTPS instance of the same loop. */
  lemma {:induction false} CopyCrashesIff(global: seq<Instance>, instances: map<string, string>, name: string, accept: bool)
    ensures CopyCrashes(global, instances, name, accept)
            <==> HasRtps(global) && (!accept || name in instances || !AtMostOneRtps(global))
  {
    if global == [] {
    } else {
      var front := global[..|global| - 1];
      HasRtpsIff(front);
      CopyCrashesIff(front, instances, name, accept);
      assert AtMostOneRtps(global) <==> AtMostOneRtps(front) && (global[|global| - 1].kind == RTPS ==> !HasRtps(front));
    }
  }

  // ---- any sequence of joins and departures ----

  datatype Call =
    | JoinCall(m: nat, domain: int, config: string, participantOk: bool, instOk: bool)
    | LeaveCall(m: nat)

  /** A run ends where the program crashes. */
  predicate Survives(w: World, c: Call) {
    c.JoinCall? ==> Join(w, c.m, c.domain, c.config, c.participantOk, c.instOk).Joined?
  }

  function After(w: World, c: Call): World
    requires Survives(w, c)
  {
    if c.JoinCall? then Join(w, c.m, c.domain, c.config, c.participantOk, c.instOk).world else Leave(w, c.m)
  }

  predicate Legal(w: World, calls: seq<Call>)
    decreases |calls|
  {
    calls == [] || (Survives(w, calls[0]) && Legal(After(w, calls[0]), calls[1..]))
  }

  function Run(w: World, calls: seq<Call>): World
    requires Legal(w, calls)
    decreases |calls|
  {
    if calls == [] then w else Run(After(w, calls[0]), calls[1..])
  }

  predicate NobodyJoined(w: World) {
    w.counts == map[] && w.managers == map[] && w.bindings == map[]
  }

  /** The config was created for the n-th participant of domain d, as a copy of the global one,
      with a transport that the configuration file does not define. */
  ghost predicate GeneratedAs(w: World, start: World, c: string, d: int, n: nat) {
    && c == ConfigName(d, n) && 1 <= n <= CountOf(w, d)
    && c in w.configs && w.configs[c] == CopyConfig(w.global, RtpsName(d, n))
    && AtMostOneRtps(w.global) && (HasRtps(w.global) ==> RtpsName(d, n) !in start.instances && PortSet(w, d, n))
  }

  /** The transport of that participant is there, an RTPS one with the port of the domain. */
  predicate PortSet(w: World, d: int, n: nat) {
    var rtps := RtpsName(d, n);
    rtps in w.instances && w.instances[rtps] == RTPS && rtps in w.ports && w.ports[rtps] == RtpsPort(d)
  }

  ghost predicate Generated(w: World, start: World, c: string, d: int) {
    exists n :: GeneratedAs(w, start, c, d, n)
  }

  /** What the configuration file defines stays as it is; of the generated names, those counted so
      far may have been added, no others. */
  ghost predicate OnlyCounted(w: World, start: World) {
    && w.global == start.global
    && (forall c :: c in start.configs ==> c in w.configs && w.configs[c] == start.configs[c])
    && (forall i :: i in start.instances ==> i in w.instances && w.instances[i] == start.instances[i])
    && (forall d, n: nat :: ConfigName(d, n) in w.configs && n > CountOf(w, d) ==> ConfigName(d, n) in start.configs)
    && (forall d, n: nat :: RtpsName(d, n) in w.instances && n > CountOf(w, d) ==> RtpsName(d, n) in start.instances)
  }

  ghost predicate ConfigsOk(w: World, start: World) {
    forall c :: c in w.configs && c !in start.configs ==> exists d :: Generated(w, start, c, d)
  }

  ghost predicate BindingsOk(w: World, start: World) {
    && (forall m :: m in w.bindings ==> m in w.managers && w.bindings[m].config in w.configs)
    && (forall m :: m in w.bindings && w.bindings[m].Created? ==>
          m in w.managers && Generated(w, start, w.bindings[m].config, w.managers[m]))
    && (forall m, k | m in w.bindings && k in w.bindings && w.bindings[m].Created? && w.bindings[k].Created? ::
          w.bindings[m].config == w.bindings[k].config ==> m == k)
  }

  ghost predicate Inv(w: World, start: World) {
    OnlyCounted(w, start) && ConfigsOk(w, start) && BindingsOk(w, start)
  }

  /** The transports made so far keep their ports. */
  ghost predicate PortsStay(w: World, w': World) {
    forall d, n: nat :: n <= CountOf(w, d) && PortSet(w, d, n) ==> PortSet(w', d, n)
  }

  lemma CountsAfter(w: World, m: nat, d: int)
    ensures CountOf(Counted(w, m, d), d) == CountOf(w, d) + 1 == CountOf(Create(w, m, d), d)
    ensures forall e :: e != d ==> CountOf(Counted(w, m, d), e) == CountOf(w, e) == CountOf(Create(w, m, d), e)
  {
  }

  lemma SamePortsStay(w: World, w': World)
    requires w'.instances == w.instances && w'.ports == w.ports
    ensures PortsStay(w, w')
  {
  }

  /** A step that keeps the global config and the old configs keeps what was generated. */
  lemma AllGeneratedStay(w: World, w': World, start: World)
    requires w'.global == w.global && forall d :: CountOf(w, d) <= CountOf(w', d)
    requires forall c :: c in w.configs ==> c in w'.configs && w'.configs[c] == w.configs[c]
    requires PortsStay(w, w')
    ensures forall c, d :: Generated(w, start, c, d) ==> Generated(w', start, c, d)
  {
    forall c, d | Generated(w, start, c, d) ensures Generated(w', start, c, d) {
      var n :| GeneratedAs(w, start, c, d, n);
      assert GeneratedAs(w', start, c, d, n);
    }
  }

  lemma CountedKeepsInv(w: World, start: World, m: nat, d: int)
    requires Inv(w, start) && m !in w.managers
    ensures Inv(Counted(w, m, d), start)
  {
    CountsAfter(w, m, d);
    SamePortsStay(w, Counted(w, m, d));
    AllGeneratedStay(w, Counted(w, m, d), start);
    CountingKeepsNames(w, start, m, d);
    assert ConfigsOk(Counted(w, m, d), start) && BindingsOk(Counted(w, m, d), start) by {
      hide GeneratedAs, Generated, PortsStay, PortSet;
    }
    assert Inv(Counted(w, m, d), start) by {
      hide OnlyCounted, ConfigsOk, BindingsOk, Counted, CountOf;
    }
  }

  lemma CountingKeepsNames(w: World, start: World, m: nat, d: int)
    requires OnlyCounted(w, start)
    ensures OnlyCounted(Counted(w, m, d), start)
  {
    CountsAfter(w, m, d);
  }

  /** A change of managers and bindings alone. */
  lemma SameRegistryKeepsNames(w: World, w': World, start: World)
    requires OnlyCounted(w, start) && ConfigsOk(w, start)
    requires w' == w.(managers := w'.managers, bindings := w'.bindings)
    ensures OnlyCounted(w', start) && ConfigsOk(w', start)
    ensures forall c, d :: Generated(w, start, c, d) ==> Generated(w', start, c, d)
  {
    assert forall d :: CountOf(w, d) == CountOf(w', d);
    AllGeneratedStay(w, w', start);
  }

  lemma NamedKeepsInv(w: World, start: World, m: nat, c: string)
    requires Inv(w, start) && m in w.managers && m !in w.bindings && c in w.configs
    ensures Inv(w.(bindings := w.bindings[m := Named(c)]), start)
  {
    var w' := w.(bindings := w.bindings[m := Named(c)]);
    SameRegistryKeepsNames(w, w', start);
    hide GeneratedAs, Generated, OnlyCounted, ConfigsOk;
    BoundKeepsBindings(w, w', start, m, Named(c));
    hide BindingsOk;
  }

  /** Binding one more manager, to a config that no created binding has yet. */
  lemma BoundKeepsBindings(w: World, w': World, start: World, m: nat, b: Binding)
    requires BindingsOk(w, start) && m !in w.bindings && w'.bindings == w.bindings[m := b]
    requires m in w'.managers && forall k :: k in w.managers && k != m ==> k in w'.managers && w'.managers[k] == w.managers[k]
    requires b.config in w'.configs && w.configs.Keys <= w'.configs.Keys
    requires b.Created? ==> b.config !in w.configs && Generated(w', start, b.config, w'.managers[m])
    requires forall c, d :: Generated(w, start, c, d) ==> Generated(w', start, c, d)
    ensures BindingsOk(w', start)
  {
    hide GeneratedAs, Generated;
    forall k | k in w'.bindings && k != m
      ensures k in w'.managers && w'.bindings[k].config in w'.configs && w'.bindings[k].config in w.configs
    {
      assert k in w.bindings;
    }
  }

  lemma LeaveKeepsInv(w: World, start: World, m: nat)
    requires Inv(w, start)
    ensures Inv(Leave(w, m), start)
  {
    SameRegistryKeepsNames(w, Leave(w, m), start);
    hide GeneratedAs, Generated, OnlyCounted, ConfigsOk;
  }

  lemma CreateKeepsInv(w: World, start: World, m: nat, d: int)
    requires Inv(w, start) && m !in w.managers
    requires var n := CountOf(w, d) + 1;
             ConfigName(d, n) !in w.configs && !CopyCrashes(w.global, w.instances, RtpsName(d, n), true)
    ensures Inv(Create(w, m, d), start)
  {
    var n, w' := CountOf(w, d) + 1, Create(w, m, d);
    CountsAfter(w, m, d);
    CreateGenerates(w, start, m, d);
    CreateKeepsPorts(w, m, d);
    AllGeneratedStay(w, w', start);
    CreateKeepsNames(w, start, m, d);
    assert ConfigsOk(w', start) && BindingsOk(w', start) by {
      hide GeneratedAs, Generated, OnlyCounted;
      BoundKeepsBindings(w, w', start, m, Created(ConfigName(d, n)));
    }
    assert Inv(w', start) by {
      hide OnlyCounted, ConfigsOk, BindingsOk, Create, CountOf;
    }
  }

  lemma CreateGenerates(w: World, start: World, m: nat, d: int)
    requires OnlyCounted(w, start)
    requires !CopyCrashes(w.global, w.instances, RtpsName(d, CountOf(w, d) + 1), true)
    ensures Generated(Create(w, m, d), start, ConfigName(d, CountOf(w, d) + 1), d)
  {
    var n := CountOf(w, d) + 1;
    CountsAfter(w, m, d);
    HasRtpsIff(w.global);
    CopyCrashesIff(w.global, w.instances, RtpsName(d, n), true);
    assert GeneratedAs(Create(w, m, d), start, ConfigName(d, n), d, n);
  }

  lemma CreateKeepsPorts(w: World, m: nat, d: int)
    ensures PortsStay(w, Create(w, m, d))
  {
    forall e, k: nat | k <= CountOf(w, e) && PortSet(w, e, k) ensures PortSet(Create(w, m, d), e, k) {
      Names.InstanceNamesEqual(RTPS, d, CountOf(w, d) + 1, e, k);
    }
  }

  lemma CreateKeepsNames(w: World, start: World, m: nat, d: int)
    requires OnlyCounted(w, start)
    requires var n := CountOf(w, d) + 1;
             ConfigName(d, n) !in w.configs && !CopyCrashes(w.global, w.instances, RtpsName(d, n), true)
    ensures OnlyCounted(Create(w, m, d), start)
  {
    var w' := Create(w, m, d);
    CountsAfter(w, m, d);
    CopyCrashesIff(w.global, w.instances, RtpsName(d, CountOf(w, d) + 1), true);
    forall e, k: nat | ConfigName(e, k) in w'.configs && k > CountOf(w', e) ensures ConfigName(e, k) in start.configs {
      Names.InstanceNamesEqual("config", d, CountOf(w, d) + 1, e, k);
    }
    forall e, k: nat | RtpsName(e, k) in w'.instances && k > CountOf(w', e) ensures RtpsName(e, k) in start.instances {
      Names.InstanceNamesEqual(RTPS, d, CountOf(w, d) + 1, e, k);
    }
  }

  lemma StepKeepsInv(w: World, start: World, c: Call)
    requires Inv(w, start) && Survives(w, c)
    ensures Inv(After(w, c), start)
  {
    if c.LeaveCall? {
      LeaveKeepsInv(w, start, c.m);
    } else if c.m !in w.managers && c.participantOk {
      JoinKeepsInv(w, start, c);
    }
  }

  lemma JoinKeepsInv(w: World, start: World, c: Call)
    requires Inv(w, start) && Survives(w, c) && c.JoinCall? && c.m !in w.managers && c.participantOk
    ensures Inv(After(w, c), start)
  {
    var n := CountOf(w, c.domain) + 1;
    CountedKeepsInv(w, start, c.m, c.domain);
    if c.config != "" {
      if c.config in w.configs {
        NamedKeepsInv(Counted(w, c.m, c.domain), start, c.m, c.config);
      }
    } else if ConfigName(c.domain, n) !in w.configs {
      CopyCrashesIff(w.global, w.instances, RtpsName(c.domain, n), c.instOk);
      CopyCrashesIff(w.global, w.instances, RtpsName(c.domain, n), true);
      CreateKeepsInv(w, start, c.m, c.domain);
    }
  }

  lemma {:induction false} RunKeepsInv(w: World, start: World, calls: seq<Call>)
    requires Inv(w, start) && Legal(w, calls)
    ensures Inv(Run(w, calls), start)
    decreases |calls|
  {
    if calls == [] {
    } else {
      hide Inv, After, Survives;
      StepKeepsInv(w, start, calls[0]);
      RunKeepsInv(After(w, calls[0]), start, calls[1..]);
    }
  }

  lemma RunFromStart(start: World, calls: seq<Call>)
    requires NobodyJoined(start) && Legal(start, calls)
    ensures Inv(Run(start, calls), start)
  {
    RunKeepsInv(start, start, calls);
  }

  // ---- theorems ----

  /** A manager that joins for the first time without naming a config, whatever the configuration file
      holds and whoever has come and gone: it crashes iff the file does not define the config of the next
      number, there is an RTPS transport to copy, and the service refuses the copy, the file defines the
      copy's name, or there are two to copy. Else it succeeds, and gets a new config iff the file does not
      define that config; without one it is counted and left unbound. */
  lemma JoinCreatesIff(start: World, calls: seq<Call>, m: nat, domain: int, instOk: bool)
    requires NobodyJoined(start) && Legal(start, calls) && m !in Run(start, calls).managers
    ensures var w := Run(start, calls);
            var n := CountOf(w, domain) + 1;
            var o := Join(w, m, domain, "", true, instOk);
            && (o.Crashed? <==>
                  && ConfigName(domain, n) !in start.configs && HasRtps(start.global)
                  && (!instOk || RtpsName(domain, n) in start.instances || !AtMostOneRtps(start.global)))
            && (o.Joined? ==>
                  && o.result
                  && (m in o.world.bindings <==> ConfigName(domain, n) !in start.configs)
                  && (m in o.world.bindings ==>
                        && o.world.bindings[m] == Created(ConfigName(domain, n)) && ConfigName(domain, n) !in w.configs
                        && (HasRtps(start.global) ==> RtpsName(domain, n) !in w.instances))
                  && (m !in o.world.bindings ==> o.world == Counted(w, m, domain)))
  {
    var w := Run(start, calls);
    RunFromStart(start, calls);
    hide Run, Legal;
    assert m !in w.bindings;
    CountsAfter(w, m, domain);
    CopyCrashesIff(w.global, w.instances, RtpsName(domain, CountOf(w, domain) + 1), instOk);
    hide ConfigsOk, BindingsOk, AtMostOneRtps, CopyCrashes, CopyConfig;
  }

  /** Any join, after any joins and departures: unless it crashes, it succeeds iff the manager is in that
      domain already, or it has no participant yet, gets one, and the config it names, if any, exists. A
      repeated join changes nothing. A first success binds the named config; without a name it binds a
      config created for it, iff the file does not define the config of that number. */
  lemma JoinSucceedsIff(start: World, calls: seq<Call>, m: nat, domain: int, config: string,
                        participantOk: bool, instOk: bool)
    requires NobodyJoined(start) && Legal(start, calls)
    ensures var w := Run(start, calls); var o := Join(w, m, domain, config, participantOk, instOk);
            var n := CountOf(w, domain) + 1;
            && (o.Crashed? <==>
                  && m !in w.managers && participantOk && config == ""
                  && ConfigName(domain, n) !in start.configs && HasRtps(start.global)
                  && (!instOk || RtpsName(domain, n) in start.instances || !AtMostOneRtps(start.global)))
            && (o.Joined? ==>
                  && (o.result <==> if m in w.managers then w.managers[m] == domain
                                    else participantOk && (config == "" || config in w.configs))
                  && (m in w.managers ==> o.world == w)
                  && (o.result ==> m in o.world.managers && o.world.managers[m] == domain)
                  && (o.result && m !in w.managers ==>
                        && (m in o.world.bindings <==> config != "" || ConfigName(domain, n) !in start.configs)
                        && (m in o.world.bindings ==>
                              o.world.bindings[m] == if config != "" then Named(config) else Created(ConfigName(domain, n)))
                        && (m !in o.world.bindings ==> o.world == Counted(w, m, domain))))
  {
    if m !in Run(start, calls).managers && participantOk && config == "" {
      JoinCreatesIff(start, calls, m, domain, instOk);
    }
    CountsAfter(Run(start, calls), m, domain);
    hide Run, Legal, CopyCrashes, AtMostOneRtps;
  }

  /** The configuration file's configs list its own instances. */
  ghost predicate WellFormed(w: World) {
    && (forall c, i :: c in w.configs && i in w.configs[c] ==> i in w.instances)
    && (forall k :: 0 <= k < |w.global| ==>
          w.global[k].name in w.instances && w.instances[w.global[k].name] == w.global[k].kind)
  }

  /** The RTPS instances of a config. */
  ghost predicate UsesRtps(w: World, c: string, i: string) {
    c in w.configs && i in w.configs[c] && i in w.instances && w.instances[i] == RTPS
  }

  /** After any joins and departures of any managers, a config created for one participant shares an
      RTPS instance with another participant's config only if that one named the very same config;
      so two participants whose configs were created for them never share one. */
  lemma CreatedConfigsShareNoRtps(start: World, calls: seq<Call>, m: nat, k: nat, i: string)
    requires NobodyJoined(start) && WellFormed(start) && Legal(start, calls) && m != k
    requires var w := Run(start, calls);
             && m in w.bindings && k in w.bindings && w.bindings[m].Created?
             && UsesRtps(w, w.bindings[m].config, i) && UsesRtps(w, w.bindings[k].config, i)
    ensures var w := Run(start, calls); w.bindings[k] == Named(w.bindings[m].config)
  {
    RunFromStart(start, calls);
    var w := Run(start, calls);
    var c, e := w.bindings[m].config, w.bindings[k].config;
    hide Run, Legal, AtMostOneRtps;
    var d, n :| GeneratedAs(w, start, c, d, n);
    GeneratedUsesOneRtps(w, start, c, d, n, i);
    assert e !in start.configs;
    var d', n' :| GeneratedAs(w, start, e, d', n');
    GeneratedUsesOneRtps(w, start, e, d', n', i);
    Names.InstanceNamesEqual(RTPS, d, n, d', n');
  }

  /** The one RTPS instance of a created config is its own, and not the file's. */
  lemma GeneratedUsesOneRtps(w: World, start: World, c: string, d: int, n: nat, i: string)
    requires OnlyCounted(w, start) && WellFormed(start) && GeneratedAs(w, start, c, d, n) && UsesRtps(w, c, i)
    ensures i == RtpsName(d, n) && i !in start.instances
  {
    CopyHolds(w.global, RtpsName(d, n), i);
  }

  lemma {:induction false} CopyHolds(global: seq<Instance>, name: string, i: string)
    requires i in CopyConfig(global, name)
    ensures (i == name && HasRtps(global)) || exists k :: 0 <= k < |global| && global[k].kind != RTPS && global[k].name == i
  {
    var n := |global| - 1;
    if i !in CopyConfig(global[..n], name) {
    } else {
      CopyHolds(global[..n], name, i);
    }
  }

  /** The names of the global instances other than RTPS, with their multiplicities. */
  function OtherInstances(global: seq<Instance>): Config {
    if global == [] then multiset{}
    else
      var n := |global| - 1;
      OtherInstances(global[..n]) + if global[n].kind == RTPS then multiset{} else multiset{global[n].name}
  }

  /** Every other global instance is carried over, and at most one RTPS instance is added. */
  lemma {:induction false} CopyCarriesOver(global: seq<Instance>, name: string)
    requires AtMostOneRtps(global)
    ensures CopyConfig(global, name) == OtherInstances(global) + if HasRtps(global) then multiset{name} else multiset{}
  {
    if global == [] {
    } else {
      var front, last := global[..|global| - 1], global[|global| - 1];
      HasRtpsIff(front);
      assert AtMostOneRtps(front) && (last.kind == RTPS ==> !HasRtps(front));
      CopyCarriesOver(front, name);
      SumsSwap(OtherInstances(front), multiset{last.name}, if HasRtps(front) then multiset{name} else multiset{});
    }
  }

  lemma SumsSwap(a: Config, b: Config, c: Config)
    ensures a + b + c == a + c + b && a + multiset{} == a
  {
  }

  /** A created config holds every other global instance and at most one RTPS instance, its own. */
  lemma CreatedConfigIsCopyOfGlobal(start: World, calls: seq<Call>, m: nat)
    requires NobodyJoined(start) && Legal(start, calls)
    requires var w := Run(start, calls); m in w.bindings && w.bindings[m].Created?
    ensures var w := Run(start, calls); var c := w.bindings[m].config;
            exists d, n :: c == ConfigName(d, n) && c in w.configs
              && w.configs[c] == OtherInstances(start.global)
                                 + if HasRtps(start.global) then multiset{RtpsName(d, n)} else multiset{}
  {
    RunFromStart(start, calls);
    var w := Run(start, calls);
    hide Run, Legal;
    var d := w.managers[m];
    var n :| GeneratedAs(w, start, w.bindings[m].config, d, n);
    hide Inv, Generated, ConfigName, RtpsName, RtpsPort;
    CopyCarriesOver(w.global, RtpsName(d, n));
    assert w.bindings[m].config == ConfigName(d, n);
  }

  /** After any joins and departures, a manager bound to a created config has one made for its own domain; if
      there is an RTPS transport to copy, the copy is there as an RTPS transport with the port computed in 16
      bits from that domain, which is 7400 + 250 * domain + 1 for the domain ids from 0 to 232. */
  lemma CreatedTransportHasDomainPort(start: World, calls: seq<Call>, m: nat)
    requires NobodyJoined(start) && Legal(start, calls)
    requires var w := Run(start, calls); m in w.bindings && w.bindings[m].Created?
    ensures var w := Run(start, calls);
            && m in w.managers && w.global == start.global
            && exists n: nat :: HasOwnTransport(w, w.managers[m], n, w.bindings[m].config)
  {
    RunFromStart(start, calls);
    var w := Run(start, calls);
    hide Run, Legal;
    assert Generated(w, start, w.bindings[m].config, w.managers[m]);
    GeneratedHasPort(w, start, w.bindings[m].config, w.managers[m]);
  }

  /** The config was made for the n-th participant of domain d, and has an RTPS instance with the port of
      that domain if there was one to copy. */
  ghost predicate HasOwnTransport(w: World, d: int, n: nat, config: string) {
    && 1 <= n <= CountOf(w, d)
    && config == "config" + "-" + Names.DecimalInt(d) + "-" + Names.Decimal(n)
    && (HasRtps(w.global) ==>
          var rtps := "rtps_udp" + "-" + Names.DecimalInt(d) + "-" + Names.Decimal(n);
          && config in w.configs && rtps in w.configs[config]
          && rtps in w.instances && w.instances[rtps] == "rtps_udp"
          && rtps in w.ports && w.ports[rtps] == (7400 + 250 * (d % 0x1_0000) + 1) % 0x1_0000
          && (0 <= d <= 232 ==> w.ports[rtps] == 7400 + 250 * d + 1))
  }

  lemma GeneratedHasPort(w: World, start: World, config: string, d: int)
    requires Generated(w, start, config, d)
    ensures exists n: nat :: HasOwnTransport(w, d, n, config)
  {
    var n :| GeneratedAs(w, start, config, d, n);
    OwnTransportThere(w, start, config, d, n);
    hide HasOwnTransport;
  }

  lemma OwnTransportThere(w: World, start: World, config: string, d: int, n: nat)
    requires GeneratedAs(w, start, config, d, n)
    ensures HasOwnTransport(w, d, n, config)
  {
    CopyHasRtps(w.global, RtpsName(d, n));
    PortIsStandardIff(if d < 0 then 0 else d);
    hide CopyConfig, HasRtps;
  }

  lemma {:induction false} CopyHasRtps(global: seq<Instance>, name: string)
    ensures HasRtps(global) ==> name in CopyConfig(global, name)
  {
    if global == [] {
    } else {
      CopyHasRtps(global[..|global| - 1], name);
    }
  }

  // ---- what stays ----

  /** Configs and transports stay as they are, ports included. */
  ghost predicate Grows(w: World, w': World) {
    && w'.global == w.global
    && (forall c :: c in w.configs ==> c in w'.configs && w'.configs[c] == w.configs[c])
    && (forall i :: i in w.instances ==>
          && i in w'.instances && w'.instances[i] == w.instances[i]
          && (i in w.ports ==> i in w'.ports && w'.ports[i] == w.ports[i]))
  }

  /** The manager is in the same domain, with the same config or still without one. */
  predicate Remains(w: World, w': World, m: nat) {
    && m in w.managers && m in w'.managers && w'.managers[m] == w.managers[m]
    && (m in w'.bindings <==> m in w.bindings) && (m in w.bindings ==> w'.bindings[m] == w.bindings[m])
  }

  lemma CreateGrows(w: World, k: nat, d: int, m: nat)
    requires var n := CountOf(w, d) + 1;
             k !in w.managers && ConfigName(d, n) !in w.configs && (HasRtps(w.global) ==> RtpsName(d, n) !in w.instances)
    ensures Grows(w, Create(w, k, d))
    ensures m in w.managers ==> Remains(w, Create(w, k, d), m)
  {
    hide ConfigName, RtpsName, CopyConfig, HasRtps, RtpsPort;
  }

  /** The call is a first join that may create a config. */
  predicate MayCreate(w: World, c: Call) {
    && c.JoinCall? && c.m !in w.managers && c.participantOk && c.config == ""
    && ConfigName(c.domain, CountOf(w, c.domain) + 1) !in w.configs
  }

  lemma OtherCallGrows(w: World, c: Call, m: nat)
    requires Survives(w, c) && !MayCreate(w, c)
    ensures Grows(w, After(w, c))
    ensures m in w.managers && c != LeaveCall(m) ==> Remains(w, After(w, c), m)
  {
  }

  lemma StepGrows(w: World, c: Call, m: nat)
    requires Survives(w, c)
    ensures Grows(w, After(w, c))
    ensures m in w.managers && c != LeaveCall(m) ==> Remains(w, After(w, c), m)
  {
    if MayCreate(w, c) {
      CopyCrashesIff(w.global, w.instances, RtpsName(c.domain, CountOf(w, c.domain) + 1), c.instOk);
      CreateGrows(w, c.m, c.domain, m);
    } else {
      OtherCallGrows(w, c, m);
      hide *;
    }
  }

  /** No join and no departure takes back a config or a transport, or changes one; and a manager keeps its
      domain and its config, or stays without one, until it is destroyed. */
  lemma {:induction false} NothingIsTakenBack(w: World, calls: seq<Call>, m: nat)
    requires Legal(w, calls)
    ensures Grows(w, Run(w, calls))
    ensures m in w.managers && LeaveCall(m) !in calls ==> Remains(w, Run(w, calls), m)
    decreases |calls|
  {
    if calls == [] {
    } else {
      hide After, Survives;
      StepGrows(w, calls[0], m);
      NothingIsTakenBack(After(w, calls[0]), calls[1..], m);
    }
  }

  // ---- the counters ----

  function MembersOf(managers: map<nat, int>, d: int): set<nat> {
    set m | m in managers && managers[m] == d
  }

  /** The participants a run makes in a domain. */
  function Made(w: World, calls: seq<Call>, d: int): nat
    requires Legal(w, calls)
    decreases |calls|
  {
    if calls == [] then 0 else MadeBy(w, calls[0], d) + Made(After(w, calls[0]), calls[1..], d)
  }

  function MadeBy(w: World, c: Call, d: int): nat {
    if c.JoinCall? && c.m !in w.managers && c.participantOk && c.domain == d then 1 else 0
  }

  /** The participants of a domain that a run destroys. */
  function Gone(w: World, calls: seq<Call>, d: int): nat
    requires Legal(w, calls)
    decreases |calls|
  {
    if calls == [] then 0 else GoneBy(w, calls[0], d) + Gone(After(w, calls[0]), calls[1..], d)
  }

  function GoneBy(w: World, c: Call, d: int): nat {
    if c.LeaveCall? && c.m in w.managers && w.managers[c.m] == d then 1 else 0
  }

  /** The counter of a domain grows by the participants ever made in it, the number of managers
      in it by those that have not gone since. */
  lemma {:induction false} CountersCountParticipants(w: World, calls: seq<Call>, d: int)
    requires Legal(w, calls)
    ensures CountOf(Run(w, calls), d) == CountOf(w, d) + Made(w, calls, d)
    ensures |MembersOf(Run(w, calls).managers, d)| + Gone(w, calls, d) == |MembersOf(w.managers, d)| + Made(w, calls, d)
    decreases |calls|
  {
    if calls == [] {
    } else {
      hide CountOf, MembersOf, After, Survives, MadeBy, GoneBy;
      StepCounts(w, calls[0], d);
      CountersCountParticipants(After(w, calls[0]), calls[1..], d);
    }
  }

  lemma StepCounts(w: World, c: Call, d: int)
    requires Survives(w, c)
    ensures CountOf(After(w, c), d) == CountOf(w, d) + MadeBy(w, c, d)
    ensures |MembersOf(After(w, c).managers, d)| + GoneBy(w, c, d) == |MembersOf(w.managers, d)| + MadeBy(w, c, d)
  {
    if c.LeaveCall? {
      OneMemberLess(w.managers, c.m, d);
    } else if c.m !in w.managers && c.participantOk {
      CountsAfter(w, c.m, c.domain);
      OneMoreMember(w.managers, c.m, c.domain, d);
    }
  }

  lemma OneMoreMember(managers: map<nat, int>, m: nat, domain: int, d: int)
    requires m !in managers
    ensures |MembersOf(managers[m := domain], d)| == |MembersOf(managers, d)| + if domain == d then 1 else 0
  {
    assert MembersOf(managers[m := domain], d) == MembersOf(managers, d) + if domain == d then {m} else {};
  }

  lemma OneMemberLess(managers: map<nat, int>, m: nat, d: int)
    ensures |MembersOf(managers - {m}, d)| + (if m in managers && managers[m] == d then 1 else 0) == |MembersOf(managers, d)|
  {
    assert MembersOf(managers, d) == MembersOf(managers - {m}, d) + if m in managers && managers[m] == d then {m} else {};
  }
}
