/**
  The entity registry as values: what each DDSManager operation does to the
  topic groups, to the participant and to the wrapper's own listener objects.
  Whatever the service may refuse is a parameter of the operation.
*/
module RegistrySpec {
  import opened Dds
  import opened Emitters
  import Names

  /** One TopicGroup. A handle or a listener that is not set is NIL (0). */
  datatype Group = Group(
    domain: bool,
    topic: Handle,
    publisher: Handle,
    subscriber: Handle,
    writer: Handle,
    pubQos: GroupQos,
    subQos: GroupQos,
    writerQos: int,
    readerQos: ReaderQos,
    qosPreset: int,
    topicListener: nat,
    writerListener: nat,
    readerListeners: map<string, nat>,
    filteredTopics: map<string, Handle>,
    readers: map<string, Handle>,
    emitters: map<string, EmitterState>)

  /** The dictionary's presets, LATEST_RELIABLE_TRANSIENT (0) to BEST_EFFORT (3). */
  const DEFAULT_PRESET := 0
  const LAST_PRESET := 3

  function PresetReaderQos(preset: int): ReaderQos {
    ReaderQos(preset, 0)
  }

  const NEW_GROUP :=
    Group(false, NIL, NIL, NIL, NIL, GroupQos([], 0), GroupQos([], 0),
          DEFAULT_PRESET, PresetReaderQos(DEFAULT_PRESET), -1, NIL, NIL, map[], map[], map[], map[])

  /** listeners holds the wrapper listener objects that have not been freed, each with its handler. */
  datatype Registry = Registry(
    joined: bool,
    topics: map<string, Group>,
    dds: Participant,
    listeners: map<nat, nat>,
    nextListener: nat,
    rlHandler: nat,
    wlHandler: nat)

  const EMPTY_REGISTRY := Registry(false, map[], EMPTY_PARTICIPANT, map[], 1, 0, 0)

  /** A new state and the value the operation returns. */
  datatype Step = Step(next: Registry, result: bool)

  // ---- small steps on one group ----

  function Put(s: Registry, t: string, g: Group): Registry {
    s.(topics := s.topics[t := g])
  }

  function GroupOrNew(s: Registry, t: string): Group {
    if t in s.topics then s.topics[t] else NEW_GROUP
  }

  function EnsureSubscriber(s: Registry, t: string, accept: bool): Registry
    requires t in s.topics
  {
    var g := s.topics[t];
    if g.subscriber != NIL then s
    else
      var (p, h) := s.dds.CreateSubscriber(g.subQos, accept);
      if h == NIL then s else Put(s.(dds := p), t, g.(subscriber := h))
  }

  /** Create a content filtered topic and record it under its name. */
  function AddFilter(s: Registry, t: string, name: string, expression: string, accept: bool): (Registry, Handle)
    requires t in s.topics
  {
    var g := s.topics[t];
    var (p, h) := s.dds.CreateFilteredTopic(name, g.topic, expression, accept);
    if h == NIL then (s, NIL)
    else (Put(s.(dds := p), t, g.(filteredTopics := g.filteredTopics[name := h])), h)
  }

  /** Create a reader with a listener of its own; on refusal the listener is freed again. */
  function AddReader(s: Registry, t: string, r: string, description: Handle, accept: bool): Step
    requires t in s.topics
  {
    var g := s.topics[t];
    var l := s.nextListener;
    var (p, h) := s.dds.CreateReader(g.subscriber, description, l, g.readerQos, accept);
    if h == NIL then Step(s, false)
    else
      var s' := s.(dds := p, listeners := s.listeners[l := s.rlHandler], nextListener := l + 1);
      Step(Put(s', t, g.(readers := g.readers[r := h], readerListeners := g.readerListeners[r := l])), true)
  }

  // ---- registerTopic, registerQos and the QoS setters ----

  datatype RegisterOutcome = Threw | Finished(step: Step)

  /** Create the topic of a group that has none. */
  function AddTopic(s: Registry, t: string, accept: bool): (Registry, Handle) {
    var l := s.nextListener;
    var (p, h) := s.dds.CreateTopic(t, l, accept);
    if h == NIL then (s, NIL)
    else
      (Put(s.(dds := p, listeners := s.listeners[l := NIL], nextListener := l + 1), t,
           GroupOrNew(s, t).(domain := true, topic := h, topicListener := l)), h)
  }

  function RegisterTopic(s: Registry, t: string, preset: int, accept: bool, refused: set<Handle>): RegisterOutcome {
    if !s.joined then Threw
    else if t in s.topics && s.topics[t].topic != NIL then Finished(Step(s, true))
    else
      var (s1, h) := AddTopic(s, t, accept);
      if h == NIL then Finished(Step(s1, false))
      else Finished(RegisterQos(s1, t, preset, refused))
  }

  function RegisterQos(s: Registry, t: string, preset: int, refused: set<Handle>): Step {
    if t !in s.topics then Step(s, false)
    else if s.topics[t].qosPreset != -1 then Step(s, true)
    else if !(0 <= preset <= LAST_PRESET) then Step(s, false)
    else
      var s1 := SetReaderQos(s, t, PresetReaderQos(preset), refused);
      var s2 := SetWriterQos(s1, t, preset, refused);
      Step(Put(s2, t, s2.topics[t].(qosPreset := preset)), true)
  }

  /** set_qos on every handle of hs that is a live reader and does not refuse. */
  function ApplyReaderQos(p: Participant, hs: set<Handle>, qos: ReaderQos): Participant {
    p.(entities := map h | h in p.entities ::
         if h in hs && p.entities[h].Reader? then p.entities[h].(readerQos := qos) else p.entities[h])
  }

  function SetReaderQos(s: Registry, t: string, qos: ReaderQos, refused: set<Handle>): (s': Registry) {
    var g := GroupOrNew(s, t);
    Put(s.(dds := ApplyReaderQos(s.dds, g.readers.Values - refused, qos)), t, g.(readerQos := qos))
  }

  function SetWriterQos(s: Registry, t: string, qos: int, refused: set<Handle>): Registry {
    var g := GroupOrNew(s, t);
    var p := if g.writer != NIL && g.writer !in refused then s.dds.SetWriterQos(g.writer, qos) else s.dds;
    Put(s.(dds := p), t, g.(writerQos := qos))
  }

  function SetPublisherQos(s: Registry, t: string, qos: GroupQos, refused: set<Handle>): Registry {
    var g := GroupOrNew(s, t);
    var p := if g.publisher != NIL && g.publisher !in refused then s.dds.SetGroupQos(g.publisher, qos) else s.dds;
    Put(s.(dds := p), t, g.(pubQos := qos))
  }

  function SetSubscriberQos(s: Registry, t: string, qos: GroupQos, refused: set<Handle>): Registry {
    var g := GroupOrNew(s, t);
    var p := if g.subscriber != NIL && g.subscriber !in refused then s.dds.SetGroupQos(g.subscriber, qos) else s.dds;
    Put(s.(dds := p), t, g.(subQos := qos))
  }

  function WithPartition(qos: GroupQos, name: string): GroupQos {
    qos.(partition := qos.partition + [name])
  }

  function AddPartition(s: Registry, t: string, name: string): Step {
    if t !in s.topics then Step(s, false)
    else
      var g := s.topics[t];
      Step(Put(s, t, g.(subQos := WithPartition(g.subQos, name), pubQos := WithPartition(g.pubQos, name))), true)
  }

  /** rate * 1000000 in 32-bit arithmetic, milliseconds to nanoseconds. */
  function Separation(rate: int): nat {
    (rate * 1000000) % 0x1_0000_0000
  }

  function SetMaxDataRate(s: Registry, t: string, r: string, rate: int, refused: set<Handle>): Step {
    var h := GetReader(s, t, r);
    if rate < 1 || h == NIL then Step(s, false)
    else if h in refused then Step(s, true)
    else Step(s.(dds := s.dds.SetReaderQos(h, s.topics[t].readerQos.(minimumSeparation := Separation(rate)))), true)
  }

  // ---- readers and writers ----

  function GetReader(s: Registry, t: string, r: string): (h: Handle)
    ensures h != NIL ==> r != "" && t in s.topics && r in s.topics[t].readers
  {
    if r == "" || t !in s.topics || r !in s.topics[t].readers then NIL else s.topics[t].readers[r]
  }

  function CreateSubscriber(s: Registry, t: string, r: string, filter: string,
                            subscriberOk: bool, filterOk: bool, readerOk: bool): Step
  {
    if r == "" || t !in s.topics || s.topics[t].topic == NIL || r in s.topics[t].readerListeners then Step(s, false)
    else
      var s1 := EnsureSubscriber(s, t, subscriberOk);
      if s1.topics[t].subscriber == NIL then Step(s1, false)
      else if filter == "" then AddReader(s1, t, r, s1.topics[t].topic, readerOk)
      else
        var (s2, h) := AddFilter(s1, t, Names.FilterName(t, r, 0), filter, filterOk);
        if h == NIL then Step(s2, false) else AddReader(s2, t, r, h, readerOk)
  }

  /** Create a group's publisher and then its writer. */
  function AddPublisher(s: Registry, t: string, accept: bool): Registry
    requires t in s.topics
  {
    var g := s.topics[t];
    var (p, h) := s.dds.CreatePublisher(g.pubQos, accept);
    if h == NIL then s else Put(s.(dds := p), t, g.(publisher := h))
  }

  function AddWriter(s: Registry, t: string, accept: bool): Step
    requires t in s.topics
  {
    var g := s.topics[t];
    var l := s.nextListener;
    var (p, h) := s.dds.CreateWriter(g.publisher, g.topic, l, g.writerQos, accept);
    if h == NIL then Step(s, false)
    else
      var s' := s.(dds := p, listeners := s.listeners[l := s.wlHandler], nextListener := l + 1);
      Step(Put(s', t, g.(writer := h, writerListener := l)), true)
  }

  function CreatePublisher(s: Registry, t: string, publisherOk: bool, writerOk: bool): Step {
    if t !in s.topics || s.topics[t].topic == NIL then Step(s, false)
    else if s.topics[t].publisher != NIL then Step(s, true)
    else
      var s1 := AddPublisher(s, t, publisherOk);
      if s1.topics[t].publisher == NIL then Step(s1, false) else AddWriter(s1, t, writerOk)
  }

  // ---- replaceFilter ----

  /** What the service and the emitter thread may do during replaceFilter. */
  datatype ReplaceEnv = ReplaceEnv(
    containedOk: bool, filterDeleteOk: bool, filterOk: bool, readerOk: bool, attached: bool)

  function StopEmitter(s: Registry, t: string, r: string): Registry
    requires t in s.topics
  {
    var g := s.topics[t];
    if r in g.emitters && g.emitters[r].running
    then Put(s, t, g.(emitters := g.emitters[r := g.emitters[r].Stop()])) else s
  }

  function RestartEmitter(s: Registry, t: string, r: string, attached: bool): Registry
    requires t in s.topics && r in s.topics[t].readers
  {
    var g := s.topics[t];
    if r in g.emitters
    then Put(s, t, g.(emitters := g.emitters[r := g.emitters[r].SetReader(g.readers[r]).Run(attached)])) else s
  }

  /** The name of the content filtered topic h is reading from; empty if it reads from a plain topic. */
  function FilterNameOf(p: Participant, description: Handle): string {
    if description in p.entities && p.entities[description].FilteredTopic? then p.entities[description].name else ""
  }

  /** Delete the content filtered topic if the group has it, and forget it if that worked. */
  function DropFilter(s: Registry, t: string, description: Handle, accept: bool): Registry
    requires t in s.topics
  {
    var g := s.topics[t];
    var names := set n | n in g.filteredTopics && g.filteredTopics[n] == description;
    if names == {} || !accept then s
    else
      var (p, rc) := s.dds.Delete(description);
      if rc == RETCODE_OK then Put(s.(dds := p), t, g.(filteredTopics := g.filteredTopics - names)) else s
  }

  function NextFilterName(t: string, r: string, existing: string): string {
    Names.FilterName(t, r, 1 + if existing == "" then 0 else Names.FilterCounter(existing))
  }

  /** Create the reader again, with the listener it had before. */
  function RecreateReader(s: Registry, t: string, r: string, description: Handle, accept: bool): Step
    requires t in s.topics && r in s.topics[t].readerListeners
  {
    var g := s.topics[t];
    var (p, h) := s.dds.CreateReader(g.subscriber, description, g.readerListeners[r], g.readerQos, accept);
    if h == NIL then Step(s, false)
    else Step(Put(s.(dds := p), t, g.(readers := g.readers[r := h])), true)
  }

  function ReplaceFilter(s: Registry, t: string, r: string, filter: string, env: ReplaceEnv): Step {
    var h := GetReader(s, t, r);
    if h == NIL || s.topics[t].subscriber == NIL || r !in s.topics[t].readerListeners then Step(s, false)
    else
      var s1 := StopEmitter(s, t, r);
      var (p, rc) := s1.dds.DeleteReader(s1.topics[t].subscriber, h);
      if !env.containedOk || rc != RETCODE_OK then Step(s1, false)
      else
        var description := s1.dds.entities[h].description;
        var existing := FilterNameOf(s1.dds, description);
        var s2 := DropFilter(s1.(dds := p), t, description, env.filterDeleteOk);
        Rebuild(s2, t, r, filter, NextFilterName(t, r, existing), env)
  }

  /** With the old reader gone: a new filtered topic if one is asked for, then the new reader. */
  function Rebuild(s: Registry, t: string, r: string, filter: string, name: string, env: ReplaceEnv): Step
    requires t in s.topics && r in s.topics[t].readerListeners
  {
    if filter == "" then FinishReplace(s, t, r, s.topics[t].topic, env)
    else
      var (s3, f) := AddFilter(s, t, name, filter, env.filterOk);
      if f == NIL then Step(s3, false) else FinishReplace(s3, t, r, f, env)
  }

  function FinishReplace(s: Registry, t: string, r: string, description: Handle, env: ReplaceEnv): Step
    requires t in s.topics && r in s.topics[t].readerListeners
  {
    var step := RecreateReader(s, t, r, description, env.readerOk);
    if step.result then Step(RestartEmitter(step.next, t, r, env.attached), true) else step
  }

  // ---- callbacks and handlers ----

  function AddCallback(s: Registry, t: string, r: string, messageType: nat, func: nat,
                       queue: bool, async: bool, attached: bool): Step
  {
    var h := GetReader(s, t, r);
    if h == NIL then Step(s, false)
    else
      var g := s.topics[t];
      var e := (if r in g.emitters then g.emitters[r] else NewEmitter(h)).AddCallback(messageType, func).SetAsync(async);
      Step(Put(s, t, g.(emitters := g.emitters[r := if queue then e else e.Run(attached)])), true)
  }

  function WithHandler(listeners: map<nat, nat>, ls: set<nat>, handler: nat): map<nat, nat> {
    map l | l in listeners :: if l in ls then handler else listeners[l]
  }

  function ReaderListeners(s: Registry): set<nat> {
    set t, r | t in s.topics && r in s.topics[t].readerListeners :: s.topics[t].readerListeners[r]
  }

  function SetReaderListenerHandler(s: Registry, handler: nat): Registry {
    s.(rlHandler := handler, listeners := WithHandler(s.listeners, ReaderListeners(s), handler))
  }

  /** Null dereference, or the new state. */
  datatype HandlerOutcome = Crashed | HandlerSet(next: Registry)

  /** The source dereferences every group's writer listener. */
  function SetWriterListenerHandler(s: Registry, handler: nat): HandlerOutcome {
    var ls := set t | t in s.topics :: s.topics[t].writerListener;
    if NIL in ls then Crashed
    else HandlerSet(s.(wlHandler := handler, listeners := WithHandler(s.listeners, ls, handler)))
  }

  // ---- unregisterTopic ----

  /** The handles of hs that delete_datareader accepts on the given subscriber. */
  function Deletable(p: Participant, subscriber: Handle, hs: set<Handle>): set<Handle> {
    set h | h in hs && h in p.entities && p.entities[h].Reader?
            && p.entities[h].subscriber == subscriber && h !in p.loans
  }

  /** The handles of hs that delete_contentfilteredtopic accepts. */
  function Unreferenced(p: Participant, hs: set<Handle>): set<Handle> {
    set h | h in hs && h in p.entities && !p.Referenced(h) && h !in p.loans
  }

  function Remove(p: Participant, hs: set<Handle>): Participant {
    p.(entities := p.entities - hs)
  }

  /** ~TopicGroup on the participant; the result says whether every delete returned OK. */
  function Teardown(p: Participant, g: Group): (Participant, bool) {
    var readers := if g.subscriber != NIL then g.readers.Values else {};
    var gone := Deletable(p, g.subscriber, readers);
    var p1 := Remove(p, gone);
    var (p2, ok2) := DeleteIf(p1, g.publisher != NIL, g.writer);
    var (p3, ok3) := DeleteIf(p2, g.domain, g.publisher);
    var (p4, ok4) := DeleteIf(p3, g.domain, g.subscriber);
    var filters := if g.domain then g.filteredTopics.Values else {};
    var dropped := Unreferenced(p4, filters);
    var p5 := Remove(p4, dropped);
    var (p6, ok6) := DeleteIf(p5, g.domain, g.topic);
    (p6, gone == readers && ok2 && ok3 && ok4 && dropped == filters && ok6)
  }

  function DeleteIf(p: Participant, cond: bool, h: Handle): (Participant, bool) {
    if cond && h != NIL then var (q, rc) := p.Delete(h); (q, rc == RETCODE_OK) else (p, true)
  }

  /** The listener objects a group owns; they go after the destructor's body. */
  function OwnListeners(g: Group): set<nat> {
    {g.topicListener, g.writerListener} + g.readerListeners.Values
  }

  /** A step, with the destructor's report: clean if it printed no error, and the emitters
      as it stopped them before it freed them. */
  datatype Unregistered = Unregistered(next: Registry, result: bool, clean: bool, stopped: map<string, EmitterState>)

  function Stopped(emitters: map<string, EmitterState>): map<string, EmitterState> {
    map r | r in emitters :: emitters[r].Stop()
  }

  function UnregisterTopic(s: Registry, t: string): Unregistered {
    if t !in s.topics then Unregistered(s, false, true, map[])
    else
      var g := s.topics[t];
      var (p, clean) := Teardown(s.dds, g);
      Unregistered(s.(topics := s.topics - {t}, dds := p, listeners := s.listeners - OwnListeners(g)),
                   true, clean, Stopped(g.emitters))
  }
}
