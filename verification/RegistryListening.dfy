/**
  Which emitters listen, over whole runs: a replaceFilter that fails stops a listening emitter
  for good, and a later addCallback reports success without anything listening.
*/
module RegistryListening {
  import opened Dds
  import opened Emitters
  import opened RegistrySpec
  import opened RegistryInvariant
  import opened RegistrySteps
  import opened RegistryTeardown
  import opened RegistryOperations
  import opened RegistryRuns
  import opened RegistryReplace
  import opened RegistryFrame

  /** The emitter of a reader: none; not started; listening; started, but its thread gave up before
      its loop; or with a nil reader, so that no thread can listen. */
  datatype Ear = NoEmitter | Idle | Listens | GaveUp | Deaf

  function EarOf(s: Registry, t: string, r: string): Ear {
    if r in EmittersOf(s, t) then EarIn(EmittersOf(s, t)[r]) else NoEmitter
  }

  function EarIn(e: EmitterState): Ear {
    if e.reader == NIL then Deaf
    else match e.thread
      case NoThread => Idle
      case Listening => Listens
      case Returned => GaveUp
  }

  /** addCallback on a recorded reader makes an emitter that is missing, and starts one that can be. */
  function Called(ear: Ear, queue: bool, attached: bool): Ear {
    match ear
    case NoEmitter => if queue then Idle else Started(attached)
    case Idle => if queue then Idle else Started(attached)
    case _ => ear
  }

  function Started(attached: bool): Ear {
    if attached then Listens else GaveUp
  }

  /** replaceFilter on a recorded reader stops the emitter, and points it at the new reader if it succeeds. */
  function Replaced(ear: Ear, success: bool, attached: bool): Ear {
    match ear
    case NoEmitter => NoEmitter
    case Listens => if success then Started(attached) else Deaf
    case GaveUp => if success then Started(attached) else Idle
    case _ => if success then Started(attached) else ear
  }

  function NextEar(s: Registry, op: Op, t: string, r: string, ear: Ear): Ear {
    match op
    case Listen(x, q, _, _, queue, _, attached) =>
      if (x, q) == (t, r) && GetReader(s, t, r) != NIL then Called(ear, queue, attached) else ear
    case Refilter(x, q, filter, env) =>
      if (x, q) == (t, r) && GetReader(s, t, r) != NIL
      then Replaced(ear, ReplaceFilter(s, t, r, filter, env).result, env.attached) else ear
    case Unregister(x) => if x == t then NoEmitter else ear
    case _ => ear
  }

  ghost function EarAfter(s: Registry, ops: seq<Op>, t: string, r: string, ear: Ear): Ear
    requires Legal(s, ops)
    decreases |ops|
  {
    if ops == [] then ear else EarAfter(Apply(s, ops[0]), ops[1..], t, r, NextEar(s, ops[0], t, r, ear))
  }

  // ---- one call ----

  lemma CalledEar(e: EmitterState, messageType: nat, func: nat, queue: bool, async: bool, attached: bool)
    requires e.Consistent()
    ensures var e' := e.AddCallback(messageType, func).SetAsync(async);
            EarIn(if queue then e' else e'.Run(attached)) == Called(EarIn(e), queue, attached)
  {
  }

  lemma StoppedEar(e: EmitterState)
    requires e.Consistent()
    ensures EarIn(if e.running then e.Stop() else e) == Replaced(EarIn(e), false, false)
  {
  }

  lemma CallbackMovesEar(s: Registry, t: string, r: string, messageType: nat, func: nat, queue: bool, async: bool, attached: bool)
    requires Inv(s)
    ensures var step := AddCallback(s, t, r, messageType, func, queue, async, attached);
            && (step.result <==> GetReader(s, t, r) != NIL)
            && EarOf(step.next, t, r) == if step.result then Called(EarOf(s, t, r), queue, attached) else EarOf(s, t, r)
  {
    var h := GetReader(s, t, r);
    if h != NIL {
      assert InvOf(s, t) && EmittersOk(s.topics[t]);
      hide Inv, InvOf;
      CalledEar(if r in s.topics[t].emitters then s.topics[t].emitters[r] else NewEmitter(h), messageType, func, queue, async, attached);
      assert EarIn(NewEmitter(h)) == Idle;
      hide EarIn;
    }
  }

  /** addCallback leaves the emitter listening, on the recorded reader, iff the reader is recorded and the
      emitter listened already, or is new or idle, is to be started, and its thread gets as far as its loop. */
  lemma AddCallbackListensIff(s: Registry, t: string, r: string, messageType: nat, func: nat,
                              queue: bool, async: bool, attached: bool)
    requires Inv(s)
    ensures var step := AddCallback(s, t, r, messageType, func, queue, async, attached);
            step.result && EarOf(step.next, t, r) == Listens
            <==> GetReader(s, t, r) != NIL
                 && (EarOf(s, t, r) == Listens || (EarOf(s, t, r) in {NoEmitter, Idle} && !queue && attached))
  {
    CallbackMovesEar(s, t, r, messageType, func, queue, async, attached);
  }

  /** stop() on a consistent emitter: what listened goes deaf. */
  lemma StopMovesEar(s: Registry, t: string, r: string)
    requires Inv(s) && t in s.topics
    ensures EarOf(StopEmitter(s, t, r), t, r) == Replaced(EarOf(s, t, r), false, false)
    ensures var ems := EmittersOf(StopEmitter(s, t, r), t); r in ems ==> !ems[r].running
  {
    assert InvOf(s, t) && EmittersOk(s.topics[t]);
    hide Inv, InvOf;
    if r in s.topics[t].emitters {
      StoppedEar(s.topics[t].emitters[r]);
      hide EarIn, Replaced;
    }
  }

  lemma FinishMovesEar(s: Registry, t: string, r: string, d: Handle, env: ReplaceEnv)
    requires t in s.topics && r in s.topics[t].readerListeners && 0 < s.dds.next
    requires r in s.topics[t].emitters ==> !s.topics[t].emitters[r].running
    ensures var step := FinishReplace(s, t, r, d, env);
            EarOf(step.next, t, r) == if step.result && EarOf(s, t, r) != NoEmitter then Started(env.attached) else EarOf(s, t, r)
  {
    var step := RecreateReader(s, t, r, d, env.readerOk);
    if step.result {
      assert step.next.topics[t].readers[r] == s.dds.next && step.next.topics[t].emitters == s.topics[t].emitters;
      hide RecreateReader;
    }
  }

  lemma RebuildMovesEar(s: Registry, t: string, r: string, filter: string, name: string, env: ReplaceEnv)
    requires t in s.topics && r in s.topics[t].readerListeners && 0 < s.dds.next
    requires r in s.topics[t].emitters ==> !s.topics[t].emitters[r].running
    ensures var step := Rebuild(s, t, r, filter, name, env);
            EarOf(step.next, t, r) == if step.result && EarOf(s, t, r) != NoEmitter then Started(env.attached) else EarOf(s, t, r)
  {
    var (s3, f) := AddFilter(s, t, name, filter, env.filterOk);
    assert t in s3.topics && r in s3.topics[t].readerListeners && 0 < s3.dds.next;
    assert s3.topics[t].emitters == s.topics[t].emitters;
    FinishMovesEar(s, t, r, s.topics[t].topic, env);
    FinishMovesEar(s3, t, r, f, env);
    hide FinishReplace, AddFilter;
  }

  lemma RefilterMovesEar(s: Registry, t: string, r: string, filter: string, env: ReplaceEnv)
    requires Inv(s) && GetReader(s, t, r) != NIL
    ensures var step := ReplaceFilter(s, t, r, filter, env);
            EarOf(step.next, t, r) == Replaced(EarOf(s, t, r), step.result, env.attached)
  {
    hide ReplaceFilter, Rebuild, EarIn;
    TwoHalves(s, t, r, filter, env);
    StopMovesEar(s, t, r);
    if Replaceable(s, t, r) && env.containedOk {
      var d := DescriptionOf(s, t, r);
      var drop := s.dds.entities[d].FilteredTopic? && env.filterDeleteOk;
      var s2 := TakenDown(s, t, r, s.topics[t].readers[r], d, drop);
      FirstHalfKeepsBase(s, t, r, drop);
      assert EmittersOf(s2, t) == EmittersOf(StopEmitter(s, t, r), t);
      hide StopEmitter, Inv;
      RebuildMovesEar(s2, t, r, filter, NextFilterName(t, r, FilterNameOf(s.dds, d)), env);
    }
  }

  // ---- whole runs ----

  lemma OthersKeepEmitter(s: Registry, op: Op, t: string, r: string)
    requires Inv(s) && Enabled(s, op) && op != Unregister(t)
    requires !((op.Listen? || op.Refilter?) && (op.t, op.r) == (t, r))
    ensures EarOf(Apply(s, op), t, r) == EarOf(s, t, r)
  {
    hide EarIn;
    if op.Subscribe? && op.t == t {
      SubscribeChanges(s, t, op.r, op.filter, op.subscriberOk, op.filterOk, op.readerOk);
    } else if op.Listen? && op.t == t {
    } else if op.Refilter? && op.t == t {
      RefilterKeepsEmitter(s, t, op.r, op.filter, op.env, r);
    } else {
      ApplyKeepsRecords(s, op, t);
      hide Apply;
    }
  }

  lemma RefilterUnrecorded(s: Registry, t: string, r: string, filter: string, env: ReplaceEnv)
    requires GetReader(s, t, r) == NIL
    ensures ReplaceFilter(s, t, r, filter, env) == Step(s, false)
  {
  }

  lemma ApplyMovesEar(s: Registry, op: Op, t: string, r: string)
    requires Inv(s) && Enabled(s, op)
    ensures EarOf(Apply(s, op), t, r) == NextEar(s, op, t, r, EarOf(s, t, r))
  {
    hide EarOf, Inv, Called, Replaced, AddCallback, ReplaceFilter, GetReader;
    if op.Listen? && (op.t, op.r) == (t, r) {
      CallbackMovesEar(s, t, r, op.messageType, op.func, op.queue, op.async, op.attached);
    } else if op.Refilter? && (op.t, op.r) == (t, r) {
      if GetReader(s, t, r) != NIL {
        RefilterMovesEar(s, t, r, op.filter, op.env);
      } else {
        RefilterUnrecorded(s, t, r, op.filter, op.env);
      }
    } else if op == Unregister(t) {
      UnregisterForgetsEmitters(s, t, r);
    } else {
      OthersKeepEmitter(s, op, t, r);
    }
  }

  lemma UnregisterForgetsEmitters(s: Registry, t: string, r: string)
    ensures EarOf(UnregisterTopic(s, t).next, t, r) == NoEmitter
  {
    hide Teardown;
  }

  /** After any run an emitter is in the state its own addCallback and replaceFilter calls since its topic
      was last unregistered put it in. It is deaf iff one of these replaceFilter calls failed while it
      listened and none has succeeded since: addCallback then still returns true, and nothing listens. */
  lemma {:induction false} EarFollowsCalls(s: Registry, ops: seq<Op>, t: string, r: string)
    requires Inv(s) && Legal(s, ops)
    ensures EarOf(Run(s, ops), t, r) == EarAfter(s, ops, t, r, EarOf(s, t, r))
    decreases |ops|
  {
    if ops == [] {
    } else {
      hide Inv, EarOf, NextEar, Enabled, Apply;
      ApplyMovesEar(s, ops[0], t, r);
      ApplyInv(s, ops[0]);
      EarFollowsCalls(Apply(s, ops[0]), ops[1..], t, r);
    }
  }

  // ---- functions and mode ----

  function FunctionsOf(s: Registry, t: string, r: string, ty: nat): seq<nat> {
    if r in EmittersOf(s, t) then Registered(EmittersOf(s, t)[r].callbacks, ty) else []
  }

  predicate AsyncOf(s: Registry, t: string, r: string) {
    r in EmittersOf(s, t) && EmittersOf(s, t)[r].async
  }

  /** The functions the addCallback calls of a run give a reader for one message type, in order; only
      calls that find the reader count, and unregistering the topic forgets them. */
  ghost function FunctionsAfter(s: Registry, ops: seq<Op>, t: string, r: string, ty: nat, funcs: seq<nat>): seq<nat>
    requires Legal(s, ops)
    decreases |ops|
  {
    if ops == [] then funcs
    else FunctionsAfter(Apply(s, ops[0]), ops[1..], t, r, ty, NextFunctions(s, ops[0], t, r, ty, funcs))
  }

  function NextFunctions(s: Registry, op: Op, t: string, r: string, ty: nat, funcs: seq<nat>): seq<nat> {
    match op
    case Listen(x, q, messageType, func, _, _, _) =>
      if (x, q, messageType) == (t, r, ty) && GetReader(s, t, r) != NIL then funcs + [func] else funcs
    case Unregister(x) => if x == t then [] else funcs
    case _ => funcs
  }

  /** The mode the last of these calls asks for. */
  ghost predicate AsyncAfter(s: Registry, ops: seq<Op>, t: string, r: string, on: bool)
    requires Legal(s, ops)
    decreases |ops|
  {
    if ops == [] then on else AsyncAfter(Apply(s, ops[0]), ops[1..], t, r, NextAsync(s, ops[0], t, r, on))
  }

  predicate NextAsync(s: Registry, op: Op, t: string, r: string, on: bool) {
    match op
    case Listen(x, q, _, _, _, async, _) => if (x, q) == (t, r) && GetReader(s, t, r) != NIL then async else on
    case Unregister(x) => x != t && on
    case _ => on
  }

  /** The emitter has the same functions and the same mode. */
  predicate SameDelivery(s: Registry, s': Registry, t: string, r: string) {
    && (r in EmittersOf(s', t) <==> r in EmittersOf(s, t))
    && (r in EmittersOf(s, t) ==>
          && EmittersOf(s', t)[r].callbacks == EmittersOf(s, t)[r].callbacks
          && EmittersOf(s', t)[r].async == EmittersOf(s, t)[r].async)
  }

  lemma CallbackAddsFunction(s: Registry, t: string, r: string, messageType: nat, func: nat,
                             queue: bool, async: bool, attached: bool, ty: nat)
    ensures var s' := AddCallback(s, t, r, messageType, func, queue, async, attached).next;
            if GetReader(s, t, r) == NIL then SameDelivery(s, s', t, r)
            else
              && FunctionsOf(s', t, r, ty) == FunctionsOf(s, t, r, ty) + (if messageType == ty then [func] else [])
              && AsyncOf(s', t, r) == async
  {
  }

  lemma RefilterKeepsDelivery(s: Registry, t: string, r: string, filter: string, env: ReplaceEnv)
    ensures SameDelivery(s, ReplaceFilter(s, t, r, filter, env).next, t, r)
  {
    var h := GetReader(s, t, r);
    if h != NIL && s.topics[t].subscriber != NIL && r in s.topics[t].readerListeners {
      var s1 := StopEmitter(s, t, r);
      StopKeepsDelivery(s, t, r);
      var (p, rc) := s1.dds.DeleteReader(s1.topics[t].subscriber, h);
      if rc == RETCODE_OK {
        var d := s1.dds.entities[h].description;
        var s2 := DropFilter(s1.(dds := p), t, d, env.filterDeleteOk);
        DropKeepsEmitters(s1.(dds := p), t, r, d, env.filterDeleteOk);
        RebuildKeepsDelivery(s2, t, r, filter, NextFilterName(t, r, FilterNameOf(s1.dds, d)), env);
      }
      hide StopEmitter, DropFilter, Rebuild, EmittersOf;
    }
  }

  lemma StopKeepsDelivery(s: Registry, t: string, r: string)
    requires t in s.topics
    ensures t in StopEmitter(s, t, r).topics && SameDelivery(s, StopEmitter(s, t, r), t, r)
    ensures StopEmitter(s, t, r).topics[t].readerListeners == s.topics[t].readerListeners
  {
  }

  lemma DropKeepsEmitters(s: Registry, t: string, r: string, d: Handle, accept: bool)
    requires t in s.topics
    ensures t in DropFilter(s, t, d, accept).topics && EmittersOf(DropFilter(s, t, d, accept), t) == EmittersOf(s, t)
    ensures DropFilter(s, t, d, accept).topics[t].readerListeners == s.topics[t].readerListeners
  {
  }

  lemma RebuildKeepsDelivery(s: Registry, t: string, r: string, filter: string, name: string, env: ReplaceEnv)
    requires t in s.topics && r in s.topics[t].readerListeners
    ensures SameDelivery(s, Rebuild(s, t, r, filter, name, env).next, t, r)
  {
    CreationChanges(s, t, r, true, name, filter, NIL, env.filterOk, true);
    var (s3, f) := AddFilter(s, t, name, filter, env.filterOk);
    FinishKeepsDelivery(s, t, r, s.topics[t].topic, env);
    FinishKeepsDelivery(s3, t, r, f, env);
    hide FinishReplace, EmittersOf;
  }

  lemma FinishKeepsDelivery(s: Registry, t: string, r: string, d: Handle, env: ReplaceEnv)
    requires t in s.topics && r in s.topics[t].readerListeners
    ensures SameDelivery(s, FinishReplace(s, t, r, d, env).next, t, r)
  {
  }

  lemma OthersKeepDelivery(s: Registry, op: Op, t: string, r: string)
    requires Enabled(s, op) && op != Unregister(t) && !(op.Listen? && (op.t, op.r) == (t, r))
    ensures SameDelivery(s, Apply(s, op), t, r)
  {
    if op.Subscribe? && op.t == t {
      SubscribeChanges(s, t, op.r, op.filter, op.subscriberOk, op.filterOk, op.readerOk);
      hide Apply;
    } else if op.Listen? && op.t == t {
    } else if op.Refilter? && op.t == t {
      if op.r == r {
        RefilterKeepsDelivery(s, t, r, op.filter, op.env);
      } else {
        RefilterKeepsEmitter(s, t, op.r, op.filter, op.env, r);
      }
    } else {
      ApplyKeepsRecords(s, op, t);
      hide Apply;
    }
  }

  lemma ApplyMovesFunctions(s: Registry, op: Op, t: string, r: string, ty: nat)
    requires Enabled(s, op)
    ensures FunctionsOf(Apply(s, op), t, r, ty) == NextFunctions(s, op, t, r, ty, FunctionsOf(s, t, r, ty))
    ensures AsyncOf(Apply(s, op), t, r) == NextAsync(s, op, t, r, AsyncOf(s, t, r))
  {
    hide AddCallback, ReplaceFilter, GetReader;
    if op.Listen? && (op.t, op.r) == (t, r) {
      CallbackAddsFunction(s, t, r, op.messageType, op.func, op.queue, op.async, op.attached, ty);
    } else if op == Unregister(t) {
      UnregisterForgetsEmitters(s, t, r);
    } else {
      OthersKeepDelivery(s, op, t, r);
      hide Apply;
    }
  }

  /** After any run an emitter has, for every message type, the functions that addCallback calls gave its
      reader since the topic was last unregistered, in order, and the mode the last of them asked for;
      replaceFilter and all other operations leave both alone. */
  lemma {:induction false} EmitterKeepsFunctions(s: Registry, ops: seq<Op>, t: string, r: string, ty: nat)
    requires Legal(s, ops)
    ensures FunctionsOf(Run(s, ops), t, r, ty) == FunctionsAfter(s, ops, t, r, ty, FunctionsOf(s, t, r, ty))
    ensures AsyncOf(Run(s, ops), t, r) == AsyncAfter(s, ops, t, r, AsyncOf(s, t, r))
    decreases |ops|
  {
    if ops == [] {
    } else {
      hide FunctionsOf, AsyncOf, NextFunctions, NextAsync, Enabled, Apply;
      ApplyMovesFunctions(s, ops[0], t, r, ty);
      EmitterKeepsFunctions(Apply(s, ops[0]), ops[1..], t, r, ty);
    }
  }
}
