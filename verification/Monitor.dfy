/**
  ParticipantMonitor: two listeners merge their samples into one map under a mutex
  and call the user back after releasing it.
*/
module Monitor {

  import opened Guids

  datatype ParticipantInfo = ParticipantInfo(id: GuidText, location: string, discoveredTimestamp: string)

  /** One sample of either built-in topic; stamp is the formatted source timestamp. */
  datatype Sample =
    | ParticipantSample(key: Guid, valid: bool, stamp: string)
    | LocationSample(key: Guid, valid: bool, local: bool, local6: bool, localAddr: string, local6Addr: string)

  datatype Callback = Added(info: ParticipantInfo) | Removed(info: ParticipantInfo)

  type InfoMap = map<Guid, ParticipantInfo>

  // ---- one sample ----

  function NewInfo(w: Writing, g: Guid): ParticipantInfo {
    ParticipantInfo(w(g), "", "")
  }

  function InfoFor(w: Writing, m: InfoMap, g: Guid): ParticipantInfo {
    if g in m then m[g] else NewInfo(w, g)
  }

  predicate Locates(s: Sample) {
    s.LocationSample? && (s.local || s.local6)
  }

  /** The IPv4 address wins when both are flagged. */
  function LocationOf(s: Sample): string
    requires Locates(s)
  {
    if s.local then s.localAddr else s.local6Addr
  }

  function Updated(info: ParticipantInfo, s: Sample): ParticipantInfo {
    if s.ParticipantSample? then info.(discoveredTimestamp := s.stamp)
    else if Locates(s) then info.(location := LocationOf(s)) else info
  }

  function Apply(w: Writing, m: InfoMap, s: Sample): InfoMap {
    if s.valid then m[s.key := Updated(InfoFor(w, m, s.key), s)] else m - {s.key}
  }

  /** The callback a sample leads to; a removal is reported even for an unknown participant. */
  function CallFor(w: Writing, m: InfoMap, s: Sample): Callback {
    if s.valid then Added(Updated(InfoFor(w, m, s.key), s)) else Removed(InfoFor(w, m, s.key))
  }

  /** The monitor's map and the calls it has made to the user. */
  datatype MonitorState = MonitorState(infos: InfoMap, calls: seq<Callback>)

  const START := MonitorState(map[], [])

  /** Which of the user's two functions are set. */
  datatype Hooks = Hooks(add: bool, remove: bool)

  const BOTH := Hooks(true, true)

  function Reported(call: Callback, hooks: Hooks): seq<Callback> {
    if (if call.Added? then hooks.add else hooks.remove) then [call] else []
  }

  function Step(w: Writing, st: MonitorState, s: Sample, hooks: Hooks): MonitorState {
    MonitorState(Apply(w, st.infos, s), st.calls + Reported(CallFor(w, st.infos, s), hooks))
  }

  function Run(w: Writing, st: MonitorState, samples: seq<Sample>, hooks: Hooks): MonitorState {
    if samples == [] then st
    else Step(w, Run(w, st, samples[..|samples| - 1], hooks), samples[|samples| - 1], hooks)
  }

  class ParticipantMonitor {
    var m_info_map: InfoMap
    /** The calls made to the user so far. */
    var calls: seq<Callback>
    const hooks: Hooks

    function State(): MonitorState
      reads this
    {
      MonitorState(m_info_map, calls)
    }

    constructor (hooks: Hooks)
      ensures State() == START && this.hooks == hooks
    {
      m_info_map, calls, this.hooks := map[], [], hooks;
    }

    /** Four bytes from the last one down. */
    static method WriteHex(key: Guid, low: nat) returns (text: string)
      requires low <= 12
      ensures text == HexReversed(key[low..low + 4])
    {
      text := "";
      for j := low + 4 downto low
        invariant text + HexReversed(key[low..j]) == HexReversed(key[low..low + 4])
      {
        HexLast(key[low..j + 1]);
        assert key[low..j + 1][..j - low] == key[low..j];
        text := text + HexByte(key[j]);
      }
    }

    static method MakeInfo(key: Guid) returns (info: ParticipantInfo)
      ensures info == NewInfo(FormatGuid, key)
    {
      var hostID := WriteHex(key, 0);
      var appID := WriteHex(key, 4);
      var instanceID := WriteHex(key, 8);
      info := ParticipantInfo(GuidText(hostID + "." + appID + "." + instanceID, hostID, appID, instanceID), "", "");
    }

    method Report(valid: bool, info: ParticipantInfo)
      modifies `calls
      ensures calls == old(calls) + Reported(if valid then Added(info) else Removed(info), hooks)
    {
      if valid {
        if hooks.add {
          calls := calls + [Added(info)];
        }
      } else if hooks.remove {
        calls := calls + [Removed(info)];
      }
    }

    method HandleParticipant(s: Sample)
      requires s.ParticipantSample?
      modifies this
      ensures State() == Step(FormatGuid, old(State()), s, hooks)
    {
      var info;
      if s.key in m_info_map {
        info := m_info_map[s.key];
      } else {
        info := MakeInfo(s.key);
      }
      if s.valid {
        info := info.(discoveredTimestamp := s.stamp);
        m_info_map := m_info_map[s.key := info];
      } else if s.key in m_info_map {
        m_info_map := m_info_map - {s.key};
      }
      Report(s.valid, info);
    }

    /** msgList holds the samples taken; a reader of another type is ignored. */
    method OnParticipantDataAvailable(narrowed: bool, msgList: seq<Sample>)
      requires forall i :: 0 <= i < |msgList| ==> msgList[i].ParticipantSample?
      modifies this
      ensures State() == Run(FormatGuid, old(State()), if narrowed then msgList else [], hooks)
    {
      if !narrowed {
        return;
      }
      for i := 0 to |msgList|
        invariant State() == Run(FormatGuid, old(State()), msgList[..i], hooks)
      {
        assert msgList[..i + 1][..i] == msgList[..i];
        HandleParticipant(msgList[i]);
      }
      assert msgList[..|msgList|] == msgList;
    }

    method HandleLocation(s: Sample)
      requires s.LocationSample?
      modifies this
      ensures State() == Step(FormatGuid, old(State()), s, hooks)
    {
      var info;
      if s.key in m_info_map {
        info := m_info_map[s.key];
      } else {
        info := MakeInfo(s.key);
      }
      if s.valid {
        if s.local {
          info := info.(location := s.localAddr);
        } else if s.local6 {
          info := info.(location := s.local6Addr);
        }
        m_info_map := m_info_map[s.key := info];
      } else if s.key in m_info_map {
        m_info_map := m_info_map - {s.key};
      }
      Report(s.valid, info);
    }

    method OnParticipantLocationDataAvailable(narrowed: bool, msgList: seq<Sample>)
      requires forall i :: 0 <= i < |msgList| ==> msgList[i].LocationSample?
      modifies this
      ensures State() == Run(FormatGuid, old(State()), if narrowed then msgList else [], hooks)
    {
      if !narrowed {
        return;
      }
      for i := 0 to |msgList|
        invariant State() == Run(FormatGuid, old(State()), msgList[..i], hooks)
      {
        assert msgList[..i + 1][..i] == msgList[..i];
        HandleLocation(msgList[i]);
      }
      assert msgList[..|msgList|] == msgList;
    }
  }
}
