/**
  What the calls to the user say: the log of a run, told from the samples alone.
*/
module MonitorLog {
  import opened Guids
  import opened Monitor
  import opened MonitorMerge
  import opened MonitorReplay

  /** What the user is told of the last sample: what the samples so far say of its GUID, or, if it is gone,
      what they said before. */
  function Told(w: Writing, samples: seq<Sample>): Callback
    requires samples != []
  {
    var s, before := samples[|samples| - 1], samples[..|samples| - 1];
    if s.valid then Added(InfoAfter(w, ParticipantInfo(w(s.key), "", ""), samples, s.key))
    else Removed(InfoAfter(w, ParticipantInfo(w(s.key), "", ""), before, s.key))
  }

  /** With both functions set there is one call for each sample, and it tells the participant's text, the
      last timestamp and the last flagged address since it was last gone. */
  lemma {:induction false} CallsTellSamples(w: Writing, samples: seq<Sample>, i: nat)
    requires i < |samples|
    ensures var calls := Run(w, START, samples, BOTH).calls;
            && |calls| == |samples| && calls[i] == Told(w, samples[..i + 1])
            && calls[..i] == Run(w, START, samples[..i], BOTH).calls
  {
    var n := |samples| - 1;
    var front := samples[..n];
    LogGrows(w, front);
    if i == n {
      LastCallTells(w, samples);
      assert samples[..i + 1] == samples;
    } else {
      CallsTellSamples(w, front, i);
      assert front[..i + 1] == samples[..i + 1] && front[..i] == samples[..i];
    }
  }

  lemma {:induction false} LogGrows(w: Writing, samples: seq<Sample>)
    ensures |Run(w, START, samples, BOTH).calls| == |samples|
  {
    if samples == [] {
    } else {
      LogGrows(w, samples[..|samples| - 1]);
    }
  }

  lemma LastCallTells(w: Writing, samples: seq<Sample>)
    requires samples != []
    ensures var n := |samples| - 1;
            Run(w, START, samples, BOTH).calls == Run(w, START, samples[..n], BOTH).calls + [Told(w, samples)]
  {
    var n := |samples| - 1;
    RunAt(w, START, samples[..n], BOTH, samples[n].key);
    RunAt(w, START, samples, BOTH, samples[n].key);
  }

  /** A removal carries what the last call about that text said, if that was not a removal too; else
      it carries nothing but the text. */
  lemma RemovalsTellLastCall(w: Writing, samples: seq<Sample>, guids: set<Guid>, i: nat)
    requires TextsDiffer(w, guids) && Keys(samples) <= guids
    requires i < |Run(w, START, samples, BOTH).calls| && Run(w, START, samples, BOTH).calls[i].Removed?
    ensures var calls := Run(w, START, samples, BOTH).calls;
            match LastCall(calls[..i], calls[i].info.id.guid)
            case Present(info) => calls[i].info == info
            case Absent => calls[i].info.location == "" && calls[i].info.discoveredTimestamp == ""
  {
    LogGrows(w, samples);
    var calls, key, before := Run(w, START, samples, BOTH).calls, samples[i].key, samples[..i];
    CallsTellSamples(w, samples, i);
    KeysOfPrefix(samples, i);
    ReplayRebuildsMap(w, before, guids);
    ReplayIsLastCalls(calls[..i], w(key).guid);
    RunAt(w, START, before, BOTH, key);
    assert samples[..i + 1][..i] == before;
  }

  lemma {:induction false} KeysOfPrefix(samples: seq<Sample>, i: nat)
    requires i < |samples|
    ensures samples[i].key in Keys(samples) && Keys(samples[..i]) <= Keys(samples)
  {
    var n := |samples| - 1;
    if i < n {
      KeysOfPrefix(samples[..n], i);
      assert samples[..n][..i] == samples[..i];
    }
  }

  // ---- a function that is not set ----

  /** The calls made to the functions that are set. */
  function Heard(calls: seq<Callback>, hooks: Hooks): seq<Callback> {
    if calls == [] then []
    else
      var n := |calls| - 1;
      match calls[n]
      case Added(_) => if hooks.add then Heard(calls[..n], hooks) + [calls[n]] else Heard(calls[..n], hooks)
      case Removed(_) => if hooks.remove then Heard(calls[..n], hooks) + [calls[n]] else Heard(calls[..n], hooks)
  }

  /** Whichever functions are set, the map is the same and the log is that of both, without the calls of
      the function that is not set. */
  lemma {:induction false} UnsetFunctionsAreLeftOut(w: Writing, samples: seq<Sample>, hooks: Hooks)
    ensures var both, some := Run(w, START, samples, BOTH), Run(w, START, samples, hooks);
            some.infos == both.infos && some.calls == Heard(both.calls, hooks)
  {
    if samples == [] {
    } else {
      var n := |samples| - 1;
      UnsetFunctionsAreLeftOut(w, samples[..n], hooks);
      var before := Run(w, START, samples[..n], BOTH);
      var call := CallFor(w, before.infos, samples[n]);
      assert Run(w, START, samples, BOTH).calls == before.calls + [call];
      assert (before.calls + [call])[..|before.calls|] == before.calls;
    }
  }
}
