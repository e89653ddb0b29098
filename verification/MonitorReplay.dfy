/**
  Replaying the monitor's callbacks: when a user who keeps a table from them ends with
  the monitor's map.
*/
module MonitorReplay {
  import opened Guids
  import opened Monitor

  function Keys(samples: seq<Sample>): set<Guid> {
    if samples == [] then {} else Keys(samples[..|samples| - 1]) + {samples[|samples| - 1].key}
  }

  /** A user who keeps a table by info.guid: put on add, delete on remove. */
  function Replay(calls: seq<Callback>): map<string, ParticipantInfo> {
    if calls == [] then map[] else ReplayOne(Replay(calls[..|calls| - 1]), calls[|calls| - 1])
  }

  function ReplayOne(table: map<string, ParticipantInfo>, call: Callback): map<string, ParticipantInfo> {
    if call.Added? then table[call.info.id.guid := call.info] else table - {call.info.id.guid}
  }

  /** The table holds exactly the map's entries, under their GUID texts. */
  ghost predicate Mirrors(w: Writing, table: map<string, ParticipantInfo>, m: InfoMap) {
    && (forall g :: g in m ==> w(g).guid in table && table[w(g).guid] == m[g])
    && (forall text :: text in table ==> exists g :: g in m && w(g).guid == text)
  }

  ghost predicate TextsDiffer(w: Writing, guids: set<Guid>) {
    forall g, h :: g in guids && h in guids && w(g).guid == w(h).guid ==> g == h
  }

  /** No two of these GUIDs agree on their first twelve bytes. */
  ghost predicate TwelveBytesDiffer(guids: set<Guid>) {
    forall g, h :: g in guids && h in guids && g[..12] == h[..12] ==> g == h
  }

  ghost predicate TextsMatch(w: Writing, m: InfoMap) {
    forall g :: g in m ==> m[g].id == w(g)
  }

  /** Replaying the callbacks of this run rebuilds the map. */
  ghost predicate Rebuilds(w: Writing, samples: seq<Sample>) {
    var end := Run(w, START, samples, BOTH); Mirrors(w, Replay(end.calls), end.infos)
  }

  lemma {:induction false} ReplayRebuildsMap(w: Writing, samples: seq<Sample>, guids: set<Guid>)
    requires TextsDiffer(w, guids) && Keys(samples) <= guids
    ensures Rebuilds(w, samples)
    ensures TextsMatch(w, Run(w, START, samples, BOTH).infos) && Run(w, START, samples, BOTH).infos.Keys <= Keys(samples)
  {
    if samples == [] {
    } else {
      var n := |samples| - 1;
      ReplayRebuildsMap(w, samples[..n], guids);
      var before, end := Run(w, START, samples[..n], BOTH), Run(w, START, samples, BOTH);
      assert end.calls[..|end.calls| - 1] == before.calls;
      MirrorsStep(w, Replay(before.calls), before.infos, samples[n], guids);
    }
  }

  lemma {:induction false} MirrorsStep(w: Writing, table: map<string, ParticipantInfo>, m: InfoMap, s: Sample, guids: set<Guid>)
    requires Mirrors(w, table, m) && TextsMatch(w, m)
    requires TextsDiffer(w, guids) && m.Keys <= guids && s.key in guids
    ensures Mirrors(w, ReplayOne(table, CallFor(w, m, s)), Apply(w, m, s)) && TextsMatch(w, Apply(w, m, s))
  {
    var text, m' := w(s.key).guid, Apply(w, m, s);
    var info := CallFor(w, m, s).info;
    assert info.id.guid == text && m' == (if s.valid then m[s.key := info] else m - {s.key});
    if s.valid {
      PutMirrors(w, table, m, s.key, info, guids);
    } else {
      RemoveMirrors(w, table, m, s.key, guids);
    }
  }

  lemma PutMirrors(w: Writing, table: map<string, ParticipantInfo>, m: InfoMap, k: Guid, info: ParticipantInfo, guids: set<Guid>)
    requires Mirrors(w, table, m) && TextsDiffer(w, guids) && m.Keys <= guids && k in guids
    ensures Mirrors(w, table[w(k).guid := info], m[k := info])
  {
    var m', table' := m[k := info], table[w(k).guid := info];
    forall t | t in table' ensures exists g :: g in m' && w(g).guid == t {
      if t == w(k).guid {
        assert k in m';
      } else {
        var g :| g in m && w(g).guid == t;
        assert g in m';
      }
    }
  }

  lemma RemoveMirrors(w: Writing, table: map<string, ParticipantInfo>, m: InfoMap, k: Guid, guids: set<Guid>)
    requires Mirrors(w, table, m) && TextsDiffer(w, guids) && m.Keys <= guids && k in guids
    ensures Mirrors(w, table - {w(k).guid}, m - {k})
  {
    var m', table' := m - {k}, table - {w(k).guid};
    forall t | t in table' ensures exists g :: g in m' && w(g).guid == t {
      var g :| g in m && w(g).guid == t;
      assert g in m';
    }
  }

  /** Replaying the callbacks rebuilds the map in every serialized run over these
      participants iff no two of them have the same text. */
  lemma {:induction false} ReplayWorksIffTextsDiffer(w: Writing, guids: set<Guid>)
    ensures (forall samples :: Keys(samples) <= guids ==> Rebuilds(w, samples)) <==> TextsDiffer(w, guids)
  {
    if TextsDiffer(w, guids) {
      forall samples | Keys(samples) <= guids ensures Rebuilds(w, samples) {
        ReplayRebuildsMap(w, samples, guids);
      }
    } else {
      var g, h :| g in guids && h in guids && w(g).guid == w(h).guid && g != h;
      TwinsShareAnEntry(w, g, h);
    }
  }

  lemma KeysOfPair(a: Sample, b: Sample)
    ensures Keys([a, b]) == {a.key, b.key}
  {
    assert [a, b][..1] == [a] && [a][..0] == [];
    assert Keys([a]) == {a.key};
  }

  lemma RunPair(w: Writing, st: MonitorState, a: Sample, b: Sample, hooks: Hooks)
    ensures Run(w, st, [a, b], hooks) == Step(w, Step(w, st, a, hooks), b, hooks)
  {
    assert [a, b][..1] == [a] && [a][..0] == [];
    assert Run(w, st, [a], hooks) == Step(w, st, a, hooks);
  }

  lemma TwinsShareAnEntry(w: Writing, g: Guid, h: Guid)
    requires g != h && w(g).guid == w(h).guid
    ensures exists samples :: Keys(samples) == {g, h} && !Rebuilds(w, samples)
  {
    var a, b := ParticipantSample(g, true, "a"), ParticipantSample(h, true, "b");
    KeysOfPair(a, b);
    RunPair(w, START, a, b, BOTH);
    var m := Run(w, START, [a, b], BOTH).infos;
    assert m[g].discoveredTimestamp == "a" && m[h].discoveredTimestamp == "b";
    assert !Rebuilds(w, [a, b]);
  }

  /** For the monitor's own texts: iff no two participants agree on their first twelve bytes. */
  lemma {:induction false} ReplayWorksIffTwelveBytesDiffer(guids: set<Guid>)
    ensures (forall samples :: Keys(samples) <= guids ==> Rebuilds(FormatGuid, samples)) <==> TwelveBytesDiffer(guids)
  {
    ReplayWorksIffTextsDiffer(FormatGuid, guids);
    forall g, h ensures FormatGuid(g).guid == FormatGuid(h).guid <==> g[..12] == h[..12] {
      GuidTextsEqual(g, h);
    }
  }

  // ---- callbacks in another order ----

  /** What the last call about a text says of it. */
  datatype Outcome = Absent | Present(info: ParticipantInfo)

  function LastCall(calls: seq<Callback>, text: string): Outcome {
    if calls == [] then Absent
    else
      var c := calls[|calls| - 1];
      if c.info.id.guid != text then LastCall(calls[..|calls| - 1], text)
      else if c.Added? then Present(c.info) else Absent
  }

  /** For every text the last calls about it say the same: the same entry, or none. */
  ghost predicate LastCallsAgree(a: seq<Callback>, b: seq<Callback>) {
    forall text :: LastCall(a, text) == LastCall(b, text)
  }

  lemma {:induction false} ReplayIsLastCalls(calls: seq<Callback>, text: string)
    ensures LastCall(calls, text) == if text in Replay(calls) then Present(Replay(calls)[text]) else Absent
  {
    if calls == [] {
    } else {
      ReplayIsLastCalls(calls[..|calls| - 1], text);
    }
  }

  lemma MirrorIsUnique(w: Writing, a: map<string, ParticipantInfo>, b: map<string, ParticipantInfo>, m: InfoMap)
    requires Mirrors(w, a, m)
    ensures Mirrors(w, b, m) <==> a == b
  {
    if Mirrors(w, b, m) {
      forall text ensures text in a <==> text in b {
      }
      forall text | text in a ensures a[text] == b[text] {
        var g :| g in m && w(g).guid == text;
      }
    }
  }

  /** The callbacks run after the mutex is released, so they may reach the user in another
      order than the map's updates. Whatever calls arrive, replaying them gives the map iff
      for every text the last call that arrived says what the last one made says. */
  lemma ReplayWorksIffLastCallsAgree(w: Writing, samples: seq<Sample>, guids: set<Guid>, calls: seq<Callback>)
    requires TextsDiffer(w, guids) && Keys(samples) <= guids
    ensures var end := Run(w, START, samples, BOTH);
            Mirrors(w, Replay(calls), end.infos) <==> LastCallsAgree(calls, end.calls)
  {
    var end := Run(w, START, samples, BOTH);
    ReplayRebuildsMap(w, samples, guids);
    MirrorIsUnique(w, Replay(end.calls), Replay(calls), end.infos);
    SameTablesIff(calls, end.calls);
  }

  lemma SameTablesIff(a: seq<Callback>, b: seq<Callback>)
    ensures Replay(a) == Replay(b) <==> LastCallsAgree(a, b)
  {
    forall text ensures SameEntry(Replay(a), Replay(b), text) <==> LastCall(a, text) == LastCall(b, text) {
      ReplayIsLastCalls(a, text);
      ReplayIsLastCalls(b, text);
    }
    assert Replay(a) == Replay(b) <==> forall text :: SameEntry(Replay(a), Replay(b), text) by {
      SameEntries(Replay(a), Replay(b));
    }
  }

  predicate SameEntry(a: map<string, ParticipantInfo>, b: map<string, ParticipantInfo>, text: string) {
    (text in a <==> text in b) && (text in a ==> a[text] == b[text])
  }

  lemma SameEntries(a: map<string, ParticipantInfo>, b: map<string, ParticipantInfo>)
    ensures a == b <==> forall text :: SameEntry(a, b, text)
  {
    if forall text :: SameEntry(a, b, text) {
      forall text ensures text in a <==> text in b {
        assert SameEntry(a, b, text);
      }
      forall text | text in a ensures a[text] == b[text] {
        assert SameEntry(a, b, text);
      }
    }
  }

  /** An order that goes wrong: a report made and then withdrawn, heard the other way round,
      leaves the user with a participant the map has lost. */
  lemma CallbacksOutOfOrder(w: Writing, a: Sample, b: Sample)
    requires a.ParticipantSample? && b.LocationSample? && a.key == b.key && a.valid && !b.valid
    ensures var end := Run(w, START, [a, b], BOTH);
            && |end.calls| == 2
            && Mirrors(w, Replay(end.calls), end.infos)
            && !Mirrors(w, Replay([end.calls[1], end.calls[0]]), end.infos)
  {
    RunPair(w, START, a, b, BOTH);
    var first, second := CallFor(w, map[], a), CallFor(w, Apply(w, map[], a), b);
    assert Run(w, START, [a, b], BOTH).calls == [first, second];
    ReplayPair(first, second);
    ReplayPair(second, first);
    assert Run(w, START, [a, b], BOTH).infos == map[];
    assert first.info.id.guid in Replay([second, first]);
    assert Replay([first, second]) == map[];
  }

  lemma ReplayPair(a: Callback, b: Callback)
    ensures Replay([a, b]) == ReplayOne(ReplayOne(map[], a), b)
  {
    assert [a, b][..1] == [a] && [a][..0] == [];
    assert Replay([a]) == ReplayOne(map[], a);
  }
}
