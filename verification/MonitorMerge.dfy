/**
  Merging the monitor's two sample streams: what every interleaving agrees on, and
  exactly when all interleavings of two streams end in the same map.
*/
module MonitorMerge {
  import opened Guids
  import opened Monitor

  function ParticipantPart(samples: seq<Sample>): seq<Sample> {
    if samples == [] then []
    else
      var n := |samples| - 1;
      if samples[n].ParticipantSample? then ParticipantPart(samples[..n]) + [samples[n]] else ParticipantPart(samples[..n])
  }

  function LocationPart(samples: seq<Sample>): seq<Sample> {
    if samples == [] then []
    else
      var n := |samples| - 1;
      if samples[n].LocationSample? then LocationPart(samples[..n]) + [samples[n]] else LocationPart(samples[..n])
  }

  /** z is some interleaving of the two streams. */
  ghost predicate Interleaves(z: seq<Sample>, participants: seq<Sample>, locations: seq<Sample>) {
    ParticipantPart(z) == participants && LocationPart(z) == locations
  }

  // ---- what samples do to one participant ----

  predicate Reported(samples: seq<Sample>, g: Guid) {
    samples != [] && (samples[|samples| - 1].key == g || Reported(samples[..|samples| - 1], g))
  }

  /** Some sample says that g is gone. */
  predicate HasGone(samples: seq<Sample>, g: Guid) {
    samples != []
    && ((samples[|samples| - 1].key == g && !samples[|samples| - 1].valid) || HasGone(samples[..|samples| - 1], g))
  }

  /** Whether g is known after the samples: what the last one about g says, or what it was. */
  predicate Here(samples: seq<Sample>, g: Guid, start: bool) {
    if samples == [] then start
    else if samples[|samples| - 1].key == g then samples[|samples| - 1].valid
    else Here(samples[..|samples| - 1], g, start)
  }

  /** The timestamp after the samples: the last one for g, empty since g was last gone, or what it was. */
  function StampAfter(samples: seq<Sample>, g: Guid, start: string): string {
    if samples == [] then start
    else
      var s, before := samples[|samples| - 1], StampAfter(samples[..|samples| - 1], g, start);
      if s.key != g then before
      else if !s.valid then ""
      else if s.ParticipantSample? then s.stamp else before
  }

  /** The location after one more sample. */
  function AddressOf(before: string, s: Sample, g: Guid): string {
    if s.key != g then before
    else if !s.valid then ""
    else match s
      case ParticipantSample(_, _, _) => before
      case LocationSample(_, _, local, local6, localAddr, local6Addr) =>
        if local then localAddr else if local6 then local6Addr else before
  }

  /** The same for the location: the last flagged address. */
  function AddressAfter(samples: seq<Sample>, g: Guid, start: string): string {
    if samples == [] then start
    else AddressOf(AddressAfter(samples[..|samples| - 1], g, start), samples[|samples| - 1], g)
  }

  function InfoAfter(w: Writing, info: ParticipantInfo, samples: seq<Sample>, g: Guid): ParticipantInfo {
    ParticipantInfo(if HasGone(samples, g) then w(g) else info.id,
                    AddressAfter(samples, g, info.location), StampAfter(samples, g, info.discoveredTimestamp))
  }

  lemma ApplyAt(w: Writing, m: InfoMap, s: Sample, g: Guid)
    ensures g in Apply(w, m, s) <==> if g == s.key then s.valid else g in m
    ensures InfoFor(w, Apply(w, m, s), g)
         == if g != s.key then InfoFor(w, m, g) else if s.valid then Updated(InfoFor(w, m, g), s) else NewInfo(w, g)
  {
  }

  /** What any samples leave for g. */
  lemma {:induction false} RunAt(w: Writing, st: MonitorState, z: seq<Sample>, hooks: Hooks, g: Guid)
    ensures g in Run(w, st, z, hooks).infos <==> Here(z, g, g in st.infos)
    ensures InfoFor(w, Run(w, st, z, hooks).infos, g) == InfoAfter(w, InfoFor(w, st.infos, g), z, g)
  {
    if z == [] {
    } else {
      var n := |z| - 1;
      RunAt(w, st, z[..n], hooks, g);
      ApplyAt(w, Run(w, st, z[..n], hooks).infos, z[n], g);
    }
  }

  // ---- from an interleaving to its parts ----

  lemma {:induction false} PartsHaveAll(z: seq<Sample>, g: Guid)
    ensures Reported(z, g) <==> Reported(ParticipantPart(z), g) || Reported(LocationPart(z), g)
    ensures HasGone(z, g) <==> HasGone(ParticipantPart(z), g) || HasGone(LocationPart(z), g)
  {
    if z == [] {
    } else {
      hide ParticipantPart, LocationPart;
      PartsHaveAll(z[..|z| - 1], g);
      LastOfParts(z);
    }
  }

  /** The parts of a sequence against those of all but its last sample. */
  lemma LastOfParts(z: seq<Sample>)
    requires z != []
    ensures var n, p, l := |z| - 1, ParticipantPart(z), LocationPart(z);
            if z[n].ParticipantSample?
            then p != [] && p[|p| - 1] == z[n] && p[..|p| - 1] == ParticipantPart(z[..n]) && l == LocationPart(z[..n])
            else l != [] && l[|l| - 1] == z[n] && l[..|l| - 1] == LocationPart(z[..n]) && p == ParticipantPart(z[..n])
  {
  }

  lemma {:induction false} HereByParts(z: seq<Sample>, g: Guid, start: bool)
    ensures !Reported(LocationPart(z), g) ==> Here(z, g, start) == Here(ParticipantPart(z), g, start)
    ensures !Reported(ParticipantPart(z), g) ==> Here(z, g, start) == Here(LocationPart(z), g, start)
    ensures Here(z, g, start) in {Here(ParticipantPart(z), g, start), Here(LocationPart(z), g, start)}
  {
    if z == [] {
    } else {
      hide ParticipantPart, LocationPart;
      HereByParts(z[..|z| - 1], g, start);
      LastOfParts(z);
    }
  }

  /** The location depends on the location stream alone while no participant sample says gone;
      once one does, it is what the location stream gives a new participant, or empty. */
  lemma {:induction false} AddressByParts(z: seq<Sample>, g: Guid, start: string)
    ensures !HasGone(ParticipantPart(z), g) ==> AddressAfter(z, g, start) == AddressAfter(LocationPart(z), g, start)
    ensures HasGone(ParticipantPart(z), g) ==> AddressAfter(z, g, start) in {"", AddressAfter(LocationPart(z), g, "")}
  {
    if z == [] {
    } else {
      AddressByParts(z[..|z| - 1], g, start);
      AddressStep(z, g, start);
    }
  }

  /** What the last sample does to the location and to the parts. */
  lemma AddressStep(z: seq<Sample>, g: Guid, start: string)
    requires z != []
    ensures var front, s := z[..|z| - 1], z[|z| - 1];
            var p, l, before := ParticipantPart(front), LocationPart(front), AddressAfter(front, g, start);
            && AddressAfter(z, g, start) == AddressOf(before, s, g)
            && (s.ParticipantSample? ==>
                  && LocationPart(z) == l && AddressOf(before, s, g) in {"", before}
                  && (HasGone(ParticipantPart(z), g) <==> HasGone(p, g) || AddressOf("gone", s, g) == ""))
            && (s.LocationSample? ==>
                  && ParticipantPart(z) == p
                  && (forall x :: AddressAfter(LocationPart(z), g, x) == AddressOf(AddressAfter(l, g, x), s, g)))
  {
    LastOfParts(z);
  }

  lemma {:induction false} StampByParts(z: seq<Sample>, g: Guid, start: string)
    ensures !HasGone(LocationPart(z), g) ==> StampAfter(z, g, start) == StampAfter(ParticipantPart(z), g, start)
    ensures HasGone(LocationPart(z), g) ==> StampAfter(z, g, start) in {"", StampAfter(ParticipantPart(z), g, "")}
  {
    if z == [] {
    } else {
      hide ParticipantPart, LocationPart;
      StampByParts(z[..|z| - 1], g, start);
      LastOfParts(z);
    }
  }

  lemma {:induction false} Unreported(z: seq<Sample>, g: Guid)
    requires !Reported(z, g)
    ensures !HasGone(z, g) && forall start :: StampAfter(z, g, start) == AddressAfter(z, g, start) == start
    ensures forall start :: Here(z, g, start) == start
  {
    if z == [] {
    } else {
      Unreported(z[..|z| - 1], g);
    }
  }

  // ---- the merged map ----

  /** The streams agree on g: only one of them speaks of it; or both say last that it is gone; or
      both say last that it is here, and after a removal in one of them the other has nothing to say. */
  predicate AgreeOn(participants: seq<Sample>, locations: seq<Sample>, g: Guid) {
    Reported(participants, g) && Reported(locations, g) ==>
      && (Here(participants, g, false) <==> Here(locations, g, false))
      && (Here(participants, g, false) ==>
            && (HasGone(participants, g) ==> AddressAfter(locations, g, "") == "")
            && (HasGone(locations, g) ==> StampAfter(participants, g, "") == ""))
  }

  /** What the streams say about g together, told without an order between them. */
  predicate MergedHere(participants: seq<Sample>, locations: seq<Sample>, g: Guid, start: bool) {
    if Reported(participants, g) then Here(participants, g, start) else Here(locations, g, start)
  }

  function MergedInfo(w: Writing, info: ParticipantInfo, participants: seq<Sample>, locations: seq<Sample>, g: Guid)
    : ParticipantInfo
  {
    ParticipantInfo(
      if HasGone(participants, g) || HasGone(locations, g) then w(g) else info.id,
      if HasGone(participants, g) then "" else AddressAfter(locations, g, info.location),
      if HasGone(locations, g) then "" else StampAfter(participants, g, info.discoveredTimestamp))
  }

  lemma {:induction false} HereIsLast(z: seq<Sample>, g: Guid, start: bool)
    requires Reported(z, g)
    ensures Here(z, g, start) == Here(z, g, false)
  {
    if z[|z| - 1].key == g {
    } else {
      HereIsLast(z[..|z| - 1], g, start);
    }
  }

  /** For a GUID the streams agree on, every interleaving gives the merged outcome. */
  lemma AgreedOutcome(w: Writing, st: MonitorState, hooks: Hooks, z: seq<Sample>, g: Guid)
    requires AgreeOn(ParticipantPart(z), LocationPart(z), g)
    ensures var p, l, end := ParticipantPart(z), LocationPart(z), Run(w, st, z, hooks).infos;
            && (g in end <==> MergedHere(p, l, g, g in st.infos))
            && (g in end ==> end[g] == MergedInfo(w, InfoFor(w, st.infos, g), p, l, g))
  {
    var p, l, info := ParticipantPart(z), LocationPart(z), InfoFor(w, st.infos, g);
    RunAt(w, st, z, hooks, g);
    AgreedHere(z, g, g in st.infos);
    PartsHaveAll(z, g);
    AddressByParts(z, g, info.location);
    StampByParts(z, g, info.discoveredTimestamp);
    if !Reported(l, g) { Unreported(l, g); }
    if !Reported(p, g) { Unreported(p, g); }
    if Reported(p, g) { HereIsLast(p, g, g in st.infos); }
  }

  lemma AgreedHere(z: seq<Sample>, g: Guid, start: bool)
    requires AgreeOn(ParticipantPart(z), LocationPart(z), g)
    ensures Here(z, g, start) == MergedHere(ParticipantPart(z), LocationPart(z), g, start)
  {
    HereByParts(z, g, start);
    if Reported(ParticipantPart(z), g) { HereIsLast(ParticipantPart(z), g, start); }
    if Reported(LocationPart(z), g) { HereIsLast(LocationPart(z), g, start); }
  }

  // ---- when all interleavings agree ----

  ghost predicate AreStreams(participants: seq<Sample>, locations: seq<Sample>) {
    && (forall i :: 0 <= i < |participants| ==> participants[i].ParticipantSample?)
    && (forall i :: 0 <= i < |locations| ==> locations[i].LocationSample?)
  }

  /** All interleavings of the two streams end in the same map. */
  ghost predicate Confluent(w: Writing, st: MonitorState, hooks: Hooks, participants: seq<Sample>, locations: seq<Sample>) {
    forall z, y :: Interleaves(z, participants, locations) && Interleaves(y, participants, locations) ==>
      Run(w, st, z, hooks).infos == Run(w, st, y, hooks).infos
  }

  lemma AgreementIsEnough(w: Writing, st: MonitorState, hooks: Hooks, participants: seq<Sample>, locations: seq<Sample>)
    requires forall g :: AgreeOn(participants, locations, g)
    ensures Confluent(w, st, hooks, participants, locations)
  {
    forall z, y | Interleaves(z, participants, locations) && Interleaves(y, participants, locations)
      ensures Run(w, st, z, hooks).infos == Run(w, st, y, hooks).infos
    {
      forall g
        ensures g in Run(w, st, z, hooks).infos <==> g in Run(w, st, y, hooks).infos
        ensures g in Run(w, st, z, hooks).infos ==> Run(w, st, z, hooks).infos[g] == Run(w, st, y, hooks).infos[g]
      {
        AgreedOutcome(w, st, hooks, z, g);
        AgreedOutcome(w, st, hooks, y, g);
      }
    }
  }

  // ---- one stream after the other ----

  lemma {:induction false} PartsOfAppend(a: seq<Sample>, b: seq<Sample>)
    ensures ParticipantPart(a + b) == ParticipantPart(a) + ParticipantPart(b)
    ensures LocationPart(a + b) == LocationPart(a) + LocationPart(b)
  {
    if b == [] {
      assert a + b == a;
    } else {
      assert (a + b)[..|a + b| - 1] == a + b[..|b| - 1];
      PartsOfAppend(a, b[..|b| - 1]);
    }
  }

  lemma {:induction false} PartsOfParticipants(a: seq<Sample>)
    requires forall i :: 0 <= i < |a| ==> a[i].ParticipantSample?
    ensures ParticipantPart(a) == a && LocationPart(a) == []
  {
    if a == [] {
    } else {
      hide ParticipantPart, LocationPart;
      PartsOfParticipants(a[..|a| - 1]);
      LastOfParts(a);
      assert a == a[..|a| - 1] + [a[|a| - 1]];
    }
  }

  lemma {:induction false} PartsOfLocations(a: seq<Sample>)
    requires forall i :: 0 <= i < |a| ==> a[i].LocationSample?
    ensures LocationPart(a) == a && ParticipantPart(a) == []
  {
    if a == [] {
    } else {
      hide ParticipantPart, LocationPart;
      PartsOfLocations(a[..|a| - 1]);
      LastOfParts(a);
      assert a == a[..|a| - 1] + [a[|a| - 1]];
    }
  }

  /** Reading one stream first and then the other is an interleaving, both ways. */
  lemma BothOrdersInterleave(participants: seq<Sample>, locations: seq<Sample>)
    requires AreStreams(participants, locations)
    ensures Interleaves(participants + locations, participants, locations)
    ensures Interleaves(locations + participants, participants, locations)
  {
    PartsOfAppend(participants, locations);
    PartsOfAppend(locations, participants);
    PartsOfParticipants(participants);
    PartsOfLocations(locations);
  }

  lemma {:induction false} AfterAppend(a: seq<Sample>, b: seq<Sample>, g: Guid)
    ensures forall start :: Here(a + b, g, start) == Here(b, g, Here(a, g, start))
    ensures forall start :: StampAfter(a + b, g, start) == StampAfter(b, g, StampAfter(a, g, start))
    ensures forall start :: AddressAfter(a + b, g, start) == AddressAfter(b, g, AddressAfter(a, g, start))
  {
    if b == [] {
      assert a + b == a;
    } else {
      assert (a + b)[..|a + b| - 1] == a + b[..|b| - 1];
      AfterAppend(a, b[..|b| - 1], g);
    }
  }

  /** A participant stream never sets a location; a location stream never sets a timestamp;
      after a removal nothing from before is left. */
  lemma {:induction false} OneStreamAfter(a: seq<Sample>, g: Guid, start: string)
    ensures (forall i :: 0 <= i < |a| ==> a[i].ParticipantSample?) ==>
              AddressAfter(a, g, start) == if HasGone(a, g) then "" else start
    ensures (forall i :: 0 <= i < |a| ==> a[i].LocationSample?) ==>
              StampAfter(a, g, start) == if HasGone(a, g) then "" else start
    ensures HasGone(a, g) ==> AddressAfter(a, g, start) == AddressAfter(a, g, "") && StampAfter(a, g, start) == StampAfter(a, g, "")
  {
    if a == [] {
    } else {
      OneStreamAfter(a[..|a| - 1], g, start);
    }
  }

  /** Streams that disagree on g: reading one first or the other first gives different maps. */
  lemma DisagreementShows(w: Writing, st: MonitorState, hooks: Hooks, p: seq<Sample>, l: seq<Sample>, g: Guid)
    requires AreStreams(p, l) && !AgreeOn(p, l, g)
    ensures Run(w, st, p + l, hooks).infos != Run(w, st, l + p, hooks).infos
  {
    var info, start := InfoFor(w, st.infos, g), g in st.infos;
    RunAt(w, st, p + l, hooks, g);
    RunAt(w, st, l + p, hooks, g);
    AfterAppend(p, l, g);
    AfterAppend(l, p, g);
    HereIsLast(p, g, Here(l, g, start));
    HereIsLast(l, g, Here(p, g, start));
    if Here(p, g, false) && Here(l, g, false) {
      if HasGone(p, g) && AddressAfter(l, g, "") != "" {
        OneStreamAfter(p, g, info.location);
        OneStreamAfter(p, g, AddressAfter(l, g, info.location));
      } else {
        OneStreamAfter(l, g, info.discoveredTimestamp);
        OneStreamAfter(l, g, StampAfter(p, g, info.discoveredTimestamp));
      }
    }
  }

  /** All interleavings of a participant and a location stream end in the same map, from any
      start, iff the streams agree on every GUID. */
  lemma MergeConfluentIff(w: Writing, st: MonitorState, hooks: Hooks, participants: seq<Sample>, locations: seq<Sample>)
    requires AreStreams(participants, locations)
    ensures Confluent(w, st, hooks, participants, locations) <==> forall g :: AgreeOn(participants, locations, g)
  {
    if forall g :: AgreeOn(participants, locations, g) {
      AgreementIsEnough(w, st, hooks, participants, locations);
    } else {
      var g :| !AgreeOn(participants, locations, g);
      DisagreementShows(w, st, hooks, participants, locations, g);
      BothOrdersInterleave(participants, locations);
    }
  }

  // ---- what agreement means for the streams there are ----

  /** A valid sample tells something: a timestamp, or a flagged address. */
  ghost predicate Informative(samples: seq<Sample>) {
    forall i :: 0 <= i < |samples| && samples[i].valid ==>
      if samples[i].ParticipantSample? then samples[i].stamp != "" else Locates(samples[i]) && LocationOf(samples[i]) != ""
  }

  lemma {:induction false} InformedIfHere(a: seq<Sample>, g: Guid)
    requires Informative(a) && Reported(a, g) && Here(a, g, false)
    ensures (forall i :: 0 <= i < |a| ==> a[i].ParticipantSample?) ==> StampAfter(a, g, "") != ""
    ensures (forall i :: 0 <= i < |a| ==> a[i].LocationSample?) ==> AddressAfter(a, g, "") != ""
  {
    if a[|a| - 1].key == g {
    } else {
      InformedIfHere(a[..|a| - 1], g);
    }
  }

  /** Streams whose valid samples carry information agree on a GUID both report iff no
      sample says it is gone, or both end by saying so. */
  lemma InformativeStreamsAgreeIff(p: seq<Sample>, l: seq<Sample>, g: Guid)
    requires AreStreams(p, l) && Informative(p) && Informative(l) && Reported(p, g) && Reported(l, g)
    ensures AgreeOn(p, l, g) <==> (!HasGone(p, g) && !HasGone(l, g)) || (!Here(p, g, false) && !Here(l, g, false))
  {
    if Here(p, g, false) { InformedIfHere(p, g); } else { GoneIsLast(p, g); }
    if Here(l, g, false) { InformedIfHere(l, g); } else { GoneIsLast(l, g); }
  }

  lemma {:induction false} GoneIsLast(a: seq<Sample>, g: Guid)
    requires Reported(a, g)
    ensures !Here(a, g, false) ==> HasGone(a, g)
  {
    if a[|a| - 1].key == g {
    } else {
      GoneIsLast(a[..|a| - 1], g);
    }
  }

  // ---- valid samples only ----

  ghost predicate AllValid(samples: seq<Sample>) {
    forall i :: 0 <= i < |samples| ==> samples[i].valid
  }

  lemma {:induction false} ValidSaysHere(z: seq<Sample>, g: Guid)
    requires AllValid(z)
    ensures !HasGone(z, g) && !HasGone(ParticipantPart(z), g) && !HasGone(LocationPart(z), g)
    ensures forall start :: Here(z, g, start) <==> start || Reported(z, g)
  {
    PartsHaveAll(z, g);
    if z == [] {
    } else {
      ValidSaysHere(z[..|z| - 1], g);
    }
  }

  /** For valid samples every interleaving ends, from any start, in the same map: for each GUID
      reported or known before, the timestamp of its last participant sample and the address of
      its last location sample that has one. */
  lemma MergeIsConfluent(w: Writing, st: MonitorState, hooks: Hooks, z: seq<Sample>,
                         participants: seq<Sample>, locations: seq<Sample>, g: Guid)
    requires Interleaves(z, participants, locations) && AllValid(z)
    ensures var end, info := Run(w, st, z, hooks).infos, InfoFor(w, st.infos, g);
            && (g in end <==> g in st.infos || Reported(participants, g) || Reported(locations, g))
            && (g in end ==>
                  end[g] == ParticipantInfo(info.id, AddressAfter(locations, g, info.location),
                                            StampAfter(participants, g, info.discoveredTimestamp)))
  {
    var info := InfoFor(w, st.infos, g);
    RunAt(w, st, z, hooks, g);
    ValidSaysHere(z, g);
    PartsHaveAll(z, g);
    AddressByParts(z, g, info.location);
    StampByParts(z, g, info.discoveredTimestamp);
  }

  /** A participant going away and a location report for it: the order matters. */
  lemma InvalidSamplesDoNotCommute(w: Writing, st: MonitorState, hooks: Hooks, gone: Sample, here: Sample)
    requires gone.ParticipantSample? && here.LocationSample? && gone.key == here.key && !gone.valid && here.valid
    ensures !Confluent(w, st, hooks, [gone], [here])
  {
    assert [gone][..0] == [] && [here][..0] == [];
    assert !AgreeOn([gone], [here], gone.key);
    MergeConfluentIff(w, st, hooks, [gone], [here]);
  }
}
