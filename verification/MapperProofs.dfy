/** What holds over every sequence of snapshots of one match. */
module MapperProofs {
  import opened Common
  import opened Mapper

  /** A snapshot, or a missing one, and its sample time. */
  datatype Sample = Sample(raw: Option<Snapshot>, time: int)

  /** The state and the results after mapping the samples in order. */
  function Run(s: State, samples: seq<Sample>): (State, seq<MapResult>)
    decreases |samples|
  {
    if samples == [] then (s, [])
    else
      var (before, results) := Run(s, samples[..|samples| - 1]);
      var last := samples[|samples| - 1];
      var (after, result) := Step(before, last.raw, last.time);
      (after, results + [result])
  }

  /** A mapper at the start of a match. */
  predicate AtStart(s: State) {
    s == Fresh(s)
  }

  function Ticks(results: seq<MapResult>): seq<Tick> {
    if results == [] then [] else
      var last := results[|results| - 1];
      Ticks(results[..|results| - 1]) + if last.tick.Some? then [last.tick.value] else []
  }

  function Frames(results: seq<MapResult>): seq<Frame> {
    if results == [] then [] else Frames(results[..|results| - 1]) + results[|results| - 1].frames
  }

  lemma ResultsSnoc(results: seq<MapResult>, r: MapResult)
    ensures Ticks(results + [r]) == Ticks(results) + if r.tick.Some? then [r.tick.value] else []
    ensures Frames(results + [r]) == Frames(results) + r.frames
  {
    assert (results + [r])[..|results|] == results;
  }

  // ----- Timestamps

  ghost predicate NeverDecrease(ticks: seq<Tick>) {
    forall i, j :: 0 <= i < j < |ticks| ==> ticks[i].timestamp <= ticks[j].timestamp && ticks[i].epoch <= ticks[j].epoch
  }

  /** Two unclamped ticks of one epoch are as far apart as their samples. */
  ghost predicate KeepSpacing(ticks: seq<Tick>) {
    forall i, j :: 0 <= i < j < |ticks| && !ticks[i].clamped && !ticks[j].clamped && ticks[i].epoch == ticks[j].epoch ==>
      ticks[j].timestamp - ticks[i].timestamp == ticks[j].sample - ticks[i].sample
  }

  ghost predicate TicksInv(s: State, ticks: seq<Tick>) {
    && (s.last.None? <==> ticks == []) && (ticks != [] ==> s.first.Some? && s.last.value == ticks[|ticks| - 1].timestamp)
    && (forall i :: 0 <= i < |ticks| ==> ticks[i].epoch <= s.epoch && ticks[i].timestamp <= s.last.value)
    && (forall i :: 0 <= i < |ticks| && ticks[i].epoch == s.epoch && !ticks[i].clamped ==>
          ticks[i].timestamp == ticks[i].sample - s.first.value + s.clockOffset)
    && NeverDecrease(ticks) && KeepSpacing(ticks)
  }

  lemma TickedKeeps(s: State, sample: int, ticks: seq<Tick>)
    requires TicksInv(s, ticks) && s.first.Some?
    ensures var r := Ticked(s, sample); TicksInv(r.0, ticks + [r.1]) && r.0.last == Some(r.1.timestamp) && r.0.first == s.first
  {
    var r := Ticked(s, sample);
    OrderSnoc(ticks, r.1);
    SpacingSnoc(ticks, r.1);
    hide NeverDecrease, KeepSpacing;
  }

  lemma OrderSnoc(ticks: seq<Tick>, t: Tick)
    requires NeverDecrease(ticks)
    ensures (forall i :: 0 <= i < |ticks| ==> ticks[i].timestamp <= t.timestamp && ticks[i].epoch <= t.epoch) ==> NeverDecrease(ticks + [t])
  {
    if forall i :: 0 <= i < |ticks| ==> ticks[i].timestamp <= t.timestamp && ticks[i].epoch <= t.epoch {
      var longer := ticks + [t];
      forall i, j | 0 <= i < j < |longer| ensures longer[i].timestamp <= longer[j].timestamp && longer[i].epoch <= longer[j].epoch {
        if j < |ticks| { assert ticks[i].timestamp <= ticks[j].timestamp; }
      }
    }
  }

  lemma SpacingSnoc(ticks: seq<Tick>, t: Tick)
    requires KeepSpacing(ticks)
    ensures (forall i :: 0 <= i < |ticks| && !ticks[i].clamped && !t.clamped && ticks[i].epoch == t.epoch ==>
               t.timestamp - ticks[i].timestamp == t.sample - ticks[i].sample) ==> KeepSpacing(ticks + [t])
  {
  }

  // ----- The frames of one player in one epoch

  function Track(fs: seq<Frame>, p: PlayerId, epoch: nat): seq<Frame> {
    if fs == [] then [] else
      var rest, last := Track(fs[..|fs| - 1], p, epoch), fs[|fs| - 1];
      if last.player == p && last.epoch == epoch then rest + [last] else rest
  }

  function SumDelta(fs: seq<Frame>): int {
    if fs == [] then 0 else SumDelta(fs[..|fs| - 1]) + fs[|fs| - 1].delta
  }

  /** The first delta is 0, and all of them add up to the last timestamp minus the first. */
  predicate Telescopes(track: seq<Frame>) {
    track != [] ==> track[0].delta == 0 && SumDelta(track) == track[|track| - 1].timestamp - track[0].timestamp
  }

  ghost predicate TrackInv(fs: seq<Frame>, prev: map<PlayerId, int>, epoch: nat, p: PlayerId) {
    var track := Track(fs, p, epoch);
    (p in prev <==> track != []) && (p in prev && track != [] ==> prev[p] == track[|track| - 1].timestamp)
  }

  ghost predicate FramesInv(fs: seq<Frame>, prev: map<PlayerId, int>, epoch: nat, last: int) {
    && (forall p :: TrackInv(fs, prev, epoch, p))
    && (forall p, e :: Telescopes(Track(fs, p, e)))
    && (forall i :: 0 <= i < |fs| ==> fs[i].epoch <= epoch && fs[i].timestamp <= last && fs[i].delta >= 0)
    && (forall i, j :: 0 <= i < j < |fs| ==> fs[i].timestamp <= fs[j].timestamp)
    && (forall p :: p in prev ==> prev[p] <= last)
  }

  lemma TrackSnoc(fs: seq<Frame>, f: Frame, p: PlayerId, epoch: nat)
    ensures Track(fs + [f], p, epoch) == if f.player == p && f.epoch == epoch then Track(fs, p, epoch) + [f] else Track(fs, p, epoch)
  {
    assert (fs + [f])[..|fs|] == fs;
  }

  /** One more frame, with the delta the mapper gives it. */
  lemma FrameKeeps(fs: seq<Frame>, prev: map<PlayerId, int>, epoch: nat, last: int, f: Frame)
    requires FramesInv(fs, prev, epoch, last)
    requires f.epoch == epoch && f.timestamp == last && f.delta == Delta(prev, f.player, last)
    ensures FramesInv(fs + [f], prev[f.player := last], epoch, last)
  {
    var longer, next := fs + [f], prev[f.player := last];
    forall p ensures TrackInv(longer, next, epoch, p) {
      TrackSnoc(fs, f, p, epoch);
      assert TrackInv(fs, prev, epoch, p);
    }
    forall p, e ensures Telescopes(Track(longer, p, e)) {
      TrackSnoc(fs, f, p, e);
      if f.player == p && f.epoch == e {
        TelescopeSnoc(fs, prev, epoch, last, f);
      }
    }
  }

  lemma TelescopeSnoc(fs: seq<Frame>, prev: map<PlayerId, int>, epoch: nat, last: int, f: Frame)
    requires FramesInv(fs, prev, epoch, last)
    requires f.epoch == epoch && f.timestamp == last && f.delta == Delta(prev, f.player, last)
    ensures Telescopes(Track(fs, f.player, epoch) + [f])
  {
    var track := Track(fs, f.player, epoch);
    assert TrackInv(fs, prev, epoch, f.player) && Telescopes(track);
    assert (track + [f])[..|track|] == track;
  }

  lemma {:induction false} EmittedKeeps(slots: seq<Slot>, prev: map<PlayerId, int>, index: nat, t: Tick, fs: seq<Frame>)
    requires FramesInv(fs, prev, t.epoch, t.timestamp)
    ensures var r := Emitted(slots, prev, index, t); FramesInv(fs + r.0, r.1, t.epoch, t.timestamp)
  {
    if slots == [] {
      assert fs + [] == fs;
    } else {
      var rest, slot := slots[..|slots| - 1], slots[|slots| - 1];
      EmittedKeeps(rest, prev, index, t, fs);
      var r := Emitted(rest, prev, index, t);
      var p := IdOf(slot.entry);
      var f := Frame(p, slot.role, index, t.timestamp, Delta(r.1, p, t.timestamp), t.epoch);
      if slot.entry.mappable {
        FrameKeeps(fs + r.0, r.1, t.epoch, t.timestamp, f);
        assert fs + (r.0 + [f]) == (fs + r.0) + [f];
      }
    }
  }

  /** A new epoch starts without previous timestamps. */
  lemma NewEpochKeeps(fs: seq<Frame>, prev: map<PlayerId, int>, epoch: nat, last: int, later: int)
    requires FramesInv(fs, prev, epoch, last) && last <= later
    ensures FramesInv(fs, map[], epoch + 1, later)
    ensures FramesInv(fs, prev, epoch, later)
  {
    var next, none: map<PlayerId, int> := epoch + 1, map[];
    forall p ensures TrackInv(fs, none, next, p) { NoTrack(fs, p, next); }
  }

  lemma {:induction false} NoTrack(fs: seq<Frame>, p: PlayerId, epoch: nat)
    requires forall i :: 0 <= i < |fs| ==> fs[i].epoch < epoch
    ensures Track(fs, p, epoch) == []
  {
    if fs != [] { NoTrack(fs[..|fs| - 1], p, epoch); }
  }

  // ----- Frame identity

  ghost predicate Identified(fs: seq<Frame>, n: nat) {
    && (forall i :: 0 <= i < |fs| ==> fs[i].index < n)
    && (forall i, j :: 0 <= i < j < |fs| ==> fs[i].index <= fs[j].index && !(fs[i].player == fs[j].player && fs[i].index == fs[j].index))
  }

  ghost predicate DistinctIds(slots: seq<Slot>) {
    forall i, j :: 0 <= i < j < |slots| ==> IdOf(slots[i].entry) != IdOf(slots[j].entry)
  }

  lemma {:induction false} FirstOnlyDistinct(slots: seq<Slot>)
    ensures DistinctIds(FirstOnly(slots)) && Ids(FirstOnly(slots)) == Ids(slots)
  {
    if slots != [] {
      var rest, last := slots[..|slots| - 1], slots[|slots| - 1];
      FirstOnlyDistinct(rest);
      assert slots == slots[..|slots| - 1 + 1];
      IdsSnoc(slots, |slots| - 1);
      if IdOf(last.entry) !in Ids(rest) {
        var kept := FirstOnly(rest) + [last];
        assert kept[..|kept| - 1 + 1] == kept && kept[..|kept| - 1] == FirstOnly(rest);
        IdsSnoc(kept, |kept| - 1);
        forall i | 0 <= i < |kept| - 1 ensures IdOf(kept[i].entry) != IdOf(last.entry) {
          assert kept[i] == FirstOnly(rest)[i];
          assert IdOf(FirstOnly(rest)[i].entry) in Ids(FirstOnly(rest));
        }
      }
    }
  }

  lemma {:induction false} EmittedOnce(slots: seq<Slot>, prev: map<PlayerId, int>, index: nat, t: Tick)
    requires DistinctIds(slots)
    ensures var fs := Emitted(slots, prev, index, t).0;
            && Identified(fs, index + 1)
            && (forall i :: 0 <= i < |fs| ==> fs[i].index == index && fs[i].player in Ids(slots))
  {
    if slots != [] {
      var rest, slot := slots[..|slots| - 1], slots[|slots| - 1];
      EmittedOnce(rest, prev, index, t);
      assert slots == slots[..|slots| - 1 + 1];
      IdsSnoc(slots, |slots| - 1);
      forall x | x in Ids(rest) ensures x != IdOf(slot.entry) {
        var i :| 0 <= i < |rest| && IdOf(rest[i].entry) == x;
        assert slots[i] == rest[i];
      }
    }
  }

  // ----- One step

  ghost predicate Inv(s: State, results: seq<MapResult>) {
    && TicksInv(s, Ticks(results))
    && FramesInv(Frames(results), s.prev, s.epoch, if s.last.Some? then s.last.value else 0)
    && (s.last.None? ==> Frames(results) == [] && s.prev == map[] && s.epoch == 0)
    && Identified(Frames(results), s.frameIndex)
  }

  lemma StartInv(s: State)
    requires AtStart(s)
    ensures Inv(s, [])
  {
  }

  lemma MappedKeeps(s: State, raw: Snapshot, sample: int, results: seq<MapResult>)
    requires Inv(s, results) && s.first.Some?
    ensures var r := Mapped(s, raw, sample); Inv(r.0, results + [r.1])
  {
    hide TicksInv, FramesInv, Identified, Ticked, Emitted, ContextOf, SlotsOf, FirstOnly;
    var kept := FirstOnly(SlotsOf(raw.teams));
    var s0 := Rebound(s, raw);
    ReboundTicks(s, raw, Ticks(results));
    var (s1, t) := Ticked(s0, sample);
    TickedKeeps(s0, sample, Ticks(results));
    TickedFrames(s0, sample, Frames(results));
    var s2 := if s1.dedupe then s1.(fingerprint := Some(raw.fingerprint)) else s1;
    SameTicks(s1, s2, Ticks(results) + [t]);
    EmittedKeeps(kept, s1.prev, s1.frameIndex, t, Frames(results));
    FirstOnlyDistinct(SlotsOf(raw.teams));
    EmittedOnce(kept, s1.prev, s1.frameIndex, t);
    var r := Mapped(s, raw, sample);
    ResultsSnoc(results, r.1);
    var (frames, prev) := Emitted(kept, s1.prev, s1.frameIndex, t);
    IdentifiedConcat(Frames(results), frames, s1.frameIndex);
    SameTicks(s1, s2.(prev := prev, frameIndex := s2.frameIndex + 1), Ticks(results) + [t]);
    assert Frames(results) + [] == Frames(results);
  }

  lemma ReboundTicks(s: State, raw: Snapshot, ticks: seq<Tick>)
    requires TicksInv(s, ticks)
    ensures TicksInv(Rebound(s, raw), ticks)
  {
  }

  /** The tick invariant looks at the time base only. */
  lemma SameTicks(s: State, s': State, ticks: seq<Tick>)
    requires TicksInv(s, ticks) && s'.last == s.last && s'.first == s.first && s'.epoch == s.epoch && s'.clockOffset == s.clockOffset
    ensures TicksInv(s', ticks)
  {
  }

  lemma TickedFrames(s: State, sample: int, fs: seq<Frame>)
    requires FramesInv(fs, s.prev, s.epoch, if s.last.Some? then s.last.value else 0)
    requires s.last.None? ==> fs == [] && s.prev == map[] && s.epoch == 0
    ensures var r := Ticked(s, sample);
            && FramesInv(fs, r.0.prev, r.0.epoch, r.1.timestamp) && r.1.epoch == r.0.epoch && r.0.last == Some(r.1.timestamp)
            && r.0.frameIndex == s.frameIndex && r.0.dedupe == s.dedupe
  {
    var r := Ticked(s, sample);
    if s.last.Some? {
      NewEpochKeeps(fs, s.prev, s.epoch, s.last.value, r.1.timestamp);
    }
  }

  lemma IdentifiedConcat(a: seq<Frame>, b: seq<Frame>, n: nat)
    requires Identified(a, n) && Identified(b, n + 1) && forall i :: 0 <= i < |b| ==> b[i].index == n
    ensures Identified(a + b, n + 1) && Identified(a, n + 1)
  {
  }

  lemma StepKeeps(s: State, raw: Option<Snapshot>, sample: int, results: seq<MapResult>)
    requires Inv(s, results)
    ensures var r := Step(s, raw, sample); Inv(r.0, results + [r.1])
  {
    hide TicksInv, FramesInv, Identified, Mapped, SizeError, Admitted;
    ResultsSnoc(results, NOTHING);
    assert Frames(results) + [] == Frames(results);
    forall limit ensures Inv(s, results + [NOTHING.(limit := limit)]) {
      ResultsSnoc(results, NOTHING.(limit := limit));
      assert Frames(results) + [] == Frames(results) && Ticks(results) + [] == Ticks(results);
    }
    if raw.Some? && SizeError(s.limits, raw.value.teams).None? && Admitted(s, raw.value.teams).Some? {
      var s1 := s.(players := Admitted(s, raw.value.teams).value, first := Some(FirstSample(s, sample)));
      FirstTicks(s, s1, Ticks(results));
      MappedKeeps(s1, raw.value, sample, results);
    }
  }

  lemma FirstTicks(s: State, s': State, ticks: seq<Tick>)
    requires TicksInv(s, ticks) && s'.last == s.last && s'.epoch == s.epoch && s'.clockOffset == s.clockOffset
    requires s.first.Some? ==> s'.first == s.first
    requires s'.first.Some?
    ensures TicksInv(s', ticks)
  {
  }

  lemma {:induction false} RunKeeps(s: State, samples: seq<Sample>)
    requires AtStart(s)
    ensures var r := Run(s, samples); Inv(r.0, r.1)
    decreases |samples|
  {
    hide Inv, Step, AtStart;
    if samples == [] {
      StartInv(s);
    } else {
      var before := Run(s, samples[..|samples| - 1]);
      var last := samples[|samples| - 1];
      RunKeeps(s, samples[..|samples| - 1]);
      StepKeeps(before.0, last.raw, last.time, before.1);
    }
  }

  // ----- The results

  /** Timestamps never decrease within a match, and unclamped samples of one source epoch keep their measured spacing. */
  lemma TimestampsNeverDecrease(s: State, samples: seq<Sample>)
    requires AtStart(s)
    ensures var results := Run(s, samples).1;
            && NeverDecrease(Ticks(results)) && KeepSpacing(Ticks(results))
            && (forall i, j :: 0 <= i < j < |Frames(results)| ==> Frames(results)[i].timestamp <= Frames(results)[j].timestamp)
  {
    RunKeeps(s, samples);
  }

  /** Within an epoch a player's deltas are not negative and add up to the time from its first frame to its last. */
  lemma DeltasTelescope(s: State, samples: seq<Sample>, p: PlayerId, epoch: nat)
    requires AtStart(s)
    ensures var fs := Frames(Run(s, samples).1);
            Telescopes(Track(fs, p, epoch)) && forall i :: 0 <= i < |fs| ==> fs[i].delta >= 0
  {
    RunKeeps(s, samples);
  }

  /** No two frames of a match share both player and frame index. */
  lemma FramesAreIdentified(s: State, samples: seq<Sample>)
    requires AtStart(s)
    ensures var fs := Frames(Run(s, samples).1);
            forall i, j :: 0 <= i < j < |fs| ==> fs[i].index <= fs[j].index && !(fs[i].player == fs[j].player && fs[i].index == fs[j].index)
  {
    RunKeeps(s, samples);
  }

  /** A tick starts a new epoch exactly when the sample time falls back by the threshold or more, measured in the current
      time base; then its timestamp is the next one, and all its deltas are 0. */
  lemma ClockStepStartsEpoch(s: State, raw: Option<Snapshot>, sample: int)
    requires s.last.Some? ==> s.first.Some?
    ensures var (after, r) := Step(s, raw, sample);
            r.tick.Some? ==>
              var stepped := s.last.Some? && sample - s.first.value + s.clockOffset <= s.last.value - CLOCK_STEP_THRESHOLD;
              && r.tick.value.epoch == (if stepped then s.epoch + 1 else s.epoch)
              && (stepped ==> r.tick.value.timestamp == s.last.value + 1 && !r.skipped && NoDeltas(r.frames))
  {
    if raw.Some? && Step(s, raw, sample).1.tick.Some? {
      hide SlotsOf, FirstOnly, ContextOf;
      var kept := FirstOnly(SlotsOf(raw.value.teams));
      FirstOnlyDistinct(SlotsOf(raw.value.teams));
      var s1 := Rebound(s.(players := Admitted(s, raw.value.teams).value, first := Some(FirstSample(s, sample))), raw.value);
      EmittedFirst(kept, s.frameIndex, Ticked(s1, sample).1);
    }
  }

  predicate NoDeltas(fs: seq<Frame>) {
    forall i :: 0 <= i < |fs| ==> fs[i].delta == 0
  }

  lemma {:induction false} EmittedFirst(slots: seq<Slot>, index: nat, t: Tick)
    requires DistinctIds(slots)
    ensures var r := Emitted(slots, map[], index, t);
            NoDeltas(r.0) && r.1.Keys <= Ids(slots)
  {
    if slots != [] {
      var rest, slot := slots[..|slots| - 1], slots[|slots| - 1];
      EmittedFirst(rest, index, t);
      assert slots == slots[..|slots| - 1 + 1];
      IdsSnoc(slots, |slots| - 1);
      forall x | x in Ids(rest) ensures x != IdOf(slot.entry) {
        var i :| 0 <= i < |rest| && IdOf(rest[i].entry) == x;
        assert slots[i] == rest[i];
      }
    }
  }

  // ----- The roster

  /** The first context of a match with all later ones folded in. */
  function MergedContext(results: seq<MapResult>): Option<Context> {
    if results == [] then None else
      var before, last := MergedContext(results[..|results| - 1]), results[|results| - 1].context;
      if last.None? then before else if before.None? then last else Some(Merged(before.value, last.value))
  }

  ghost predicate Listed(players: seq<PlayerId>, roster: set<PlayerId>) {
    && (forall i, j :: 0 <= i < j < |players| ==> players[i] != players[j])
    && Elements(players) == roster
  }

  lemma {:induction false} AppendNewLists(a: seq<PlayerId>, b: seq<PlayerId>)
    requires Listed(a, Elements(a))
    ensures Listed(AppendNew(a, b), Elements(a) + Elements(b))
  {
    if b != [] {
      var rest, last := b[..|b| - 1], b[|b| - 1];
      AppendNewLists(a, rest);
      assert b == rest + [last];
      ElementsSnoc(rest, last);
      ElementsSnoc(AppendNew(a, rest), last);
      InElements(AppendNew(a, rest), last);
    }
  }

  lemma {:induction false} PlayersOfLists(slots: seq<Slot>)
    requires DistinctIds(slots)
    ensures Listed(PlayersOf(slots), Ids(slots)) && |PlayersOf(slots)| == |slots|
    ensures forall i :: 0 <= i < |slots| ==> PlayersOf(slots)[i] == IdOf(slots[i].entry)
  {
    if slots != [] {
      var rest, last := slots[..|slots| - 1], slots[|slots| - 1];
      PlayersOfLists(rest);
      assert slots == slots[..|slots| - 1 + 1];
      IdsSnoc(slots, |slots| - 1);
      ElementsSnoc(PlayersOf(rest), IdOf(last.entry));
    }
  }

  /** Without duplicates, and exactly the players the mapper admitted. */
  ghost predicate RosterInv(s: State, merged: Option<Context>) {
    && s.limits.matchPlayers > 0 && |s.players| <= s.limits.matchPlayers
    && (if merged.None? then s.players == {} else Listed(merged.value.players, s.players))
  }

  /** What one snapshot does to the roster, and the players its context lists. */
  lemma StepRoster(s: State, raw: Option<Snapshot>, sample: int)
    requires s.limits.matchPlayers > 0 && |s.players| <= s.limits.matchPlayers
    ensures var (after, r) := Step(s, raw, sample);
            && after.limits == s.limits && |after.players| <= s.limits.matchPlayers
            && (r.context.None? ==> after.players == s.players)
            && (r.context.Some? ==>
                  var c := r.context.value.players; Listed(c, Elements(c)) && after.players == s.players + Elements(c))
  {
    hide SlotsOf, FirstOnly, SizeError, Listed, Elements, Ids, Mapped, PlayersOf;
    if raw.Some? && SizeError(s.limits, raw.value.teams).None? && Admitted(s, raw.value.teams).Some? {
      var slots := SlotsOf(raw.value.teams);
      FirstOnlyDistinct(slots);
      PlayersOfLists(FirstOnly(slots));
      ListedElements(PlayersOf(FirstOnly(slots)), Ids(slots));
      MappedRoster(s.(players := Admitted(s, raw.value.teams).value, first := Some(FirstSample(s, sample))), raw.value, sample);
    }
  }

  lemma MappedRoster(s: State, raw: Snapshot, sample: int)
    ensures var (after, r) := Mapped(s, raw, sample);
            after.players == s.players && after.limits == s.limits
            && r.context.Some? && r.context.value.players == PlayersOf(FirstOnly(SlotsOf(raw.teams)))
  {
    hide SlotsOf, FirstOnly, Emitted, PlayersOf, TeamsOf, NamesOf;
  }

  lemma ListedElements(players: seq<PlayerId>, roster: set<PlayerId>)
    requires Listed(players, roster)
    ensures Elements(players) == roster
  {
  }

  lemma StepKeepsRoster(s: State, raw: Option<Snapshot>, sample: int, results: seq<MapResult>)
    requires RosterInv(s, MergedContext(results))
    ensures var r := Step(s, raw, sample); RosterInv(r.0, MergedContext(results + [r.1])) && r.0.limits == s.limits
  {
    hide Step, AppendNew, Elements, Override;
    StepRoster(s, raw, sample);
    var r := Step(s, raw, sample);
    assert (results + [r.1])[..|results|] == results;
    var before := MergedContext(results);
    if before.Some? { ListedElements(before.value.players, s.players); }
    if r.1.context.Some? && before.Some? {
      AppendNewLists(before.value.players, r.1.context.value.players);
    }
  }

  lemma {:induction false} RunKeepsRoster(s: State, samples: seq<Sample>)
    requires AtStart(s) && s.limits.matchPlayers > 0
    ensures var r := Run(s, samples); RosterInv(r.0, MergedContext(r.1)) && r.0.limits == s.limits
    decreases |samples|
  {
    if samples != [] {
      hide Step, RosterInv, AtStart;
      var before := Run(s, samples[..|samples| - 1]);
      var last := samples[|samples| - 1];
      RunKeepsRoster(s, samples[..|samples| - 1]);
      StepKeepsRoster(before.0, last.raw, last.time, before.1);
    }
  }

  /** With the roster limits on, the merged context of a match lists the players the mapper admitted, each once, and at
      most 64 of them. */
  lemma RosterIsAdmitted(s: State, samples: seq<Sample>)
    requires AtStart(s) && s.limits == ENFORCED
    ensures var r := Run(s, samples);
            match MergedContext(r.1)
            case None => r.0.players == {}
            case Some(c) => Listed(c.players, r.0.players) && |r.0.players| <= 64 && |c.players| <= 64
  {
    RunKeepsRoster(s, samples);
    var c := MergedContext(Run(s, samples).1);
    if c.Some? { ListedSize(c.value.players, Run(s, samples).0.players); }
  }

  lemma {:induction false} ListedSize(players: seq<PlayerId>, roster: set<PlayerId>)
    requires Listed(players, roster)
    ensures |players| == |roster|
  {
    if players == [] {
      assert roster == {};
    } else {
      var rest, last := players[..|players| - 1], players[|players| - 1];
      assert players == rest + [last];
      ElementsSnoc(rest, last);
      InElements(rest, last);
      ListedSize(rest, Elements(rest));
    }
  }

  /** A refused snapshot leaves no trace: the state is the same, and nothing is mapped. */
  lemma RefusedLeavesNoTrace(s: State, raw: Option<Snapshot>, sample: int)
    ensures var (after, r) := Step(s, raw, sample);
            r.limit.Some? ==> after == s && r == NOTHING.(limit := r.limit)
    ensures Step(s, raw, sample).1.limit.Some? <==>
              raw.Some? && (SizeError(s.limits, raw.value.teams).Some? || Admitted(s, raw.value.teams).None?)
  {
    hide SlotsOf, FirstOnly, Emitted, ContextOf, Ticked;
  }

  /** The samples that are not refused. */
  function Accepted(s: State, samples: seq<Sample>): seq<Sample> {
    if samples == [] then []
    else
      var before, last := samples[..|samples| - 1], samples[|samples| - 1];
      Accepted(s, before) + if Step(Run(s, before).0, last.raw, last.time).1.limit.Some? then [] else [last]
  }

  function Unrefused(results: seq<MapResult>): seq<MapResult> {
    if results == [] then []
    else
      var last := results[|results| - 1];
      Unrefused(results[..|results| - 1]) + if last.limit.Some? then [] else [last]
  }

  /** Over any run, refused snapshots might as well not have been sampled: without them the mapper ends in the same state
      and yields the same results but the refusals. */
  lemma {:induction false} RefusalsChangeNothing(s: State, samples: seq<Sample>)
    ensures Run(s, Accepted(s, samples)) == (Run(s, samples).0, Unrefused(Run(s, samples).1))
    decreases |samples|
  {
    if samples != [] {
      hide Step, NOTHING;
      var before, last := samples[..|samples| - 1], samples[|samples| - 1];
      RefusalsChangeNothing(s, before);
      var r := Run(s, before);
      RefusedLeavesNoTrace(r.0, last.raw, last.time);
      UnrefusedSnoc(r.1, Step(r.0, last.raw, last.time).1);
      if Step(r.0, last.raw, last.time).1.limit.None? {
        RunSnoc(s, Accepted(s, before), last);
      } else {
        assert Accepted(s, samples) == Accepted(s, before);
      }
    }
  }

  lemma UnrefusedSnoc(results: seq<MapResult>, r: MapResult)
    ensures Unrefused(results + [r]) == if r.limit.Some? then Unrefused(results) else Unrefused(results) + [r]
  {
    assert (results + [r])[..|results|] == results;
  }

  lemma RunSnoc(s: State, samples: seq<Sample>, last: Sample)
    ensures var r := Run(s, samples);
            Run(s, samples + [last]) == (Step(r.0, last.raw, last.time).0, r.1 + [Step(r.0, last.raw, last.time).1])
  {
    assert (samples + [last])[..|samples|] == samples;
  }
}
