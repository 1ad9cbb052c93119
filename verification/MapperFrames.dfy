/** What every snapshot of a match is mapped to, told from the snapshots alone. */
module MapperFrames {
  import opened Common
  import opened Mapper
  import opened MapperProofs
  import opened MapperTimes

  // ----- The entries that count

  /** No earlier entry of the snapshot has the same id. */
  predicate IsFirst(slots: seq<Slot>, j: nat)
    requires j < |slots|
  {
    forall i :: 0 <= i < j ==> IdOf(slots[i].entry) != IdOf(slots[j].entry)
  }

  /** The places below n of the first entries of each id. */
  function Firsts(slots: seq<Slot>, n: nat): (at: seq<nat>)
    requires n <= |slots|
    ensures forall k :: 0 <= k < |at| ==> at[k] < n
  {
    if n == 0 then [] else Firsts(slots, n - 1) + if IsFirst(slots, n - 1) then [n - 1] else []
  }

  /** Those with a usable body position. */
  function Framed(slots: seq<Slot>, n: nat): (at: seq<nat>)
    requires n <= |slots|
    ensures forall k :: 0 <= k < |at| ==> at[k] < n
  {
    if n == 0 then [] else Framed(slots, n - 1) + if IsFirst(slots, n - 1) && slots[n - 1].entry.mappable then [n - 1] else []
  }

  lemma FirstIsNew(slots: seq<Slot>, n: nat)
    requires n < |slots|
    ensures IsFirst(slots, n) <==> IdOf(slots[n].entry) !in Ids(slots[..n])
  {
    if IdOf(slots[n].entry) in Ids(slots[..n]) {
      var i :| 0 <= i < n && IdOf(slots[..n][i].entry) == IdOf(slots[n].entry);
      assert slots[..n][i] == slots[i];
    } else {
      forall i | 0 <= i < n ensures IdOf(slots[i].entry) != IdOf(slots[n].entry) {
        assert IdOf(slots[..n][i].entry) in Ids(slots[..n]);
      }
    }
  }

  lemma {:induction false} KeptAreFirsts(slots: seq<Slot>, n: nat)
    requires n <= |slots|
    ensures var kept, at := FirstOnly(slots[..n]), Firsts(slots, n);
            |kept| == |at| && forall k :: 0 <= k < |at| ==> kept[k] == slots[at[k]]
  {
    if n > 0 {
      KeptAreFirsts(slots, n - 1);
      FirstOnlySnoc(slots, n - 1);
      FirstIsNew(slots, n - 1);
    }
  }

  // ----- The context

  /** What the context says of one player's first entry. */
  predicate Lists(c: Context, e: Slot) {
    var p := IdOf(e.entry);
    && p in c.teams && c.teams[p] == e.role
    && (p in c.names <==> e.entry.name != "") && (p in c.names ==> c.names[p] == e.entry.name)
  }

  ghost predicate IsContext(c: Context, raw: Snapshot, start: int) {
    var slots := SlotsOf(raw.teams);
    var at := Firsts(slots, |slots|);
    && c.session == raw.session && c.start == start
    && |c.players| == |at| && (forall k :: 0 <= k < |at| ==> c.players[k] == IdOf(slots[at[k]].entry) && Lists(c, slots[at[k]]))
    && (forall p :: p in c.teams || p in c.names ==> p in c.players)
  }

  lemma {:induction false} KnownOf(kept: seq<Slot>)
    requires DistinctIds(kept)
    ensures |PlayersOf(kept)| == |kept|
    ensures forall k :: 0 <= k < |kept| ==>
              var p, e := IdOf(kept[k].entry), kept[k];
              && PlayersOf(kept)[k] == p && p in TeamsOf(kept) && TeamsOf(kept)[p] == e.role
              && (p in NamesOf(kept) <==> e.entry.name != "") && (p in NamesOf(kept) ==> NamesOf(kept)[p] == e.entry.name)
    ensures forall p :: p in TeamsOf(kept) || p in NamesOf(kept) ==> p in PlayersOf(kept)
  {
    if kept != [] {
      var rest, last := kept[..|kept| - 1], kept[|kept| - 1];
      KnownOf(rest);
      assert kept == rest + [last];
      forall k | 0 <= k < |rest| ensures IdOf(rest[k].entry) != IdOf(last.entry) { assert rest[k] == kept[k]; }
      assert IdOf(last.entry) !in PlayersOf(rest);
    }
  }

  lemma ContextIsExact(raw: Snapshot, start: int)
    ensures IsContext(ContextOf(raw, FirstOnly(SlotsOf(raw.teams)), start), raw, start)
  {
    var slots := SlotsOf(raw.teams);
    hide SlotsOf, FirstOnly, PlayersOf, TeamsOf, NamesOf, Firsts;
    assert slots[..|slots|] == slots;
    KeptAreFirsts(slots, |slots|);
    FirstOnlyDistinct(slots);
    KnownOf(FirstOnly(slots));
  }

  // ----- The frames

  /** The time since the last frame of the player in the epoch of the tick, or 0. */
  function Since(fs: seq<Frame>, p: PlayerId, t: Tick): int {
    var track := Track(fs, p, t.epoch);
    if track == [] then 0 else t.timestamp - track[|track| - 1].timestamp
  }

  /** The player is the one of the entry's user id, or of its name when it has none. */
  function FrameOf(slot: Slot, index: nat, t: Tick, delta: int): Frame {
    var player := if slot.entry.userId == 0 then Named(slot.entry.name) else UserId(slot.entry.userId);
    Frame(player, slot.role, index, t.timestamp, delta, t.epoch)
  }

  /** One frame for every first entry with a usable position, in the order of the entries. */
  ghost predicate AreFrames(fs: seq<Frame>, slots: seq<Slot>, index: nat, t: Tick, earlier: seq<Frame>) {
    var at := Framed(slots, |slots|);
    |fs| == |at| && forall k :: 0 <= k < |at| ==> fs[k] == FrameOf(slots[at[k]], index, t, Since(earlier, IdOf(slots[at[k]].entry), t))
  }

  /** The frames at the given places, with deltas counted from prev. */
  ghost predicate FramesAt(fs: seq<Frame>, slots: seq<Slot>, at: seq<nat>, prev: map<PlayerId, int>, index: nat, t: Tick)
    requires forall k :: 0 <= k < |at| ==> at[k] < |slots|
  {
    && |fs| == |at|
    && forall k :: 0 <= k < |at| ==> fs[k] == FrameOf(slots[at[k]], index, t, Delta(prev, IdOf(slots[at[k]].entry), t.timestamp))
  }

  ghost predicate AgreeOutside(prev: map<PlayerId, int>, after: map<PlayerId, int>, ids: set<PlayerId>) {
    forall p :: p !in ids ==> Delta(prev, p, 0) == Delta(after, p, 0) && (p in prev <==> p in after) && (p in prev && p in after ==> after[p] == prev[p])
  }

  lemma EmittedSnoc(kept: seq<Slot>, slot: Slot, prev: map<PlayerId, int>, index: nat, t: Tick)
    ensures var (fs, before) := Emitted(kept, prev, index, t);
            var p := IdOf(slot.entry);
            Emitted(kept + [slot], prev, index, t) == (
              if slot.entry.mappable then (fs + [FrameOf(slot, index, t, Delta(before, p, t.timestamp))], before[p := t.timestamp]) else (fs, before))
  {
    DropLast(kept, slot);
  }

  lemma AgreeMore(prev: map<PlayerId, int>, after: map<PlayerId, int>, ids: set<PlayerId>, p: PlayerId, time: int)
    requires AgreeOutside(prev, after, ids)
    ensures AgreeOutside(prev, after, ids + {p}) && AgreeOutside(prev, after[p := time], ids + {p})
    ensures p !in ids ==> forall timestamp :: Delta(after, p, timestamp) == Delta(prev, p, timestamp)
  {
  }

  lemma FramedMore(slots: seq<Slot>, n: nat)
    requires n < |slots|
    ensures Framed(slots, n + 1) == Framed(slots, n) + if IsFirst(slots, n) && slots[n].entry.mappable then [n] else []
  {
  }

  lemma FramesMore(fs: seq<Frame>, slots: seq<Slot>, at: seq<nat>, prev: map<PlayerId, int>, index: nat, t: Tick, n: nat)
    requires (forall k :: 0 <= k < |at| ==> at[k] < |slots|) && n < |slots| && FramesAt(fs, slots, at, prev, index, t)
    ensures FramesAt(fs + [FrameOf(slots[n], index, t, Delta(prev, IdOf(slots[n].entry), t.timestamp))], slots, at + [n], prev, index, t)
  {
  }

  /** The frames of the first n entries, and what they leave of the timestamps before. */
  ghost predicate EmitsExactly(slots: seq<Slot>, n: nat, prev: map<PlayerId, int>, index: nat, t: Tick)
    requires n <= |slots|
  {
    var (fs, after) := Emitted(FirstOnly(slots[..n]), prev, index, t);
    FramesAt(fs, slots, Framed(slots, n), prev, index, t) && AgreeOutside(prev, after, Ids(slots[..n]))
  }

  lemma EmitsNothing(slots: seq<Slot>, prev: map<PlayerId, int>, index: nat, t: Tick)
    ensures EmitsExactly(slots, 0, prev, index, t)
  {
    assert slots[..0] == [];
  }

  lemma EmitsOldId(slots: seq<Slot>, n: nat, prev: map<PlayerId, int>, index: nat, t: Tick)
    requires n < |slots| && EmitsExactly(slots, n, prev, index, t) && !IsFirst(slots, n)
    ensures EmitsExactly(slots, n + 1, prev, index, t)
  {
    hide Ids, Emitted, FirstOnly, AgreeOutside, FramesAt, Framed, IsFirst;
    FirstOnlySnoc(slots, n);
    FirstIsNew(slots, n);
    IdsSnoc(slots, n);
    FramedMore(slots, n);
    assert Framed(slots, n) + [] == Framed(slots, n);
    var after := Emitted(FirstOnly(slots[..n]), prev, index, t).1;
    AgreeMore(prev, after, Ids(slots[..n]), IdOf(slots[n].entry), 0);
  }

  lemma EmitsNewId(slots: seq<Slot>, n: nat, prev: map<PlayerId, int>, index: nat, t: Tick)
    requires n < |slots| && EmitsExactly(slots, n, prev, index, t) && IsFirst(slots, n)
    ensures EmitsExactly(slots, n + 1, prev, index, t)
  {
    hide Ids, Emitted, FirstOnly, AgreeOutside, FramesAt, Framed, IsFirst, FrameOf, Delta, IdOf;
    var kept, slot := FirstOnly(slots[..n]), slots[n];
    var (fs, after) := Emitted(kept, prev, index, t);
    FirstOnlySnoc(slots, n);
    FirstIsNew(slots, n);
    IdsSnoc(slots, n);
    FramedMore(slots, n);
    assert Framed(slots, n) + [] == Framed(slots, n);
    EmittedSnoc(kept, slot, prev, index, t);
    AgreeMore(prev, after, Ids(slots[..n]), IdOf(slot.entry), t.timestamp);
    if slot.entry.mappable { FramesMore(fs, slots, Framed(slots, n), prev, index, t, n); }
  }

  lemma {:induction false} EmittedExactly(slots: seq<Slot>, n: nat, prev: map<PlayerId, int>, index: nat, t: Tick)
    requires n <= |slots|
    ensures EmitsExactly(slots, n, prev, index, t)
  {
    hide EmitsExactly, IsFirst;
    if n == 0 {
      EmitsNothing(slots, prev, index, t);
    } else {
      EmittedExactly(slots, n - 1, prev, index, t);
      if IsFirst(slots, n - 1) { EmitsNewId(slots, n - 1, prev, index, t); } else { EmitsOldId(slots, n - 1, prev, index, t); }
    }
  }

  lemma DeltaIsSince(fs: seq<Frame>, prev: map<PlayerId, int>, t: Tick, p: PlayerId)
    requires FramesInv(fs, prev, t.epoch, t.timestamp)
    ensures Delta(prev, p, t.timestamp) == Since(fs, p, t)
  {
    assert TrackInv(fs, prev, t.epoch, p);
  }

  lemma FramesAreExact(slots: seq<Slot>, prev: map<PlayerId, int>, index: nat, t: Tick, earlier: seq<Frame>)
    requires FramesInv(earlier, prev, t.epoch, t.timestamp)
    ensures AreFrames(Emitted(FirstOnly(slots), prev, index, t).0, slots, index, t, earlier)
  {
    EmittedExactly(slots, |slots|, prev, index, t);
    assert slots[..|slots|] == slots;
    hide FramesInv, Emitted, FirstOnly, Framed, Ids, Delta, Since, AgreeOutside;
    forall p ensures Delta(prev, p, t.timestamp) == Since(earlier, p, t) { DeltaIsSince(earlier, prev, t, p); }
  }

  // ----- Change detection

  /** The last mapped sample, if any. */
  function LastMapped(results: seq<MapResult>): (m: Option<nat>)
    ensures m.Some? ==> m.value < |results| && results[m.value].tick.Some?
    ensures m.None? <==> Ticks(results) == []
  {
    if results == [] then None
    else if results[|results| - 1].tick.Some? then Some(|results| - 1)
    else LastMapped(results[..|results| - 1])
  }

  /** The snapshot is the same as the last one mapped, of the same local player and session, and no epoch ended. */
  predicate Repeating(samples: seq<Sample>, results: seq<MapResult>, raw: Snapshot, epoch: nat)
    requires |samples| == |results|
  {
    var m := LastMapped(results);
    m.Some? && samples[m.value].raw.Some? &&
      var before := samples[m.value].raw.value;
      before.fingerprint == raw.fingerprint && before.client == raw.client && before.session == raw.session
      && results[m.value].tick.value.epoch == epoch
  }

  ghost predicate Remembers(s: State, samples: seq<Sample>, results: seq<MapResult>, dedupe: bool)
    requires |samples| == |results|
  {
    var m := LastMapped(results);
    && s.dedupe == dedupe
    && (m.None? ==> s.fingerprint == None)
    && (m.Some? ==>
          && samples[m.value].raw.Some?
          && s.client == samples[m.value].raw.value.client && s.session == samples[m.value].raw.value.session
          && s.fingerprint == (if dedupe then Some(samples[m.value].raw.value.fingerprint) else None)
          && s.epoch == results[m.value].tick.value.epoch)
  }

  /** The number of snapshots that were mapped and not skipped. */
  function Unskipped(results: seq<MapResult>): nat {
    if results == [] then 0
    else Unskipped(results[..|results| - 1]) + if results[|results| - 1].tick.Some? && !results[|results| - 1].skipped then 1 else 0
  }

  lemma LastMappedSnoc(results: seq<MapResult>, r: MapResult)
    ensures LastMapped(results + [r]) == if r.tick.Some? then Some(|results|) else LastMapped(results)
    ensures Unskipped(results + [r]) == Unskipped(results) + if r.tick.Some? && !r.skipped then 1 else 0
  {
    assert (results + [r])[..|results|] == results;
  }

  /** What one snapshot is mapped to, given all that came before it in the match. */
  ghost predicate MapsTo(samples: seq<Sample>, results: seq<MapResult>, last: Sample, r: MapResult, dedupe: bool)
    requires |samples| == |results|
  {
    if r.tick.None? then r == MapResult(r.limit, None, None, false, [], 0) && (last.raw.None? <==> r.limit.None?)
    else
      && last.raw.Some? && r.limit.None? && r.context.Some?
      && var raw, slots := last.raw.value, SlotsOf(last.raw.value.teams);
         && IsContext(r.context.value, raw, if Ticks(results) == [] then last.time else Ticks(results)[0].sample)
         && r.dropped == |slots| - |Firsts(slots, |slots|)|
         && (r.skipped <==> dedupe && Repeating(samples, results, raw, r.tick.value.epoch))
         && if r.skipped then r.frames == []
            else AreFrames(r.frames, slots, Unskipped(results), r.tick.value, Frames(results))
  }

  /** The part of the state that the next result depends on. */
  ghost predicate Knows(s: State, samples: seq<Sample>, results: seq<MapResult>, dedupe: bool)
    requires |samples| == |results|
  {
    && Inv(s, results) && Remembers(s, samples, results, dedupe) && s.frameIndex == Unskipped(results)
    && (if Ticks(results) == [] then s.first.None? else s.first == Some(Ticks(results)[0].sample))
  }

  lemma TickedEpoch(s: State, sample: int)
    ensures var (after, t) := Ticked(s, sample);
            && t.sample == sample && t.epoch == after.epoch && after.first == s.first && after.frameIndex == s.frameIndex
            && after.dedupe == s.dedupe && after.client == s.client && after.session == s.session
            && after.fingerprint == (if t.epoch == s.epoch then s.fingerprint else None)
            && (t.epoch == s.epoch ==> after.prev == s.prev)
  {
  }

  /** Mapped, part by part. */
  lemma MappedParts(s: State, raw: Snapshot, sample: int)
    ensures var (s1, t) := Ticked(Rebound(s, raw), sample);
            var (after, r) := Mapped(s, raw, sample);
            var slots := SlotsOf(raw.teams);
            && r.tick == Some(t) && r.limit.None? && r.context == Some(ContextOf(raw, FirstOnly(slots), FirstSample(s, sample)))
            && r.dropped == |slots| - |FirstOnly(slots)|
            && (r.skipped <==> s1.dedupe && s1.fingerprint == Some(raw.fingerprint))
            && r.frames == (if r.skipped then [] else Emitted(FirstOnly(slots), s1.prev, s1.frameIndex, t).0)
            && after.frameIndex == s1.frameIndex + (if r.skipped then 0 else 1)
            && after.first == s1.first && after.epoch == s1.epoch && after.dedupe == s1.dedupe
            && after.client == s1.client && after.session == s1.session
            && after.fingerprint == if s1.dedupe then Some(raw.fingerprint) else s1.fingerprint
  {
    hide Ticked, Emitted, FirstOnly, SlotsOf, ContextOf;
  }

  /** What change detection knows of the last mapped snapshot. */
  lemma SkipsRepeats(s: State, samples: seq<Sample>, results: seq<MapResult>, raw: Snapshot, sample: int, dedupe: bool)
    requires |samples| == |results| && Remembers(s, samples, results, dedupe)
    ensures var (s1, t) := Ticked(Rebound(s, raw), sample);
            (s1.dedupe && s1.fingerprint == Some(raw.fingerprint) <==> dedupe && Repeating(samples, results, raw, t.epoch))
            && s1.dedupe == dedupe && s1.client == raw.client && s1.session == raw.session && (!dedupe ==> s1.fingerprint == None)
            && s1.first == s.first && s1.frameIndex == s.frameIndex && s1.epoch == t.epoch && t.sample == sample
  {
    hide Ticked, LastMapped;
    TickedEpoch(Rebound(s, raw), sample);
  }

  lemma MappedMapsTo(s: State, samples: seq<Sample>, results: seq<MapResult>, last: Sample, dedupe: bool)
    requires |samples| == |results| && last.raw.Some?
    requires Inv(s, results) && Remembers(s, samples, results, dedupe) && s.frameIndex == Unskipped(results)
    requires s.first == Some(if Ticks(results) == [] then last.time else Ticks(results)[0].sample)
    ensures MapsTo(samples, results, last, Mapped(s, last.raw.value, last.time).1, dedupe)
  {
    var raw, slots := last.raw.value, SlotsOf(last.raw.value.teams);
    var (s1, t) := Ticked(Rebound(s, raw), last.time);
    var r := Mapped(s, raw, last.time).1;
    hide Mapped, SlotsOf, FirstOnly, Emitted, Ticked, ContextOf, Firsts, Inv, FramesInv, LastMapped, Unskipped, Frames, Ticks, IsContext,
         AreFrames, Remembers, Repeating, Rebound, MapsTo;
    MappedParts(s, raw, last.time);
    SkipsRepeats(s, samples, results, raw, last.time, dedupe);
    InvFrames(s, raw, results);
    TickedFrames(Rebound(s, raw), last.time, Frames(results));
    ContextIsExact(raw, s.first.value);
    FramesAreExact(slots, s1.prev, s1.frameIndex, t, Frames(results));
    KeptCount(slots);
    MapsAsSaid(samples, results, last, r, dedupe);
  }

  lemma InvFrames(s: State, raw: Snapshot, results: seq<MapResult>)
    requires Inv(s, results)
    ensures var s0 := Rebound(s, raw);
            && FramesInv(Frames(results), s0.prev, s0.epoch, if s0.last.Some? then s0.last.value else 0)
            && (s0.last.None? ==> Frames(results) == [] && s0.prev == map[] && s0.epoch == 0)
            && s0.frameIndex == s.frameIndex
  {
    hide FramesInv, TicksInv, Identified;
  }

  lemma KeptCount(slots: seq<Slot>)
    ensures |FirstOnly(slots)| == |Firsts(slots, |slots|)|
  {
    assert slots[..|slots|] == slots;
    KeptAreFirsts(slots, |slots|);
  }

  lemma MapsAsSaid(samples: seq<Sample>, results: seq<MapResult>, last: Sample, r: MapResult, dedupe: bool)
    requires |samples| == |results| && last.raw.Some? && r.tick.Some? && r.limit.None? && r.context.Some?
    requires IsContext(r.context.value, last.raw.value, if Ticks(results) == [] then last.time else Ticks(results)[0].sample)
    requires r.dropped == |SlotsOf(last.raw.value.teams)| - |Firsts(SlotsOf(last.raw.value.teams), |SlotsOf(last.raw.value.teams)|)|
    requires r.skipped <==> dedupe && Repeating(samples, results, last.raw.value, r.tick.value.epoch)
    requires if r.skipped then r.frames == []
             else AreFrames(r.frames, SlotsOf(last.raw.value.teams), Unskipped(results), r.tick.value, Frames(results))
    ensures MapsTo(samples, results, last, r, dedupe)
  {
    hide IsContext, AreFrames, Repeating, Ticks, Frames, Unskipped, Firsts, SlotsOf;
  }

  lemma MappedRemembers(s: State, samples: seq<Sample>, results: seq<MapResult>, last: Sample, dedupe: bool)
    requires |samples| == |results| && last.raw.Some?
    requires Remembers(s, samples, results, dedupe) && s.frameIndex == Unskipped(results)
    ensures var (after, r) := Mapped(s, last.raw.value, last.time);
            && Remembers(after, samples + [last], results + [r], dedupe) && after.frameIndex == Unskipped(results + [r])
            && after.first == s.first && r.tick.Some? && r.tick.value.sample == last.time
  {
    var raw := last.raw.value;
    var r := Mapped(s, raw, last.time).1;
    MappedParts(s, raw, last.time);
    SkipsRepeats(s, samples, results, raw, last.time, dedupe);
    LastMappedSnoc(results, r);
    hide Mapped, SlotsOf, FirstOnly, Emitted, Ticked, ContextOf, LastMapped, Unskipped, Repeating, Rebound;
  }

  lemma RefusedKnows(s: State, samples: seq<Sample>, results: seq<MapResult>, last: Sample, r: MapResult, dedupe: bool)
    requires |samples| == |results| && Knows(s, samples, results, dedupe) && r == NOTHING.(limit := r.limit) && Inv(s, results + [r])
    ensures Knows(s, samples + [last], results + [r], dedupe)
  {
    hide Inv, LastMapped, Unskipped, Ticks;
    ResultsSnoc(results, r);
    LastMappedSnoc(results, r);
    assert Ticks(results) + [] == Ticks(results);
  }

  lemma StepKnows(s: State, samples: seq<Sample>, results: seq<MapResult>, last: Sample, dedupe: bool)
    requires |samples| == |results| && Knows(s, samples, results, dedupe)
    ensures var (after, r) := Step(s, last.raw, last.time);
            MapsTo(samples, results, last, r, dedupe) && Knows(after, samples + [last], results + [r], dedupe)
  {
    StepKeeps(s, last.raw, last.time, results);
    hide Inv, Mapped, SizeError, Admitted, MapsTo, LastMapped, Unskipped, Remembers, Ticks;
    var (after, r) := Step(s, last.raw, last.time);
    if last.raw.Some? && SizeError(s.limits, last.raw.value.teams).None? && Admitted(s, last.raw.value.teams).Some? {
      var s1 := s.(players := Admitted(s, last.raw.value.teams).value, first := Some(FirstSample(s, last.time)));
      InvFirst(s, s1, results);
      SameMemory(s, s1, samples, results, dedupe);
      MappedMapsTo(s1, samples, results, last, dedupe);
      MappedRemembers(s1, samples, results, last, dedupe);
      ResultsSnoc(results, r);
      FirstOfSnoc(Ticks(results), r.tick.value);
    } else {
      NotMapped(samples, results, last, r, dedupe);
      RefusedKnows(s, samples, results, last, r, dedupe);
    }
  }

  lemma FirstOfSnoc(ticks: seq<Tick>, t: Tick)
    ensures (ticks + [t])[0] == if ticks == [] then t else ticks[0]
  {
  }

  lemma SameMemory(s: State, s': State, samples: seq<Sample>, results: seq<MapResult>, dedupe: bool)
    requires |samples| == |results| && Remembers(s, samples, results, dedupe) && s' == s.(players := s'.players, first := s'.first)
    ensures Remembers(s', samples, results, dedupe)
  {
  }

  lemma InvFirst(s: State, s': State, results: seq<MapResult>)
    requires Inv(s, results) && s' == s.(players := s'.players, first := s'.first) && s'.first.Some? && (s.first.Some? ==> s'.first == s.first)
    ensures Inv(s', results)
  {
    hide TicksInv, FramesInv, Identified;
    FirstTicks(s, s', Ticks(results));
  }

  lemma NotMapped(samples: seq<Sample>, results: seq<MapResult>, last: Sample, r: MapResult, dedupe: bool)
    requires |samples| == |results| && r == NOTHING.(limit := r.limit) && (last.raw.None? <==> r.limit.None?)
    ensures MapsTo(samples, results, last, r, dedupe)
  {
  }

  lemma StartKnows(s: State)
    requires AtStart(s)
    ensures Knows(s, [], [], s.dedupe)
  {
    StartInv(s);
    hide Inv;
  }

  lemma RunLast(s: State, samples: seq<Sample>)
    requires samples != []
    ensures var n := |samples| - 1;
            var (before, results) := Run(s, samples[..n]);
            var (after, r) := Step(before, samples[n].raw, samples[n].time);
            Run(s, samples) == (after, results + [r]) && samples == samples[..n] + [samples[n]]
  {
    hide Step;
  }

  lemma {:induction false} RunKnows(s: State, samples: seq<Sample>)
    requires AtStart(s)
    ensures var (after, results) := Run(s, samples); |results| == |samples| && Knows(after, samples, results, s.dedupe)
    decreases |samples|
  {
    if samples == [] {
      StartKnows(s);
    } else {
      hide Step, AtStart, Knows, MapsTo, Run;
      var n := |samples| - 1;
      RunKnows(s, samples[..n]);
      var (before, results) := Run(s, samples[..n]);
      StepKnows(before, samples[..n], results, samples[n], s.dedupe);
      RunLast(s, samples);
    }
  }

  /** For every sequence of samples of a match, what its last sample is mapped to: nothing when it is missing or refused;
      otherwise a context that lists the first entry of every id, no frames when change detection finds the last mapped
      snapshot again, and else one frame for each listed entry with a usable position, whose index counts the snapshots
      before it and whose delta is the time since the player's last frame in the epoch. */
  lemma LastSampleMapsTo(s: State, samples: seq<Sample>)
    requires AtStart(s) && samples != []
    ensures var n := |samples| - 1;
            var results := Run(s, samples[..n]).1;
            |results| == n && MapsTo(samples[..n], results, samples[n], Run(s, samples).1[n], s.dedupe)
  {
    hide Step, AtStart, Knows, MapsTo, Run;
    var n := |samples| - 1;
    RunKnows(s, samples[..n]);
    var (before, results) := Run(s, samples[..n]);
    StepKnows(before, samples[..n], results, samples[n], s.dedupe);
    RunLast(s, samples);
  }

  // ----- The playing entries, and the limits

  /** The playing entries of two lists of teams are those of the first and then those of the second; a team without a role
      has none, and one with a role has its players in their order. */
  lemma {:induction false} SlotsConcat(a: seq<Team>, b: seq<Team>)
    ensures SlotsOf(a + b) == SlotsOf(a) + SlotsOf(b) && CountEntries(a + b) == CountEntries(a) + CountEntries(b)
  {
    if b == [] {
      assert a + b == a;
    } else {
      SlotsConcat(a, b[..|b| - 1]);
      assert (a + b)[..|a + b| - 1] == a + b[..|b| - 1];
    }
  }

  lemma SlotsOfOne(t: Team)
    ensures CountEntries([t]) == |t.players|
    ensures t.role.None? ==> SlotsOf([t]) == []
    ensures t.role.Some? ==> SlotsOf([t]) == seq(|t.players|, i requires 0 <= i < |t.players| => Slot(t.role.value, t.players[i]))
  {
    assert [t][..0] == [];
    if t.role.Some? { TeamSlots(t.role.value, t.players); }
  }

  lemma {:induction false} TeamSlots(role: Role, players: seq<Entry>)
    ensures SlotsOfTeam(role, players) == seq(|players|, i requires 0 <= i < |players| => Slot(role, players[i]))
  {
    if players != [] { TeamSlots(role, players[..|players| - 1]); }
  }

  /** More than a limit that is in force. */
  predicate Beyond(limit: int, n: nat) {
    limit > 0 && n > limit
  }

  /** Whatever the limits are, a snapshot is refused exactly if it has more playing entries or more entries in all than they
      allow, or would bring the roster of the match above them; any other joins the roster as a whole, if one is kept. */
  lemma RefusedExactlyWhen(s: State, raw: Snapshot, sample: int)
    ensures var (after, r) := Step(s, Some(raw), sample);
            var playing := SlotsOf(raw.teams);
            var oversized := Beyond(s.limits.snapshot, |playing|) || Beyond(s.limits.entries, CountEntries(raw.teams));
            var crowded := Beyond(s.limits.matchPlayers, |s.players + Ids(playing)|);
            && r.limit == (if oversized then Some(TooManySnapshotPlayers) else if crowded then Some(TooManyMatchPlayers) else None)
            && after.players == (if oversized || crowded || s.limits.matchPlayers <= 0 then s.players else s.players + Ids(playing))
  {
    hide SlotsOf, FirstOnly, Ids, Mapped, CountEntries, PlayersOf;
    if Admitted(s, raw.teams).Some? {
      var s1 := s.(players := Admitted(s, raw.teams).value, first := Some(FirstSample(s, sample)));
      MappedRoster(s1, raw, sample);
      MappedIsNoRefusal(s1, raw, sample);
    }
  }

  /** The limits in force for recordings: 32 playing entries and 64 entries in a snapshot, and 64 players in a match. */
  lemma EnforcedLimits(s: State, raw: Snapshot, sample: int)
    requires s.limits == ENFORCED
    ensures var playing := SlotsOf(raw.teams);
            Step(s, Some(raw), sample).1.limit
              == if |playing| > 32 || CountEntries(raw.teams) > 64 then Some(TooManySnapshotPlayers)
                 else if |s.players + Ids(playing)| > 64 then Some(TooManyMatchPlayers) else None
  {
    hide SlotsOf, Ids, CountEntries, Step;
    RefusedExactlyWhen(s, raw, sample);
  }

  lemma MappedIsNoRefusal(s: State, raw: Snapshot, sample: int)
    ensures Mapped(s, raw, sample).1.limit.None?
  {
    MappedParts(s, raw, sample);
  }

  // ----- The merged context

  /** A context speaks of its own players only, and leaves empty names out. */
  ghost predicate OwnPlayers(c: Context) {
    forall p :: (p in c.teams ==> p in c.players) && (p in c.names ==> p in c.players && c.names[p] != "")
  }

  ghost predicate AllOwn(results: seq<MapResult>) {
    forall i :: 0 <= i < |results| && results[i].context.Some? ==> OwnPlayers(results[i].context.value)
  }

  /** What the last context that knows it says about a player. */
  function LastTeam(results: seq<MapResult>, p: PlayerId): Option<Role> {
    if results == [] then None
    else
      var c := results[|results| - 1].context;
      if c.Some? && p in c.value.teams then Some(c.value.teams[p]) else LastTeam(results[..|results| - 1], p)
  }

  function LastName(results: seq<MapResult>, p: PlayerId): Option<string> {
    if results == [] then None
    else
      var c := results[|results| - 1].context;
      if c.Some? && p in c.value.names then Some(c.value.names[p]) else LastName(results[..|results| - 1], p)
  }

  function FirstContext(results: seq<MapResult>): Option<Context> {
    if results == [] then None
    else
      var rest := FirstContext(results[..|results| - 1]);
      if rest.Some? then rest else results[|results| - 1].context
  }

  ghost predicate KnowsLatest(c: Context, results: seq<MapResult>) {
    forall p ::
      && (p in c.teams <==> LastTeam(results, p).Some?) && (p in c.teams && LastTeam(results, p).Some? ==> c.teams[p] == LastTeam(results, p).value)
      && (p in c.names <==> LastName(results, p).Some?) && (p in c.names && LastName(results, p).Some? ==> c.names[p] == LastName(results, p).value)
  }

  lemma MergedSnoc(results: seq<MapResult>, r: MapResult)
    ensures var before := MergedContext(results);
            MergedContext(results + [r]) == if r.context.None? then before else if before.None? then r.context else Some(Merged(before.value, r.context.value))
    ensures FirstContext(results + [r]) == if FirstContext(results).Some? then FirstContext(results) else r.context
    ensures forall p :: LastTeam(results + [r], p)
              == if r.context.Some? && p in r.context.value.teams then Some(r.context.value.teams[p]) else LastTeam(results, p)
    ensures forall p :: LastName(results + [r], p)
              == if r.context.Some? && p in r.context.value.names then Some(r.context.value.names[p]) else LastName(results, p)
  {
    assert (results + [r])[..|results|] == results;
  }

  lemma MergedKnows(dst: Context, src: Context, results: seq<MapResult>, r: MapResult)
    requires KnowsLatest(dst, results) && OwnPlayers(src) && r.context == Some(src)
    ensures KnowsLatest(Merged(dst, src), results + [r])
  {
    hide AppendNew, MergedContext, FirstContext;
    MergedSnoc(results, r);
    hide LastTeam, LastName;
  }

  /** The merged context keeps the session and the start of the first one, and knows of every player the team and the name
      of the last context that told it. */
  lemma {:induction false} LatestWins(results: seq<MapResult>)
    requires AllOwn(results)
    ensures var c := MergedContext(results);
            && (c.Some? <==> FirstContext(results).Some?)
            && (c.Some? && FirstContext(results).Some? ==>
                  c.value.session == FirstContext(results).value.session && c.value.start == FirstContext(results).value.start
                  && KnowsLatest(c.value, results))
            && (c.None? ==> forall p :: LastTeam(results, p).None? && LastName(results, p).None?)
  {
    if results != [] {
      hide KnowsLatest, OwnPlayers, Merged;
      var rest, last := results[..|results| - 1], results[|results| - 1];
      assert results == rest + [last];
      LatestWins(rest);
      MergedSnoc(rest, last);
      hide MergedContext, LastTeam, LastName, FirstContext;
      if last.context.Some? {
        assert OwnPlayers(last.context.value);
        if MergedContext(rest).Some? {
          MergedKnows(MergedContext(rest).value, last.context.value, rest, last);
          MergedKeepsIdentity(MergedContext(rest).value, last.context.value);
        } else {
          FirstKnows(last.context.value, rest, last);
        }
      } else {
        NothingNew(MergedContext(rest), rest, last);
      }
    }
  }

  lemma MergedKeepsIdentity(dst: Context, src: Context)
    ensures Merged(dst, src).session == dst.session && Merged(dst, src).start == dst.start
  {
  }

  lemma FirstKnows(c: Context, rest: seq<MapResult>, r: MapResult)
    requires r.context == Some(c) && forall p :: LastTeam(rest, p).None? && LastName(rest, p).None?
    ensures KnowsLatest(c, rest + [r])
  {
    MergedSnoc(rest, r);
    hide LastTeam, LastName;
  }

  lemma NothingNew(c: Option<Context>, rest: seq<MapResult>, r: MapResult)
    requires r.context.None?
    ensures c.Some? && KnowsLatest(c.value, rest) ==> KnowsLatest(c.value, rest + [r])
    ensures forall p :: LastTeam(rest + [r], p) == LastTeam(rest, p) && LastName(rest + [r], p) == LastName(rest, p)
  {
    MergedSnoc(rest, r);
    hide LastTeam, LastName;
  }

  lemma ContextIsOwn(c: Context, raw: Snapshot, start: int)
    requires IsContext(c, raw, start)
    ensures OwnPlayers(c)
  {
    var slots := SlotsOf(raw.teams);
    var at := Firsts(slots, |slots|);
    hide SlotsOf, Firsts, IsFirst;
    forall p | p in c.names ensures c.names[p] != "" {
      var k :| 0 <= k < |c.players| && c.players[k] == p;
      assert Lists(c, slots[at[k]]);
    }
  }

  lemma {:induction false} RunIsOwn(s: State, samples: seq<Sample>)
    requires AtStart(s)
    ensures AllOwn(Run(s, samples).1)
    decreases |samples|
  {
    if samples != [] {
      hide Step, AtStart, OwnPlayers, IsContext;
      var n := |samples| - 1;
      var results := Run(s, samples[..n]).1;
      RunIsOwn(s, samples[..n]);
      LastSampleMapsTo(s, samples);
      var r := Run(s, samples).1[n];
      if r.context.Some? {
        ContextIsOwn(r.context.value, samples[n].raw.value, if Ticks(results) == [] then samples[n].time else Ticks(results)[0].sample);
      }
    }
  }

  /** The context of a match, over any samples of it. */
  lemma MergedContextIsLatest(s: State, samples: seq<Sample>)
    requires AtStart(s)
    ensures var results := Run(s, samples).1;
            var c, first := MergedContext(results), FirstContext(results);
            && (c.Some? <==> first.Some?)
            && (c.Some? && first.Some? ==>
                  c.value.session == first.value.session && c.value.start == first.value.start && KnowsLatest(c.value, results))
  {
    RunIsOwn(s, samples);
    LatestWins(Run(s, samples).1);
  }
}
