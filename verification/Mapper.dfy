/** The Mapper of internal/adapter/mapper.go: telemetry frames from sampled session snapshots.
    Times are integer nanoseconds, so the next representable value after t is t + 1. */
module Mapper {
  import opened Common

  // ----- What a snapshot says

  datatype Role = Blue | Orange

  /** The id a player gets: the user id when there is one, the name otherwise. */
  datatype PlayerId = UserId(id: int) | Named(name: string)

  /** A player entry; mappable says that its body position is usable. */
  datatype Entry = Entry(userId: int, name: string, mappable: bool)

  /** A team with the role its name and place give it; spectators and unknown teams have none. */
  datatype Team = Team(role: Option<Role>, players: seq<Entry>)

  datatype Snapshot = Snapshot(session: string, client: string, teams: seq<Team>, fingerprint: int)

  /** playerID. */
  function IdOf(e: Entry): PlayerId {
    if e.userId != 0 then UserId(e.userId) else Named(e.name)
  }

  /** An entry of one of the two playing teams. */
  datatype Slot = Slot(role: Role, entry: Entry)

  function SlotsOfTeam(role: Role, players: seq<Entry>): seq<Slot> {
    if players == [] then [] else SlotsOfTeam(role, players[..|players| - 1]) + [Slot(role, players[|players| - 1])]
  }

  /** The entries of the playing teams, in team order and then player order. */
  function SlotsOf(teams: seq<Team>): seq<Slot> {
    if teams == [] then [] else
      var last := teams[|teams| - 1];
      SlotsOf(teams[..|teams| - 1]) + if last.role.Some? then SlotsOfTeam(last.role.value, last.players) else []
  }

  function Ids(slots: seq<Slot>): set<PlayerId> {
    set i | 0 <= i < |slots| :: IdOf(slots[i].entry)
  }

  /** Without the entries whose id appeared earlier in the snapshot. */
  function FirstOnly(slots: seq<Slot>): seq<Slot> {
    if slots == [] then [] else
      var rest, last := slots[..|slots| - 1], slots[|slots| - 1];
      if IdOf(last.entry) in Ids(rest) then FirstOnly(rest) else FirstOnly(rest) + [last]
  }

  function CountEntries(teams: seq<Team>): nat {
    if teams == [] then 0 else CountEntries(teams[..|teams| - 1]) + |teams[|teams| - 1].players|
  }

  // ----- What mapping a snapshot gives

  datatype Frame = Frame(player: PlayerId, role: Role, index: nat, timestamp: int, delta: int, epoch: nat)

  datatype Context = Context(session: string, players: seq<PlayerId>, teams: map<PlayerId, Role>, names: map<PlayerId, string>, start: int)

  datatype LimitError = TooManySnapshotPlayers | TooManyMatchPlayers

  /** The timestamp all frames of one snapshot carry, and how it was found. */
  datatype Tick = Tick(sample: int, timestamp: int, clamped: bool, epoch: nat)

  datatype MapResult = MapResult(limit: Option<LimitError>, context: Option<Context>, tick: Option<Tick>, skipped: bool,
                                 frames: seq<Frame>, dropped: int)

  const NOTHING := MapResult(None, None, None, false, [], 0)

  // ----- The state between snapshots

  const CLOCK_STEP_THRESHOLD := 1_000_000_000
  const MAX_SNAPSHOT_PLAYERS := 32
  const MAX_SNAPSHOT_ENTRIES := 64
  const MAX_MATCH_PLAYERS := 64

  /** Limits of 0 are not enforced. */
  datatype Limits = Limits(entries: int, snapshot: int, matchPlayers: int)

  const ENFORCED := Limits(MAX_SNAPSHOT_ENTRIES, MAX_SNAPSHOT_PLAYERS, MAX_MATCH_PLAYERS)

  datatype State = State(frameIndex: nat, first: Option<int>, clockOffset: int, last: Option<int>, epoch: nat,
                         prev: map<PlayerId, int>, dedupe: bool, fingerprint: Option<int>,
                         client: string, session: string, limits: Limits, players: set<PlayerId>)

  /** NewMatch. */
  function Fresh(s: State): State {
    State(0, None, 0, None, 0, map[], s.dedupe, None, "", "", s.limits, {})
  }

  // ----- Mapping one snapshot, as a function of the state

  function SizeError(limits: Limits, teams: seq<Team>): Option<LimitError> {
    if limits.entries <= 0 && limits.snapshot <= 0 then None
    else if limits.snapshot > 0 && |SlotsOf(teams)| > limits.snapshot then Some(TooManySnapshotPlayers)
    else if limits.entries > 0 && CountEntries(teams) > limits.entries then Some(TooManySnapshotPlayers)
    else None
  }

  /** The roster with the players of the snapshot, unless there would be too many. */
  function Admitted(s: State, teams: seq<Team>): Option<set<PlayerId>> {
    if s.limits.matchPlayers <= 0 then Some(s.players)
    else
      var all := s.players + Ids(SlotsOf(teams));
      if |all| > s.limits.matchPlayers then None else Some(all)
  }

  function FirstSample(s: State, sample: int): int {
    if s.first.Some? then s.first.value else sample
  }

  /** tickTimestamp, for a state that has its first sample. */
  function Ticked(s: State, sample: int): (State, Tick) {
    var t := sample - FirstSample(s, sample) + s.clockOffset;
    if s.last.Some? && t <= s.last.value - CLOCK_STEP_THRESHOLD then
      var want := s.last.value + 1;
      (s.(clockOffset := s.clockOffset + (want - t), epoch := s.epoch + 1, prev := map[], fingerprint := None, last := Some(want)),
       Tick(sample, want, false, s.epoch + 1))
    else if s.last.Some? && t < s.last.value then (s, Tick(sample, s.last.value, true, s.epoch))
    else (s.(last := Some(t)), Tick(sample, t, false, s.epoch))
  }

  function Delta(prev: map<PlayerId, int>, p: PlayerId, timestamp: int): int {
    if p in prev then Max(0, timestamp - prev[p]) else 0
  }

  /** The frames of a snapshot's first entries, and each player's last timestamp after them. */
  function Emitted(slots: seq<Slot>, prev: map<PlayerId, int>, index: nat, t: Tick): (seq<Frame>, map<PlayerId, int>) {
    if slots == [] then ([], prev)
    else
      var (fs, before) := Emitted(slots[..|slots| - 1], prev, index, t);
      var slot := slots[|slots| - 1];
      var p := IdOf(slot.entry);
      if slot.entry.mappable then
        (fs + [Frame(p, slot.role, index, t.timestamp, Delta(before, p, t.timestamp), t.epoch)], before[p := t.timestamp])
      else (fs, before)
  }

  function PlayersOf(slots: seq<Slot>): seq<PlayerId> {
    if slots == [] then [] else PlayersOf(slots[..|slots| - 1]) + [IdOf(slots[|slots| - 1].entry)]
  }

  function TeamsOf(slots: seq<Slot>): map<PlayerId, Role> {
    if slots == [] then map[] else
      var last := slots[|slots| - 1];
      TeamsOf(slots[..|slots| - 1])[IdOf(last.entry) := last.role]
  }

  function NamesOf(slots: seq<Slot>): map<PlayerId, string> {
    if slots == [] then map[] else
      var rest, last := NamesOf(slots[..|slots| - 1]), slots[|slots| - 1];
      if last.entry.name == "" then rest else rest[IdOf(last.entry) := last.entry.name]
  }

  /** mapMatchContext. */
  function ContextOf(raw: Snapshot, kept: seq<Slot>, start: int): Context {
    Context(raw.session, PlayersOf(kept), TeamsOf(kept), NamesOf(kept), start)
  }

  /** A change of the local player or the session forgets the fingerprint. */
  function Rebound(s: State, raw: Snapshot): State {
    if raw.client != s.client || raw.session != s.session then s.(fingerprint := None, client := raw.client, session := raw.session) else s
  }

  /** MapSessionAt. */
  function Step(s: State, raw: Option<Snapshot>, sample: int): (State, MapResult) {
    if raw.None? then (s, NOTHING)
    else
      var size := SizeError(s.limits, raw.value.teams);
      if size.Some? then (s, NOTHING.(limit := size))
      else
        var players := Admitted(s, raw.value.teams);
        if players.None? then (s, NOTHING.(limit := Some(TooManyMatchPlayers)))
        else Mapped(s.(players := players.value, first := Some(FirstSample(s, sample))), raw.value, sample)
  }

  /** The part of MapSessionAt behind the limits. */
  function Mapped(s: State, raw: Snapshot, sample: int): (State, MapResult) {
    var kept := FirstOnly(SlotsOf(raw.teams));
    var context := ContextOf(raw, kept, FirstSample(s, sample));
    var result := MapResult(None, Some(context), None, false, [], |SlotsOf(raw.teams)| - |kept|);
    var (s1, tick) := Ticked(Rebound(s, raw), sample);
    if s1.dedupe && s1.fingerprint == Some(raw.fingerprint) then (s1, result.(tick := Some(tick), skipped := true))
    else
      var s2 := if s1.dedupe then s1.(fingerprint := Some(raw.fingerprint)) else s1;
      var (frames, prev) := Emitted(kept, s2.prev, s2.frameIndex, tick);
      (s2.(prev := prev, frameIndex := s2.frameIndex + 1), result.(tick := Some(tick), frames := frames))
  }

  // ----- Merging contexts

  /** The players of b that a lacks, after those of a. */
  function AppendNew(a: seq<PlayerId>, b: seq<PlayerId>): seq<PlayerId> {
    if b == [] then a else
      var rest, last := AppendNew(a, b[..|b| - 1]), b[|b| - 1];
      if last in rest then rest else rest + [last]
  }

  /** Later values win, for the players the later context lists. */
  function Override<V>(a: map<PlayerId, V>, b: map<PlayerId, V>, players: seq<PlayerId>): map<PlayerId, V> {
    map p | p in a.Keys + b.Keys && (p in a || p in players) :: if p in b && p in players then b[p] else a[p]
  }

  function NonEmpty(names: map<PlayerId, string>): map<PlayerId, string> {
    map p | p in names && names[p] != "" :: names[p]
  }

  function Merged(dst: Context, src: Context): Context {
    dst.(players := AppendNew(dst.players, src.players),
         teams := Override(dst.teams, src.teams, src.players),
         names := Override(dst.names, NonEmpty(src.names), src.players))
  }

  /** MergeMatchContext: the roster is a union in order of appearance, and the latest team and name win. */
  method MergeMatchContext(before: Context, src: Context) returns (dst: Context)
    ensures dst == Merged(before, src)
  {
    dst := before;
    for i := 0 to |src.players|
      invariant dst == before.(players := AppendNew(before.players, src.players[..i]),
                               teams := Override(before.teams, src.teams, src.players[..i]),
                               names := Override(before.names, NonEmpty(src.names), src.players[..i]))
    {
      var p := src.players[i];
      assert src.players[..i + 1][..i] == src.players[..i];
      OverrideOne(before.teams, src.teams, src.players, i);
      OverrideOne(before.names, NonEmpty(src.names), src.players, i);
      if p !in dst.players { dst := dst.(players := dst.players + [p]); }
      if p in src.teams { dst := dst.(teams := dst.teams[p := src.teams[p]]); }
      if p in src.names && src.names[p] != "" { dst := dst.(names := dst.names[p := src.names[p]]); }
    }
    assert src.players[..|src.players|] == src.players;
  }

  lemma OverrideOne<V>(a: map<PlayerId, V>, b: map<PlayerId, V>, players: seq<PlayerId>, i: nat)
    requires i < |players|
    ensures Override(a, b, players[..i + 1])
         == if players[i] in b then Override(a, b, players[..i])[players[i] := b[players[i]]] else Override(a, b, players[..i])
  {
    assert players[..i + 1] == players[..i] + [players[i]];
  }

  // ----- The mapper, as the adapter runs it

  class Mapper {
    var frameIndex: nat
    var haveFirstSample: bool
    var firstSampleTime: int
    var clockOffset: int
    var haveLastTick: bool
    var lastTickTimestamp: int
    var observationEpoch: nat
    var prevTimestamp: map<PlayerId, int>
    var dedupe: bool
    var haveFingerprint: bool
    var lastFingerprint: int
    var throwClientId: string
    var throwSessionId: string
    var limits: Limits
    var matchPlayers: set<PlayerId>

    function Value(): State
      reads this
    {
      State(frameIndex, if haveFirstSample then Some(firstSampleTime) else None, clockOffset,
            if haveLastTick then Some(lastTickTimestamp) else None, observationEpoch, prevTimestamp, dedupe,
            if haveFingerprint then Some(lastFingerprint) else None, throwClientId, throwSessionId, limits, matchPlayers)
    }

    constructor ()
      ensures Value() == State(0, None, 0, None, 0, map[], false, None, "", "", Limits(0, 0, 0), {})
    {
      frameIndex, haveFirstSample, firstSampleTime, clockOffset := 0, false, 0, 0;
      haveLastTick, lastTickTimestamp, observationEpoch, prevTimestamp := false, 0, 0, map[];
      dedupe, haveFingerprint, lastFingerprint, throwClientId, throwSessionId := false, false, 0, "", "";
      limits, matchPlayers := Limits(0, 0, 0), {};
    }

    method EnforceRosterLimits()
      modifies `limits
      ensures Value() == old(Value()).(limits := ENFORCED)
    {
      limits := ENFORCED;
    }

    method NewMatch()
      modifies this
      ensures Value() == Fresh(old(Value()))
    {
      frameIndex := 0;
      haveFirstSample := false;
      clockOffset := 0;
      haveLastTick := false;
      observationEpoch := 0;
      prevTimestamp := map[];
      haveFingerprint := false;
      throwClientId := "";
      throwSessionId := "";
      matchPlayers := {};
    }

    /** snapshotSizeError. */
    method SnapshotSizeError(teams: seq<Team>) returns (error: Option<LimitError>)
      ensures error == SizeError(limits, teams)
    {
      if limits.entries <= 0 && limits.snapshot <= 0 { return None; }
      var entries, mapped := 0, 0;
      for i := 0 to |teams|
        invariant entries == CountEntries(teams[..i]) && mapped == |SlotsOf(teams[..i])|
      {
        assert teams[..i + 1][..i] == teams[..i];
        entries := entries + |teams[i].players|;
        if teams[i].role.Some? {
          mapped := mapped + |teams[i].players|;
          SlotCount(teams[i].role.value, teams[i].players);
        }
      }
      assert teams[..|teams|] == teams;
      if limits.snapshot > 0 && mapped > limits.snapshot { return Some(TooManySnapshotPlayers); }
      if limits.entries > 0 && entries > limits.entries { return Some(TooManySnapshotPlayers); }
      error := None;
    }

    /** The two nested loops over teams and players that the passes below share. */
    method PlayingEntries(teams: seq<Team>) returns (slots: seq<Slot>)
      ensures slots == SlotsOf(teams)
    {
      slots := [];
      for i := 0 to |teams|
        invariant slots == SlotsOf(teams[..i])
      {
        assert teams[..i + 1][..i] == teams[..i];
        if teams[i].role.None? { continue; }
        var players := teams[i].players;
        for j := 0 to |players|
          invariant slots == SlotsOf(teams[..i]) + SlotsOfTeam(teams[i].role.value, players[..j])
        {
          assert players[..j + 1][..j] == players[..j];
          slots := slots + [Slot(teams[i].role.value, players[j])];
        }
        assert players[..|players|] == players;
      }
      assert teams[..|teams|] == teams;
    }

    /** admitMatchPlayers: all of the snapshot's players join the roster, or none does. */
    method AdmitMatchPlayers(teams: seq<Team>) returns (ok: bool)
      modifies `matchPlayers
      ensures ok <==> Admitted(old(Value()), teams).Some?
      ensures matchPlayers == if ok then Admitted(old(Value()), teams).value else old(matchPlayers)
    {
      if limits.matchPlayers <= 0 { return true; }
      hide SlotsOf, Ids, Elements;
      var slots := PlayingEntries(teams);
      var newcomers := Newcomers(slots);
      DisjointSize(matchPlayers, Elements(newcomers));
      ok := |matchPlayers| + |newcomers| <= limits.matchPlayers;
      if ok { matchPlayers := matchPlayers + Elements(newcomers); }
    }

    /** The snapshot's players that are not on the roster yet, each once. */
    method Newcomers(slots: seq<Slot>) returns (newcomers: seq<PlayerId>)
      ensures Elements(newcomers) !! matchPlayers && |Elements(newcomers)| == |newcomers|
      ensures matchPlayers + Elements(newcomers) == matchPlayers + Ids(slots)
    {
      hide Ids, Elements;
      EmptyIds(slots);
      newcomers := [];
      for i := 0 to |slots|
        invariant Elements(newcomers) !! matchPlayers && |Elements(newcomers)| == |newcomers|
        invariant matchPlayers + Elements(newcomers) == matchPlayers + Ids(slots[..i])
      {
        var p := IdOf(slots[i].entry);
        IdsSnoc(slots, i);
        ElementsSnoc(newcomers, p);
        InElements(newcomers, p);
        AddSame(matchPlayers, Elements(newcomers), Ids(slots[..i]), p);
        if p in matchPlayers || p in newcomers { continue; }
        newcomers := newcomers + [p];
      }
    }

    /** duplicatePlayerEntries: the places of the entries whose id came earlier. */
    method DuplicateEntries(slots: seq<Slot>) returns (dups: set<nat>)
      ensures forall j :: j in dups <==> 0 <= j < |slots| && IdOf(slots[j].entry) in Ids(slots[..j])
      ensures |dups| == |slots| - |FirstOnly(slots)|
    {
      hide Ids, FirstOnly;
      var seen: set<PlayerId> := {};
      dups := {};
      EmptyIds(slots);
      for i := 0 to |slots|
        invariant seen == Ids(slots[..i])
        invariant forall j :: j in dups <==> 0 <= j < i && IdOf(slots[j].entry) in Ids(slots[..j])
        invariant |dups| == i - |FirstOnly(slots[..i])|
      {
        IdsSnoc(slots, i);
        FirstOnlySnoc(slots, i);
        var p := IdOf(slots[i].entry);
        if p !in seen { seen := seen + {p}; } else { dups := dups + {i}; }
      }
      assert slots[..|slots|] == slots;
    }

    method MapMatchContext(raw: Snapshot, slots: seq<Slot>, dups: set<nat>) returns (context: Context)
      requires forall j :: j in dups <==> 0 <= j < |slots| && IdOf(slots[j].entry) in Ids(slots[..j])
      ensures context == ContextOf(raw, FirstOnly(slots), firstSampleTime)
    {
      var players: seq<PlayerId>, teams: map<PlayerId, Role>, names: map<PlayerId, string> := [], map[], map[];
      for i := 0 to |slots|
        invariant players == PlayersOf(FirstOnly(slots[..i])) && teams == TeamsOf(FirstOnly(slots[..i])) && names == NamesOf(FirstOnly(slots[..i]))
      {
        hide PlayersOf, TeamsOf, NamesOf, FirstOnly;
        FirstOnlySnoc(slots, i);
        if i in dups { continue; }
        var e := slots[i].entry;
        RosterSnoc(FirstOnly(slots[..i]), slots[i]);
        players, teams := players + [IdOf(e)], teams[IdOf(e) := slots[i].role];
        if e.name != "" { names := names[IdOf(e) := e.name]; }
      }
      assert slots[..|slots|] == slots;
      context := Context(raw.session, players, teams, names, firstSampleTime);
    }

    /** tickTimestamp. */
    method TickTimestamp(sample: int) returns (timestamp: int, backwards: bool)
      requires haveFirstSample
      modifies `clockOffset, `observationEpoch, `prevTimestamp, `haveFingerprint, `haveLastTick, `lastTickTimestamp
      ensures (Value(), Tick(sample, timestamp, backwards, observationEpoch)) == Ticked(old(Value()), sample)
    {
      timestamp := sample - firstSampleTime + clockOffset;
      backwards := false;
      if haveLastTick {
        if timestamp <= lastTickTimestamp - CLOCK_STEP_THRESHOLD {
          var want := lastTickTimestamp + 1;
          clockOffset := clockOffset + (want - timestamp);
          observationEpoch := observationEpoch + 1;
          prevTimestamp := map[];
          haveFingerprint := false;
          timestamp := want;
        } else if timestamp < lastTickTimestamp {
          timestamp := lastTickTimestamp;
          backwards := true;
        }
      }
      haveLastTick := true;
      lastTickTimestamp := timestamp;
    }

    /** The last loop of MapSessionAt. */
    method EmitFrames(slots: seq<Slot>, dups: set<nat>, t: Tick) returns (frames: seq<Frame>)
      requires forall j :: j in dups <==> 0 <= j < |slots| && IdOf(slots[j].entry) in Ids(slots[..j])
      modifies `prevTimestamp
      ensures (frames, prevTimestamp) == Emitted(FirstOnly(slots), old(prevTimestamp), frameIndex, t)
    {
      frames := [];
      for i := 0 to |slots|
        invariant (frames, prevTimestamp) == Emitted(FirstOnly(slots[..i]), old(prevTimestamp), frameIndex, t)
      {
        FirstOnlySnoc(slots, i);
        if i in dups { continue; }
        DropLast(FirstOnly(slots[..i]), slots[i]);
        var p := IdOf(slots[i].entry);
        var dt := 0;
        if p in prevTimestamp {
          dt := t.timestamp - prevTimestamp[p];
          if dt < 0 { dt := 0; }
        }
        if !slots[i].entry.mappable { continue; }
        frames := frames + [Frame(p, slots[i].role, frameIndex, t.timestamp, dt, t.epoch)];
        prevTimestamp := prevTimestamp[p := t.timestamp];
      }
      assert slots[..|slots|] == slots;
    }

    method MapSessionAt(raw: Option<Snapshot>, sample: int) returns (result: MapResult)
      modifies this
      ensures (Value(), result) == Step(old(Value()), raw, sample)
    {
      hide SizeError, Admitted, Ticked, Emitted, ContextOf, SlotsOf, FirstOnly, Ids;
      if raw.None? { return NOTHING; }
      var limitError := SnapshotSizeError(raw.value.teams);
      if limitError.Some? { return NOTHING.(limit := limitError); }
      var ok := AdmitMatchPlayers(raw.value.teams);
      if !ok { return NOTHING.(limit := Some(TooManyMatchPlayers)); }
      if !haveFirstSample {
        haveFirstSample := true;
        firstSampleTime := sample;
      }
      result := MapAdmitted(raw.value, sample);
    }

    method MapAdmitted(raw: Snapshot, sample: int) returns (result: MapResult)
      requires haveFirstSample
      modifies this
      ensures (Value(), result) == Mapped(old(Value()), raw, sample)
    {
      hide Ticked, Emitted, ContextOf, SlotsOf, FirstOnly, Ids;
      var slots := PlayingEntries(raw.teams);
      var dups := DuplicateEntries(slots);
      var context := MapMatchContext(raw, slots, dups);
      Rebind(raw);
      var timestamp, backwards := TickTimestamp(sample);
      var t := Tick(sample, timestamp, backwards, observationEpoch);
      result := MapResult(None, Some(context), Some(t), false, [], |dups|);
      var repeated := Repeats(raw.fingerprint);
      if repeated { return result.(skipped := true); }
      ghost var mid := Value();
      var frames := EmitFrames(slots, dups, t);
      frameIndex := frameIndex + 1;
      result := result.(frames := frames);
      assert Value() == mid.(prev := prevTimestamp, frameIndex := mid.frameIndex + 1);
    }

    method Rebind(raw: Snapshot)
      modifies `haveFingerprint, `throwClientId, `throwSessionId
      ensures Value() == Rebound(old(Value()), raw)
    {
      if raw.client != throwClientId || raw.session != throwSessionId {
        haveFingerprint := false;
        throwClientId, throwSessionId := raw.client, raw.session;
      }
    }

    /** Whether change detection skips the snapshot; if not, its fingerprint is the one to compare with next. */
    method Repeats(fingerprint: int) returns (skip: bool)
      modifies `haveFingerprint, `lastFingerprint
      ensures skip <==> dedupe && old(Value()).fingerprint == Some(fingerprint)
      ensures Value() == if dedupe && !skip then old(Value()).(fingerprint := Some(fingerprint)) else old(Value())
    {
      if !dedupe { return false; }
      if haveFingerprint && fingerprint == lastFingerprint { return true; }
      lastFingerprint := fingerprint;
      haveFingerprint := true;
      skip := false;
    }
  }

  // ----- Small facts for the loops

  lemma {:induction false} SlotCount(role: Role, players: seq<Entry>)
    ensures |SlotsOfTeam(role, players)| == |players|
  {
    if players != [] { SlotCount(role, players[..|players| - 1]); }
  }

  function Elements(xs: seq<PlayerId>): set<PlayerId> {
    set i | 0 <= i < |xs| :: xs[i]
  }

  lemma AddSame(a: set<PlayerId>, b: set<PlayerId>, c: set<PlayerId>, p: PlayerId)
    requires a + b == a + c && a !! b
    ensures a + (b + {p}) == a + (c + {p})
    ensures p in a || p in b ==> a + b == a + (c + {p})
    ensures p !in a && p !in b ==> a !! (b + {p}) && |b + {p}| == |b| + 1
  {
    assert a + (b + {p}) == (a + b) + {p} == (a + c) + {p} == a + (c + {p});
  }

  lemma InElements(xs: seq<PlayerId>, p: PlayerId)
    ensures p in xs <==> p in Elements(xs)
  {
    if p in xs { var i :| 0 <= i < |xs| && xs[i] == p; }
  }

  lemma EmptyIds(slots: seq<Slot>)
    ensures Ids(slots[..0]) == {} && Elements([]) == {} && FirstOnly(slots[..0]) == []
    ensures slots[..|slots|] == slots
  {
  }

  lemma ElementsSnoc(xs: seq<PlayerId>, p: PlayerId)
    ensures Elements(xs + [p]) == Elements(xs) + {p}
  {
    forall x | x in Elements(xs) ensures x in Elements(xs + [p]) {
      var i :| 0 <= i < |xs| && xs[i] == x;
      assert (xs + [p])[i] == x;
    }
    assert (xs + [p])[|xs|] == p;
  }

  lemma DisjointSize(a: set<PlayerId>, b: set<PlayerId>)
    requires a !! b
    ensures |a + b| == |a| + |b|
  {
  }

  lemma IdsSnoc(slots: seq<Slot>, i: nat)
    requires i < |slots|
    ensures Ids(slots[..i + 1]) == Ids(slots[..i]) + {IdOf(slots[i].entry)}
  {
    var a, b := slots[..i], slots[..i + 1];
    forall x | x in Ids(a) ensures x in Ids(b) {
      var j :| 0 <= j < |a| && IdOf(a[j].entry) == x;
      assert b[j] == a[j];
    }
    assert b[i] == slots[i];
    forall x | x in Ids(b) ensures x in Ids(a) + {IdOf(slots[i].entry)} {
      var j :| 0 <= j < |b| && IdOf(b[j].entry) == x;
      if j < i { assert a[j] == b[j]; }
    }
  }

  lemma FirstOnlySnoc(slots: seq<Slot>, i: nat)
    requires i < |slots|
    ensures FirstOnly(slots[..i + 1])
         == if IdOf(slots[i].entry) in Ids(slots[..i]) then FirstOnly(slots[..i]) else FirstOnly(slots[..i]) + [slots[i]]
  {
    assert slots[..i + 1][..i] == slots[..i];
  }

  /** One more entry in a roster. */
  lemma RosterSnoc(kept: seq<Slot>, slot: Slot)
    ensures var id, name := IdOf(slot.entry), slot.entry.name;
            && PlayersOf(kept + [slot]) == PlayersOf(kept) + [id] && TeamsOf(kept + [slot]) == TeamsOf(kept)[id := slot.role]
            && NamesOf(kept + [slot]) == if name == "" then NamesOf(kept) else NamesOf(kept)[id := name]
  {
    DropLast(kept, slot);
  }

  lemma DropLast(xs: seq<Slot>, x: Slot)
    ensures (xs + [x])[..|xs|] == xs
  {
  }
}
