/** cmd/bridge/epoch.go: the frame identity of one match id across poller restarts. Times are integer nanoseconds. */
module Epoch {
  import opened Common

  /** The frame index and time an observation of a frame is bound to. */
  datatype Binding = Binding(index: int, timestamp: int)

  datatype Frame = Frame(player: string, index: int, timestamp: int, delta: int, observation: Option<Binding>, provenance: Option<Binding>)

  /** frameEpoch: start is missing until the first sample. */
  datatype EpochState = EpochState(start: Option<int>, nextIndex: int, lastTS: int, playerTS: map<string, int>, session: string, lastSeen: int)

  const NEW := EpochState(None, 0, 0, map[], "", 0)

  function StartOf(e: EpochState, sample: int): int {
    if e.start.Some? then e.start.value else sample
  }

  /** The time of a sample: never before the last one. */
  function TimeOf(e: EpochState, sample: int): int {
    Max(sample - StartOf(e, sample), e.lastTS)
  }

  function Bound(b: Option<Binding>, index: int, ts: int): Option<Binding> {
    if b.Some? then Some(Binding(index, ts)) else None
  }

  function StampOne(f: Frame, index: int, ts: int, playerTS: map<string, int>): Frame {
    Frame(f.player, index, ts, if f.player in playerTS then ts - playerTS[f.player] else 0,
          Bound(f.observation, index, ts), Bound(f.provenance, index, ts))
  }

  /** The frames of one sample in order, and every player's last time after them. */
  function StampAll(frames: seq<Frame>, index: int, ts: int, playerTS: map<string, int>): (seq<Frame>, map<string, int>) {
    if frames == [] then ([], playerTS)
    else
      var (before, times) := StampAll(frames[..|frames| - 1], index, ts, playerTS);
      var f := frames[|frames| - 1];
      (before + [StampOne(f, index, ts, times)], times[f.player := ts])
  }

  /** stamp. */
  function Stamped(e: EpochState, sample: int, frames: seq<Frame>): (EpochState, seq<Frame>) {
    var ts := TimeOf(e, sample);
    var (stamped, times) := StampAll(frames, e.nextIndex, ts, e.playerTS);
    (e.(start := Some(StartOf(e, sample)), nextIndex := e.nextIndex + 1, lastTS := ts, playerTS := times, lastSeen := sample), stamped)
  }

  class FrameEpoch {
    var started: bool
    var startWall: int
    var nextIndex: int
    var lastTS: int
    var playerTS: map<string, int>
    var sessionID: string
    var lastSeen: int

    function Value(): EpochState
      reads this
    {
      EpochState(if started then Some(startWall) else None, nextIndex, lastTS, playerTS, sessionID, lastSeen)
    }

    constructor (now: int)
      ensures Value() == NEW.(lastSeen := now)
    {
      started, startWall, nextIndex, lastTS, playerTS := false, 0, 0, 0, map[];
      sessionID, lastSeen := "", now;
    }

    /** The frames are rewritten in place. */
    method Stamp(sample: int, frames: array<Frame>) returns (index: int, ts: int)
      modifies this, frames
      ensures (Value(), frames[..]) == Stamped(old(Value()), sample, old(frames[..]))
      ensures index == old(nextIndex) && ts == TimeOf(old(Value()), sample)
    {
      if !started { started, startWall := true, sample; }
      ts := sample - startWall;
      if ts < lastTS { ts := lastTS; }
      index := nextIndex;
      nextIndex := nextIndex + 1;
      StampFrames(frames, index, ts);
      lastTS := ts;
      lastSeen := sample;
    }

    method StampFrames(frames: array<Frame>, index: int, ts: int)
      modifies `playerTS, frames
      ensures (frames[..], playerTS) == StampAll(old(frames[..]), index, ts, old(playerTS))
    {
      ghost var given, times := frames[..], playerTS;
      for i := 0 to frames.Length
        invariant forall j :: i <= j < frames.Length ==> frames[j] == given[j]
        invariant (frames[..i], playerTS) == StampAll(given[..i], index, ts, times)
      {
        TakeOne(given, i);
        ghost var done := frames[..i];
        frames[i] := StampOne(frames[i], index, ts, playerTS);
        playerTS := playerTS[frames[i].player := ts];
        assert frames[..i + 1] == done + [frames[i]];
      }
      assert given[..frames.Length] == given && frames[..frames.Length] == frames[..];
    }

    method SetSession(id: string) returns (changed: bool)
      modifies `sessionID
      ensures Value() == old(Value()).(session := id)
      ensures changed <==> old(sessionID) != "" && id != "" && old(sessionID) != id
    {
      changed := sessionID != "" && id != "" && sessionID != id;
      sessionID := id;
    }
  }

  lemma TakeOne(frames: seq<Frame>, i: nat)
    requires i < |frames|
    ensures frames[..i + 1][..i] == frames[..i] && frames[..i + 1][i] == frames[i]
  {
  }

  // ----- The registry

  type Registry = map<string, EpochState>

  /** get, for a match that may be new. */
  function Got(r: Registry, id: string, now: int): Registry {
    if id in r then r else r[id := NEW.(lastSeen := now)]
  }

  /** touch. */
  function Touched(r: Registry, id: string, now: int): Registry {
    if id in r && now > r[id].lastSeen then r[id := r[id].(lastSeen := now)] else r
  }

  /** expire. */
  function Expired(r: Registry, now: int, ttl: int): Registry {
    map id | id in r && now - r[id].lastSeen <= ttl :: r[id]
  }

  class EpochRegistry {
    var epochs: Registry

    constructor ()
      ensures epochs == map[]
    {
      epochs := map[];
    }

    method Get(id: string, now: int) returns (e: EpochState)
      modifies this
      ensures epochs == Got(old(epochs), id, now) && id in epochs && e == epochs[id]
    {
      if id !in epochs { epochs := epochs[id := NEW.(lastSeen := now)]; }
      e := epochs[id];
    }

    method Touch(id: string, now: int)
      modifies this
      ensures epochs == Touched(old(epochs), id, now)
    {
      if id in epochs {
        var e := epochs[id];
        if now > e.lastSeen { e := e.(lastSeen := now); }
        epochs := epochs[id := e];
      }
    }

    method Expire(now: int, ttl: int) returns (removed: nat)
      modifies this
      ensures epochs == Expired(old(epochs), now, ttl) && removed == |old(epochs)| - |epochs|
    {
      removed := 0;
      ghost var before := epochs;
      var todo := epochs.Keys;
      while todo != {}
        invariant todo <= before.Keys && todo <= epochs.Keys && epochs.Keys <= before.Keys
        invariant forall id :: id in epochs ==> epochs[id] == before[id]
        invariant forall id :: id in before && id !in todo ==> (id in epochs <==> now - before[id].lastSeen <= ttl)
        invariant removed == |before.Keys| - |epochs.Keys|
        decreases |todo|
      {
        var id :| id in todo;
        todo := todo - {id};
        if now - epochs[id].lastSeen > ttl {
          assert (epochs - {id}).Keys == epochs.Keys - {id};
          epochs := epochs - {id};
          removed := removed + 1;
        }
      }
      assert |before| == |before.Keys| && |epochs| == |epochs.Keys|;
    }
  }
}
