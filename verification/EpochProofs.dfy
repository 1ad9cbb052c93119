/** What holds of the frames stamped for one match id, however pollers come and go. */
module EpochProofs {
  import opened Common
  import opened Epoch

  /** The frames stamped for an epoch: one entry for each sample. */
  type Log = seq<seq<Frame>>

  function Flatten(log: Log): seq<Frame> {
    if log == [] then [] else Flatten(log[..|log| - 1]) + log[|log| - 1]
  }

  function Track(fs: seq<Frame>, player: string): seq<Frame> {
    if fs == [] then [] else
      var rest, last := Track(fs[..|fs| - 1], player), fs[|fs| - 1];
      if last.player == player then rest + [last] else rest
  }

  function SumDelta(fs: seq<Frame>): int {
    if fs == [] then 0 else SumDelta(fs[..|fs| - 1]) + fs[|fs| - 1].delta
  }

  /** The deltas are not negative and add up to the last time minus the first. */
  predicate Telescopes(track: seq<Frame>) {
    && (forall i :: 0 <= i < |track| ==> track[i].delta >= 0)
    && (track != [] ==> SumDelta(track) == track[|track| - 1].timestamp - track[0].timestamp)
  }

  /** All frames of the k-th sample carry index k and one time, and times never decrease. */
  ghost predicate Sequenced(log: Log) {
    && (forall k, i :: 0 <= k < |log| && 0 <= i < |log[k]| ==> log[k][i].index == k)
    && (forall i, j :: 0 <= i < j < |Flatten(log)| ==> Flatten(log)[i].timestamp <= Flatten(log)[j].timestamp)
    && (forall k, i, j :: 0 <= k < |log| && 0 <= i < |log[k]| && 0 <= j < |log[k]| ==> log[k][i].timestamp == log[k][j].timestamp)
  }

  ghost predicate PlayerInv(fs: seq<Frame>, times: map<string, int>, player: string) {
    var track := Track(fs, player);
    && Telescopes(track)
    && (player in times <==> track != []) && (player in times && track != [] ==> times[player] == track[|track| - 1].timestamp)
  }

  ghost predicate FramesInv(fs: seq<Frame>, times: map<string, int>, last: int) {
    && (forall p :: PlayerInv(fs, times, p))
    && (forall i :: 0 <= i < |fs| ==> fs[i].timestamp <= last)
    && (forall p :: p in times ==> times[p] <= last)
  }

  ghost predicate EpochInv(e: EpochState, log: Log) {
    && e.nextIndex == |log| && Sequenced(log) && FramesInv(Flatten(log), e.playerTS, e.lastTS)
  }

  lemma FrameKeeps(fs: seq<Frame>, times: map<string, int>, last: int, f: Frame, index: int)
    requires FramesInv(fs, times, last)
    ensures FramesInv(fs + [StampOne(f, index, last, times)], times[f.player := last], last)
  {
    var g, next := StampOne(f, index, last, times), times[f.player := last];
    assert (fs + [g])[..|fs|] == fs;
    forall p ensures PlayerInv(fs + [g], next, p) {
      assert PlayerInv(fs, times, p);
      var track := Track(fs, p);
      assert (track + [g])[..|track|] == track;
    }
  }

  lemma {:induction false} StampKeeps(frames: seq<Frame>, index: int, ts: int, times: map<string, int>, fs: seq<Frame>)
    requires FramesInv(fs, times, ts)
    ensures var r := StampAll(frames, index, ts, times);
            && FramesInv(fs + r.0, r.1, ts)
            && (forall i :: 0 <= i < |r.0| ==> r.0[i].index == index && r.0[i].timestamp == ts)
  {
    if frames == [] {
      assert fs + [] == fs;
    } else {
      var rest, f := frames[..|frames| - 1], frames[|frames| - 1];
      StampKeeps(rest, index, ts, times, fs);
      var r := StampAll(rest, index, ts, times);
      FrameKeeps(fs + r.0, r.1, ts, f, index);
      assert fs + (r.0 + [StampOne(f, index, ts, r.1)]) == (fs + r.0) + [StampOne(f, index, ts, r.1)];
    }
  }

  lemma LaterKeeps(fs: seq<Frame>, times: map<string, int>, last: int, later: int)
    requires FramesInv(fs, times, last) && last <= later
    ensures FramesInv(fs, times, later)
  {
  }

  lemma StampedKeeps(e: EpochState, log: Log, sample: int, frames: seq<Frame>)
    requires EpochInv(e, log)
    ensures var r := Stamped(e, sample, frames); EpochInv(r.0, log + [r.1])
  {
    var ts := TimeOf(e, sample);
    LaterKeeps(Flatten(log), e.playerTS, e.lastTS, ts);
    StampKeeps(frames, e.nextIndex, ts, e.playerTS, Flatten(log));
    var r := Stamped(e, sample, frames);
    assert (log + [r.1])[..|log|] == log;
    Appended(log, r.1, e.nextIndex, ts);
  }

  lemma Appended(log: Log, more: seq<Frame>, index: int, ts: int)
    requires Sequenced(log) && index == |log|
    requires forall i :: 0 <= i < |Flatten(log)| ==> Flatten(log)[i].timestamp <= ts
    requires forall i :: 0 <= i < |more| ==> more[i].index == index && more[i].timestamp == ts
    ensures Sequenced(log + [more])
  {
    var longer := log + [more];
    assert longer[..|log|] == log;
    forall k, i | 0 <= k < |longer| && 0 <= i < |longer[k]| ensures longer[k][i].index == k {
      if k < |log| { assert longer[k] == log[k]; }
    }
    forall i, j | 0 <= i < j < |Flatten(longer)| ensures Flatten(longer)[i].timestamp <= Flatten(longer)[j].timestamp {
      var n := |Flatten(log)|;
      if j < n { assert Flatten(log)[i].timestamp <= Flatten(log)[j].timestamp; }
    }
    forall k, i, j | 0 <= k < |longer| && 0 <= i < |longer[k]| && 0 <= j < |longer[k]| ensures longer[k][i].timestamp == longer[k][j].timestamp {
      if k < |log| { assert longer[k] == log[k]; }
    }
  }

  // ----- The registry over any sequence of calls

  datatype Call =
    | Get(id: string, now: int) | Touch(id: string, now: int) | Expire(now: int, ttl: int)
    | Stamp(id: string, sample: int, frames: seq<Frame>) | SetSession(id: string, session: string)

  /** A poller stamps frames through the epoch it got; after that epoch expired, its calls do not reach the registry. */
  function Applied(r: Registry, c: Call): Registry {
    match c
    case Get(id, now) => Got(r, id, now)
    case Touch(id, now) => Touched(r, id, now)
    case Expire(now, ttl) => Expired(r, now, ttl)
    case Stamp(id, sample, frames) => if id in r then r[id := Stamped(r[id], sample, frames).0] else r
    case SetSession(id, session) => if id in r then r[id := r[id].(session := session)] else r
  }

  /** The frames stamped for an id since its epoch was created. */
  function Logged(r: Registry, logs: map<string, Log>, c: Call): map<string, Log> {
    map id | id in Applied(r, c) ::
      var log := if id in r && id in logs then logs[id] else [];
      if c.Stamp? && c.id == id && id in r then log + [Stamped(r[id], c.sample, c.frames).1] else log
  }

  function History(calls: seq<Call>): (Registry, map<string, Log>) {
    if calls == [] then (map[], map[])
    else
      var (r, logs) := History(calls[..|calls| - 1]);
      (Applied(r, calls[|calls| - 1]), Logged(r, logs, calls[|calls| - 1]))
  }

  ghost predicate AllInv(r: Registry, logs: map<string, Log>) {
    r.Keys == logs.Keys && forall id :: id in r ==> EpochInv(r[id], logs[id])
  }

  lemma NewInv(now: int)
    ensures EpochInv(NEW.(lastSeen := now), [])
  {
    forall p ensures PlayerInv([], map[], p) {}
  }

  lemma CallKeeps(r: Registry, logs: map<string, Log>, c: Call)
    requires AllInv(r, logs)
    ensures AllInv(Applied(r, c), Logged(r, logs, c))
  {
    hide EpochInv, Stamped;
    var r2, logs2 := Applied(r, c), Logged(r, logs, c);
    forall id | id in r2 ensures EpochInv(r2[id], logs2[id]) {
      if id !in r {
        NewInv(c.now);
      } else if c.Stamp? && c.id == id {
        StampedKeeps(r[id], logs[id], c.sample, c.frames);
      } else {
        SameInv(r[id], r2[id], logs[id]);
      }
    }
  }

  lemma SameInv(e: EpochState, e': EpochState, log: Log)
    requires EpochInv(e, log) && e'.nextIndex == e.nextIndex && e'.playerTS == e.playerTS && e'.lastTS == e.lastTS
    ensures EpochInv(e', log)
  {
  }

  lemma {:induction false} HistoryKeeps(calls: seq<Call>)
    ensures AllInv(History(calls).0, History(calls).1)
  {
    hide AllInv, Applied, Logged;
    if calls == [] {
      assert AllInv(map[], map[]) by { Nothing(); }
    } else {
      HistoryKeeps(calls[..|calls| - 1]);
      var before := History(calls[..|calls| - 1]);
      CallKeeps(before.0, before.1, calls[|calls| - 1]);
    }
  }

  lemma Nothing()
    ensures AllInv(map[], map[])
  {
  }

  /** Across any sequence of restarts, rematches and clock steps, the frames stamped for one unexpired match id have
      indices that increase by one from sample to sample, times that never decrease, and deltas that are not negative and
      add up to each player's last time minus its first. */
  lemma EpochSurvivesRestarts(calls: seq<Call>, id: string, player: string)
    requires id in History(calls).0
    ensures id in History(calls).1
    ensures Sequenced(History(calls).1[id]) && History(calls).0[id].nextIndex == |History(calls).1[id]|
    ensures Telescopes(Track(Flatten(History(calls).1[id]), player))
  {
    HistoryKeeps(calls);
    var e, log := History(calls).0[id], History(calls).1[id];
    assert EpochInv(e, log);
    assert PlayerInv(Flatten(log), e.playerTS, player);
  }

  /** Only expiry ends an epoch: every other call keeps it and its log, which only ever grows. */
  lemma OnlyExpiryEnds(r: Registry, logs: map<string, Log>, c: Call, id: string)
    requires AllInv(r, logs) && id in r
    ensures c.Expire? ==> (id in Applied(r, c) <==> c.now - r[id].lastSeen <= c.ttl)
    ensures !c.Expire? ==> id in Applied(r, c)
    ensures id in Applied(r, c) ==> logs[id] <= Logged(r, logs, c)[id]
  {
  }

  lemma HistorySnoc(calls: seq<Call>, c: Call)
    ensures History(calls + [c]) ==
            (Applied(History(calls).0, c), Logged(History(calls).0, History(calls).1, c))
  {
    assert (calls + [c])[..|calls|] == calls;
  }

  predicate LivesAfter(calls: seq<Call>, more: seq<Call>, id: string, k: nat)
    requires k <= |more|
  {
    id in History(calls + more[..k]).0
  }

  /** The k-th of these calls does not expire the epoch: it was seen within the ttl. */
  predicate SeenInTime(calls: seq<Call>, more: seq<Call>, id: string, k: nat)
    requires k < |more|
  {
    var r := History(calls + more[..k]).0;
    more[k].Expire? ==> id in r && more[k].now - r[id].lastSeen <= more[k].ttl
  }

  predicate LivesThrough(calls: seq<Call>, more: seq<Call>, id: string) {
    forall k :: 0 <= k <= |more| ==> LivesAfter(calls, more, id, k)
  }

  predicate SeenThroughout(calls: seq<Call>, more: seq<Call>, id: string) {
    forall k :: 0 <= k < |more| ==> SeenInTime(calls, more, id, k)
  }

  /** Over any continuation an epoch lives on through all calls exactly if every expiry among them finds it seen within
      the ttl, and as long as it lives its frames only grow. */
  lemma {:induction false} EpochLivesExactlyWhile(calls: seq<Call>, more: seq<Call>, id: string)
    requires id in History(calls).0
    ensures LivesThrough(calls, more, id) <==> SeenThroughout(calls, more, id)
    ensures LivesThrough(calls, more, id) ==>
              id in History(calls).1 && id in History(calls + more).1 && History(calls).1[id] <= History(calls + more).1[id]
    decreases |more|
  {
    if more == [] {
      assert calls + more == calls && calls + more[..0] == calls;
      HistoryKeeps(calls);
    } else {
      var n := |more| - 1;
      hide Applied, Logged, History, AllInv, LivesAfter, SeenInTime, LivesThrough, SeenThroughout;
      EpochLivesExactlyWhile(calls, more[..n], id);
      LivesSnoc(calls, more, id);
      SeenSnoc(calls, more, id);
      LastLife(calls, more, id);
    }
  }

  lemma LivesSnoc(calls: seq<Call>, more: seq<Call>, id: string)
    requires more != []
    ensures var n := |more| - 1;
            && (LivesThrough(calls, more, id) <==> LivesThrough(calls, more[..n], id) && LivesAfter(calls, more, id, n + 1))
            && (LivesThrough(calls, more[..n], id) ==> LivesAfter(calls, more, id, n))
  {
    var n := |more| - 1;
    hide LivesAfter;
    forall k | 0 <= k <= n ensures LivesAfter(calls, more[..n], id, k) <==> LivesAfter(calls, more, id, k) { EarlierLife(calls, more, id, k); }
  }

  lemma SeenSnoc(calls: seq<Call>, more: seq<Call>, id: string)
    requires more != []
    ensures var n := |more| - 1;
            SeenThroughout(calls, more, id) <==> SeenThroughout(calls, more[..n], id) && SeenInTime(calls, more, id, n)
  {
    var n := |more| - 1;
    hide SeenInTime;
    forall k | 0 <= k < n ensures SeenInTime(calls, more[..n], id, k) <==> SeenInTime(calls, more, id, k) { EarlierSight(calls, more, id, k); }
  }

  lemma EarlierLife(calls: seq<Call>, more: seq<Call>, id: string, k: nat)
    requires k < |more|
    ensures LivesAfter(calls, more[..|more| - 1], id, k) <==> LivesAfter(calls, more, id, k)
  {
    assert more[..|more| - 1][..k] == more[..k];
  }

  lemma EarlierSight(calls: seq<Call>, more: seq<Call>, id: string, k: nat)
    requires k < |more| - 1
    ensures SeenInTime(calls, more[..|more| - 1], id, k) <==> SeenInTime(calls, more, id, k)
  {
    assert more[..|more| - 1][..k] == more[..k];
  }

  /** The last call of a continuation. */
  lemma LastLife(calls: seq<Call>, more: seq<Call>, id: string)
    requires more != []
    ensures var n := |more| - 1;
            LivesAfter(calls, more, id, n) ==>
              && (LivesAfter(calls, more, id, n + 1) <==> SeenInTime(calls, more, id, n))
              && (LivesAfter(calls, more, id, n + 1) ==>
                    id in History(calls + more[..n]).1 && id in History(calls + more).1
                    && History(calls + more[..n]).1[id] <= History(calls + more).1[id])
  {
    var n := |more| - 1;
    hide History, Applied, Logged, AllInv;
    assert more[..n + 1] == more && calls + more == (calls + more[..n]) + [more[n]];
    HistorySnoc(calls + more[..n], more[n]);
    HistoryKeeps(calls + more[..n]);
    if LivesAfter(calls, more, id, n) { EpochStep(calls + more[..n], more[n], id); }
  }

  lemma EpochStep(calls: seq<Call>, c: Call, id: string)
    requires AllInv(History(calls).0, History(calls).1) && id in History(calls).0
    ensures var r, logs := History(calls).0, History(calls).1;
            && (id in Applied(r, c) <==> (c.Expire? ==> c.now - r[id].lastSeen <= c.ttl))
            && (id in Applied(r, c) ==> id in logs && id in Logged(r, logs, c) && logs[id] <= Logged(r, logs, c)[id])
  {
    hide History;
    OnlyExpiryEnds(History(calls).0, History(calls).1, c, id);
  }
}
