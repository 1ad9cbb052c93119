/** What the epoch of a match id holds, in terms of the calls since it was created: every stamped frame, the time an expiry
    measures from, and the session. */
module EpochTimes {
  import opened Common
  import opened Epoch
  import opened EpochProofs

  /** One sample as a poller hands it over. */
  datatype Given = Given(sample: int, frames: seq<Frame>)

  /** The samples stamped for an id. */
  function StampsOf(calls: seq<Call>, id: string): seq<Given> {
    if calls == [] then [] else
      var before, last := StampsOf(calls[..|calls| - 1], id), calls[|calls| - 1];
      if last.Stamp? && last.id == id then before + [Given(last.sample, last.frames)] else before
  }

  /** t is the longest time from the first sample to one of the first k + 1. */
  ghost predicate Elapsed(given: seq<Given>, k: nat, t: int)
    requires k < |given|
  {
    && (forall j :: 0 <= j <= k ==> given[j].sample - given[0].sample <= t)
    && exists j :: 0 <= j <= k && given[j].sample - given[0].sample == t
  }

  /** The frame of the k-th sample keeps its player; its time is the elapsed one, and its bindings follow. */
  ghost predicate StampOf(given: seq<Given>, k: nat, from: Frame, f: Frame)
    requires k < |given|
  {
    && f.player == from.player && f.index == k && Elapsed(given, k, f.timestamp)
    && f.observation == (if from.observation.Some? then Some(Binding(k, f.timestamp)) else None)
    && f.provenance == (if from.provenance.Some? then Some(Binding(k, f.timestamp)) else None)
  }

  ghost predicate StampedFrames(given: seq<Given>, k: nat, out: seq<Frame>)
    requires k < |given|
  {
    |out| == |given[k].frames| && forall i :: 0 <= i < |out| ==> StampOf(given, k, given[k].frames[i], out[i])
  }

  ghost predicate StampedFrom(log: Log, given: seq<Given>) {
    |log| == |given| && forall k :: 0 <= k < |log| ==> StampedFrames(given, k, log[k])
  }

  /** The epoch was created by the call at b and has lived since. */
  ghost predicate BornAt(calls: seq<Call>, id: string, b: nat)
    requires b < |calls|
  {
    && calls[b].Get? && calls[b].id == id && id !in History(calls[..b]).0
    && forall k :: b < k <= |calls| ==> id in History(calls[..k]).0
  }

  /** The call at i is the last that sets the time of the epoch: its creation, or a stamp. */
  predicate SetAt(calls: seq<Call>, id: string, i: nat)
    requires i < |calls|
  {
    && (i == 0 || (calls[i].Stamp? && calls[i].id == id))
    && forall j :: i < j < |calls| ==> !(calls[j].Stamp? && calls[j].id == id)
  }

  function TimeOfCall(c: Call): int {
    if c.Stamp? then c.sample else if c.Get? || c.Touch? || c.Expire? then c.now else 0
  }

  /** The time was set last at i, and touched later. */
  ghost predicate SeenFrom(calls: seq<Call>, id: string, i: nat, t: int)
    requires i < |calls|
  {
    && TimeOfCall(calls[i]) <= t
    && (forall j :: i < j < |calls| && calls[j].Touch? && calls[j].id == id ==> calls[j].now <= t)
    && (TimeOfCall(calls[i]) == t || exists j :: i < j < |calls| && calls[j].Touch? && calls[j].id == id && calls[j].now == t)
  }

  /** The session was set last by the call at i. */
  predicate SessionSetAt(calls: seq<Call>, id: string, i: nat)
    requires i < |calls|
  {
    && calls[i].SetSession? && calls[i].id == id
    && forall j :: i < j < |calls| ==> !(calls[j].SetSession? && calls[j].id == id)
  }

  predicate SessionIs(calls: seq<Call>, id: string, session: string) {
    if forall i :: 0 <= i < |calls| ==> !(calls[i].SetSession? && calls[i].id == id) then session == ""
    else exists i :: 0 <= i < |calls| && SessionSetAt(calls, id, i) && calls[i].session == session
  }

  ghost predicate SeenIs(calls: seq<Call>, id: string, t: int) {
    exists i :: 0 <= i < |calls| && SetAt(calls, id, i) && SeenFrom(calls, id, i, t)
  }

  /** The state of an epoch and its log, from the calls since its creation. */
  ghost predicate EpochIs(e: EpochState, log: Log, calls: seq<Call>, id: string) {
    var given := StampsOf(calls, id);
    && StampedFrom(log, given) && e.nextIndex == |given|
    && (if given == [] then e.start.None? && e.lastTS == 0 else e.start == Some(given[0].sample) && Elapsed(given, |given| - 1, e.lastTS))
  }

  // ----- One more call

  lemma ElapsedSnoc(given: seq<Given>, g: Given, k: nat, t: int)
    requires k < |given|
    ensures Elapsed(given + [g], k, t) <==> Elapsed(given, k, t)
  {
    var longer := given + [g];
    assert forall j :: 0 <= j <= k ==> longer[j] == given[j];
    if Elapsed(longer, k, t) {
      var j :| 0 <= j <= k && longer[j].sample - longer[0].sample == t;
      assert given[j].sample - given[0].sample == t;
    }
    if Elapsed(given, k, t) {
      var j :| 0 <= j <= k && given[j].sample - given[0].sample == t;
      assert longer[j].sample - longer[0].sample == t;
    }
  }

  /** The time of one more sample. */
  lemma NextElapsed(given: seq<Given>, g: Given, last: int)
    requires if given == [] then last == 0 else Elapsed(given, |given| - 1, last)
    ensures var first := if given == [] then g.sample else given[0].sample;
            Elapsed(given + [g], |given|, Max(g.sample - first, last))
  {
    var longer, n := given + [g], |given|;
    assert longer[n] == g && forall j :: 0 <= j < n ==> longer[j] == given[j];
    if given != [] {
      var j :| 0 <= j <= n - 1 && given[j].sample - given[0].sample == last;
      assert longer[j].sample - longer[0].sample == last && longer[n].sample - longer[0].sample == g.sample - given[0].sample;
    } else {
      assert longer[0].sample - longer[0].sample == 0;
    }
  }

  lemma {:induction false} StampAllFrames(frames: seq<Frame>, index: int, ts: int, times: map<string, int>)
    ensures var out := StampAll(frames, index, ts, times).0;
            |out| == |frames| && forall i :: 0 <= i < |out| ==>
              && out[i].player == frames[i].player && out[i].index == index && out[i].timestamp == ts
              && out[i].observation == (if frames[i].observation.Some? then Some(Binding(index, ts)) else None)
              && out[i].provenance == (if frames[i].provenance.Some? then Some(Binding(index, ts)) else None)
  {
    if frames != [] { StampAllFrames(frames[..|frames| - 1], index, ts, times); }
  }

  lemma StampAgain(e: EpochState, log: Log, calls: seq<Call>, id: string, c: Call)
    requires EpochIs(e, log, calls, id) && c.Stamp? && c.id == id
    ensures var r := Stamped(e, c.sample, c.frames); EpochIs(r.0, log + [r.1], calls + [c], id)
  {
    hide Elapsed;
    var given, g, r := StampsOf(calls, id), Given(c.sample, c.frames), Stamped(e, c.sample, c.frames);
    assert (calls + [c])[..|calls|] == calls;
    var longer := given + [g];
    assert StampsOf(calls + [c], id) == longer;
    NextElapsed(given, g, e.lastTS);
    StampAllFrames(c.frames, e.nextIndex, TimeOf(e, c.sample), e.playerTS);
    assert StampedFrames(longer, |given|, r.1);
    var logs := log + [r.1];
    forall k | 0 <= k < |logs| ensures StampedFrames(longer, k, logs[k]) {
      if k < |log| {
        assert StampedFrames(given, k, log[k]) && longer[k] == given[k];
        forall i | 0 <= i < |log[k]| ensures StampOf(longer, k, longer[k].frames[i], log[k][i]) {
          assert StampOf(given, k, given[k].frames[i], log[k][i]);
          ElapsedSnoc(given, g, k, log[k][i].timestamp);
        }
      }
    }
  }

  lemma OtherCall(e: EpochState, log: Log, calls: seq<Call>, id: string, c: Call, e2: EpochState)
    requires EpochIs(e, log, calls, id) && !(c.Stamp? && c.id == id)
    requires e2.start == e.start && e2.nextIndex == e.nextIndex && e2.lastTS == e.lastTS
    ensures EpochIs(e2, log, calls + [c], id)
  {
    assert (calls + [c])[..|calls|] == calls;
  }

  lemma SeenAgain(calls: seq<Call>, id: string, c: Call, t: int, t2: int)
    requires calls != [] && SeenIs(calls, id, t)
    requires t2 == if c.Stamp? && c.id == id then c.sample else if c.Touch? && c.id == id && c.now > t then c.now else t
    ensures SeenIs(calls + [c], id, t2)
  {
    var longer, n := calls + [c], |calls|;
    var i :| 0 <= i < n && SetAt(calls, id, i) && SeenFrom(calls, id, i, t);
    assert longer[n] == c && forall j :: 0 <= j < n ==> longer[j] == calls[j];
    if c.Stamp? && c.id == id {
      assert SetAt(longer, id, n) && SeenFrom(longer, id, n, t2);
    } else {
      assert SetAt(longer, id, i);
      if TimeOfCall(calls[i]) != t {
        var j :| i < j < n && calls[j].Touch? && calls[j].id == id && calls[j].now == t;
        assert longer[j].Touch? && longer[j].now == t;
      }
      assert SeenFrom(longer, id, i, t2);
    }
  }

  lemma SessionAgain(calls: seq<Call>, id: string, c: Call, s: string, s2: string)
    requires SessionIs(calls, id, s)
    requires s2 == if c.SetSession? && c.id == id then c.session else s
    ensures SessionIs(calls + [c], id, s2)
  {
    var longer, n := calls + [c], |calls|;
    assert longer[n] == c && forall j :: 0 <= j < n ==> longer[j] == calls[j];
    if c.SetSession? && c.id == id {
      assert SessionSetAt(longer, id, n);
    } else if exists i :: 0 <= i < n && calls[i].SetSession? && calls[i].id == id {
      var i :| 0 <= i < n && SessionSetAt(calls, id, i) && calls[i].session == s;
      assert SessionSetAt(longer, id, i) && longer[i].SetSession?;
    }
  }

  lemma NewBorn(calls: seq<Call>, id: string, now: int)
    requires calls == [Get(id, now)]
    ensures EpochIs(NEW.(lastSeen := now), [], calls, id) && SeenIs(calls, id, now) && SessionIs(calls, id, "")
  {
    assert calls[..0] == [] && StampsOf([], id) == [];
    assert SetAt(calls, id, 0) && SeenFrom(calls, id, 0, now);
  }

  // ----- Whole histories

  /** What an epoch is after these calls, when it was born at b. */
  ghost predicate Remembers(calls: seq<Call>, id: string, b: nat)
    requires b < |calls| && id in History(calls).0
  {
    var e := History(calls).0[id];
    && id in History(calls).1 && EpochIs(e, History(calls).1[id], calls[b..], id)
    && SeenIs(calls[b..], id, e.lastSeen) && SessionIs(calls[b..], id, e.session)
  }

  /** What one call does to an epoch that it keeps. */
  lemma KeptState(r: Registry, logs: map<string, Log>, c: Call, id: string)
    requires id in r && id in logs && id in Applied(r, c)
    ensures id in Logged(r, logs, c)
    ensures var e, e2 := r[id], Applied(r, c)[id];
            && e2.lastSeen == (if c.Stamp? && c.id == id then c.sample else if c.Touch? && c.id == id && c.now > e.lastSeen then c.now else e.lastSeen)
            && e2.session == (if c.SetSession? && c.id == id then c.session else e.session)
            && if c.Stamp? && c.id == id then e2 == Stamped(e, c.sample, c.frames).0 && Logged(r, logs, c)[id] == logs[id] + [Stamped(e, c.sample, c.frames).1]
               else e2.start == e.start && e2.nextIndex == e.nextIndex && e2.lastTS == e.lastTS && Logged(r, logs, c)[id] == logs[id]
  {
    hide StampAll, TimeOf;
  }

  /** One call that keeps an epoch. */
  lemma KeptCall(calls: seq<Call>, c: Call, id: string, b: nat)
    requires b < |calls| && id in History(calls).0 && Remembers(calls, id, b) && id in History(calls + [c]).0
    ensures Remembers(calls + [c], id, b)
  {
    hide EpochIs, SeenIs, SessionIs, Stamped, Applied, Logged, History;
    var (r, logs) := History(calls);
    HistorySnoc(calls, c);
    KeptState(r, logs, c, id);
    assert (calls + [c])[b..] == calls[b..] + [c];
    var e, e2 := r[id], Applied(r, c)[id];
    SeenAgain(calls[b..], id, c, e.lastSeen, e2.lastSeen);
    SessionAgain(calls[b..], id, c, e.session, e2.session);
    if c.Stamp? && c.id == id {
      StampAgain(e, logs[id], calls[b..], id, c);
    } else {
      OtherCall(e, logs[id], calls[b..], id, c, e2);
    }
  }

  lemma NotLogged(r: Registry, logs: map<string, Log>, id: string)
    requires AllInv(r, logs) && id !in r
    ensures id !in logs
  {
    hide EpochInv;
    assert id !in r.Keys;
  }

  lemma BornState(r: Registry, logs: map<string, Log>, c: Call, id: string)
    requires id !in r && id !in logs && id in Applied(r, c)
    ensures c.Get? && c.id == id && Applied(r, c)[id] == NEW.(lastSeen := c.now) && id in Logged(r, logs, c) && Logged(r, logs, c)[id] == []
  {
    hide Stamped;
  }

  lemma BornCall(calls: seq<Call>, c: Call, id: string)
    requires id !in History(calls).0 && id in History(calls + [c]).0
    ensures c.Get? && c.id == id && Remembers(calls + [c], id, |calls|)
  {
    hide EpochIs, SeenIs, SessionIs, AllInv, Applied, Logged, History;
    HistoryKeeps(calls);
    HistorySnoc(calls, c);
    NotLogged(History(calls).0, History(calls).1, id);
    BornState(History(calls).0, History(calls).1, c, id);
    assert (calls + [c])[|calls|..] == [c];
    NewBorn([c], id, c.now);
  }

  /** Whatever happened before, and to other ids: an epoch is determined by the calls for its id since it was created. The k-th
      sample is stamped with index k and with the longest time from the first sample to one so far; frames keep their players, and
      bindings follow the frames. The time an expiry measures from is that of the last stamp, or of the creation, or of a later
      touch; the session is the one set last. */
  lemma {:induction false} EpochIsItsLife(calls: seq<Call>, id: string) returns (b: nat)
    requires id in History(calls).0
    ensures b < |calls| && BornAt(calls, id, b) && Remembers(calls, id, b)
    decreases |calls|
  {
    hide Applied, Logged, Remembers, History;
    NoHistory();
    var n := |calls| - 1;
    assert calls == calls[..n] + [calls[n]];
    if id in History(calls[..n]).0 {
      b := EpochIsItsLife(calls[..n], id);
      KeptCall(calls[..n], calls[n], id, b);
      assert calls[..n][..b] == calls[..b];
      forall k | b < k <= |calls| ensures id in History(calls[..k]).0 {
        if k <= n { assert calls[..n][..k] == calls[..k]; } else { assert calls[..k] == calls; }
      }
    } else {
      BornCall(calls[..n], calls[n], id);
      b := n;
      assert calls[..n + 1] == calls;
    }
  }

  lemma NoHistory()
    ensures History([]) == (map[], map[])
  {
  }

  /** When sample times never decrease, every frame carries the time from the first sample to its own. */
  lemma OrderedSamplesKeepTheirTimes(log: Log, given: seq<Given>)
    requires StampedFrom(log, given) && forall i, j :: 0 <= i < j < |given| ==> given[i].sample <= given[j].sample
    ensures forall k, i :: 0 <= k < |log| && 0 <= i < |log[k]| ==> log[k][i].timestamp == given[k].sample - given[0].sample
  {
    forall k, i | 0 <= k < |log| && 0 <= i < |log[k]| ensures log[k][i].timestamp == given[k].sample - given[0].sample {
      assert StampedFrames(given, k, log[k]);
      assert StampOf(given, k, given[k].frames[i], log[k][i]);
    }
  }
}
