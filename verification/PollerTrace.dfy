/** The messages and the end of a poller's life, told from its replies alone. */
module PollerTrace {
  import opened Common
  import opened Poller
  import opened PollerProofs

  // ----- What the replies say, poll by poll

  /** The reply is a session that the poller goes on with. */
  predicate Accepts(c: Config, r: Reply) {
    r.Answered? && (r.session.matchesId || c.check != Strict)
  }

  predicate InPlay(c: Config, r: Reply) {
    Accepts(c, r) && !r.session.postMatch
  }

  predicate Over(c: Config, r: Reply) {
    Accepts(c, r) && r.session.postMatch
  }

  /** The session of the last accepted reply among the first k, or the one the epoch knew before. */
  function KnownSession(c: Config, session: string, rs: seq<Reply>, k: nat): string
    requires k <= |rs|
  {
    if k == 0 then session else if Accepts(c, rs[k - 1]) then rs[k - 1].session.id else KnownSession(c, session, rs, k - 1)
  }

  /** The body of the last reply in play among the first k; 0 before the first. */
  function LastBody(c: Config, rs: seq<Reply>, k: nat): int
    requires k <= |rs|
  {
    if k == 0 then 0 else if InPlay(c, rs[k - 1]) then rs[k - 1].session.hash else LastBody(c, rs, k - 1)
  }

  /** Reply k is in play and its frames are forwarded: its body is not that of the last reply in play, it has frames, and
      change detection does not skip it. */
  predicate Forwards(c: Config, rs: seq<Reply>, k: nat)
    requires k < |rs|
  {
    InPlay(c, rs[k]) && rs[k].session.hash != LastBody(c, rs, k) && !rs[k].session.skipped && rs[k].session.frames > 0
  }

  /** Reply k is in play under another session than the last one known. */
  predicate Changes(c: Config, session: string, rs: seq<Reply>, k: nat)
    requires k < |rs|
  {
    InPlay(c, rs[k]) && KnownSession(c, session, rs, k) != "" && rs[k].session.id != "" && rs[k].session.id != KnownSession(c, session, rs, k)
  }

  /** Some reply among the first k was forwarded, and none since ended the match or changed the session without being
      forwarded itself. */
  predicate Open(c: Config, session: string, rs: seq<Reply>, k: nat)
    requires k <= |rs|
  {
    k > 0 && (Forwards(c, rs, k - 1) || (!Over(c, rs[k - 1]) && !Changes(c, session, rs, k - 1) && Open(c, session, rs, k - 1)))
  }

  /** The failures in a row that end the first k replies. */
  function Streak(rs: seq<Reply>, k: nat): nat
    requires k <= |rs|
  {
    if k == 0 || rs[k - 1].Answered? then 0 else Streak(rs, k - 1) + if rs[k - 1].Failed? then 1 else 0
  }

  /** Reply k gives an active poller a reason to idle: the match is over, or thirty failures in a row. */
  predicate Idles(c: Config, rs: seq<Reply>, k: nat)
    requires k < |rs|
  {
    Over(c, rs[k]) || (rs[k].Failed? && Streak(rs, k + 1) >= 30)
  }

  /** Since when the poller idles after the first k replies: the time of the first reason to idle since the last reply in
      play. */
  function IdleSince(c: Config, rs: seq<Reply>, k: nat): Option<int>
    requires k <= |rs|
  {
    if k == 0 || InPlay(c, rs[k - 1]) then None
    else
      var before := IdleSince(c, rs, k - 1);
      if before.Some? then before else if Idles(c, rs, k - 1) then Some(rs[k - 1].now) else None
  }

  /** Why the poller stops at reply k, if it does. */
  function StopsAt(c: Config, rs: seq<Reply>, k: nat): Option<StopReason>
    requires k < |rs|
  {
    var idle := IdleSince(c, rs, k);
    match rs[k]
    case Interrupted => Some(Cancelled)
    case Failed(failure, now) =>
      if Streak(rs, k + 1) >= 30 && idle.Some? && now - idle.value > c.giveUp
      then Some(if failure == Transport then BroadcasterUnreachable else BroadcasterError) else None
    case Answered(session, now) =>
      if !session.matchesId && c.check == Strict then Some(SessionMismatch)
      else if session.postMatch && now - (if idle.Some? then idle.value else now) > c.giveUp then Some(PostMatch)
      else None
  }

  /** The replies the poller looks at: all up to the first that stops it. */
  function Seen(c: Config, rs: seq<Reply>, k: nat): (n: nat)
    requires k <= |rs|
    ensures k <= n <= |rs|
    decreases |rs| - k
  {
    if k == |rs| then k else if StopsAt(c, rs, k).Some? then k + 1 else Seen(c, rs, k + 1)
  }

  function FinalReason(c: Config, rs: seq<Reply>): StopReason {
    var n := Seen(c, rs, 0);
    if n > 0 && StopsAt(c, rs, n - 1).Some? then StopsAt(c, rs, n - 1).value else Cancelled
  }

  /** What reply k makes the poller send. */
  function Sends(c: Config, session: string, rs: seq<Reply>, k: nat): seq<Message>
    requires k < |rs|
  {
    var open, changed := Open(c, session, rs, k), Changes(c, session, rs, k);
    (if open && Over(c, rs[k]) then [MatchEnd(MatchOver)] else if open && changed then [MatchEnd(SessionChanged)] else [])
    + if Forwards(c, rs, k)
      then (if open && !changed then [] else [MatchStart]) + [Batch(rs[k].session.id, rs[k].session.queued)]
      else []
  }

  function Told(c: Config, session: string, rs: seq<Reply>, k: nat): seq<Message>
    requires k <= |rs|
  {
    if k == 0 then [] else Told(c, session, rs, k - 1) + Sends(c, session, rs, k - 1)
  }

  /** The whole trace of a poller with a link to send over. */
  function Story(c: Config, session: string, rs: seq<Reply>): seq<Message> {
    var n := Seen(c, rs, 0);
    Told(c, session, rs, n) + if Open(c, session, rs, n) then [MatchEnd(Stopped(FinalReason(c, rs)))] else []
  }

  /** The phase after the first k replies, which the last one with a say in it decides. */
  function PhaseAt(c: Config, rs: seq<Reply>, k: nat): Phase
    requires k <= |rs|
  {
    if k == 0 then Active
    else
      match rs[k - 1]
      case Answered(session, _) =>
        if !session.matchesId && c.check == Strict then PhaseAt(c, rs, k - 1) else if session.postMatch then IdlePostMatch else Active
      case Failed(failure, _) =>
        if Streak(rs, k) < 30 then PhaseAt(c, rs, k - 1) else if failure == Transport then IdleUnreachable else IdleError
      case Interrupted => PhaseAt(c, rs, k - 1)
  }

  // ----- The poller lives by them

  /** The state after the first k replies, none of which stopped the poller. */
  ghost predicate After(c: Config, session: string, s: State, rs: seq<Reply>, k: nat)
    requires k <= |rs|
  {
    && (s.phase.Active? <==> IdleSince(c, rs, k).None?) && s.phase == PhaseAt(c, rs, k)
    && (IdleSince(c, rs, k).Some? ==> s.idleSince == IdleSince(c, rs, k).value)
    && (s.phase.IdlePostMatch? ==> !s.matchStarted)
    && s.errors == Streak(rs, k) && s.lastHash == LastBody(c, rs, k) && s.epochSession == KnownSession(c, session, rs, k)
    && s.matchStarted == Open(c, session, rs, k)
    && s.trace == if c.dryRun then [] else Told(c, session, rs, k)
  }

  /** What one poll leaves, whether or not it stops the poller. */
  ghost predicate AfterPoll(c: Config, session: string, r: (State, Verdict), rs: seq<Reply>, k: nat)
    requires k < |rs|
  {
    && r.1 == (if StopsAt(c, rs, k).Some? then Stop(StopsAt(c, rs, k).value) else Continue)
    && (r.1.Continue? ==> After(c, session, r.0, rs, k + 1))
    && r.0.matchStarted == Open(c, session, rs, k + 1)
    && r.0.trace == if c.dryRun then [] else Told(c, session, rs, k + 1)
  }

  lemma NothingMore(xs: seq<Message>)
    ensures xs + ([] + []) == xs && forall a: seq<Message> :: xs + (a + []) == xs + a && xs + ([] + a) == xs + a
  {
  }

  lemma FailedPoll(c: Config, session: string, s: State, rs: seq<Reply>, k: nat)
    requires k < |rs| && After(c, session, s, rs, k) && !Accepts(c, rs[k])
    ensures AfterPoll(c, session, Polled(c, s, rs[k]), rs, k)
  {
    var told := Told(c, session, rs, k);
    NothingMore(told);
    assert Sends(c, session, rs, k) == [] + [];
    assert Told(c, session, rs, k + 1) == told;
    hide Told, Sends;
  }

  lemma OverPoll(c: Config, session: string, s: State, rs: seq<Reply>, k: nat)
    requires k < |rs| && After(c, session, s, rs, k) && Over(c, rs[k])
    ensures AfterPoll(c, session, Polled(c, s, rs[k]), rs, k)
  {
    var told := Told(c, session, rs, k);
    NothingMore(told);
    assert Sends(c, session, rs, k) == (if Open(c, session, rs, k) then [MatchEnd(MatchOver)] else []) + [];
    assert Told(c, session, rs, k + 1) == told + if Open(c, session, rs, k) then [MatchEnd(MatchOver)] else [];
    hide Told, Sends;
  }

  lemma PlayPoll(c: Config, session: string, s: State, rs: seq<Reply>, k: nat)
    requires k < |rs| && After(c, session, s, rs, k) && InPlay(c, rs[k])
    ensures AfterPoll(c, session, Polled(c, s, rs[k]), rs, k)
  {
    PlayTrace(c, session, s, rs, k);
    hide Told, Sends, Switched, Sent;
    PlayState(c, session, s, rs, k);
    hide Playing;
  }

  lemma PlayState(c: Config, session: string, s: State, rs: seq<Reply>, k: nat)
    requires k < |rs| && After(c, session, s, rs, k) && InPlay(c, rs[k])
    ensures var after := Playing(c, s.(errors := 0), rs[k].session);
            && after.phase.Active? && after.errors == 0 && after.lastHash == LastBody(c, rs, k + 1)
            && after.epochSession == KnownSession(c, session, rs, k + 1) && after.matchStarted == Open(c, session, rs, k + 1)
  {
    hide Told, Sends;
  }

  lemma ToldInPlay(c: Config, session: string, rs: seq<Reply>, k: nat)
    requires k < |rs| && InPlay(c, rs[k])
    ensures var open, changed := Open(c, session, rs, k), Changes(c, session, rs, k);
            Told(c, session, rs, k + 1) == Told(c, session, rs, k) + (if open && changed then [MatchEnd(SessionChanged)] else [])
              + if Forwards(c, rs, k)
                then (if open && !changed then [] else [MatchStart]) + [Batch(rs[k].session.id, rs[k].session.queued)] else []
  {
    hide Open, Changes, Forwards;
  }

  lemma PlayingSends(c: Config, s: State, session: Session)
    ensures var switched := Switched(c, s.(phase := Active), session.id);
            Playing(c, s, session).trace == switched.trace
              + if c.dryRun || session.hash == s.lastHash || session.skipped || session.frames == 0 then []
                else (if switched.matchStarted then [] else [MatchStart]) + [Batch(session.id, session.queued)]
  {
    var switched := Switched(c, s.(phase := Active), session.id);
    hide Switched;
    BatchTrace(c, switched.(lastHash := session.hash), Batch(session.id, session.queued));
    assert switched.trace + [] == switched.trace;
  }

  lemma BatchTrace(c: Config, s: State, batch: Message)
    ensures var open := if s.matchStarted then s else Sent(c, s.(matchStarted := true), MatchStart);
            Sent(c, open, batch).trace == s.trace + if c.dryRun then [] else (if s.matchStarted then [] else [MatchStart]) + [batch]
  {
    assert s.trace + [] == s.trace && [] + [batch] == [batch];
    assert s.trace + [MatchStart] + [batch] == s.trace + ([MatchStart] + [batch]);
  }

  /** The messages of a reply in play. */
  lemma PlayTrace(c: Config, session: string, s: State, rs: seq<Reply>, k: nat)
    requires k < |rs| && After(c, session, s, rs, k) && InPlay(c, rs[k])
    ensures Playing(c, s.(errors := 0), rs[k].session).trace == if c.dryRun then [] else Told(c, session, rs, k + 1)
  {
    ToldInPlay(c, session, rs, k);
    SwitchTrace(c, session, s, rs, k);
    PlayingSends(c, s.(errors := 0), rs[k].session);
    hide Told, Sends, Open, Changes, LastBody, Switched, Playing, After;
  }

  lemma SwitchTrace(c: Config, session: string, s: State, rs: seq<Reply>, k: nat)
    requires k < |rs| && After(c, session, s, rs, k) && InPlay(c, rs[k])
    ensures var open, changed := Open(c, session, rs, k), Changes(c, session, rs, k);
            var switched := Switched(c, s.(errors := 0).(phase := Active), rs[k].session.id);
            && switched.trace == (if c.dryRun then [] else Told(c, session, rs, k) + if open && changed then [MatchEnd(SessionChanged)] else [])
            && switched.matchStarted == (open && !changed) && switched.lastHash == LastBody(c, rs, k)
  {
    hide Told, Sends;
    NothingMore(Told(c, session, rs, k));
  }

  /** One poll. */
  lemma PollTells(c: Config, session: string, s: State, rs: seq<Reply>, k: nat)
    requires k < |rs| && After(c, session, s, rs, k)
    ensures AfterPoll(c, session, Polled(c, s, rs[k]), rs, k)
  {
    hide After, AfterPoll, Polled;
    if InPlay(c, rs[k]) { PlayPoll(c, session, s, rs, k); }
    else if Over(c, rs[k]) { OverPoll(c, session, s, rs, k); }
    else { FailedPoll(c, session, s, rs, k); }
  }

  /** What the polls from the k-th on come to, when n replies are seen in all. */
  ghost predicate EndsAt(c: Config, session: string, r: (State, Verdict), rs: seq<Reply>, k: nat, n: nat)
    requires k <= n <= |rs|
  {
    && r.0.matchStarted == Open(c, session, rs, n)
    && r.0.trace == (if c.dryRun then [] else Told(c, session, rs, n))
    && r.1 == if n > k && StopsAt(c, rs, n - 1).Some? then Stop(StopsAt(c, rs, n - 1).value) else Continue
  }

  lemma EndsHere(c: Config, session: string, r: (State, Verdict), rs: seq<Reply>, k: nat)
    requires k < |rs| && StopsAt(c, rs, k).Some? && AfterPoll(c, session, r, rs, k)
    ensures EndsAt(c, session, r, rs, k, k + 1)
  {
    hide StopsAt, Told, Open, After;
  }

  lemma EndsLater(c: Config, session: string, r: (State, Verdict), rs: seq<Reply>, k: nat, n: nat)
    requires k < n <= |rs| && StopsAt(c, rs, k).None? && EndsAt(c, session, r, rs, k + 1, n)
    ensures EndsAt(c, session, r, rs, k, n)
  {
    hide StopsAt, Told, Open;
  }

  lemma EndsNow(c: Config, session: string, s: State, rs: seq<Reply>)
    requires After(c, session, s, rs, |rs|)
    ensures EndsAt(c, session, (s, Continue), rs, |rs|, |rs|)
  {
    hide StopsAt, Told, Open;
  }

  lemma {:induction false} RestTells(c: Config, session: string, s: State, rs: seq<Reply>, k: nat)
    requires k <= |rs| && After(c, session, s, rs, k)
    ensures EndsAt(c, session, PolledAll(c, s, rs[k..]), rs, k, Seen(c, rs, k))
    decreases |rs| - k
  {
    if k < |rs| {
      hide After, AfterPoll, Polled, PolledAll, StopsAt, Seen, EndsAt;
      PollTells(c, session, s, rs, k);
      var r := Polled(c, s, rs[k]);
      AfterPollMeans(c, session, r, rs, k);
      PolledStep(c, s, rs, k);
      SeenStep(c, rs, k);
      if StopsAt(c, rs, k).Some? {
        EndsHere(c, session, r, rs, k);
      } else {
        RestTells(c, session, r.0, rs, k + 1);
        EndsLater(c, session, PolledAll(c, r.0, rs[k + 1..]), rs, k, Seen(c, rs, k + 1));
      }
    } else {
      assert rs[k..] == [];
      EndsNow(c, session, s, rs);
    }
  }

  lemma AfterPollMeans(c: Config, session: string, r: (State, Verdict), rs: seq<Reply>, k: nat)
    requires k < |rs| && AfterPoll(c, session, r, rs, k)
    ensures (r.1.Stop? <==> StopsAt(c, rs, k).Some?) && (r.1.Continue? ==> After(c, session, r.0, rs, k + 1))
  {
    hide After, StopsAt, Told, Open;
  }

  lemma PolledStep(c: Config, s: State, rs: seq<Reply>, k: nat)
    requires k < |rs|
    ensures var (next, verdict) := Polled(c, s, rs[k]);
            PolledAll(c, s, rs[k..]) == if verdict.Stop? then (next, verdict) else PolledAll(c, next, rs[k + 1..])
  {
    hide Polled;
    assert rs[k..][0] == rs[k] && rs[k..][1..] == rs[k + 1..];
  }

  lemma SeenStep(c: Config, rs: seq<Reply>, k: nat)
    requires k < |rs|
    ensures Seen(c, rs, k) == if StopsAt(c, rs, k).Some? then k + 1 else Seen(c, rs, k + 1)
  {
    hide StopsAt;
  }

  // ----- The results

  /** For every sequence of replies, a poller sends exactly the story they tell, or nothing in a dry run. */
  lemma TraceIsTheStory(c: Config, session: string, rs: seq<Reply>)
    ensures Ran(c, Created(session), rs).trace == if c.dryRun then [] else Story(c, session, rs)
  {
    hide PolledAll, StopsAt, Told, Open, Streak, IdleSince, LastBody, KnownSession;
    assert rs[0..] == rs;
    CreatedIsAfter(c, session, rs);
    RestTells(c, session, Created(session), rs, 0);
    NothingMore(Told(c, session, rs, Seen(c, rs, 0)));
  }

  lemma CreatedIsAfter(c: Config, session: string, rs: seq<Reply>)
    ensures After(c, session, Created(session), rs, 0)
  {
  }

  /** When and why a poller stops: at the first reply that tells it to, for the reason that reply and the idle clock give. */
  lemma StopsAsTold(c: Config, session: string, rs: seq<Reply>)
    ensures var verdict, n := PolledAll(c, Created(session), rs).1, Seen(c, rs, 0);
            && verdict == (if n > 0 && StopsAt(c, rs, n - 1).Some? then Stop(FinalReason(c, rs)) else Continue)
            && (forall k :: 0 <= k < n - 1 ==> StopsAt(c, rs, k).None?)
            && (verdict.Continue? ==> n == |rs| && (n > 0 ==> StopsAt(c, rs, n - 1).None?))
  {
    hide PolledAll, StopsAt, Told, Open, Streak, IdleSince, LastBody, KnownSession;
    assert rs[0..] == rs;
    CreatedIsAfter(c, session, rs);
    RestTells(c, session, Created(session), rs, 0);
    SeenIsFirst(c, rs, 0);
  }

  lemma {:induction false} PolledMore(c: Config, s: State, rs: seq<Reply>, r: Reply)
    ensures var (t, verdict) := PolledAll(c, s, rs); PolledAll(c, s, rs + [r]) == if verdict.Stop? then (t, verdict) else Polled(c, t, r)
    decreases |rs|
  {
    hide Polled;
    if rs == [] {
      assert [r][1..] == [] && [] + [r] == [r];
    } else {
      PolledMore(c, Polled(c, s, rs[0]).0, rs[1..], r);
      assert (rs + [r])[1..] == rs[1..] + [r];
    }
  }

  /** As long as no reply stops the poller, its whole state is told by the replies: phase, idle clock, failures in a row, last
      body, session known, and whether a match is announced. */
  lemma {:induction false} StateIsTold(c: Config, session: string, rs: seq<Reply>, k: nat)
    requires k <= |rs| && forall j :: 0 <= j < k ==> StopsAt(c, rs, j).None?
    ensures var (s, verdict) := PolledAll(c, Created(session), rs[..k]); verdict.Continue? && After(c, session, s, rs, k)
  {
    hide After, Polled, StopsAt;
    if k == 0 {
      CreatedIsAfter(c, session, rs);
    } else {
      StateIsTold(c, session, rs, k - 1);
      assert rs[..k] == rs[..k - 1] + [rs[k - 1]];
      PolledMore(c, Created(session), rs[..k - 1], rs[k - 1]);
      var s := PolledAll(c, Created(session), rs[..k - 1]).0;
      PollTells(c, session, s, rs, k - 1);
      AfterPollMeans(c, session, Polled(c, s, rs[k - 1]), rs, k - 1);
      hide PolledAll;
      assert AfterPoll(c, session, Polled(c, s, rs[k - 1]), rs, k - 1);
      VerdictOf(c, session, Polled(c, s, rs[k - 1]), rs, k - 1);
    }
  }

  lemma VerdictOf(c: Config, session: string, r: (State, Verdict), rs: seq<Reply>, k: nat)
    requires k < |rs| && AfterPoll(c, session, r, rs, k)
    ensures StopsAt(c, rs, k).None? ==> r.1.Continue?
  {
    hide After, StopsAt, Told, Open;
  }

  lemma {:induction false} SeenIsFirst(c: Config, rs: seq<Reply>, k: nat)
    requires k <= |rs|
    ensures var n := Seen(c, rs, k);
            && (forall j :: k <= j < n - 1 ==> StopsAt(c, rs, j).None?)
            && (n > k && StopsAt(c, rs, n - 1).None? ==> n == |rs|)
            && (n == k ==> n == |rs|)
    decreases |rs| - k
  {
    if k < |rs| && StopsAt(c, rs, k).None? {
      hide StopsAt;
      SeenIsFirst(c, rs, k + 1);
    }
  }

  function Batches(trace: seq<Message>): seq<Message> {
    if trace == [] then []
    else Batches(trace[..|trace| - 1]) + if trace[|trace| - 1].Batch? then [trace[|trace| - 1]] else []
  }

  /** A batch for each of the first k replies that is forwarded. */
  function Forwarded(c: Config, rs: seq<Reply>, k: nat): seq<Message>
    requires k <= |rs|
  {
    if k == 0 then []
    else Forwarded(c, rs, k - 1) + if Forwards(c, rs, k - 1) then [Batch(rs[k - 1].session.id, rs[k - 1].session.queued)] else []
  }

  lemma {:induction false} BatchesConcat(a: seq<Message>, b: seq<Message>)
    ensures Batches(a + b) == Batches(a) + Batches(b)
  {
    if b == [] {
      assert a + b == a;
    } else {
      BatchesConcat(a, b[..|b| - 1]);
      assert (a + b)[..|a + b| - 1] == a + b[..|b| - 1];
    }
  }

  lemma OneBatch(m: Message)
    ensures Batches([m]) == (if m.Batch? then [m] else []) && Batches([]) == []
  {
    assert [m][..0] == [];
  }

  lemma BatchesOfOne(c: Config, session: string, rs: seq<Reply>, k: nat)
    requires k < |rs|
    ensures Batches(Sends(c, session, rs, k)) == if Forwards(c, rs, k) then [Batch(rs[k].session.id, rs[k].session.queued)] else []
  {
    hide Batches, Open, Changes, Over;
    var open, changed := Open(c, session, rs, k), Changes(c, session, rs, k);
    var batch := if rs[k].Answered? then Batch(rs[k].session.id, rs[k].session.queued) else MatchStart;
    var ended := if open && Over(c, rs[k]) then [MatchEnd(MatchOver)] else if open && changed then [MatchEnd(SessionChanged)] else [];
    var started := if open && !changed then [] else [MatchStart];
    OneBatch(MatchEnd(MatchOver));
    OneBatch(MatchEnd(SessionChanged));
    OneBatch(MatchStart);
    OneBatch(batch);
    BatchesConcat(ended, started + [batch]);
    BatchesConcat(started, [batch]);
    assert ended + [] == ended;
  }

  ghost predicate BatchesMatch(c: Config, session: string, rs: seq<Reply>, k: nat)
    requires k <= |rs|
  {
    Batches(Told(c, session, rs, k)) == Forwarded(c, rs, k)
  }

  lemma MoreBatches(c: Config, session: string, rs: seq<Reply>, k: nat)
    requires k < |rs| && BatchesMatch(c, session, rs, k)
    ensures BatchesMatch(c, session, rs, k + 1)
  {
    hide Batches, Sends, Forwards, Told, Forwarded;
    ToldStep(c, session, rs, k);
    BatchesConcat(Told(c, session, rs, k), Sends(c, session, rs, k));
    BatchesOfOne(c, session, rs, k);
  }

  lemma {:induction false} BatchesOfTold(c: Config, session: string, rs: seq<Reply>, k: nat)
    requires k <= |rs|
    ensures BatchesMatch(c, session, rs, k)
  {
    if k > 0 {
      hide BatchesMatch;
      BatchesOfTold(c, session, rs, k - 1);
      MoreBatches(c, session, rs, k - 1);
    }
  }

  lemma ToldStep(c: Config, session: string, rs: seq<Reply>, k: nat)
    requires k < |rs|
    ensures Told(c, session, rs, k + 1) == Told(c, session, rs, k) + Sends(c, session, rs, k)
    ensures Forwarded(c, rs, k + 1)
         == Forwarded(c, rs, k) + if Forwards(c, rs, k) then [Batch(rs[k].session.id, rs[k].session.queued)] else []
  {
    hide Sends, Forwards;
  }

  /** The batches of a run are, in order, exactly the accepted replies in play whose body differs from that of the last one
      in play, which have frames and which change detection does not skip. */
  lemma BatchesAreFreshReplies(c: Config, session: string, rs: seq<Reply>)
    ensures Batches(Ran(c, Created(session), rs).trace) == if c.dryRun then [] else Forwarded(c, rs, Seen(c, rs, 0))
  {
    TraceIsTheStory(c, session, rs);
    hide Ran, Told, Open, Batches;
    var n := Seen(c, rs, 0);
    var last := if Open(c, session, rs, n) then [MatchEnd(Stopped(FinalReason(c, rs)))] else [];
    BatchesOfTold(c, session, rs, n);
    BatchesConcat(Told(c, session, rs, n), last);
    OneBatch(MatchEnd(Stopped(FinalReason(c, rs))));
  }
}
