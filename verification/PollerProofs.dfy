/** What every run of a poller guarantees. */
module PollerProofs {
  import opened Common
  import opened Poller

  // ----- The trace

  /** Where a trace stands: between matches, behind a match_start, or behind batches of one session. Broken means that it
      is no prefix of (match_start batch+ match_end)*, or mixes sessions in one match. */
  datatype Position = Between | Announced | Inside(session: string) | Broken

  function Moved(p: Position, m: Message): Position {
    match (p, m)
    case (Between, MatchStart) => Announced
    case (Announced, Batch(session, _)) => Inside(session)
    case (Inside(current), Batch(session, _)) => if current == session then p else Broken
    case (Inside(_), MatchEnd(_)) => Between
    case _ => Broken
  }

  function Standing(trace: seq<Message>): Position {
    if trace == [] then Between else Moved(Standing(trace[..|trace| - 1]), trace[|trace| - 1])
  }

  lemma StandingSnoc(trace: seq<Message>, m: Message)
    ensures Standing(trace + [m]) == Moved(Standing(trace), m)
  {
    assert (trace + [m])[..|trace|] == trace;
  }

  /** The invariant of every poll: an open match carries the session the epoch knows, and no match is open in post_match. */
  predicate Inv(c: Config, s: State) {
    && (s.phase.IdlePostMatch? ==> !s.matchStarted)
    && (if c.dryRun then s.trace == []
        else Standing(s.trace) == if s.matchStarted then Inside(s.epochSession) else Between)
    && (s.matchStarted ==> s.epochSession != "")
  }

  predicate ValidReply(r: Reply) {
    r.Answered? ==> Valid(r.session)
  }

  lemma EndedKeeps(c: Config, s: State, reason: EndReason)
    requires Inv(c, s)
    ensures var e := Ended(c, s, reason); Inv(c, e) && !e.matchStarted
  {
    StandingSnoc(s.trace, MatchEnd(reason));
  }

  lemma PolledKeeps(c: Config, s: State, r: Reply)
    requires Inv(c, s) && ValidReply(r)
    ensures Inv(c, Polled(c, s, r).0)
  {
    if r.Answered? && (r.session.matchesId || !c.check.Strict?) {
      var answered := s.(errors := 0);
      if r.session.postMatch {
        EndedKeeps(c, answered, MatchOver);
      } else {
        PlayingKeeps(c, answered, r.session);
      }
    }
  }

  lemma PlayingKeeps(c: Config, s: State, session: Session)
    requires Inv(c, s) && Valid(session)
    ensures Inv(c, Playing(c, s, session))
  {
    hide Switched, Inv, Sent;
    var switched := Switched(c, s.(phase := Active), session.id);
    SwitchedKeeps(c, s, session.id);
    var hashed := switched.(lastHash := session.hash);
    HashedKeeps(c, switched, session.hash);
    if !session.skipped && session.frames > 0 {
      BatchKeeps(c, hashed, session.id, session.queued);
    }
  }

  lemma HashedKeeps(c: Config, s: State, hash: int)
    requires Inv(c, s)
    ensures Inv(c, s.(lastHash := hash))
  {
  }

  lemma SwitchedKeeps(c: Config, s: State, session: string)
    requires Inv(c, s) && session != ""
    ensures var t := Switched(c, s.(phase := Active), session); Inv(c, t) && t.epochSession == session && t.phase.Active?
  {
    hide Standing;
    var t := Switched(c, s.(phase := Active), session);
    if s.matchStarted && s.epochSession != session {
      assert t == Sent(c, s.(phase := Active, epochSession := session, matchStarted := false), MatchEnd(SessionChanged));
      StandingSnoc(s.trace, MatchEnd(SessionChanged));
    } else {
      assert t == s.(phase := Active, epochSession := session);
    }
  }

  lemma BatchKeeps(c: Config, s: State, session: string, queued: bool)
    requires Inv(c, s) && s.epochSession == session && s.phase.Active? && session != ""
    ensures var open := if s.matchStarted then s else Sent(c, s.(matchStarted := true), MatchStart);
            Inv(c, Sent(c, open, Batch(session, queued)))
  {
    StandingSnoc(s.trace, MatchStart);
    StandingSnoc(s.trace, Batch(session, queued));
    StandingSnoc(s.trace + [MatchStart], Batch(session, queued));
  }

  lemma {:induction false} PolledAllKeeps(c: Config, s: State, rs: seq<Reply>)
    requires Inv(c, s) && forall i :: 0 <= i < |rs| ==> ValidReply(rs[i])
    ensures Inv(c, PolledAll(c, s, rs).0)
    decreases |rs|
  {
    if rs != [] {
      hide Polled, Inv;
      PolledKeeps(c, s, rs[0]);
      PolledAllKeeps(c, Polled(c, s, rs[0]).0, rs[1..]);
    }
  }

  /** Every complete run of a poller sends (match_start batch+ match_end)*, all batches of one match from one session, and
      leaves no match open. A batch counts when it is offered, whether or not the send queue takes it. */
  lemma RunIsWellFormed(c: Config, session: string, rs: seq<Reply>)
    requires forall i :: 0 <= i < |rs| ==> ValidReply(rs[i])
    ensures var s := Ran(c, Created(session), rs); Standing(s.trace) == Between && !s.matchStarted
    ensures c.dryRun ==> Ran(c, Created(session), rs).trace == []
  {
    hide PolledAll;
    PolledAllKeeps(c, Created(session), rs);
    var (last, verdict) := PolledAll(c, Created(session), rs);
    EndedKeeps(c, last, Stopped(if verdict.Stop? then verdict.reason else Cancelled));
  }

  // ----- Outages

  predicate OnlyFailures(rs: seq<Reply>) {
    forall i :: 0 <= i < |rs| ==> rs[i].Failed?
  }

  /** Failed polls send nothing and keep an open match open. */
  lemma {:induction false} OutageIsSilent(c: Config, s: State, rs: seq<Reply>)
    requires OnlyFailures(rs)
    ensures var after := PolledAll(c, s, rs).0;
            after.trace == s.trace && after.matchStarted == s.matchStarted && after.epochSession == s.epochSession
    decreases |rs|
  {
    if rs != [] { OutageIsSilent(c, Polled(c, s, rs[0]).0, rs[1..]); }
  }

  /** An outage, however long, that recovers to the session it interrupted sends no control message. */
  lemma OutageRecoversQuietly(c: Config, s: State, rs: seq<Reply>, session: Session, now: int)
    requires OnlyFailures(rs) && s.matchStarted && session.id == s.epochSession && !session.postMatch
    ensures var down := PolledAll(c, s, rs);
            down.1.Continue? ==>
              var back := Polled(c, down.0, Answered(session, now));
              back.0.trace == s.trace || back.0.trace == s.trace + [Batch(session.id, session.queued)]
  {
    OutageIsSilent(c, s, rs);
  }

  // ----- The idle clock

  /** The idle clock changes only when the poller leaves the active phase, and then to the time of the sample. */
  lemma IdleClockStartsOnce(c: Config, s: State, r: Reply)
    ensures var after := Polled(c, s, r).0;
            && (after.idleSince != s.idleSince ==> s.phase.Active? && !after.phase.Active? && !r.Interrupted? && after.idleSince == r.now)
            && (s.phase.Active? && !after.phase.Active? ==> !r.Interrupted? && after.idleSince == r.now)
            && (!s.phase.Active? ==> after.idleSince == s.idleSince)
  {
  }

  /** After the first k polls, none of which stopped the poller, it is in the active phase. */
  predicate ActiveAfter(c: Config, s: State, rs: seq<Reply>, k: nat)
    requires k <= |rs|
  {
    PolledAll(c, s, rs[..k]).0.phase.Active?
  }

  /** The k-th poll found the poller active and left it idle at the given time, and it stayed idle since. */
  predicate LeftAt(c: Config, s: State, rs: seq<Reply>, k: nat, time: int)
    requires k < |rs|
  {
    && ActiveAfter(c, s, rs, k) && !rs[k].Interrupted? && rs[k].now == time
    && forall j :: k < j <= |rs| ==> !ActiveAfter(c, s, rs, j)
  }

  lemma ActiveLater(c: Config, s: State, rs: seq<Reply>, k: nat)
    requires 0 < k <= |rs| && !Polled(c, s, rs[0]).1.Stop?
    ensures ActiveAfter(c, s, rs, k) <==> ActiveAfter(c, Polled(c, s, rs[0]).0, rs[1..], k - 1)
  {
    assert rs[..k][1..] == rs[1..][..k - 1] && rs[..k][0] == rs[0];
  }

  lemma ActiveAtFirst(c: Config, s: State, rs: seq<Reply>)
    ensures ActiveAfter(c, s, rs, 0) <==> s.phase.Active?
  {
  }

  /** For every sequence of replies: a poller that is idle in the end either was idle all along and its clock still stands
      where it stood, or the clock shows the time of the poll by which it left the active phase last. */
  lemma {:induction false} IdleClockIsTheLastLeave(c: Config, s: State, rs: seq<Reply>)
    requires !PolledAll(c, s, rs).1.Stop? && !PolledAll(c, s, rs).0.phase.Active?
    ensures var clock := PolledAll(c, s, rs).0.idleSince;
            || (clock == s.idleSince && forall j :: 0 <= j <= |rs| ==> !ActiveAfter(c, s, rs, j))
            || exists k :: 0 <= k < |rs| && LeftAt(c, s, rs, k, clock)
    decreases |rs|
  {
    ActiveAtFirst(c, s, rs);
    if rs != [] {
      var next, rest := Polled(c, s, rs[0]).0, rs[1..];
      var clock := PolledAll(c, s, rs).0.idleSince;
      assert !Polled(c, s, rs[0]).1.Stop?;
      IdleClockIsTheLastLeave(c, next, rest);
      IdleClockStartsOnce(c, s, rs[0]);
      ActiveAtFirst(c, next, rest);
      hide Polled, PolledAll, ActiveAfter;
      forall j | 0 < j <= |rs| ensures ActiveAfter(c, s, rs, j) <==> ActiveAfter(c, next, rest, j - 1) {
        ActiveLater(c, s, rs, j);
      }
      if k :| 0 <= k < |rest| && LeftAt(c, next, rest, k, clock) {
        assert LeftAt(c, s, rs, k + 1, clock);
      } else if s.phase.Active? {
        assert LeftAt(c, s, rs, 0, clock);
      }
    }
  }

  /** Every reply comes after the give-up time. */
  predicate Late(c: Config, since: int, rs: seq<Reply>) {
    forall i :: 0 <= i < |rs| ==> !rs[i].Interrupted? ==> rs[i].now - since > c.giveUp
  }

  /** A poller that is idle past its give-up time stops or becomes active within 30 polls, whatever it meets. */
  lemma GivesUpWithin30(c: Config, s: State, rs: seq<Reply>)
    requires !s.phase.Active? && |rs| >= FAILURE_IDLE_THRESHOLD && Late(c, s.idleSince, rs)
    ensures exists k :: 0 < k <= FAILURE_IDLE_THRESHOLD && EndsIdling(c, s, rs, k)
  {
    var k := GivesUp(c, s, rs);
  }

  /** The polls so far have stopped the poller or found it active again. */
  predicate DoneIdling(c: Config, s: State, rs: seq<Reply>) {
    var (after, verdict) := PolledAll(c, s, rs);
    verdict.Stop? || after.phase.Active?
  }

  /** The k-th poll stops the poller or finds it active again; those before it did neither. */
  predicate EndsIdling(c: Config, s: State, rs: seq<Reply>, k: nat)
    requires k <= |rs|
  {
    DoneIdling(c, s, rs[..k]) && forall j :: 0 < j < k ==> !DoneIdling(c, s, rs[..j])
  }

  /** After a poll that does not stop the poller the others go on from its state. */
  lemma DoneLater(c: Config, s: State, rs: seq<Reply>, k: nat)
    requires 0 < k <= |rs| && !Polled(c, s, rs[0]).1.Stop?
    ensures DoneIdling(c, s, rs[..k]) <==> DoneIdling(c, Polled(c, s, rs[0]).0, rs[1..][..k - 1])
  {
    assert rs[..k][1..] == rs[1..][..k - 1] && rs[..k][0] == rs[0];
  }

  lemma {:induction false} GivesUp(c: Config, s: State, rs: seq<Reply>) returns (k: nat)
    requires !s.phase.Active? && Late(c, s.idleSince, rs)
    requires |rs| >= FAILURE_IDLE_THRESHOLD - s.errors && rs != []
    ensures 0 < k <= |rs| && k <= Max(1, FAILURE_IDLE_THRESHOLD - s.errors) && EndsIdling(c, s, rs, k)
    decreases |rs|
  {
    var (next, verdict) := Polled(c, s, rs[0]);
    assert rs[..1][1..] == [];
    assert PolledAll(c, next, []) == (next, Continue);
    if verdict.Stop? || next.phase.Active? {
      k := 1;
    } else {
      assert rs[0].Failed? && next.errors == s.errors + 1 && next.errors < FAILURE_IDLE_THRESHOLD;
      assert forall i :: 0 <= i < |rs[1..]| ==> rs[1..][i] == rs[i + 1];
      var j := GivesUp(c, next, rs[1..]);
      hide Polled, DoneIdling;
      k := j + 1;
      DoneLater(c, s, rs, k);
      forall i | 0 < i < k ensures !DoneIdling(c, s, rs[..i]) {
        DoneLater(c, s, rs, i);
        if i == 1 { NotYetDone(c, next); assert rs[1..][..0] == []; }
      }
    }
  }

  lemma NotYetDone(c: Config, s: State)
    ensures DoneIdling(c, s, []) <==> s.phase.Active?
  {
  }
}
