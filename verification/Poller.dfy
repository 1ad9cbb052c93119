/** matchPoller of cmd/bridge/poller.go: one match's lifecycle, as the trace of messages it sends. */
module Poller {
  import opened Common

  datatype Phase = Active | IdlePostMatch | IdleUnreachable | IdleError

  datatype StopReason = Cancelled | BroadcasterError | BroadcasterUnreachable | SessionMismatch | PostMatch

  datatype EndReason = Stopped(reason: StopReason) | MatchOver | SessionChanged

  /** What the poller hands to the sender. A batch knows the session its frames were sampled from, and whether the send
      queue took it. */
  datatype Message = MatchStart | Batch(session: string, queued: bool) | MatchEnd(reason: EndReason)

  datatype CheckMode = Strict | WarnOnly | Off

  datatype Config = Config(giveUp: int, check: CheckMode, dryRun: bool)

  /** A poll that failed: at the transport, by its status, its body, or its session. */
  datatype Failure = Transport | Non200 | BadBody | InvalidSession

  /** A session that passed validation: its id, whether it matches the Nakama match, the hash of the body, and what
      the mapper makes of it. */
  datatype Session = Session(id: string, matchesId: bool, postMatch: bool, hash: int, skipped: bool, frames: nat, queued: bool)

  /** Validation refuses empty session ids. */
  predicate Valid(s: Session) {
    s.id != ""
  }

  /** What one poll meets. */
  datatype Reply = Interrupted | Failed(failure: Failure, now: int) | Answered(session: Session, now: int)

  const FAILURE_IDLE_THRESHOLD := 30

  /** The poller's fields, the session its match's epoch knows, and the messages sent so far. */
  datatype State = State(phase: Phase, idleSince: int, matchStarted: bool, errors: nat, lastHash: int,
                         epochSession: string, trace: seq<Message>)

  /** Whether polling goes on. */
  datatype Verdict = Continue | Stop(reason: StopReason)

  // ----- One poll, as a function

  function Sent(c: Config, s: State, m: Message): State {
    if c.dryRun then s else s.(trace := s.trace + [m])
  }

  /** endMatch: once for each announced match. */
  function Ended(c: Config, s: State, reason: EndReason): State {
    if s.matchStarted then Sent(c, s.(matchStarted := false), MatchEnd(reason)) else s
  }

  /** recordFailure. */
  function Failing(c: Config, s: State, failure: Failure, now: int): (State, Verdict) {
    var n := s.errors + 1;
    var counted := s.(errors := n);
    if n < FAILURE_IDLE_THRESHOLD then (counted, Continue)
    else
      var target := if failure.Transport? then IdleUnreachable else IdleError;
      if s.phase.Active? then (counted.(phase := target, idleSince := now), Continue)
      else if now - s.idleSince > c.giveUp then
        (counted.(phase := target), Stop(if failure.Transport? then BroadcasterUnreachable else BroadcasterError))
      else (counted.(phase := target), Continue)
  }

  /** A post_match session: the end is announced once, and the idle clock starts only when the poller was active. */
  function PostMatching(c: Config, s: State, session: string, now: int): (State, Verdict) {
    var ended := if s.phase.IdlePostMatch? then s else Ended(c, s, MatchOver).(phase := IdlePostMatch);
    var idle := if s.phase.Active? then ended.(idleSince := now) else ended;
    (idle.(epochSession := session), if now - idle.idleSince > c.giveUp then Stop(PostMatch) else Continue)
  }

  /** setSession, and the end of the match of another session. */
  function Switched(c: Config, s: State, session: string): State {
    var changed := s.epochSession != "" && session != "" && s.epochSession != session;
    var known := s.(epochSession := session);
    if changed then Ended(c, known, SessionChanged) else known
  }

  /** A session being played. */
  function Playing(c: Config, s: State, session: Session): State {
    var switched := Switched(c, s.(phase := Active), session.id);
    if session.hash == s.lastHash then switched
    else
      var hashed := switched.(lastHash := session.hash);
      if session.skipped || session.frames == 0 then hashed
      else
        var open := if hashed.matchStarted then hashed else Sent(c, hashed.(matchStarted := true), MatchStart);
        Sent(c, open, Batch(session.id, session.queued))
  }

  /** poll. */
  function Polled(c: Config, s: State, r: Reply): (State, Verdict) {
    match r
    case Interrupted => (s, Stop(Cancelled))
    case Failed(failure, now) => Failing(c, s, failure, now)
    case Answered(session, now) =>
      var answered := s.(errors := 0);
      if !session.matchesId && c.check.Strict? then (answered, Stop(SessionMismatch))
      else if session.postMatch then PostMatching(c, answered, session.id, now)
      else (Playing(c, answered, session), Continue)
  }

  /** The polls up to the first that stops. */
  function PolledAll(c: Config, s: State, rs: seq<Reply>): (State, Verdict)
    decreases |rs|
  {
    if rs == [] then (s, Continue)
    else
      var (next, verdict) := Polled(c, s, rs[0]);
      if verdict.Stop? then (next, verdict) else PolledAll(c, next, rs[1..])
  }

  /** A new poller; the epoch may know a session from an earlier poller of the match. */
  function Created(session: string): State {
    State(Active, 0, false, 0, 0, session, [])
  }

  /** run: polls until one stops or the context ends, and then ends the match. */
  function Ran(c: Config, s: State, rs: seq<Reply>): State {
    var (last, verdict) := PolledAll(c, s, rs);
    Ended(c, last, Stopped(if verdict.Stop? then verdict.reason else Cancelled))
  }

  // ----- The poller

  class MatchPoller {
    const cfg: Config
    var phase: Phase
    var idleSince: int
    var matchStarted: bool
    var consecutiveErrors: nat
    var lastBodyHash: int
    var epochSession: string
    var trace: seq<Message>

    function Value(): State
      reads this
    {
      State(phase, idleSince, matchStarted, consecutiveErrors, lastBodyHash, epochSession, trace)
    }

    constructor (cfg: Config, session: string)
      ensures Value() == Created(session) && this.cfg == cfg
    {
      this.cfg := cfg;
      phase, idleSince, matchStarted, consecutiveErrors, lastBodyHash := Active, 0, false, 0, 0;
      epochSession, trace := session, [];
    }

    method Send(m: Message)
      modifies `trace
      ensures Value() == Sent(cfg, old(Value()), m)
    {
      if cfg.dryRun { return; }
      trace := trace + [m];
    }

    method EndMatch(reason: EndReason)
      modifies `matchStarted, `trace
      ensures Value() == Ended(cfg, old(Value()), reason)
    {
      if !matchStarted { return; }
      matchStarted := false;
      Send(MatchEnd(reason));
    }

    method StartMatch()
      requires !matchStarted
      modifies `matchStarted, `trace
      ensures Value() == Sent(cfg, old(Value()).(matchStarted := true), MatchStart)
    {
      matchStarted := true;
      Send(MatchStart);
    }

    method RecordFailure(failure: Failure, now: int) returns (verdict: Verdict)
      modifies `consecutiveErrors, `phase, `idleSince
      ensures (Value(), verdict) == Failing(cfg, old(Value()), failure, now)
    {
      consecutiveErrors := consecutiveErrors + 1;
      if consecutiveErrors < FAILURE_IDLE_THRESHOLD { return Continue; }
      var target, giveUpReason := IdleError, BroadcasterError;
      if failure.Transport? { target, giveUpReason := IdleUnreachable, BroadcasterUnreachable; }
      if phase.Active? {
        EnterIdle(target, now);
        return Continue;
      }
      if phase != target { phase := target; }
      verdict := if now - idleSince > cfg.giveUp then Stop(giveUpReason) else Continue;
    }

    method EnterIdle(target: Phase, now: int)
      modifies `phase, `idleSince
      ensures phase == target && idleSince == now
    {
      phase := target;
      idleSince := now;
    }

    method SetSession(id: string) returns (changed: bool)
      modifies `epochSession
      ensures epochSession == id && (changed <==> old(epochSession) != "" && id != "" && old(epochSession) != id)
    {
      changed := epochSession != "" && id != "" && epochSession != id;
      epochSession := id;
    }

    method Poll(r: Reply) returns (verdict: Verdict)
      modifies this
      ensures (Value(), verdict) == Polled(cfg, old(Value()), r)
    {
      if r.Interrupted? { return Stop(Cancelled); }
      if r.Failed? {
        verdict := RecordFailure(r.failure, r.now);
        return;
      }
      consecutiveErrors := 0;
      if cfg.check != Off && !r.session.matchesId {
        if cfg.check == Strict { return Stop(SessionMismatch); }
      }
      if r.session.postMatch {
        verdict := PollPostMatch(r.session.id, r.now);
        return;
      }
      PollPlaying(r.session);
      verdict := Continue;
    }

    method PollPostMatch(session: string, now: int) returns (verdict: Verdict)
      modifies this
      ensures (Value(), verdict) == PostMatching(cfg, old(Value()), session, now)
    {
      match phase {
        case IdlePostMatch =>
        case Active =>
          EndMatch(MatchOver);
          EnterIdle(IdlePostMatch, now);
        case _ =>
          EndMatch(MatchOver);
          phase := IdlePostMatch;
      }
      var changed := SetSession(session);
      verdict := if now - idleSince > cfg.giveUp then Stop(PostMatch) else Continue;
    }

    method PollPlaying(session: Session)
      modifies this
      ensures Value() == Playing(cfg, old(Value()), session)
    {
      if !phase.Active? { phase := Active; }
      var changed := SetSession(session.id);
      if changed { EndMatch(SessionChanged); }
      if session.hash == lastBodyHash { return; }
      lastBodyHash := session.hash;
      if session.skipped || session.frames == 0 { return; }
      if !matchStarted { StartMatch(); }
      Send(Batch(session.id, session.queued));
    }

    /** run: the replies of its polls, up to the end of the context. */
    method Run(rs: seq<Reply>)
      modifies this
      ensures Value() == Ran(cfg, old(Value()), rs)
    {
      hide Polled;
      ghost var start := Value();
      for i := 0 to |rs|
        invariant PolledAll(cfg, start, rs) == PolledAll(cfg, Value(), rs[i..])
      {
        assert rs[i..][1..] == rs[i + 1..];
        var verdict := Poll(rs[i]);
        if verdict.Stop? {
          EndMatch(Stopped(verdict.reason));
          return;
        }
      }
      EndMatch(Stopped(Cancelled));
    }
  }
}
