/** That the sender can always go on: the writer settles, what is queued can be sent, and a closed sender stays closed. */
module SenderProgress {
  import opened Common
  import opened Sender
  import opened SenderProofs

  /** A state of some run. */
  ghost predicate Reaches(c: nat, pollers: nat, es: seq<Event>, s: State) {
    IsRun(Initial(c, pollers), es) && After(Initial(c, pollers), es) == s
  }

  lemma Go(c: nat, pollers: nat, es: seq<Event>, s: State, e: WriterEvent) returns (t: State)
    requires Reaches(c, pollers, es, s) && WriterEnabled(s, e)
    ensures t == WriterNext(s, e) && Reaches(c, pollers, es + [ByWriter(e)], t)
  {
    RunExtends(Initial(c, pollers), es, ByWriter(e));
    t := WriterNext(s, e);
  }

  lemma ReachesInv(c: nat, pollers: nat, es: seq<Event>, s: State)
    requires Reaches(c, pollers, es, s)
    ensures Inv(s)
  {
    InitialInv(c, pollers);
    RunKeepsInv(Initial(c, pollers), es);
  }

  // ----- The writer settles

  /** The longest way to the next message. */
  function StepsToIdle(w: Writer): nat {
    match w
    case Idle => 0 case Stopped => 0
    case Finishing => 1 case Monitoring(_) => 1 case NotStarted => 1
    case Written(_) => 2 case DialFailed(_) => 2 case EagerInstalled => 2
    case Dropping(d, _) => (match d case Counting(_) => 2 case SocketClosed => 3 case Cleared => 4)
    case MustDrop(_) => 5 case Unregistered(_, _) => 6 case SendFailed(_, _) => 7 case Registered(_, _) => 8 case Holding(_, _) => 9
    case Adopted(_, _) => 10 case Installed(_) => 11 case Dialing(_) => 12 case Took(_) => 13
  }

  /** A step that is always possible, whatever the server does. */
  function WayOut(w: Writer): WriterEvent {
    match w
    case Idle => StopWriter case Stopped => CloseBegin
    case Finishing => Finish case Monitoring(_) => MonitorDone case NotStarted => StartWriter
    case Written(_) => CountSent case DialFailed(_) => CountDialDrop case EagerInstalled => EagerReset
    case Dropping(_, _) => DroppingStep
    case MustDrop(_) => DropAfterSend case Unregistered(_, _) => CountSendDrop case SendFailed(_, _) => Unregister
    case Registered(_, _) => SendFail case Holding(_, _) => Register
    case Adopted(_, _) => SeeAdopted case Installed(_) => AdoptReset case Dialing(_) => DialFail case Took(_) => SeeConn
  }

  lemma WayOutShortens(s: State)
    requires !s.writer.Idle? && !s.writer.Stopped?
    ensures WriterEnabled(s, WayOut(s.writer))
    ensures StepsToIdle(WriterNext(s, WayOut(s.writer)).writer) < StepsToIdle(s.writer) && !WriterNext(s, WayOut(s.writer)).writer.Stopped?
    ensures WriterNext(s, WayOut(s.writer)).queue == s.queue && WriterNext(s, WayOut(s.writer)).offers == s.offers
  {
  }

  /** Whatever the server does, at most 13 steps of the writer lead from any state to its next message, unless it has stopped; the
      queue and the pollers need not wait for anything else. */
  lemma {:induction false} WriterSettles(c: nat, pollers: nat, es: seq<Event>, s: State) returns (more: seq<Event>, t: State)
    requires Reaches(c, pollers, es, s) && !s.writer.Stopped?
    ensures Reaches(c, pollers, es + more, t) && t.writer.Idle? && t.queue == s.queue && t.offers == s.offers
    ensures |more| <= StepsToIdle(s.writer) <= 13
    decreases StepsToIdle(s.writer)
  {
    hide Reaches, WriterEnabled, WriterNext, StepsToIdle, WayOut;
    AtMost13(s.writer);
    if s.writer.Idle? {
      more, t := [], s;
      assert es + [] == es;
    } else {
      WayOutShortens(s);
      var e := ByWriter(WayOut(s.writer));
      var next := Go(c, pollers, es, s, WayOut(s.writer));
      var rest;
      rest, t := WriterSettles(c, pollers, es + [e], next);
      more := [e] + rest;
      assert (es + [e]) + rest == es + more;
    }
  }

  lemma AtMost13(w: Writer)
    ensures StepsToIdle(w) <= 13
  {
  }

  // ----- What is queued can be sent

  /** An idle writer sends the next message, over the connection in use or a new one. */
  lemma SendsNext(c: nat, pollers: nat, es: seq<Event>, s: State) returns (more: seq<Event>, t: State)
    requires Reaches(c, pollers, es, s) && s.writer.Idle? && !s.link.closed && s.queue != []
    ensures Reaches(c, pollers, es + more, t) && t.writer.Idle? && !t.link.closed && t.queue == s.queue[1..] && t.offers == s.offers
    ensures t.sent == s.sent + Frames(s.queue[0]) && t.dropped == s.dropped && t.discarded == s.discarded && t.pending == s.pending - 1
  {
    hide Reaches;
    var s1 := Go(c, pollers, es, s, Take);
    var s2 := Go(c, pollers, es + [ByWriter(Take)], s1, SeeConn);
    var es2 := (es + [ByWriter(Take)]) + [ByWriter(SeeConn)];
    var more3, s3 := Connects(c, pollers, es2, s2, s.queue[0]);
    var es3 := es2 + more3;
    var s4 := Go(c, pollers, es3, s3, Register);
    var s5 := Go(c, pollers, es3 + [ByWriter(Register)], s4, SendOk);
    var es5 := (es3 + [ByWriter(Register)]) + [ByWriter(SendOk)];
    var s6 := Go(c, pollers, es5, s5, CountSent);
    t := Go(c, pollers, es5 + [ByWriter(CountSent)], s6, Finish);
    more := [ByWriter(Take), ByWriter(SeeConn)] + more3 + [ByWriter(Register), ByWriter(SendOk), ByWriter(CountSent), ByWriter(Finish)];
    assert es + more == (es5 + [ByWriter(CountSent)]) + [ByWriter(Finish)];
  }

  /** From the look at the connection to holding one. */
  lemma Connects(c: nat, pollers: nat, es: seq<Event>, s: State, msg: Msg) returns (more: seq<Event>, t: State)
    requires Reaches(c, pollers, es, s) && !s.link.closed
    requires if s.link.conn.Some? then s.writer == Holding(msg, s.link.conn.value) else s.writer == Dialing(msg)
    ensures Reaches(c, pollers, es + more, t) && t.link.conn.Some? && t.writer == Holding(msg, t.link.conn.value) && !t.link.closed
    ensures t.queue == s.queue && t.offers == s.offers && t.sent == s.sent && t.dropped == s.dropped && t.discarded == s.discarded
    ensures t.pending == s.pending
  {
    hide Reaches;
    if s.link.conn.Some? {
      more, t := [], s;
      assert es + [] == es;
    } else {
      var s1 := Go(c, pollers, es, s, DialOk);
      var s2 := Go(c, pollers, es + [ByWriter(DialOk)], s1, AdoptReset);
      t := Go(c, pollers, (es + [ByWriter(DialOk)]) + [ByWriter(AdoptReset)], s2, SeeAdopted);
      more := [ByWriter(DialOk), ByWriter(AdoptReset), ByWriter(SeeAdopted)];
      assert es + more == ((es + [ByWriter(DialOk)]) + [ByWriter(AdoptReset)]) + [ByWriter(SeeAdopted)];
    }
  }

  /** As long as the sender is open, an idle writer can send everything that is queued, losing none of it. */
  lemma {:induction false} QueueCanBeSent(c: nat, pollers: nat, es: seq<Event>, s: State) returns (more: seq<Event>, t: State)
    requires Reaches(c, pollers, es, s) && s.writer.Idle? && !s.link.closed
    ensures Reaches(c, pollers, es + more, t) && t.writer.Idle? && t.queue == [] && t.offers == s.offers
    ensures t.sent == s.sent + QueueFrames(s.queue) && t.dropped == s.dropped && t.discarded == s.discarded
    decreases |s.queue|
  {
    hide Reaches;
    if s.queue == [] {
      more, t := [], s;
      assert es + [] == es;
    } else {
      var first, next := SendsNext(c, pollers, es, s);
      var rest;
      rest, t := QueueCanBeSent(c, pollers, es + first, next);
      more := first + rest;
      assert (es + first) + rest == es + more;
    }
  }

  // ----- Closing

  /** The sender is closed from the first step of close on, and has no connection after the last. */
  ghost predicate ClosedTold(s: State, es: seq<Event>) {
    && (s.link.closed <==> ByWriter(CloseBegin) in es)
    && (ByWriter(CloseFinish) in es ==> s.link.closed && s.link.conn.None? && !Installing(s.writer))
  }

  lemma ClosedStep(s: State, es: seq<Event>, e: Event)
    requires ClosedTold(s, es) && Enabled(s, e)
    ensures ClosedTold(Next(s, e), es + [e])
  {
    assert forall x :: x in es + [e] <==> x in es || x == e;
  }

  lemma {:induction false} RestClosed(s: State, before: seq<Event>, rest: seq<Event>)
    requires ClosedTold(s, before) && IsRun(s, rest)
    ensures ClosedTold(After(s, rest), before + rest)
    decreases |rest|
  {
    hide ClosedTold, Enabled, Next;
    if rest == [] {
      assert before + rest == before;
    } else {
      ClosedStep(s, before, rest[0]);
      RestClosed(Next(s, rest[0]), before + [rest[0]], rest[1..]);
      assert (before + [rest[0]]) + rest[1..] == before + rest;
    }
  }

  /** Close can begin at any time, from then on the sender is closed, and once close is over it has no connection any more, however
      the run goes on. */
  lemma ClosedStaysClosed(c: nat, pollers: nat, events: seq<Event>)
    requires IsRun(Initial(c, pollers), events)
    ensures var s := After(Initial(c, pollers), events);
            && (s.link.closed <==> ByWriter(CloseBegin) in events)
            && (ByWriter(CloseFinish) in events ==> s.link.conn.None?)
            && IsRun(Initial(c, pollers), events + [ByWriter(CloseBegin)])
  {
    RestClosed(Initial(c, pollers), [], events);
    assert [] + events == events;
    RunExtends(Initial(c, pollers), events, ByWriter(CloseBegin));
  }
}
