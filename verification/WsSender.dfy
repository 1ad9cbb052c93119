/** cmd/bridge/sender.go: the wsSender object itself.

    Each method is one goroutine running through the source's code without interference. Its contract says that this
    is a run of the protocol of module Sender; runs that interleave the goroutines are the subject of that module. */
module WsSender {
  import opened Common
  import Sender
  import SenderProofs

  /** The control messages handleControl tells apart. */
  datatype Control = AckMsg(ack: Sender.Ack) | ErrorMsg | HelloMsg | UnknownMsg

  class Link {
    var conn: Option<nat>
    var gen: nat
    var closed: bool
    var inflight: nat
    var queue: seq<Sender.Msg>
    var pending: int
    var offered: nat
    var dropped: nat
    var sent: nat
    var discarded: nat
    var acked: nat
    var rejected: nat
    var ignored: nat
    var lost: nat
    const capacity: nat
    ghost var readers: seq<Sender.Reader>  // what the read loop of each generation is doing
    ghost var wiped: nat                   // the in-flight counts that adopt has thrown away

    constructor (capacity: nat)
      ensures View() == Sender.Initial(capacity, 1).(writer := Sender.Idle)
    {
      this.capacity := capacity;
      conn, gen, closed, inflight := None, 0, false, 0;
      queue, pending := [], 0;
      offered, dropped, sent, discarded, acked, rejected, ignored, lost := 0, 0, 0, 0, 0, 0, 0, 0;
      readers, wiped := [], 0;
    }

    ghost function LinkView(): Sender.Link
      reads this
    {
      Sender.Link(conn, gen, closed, inflight, lost)
    }

    /** The protocol state with the writer idle and one quiet poller. */
    ghost function View(): Sender.State
      reads this
    {
      Sender.State(capacity, queue, [Sender.Quiet], Sender.Idle, readers, LinkView(),
                   pending, offered, dropped, sent, discarded, acked, rejected, ignored, wiped)
    }

    /** Both locks of adopt: a closed sender adopts nothing. */
    method Adopt()
      modifies this`conn, this`gen, this`inflight, this`readers, this`wiped
      ensures View() == if closed then old(View()) else Installed(old(View()))
    {
      if closed { return; }
      conn, gen := Some(gen + 1), gen + 1;
      var thrown := ResetInflight(0);
      readers, wiped := readers + [Sender.Receiving], wiped + thrown;
    }

    method ResetInflight(n: nat) returns (previous: nat)
      modifies this`inflight
      ensures previous == old(inflight) && inflight == n
    {
      previous := inflight;
      inflight := n;
    }

    method DropConn(g: nat)
      modifies this`conn, this`inflight, this`lost
      ensures LinkView() == Dropped(old(LinkView()), g)
      ensures lost + inflight == old(lost + inflight)
    {
      if conn != Some(g) { return; }
      conn := None;
      var gone := ResetInflight(0);
      lost := lost + gone;
    }

    /** The error path of readLoop. */
    method ReadLoopFails(reader: nat) returns (ghost events: seq<Sender.Event>)
      requires reader < |readers| && readers[reader].Receiving?
      modifies this`conn, this`inflight, this`lost, this`readers
      ensures Sender.IsRun(old(View()), events) && View() == Sender.After(old(View()), events)
      ensures readers == old(readers)[reader := Sender.Ended]
      ensures old(conn) != Some(reader + 1) ==> LinkView() == old(LinkView())
      ensures old(conn) == Some(reader + 1) ==> conn.None? && inflight == 0 && lost == old(lost + inflight)
    {
      ghost var start := View();
      DropConn(reader + 1);
      readers := readers[reader := Sender.Ended];
      events := EndingRuns(start, reader);
    }

    /** monitorTick. ackTimeout: the oldest unacked frames are too old; pingOk: no ping is due, or its write works. */
    method MonitorTick(ackTimeout: bool, pingOk: bool) returns (ghost events: seq<Sender.Event>)
      modifies this`conn, this`inflight, this`lost
      ensures Sender.IsRun(old(View()), events) && View() == Sender.After(old(View()), events)
      ensures var drops := old(conn).Some? && ((old(inflight) > 0 && ackTimeout) || !pingOk);
              && conn == (if drops then None else old(conn))
              && inflight == (if drops then 0 else old(inflight))
              && lost == (if drops then old(lost + inflight) else old(lost))
    {
      events := [];
      ghost var start := View();
      var c := conn;
      if c.None? { return; }
      if inflight > 0 && ackTimeout {
        DropConn(c.value);
        events := MonitorRuns(start);
        return;
      }
      if !pingOk {
        DropConn(c.value);
        events := MonitorRuns(start);
      }
    }

    method RegisterInflight(n: int)
      modifies this`inflight
      ensures LinkView() == Sender.AddInflight(old(LinkView()), Sender.Positive(n))
    {
      if n <= 0 { return; }
      inflight := inflight + n;
    }

    method RemoveInflight(n: int)
      modifies this`inflight
      ensures LinkView() == if n <= 0 then old(LinkView()) else Sender.TakeInflight(old(LinkView()), n)
    {
      if n <= 0 { return; }
      SettleInflight(n);
    }

    method SettleInflight(n: int)
      modifies this`inflight
      ensures LinkView() == Sender.TakeInflight(old(LinkView()), n)
    {
      if inflight - n <= 0 { inflight := 0; } else { inflight := inflight - n; }
    }

    /** handleControl: the counters move before the in-flight count is settled. */
    method HandleControl(reader: nat, msg: Control) returns (ghost events: seq<Sender.Event>)
      requires reader < |readers| && readers[reader].Receiving?
      modifies this`acked, this`rejected, this`ignored, this`inflight
      ensures Sender.IsRun(old(View()), events) && View() == Sender.After(old(View()), events)
      ensures (events != []) == msg.AckMsg?
      ensures msg.AckMsg? ==> acked + rejected + ignored - old(acked + rejected + ignored) >= old(inflight) - inflight
    {
      events := [];
      ghost var start := View();
      NoSteps(start);
      hide Sender.IsRun, Sender.After;
      if !msg.AckMsg? { return; }
      var a := msg.ack;
      if a.accepted > 0 { acked := acked + a.accepted; }
      if a.rejected > 0 { rejected := rejected + a.rejected; }
      if a.ignored > 0 { ignored := ignored + a.ignored; }
      SettleInflight(a.accepted + a.rejected + a.ignored);
      events := AckRuns(start, reader, a);
    }

    method EnqueueBatch(frames: nat) returns (ok: bool, ghost events: seq<Sender.Event>)
      modifies this`queue, this`pending, this`offered, this`dropped
      ensures Sender.IsRun(old(View()), events) && View() == Sender.After(old(View()), events)
      ensures ok == (|old(queue)| < capacity)
      ensures queue == if ok then old(queue) + [Sender.Batch(frames)] else old(queue)
      ensures dropped == old(dropped) + if ok then 0 else frames
    {
      ghost var start := View();
      pending, offered := pending + 1, offered + frames;
      if |queue| < capacity {
        queue := queue + [Sender.Batch(frames)];
        ok := true;
        events := QueuedRuns(start, Sender.Batch(frames));
      } else {
        pending := pending - 1;
        dropped := dropped + frames;
        ok := false;
        events := RefusedRuns(start, Sender.Batch(frames));
      }
    }

    /** One turn of writerLoop: deliver the oldest queued message. dialOk and sendOk are what the network does. */
    method DeliverNext(dialOk: bool, sendOk: bool) returns (ghost events: seq<Sender.Event>)
      requires queue != []
      modifies this
      ensures Sender.IsRun(old(View()), events) && View() == Sender.After(old(View()), events)
      ensures queue == old(queue)[1..] && pending == old(pending) - 1
      ensures sent + dropped + discarded == old(sent + dropped + discarded) + Sender.Frames(old(queue)[0])
    {
      hide Sender.IsRun, Sender.After;
      ghost var start := View();
      var msg := queue[0];
      queue := queue[1..];
      Deliver(Sender.Frames(msg), dialOk, sendOk);
      events := DeliverRuns(start, dialOk, sendOk);
    }

    method Deliver(frames: nat, dialOk: bool, sendOk: bool)
      modifies this
      ensures View() == Delivered(old(View()), frames, dialOk, sendOk)
    {
      var g := conn;
      if g.None? {
        if !dialOk {
          dropped := dropped + frames;
          pending := pending - 1;
          return;
        }
        Adopt();
        g := conn;
        if g.None? {
          discarded := discarded + frames;
          pending := pending - 1;
          return;
        }
      }
      Send(g.value, frames, sendOk);
      pending := pending - 1;
    }

    /** The part of deliver that runs with a connection in hand. */
    method Send(g: nat, frames: nat, sendOk: bool)
      modifies this`conn, this`inflight, this`lost, this`dropped, this`sent
      ensures dropped == old(dropped) + if sendOk then 0 else frames
      ensures sent == old(sent) + if sendOk then frames else 0
      ensures var registered := Sender.AddInflight(old(LinkView()), frames);
              LinkView() == if sendOk then registered
                            else Dropped(Sender.TakeInflight(registered, frames), g)
    {
      RegisterInflight(frames);
      if sendOk {
        sent := sent + frames;
      } else {
        RemoveInflight(frames);
        dropped := dropped + frames;
        DropConn(g);
      }
    }

    /** The last half of close, after the writer has returned. */
    method Close()
      modifies this`closed, this`conn
      ensures LinkView() == if old(closed) then old(LinkView()) else old(LinkView()).(closed := true, conn := None)
    {
      if closed { return; }
      closed := true;
      conn := None;
    }
  }

  // ----- What whole calls do, and the runs they are

  ghost function Installed(s: Sender.State): Sender.State {
    Sender.ResetState(s.(link := Sender.Install(s.link)))
  }

  /** dropConn without interference: only the connection of the generation given is dropped. */
  ghost function Dropped(l: Sender.Link, gen: nat): Sender.Link {
    if l.conn != Some(gen) then l else l.(conn := None, inflight := 0, lost := l.lost + l.inflight)
  }

  lemma NoSteps(start: Sender.State)
    ensures Sender.IsRun(start, []) && Sender.After(start, []) == start
  {
  }

  /** Extends a run that led from start to s by one step. */
  lemma Perform(start: Sender.State, events: seq<Sender.Event>, s: Sender.State, e: Sender.Event)
    returns (longer: seq<Sender.Event>, t: Sender.State)
    requires Sender.IsRun(start, events) && Sender.After(start, events) == s && Sender.Enabled(s, e)
    ensures Sender.IsRun(start, longer) && Sender.After(start, longer) == t && t == Sender.Next(s, e)
    ensures longer != []
  {
    longer, t := events + [e], Sender.Next(s, e);
    SenderProofs.RunExtends(start, events, e);
  }

  lemma QueuedRuns(start: Sender.State, msg: Sender.Msg) returns (events: seq<Sender.Event>)
    requires start.offers == [Sender.Quiet] && |start.queue| < start.capacity
    ensures Sender.IsRun(start, events)
    ensures Sender.After(start, events) == start.(queue := start.queue + [msg], pending := start.pending + 1,
                                                  offered := start.offered + Sender.Frames(msg))
  {
    hide Sender.IsRun, Sender.After;
    NoSteps(start);
    var s;
    events, s := Perform(start, [], start, Sender.ByPoller(0, Sender.OfferStart(msg)));
    events, s := Perform(start, events, s, Sender.ByPoller(0, Sender.OfferQueued));
    assert s.offers == [Sender.Quiet];
  }

  lemma RefusedRuns(start: Sender.State, msg: Sender.Msg) returns (events: seq<Sender.Event>)
    requires start.offers == [Sender.Quiet] && |start.queue| >= start.capacity
    ensures Sender.IsRun(start, events)
    ensures Sender.After(start, events) == start.(offered := start.offered + Sender.Frames(msg),
                                                  dropped := start.dropped + Sender.Frames(msg))
  {
    hide Sender.IsRun, Sender.After;
    NoSteps(start);
    var s;
    events, s := Perform(start, [], start, Sender.ByPoller(0, Sender.OfferStart(msg)));
    events, s := Perform(start, events, s, Sender.ByPoller(0, Sender.OfferRefused));
    events, s := Perform(start, events, s, Sender.ByPoller(0, Sender.OfferUnpend));
    events, s := Perform(start, events, s, Sender.ByPoller(0, Sender.OfferCountDrop));
    assert s.offers == [Sender.Quiet];
  }

  lemma AckRuns(start: Sender.State, reader: nat, a: Sender.Ack) returns (events: seq<Sender.Event>)
    requires reader < |start.readers| && start.readers[reader].Receiving?
    ensures events != [] && Sender.IsRun(start, events)
    ensures Sender.After(start, events) == start.(
              acked := start.acked + Sender.Positive(a.accepted),
              rejected := start.rejected + Sender.Positive(a.rejected),
              ignored := start.ignored + Sender.Positive(a.ignored),
              link := Sender.TakeInflight(start.link, Sender.AckTotal(a)))
  {
    hide Sender.IsRun, Sender.After;
    var counted, settled;
    events, counted := CountRuns(start, reader, a);
    events, settled := Perform(start, events, counted, Sender.ByReader(reader, Sender.Settle));
    assert settled.readers == start.readers;
  }

  lemma CountRuns(start: Sender.State, reader: nat, a: Sender.Ack) returns (events: seq<Sender.Event>, s: Sender.State)
    requires reader < |start.readers| && start.readers[reader].Receiving?
    ensures events != [] && Sender.IsRun(start, events) && Sender.After(start, events) == s
    ensures s == start.(
              readers := start.readers[reader := Sender.Settling(a)],
              acked := start.acked + Sender.Positive(a.accepted),
              rejected := start.rejected + Sender.Positive(a.rejected),
              ignored := start.ignored + Sender.Positive(a.ignored))
  {
    hide Sender.IsRun, Sender.After;
    events, s := ReceiveRuns(start, reader, a);
    events, s := Perform(start, events, s, Sender.ByReader(reader, Sender.CountRejected));
    events, s := Perform(start, events, s, Sender.ByReader(reader, Sender.CountIgnored));
    assert s.readers == start.readers[reader := Sender.Settling(a)];
  }

  lemma ReceiveRuns(start: Sender.State, reader: nat, a: Sender.Ack) returns (events: seq<Sender.Event>, s: Sender.State)
    requires reader < |start.readers| && start.readers[reader].Receiving?
    ensures Sender.IsRun(start, events) && Sender.After(start, events) == s
    ensures s == start.(readers := start.readers[reader := Sender.CountedAccepted(a)],
                        acked := start.acked + Sender.Positive(a.accepted))
  {
    hide Sender.IsRun, Sender.After;
    NoSteps(start);
    events, s := [], start;
    events, s := Perform(start, events, s, Sender.ByReader(reader, Sender.Receive(a)));
    events, s := Perform(start, events, s, Sender.ByReader(reader, Sender.CountAccepted));
    assert s.readers == start.readers[reader := Sender.CountedAccepted(a)];
  }

  lemma EndingRuns(start: Sender.State, reader: nat) returns (events: seq<Sender.Event>)
    requires reader < |start.readers| && start.readers[reader].Receiving?
    ensures Sender.IsRun(start, events)
    ensures Sender.After(start, events) == start.(readers := start.readers[reader := Sender.Ended],
                                                  link := Dropped(start.link, reader + 1))
  {
    hide Sender.IsRun, Sender.After;
    NoSteps(start);
    var s := start;
    events := [];
    events, s := Perform(start, events, s, Sender.ByReader(reader, Sender.ReadFail));
    if s.readers[reader].Ending? {
      events, s := Perform(start, events, s, Sender.ByReader(reader, Sender.EndingStep));
      events, s := Perform(start, events, s, Sender.ByReader(reader, Sender.EndingStep));
      events, s := Perform(start, events, s, Sender.ByReader(reader, Sender.EndingStep));
    }
    assert s.readers == start.readers[reader := Sender.Ended];
  }

  lemma MonitorRuns(start: Sender.State) returns (events: seq<Sender.Event>)
    requires start.writer == Sender.Idle && start.link.conn.Some?
    ensures Sender.IsRun(start, events)
    ensures Sender.After(start, events) == start.(link := Dropped(start.link, start.link.conn.value))
  {
    hide Sender.IsRun, Sender.After;
    NoSteps(start);
    var s := start;
    events := [];
    events, s := Perform(start, events, s, Sender.ByWriter(Sender.MonitorTick));
    events, s := Perform(start, events, s, Sender.ByWriter(Sender.MonitorDrop));
    events, s := DroppingRuns(start, events, s);
  }

  /** The rest of the writer's dropConn. */
  lemma DroppingRuns(start: Sender.State, sofar: seq<Sender.Event>, s: Sender.State)
    returns (events: seq<Sender.Event>, t: Sender.State)
    requires Sender.IsRun(start, sofar) && Sender.After(start, sofar) == s
    requires s.writer.Dropping? ==> s.writer.drop.Cleared?
    ensures Sender.IsRun(start, events) && Sender.After(start, events) == t
    ensures t == if !s.writer.Dropping? then s
                 else s.(writer := if s.writer.monitor then Sender.Idle else Sender.Finishing,
                         link := s.link.(inflight := 0, lost := s.link.lost + s.link.inflight))
  {
    hide Sender.IsRun, Sender.After;
    events, t := sofar, s;
    if s.writer.Dropping? {
      events, t := Perform(start, events, t, Sender.ByWriter(Sender.DroppingStep));
      events, t := Perform(start, events, t, Sender.ByWriter(Sender.DroppingStep));
      events, t := Perform(start, events, t, Sender.ByWriter(Sender.DroppingStep));
    }
  }

  /** The state deliver leaves behind when nobody interferes. */
  ghost function Delivered(s: Sender.State, frames: nat, dialOk: bool, sendOk: bool): Sender.State {
    var t := s.(pending := s.pending - 1);
    if s.link.conn.None? && !dialOk then t.(dropped := t.dropped + frames)
    else if s.link.conn.None? && s.link.closed then t.(discarded := t.discarded + frames)
    else
      var u := if s.link.conn.None? then Installed(t) else t;
      var registered := Sender.AddInflight(u.link, frames);
      if sendOk then u.(sent := u.sent + frames, link := registered)
      else u.(dropped := u.dropped + frames,
              link := Dropped(Sender.TakeInflight(registered, frames), u.link.conn.value))
  }

  lemma DeliverRuns(start: Sender.State, dialOk: bool, sendOk: bool) returns (events: seq<Sender.Event>)
    requires start.queue != [] && start.writer == Sender.Idle
    ensures Sender.IsRun(start, events) && Sender.After(start, events) ==
            Delivered(start.(queue := start.queue[1..]), Sender.Frames(start.queue[0]), dialOk, sendOk)
  {
    hide Sender.IsRun, Sender.After;
    NoSteps(start);
    var s;
    events, s := Perform(start, [], start, Sender.ByWriter(Sender.Take));
    events, s := Perform(start, events, s, Sender.ByWriter(Sender.SeeConn));
    if s.writer.Dialing? {
      if dialOk {
        events, s := AdoptRuns(start, events, s);
      } else {
        events, s := Perform(start, events, s, Sender.ByWriter(Sender.DialFail));
        events, s := Perform(start, events, s, Sender.ByWriter(Sender.CountDialDrop));
      }
    }
    if s.writer.Holding? {
      events, s := SendRuns(start, events, s, sendOk);
    }
    hide Installed, Dropped, Sender.TakeInflight, Sender.AddInflight;
    events, s := Perform(start, events, s, Sender.ByWriter(Sender.Finish));
  }

  lemma AdoptRuns(start: Sender.State, sofar: seq<Sender.Event>, s: Sender.State)
    returns (events: seq<Sender.Event>, t: Sender.State)
    requires Sender.IsRun(start, sofar) && Sender.After(start, sofar) == s && s.writer.Dialing? && s.link.conn.None?
    ensures Sender.IsRun(start, events) && Sender.After(start, events) == t
    ensures t == if s.link.closed
                 then s.(writer := Sender.Finishing, discarded := s.discarded + Sender.Frames(s.writer.msg))
                 else Installed(s).(writer := Sender.Holding(s.writer.msg, s.link.gen + 1))
  {
    hide Sender.IsRun, Sender.After;
    events, t := Perform(start, sofar, s, Sender.ByWriter(Sender.DialOk));
    if t.writer.Installed? {
      events, t := Perform(start, events, t, Sender.ByWriter(Sender.AdoptReset));
    }
    events, t := Perform(start, events, t, Sender.ByWriter(Sender.SeeAdopted));
  }

  lemma SendRuns(start: Sender.State, sofar: seq<Sender.Event>, s: Sender.State, sendOk: bool)
    returns (events: seq<Sender.Event>, t: Sender.State)
    requires Sender.IsRun(start, sofar) && Sender.After(start, sofar) == s
    requires s.writer.Holding? && s.link.conn == Some(s.writer.gen)
    ensures Sender.IsRun(start, events) && Sender.After(start, events) == t
    ensures var f := Sender.Frames(s.writer.msg);
            t == if sendOk
                 then s.(writer := Sender.Finishing, sent := s.sent + f, link := Sender.AddInflight(s.link, f))
                 else s.(writer := Sender.Finishing, dropped := s.dropped + f,
                         link := Dropped(Sender.TakeInflight(Sender.AddInflight(s.link, f), f), s.writer.gen))
  {
    hide Sender.IsRun, Sender.After;
    events, t := sofar, s;
    events, t := Perform(start, events, t, Sender.ByWriter(Sender.Register));
    if sendOk {
      events, t := Perform(start, events, t, Sender.ByWriter(Sender.SendOk));
      events, t := Perform(start, events, t, Sender.ByWriter(Sender.CountSent));
    } else {
      events, t := Perform(start, events, t, Sender.ByWriter(Sender.SendFail));
      events, t := Perform(start, events, t, Sender.ByWriter(Sender.Unregister));
      events, t := Perform(start, events, t, Sender.ByWriter(Sender.CountSendDrop));
      events, t := Perform(start, events, t, Sender.ByWriter(Sender.DropAfterSend));
      events, t := DroppingRuns(start, events, t);
    }
  }
}
