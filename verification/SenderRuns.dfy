/** Runs of the delivery protocol that show where its counters fail, each for every number of frames. */
module SenderRuns {
  import opened Common
  import opened Sender
  import SenderProofs

  /** Every ack received in the run is one the server may send. */
  predicate AcksAllowed(acks: Ack -> bool, events: seq<Event>) {
    forall i :: 0 <= i < |events| ==> AckAllowed(acks, events[i])
  }

  predicate AckAllowed(acks: Ack -> bool, e: Event) {
    e.ByReader? && e.read.Receive? ==> acks(e.read.ack)
  }

  ghost predicate Reachable(acks: Ack -> bool, s: State) {
    exists capacity: nat, pollers: nat, events: seq<Event> :: IsPath(acks, capacity, pollers, events, s)
  }

  predicate IsPath(acks: Ack -> bool, capacity: nat, pollers: nat, events: seq<Event>, s: State) {
    var start := Initial(capacity, pollers);
    IsRun(start, events) && After(start, events) == s && AcksAllowed(acks, events)
  }

  lemma Start(acks: Ack -> bool) returns (s: State)
    ensures Reachable(acks, s) && s == Initial(1, 1).(offers := [Quiet])
  {
    s := Initial(1, 1);
    assert s.offers == [Quiet];
    assert IsPath(acks, 1, 1, [], s);
  }

  lemma Do(acks: Ack -> bool, s: State, e: Event) returns (t: State)
    requires Reachable(acks, s) && Enabled(s, e) && AckAllowed(acks, e)
    ensures t == Next(s, e) && Reachable(acks, t)
  {
    var capacity: nat, pollers: nat, events: seq<Event> :| IsPath(acks, capacity, pollers, events, s);
    SenderProofs.RunExtends(Initial(capacity, pollers), events, e);
    t := Next(s, e);
    assert IsPath(acks, capacity, pollers, events + [e], t);
  }

  /** One eager connection, and the writer running. */
  lemma Connect(acks: Ack -> bool) returns (s: State)
    ensures Reachable(acks, s)
    ensures s == Initial(1, 1).(offers := [Quiet], writer := Idle, readers := [Receiving],
                                link := Link(Some(1), 1, false, 0, 0))
  {
    hide Reachable;
    s := Start(acks);
    s := Do(acks, s, ByWriter(EagerConnect));
    s := Do(acks, s, ByWriter(EagerReset));
    s := Do(acks, s, ByWriter(StartWriter));
  }

  /** A poller offers a message and the writer takes it. */
  lemma TakeNext(acks: Ack -> bool, s: State, msg: Msg) returns (t: State)
    requires Reachable(acks, s) && s.offers == [Quiet] && s.queue == [] && s.capacity == 1 && s.writer == Idle
    ensures Reachable(acks, t)
    ensures t == s.(writer := Took(msg), pending := s.pending + 1, offered := s.offered + Frames(msg))
  {
    hide Reachable;
    t := Do(acks, s, ByPoller(0, OfferStart(msg)));
    t := Do(acks, t, ByPoller(0, OfferQueued));
    t := Do(acks, t, ByWriter(Take));
    assert t.offers == [Quiet] && t.queue == [];
  }

  /** With no connection, deliver takes a message up to the first lock of adopt. */
  lemma DialNext(acks: Ack -> bool, s: State, msg: Msg) returns (t: State)
    requires Reachable(acks, s) && s.offers == [Quiet] && s.queue == [] && s.capacity == 1 && s.writer == Idle
    requires s.link.conn.None? && !s.link.closed
    ensures Reachable(acks, t)
    ensures t == s.(writer := Installed(msg), pending := s.pending + 1, offered := s.offered + Frames(msg),
                    link := Install(s.link))
  {
    hide Reachable;
    t := TakeNext(acks, s, msg);
    t := Do(acks, t, ByWriter(SeeConn));
    t := Do(acks, t, ByWriter(DialOk));
  }

  /** A batch of n frames is sent over the eager connection. */
  lemma SendOne(acks: Ack -> bool, n: nat) returns (s: State)
    ensures Reachable(acks, s)
    ensures s == Initial(1, 1).(offers := [Quiet], writer := Idle, readers := [Receiving],
                                link := Link(Some(1), 1, false, n, 0), offered := n, sent := n)
  {
    hide Reachable;
    s := Connect(acks);
    s := TakeNext(acks, s, Batch(n));
    s := Do(acks, s, ByWriter(SeeConn));
    s := Do(acks, s, ByWriter(Register));
    s := Do(acks, s, ByWriter(SendOk));
    s := Do(acks, s, ByWriter(CountSent));
    s := Do(acks, s, ByWriter(Finish));
  }

  /** Whatever the server may acknowledge: the read loop clears its connection and stalls, the writer dials again
      and its adopt throws the in-flight count away, so the stalled dropConn finds nothing to count as lost. All n
      frames are then in no counter, although nobody is in the middle of counting. */
  lemma SentFramesVanish(acks: Ack -> bool, n: nat) returns (s: State)
    ensures Reachable(acks, s) && s.readers == [Ended, Receiving] && !s.writer.Dropping?
    ensures s.sent == n && s.wiped == n
    ensures s.acked == s.rejected == s.ignored == s.link.lost == s.link.inflight == 0
  {
    hide Reachable;
    s := SendOne(acks, n);
    s := Do(acks, s, ByReader(0, ReadFail));
    s := DialNext(acks, s, Control);
    s := Do(acks, s, ByWriter(AdoptReset));
    s := Do(acks, s, ByReader(0, EndingStep));
    s := Do(acks, s, ByReader(0, EndingStep));
    s := Do(acks, s, ByReader(0, EndingStep));
    assert s.readers == [Ended, Receiving];
  }

  /** Whatever the server may acknowledge: a batch of n frames that an open sender discards without counting it. */
  lemma DiscardedWhileOpen(acks: Ack -> bool, n: nat) returns (s: State)
    ensures Reachable(acks, s) && !s.link.closed && s.writer == Idle
    ensures s.offered == n && s.discarded == n && s.dropped == s.sent == s.link.lost == 0
  {
    hide Reachable;
    s := Start(acks);
    s := Do(acks, s, ByWriter(StartWriter));
    s := DialNext(acks, s, Batch(n));
    s := Do(acks, s, ByWriter(AdoptReset));
    s := Do(acks, s, ByReader(0, ReadFail));
    s := Do(acks, s, ByWriter(SeeAdopted));
    s := Do(acks, s, ByWriter(Finish));
  }

  /** Whatever the server may acknowledge: n offered frames that are counted n times as lost and n times as
      dropped. */
  lemma FramesCountedTwice(acks: Ack -> bool, n: nat) returns (s: State)
    ensures Reachable(acks, s) && s.offered == n && s.dropped == n && s.link.lost == n
  {
    hide Reachable;
    s := Connect(acks);
    s := TakeNext(acks, s, Batch(n));
    s := Do(acks, s, ByWriter(SeeConn));
    s := Do(acks, s, ByWriter(Register));
    s := Do(acks, s, ByReader(0, ReadFail));
    s := Do(acks, s, ByReader(0, EndingStep));
    s := Do(acks, s, ByReader(0, EndingStep));
    s := Do(acks, s, ByReader(0, EndingStep));
    s := Do(acks, s, ByWriter(SendFail));
    s := Do(acks, s, ByWriter(Unregister));
    s := Do(acks, s, ByWriter(CountSendDrop));
  }

  // ----- Which servers make adopt lose sight of frames

  /** The eager connection, dropped by the monitor while its read loop handles the ack a. */
  lemma DroppedDuringAck(acks: Ack -> bool, a: Ack) returns (s: State)
    requires acks(a)
    ensures Reachable(acks, s)
    ensures s == Initial(1, 1).(offers := [Quiet], writer := Idle, readers := [HasAck(a)],
                                link := Link(None, 1, false, 0, 0))
  {
    hide Reachable;
    s := Connect(acks);
    s := Do(acks, s, ByReader(0, Receive(a)));
    s := Do(acks, s, ByWriter(MonitorTick));
    s := Do(acks, s, ByWriter(MonitorDrop));
    s := Do(acks, s, ByWriter(DroppingStep));
    s := Do(acks, s, ByWriter(DroppingStep));
    s := Do(acks, s, ByWriter(DroppingStep));
  }

  /** An ack of negative total settled after its connection was dropped leaves an in-flight count of that size for
      the next adopt to reset. */
  lemma NegativeAckIsDiscarded(acks: Ack -> bool, a: Ack) returns (s: State)
    requires acks(a) && AckTotal(a) < 0
    ensures Reachable(acks, s) && Installing(s.writer) && NoneClears(s.readers) && s.link.inflight == -AckTotal(a)
  {
    hide Reachable;
    s := DroppedDuringAck(acks, a);
    s := Do(acks, s, ByReader(0, CountAccepted));
    s := Do(acks, s, ByReader(0, CountRejected));
    s := Do(acks, s, ByReader(0, CountIgnored));
    s := Do(acks, s, ByReader(0, Settle));
    s := DialNext(acks, s, Control);
  }

  lemma HonestIsNeverWiped(acks: Ack -> bool, s: State)
    requires Reachable(acks, s) && forall a :: acks(a) ==> AckTotal(a) >= 0
    requires Installing(s.writer) && NoneClears(s.readers)
    ensures s.link.inflight == 0
  {
    var capacity: nat, pollers: nat, events: seq<Event> :| IsPath(acks, capacity, pollers, events, s);
    assert SenderProofs.HonestAcks(events) by {
      forall i | 0 <= i < |events| && events[i].ByReader? && events[i].read.Receive?
        ensures AckTotal(events[i].read.ack) >= 0
      {
        assert AckAllowed(acks, events[i]);
      }
    }
    SenderProofs.AdoptDiscardsNothing(capacity, pollers, events);
  }

  /** adopt keeps everything in sight. */
  predicate NothingToWipe(s: State) {
    Installing(s.writer) && NoneClears(s.readers) ==> s.link.inflight == 0
  }

  /** For any set of acks the server may send: outside another dropConn no adopt ever resets a nonzero in-flight
      count if and only if none of those acks has a negative total. */
  lemma WipesNothingExactlyWhen(acks: Ack -> bool)
    ensures (forall s :: Reachable(acks, s) ==> NothingToWipe(s)) <==> (forall a :: acks(a) ==> AckTotal(a) >= 0)
  {
    if forall a :: acks(a) ==> AckTotal(a) >= 0 {
      forall s | Reachable(acks, s) ensures NothingToWipe(s) {
        if Installing(s.writer) && NoneClears(s.readers) { HonestIsNeverWiped(acks, s); }
      }
    } else {
      var a :| acks(a) && AckTotal(a) < 0;
      var s := NegativeAckIsDiscarded(acks, a);
      assert Reachable(acks, s) && !NothingToWipe(s);
    }
  }
}
