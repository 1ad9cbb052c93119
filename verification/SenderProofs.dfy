/** Whole-run properties of the delivery protocol. */
module SenderProofs {
  import opened Common
  import opened Sender

  // ----- Sums over sequences

  lemma {:induction false} QueueFramesSnoc(q: seq<Msg>, m: Msg)
    ensures QueueFrames(q + [m]) == QueueFrames(q) + Frames(m)
  {
    if q == [] {
      assert q + [m] == [m];
    } else {
      QueueFramesSnoc(q[1..], m);
      assert (q + [m])[1..] == q[1..] + [m];
    }
  }

  lemma {:induction false} OffersUpdate(os: seq<Offer>, i: nat, o: Offer)
    requires i < |os|
    ensures OffersFrames(os[i := o]) + OfferFrames(os[i]) == OffersFrames(os) + OfferFrames(o)
    ensures OffersPending(os[i := o]) + OfferPending(os[i]) == OffersPending(os) + OfferPending(o)
  {
    if i == 0 {
      assert os[0 := o][1..] == os[1..];
    } else {
      OffersUpdate(os[1..], i - 1, o);
      assert os[i := o][1..] == os[1..][i - 1 := o];
    }
  }

  lemma {:induction false} ReadersUpdate(rs: seq<Reader>, i: nat, r: Reader)
    requires i < |rs|
    ensures AllUnsettled(rs[i := r]) + Unsettled(rs[i]) == AllUnsettled(rs) + Unsettled(r)
    ensures ReadersGone(rs[i := r]) + ReaderGone(rs[i]) == ReadersGone(rs) + ReaderGone(r)
  {
    if i == 0 {
      assert rs[0 := r][1..] == rs[1..];
    } else {
      ReadersUpdate(rs[1..], i - 1, r);
      assert rs[i := r][1..] == rs[1..][i - 1 := r];
    }
  }

  lemma {:induction false} ReadersSnoc(rs: seq<Reader>)
    ensures AllUnsettled(rs + [Receiving]) == AllUnsettled(rs)
    ensures ReadersGone(rs + [Receiving]) == ReadersGone(rs)
  {
    if rs == [] {
      assert rs + [Receiving] == [Receiving];
    } else {
      ReadersSnoc(rs[1..]);
      assert (rs + [Receiving])[1..] == rs[1..] + [Receiving];
    }
  }

  lemma {:induction false} QuietOffers(pollers: nat)
    ensures var os := seq(pollers, i => Quiet); OffersFrames(os) == 0 && OffersPending(os) == 0
  {
    if pollers > 0 {
      QuietOffers(pollers - 1);
      assert seq(pollers, i => Quiet)[1..] == seq(pollers - 1, i => Quiet);
    }
  }

  // ----- Every step keeps the invariants

  lemma OfferKeepsInv(s: State, p: nat, e: OfferEvent)
    requires Inv(s) && OfferEnabled(s, p, e)
    ensures Inv(OfferNext(s, p, e))
  {
    OffersUpdate(s.offers, p, OfferNext(s, p, e).offers[p]);
    if e.OfferQueued? { QueueFramesSnoc(s.queue, s.offers[p].msg); }
  }

  lemma ReaderKeepsLinks(s: State, i: nat, e: ReaderEvent)
    requires Generations(s) && AdoptedLinks(s) && ReaderEnabled(s, i, e)
    ensures Generations(ReaderNext(s, i, e)) && AdoptedLinks(ReaderNext(s, i, e))
  {
  }

  lemma WriterKeepsOffers(s: State, e: WriterEvent)
    requires OffersBalance(s) && WriterEnabled(s, e)
    ensures OffersBalance(WriterNext(s, e))
  {
    hide OffersFrames, OffersPending;
  }

  lemma WriterKeepsPending(s: State, e: WriterEvent)
    requires PendingBalance(s) && WriterEnabled(s, e)
    ensures PendingBalance(WriterNext(s, e))
  {
    hide OffersFrames, OffersPending, QueueFrames;
  }

  lemma WriterKeepsGenerations(s: State, e: WriterEvent)
    requires Generations(s) && WriterEnabled(s, e)
    ensures Generations(WriterNext(s, e))
  {
  }

  lemma WriterKeepsAdopted(s: State, e: WriterEvent)
    requires DialsOffline(s) && Generations(s) && AdoptedLinks(s) && WriterEnabled(s, e)
    ensures DialsOffline(WriterNext(s, e)) && AdoptedLinks(WriterNext(s, e))
  {
  }

  /** What a step takes from the in-flight count beyond what it settles or takes back, or leaves there. */
  function Surplus(s: State, e: Event): int
    requires Enabled(s, e)
  {
    match e
    case ByReader(i, Settle) =>
      var a := s.readers[i].ack;
      Unsettled(s.readers[i]) - (s.link.inflight - TakeInflight(s.link, AckTotal(a)).inflight)
    case ByWriter(Unregister) =>
      Frames(s.writer.msg) - (s.link.inflight - TakeInflight(s.link, Frames(s.writer.msg)).inflight)
    case _ => 0
  }

  lemma ReaderMoves(s: State, i: nat, e: ReaderEvent)
    requires ReaderEnabled(s, i, e)
    ensures var t := ReaderNext(s, i, e);
            t.wiped == s.wiped && Covered(t) + Used(s) == Covered(s) + Used(t) + Surplus(s, ByReader(i, e))
  {
    hide AllUnsettled, ReadersGone;
    ReadersUpdate(s.readers, i, ReaderNext(s, i, e).readers[i]);
  }

  /** What the writer's dropConn takes out of the in-flight count stays on its way to the loss counter. */
  lemma WriterLoses(s: State, e: WriterEvent)
    requires WriterEnabled(s, e)
    ensures var t := WriterNext(s, e);
            && AllUnsettled(t.readers) == AllUnsettled(s.readers)
            && t.link.lost + Gone(t) == s.link.lost + Gone(s) + if e.DroppingStep? && s.writer.drop.SocketClosed? then s.link.inflight else 0
  {
    hide AllUnsettled, ReadersGone;
    if IsReset(ByWriter(e)) { ReadersSnoc(s.readers); } else { assert WriterNext(s, e).readers == s.readers; }
  }

  lemma WriterMoves(s: State, e: WriterEvent)
    requires WriterEnabled(s, e)
    ensures var t := WriterNext(s, e);
            && Covered(t) + t.wiped + Used(s) == Covered(s) + s.wiped + Used(t) + Surplus(s, ByWriter(e))
            && t.wiped == s.wiped + if IsReset(ByWriter(e)) then s.link.inflight else 0
  {
    hide AllUnsettled, Gone;
    WriterLoses(s, e);
  }

  /** The counters follow the frames up to what is clamped: Used and Covered move together. */
  lemma StepMoves(s: State, e: Event)
    requires Enabled(s, e)
    ensures Surplus(s, e) >= 0
    ensures var t := Next(s, e);
            && Covered(t) + t.wiped + Used(s) == Covered(s) + s.wiped + Used(t) + Surplus(s, e)
            && t.wiped == s.wiped + if IsReset(e) then s.link.inflight else 0
  {
    hide AllUnsettled, ReadersGone, RegisteredFrames;
    match e
    case ByPoller(p, o) =>
    case ByReader(i, r) => ReaderMoves(s, i, r);
    case ByWriter(w) => WriterMoves(s, w);
  }

  lemma StepKeepsInv(s: State, e: Event)
    requires Inv(s) && Enabled(s, e)
    ensures Inv(Next(s, e))
  {
    StepMoves(s, e);
    hide Used, Covered;
    match e
    case ByPoller(p, o) => OfferKeepsInv(s, p, o);
    case ByReader(i, r) => ReaderKeepsLinks(s, i, r);
    case ByWriter(w) =>
      WriterKeepsOffers(s, w);
      WriterKeepsPending(s, w);
      WriterKeepsGenerations(s, w);
      WriterKeepsAdopted(s, w);
  }

  lemma {:induction false} RunKeepsInv(s: State, events: seq<Event>)
    requires Inv(s) && IsRun(s, events)
    ensures Inv(After(s, events))
    decreases |events|
  {
    if events != [] {
      StepKeepsInv(s, events[0]);
      RunKeepsInv(Next(s, events[0]), events[1..]);
    }
  }

  lemma {:induction false} RunExtends(s: State, events: seq<Event>, e: Event)
    requires IsRun(s, events) && Enabled(After(s, events), e)
    ensures IsRun(s, events + [e]) && After(s, events + [e]) == Next(After(s, events), e)
    decreases |events|
  {
    var longer := events + [e];
    if events == [] {
      assert longer == [e] && [e][1..] == [];
    } else {
      RunExtends(Next(s, events[0]), events[1..], e);
      assert longer[1..] == events[1..] + [e];
    }
  }

  lemma InitialInv(capacity: nat, pollers: nat)
    ensures Inv(Initial(capacity, pollers))
  {
    QuietOffers(pollers);
  }

  /** In every run every offered frame is in exactly one place: dropped, sent, discarded, queued, being delivered,
      or still in the hands of a poller. */
  lemma NothingOfferedIsLost(capacity: nat, pollers: nat, events: seq<Event>)
    requires IsRun(Initial(capacity, pollers), events)
    ensures var s := After(Initial(capacity, pollers), events);
            s.offered == s.dropped + s.sent + s.discarded
                         + QueueFrames(s.queue) + DeliveringFrames(s.writer) + OffersFrames(s.offers)
  {
    InitialInv(capacity, pollers);
    RunKeepsInv(Initial(capacity, pollers), events);
  }

  lemma {:induction false} NoOfferPending(os: seq<Offer>, i: nat)
    requires OffersPending(os) == 0 && i < |os|
    ensures os[i].Quiet? || os[i].Unpended?
  {
    if i > 0 { NoOfferPending(os[1..], i - 1); }
  }

  /** outstanding() == 0, which drain and waitForAcks wait for, means that no message is queued, in delivery or
      about to be queued. */
  lemma OutstandingZeroIsDrained(capacity: nat, pollers: nat, events: seq<Event>)
    requires IsRun(Initial(capacity, pollers), events)
    requires After(Initial(capacity, pollers), events).pending == 0
    ensures var s := After(Initial(capacity, pollers), events);
            && s.queue == [] && !Delivering(s.writer)
            && forall i :: 0 <= i < |s.offers| ==> s.offers[i].Quiet? || s.offers[i].Unpended?
  {
    InitialInv(capacity, pollers);
    RunKeepsInv(Initial(capacity, pollers), events);
    var s := After(Initial(capacity, pollers), events);
    forall i | 0 <= i < |s.offers| ensures s.offers[i].Quiet? || s.offers[i].Unpended? {
      NoOfferPending(s.offers, i);
    }
  }

  // ----- When deliver discards a batch

  /** adopt installed nothing because the sender was closed, or the read loop of the new connection has ended. */
  predicate AdoptedInVain(s: State)
    requires s.writer.Adopted?
  {
    !s.writer.installed || (0 < s.link.gen <= |s.readers| && EndedOrEnding(s.readers[s.link.gen - 1]))
  }

  /** The frames of the batches that a run took past adopt in vain. */
  function AdoptedInVainFrames(s: State, events: seq<Event>): nat
    requires IsRun(s, events)
    decreases |events|
  {
    if events == [] then 0
    else (if events[0] == ByWriter(SeeAdopted) && AdoptedInVain(s) then Frames(s.writer.msg) else 0)
         + AdoptedInVainFrames(Next(s, events[0]), events[1..])
  }

  lemma {:induction false} DiscardedAreInVain(s: State, events: seq<Event>)
    requires Inv(s) && IsRun(s, events)
    ensures After(s, events).discarded == s.discarded + AdoptedInVainFrames(s, events)
    decreases |events|
  {
    if events != [] {
      StepKeepsInv(s, events[0]);
      DiscardedAreInVain(Next(s, events[0]), events[1..]);
    }
  }

  /** In every run the frames discarded silently are exactly those of the batches whose adopt came after close had
      begun, or was followed by the end of the new read loop before deliver looked at the connection. */
  lemma DiscardedExactlyWhen(capacity: nat, pollers: nat, events: seq<Event>)
    requires IsRun(Initial(capacity, pollers), events)
    ensures After(Initial(capacity, pollers), events).discarded ==
            AdoptedInVainFrames(Initial(capacity, pollers), events)
    ensures var s := After(Initial(capacity, pollers), events);
            s.writer.Adopted? && !s.writer.installed ==> s.link.closed
  {
    InitialInv(capacity, pollers);
    DiscardedAreInVain(Initial(capacity, pollers), events);
    RunKeepsInv(Initial(capacity, pollers), events);
  }

  // ----- Sent frames

  /** No connection is in use, and no dropConn has still to reset the in-flight count. */
  predicate Offline(s: State) {
    ((s.link.conn.None? && !s.link.closed) || Installing(s.writer)) && NobodyClears(s)
  }

  /** What is sent is covered without the in-flight count. */
  predicate CoveredOffline(s: State) {
    Offline(s) ==> s.sent + WrittenFrames(s.writer) + AllUnsettled(s.readers) <= Accounted(s) + Gone(s)
  }

  lemma ReaderKeepsCoveredOffline(s: State, i: nat, e: ReaderEvent)
    requires CoveredOffline(s) && Used(s) <= Covered(s) && Generations(s) && ReaderEnabled(s, i, e)
    ensures CoveredOffline(ReaderNext(s, i, e))
  {
    hide AllUnsettled, ReadersGone;
    var t := ReaderNext(s, i, e);
    ReadersUpdate(s.readers, i, t.readers[i]);
    if ReaderClears(t.readers[i]) {
      assert !NoneClears(t.readers);
    } else if Offline(t) && !ReaderClears(s.readers[i]) {
      ClearsUpdate(s.readers, i, t.readers[i]);
    }
  }

  lemma ClearsUpdate(rs: seq<Reader>, i: nat, r: Reader)
    requires i < |rs| && !ReaderClears(rs[i]) && NoneClears(rs[i := r])
    ensures NoneClears(rs)
  {
    forall k | 0 <= k < |rs| ensures !ReaderClears(rs[k]) {
      assert k != i ==> rs[i := r][k] == rs[k];
    }
  }

  /** For the writer's steps other than the resets the read loops stay as they are. */
  lemma WriterKeepsCoveredOffline(s: State, e: WriterEvent)
    requires CoveredOffline(s) && Used(s) <= Covered(s) && Generations(s) && DialsOffline(s) && WriterEnabled(s, e)
    requires !IsReset(ByWriter(e))
    ensures CoveredOffline(WriterNext(s, e))
  {
    hide AllUnsettled, ReadersGone, NoneClears;
    if e.SendOk? && s.link.conn != Some(s.writer.gen) { CleanReaders(s.readers, s.writer.gen - 1); }
  }

  lemma CleanReaders(rs: seq<Reader>, i: nat)
    requires i < |rs| && ReaderClears(rs[i])
    ensures !NoneClears(rs)
  {
  }

  lemma ResetKeepsCoveredOffline(s: State, e: WriterEvent)
    requires CoveredOffline(s) && WriterEnabled(s, e) && IsReset(ByWriter(e)) && NoneClears(s.readers)
    ensures CoveredOffline(WriterNext(s, e)) && Used(s) <= Covered(s) - s.link.inflight
  {
    hide AllUnsettled, ReadersGone;
    ReadersSnoc(s.readers);
  }

  lemma StepKeepsCovered(s: State, e: Event)
    requires Inv(s) && CoveredOffline(s) && Used(s) <= Covered(s) && Enabled(s, e)
    requires IsReset(e) ==> NoneClears(s.readers)
    ensures CoveredOffline(Next(s, e)) && Used(Next(s, e)) <= Covered(Next(s, e))
  {
    hide AllUnsettled, ReadersGone, RegisteredFrames;
    StepMoves(s, e);
    match e
    case ByPoller(p, o) =>
    case ByReader(i, r) => ReaderKeepsCoveredOffline(s, i, r);
    case ByWriter(w) =>
      if IsReset(e) { ResetKeepsCoveredOffline(s, w); } else { WriterKeepsCoveredOffline(s, w); }
  }

  lemma {:induction false} RunKeepsCovered(s: State, events: seq<Event>)
    requires Inv(s) && CoveredOffline(s) && Used(s) <= Covered(s) && IsRun(s, events) && Apart(s, events)
    ensures CoveredOffline(After(s, events)) && Used(After(s, events)) <= Covered(After(s, events))
    decreases |events|
  {
    if events != [] {
      StepKeepsCovered(s, events[0]);
      StepKeepsInv(s, events[0]);
      RunKeepsCovered(Next(s, events[0]), events[1..]);
    }
  }

  /** In every run in which no adopt resets the in-flight count inside another goroutine's dropConn, whatever the
      server acknowledges, every frame counted as sent is covered by an ack counter, by the loss counter, by the
      in-flight count or by a dropConn about to count it; an ack half processed is not counted twice. While no
      connection is in use the in-flight count is not needed. */
  lemma NothingSentIsUnaccounted(capacity: nat, pollers: nat, events: seq<Event>)
    requires IsRun(Initial(capacity, pollers), events) && Apart(Initial(capacity, pollers), events)
    ensures var s := After(Initial(capacity, pollers), events);
            && s.sent + AllUnsettled(s.readers) <= Accounted(s) + s.link.inflight + Gone(s)
            && (s.link.conn.None? && !s.link.closed && NobodyClears(s) ==> s.sent <= Accounted(s) + Gone(s))
  {
    InitialInv(capacity, pollers);
    RunKeepsCovered(Initial(capacity, pollers), events);
  }

  /** In every run whatsoever, what the counters miss is at most what adopt has thrown away. */
  lemma OnlyAdoptLosesSight(capacity: nat, pollers: nat, events: seq<Event>)
    requires IsRun(Initial(capacity, pollers), events)
    ensures var s := After(Initial(capacity, pollers), events);
            s.sent + AllUnsettled(s.readers) <= Accounted(s) + s.link.inflight + Gone(s) + s.wiped
  {
    InitialInv(capacity, pollers);
    RunKeepsInv(Initial(capacity, pollers), events);
  }

  // ----- The exact balance when no count is clamped

  /** The step takes no more from the in-flight count than there is, and an ack has no negative parts. */
  predicate Exact(s: State, e: Event)
    requires Enabled(s, e)
  {
    match e
    case ByReader(i, Settle) =>
      var a := s.readers[i].ack;
      a.accepted >= 0 && a.rejected >= 0 && a.ignored >= 0 && AckTotal(a) <= s.link.inflight
    case ByWriter(Unregister) => Frames(s.writer.msg) <= s.link.inflight
    case _ => true
  }

  predicate ExactRun(s: State, events: seq<Event>)
    requires IsRun(s, events)
    decreases |events|
  {
    events == [] || (Exact(s, events[0]) && ExactRun(Next(s, events[0]), events[1..]))
  }

  lemma {:induction false} ExactRunBalances(s: State, events: seq<Event>)
    requires Used(s) == Covered(s) + s.wiped && IsRun(s, events) && ExactRun(s, events)
    ensures var t := After(s, events); Used(t) == Covered(t) + t.wiped
    decreases |events|
  {
    hide Used, Covered;
    if events != [] {
      StepMoves(s, events[0]);
      ExactRunBalances(Next(s, events[0]), events[1..]);
    }
  }

  /** In a run that clamps no count the frames missing from the counters are exactly those adopt has thrown away:
      the sent frames are accounted for if and only if adopt never reset a nonzero count. */
  lemma MissingFramesAreWiped(capacity: nat, pollers: nat, events: seq<Event>)
    requires IsRun(Initial(capacity, pollers), events) && ExactRun(Initial(capacity, pollers), events)
    ensures var s := After(Initial(capacity, pollers), events);
            var used := s.sent + RegisteredFrames(s.writer) + AllUnsettled(s.readers);
            var covered := Accounted(s) + s.link.inflight + Gone(s);
            used == covered + s.wiped && (used <= covered <==> s.wiped == 0)
  {
    ExactRunBalances(Initial(capacity, pollers), events);
  }

  // ----- What adopt throws away

  /** The condition on the server: no ack has a negative total. */
  predicate HonestAcks(events: seq<Event>) {
    forall i :: 0 <= i < |events| && events[i].ByReader? && events[i].read.Receive? ==> AckTotal(events[i].read.ack) >= 0
  }

  lemma HonestTail(events: seq<Event>)
    requires events != [] && HonestAcks(events)
    ensures HonestAcks([events[0]]) && HonestAcks(events[1..])
  {
    assert forall i :: 0 <= i < |events[1..]| ==> events[1..][i] == events[i + 1];
  }

  predicate HonestReader(r: Reader) {
    r.HasAck? || r.CountedAccepted? || r.CountedRejected? || r.Settling? ==> AckTotal(r.ack) >= 0
  }

  predicate HonestReaders(s: State) {
    forall i :: 0 <= i < |s.readers| ==> HonestReader(s.readers[i])
  }

  lemma StepKeepsHonest(s: State, e: Event)
    requires HonestReaders(s) && Enabled(s, e) && HonestAcks([e])
    ensures HonestReaders(Next(s, e))
  {
    assert e == [e][0];
  }

  /** The frames of a write that is going on or has failed. */
  function WriteFrames(w: Writer): nat {
    if w.Registered? || w.SendFailed? then Frames(w.msg) else 0
  }

  /** Without a connection the in-flight count holds at most the frames of a write that is bound to fail. */
  predicate OfflineInflight(s: State) {
    Offline(s) ==> s.link.inflight <= WriteFrames(s.writer)
  }

  lemma ReaderKeepsOfflineInflight(s: State, i: nat, e: ReaderEvent)
    requires OfflineInflight(s) && HonestReaders(s) && Generations(s) && ReaderEnabled(s, i, e)
    ensures OfflineInflight(ReaderNext(s, i, e))
  {
    var t := ReaderNext(s, i, e);
    if (e.ReadFail? && s.link.conn == Some(i + 1)) || s.readers[i] == Ending(Cleared) {
      assert ReaderClears(t.readers[i]);
    } else if Offline(t) && !ReaderClears(s.readers[i]) {
      ClearsUpdate(s.readers, i, t.readers[i]);
    }
  }

  lemma WriterKeepsOfflineInflight(s: State, e: WriterEvent)
    requires OfflineInflight(s) && Generations(s) && DialsOffline(s) && WriterEnabled(s, e)
    ensures OfflineInflight(WriterNext(s, e))
  {
  }

  lemma StepKeepsOfflineInflight(s: State, e: Event)
    requires Inv(s) && OfflineInflight(s) && HonestReaders(s) && Enabled(s, e)
    ensures OfflineInflight(Next(s, e))
  {
    match e
    case ByPoller(p, o) =>
    case ByReader(i, r) => ReaderKeepsOfflineInflight(s, i, r);
    case ByWriter(w) => WriterKeepsOfflineInflight(s, w);
  }

  lemma {:induction false} RunKeepsOfflineInflight(s: State, events: seq<Event>)
    requires Inv(s) && OfflineInflight(s) && HonestReaders(s) && IsRun(s, events) && HonestAcks(events)
    ensures OfflineInflight(After(s, events))
    decreases |events|
  {
    if events != [] {
      HonestTail(events);
      StepKeepsOfflineInflight(s, events[0]);
      StepKeepsHonest(s, events[0]);
      StepKeepsInv(s, events[0]);
      RunKeepsOfflineInflight(Next(s, events[0]), events[1..]);
    }
  }

  /** With a server that never acknowledges a negative total, adopt resets a nonzero in-flight count only while a
      read loop stands between clearing its connection and resetting that count itself. */
  lemma AdoptDiscardsNothing(capacity: nat, pollers: nat, events: seq<Event>)
    requires IsRun(Initial(capacity, pollers), events) && HonestAcks(events)
    ensures var s := After(Initial(capacity, pollers), events);
            Installing(s.writer) && s.link.inflight > 0 ==>
              exists i :: 0 <= i < |s.readers| && ReaderClears(s.readers[i])
  {
    InitialInv(capacity, pollers);
    RunKeepsOfflineInflight(Initial(capacity, pollers), events);
  }

  lemma {:induction false} ApartRunsWipeNothing(s: State, events: seq<Event>)
    requires Inv(s) && OfflineInflight(s) && HonestReaders(s)
    requires IsRun(s, events) && HonestAcks(events) && Apart(s, events)
    ensures After(s, events).wiped == s.wiped
    decreases |events|
  {
    if events != [] {
      HonestTail(events);
      StepKeepsOfflineInflight(s, events[0]);
      StepKeepsHonest(s, events[0]);
      StepKeepsInv(s, events[0]);
      ApartRunsWipeNothing(Next(s, events[0]), events[1..]);
    }
  }

  /** So with such a server, and no adopt inside another goroutine's dropConn, adopt throws nothing away at all. */
  lemma ApartAdoptsWipeNothing(capacity: nat, pollers: nat, events: seq<Event>)
    requires IsRun(Initial(capacity, pollers), events)
    requires HonestAcks(events) && Apart(Initial(capacity, pollers), events)
    ensures After(Initial(capacity, pollers), events).wiped == 0
  {
    InitialInv(capacity, pollers);
    ApartRunsWipeNothing(Initial(capacity, pollers), events);
  }

  // ----- Lost and dropped

  /** Some read loop resets the in-flight count while the writer is between registering frames and having them
      written or taken back. */
  predicate ResetsDuringWrite(s: State, e: Event)
    requires Enabled(s, e)
  {
    && e.ByReader? && e.read.EndingStep? && s.readers[e.reader] == Ending(SocketClosed)
    && (s.writer.Registered? || s.writer.SendFailed?)
  }

  predicate ResetsBetweenWrites(s: State, events: seq<Event>)
    requires IsRun(s, events)
    decreases |events|
  {
    events == [] || (!ResetsDuringWrite(s, events[0]) && ResetsBetweenWrites(Next(s, events[0]), events[1..]))
  }

  predicate OnlySentIsLost(s: State) {
    && s.link.inflight + s.link.lost + Gone(s) <= s.sent + RegisteredFrames(s.writer)
    && s.link.lost + Gone(s) <= s.sent + WrittenFrames(s.writer)
  }

  lemma ReaderKeepsOnlySentIsLost(s: State, i: nat, e: ReaderEvent)
    requires OnlySentIsLost(s) && ReaderEnabled(s, i, e) && HonestReader(s.readers[i])
    requires !ResetsDuringWrite(s, ByReader(i, e))
    ensures OnlySentIsLost(ReaderNext(s, i, e))
  {
    hide AllUnsettled, ReadersGone;
    ReadersUpdate(s.readers, i, ReaderNext(s, i, e).readers[i]);
  }

  lemma WriterKeepsOnlySentIsLost(s: State, e: WriterEvent)
    requires OnlySentIsLost(s) && WriterEnabled(s, e)
    ensures OnlySentIsLost(WriterNext(s, e))
  {
    hide AllUnsettled, ReadersGone;
    if IsReset(ByWriter(e)) { ReadersSnoc(s.readers); } else { assert WriterNext(s, e).readers == s.readers; }
  }

  lemma {:induction false} RunKeepsOnlySentIsLost(s: State, events: seq<Event>)
    requires OnlySentIsLost(s) && HonestReaders(s) && IsRun(s, events)
    requires HonestAcks(events) && ResetsBetweenWrites(s, events)
    ensures OnlySentIsLost(After(s, events))
    decreases |events|
  {
    if events != [] {
      HonestTail(events);
      match events[0] {
        case ByPoller(_, _) =>
        case ByReader(i, r) => ReaderKeepsOnlySentIsLost(s, i, r);
        case ByWriter(w) => WriterKeepsOnlySentIsLost(s, w);
      }
      StepKeepsHonest(s, events[0]);
      RunKeepsOnlySentIsLost(Next(s, events[0]), events[1..]);
    }
  }

  /** When no read loop drops its connection during a write, only written frames are counted as lost, so the loss
      counters are disjoint: together they never exceed what was offered. */
  lemma LossesAreDisjoint(capacity: nat, pollers: nat, events: seq<Event>)
    requires IsRun(Initial(capacity, pollers), events)
    requires HonestAcks(events) && ResetsBetweenWrites(Initial(capacity, pollers), events)
    ensures var s := After(Initial(capacity, pollers), events);
            && s.link.lost + Gone(s) <= s.sent + WrittenFrames(s.writer)
            && s.dropped + s.discarded + s.link.lost + Gone(s) <= s.offered
  {
    InitialInv(capacity, pollers);
    RunKeepsInv(Initial(capacity, pollers), events);
    RunKeepsOnlySentIsLost(Initial(capacity, pollers), events);
  }

  predicate Writing(w: Writer, msg: Msg, gen: nat) {
    w == Registered(msg, gen) || w == SendFailed(msg, gen) || w == Unregistered(msg, gen)
  }

  /** The socket of this generation has been closed by its read loop. */
  predicate SocketGone(s: State, gen: nat) {
    0 < gen <= |s.readers| && EndedOrEnding(s.readers[gen - 1]) && s.readers[gen - 1] != Ending(Cleared)
  }

  predicate CountedTwice(s: State, msg: Msg, gen: nat, dropped: nat, lost: nat) {
    && s.link.lost + Gone(s) >= lost
    && ((Writing(s.writer, msg, gen) && SocketGone(s, gen) && s.dropped >= dropped)
        || s.dropped >= dropped + Frames(msg))
  }

  lemma ReaderKeepsCountedTwice(s: State, i: nat, e: ReaderEvent, msg: Msg, gen: nat, dropped: nat, lost: nat)
    requires CountedTwice(s, msg, gen, dropped, lost) && ReaderEnabled(s, i, e)
    ensures CountedTwice(ReaderNext(s, i, e), msg, gen, dropped, lost)
  {
    hide AllUnsettled, ReadersGone;
    ReadersUpdate(s.readers, i, ReaderNext(s, i, e).readers[i]);
  }

  lemma WriterKeepsCountedTwice(s: State, e: WriterEvent, msg: Msg, gen: nat, dropped: nat, lost: nat)
    requires Generations(s) && CountedTwice(s, msg, gen, dropped, lost) && WriterEnabled(s, e)
    ensures CountedTwice(WriterNext(s, e), msg, gen, dropped, lost)
  {
    hide AllUnsettled, Gone;
    WriterLoses(s, e);
  }

  lemma {:induction false} RunKeepsCountedTwice(s: State, events: seq<Event>, msg: Msg, gen: nat, dropped: nat, lost: nat)
    requires Inv(s) && CountedTwice(s, msg, gen, dropped, lost) && IsRun(s, events)
    ensures CountedTwice(After(s, events), msg, gen, dropped, lost) && Inv(After(s, events))
    decreases |events|
  {
    if events != [] {
      match events[0] {
        case ByPoller(_, _) =>
        case ByReader(i, r) => ReaderKeepsCountedTwice(s, i, r, msg, gen, dropped, lost);
        case ByWriter(w) => WriterKeepsCountedTwice(s, w, msg, gen, dropped, lost);
      }
      StepKeepsInv(s, events[0]);
      RunKeepsCountedTwice(Next(s, events[0]), events[1..], msg, gen, dropped, lost);
    }
  }

  lemma DropBeginsCountedTwice(s: State)
    requires Inv(s) && (s.writer.Registered? || s.writer.SendFailed?) && s.link.inflight >= Frames(s.writer.msg)
    requires 0 < s.writer.gen <= |s.readers| && s.readers[s.writer.gen - 1] == Ending(SocketClosed)
    ensures var e := ByReader(s.writer.gen - 1, EndingStep);
            && Enabled(s, e) && Inv(Next(s, e))
            && CountedTwice(Next(s, e), s.writer.msg, s.writer.gen, s.dropped,
                            s.link.lost + Gone(s) + Frames(s.writer.msg))
  {
    hide AllUnsettled, ReadersGone;
    var e := ByReader(s.writer.gen - 1, EndingStep);
    ReadersUpdate(s.readers, e.reader, Next(s, e).readers[e.reader]);
    StepKeepsInv(s, e);
  }

  lemma CountedTwiceMeans(s: State, msg: Msg, gen: nat, dropped: nat, lost: nat)
    requires Inv(s) && CountedTwice(s, msg, gen, dropped, lost)
    ensures s.link.lost + Gone(s) >= lost
    ensures s.dropped >= dropped + Frames(msg) || (Writing(s.writer, msg, gen) && !Enabled(s, ByWriter(SendOk)))
  {
  }

  /** The converse: when the read loop of the connection in use resets the in-flight count during a write, nothing
      of it settled, then however the run goes on the frames are counted as lost, the write can only fail, and once
      it has been given up they are counted as dropped too. */
  lemma DropDuringWriteCountsTwice(capacity: nat, pollers: nat, before: seq<Event>, later: seq<Event>)
    requires IsRun(Initial(capacity, pollers), before)
    requires var s := After(Initial(capacity, pollers), before);
             && (s.writer.Registered? || s.writer.SendFailed?) && s.link.inflight >= Frames(s.writer.msg)
             && 0 < s.writer.gen <= |s.readers| && s.readers[s.writer.gen - 1] == Ending(SocketClosed)
             && IsRun(Next(s, ByReader(s.writer.gen - 1, EndingStep)), later)
    ensures var s := After(Initial(capacity, pollers), before);
            var f := Frames(s.writer.msg);
            var t := After(Next(s, ByReader(s.writer.gen - 1, EndingStep)), later);
            && t.link.lost + Gone(t) >= s.link.lost + Gone(s) + f
            && (t.dropped >= s.dropped + f
                || (Writing(t.writer, s.writer.msg, s.writer.gen) && !Enabled(t, ByWriter(SendOk))))
  {
    InitialInv(capacity, pollers);
    RunKeepsInv(Initial(capacity, pollers), before);
    hide *;
    var s := After(Initial(capacity, pollers), before);
    DropBeginsCountedTwice(s);
    var t := Next(s, ByReader(s.writer.gen - 1, EndingStep));
    var lost := s.link.lost + Gone(s) + Frames(s.writer.msg);
    RunKeepsCountedTwice(t, later, s.writer.msg, s.writer.gen, s.dropped, lost);
    CountedTwiceMeans(After(t, later), s.writer.msg, s.writer.gen, s.dropped, lost);
  }
}
