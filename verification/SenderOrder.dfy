/** The order of delivery and the counters of the bridge's sender, told from the events of a run alone. */
module SenderOrder {
  import opened Common
  import opened Sender
  import opened SenderProofs

  /** What the poller offered last. */
  function LastOffer(es: seq<Event>, p: nat): Msg {
    if es == [] then Control
    else
      match es[|es| - 1]
      case ByPoller(q, OfferStart(m)) => if q == p then m else LastOffer(es[..|es| - 1], p)
      case _ => LastOffer(es[..|es| - 1], p)
  }

  /** The ack the read loop received last. */
  function LastAck(es: seq<Event>, i: nat): Ack {
    if es == [] then Ack(0, 0, 0)
    else
      match es[|es| - 1]
      case ByReader(j, Receive(a)) => if i == j then a else LastAck(es[..|es| - 1], i)
      case _ => LastAck(es[..|es| - 1], i)
  }

  /** The messages that went into the queue, in that order. */
  function Queued(es: seq<Event>): seq<Msg> {
    if es == [] then []
    else
      var before := es[..|es| - 1];
      match es[|es| - 1]
      case ByPoller(p, OfferQueued) => Queued(before) + [LastOffer(before, p)]
      case _ => Queued(before)
  }

  /** How many of them the writer has taken. */
  function Taken(es: seq<Event>): nat {
    if es == [] then 0 else Taken(es[..|es| - 1]) + if es[|es| - 1] == ByWriter(Take) then 1 else 0
  }

  /** The message the writer took last. */
  function InHand(es: seq<Event>): Msg {
    if 0 < Taken(es) <= |Queued(es)| then Queued(es)[Taken(es) - 1] else Control
  }

  function Size(m: Msg): nat {
    match m case Batch(n) => n case Control => 0
  }

  /** What the last event counts: the frames of which message, under which counter. */
  datatype Counter = Offered | Sent | Dropped | Acked | Rejected | Ignored

  function Counts(c: Counter, before: seq<Event>, e: Event): nat {
    match e
    case ByPoller(_, OfferStart(m)) => if c.Offered? then Size(m) else 0
    case ByPoller(p, OfferCountDrop) => if c.Dropped? then Size(LastOffer(before, p)) else 0
    case ByWriter(CountSendDrop) => if c.Dropped? then Size(InHand(before)) else 0
    case ByWriter(CountDialDrop) => if c.Dropped? then Size(InHand(before)) else 0
    case ByWriter(CountSent) => if c.Sent? then Size(InHand(before)) else 0
    case ByReader(i, CountAccepted) => if c.Acked? then Max(0, LastAck(before, i).accepted) else 0
    case ByReader(i, CountRejected) => if c.Rejected? then Max(0, LastAck(before, i).rejected) else 0
    case ByReader(i, CountIgnored) => if c.Ignored? then Max(0, LastAck(before, i).ignored) else 0
    case _ => 0
  }

  function Total(c: Counter, es: seq<Event>): nat {
    if es == [] then 0 else Total(c, es[..|es| - 1]) + Counts(c, es[..|es| - 1], es[|es| - 1])
  }

  function Counted(s: State, c: Counter): nat {
    match c
    case Offered => s.offered case Sent => s.sent case Dropped => s.dropped
    case Acked => s.acked case Rejected => s.rejected case Ignored => s.ignored
  }

  predicate HasMsg(w: Writer) {
    w.Took? || w.Dialing? || w.DialFailed? || w.Installed? || w.Adopted? || w.Holding? || w.Registered? || w.Written?
    || w.SendFailed? || w.Unregistered?
  }

  predicate HasAcked(r: Reader) {
    r.HasAck? || r.CountedAccepted? || r.CountedRejected? || r.Settling?
  }

  ghost predicate OffersTold(s: State, es: seq<Event>) {
    forall p :: 0 <= p < |s.offers| && !s.offers[p].Quiet? ==> s.offers[p].msg == LastOffer(es, p)
  }

  ghost predicate AcksTold(s: State, es: seq<Event>) {
    forall i :: 0 <= i < |s.readers| && HasAcked(s.readers[i]) ==> s.readers[i].ack == LastAck(es, i)
  }

  /** The queue holds what went in and was not taken, in order, and the writer delivers what it took last. */
  ghost predicate QueueTold(s: State, es: seq<Event>) {
    && Taken(es) <= |Queued(es)| && s.queue == Queued(es)[Taken(es)..]
    && (HasMsg(s.writer) ==> Taken(es) > 0 && s.writer.msg == InHand(es))
  }

  ghost predicate CountersTold(s: State, es: seq<Event>) {
    forall c :: Counted(s, c) == Total(c, es)
  }

  ghost predicate Told(s: State, es: seq<Event>) {
    OffersTold(s, es) && AcksTold(s, es) && QueueTold(s, es) && CountersTold(s, es)
  }

  // ----- One more event

  lemma Snoc(es: seq<Event>, e: Event)
    ensures (es + [e])[..|es|] == es && (es + [e])[|es|] == e
  {
  }

  lemma OffersStep(s: State, es: seq<Event>, e: Event)
    requires Enabled(s, e) && OffersTold(s, es)
    ensures OffersTold(Next(s, e), es + [e])
  {
    Snoc(es, e);
  }

  lemma AcksStep(s: State, es: seq<Event>, e: Event)
    requires Enabled(s, e) && AcksTold(s, es)
    ensures AcksTold(Next(s, e), es + [e])
  {
    Snoc(es, e);
  }

  lemma QueueStep(s: State, es: seq<Event>, e: Event)
    requires Enabled(s, e) && OffersTold(s, es) && QueueTold(s, es)
    ensures QueueTold(Next(s, e), es + [e])
  {
    Snoc(es, e);
    if e.ByPoller? {
      hide LastOffer;
    } else if e == ByWriter(Take) {
      hide OffersTold, LastOffer;
    } else {
      SameQueue(s, e);
      hide Enabled, Next, OffersTold, LastOffer;
      assert Queued(es + [e]) == Queued(es) && Taken(es + [e]) == Taken(es);
      hide Queued, Taken;
    }
  }

  lemma SameQueue(s: State, e: Event)
    requires Enabled(s, e) && !e.ByPoller? && e != ByWriter(Take)
    ensures Next(s, e).queue == s.queue
    ensures HasMsg(Next(s, e).writer) ==> HasMsg(s.writer) && Next(s, e).writer.msg == s.writer.msg
  {
    hide ReaderEnabled, ReaderNext, WriterEnabled, WriterNext, HasMsg;
    match e {
      case ByReader(i, r) => SameInReader(s, i, r);
      case ByWriter(w) => SameInWriter(s, w);
    }
  }

  lemma SameInReader(s: State, i: nat, r: ReaderEvent)
    requires ReaderEnabled(s, i, r)
    ensures ReaderNext(s, i, r).queue == s.queue && ReaderNext(s, i, r).writer == s.writer
  {
    hide TakeInflight, DropLink, DropRest, Positive, AckTotal;
  }

  lemma SameInWriter(s: State, w: WriterEvent)
    requires WriterEnabled(s, w) && w != Take
    ensures WriterNext(s, w).queue == s.queue
    ensures HasMsg(WriterNext(s, w).writer) ==> HasMsg(s.writer) && WriterNext(s, w).writer.msg == s.writer.msg
  {
    hide TakeInflight, AddInflight, Install, DropLink, SocketOpen, Frames;
  }

  lemma TotalSnoc(c: Counter, es: seq<Event>, e: Event)
    ensures Total(c, es + [e]) == Total(c, es) + Counts(c, es, e)
  {
    Snoc(es, e);
  }

  /** One event moves each counter by what it counts. */
  lemma OfferCounts(s: State, es: seq<Event>, p: nat, o: OfferEvent, c: Counter)
    requires OfferEnabled(s, p, o) && OffersTold(s, es)
    ensures Counted(OfferNext(s, p, o), c) == Counted(s, c) + Counts(c, es, ByPoller(p, o))
  {
    hide LastOffer;
  }

  lemma ReaderCounts(s: State, es: seq<Event>, i: nat, r: ReaderEvent, c: Counter)
    requires ReaderEnabled(s, i, r) && AcksTold(s, es)
    ensures Counted(ReaderNext(s, i, r), c) == Counted(s, c) + Counts(c, es, ByReader(i, r))
  {
    hide LastAck, TakeInflight, DropLink, DropRest;
  }

  lemma WriterCounts(s: State, es: seq<Event>, w: WriterEvent, c: Counter)
    requires WriterEnabled(s, w) && QueueTold(s, es)
    ensures Counted(WriterNext(s, w), c) == Counted(s, c) + Counts(c, es, ByWriter(w))
  {
    hide InHand, Queued, Taken, TakeInflight, DropLink, DropRest, Install, AddInflight, SocketOpen;
  }

  lemma EventCounts(s: State, es: seq<Event>, e: Event, c: Counter)
    requires Enabled(s, e) && OffersTold(s, es) && AcksTold(s, es) && QueueTold(s, es)
    ensures Counted(Next(s, e), c) == Counted(s, c) + Counts(c, es, e)
  {
    hide OffersTold, AcksTold, QueueTold, Counts, Counted, OfferNext, ReaderNext, WriterNext, OfferEnabled, ReaderEnabled, WriterEnabled;
    match e {
      case ByPoller(p, o) => OfferCounts(s, es, p, o, c);
      case ByReader(i, r) => ReaderCounts(s, es, i, r, c);
      case ByWriter(w) => WriterCounts(s, es, w, c);
    }
  }

  lemma CountersStep(s: State, es: seq<Event>, e: Event)
    requires Enabled(s, e) && Told(s, es)
    ensures CountersTold(Next(s, e), es + [e])
  {
    hide OffersTold, AcksTold, QueueTold, Counts, Counted, Total, Enabled, Next;
    forall c ensures Counted(Next(s, e), c) == Total(c, es + [e]) {
      assert Counted(s, c) == Total(c, es);
      TotalSnoc(c, es, e);
      EventCounts(s, es, e, c);
    }
  }

  lemma NothingTold(capacity: nat, pollers: nat)
    ensures Told(Initial(capacity, pollers), [])
  {
  }

  lemma {:induction false} RestTold(s: State, before: seq<Event>, rest: seq<Event>)
    requires Told(s, before) && IsRun(s, rest)
    ensures Told(After(s, rest), before + rest)
    decreases |rest|
  {
    hide OffersTold, AcksTold, QueueTold, CountersTold, Enabled, Next;
    if rest == [] {
      assert before + rest == before;
    } else {
      OffersStep(s, before, rest[0]);
      AcksStep(s, before, rest[0]);
      QueueStep(s, before, rest[0]);
      CountersStep(s, before, rest[0]);
      RestTold(Next(s, rest[0]), before + [rest[0]], rest[1..]);
      assert (before + [rest[0]]) + rest[1..] == before + rest;
    }
  }

  /** In every interleaving the writer takes the queued messages in the order in which they were queued and delivers each before
      the next, and every counter holds what its events counted: the frames offered, the frames of each message that was sent or
      dropped when it was in hand, and what each received ack said. */
  lemma DeliveryIsInOrder(capacity: nat, pollers: nat, events: seq<Event>)
    requires IsRun(Initial(capacity, pollers), events)
    ensures var s := After(Initial(capacity, pollers), events);
            && Taken(events) <= |Queued(events)| && s.queue == Queued(events)[Taken(events)..]
            && (HasMsg(s.writer) ==> Taken(events) > 0 && s.writer.msg == Queued(events)[Taken(events) - 1])
            && (forall c :: Counted(s, c) == Total(c, events))
  {
    NothingTold(capacity, pollers);
    hide Told, IsRun, After, Total;
    RestTold(Initial(capacity, pollers), [], events);
    assert [] + events == events;
    ToldMeans(After(Initial(capacity, pollers), events), events);
  }

  lemma ToldMeans(s: State, es: seq<Event>)
    requires Told(s, es)
    ensures QueueTold(s, es) && CountersTold(s, es)
  {
  }

  // ----- When a write can succeed

  predicate PastClosing(r: Reader) {
    r.Ended? || (r.Ending? && !r.drop.Cleared?)
  }

  predicate OnConnection(w: Writer) {
    w.Holding? || w.Registered?
  }

  /** The writer holds the last connection, which stays in use until its read loop drops it. */
  predicate HoldsLast(s: State) {
    OnConnection(s.writer) ==>
      && 0 < s.writer.gen == |s.readers|
      && (s.link.conn == Some(s.writer.gen) <==> !EndedOrEnding(s.readers[s.writer.gen - 1]))
  }

  lemma ReaderHoldsLast(s: State, i: nat, e: ReaderEvent)
    requires Generations(s) && HoldsLast(s) && ReaderEnabled(s, i, e)
    ensures HoldsLast(ReaderNext(s, i, e))
  {
    hide Positive, AckTotal;
  }

  lemma WriterHoldsLast(s: State, e: WriterEvent)
    requires Generations(s) && DialsOffline(s) && AdoptedLinks(s) && HoldsLast(s) && WriterEnabled(s, e)
    ensures HoldsLast(WriterNext(s, e))
  {
    hide Frames;
  }

  lemma StepHoldsLast(s: State, e: Event)
    requires Inv(s) && HoldsLast(s) && Enabled(s, e)
    ensures HoldsLast(Next(s, e))
  {
    hide OffersBalance, PendingBalance, SentCovered, Generations, DialsOffline, AdoptedLinks, ReaderEnabled, ReaderNext, WriterEnabled, WriterNext;
    match e {
      case ByPoller(_, _) =>
      case ByReader(i, r) => hide HoldsLast; ReaderHoldsLast(s, i, r);
      case ByWriter(w) => hide HoldsLast; WriterHoldsLast(s, w);
    }
  }

  lemma {:induction false} RunHoldsLast(s: State, events: seq<Event>)
    requires Inv(s) && HoldsLast(s) && IsRun(s, events)
    ensures HoldsLast(After(s, events))
    decreases |events|
  {
    if events != [] {
      hide Inv, HoldsLast, Enabled, Next;
      StepKeepsInv(s, events[0]);
      StepHoldsLast(s, events[0]);
      RunHoldsLast(Next(s, events[0]), events[1..]);
    }
  }

  /** In every reachable state a write can succeed exactly until the read loop of its connection has closed the socket: not only
      while the connection is in use. It can always fail. */
  lemma WritesExactlyWhileOpen(capacity: nat, pollers: nat, events: seq<Event>)
    requires IsRun(Initial(capacity, pollers), events) && After(Initial(capacity, pollers), events).writer.Registered?
    ensures var s := After(Initial(capacity, pollers), events);
            && 0 < s.writer.gen <= |s.readers| && Enabled(s, ByWriter(SendFail))
            && (Enabled(s, ByWriter(SendOk)) <==> !PastClosing(s.readers[s.writer.gen - 1]))
  {
    InitialInv(capacity, pollers);
    hide Inv, IsRun, After;
    RunHoldsLast(Initial(capacity, pollers), events);
  }
}
