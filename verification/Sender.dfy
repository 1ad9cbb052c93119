/** cmd/bridge/sender.go: delivery of frame batches over one WebSocket link.

    Pollers, the writer goroutine and one read loop per connection generation are interleaved step by step. A step
    is one mutex region, one channel operation, one operation on a socket or one atomic counter update. So adopt
    takes two steps (install the connection; reset the in-flight count and start the read loop) and dropConn four
    (clear the connection; close its socket; reset the in-flight count; count the frames as lost). */
module Sender {
  import opened Common

  // ----- The link: what s.mu and s.inflightMu protect

  datatype Link = Link(conn: Option<nat>, gen: nat, closed: bool, inflight: nat, lost: nat)

  /** The first lock of adopt. */
  function Install(l: Link): Link {
    l.(conn := Some(l.gen + 1), gen := l.gen + 1)
  }

  /** What a goroutine that cleared the connection in dropConn has still to do. */
  datatype Drop =
    | Cleared               // the socket is still open
    | SocketClosed          // the in-flight count is not reset yet
    | Counting(gone: nat)   // the frames are taken out of the count but not counted as lost yet

  function DropLink(l: Link, d: Drop): Link {
    match d
    case Cleared => l
    case SocketClosed => l.(inflight := 0)
    case Counting(gone) => l.(lost := l.lost + gone)
  }

  function DropRest(l: Link, d: Drop): Option<Drop> {
    match d
    case Cleared => Some(SocketClosed)
    case SocketClosed => Some(Counting(l.inflight))
    case Counting(_) => None
  }

  predicate BeforeReset(d: Drop) {
    !d.Counting?
  }

  function DropGone(d: Drop): nat {
    if d.Counting? then d.gone else 0
  }

  function AddInflight(l: Link, n: nat): Link {
    l.(inflight := l.inflight + n)
  }

  /** removeInflight and settleInflight: the count never goes below zero. */
  function TakeInflight(l: Link, n: int): Link {
    l.(inflight := if l.inflight - n <= 0 then 0 else l.inflight - n)
  }

  // ----- Messages and the phases of the goroutines

  datatype Msg = Batch(frames: nat) | Control

  function Frames(m: Msg): nat {
    if m.Batch? then m.frames else 0
  }

  /** The counts of an ack come from the server: nothing bounds them. */
  datatype Ack = Ack(accepted: int, rejected: int, ignored: int)

  function Positive(n: int): nat {
    if n > 0 then n else 0
  }

  function AckTotal(a: Ack): int {
    a.accepted + a.rejected + a.ignored
  }

  /** A poller inside enqueueBatch or enqueueControl. */
  datatype Offer =
    | Quiet
    | Offering(msg: Msg)   // pending incremented, channel send not resolved
    | Refused(msg: Msg)    // queue full or the wait elapsed
    | Unpended(msg: Msg)   // pending taken back, the loss not counted yet

  datatype Writer =
    | NotStarted
    | EagerInstalled                     // connect before start, between the two locks of adopt
    | Idle
    | Took(msg: Msg)
    | Dialing(msg: Msg)
    | DialFailed(msg: Msg)
    | Installed(msg: Msg)                // between the two locks of adopt
    | Adopted(msg: Msg, installed: bool) // adopt has returned; it installs nothing once the sender is closed
    | Holding(msg: Msg, gen: nat)
    | Registered(msg: Msg, gen: nat)
    | Written(msg: Msg)
    | SendFailed(msg: Msg, gen: nat)
    | Unregistered(msg: Msg, gen: nat)
    | MustDrop(gen: nat)
    | Dropping(drop: Drop, monitor: bool)
    | Finishing
    | Monitoring(gen: nat)
    | Stopped

  /** The read loop of one generation: waiting, inside handleControl after a received ack, or in dropConn. */
  datatype Reader =
    | Receiving
    | HasAck(ack: Ack)
    | CountedAccepted(ack: Ack)
    | CountedRejected(ack: Ack)
    | Settling(ack: Ack)
    | Ending(drop: Drop)
    | Ended

  /** wiped is no variable of the program: it sums the in-flight counts that adopt has thrown away. */
  datatype State = State(
    capacity: nat,
    queue: seq<Msg>,
    offers: seq<Offer>,
    writer: Writer,
    readers: seq<Reader>,
    link: Link,
    pending: int,
    offered: nat,
    dropped: nat,
    sent: nat,
    discarded: nat,
    acked: nat,
    rejected: nat,
    ignored: nat,
    wiped: nat)

  function Initial(capacity: nat, pollers: nat): State {
    State(capacity, [], seq(pollers, i => Quiet), NotStarted, [], Link(None, 0, false, 0, 0), 0, 0, 0, 0, 0, 0, 0, 0, 0)
  }

  // ----- Steps

  datatype OfferEvent = OfferStart(msg: Msg) | OfferQueued | OfferRefused | OfferUnpend | OfferCountDrop

  datatype ReaderEvent = Receive(ack: Ack) | CountAccepted | CountRejected | CountIgnored | Settle | ReadFail
                         | EndingStep

  datatype WriterEvent =
    | EagerConnect
    | EagerReset
    | StartWriter
    | Take
    | SeeConn
    | DialFail
    | DialOk
    | AdoptReset
    | SeeAdopted
    | Register
    | SendOk
    | SendFail
    | Unregister
    | CountSendDrop
    | DropAfterSend
    | DroppingStep
    | CountDialDrop
    | CountSent
    | Finish
    | MonitorTick
    | MonitorDrop
    | MonitorDone
    | StopWriter
    | CloseBegin
    | CloseFinish

  datatype Event =
    | ByPoller(poller: nat, offer: OfferEvent)
    | ByReader(reader: nat, read: ReaderEvent)
    | ByWriter(write: WriterEvent)

  predicate OfferEnabled(s: State, p: nat, e: OfferEvent) {
    && p < |s.offers|
    && var o := s.offers[p];
       match e
       case OfferStart(_) => o.Quiet?
       case OfferQueued => o.Offering? && |s.queue| < s.capacity
       // the default branch of a batch needs a full queue; a control message may also time out
       case OfferRefused => o.Offering? && (o.msg.Control? || |s.queue| >= s.capacity)
       case OfferUnpend => o.Refused?
       case OfferCountDrop => o.Unpended?
  }

  function OfferNext(s: State, p: nat, e: OfferEvent): State
    requires OfferEnabled(s, p, e)
  {
    var o := s.offers[p];
    match e
    case OfferStart(m) =>
      s.(offers := s.offers[p := Offering(m)], pending := s.pending + 1, offered := s.offered + Frames(m))
    case OfferQueued => s.(offers := s.offers[p := Quiet], queue := s.queue + [o.msg])
    case OfferRefused => s.(offers := s.offers[p := Refused(o.msg)])
    case OfferUnpend => s.(offers := s.offers[p := Unpended(o.msg)], pending := s.pending - 1)
    case OfferCountDrop => s.(offers := s.offers[p := Quiet], dropped := s.dropped + Frames(o.msg))
  }

  predicate ReaderEnabled(s: State, i: nat, e: ReaderEvent) {
    && i < |s.readers|
    && var r := s.readers[i];
       match e
       case Receive(_) => r.Receiving?
       case CountAccepted => r.HasAck?
       case CountRejected => r.CountedAccepted?
       case CountIgnored => r.CountedRejected?
       case Settle => r.Settling?
       case ReadFail => r.Receiving?
       case EndingStep => r.Ending?
  }

  /** The reader of generation g is readers[g - 1]. */
  function ReaderNext(s: State, i: nat, e: ReaderEvent): State
    requires ReaderEnabled(s, i, e)
  {
    var r := s.readers[i];
    match e
    case Receive(a) => s.(readers := s.readers[i := HasAck(a)])
    case CountAccepted =>
      s.(readers := s.readers[i := CountedAccepted(r.ack)], acked := s.acked + Positive(r.ack.accepted))
    case CountRejected =>
      s.(readers := s.readers[i := CountedRejected(r.ack)], rejected := s.rejected + Positive(r.ack.rejected))
    case CountIgnored =>
      s.(readers := s.readers[i := Settling(r.ack)], ignored := s.ignored + Positive(r.ack.ignored))
    case Settle => s.(readers := s.readers[i := Receiving], link := TakeInflight(s.link, AckTotal(r.ack)))
    case ReadFail =>
      if s.link.conn == Some(i + 1)
      then s.(readers := s.readers[i := Ending(Cleared)], link := s.link.(conn := None))
      else s.(readers := s.readers[i := Ended])
    case EndingStep =>
      var rest := DropRest(s.link, r.drop);
      s.(readers := s.readers[i := if rest.Some? then Ending(rest.value) else Ended], link := DropLink(s.link, r.drop))
  }

  /** A socket stays open until dropConn closes it, which it does after it cleared the connection. */
  predicate SocketOpen(s: State, gen: nat) {
    s.link.conn == Some(gen) || (0 < gen <= |s.readers| && s.readers[gen - 1] == Ending(Cleared))
  }

  predicate WriterEnabled(s: State, e: WriterEvent) {
    match e
    case EagerConnect => s.writer.NotStarted? && s.link.conn.None?
    case EagerReset => s.writer.EagerInstalled?
    case StartWriter => s.writer.NotStarted?
    case Take => s.writer.Idle? && s.queue != []
    case SeeConn => s.writer.Took?
    case DialFail => s.writer.Dialing?
    case DialOk => s.writer.Dialing?
    case AdoptReset => s.writer.Installed?
    case SeeAdopted => s.writer.Adopted?
    case Register => s.writer.Holding?
    // a closed connection refuses writes
    case SendOk => s.writer.Registered? && SocketOpen(s, s.writer.gen)
    case SendFail => s.writer.Registered?
    case Unregister => s.writer.SendFailed?
    case CountSendDrop => s.writer.Unregistered?
    case DropAfterSend => s.writer.MustDrop?
    case DroppingStep => s.writer.Dropping?
    case CountDialDrop => s.writer.DialFailed?
    case CountSent => s.writer.Written?
    case Finish => s.writer.Finishing?
    case MonitorTick => s.writer.Idle? && s.link.conn.Some?
    case MonitorDrop => s.writer.Monitoring?
    case MonitorDone => s.writer.Monitoring?
    case StopWriter => s.writer.Idle?
    case CloseBegin => true
    case CloseFinish => s.link.closed && (s.writer.Stopped? || s.writer.NotStarted?)
  }

  /** The second lock of adopt, and the start of the read loop. */
  function ResetState(s: State): State {
    s.(link := s.link.(inflight := 0), wiped := s.wiped + s.link.inflight, readers := s.readers + [Receiving])
  }

  /** The first step of dropConn in the writer. */
  function BeginDrop(s: State, gen: nat, monitor: bool): State {
    if s.link.conn == Some(gen) then s.(writer := Dropping(Cleared, monitor), link := s.link.(conn := None))
    else s.(writer := if monitor then Idle else Finishing)
  }

  function WriterNext(s: State, e: WriterEvent): State
    requires WriterEnabled(s, e)
  {
    var w := s.writer;
    match e
    case EagerConnect => if s.link.closed then s else s.(writer := EagerInstalled, link := Install(s.link))
    case EagerReset => ResetState(s).(writer := NotStarted)
    case StartWriter => s.(writer := Idle)
    case Take => s.(writer := Took(s.queue[0]), queue := s.queue[1..])
    case SeeConn => s.(writer := if s.link.conn.Some? then Holding(w.msg, s.link.conn.value) else Dialing(w.msg))
    case DialFail => s.(writer := DialFailed(w.msg))
    case DialOk =>
      if s.link.closed then s.(writer := Adopted(w.msg, false))
      else s.(writer := Installed(w.msg), link := Install(s.link))
    case AdoptReset => ResetState(s).(writer := Adopted(w.msg, true))
    case SeeAdopted =>
      if s.link.conn.Some? then s.(writer := Holding(w.msg, s.link.conn.value))
      else s.(writer := Finishing, discarded := s.discarded + Frames(w.msg))
    case Register => s.(writer := Registered(w.msg, w.gen), link := AddInflight(s.link, Frames(w.msg)))
    case SendOk => s.(writer := Written(w.msg))
    case SendFail => s.(writer := SendFailed(w.msg, w.gen))
    case Unregister => s.(writer := Unregistered(w.msg, w.gen), link := TakeInflight(s.link, Frames(w.msg)))
    case CountSendDrop => s.(writer := MustDrop(w.gen), dropped := s.dropped + Frames(w.msg))
    case DropAfterSend => BeginDrop(s, w.gen, false)
    case DroppingStep =>
      var rest := DropRest(s.link, w.drop);
      var next := if rest.Some? then Dropping(rest.value, w.monitor) else if w.monitor then Idle else Finishing;
      s.(writer := next, link := DropLink(s.link, w.drop))
    case CountDialDrop => s.(writer := Finishing, dropped := s.dropped + Frames(w.msg))
    case CountSent => s.(writer := Finishing, sent := s.sent + Frames(w.msg))
    case Finish => s.(writer := Idle, pending := s.pending - 1)
    case MonitorTick => s.(writer := Monitoring(s.link.conn.value))
    case MonitorDrop => BeginDrop(s, w.gen, true)
    case MonitorDone => s.(writer := Idle)
    case StopWriter => s.(writer := Stopped)
    case CloseBegin => s.(link := s.link.(closed := true))
    case CloseFinish => s.(link := s.link.(conn := None))
  }

  predicate Enabled(s: State, e: Event) {
    match e
    case ByPoller(p, o) => OfferEnabled(s, p, o)
    case ByReader(i, r) => ReaderEnabled(s, i, r)
    case ByWriter(w) => WriterEnabled(s, w)
  }

  function Next(s: State, e: Event): State
    requires Enabled(s, e)
  {
    match e
    case ByPoller(p, o) => OfferNext(s, p, o)
    case ByReader(i, r) => ReaderNext(s, i, r)
    case ByWriter(w) => WriterNext(s, w)
  }

  /** A run: every event is enabled when it happens. */
  predicate IsRun(s: State, events: seq<Event>)
    decreases |events|
  {
    events == [] || (Enabled(s, events[0]) && IsRun(Next(s, events[0]), events[1..]))
  }

  function After(s: State, events: seq<Event>): State
    requires IsRun(s, events)
    decreases |events|
  {
    if events == [] then s else After(Next(s, events[0]), events[1..])
  }

  // ----- Accounting of frames

  function QueueFrames(q: seq<Msg>): nat {
    if q == [] then 0 else Frames(q[0]) + QueueFrames(q[1..])
  }

  function OfferFrames(o: Offer): nat {
    if o.Quiet? then 0 else Frames(o.msg)
  }

  function OffersFrames(os: seq<Offer>): nat {
    if os == [] then 0 else OfferFrames(os[0]) + OffersFrames(os[1..])
  }

  function OfferPending(o: Offer): nat {
    if o.Offering? || o.Refused? then 1 else 0
  }

  function OffersPending(os: seq<Offer>): nat {
    if os == [] then 0 else OfferPending(os[0]) + OffersPending(os[1..])
  }

  /** Frames of the message being delivered that no counter has yet. */
  function DeliveringFrames(w: Writer): nat {
    if w.Took? || w.Dialing? || w.DialFailed? || w.Installed? || w.Adopted? || w.Holding? || w.Registered?
       || w.Written? || w.SendFailed? || w.Unregistered?
    then Frames(w.msg) else 0
  }

  predicate Delivering(w: Writer) {
    !(w.NotStarted? || w.EagerInstalled? || w.Idle? || w.Monitoring? || w.Stopped? || (w.Dropping? && w.monitor))
  }

  /** Frames the writer has put into the in-flight count and not taken back or counted as sent. */
  function RegisteredFrames(w: Writer): nat {
    if w.Registered? || w.Written? || w.SendFailed? then Frames(w.msg) else 0
  }

  function WrittenFrames(w: Writer): nat {
    if w.Written? then Frames(w.msg) else 0
  }

  /** Frames a reader has added to the counters of an ack that it has not settled yet. */
  function Unsettled(r: Reader): nat {
    match r
    case CountedAccepted(a) => Positive(a.accepted)
    case CountedRejected(a) => Positive(a.accepted) + Positive(a.rejected)
    case Settling(a) => Positive(a.accepted) + Positive(a.rejected) + Positive(a.ignored)
    case _ => 0
  }

  function AllUnsettled(rs: seq<Reader>): nat {
    if rs == [] then 0 else Unsettled(rs[0]) + AllUnsettled(rs[1..])
  }

  /** Frames a goroutine has taken out of the in-flight count and not yet counted as lost. */
  function ReaderGone(r: Reader): nat {
    if r.Ending? then DropGone(r.drop) else 0
  }

  function ReadersGone(rs: seq<Reader>): nat {
    if rs == [] then 0 else ReaderGone(rs[0]) + ReadersGone(rs[1..])
  }

  function Gone(s: State): nat {
    ReadersGone(s.readers) + if s.writer.Dropping? then DropGone(s.writer.drop) else 0
  }

  function Accounted(s: State): nat {
    s.acked + s.rejected + s.ignored + s.link.lost
  }

  /** Frames sent or registered for sending, with what an ack has moved ahead of its settlement. */
  function Used(s: State): nat {
    s.sent + RegisteredFrames(s.writer) + AllUnsettled(s.readers)
  }

  /** Frames that a counter has, or that are on their way to one. */
  function Covered(s: State): nat {
    Accounted(s) + s.link.inflight + Gone(s)
  }

  // ----- The invariants

  /** Every offered frame is in exactly one place. */
  predicate OffersBalance(s: State) {
    s.offered == s.dropped + s.sent + s.discarded
                 + QueueFrames(s.queue) + DeliveringFrames(s.writer) + OffersFrames(s.offers)
  }

  predicate PendingBalance(s: State) {
    && s.pending == |s.queue| + (if Delivering(s.writer) then 1 else 0) + OffersPending(s.offers)
    && |s.queue| <= s.capacity
  }

  /** Only the writer adopts connections, so none appears while it dials. */
  predicate DialsOffline(s: State) {
    s.writer.Dialing? ==> s.link.conn.None?
  }

  predicate Installing(w: Writer) {
    w.Installed? || w.EagerInstalled?
  }

  predicate EndedOrEnding(r: Reader) {
    r.Ending? || r.Ended?
  }

  /** One read loop for each generation, started when its adopt is over; the connection in use is the last one, and
      its read loop has not begun to drop it. */
  predicate Generations(s: State) {
    && |s.readers| == s.link.gen - (if Installing(s.writer) then 1 else 0)
    && (Installing(s.writer) ==> s.link.conn == Some(s.link.gen))
    && (s.link.conn.Some? ==> s.link.conn.value == s.link.gen > 0)
    && (s.link.conn.Some? && !Installing(s.writer) ==> !EndedOrEnding(s.readers[s.link.gen - 1]))
  }

  /** deliver finds no connection after adopt only if adopt installed none or its read loop dropped it. */
  predicate AdoptedLinks(s: State) {
    s.writer.Adopted? ==>
      if s.writer.installed then 0 < s.link.gen == |s.readers| && (s.link.conn.None? ==> EndedOrEnding(s.readers[s.link.gen - 1]))
      else s.link.closed && s.link.conn.None?
  }

  /** Nothing sent goes unaccounted, except through adopt. */
  predicate SentCovered(s: State) {
    Used(s) <= Covered(s) + s.wiped
  }

  predicate Inv(s: State) {
    OffersBalance(s) && PendingBalance(s) && DialsOffline(s) && Generations(s) && AdoptedLinks(s) && SentCovered(s)
  }

  // ----- Runs whose resets do not overlap

  /** A read loop is between clearing its connection and resetting the in-flight count. */
  predicate ReaderClears(r: Reader) {
    r.Ending? && BeforeReset(r.drop)
  }

  predicate NoneClears(rs: seq<Reader>) {
    forall i :: 0 <= i < |rs| ==> !ReaderClears(rs[i])
  }

  predicate NobodyClears(s: State) {
    NoneClears(s.readers) && !(s.writer.Dropping? && BeforeReset(s.writer.drop))
  }

  predicate IsReset(e: Event) {
    e == ByWriter(AdoptReset) || e == ByWriter(EagerReset)
  }

  /** No adopt resets the in-flight count between the clearing and the resetting of a dropConn. */
  predicate Apart(s: State, events: seq<Event>)
    requires IsRun(s, events)
    decreases |events|
  {
    events == [] || ((IsReset(events[0]) ==> NoneClears(s.readers)) && Apart(Next(s, events[0]), events[1..]))
  }
}
