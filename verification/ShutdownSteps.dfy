/** The state of every interleaving, told by the steps it took. */
module ShutdownSteps {
  import opened Common
  import opened Shutdown
  import opened ShutdownProofs

  /** A run is as far as its steps say, and takes them in order. */
  ghost predicate RunTold(s: State, es: seq<Step>, r: nat) {
    if r >= |s.runs| then Return(r) !in es && Delete(r) !in es && Close(r) !in es && Finish(r) !in es
    else
      && (s.runs[r].progress.Running? <==> Return(r) !in es)
      && (s.runs[r].progress.Running? || s.runs[r].progress.Returned? <==> Delete(r) !in es)
      && (s.runs[r].progress.Closed? || s.runs[r].progress.Finished? <==> Close(r) in es)
      && (s.runs[r].progress.Finished? <==> Finish(r) in es)
  }

  /** A call is settled by one step, if at all: it gets its result or gives up. */
  ghost predicate CallTold(s: State, es: seq<Step>, c: nat) {
    if c >= |s.calls| then Receive(c) !in es && GiveUp(c) !in es
    else
      && (s.calls[c].outcome.GotResult? <==> Receive(c) in es)
      && (s.calls[c].outcome.GaveUp? <==> GiveUp(c) in es)
  }

  ghost predicate HandlerTold(s: State, es: seq<Step>, h: nat) {
    if h >= |s.handlers| then Enter(h) !in es && Leave(h) !in es
    else
      && (s.handlers[h].Arriving? <==> Enter(h) !in es)
      && (s.handlers[h].Served? <==> Leave(h) in es)
  }

  ghost predicate ShutdownTold(s: State, es: seq<Step>, workers: bool) {
    && (s.workerRunning <==> workers && WorkersStop !in es)
    && (s.stopping <==> Shutdown in es) && (s.gate.Unmade? <==> Shutdown !in es)
    && (s.gate.Waited? || s.gate.Shut? <==> WaitReturns in es) && (s.gate.Shut? <==> CloseGate in es)
    && (s.stopper.Idle? <==> Shutdown !in es)
    && (s.stopper == Done(false) <==> TimeOut in es) && (s.stopper == Done(true) <==> AllSeen in es)
    && (s.stopper.Selecting? ==> (s.stopper.handlers <==> SeeHandlers !in es) && (s.stopper.workers <==> SeeWorkers !in es))
    && (s.stopper.Idle? ==> SeeHandlers !in es && SeeWorkers !in es)
  }

  /** A handler waits in at most one call at a time, and is served as long as it does. */
  ghost predicate WaitsInside(s: State) {
    && (forall c :: 0 <= c < |s.calls| && s.calls[c].outcome.Waiting? ==>
          s.calls[c].handler < |s.handlers| && s.handlers[s.calls[c].handler].Serving?)
    && (forall c, d :: 0 <= c < d < |s.calls| && s.calls[c].outcome.Waiting? && s.calls[d].outcome.Waiting? ==>
          s.calls[c].handler != s.calls[d].handler)
  }

  ghost predicate Told(s: State, es: seq<Step>, workers: bool) {
    && (forall r: nat :: RunTold(s, es, r)) && (forall c: nat :: CallTold(s, es, c)) && (forall h: nat :: HandlerTold(s, es, h))
    && ShutdownTold(s, es, workers) && WaitsInside(s)
  }

  lemma InSnoc(es: seq<Step>, e: Step)
    ensures forall x :: x in es + [e] <==> x in es || x == e
  {
  }

  lemma RunsTold(s: State, es: seq<Step>, e: Step, r: nat)
    requires Enabled(s, e) && RunTold(s, es, r)
    ensures RunTold(Next(s, e), es + [e], r)
  {
    InSnoc(es, e);
  }

  lemma CallsTold(s: State, es: seq<Step>, e: Step, c: nat)
    requires Enabled(s, e) && CallTold(s, es, c)
    ensures CallTold(Next(s, e), es + [e], c)
  {
    InSnoc(es, e);
  }

  lemma HandlersTold(s: State, es: seq<Step>, e: Step, h: nat)
    requires Enabled(s, e) && HandlerTold(s, es, h)
    ensures HandlerTold(Next(s, e), es + [e], h)
  {
    InSnoc(es, e);
  }

  lemma StopperTold(s: State, es: seq<Step>, e: Step, workers: bool)
    requires Enabled(s, e) && ShutdownTold(s, es, workers)
    ensures ShutdownTold(Next(s, e), es + [e], workers)
  {
    InSnoc(es, e);
    var t := Next(s, e);
    if e.WorkersStop? || e.Shutdown? || e.WaitReturns? || e.CloseGate? {
      hide Begun, Busy, At;
    } else if e.SeeHandlers? || e.SeeWorkers? || e.TimeOut? || e.AllSeen? {
      hide Begun, Busy, At;
    } else {
      SameStopper(s, e);
      hide Enabled, Next;
    }
  }

  lemma SameStopper(s: State, e: Step)
    requires Enabled(s, e)
    requires !(e.WorkersStop? || e.Shutdown? || e.WaitReturns? || e.CloseGate? || e.SeeHandlers? || e.SeeWorkers? || e.TimeOut? || e.AllSeen?)
    ensures var t := Next(s, e);
            t.workerRunning == s.workerRunning && t.stopping == s.stopping && t.gate == s.gate && t.stopper == s.stopper
  {
  }

  lemma StaysInside(s: State, e: Step)
    requires Enabled(s, e) && WaitsInside(s)
    ensures WaitsInside(Next(s, e))
  {
    hide WaitsInside, Enabled, Next;
    if e.Arrive? || e.Enter? || e.Leave? { HandlerStaysInside(s, e); }
    else if e.Begin? { BeginStaysInside(s, e); }
    else { OthersStayInside(s, e); }
  }

  lemma HandlerStaysInside(s: State, e: Step)
    requires Enabled(s, e) && WaitsInside(s) && (e.Arrive? || e.Enter? || e.Leave?)
    ensures WaitsInside(Next(s, e))
  {
    if e.Leave? { NotBusy(s, e.h); }
  }

  lemma BeginStaysInside(s: State, e: Step)
    requires Enabled(s, e) && WaitsInside(s) && e.Begin?
    ensures WaitsInside(Next(s, e))
  {
    NotBusy(s, e.h);
    var t := Next(s, e);
    assert |t.calls| == |s.calls| + 1 && t.calls[|s.calls|].handler == e.h && t.handlers == s.handlers;
    assert forall c :: 0 <= c < |s.calls| ==> t.calls[c] == s.calls[c];
    hide Next, Enabled, Busy;
  }

  lemma NotBusy(s: State, h: nat)
    requires !Busy(s, h)
    ensures forall c :: 0 <= c < |s.calls| && s.calls[c].outcome.Waiting? ==> s.calls[c].handler != h
  {
  }

  lemma OthersStayInside(s: State, e: Step)
    requires Enabled(s, e) && WaitsInside(s) && !(e.Arrive? || e.Enter? || e.Leave? || e.Begin?)
    ensures WaitsInside(Next(s, e))
  {
    var t := Next(s, e);
    assert t.handlers == s.handlers && |t.calls| == |s.calls|;
    assert forall c :: 0 <= c < |s.calls| ==> t.calls[c].handler == s.calls[c].handler && (t.calls[c].outcome.Waiting? ==> s.calls[c].outcome.Waiting?);
    hide Next, Enabled, Busy;
  }

  lemma NothingTold(workers: bool)
    ensures Told(Initial(workers), [], workers)
  {
  }

  /** In every interleaving: how far each run is, how each call ended, which handlers entered and left, and how far the shutdown
      is, are told by the steps taken; and a handler waits in at most one call, and does not leave before it is settled. */
  lemma {:induction false} StateIsItsSteps(workers: bool, es: seq<Step>)
    requires IsRun(Initial(workers), es)
    ensures Told(After(Initial(workers), es), es, workers)
    decreases |es|
  {
    hide Enabled, Next, RunTold, CallTold, HandlerTold, ShutdownTold, WaitsInside;
    if es == [] {
      NothingTold(workers);
    } else {
      var n := |es| - 1;
      StateIsItsSteps(workers, es[..n]);
      var s, e := After(Initial(workers), es[..n]), es[n];
      assert es == es[..n] + [e];
      forall r: nat ensures RunTold(Next(s, e), es, r) { RunsTold(s, es[..n], e, r); }
      forall c: nat ensures CallTold(Next(s, e), es, c) { CallsTold(s, es[..n], e, c); }
      forall h: nat ensures HandlerTold(Next(s, e), es, h) { HandlersTold(s, es[..n], e, h); }
      StopperTold(s, es[..n], e, workers);
      StaysInside(s, e);
    }
  }

  /** A request is served exactly if it entered before the shutdown. */
  lemma AdmittedExactlyBefore(workers: bool, es: seq<Step>, h: nat)
    requires IsRun(Initial(workers), es + [Enter(h)])
    ensures var t := After(Initial(workers), es + [Enter(h)]);
            h < |t.handlers| && t.handlers[h] == if Shutdown in es then TurnedAway else Serving
  {
    assert (es + [Enter(h)])[..|es|] == es;
    StateIsItsSteps(workers, es);
    assert ShutdownTold(After(Initial(workers), es), es, workers);
  }

  /** The shutdown may return false in every state in which it still waits for one of the two, and in no other. */
  lemma TimeOutExactlyWhile(workers: bool, es: seq<Step>)
    requires IsRun(Initial(workers), es) && TimeOut !in es
    ensures IsRun(Initial(workers), es + [TimeOut]) <==> Shutdown in es && AllSeen !in es && !(SeeHandlers in es && SeeWorkers in es)
    ensures IsRun(Initial(workers), es + [TimeOut]) ==> After(Initial(workers), es + [TimeOut]).stopper == Done(false)
  {
    assert (es + [TimeOut])[..|es|] == es;
    StateIsItsSteps(workers, es);
    var s := After(Initial(workers), es);
    assert ShutdownTold(s, es, workers);
    assert s.stopper.Done? <==> AllSeen in es;
  }
}
