/** That a shutdown can complete from every state, and that it returns false only by its time limit. */
module ShutdownCompletes {
  import opened Common
  import opened Shutdown
  import opened ShutdownProofs

  /** No step that cuts work off: no time limit, and no call that gives up waiting; and no new request. */
  ghost predicate Orderly(es: seq<Step>) {
    forall i :: 0 <= i < |es| ==> !es[i].TimeOut? && !es[i].GiveUp? && !es[i].Arrive?
  }

  /** The shutdown has not returned false. */
  predicate Pending(s: State) {
    s.stopper != Done(false)
  }

  lemma Extend(s: State, es: seq<Step>, e: Step)
    requires IsRun(s, es) && Enabled(After(s, es), e)
    ensures IsRun(s, es + [e]) && After(s, es + [e]) == Next(After(s, es), e)
  {
    assert (es + [e])[..|es|] == es;
  }

  /** A step that a run goes on with. */
  lemma OrderlyCons(es: seq<Step>, e: Step, more: seq<Step>)
    requires Orderly(more) && !e.TimeOut? && !e.GiveUp? && !e.Arrive?
    ensures Orderly([e] + more) && es + ([e] + more) == (es + [e]) + more
  {
  }

  lemma OrderlyJoin(es: seq<Step>, a: seq<Step>, b: seq<Step>)
    requires Orderly(a) && Orderly(b)
    ensures Orderly(a + b) && es + (a + b) == (es + a) + b
  {
  }

  // ----- The runs finish

  function Remaining(p: Progress): nat {
    match p case Running => 4 case Returned => 3 case Deleted => 2 case Closed => 1 case Finished => 0
  }

  function TotalRemaining(rs: seq<Run>): nat {
    if rs == [] then 0 else TotalRemaining(rs[..|rs| - 1]) + Remaining(rs[|rs| - 1].progress)
  }

  lemma {:induction false} RemainingUpdate(rs: seq<Run>, i: nat, r: Run)
    requires i < |rs|
    ensures TotalRemaining(rs[i := r]) + Remaining(rs[i].progress) == TotalRemaining(rs) + Remaining(r.progress)
  {
    if i < |rs| - 1 {
      RemainingUpdate(rs[..|rs| - 1], i, r);
      assert rs[i := r][..|rs| - 1] == rs[..|rs| - 1][i := r];
    } else {
      assert rs[i := r][..|rs| - 1] == rs[..|rs| - 1];
    }
  }

  /** The next step of a run. */
  function StepOf(r: nat, p: Progress): Step {
    match p case Running => Return(r) case Returned => Delete(r) case Deleted => Close(r) case _ => Finish(r)
  }

  ghost predicate AllFinished(s: State) {
    forall r :: 0 <= r < |s.runs| ==> s.runs[r].progress.Finished?
  }

  lemma RunAdvances(s: State, r: nat)
    requires r < |s.runs| && !s.runs[r].progress.Finished?
    ensures var e := StepOf(r, s.runs[r].progress);
            && Enabled(s, e) && !e.TimeOut? && !e.GiveUp? && !e.Arrive? && Next(s, e).stopper == s.stopper
            && TotalRemaining(Next(s, e).runs) < TotalRemaining(s.runs)
  {
    var e := StepOf(r, s.runs[r].progress);
    RemainingUpdate(s.runs, r, Next(s, e).runs[r]);
  }

  lemma {:induction false} RunsFinish(s: State, es: seq<Step>) returns (more: seq<Step>)
    requires IsRun(s, es)
    ensures IsRun(s, es + more) && Orderly(more) && AllFinished(After(s, es + more)) && After(s, es + more).stopper == After(s, es).stopper
    decreases TotalRemaining(After(s, es).runs)
  {
    hide IsRun, After, Next, Enabled, Orderly, TotalRemaining;
    var t := After(s, es);
    if r: nat :| r < |t.runs| && !t.runs[r].progress.Finished? {
      var e := StepOf(r, t.runs[r].progress);
      RunAdvances(t, r);
      Extend(s, es, e);
      var rest := RunsFinish(s, es + [e]);
      OrderlyCons(es, e, rest);
      more := [e] + rest;
    } else {
      more := [];
      assert es + [] == es;
      NothingOrderly();
    }
  }

  lemma NothingOrderly()
    ensures Orderly([])
  {
  }

  // ----- The calls get their results

  function CountWaiting(cs: seq<Call>): nat {
    if cs == [] then 0 else CountWaiting(cs[..|cs| - 1]) + if cs[|cs| - 1].outcome.Waiting? then 1 else 0
  }

  lemma {:induction false} WaitingUpdate(cs: seq<Call>, i: nat, c: Call)
    requires i < |cs|
    ensures CountWaiting(cs[i := c]) + (if cs[i].outcome.Waiting? then 1 else 0) == CountWaiting(cs) + if c.outcome.Waiting? then 1 else 0
  {
    if i < |cs| - 1 {
      WaitingUpdate(cs[..|cs| - 1], i, c);
      assert cs[i := c][..|cs| - 1] == cs[..|cs| - 1][i := c];
    } else {
      assert cs[i := c][..|cs| - 1] == cs[..|cs| - 1];
    }
  }

  ghost predicate NoneWaits(s: State) {
    forall c :: 0 <= c < |s.calls| ==> !s.calls[c].outcome.Waiting?
  }

  lemma CallReceives(s: State, c: nat)
    requires Inv(s) && AllFinished(s) && c < |s.calls| && s.calls[c].outcome.Waiting?
    ensures Enabled(s, Receive(c)) && AllFinished(Next(s, Receive(c))) && Next(s, Receive(c)).stopper == s.stopper
    ensures CountWaiting(Next(s, Receive(c)).calls) < CountWaiting(s.calls)
  {
    assert CallInv(s, s.calls[c]);
    WaitingUpdate(s.calls, c, Next(s, Receive(c)).calls[c]);
  }

  lemma {:induction false} CallsReceive(workers: bool, es: seq<Step>) returns (more: seq<Step>)
    requires IsRun(Initial(workers), es) && AllFinished(After(Initial(workers), es))
    ensures IsRun(Initial(workers), es + more) && Orderly(more)
    ensures var t := After(Initial(workers), es + more); AllFinished(t) && NoneWaits(t) && t.stopper == After(Initial(workers), es).stopper
    decreases CountWaiting(After(Initial(workers), es).calls)
  {
    hide IsRun, After, Next, Enabled, Orderly, CountWaiting, Inv, AllFinished;
    var s := Initial(workers);
    var t := After(s, es);
    if c: nat :| c < |t.calls| && t.calls[c].outcome.Waiting? {
      RunKeeps(workers, es);
      CallReceives(t, c);
      Extend(s, es, Receive(c));
      var rest := CallsReceive(workers, es + [Receive(c)]);
      OrderlyCons(es, Receive(c), rest);
      more := [Receive(c)] + rest;
    } else {
      more := [];
      assert es + [] == es;
      NothingOrderly();
    }
  }

  // ----- The handlers leave

  ghost predicate NoneServes(s: State) {
    forall h :: 0 <= h < |s.handlers| ==> !s.handlers[h].Serving?
  }

  lemma HandlerLeaves(s: State, h: nat)
    requires AllFinished(s) && NoneWaits(s) && h < |s.handlers| && s.handlers[h].Serving?
    ensures Enabled(s, Leave(h)) && AllFinished(Next(s, Leave(h))) && NoneWaits(Next(s, Leave(h))) && Next(s, Leave(h)).stopper == s.stopper
    ensures CountServing(Next(s, Leave(h)).handlers) < CountServing(s.handlers)
  {
    ServingUpdate(s.handlers, h, Served);
  }

  lemma {:induction false} HandlersLeave(workers: bool, es: seq<Step>) returns (more: seq<Step>)
    requires IsRun(Initial(workers), es) && AllFinished(After(Initial(workers), es)) && NoneWaits(After(Initial(workers), es))
    ensures IsRun(Initial(workers), es + more) && Orderly(more)
    ensures var t := After(Initial(workers), es + more); AllFinished(t) && NoneServes(t) && t.stopper == After(Initial(workers), es).stopper
    decreases CountServing(After(Initial(workers), es).handlers)
  {
    hide IsRun, After, Next, Enabled, Orderly, CountServing, AllFinished, NoneWaits;
    var s := Initial(workers);
    var t := After(s, es);
    if h: nat :| h < |t.handlers| && t.handlers[h].Serving? {
      HandlerLeaves(t, h);
      Extend(s, es, Leave(h));
      var rest := HandlersLeave(workers, es + [Leave(h)]);
      OrderlyCons(es, Leave(h), rest);
      more := [Leave(h)] + rest;
    } else {
      more := [];
      assert es + [] == es;
      NothingOrderly();
    }
  }

  // ----- The shutdown sees it

  lemma {:induction false} NoneServing(hs: seq<Handler>)
    requires forall h :: 0 <= h < |hs| ==> !hs[h].Serving?
    ensures CountServing(hs) == 0
  {
    if hs != [] { NoneServing(hs[..|hs| - 1]); }
  }

  lemma {:induction false} NoneUnfinished(rs: seq<Run>)
    requires forall r :: 0 <= r < |rs| ==> rs[r].progress.Finished?
    ensures CountUnfinished(rs) == 0
  {
    if rs != [] { NoneUnfinished(rs[..|rs| - 1]); }
  }

  /** The steps of the gate, the workers and shutdownDesktop that remain. */
  function StepsLeft(s: State): nat {
    match s.stopper
    case Done(_) => 0
    case Idle => 10
    case Selecting(h, w) =>
      1 + (if s.workerRunning then 1 else 0) + (match s.gate case Unmade => 3 case Open => 2 case Waited => 1 case Shut => 0)
      + (if h then 1 else 0) + if w then 1 else 0
  }

  function StopStep(s: State): Step {
    if s.stopper.Idle? then Shutdown
    else if s.workerRunning then WorkersStop
    else if s.gate.Open? then WaitReturns
    else if s.gate.Waited? then CloseGate
    else if s.stopper.Selecting? && s.stopper.handlers then SeeHandlers
    else if s.stopper.Selecting? && s.stopper.workers then SeeWorkers
    else AllSeen
  }

  lemma StopAdvances(s: State)
    requires Inv(s) && AllFinished(s) && NoneServes(s) && !s.stopper.Done?
    ensures var e := StopStep(s);
            && Enabled(s, e) && !e.TimeOut? && !e.GiveUp? && !e.Arrive? && StepsLeft(Next(s, e)) < StepsLeft(s)
            && AllFinished(Next(s, e)) && NoneServes(Next(s, e)) && Next(s, e).stopper != Done(false)
  {
    NoneServing(s.handlers);
    NoneUnfinished(s.runs);
  }

  lemma {:induction false} StopCompletes(workers: bool, es: seq<Step>) returns (more: seq<Step>)
    requires IsRun(Initial(workers), es) && Pending(After(Initial(workers), es))
    requires AllFinished(After(Initial(workers), es)) && NoneServes(After(Initial(workers), es))
    ensures IsRun(Initial(workers), es + more) && Orderly(more) && After(Initial(workers), es + more).stopper == Done(true)
    ensures |more| <= StepsLeft(After(Initial(workers), es))
    decreases StepsLeft(After(Initial(workers), es))
  {
    hide IsRun, After, Next, Enabled, Orderly, StepsLeft, Inv, AllFinished, NoneServes, StopStep;
    var s := Initial(workers);
    var t := After(s, es);
    if t.stopper.Done? {
      more := [];
      assert es + [] == es;
      NothingOrderly();
    } else {
      RunKeeps(workers, es);
      StopAdvances(t);
      var e := StopStep(t);
      Extend(s, es, e);
      var rest := StopCompletes(workers, es + [e]);
      OrderlyCons(es, e, rest);
      more := [e] + rest;
    }
  }

  // ----- The results

  /** From every reachable state in which the shutdown has not timed out it can still return true, and without cutting anything
      off: the detached runs finish, every waiting call gets its result, the handlers leave, and the shutdown sees it. */
  lemma ShutdownCanComplete(workers: bool, es: seq<Step>) returns (more: seq<Step>)
    requires IsRun(Initial(workers), es) && Pending(After(Initial(workers), es))
    ensures IsRun(Initial(workers), es + more) && Orderly(more) && After(Initial(workers), es + more).stopper == Done(true)
  {
    hide IsRun, After, Orderly, AllFinished, NoneWaits, NoneServes;
    var a := RunsFinish(Initial(workers), es);
    var b := CallsReceive(workers, es + a);
    var c := HandlersLeave(workers, (es + a) + b);
    var d := StopCompletes(workers, ((es + a) + b) + c);
    OrderlyJoin(es, a, b);
    OrderlyJoin(es, a + b, c);
    OrderlyJoin(es, (a + b) + c, d);
    more := ((a + b) + c) + d;
  }

  /** Once nothing that uses the store is left, at most five steps lead a running shutdown to true. */
  lemma QuietCompletes(workers: bool, es: seq<Step>) returns (more: seq<Step>)
    requires IsRun(Initial(workers), es) && After(Initial(workers), es).stopper.Selecting? && Quiet(After(Initial(workers), es))
    ensures IsRun(Initial(workers), es + more) && Orderly(more) && |more| <= 5 && After(Initial(workers), es + more).stopper == Done(true)
  {
    RunKeeps(workers, es);
    hide IsRun, After, Orderly;
    more := StopCompletes(workers, es);
  }

  ghost predicate NoneTurnedAway(s: State) {
    forall h :: 0 <= h < |s.handlers| ==> !s.handlers[h].TurnedAway?
  }

  /** The shutdown returns false only by its time limit, and requests are turned away only once it has begun. */
  lemma {:induction false} FalseMeansTimeOut(workers: bool, es: seq<Step>)
    requires IsRun(Initial(workers), es)
    ensures After(Initial(workers), es).stopper == Done(false) ==> TimeOut in es
    ensures Shutdown !in es ==> !After(Initial(workers), es).stopping && NoneTurnedAway(After(Initial(workers), es))
    decreases |es|
  {
    hide Enabled, Next, NoneTurnedAway;
    if es != [] {
      var n := |es| - 1;
      FalseMeansTimeOut(workers, es[..n]);
      assert es == es[..n] + [es[n]];
      OnlyTimeOut(After(Initial(workers), es[..n]), es[n]);
    } else {
      assert NoneTurnedAway(Initial(workers)) by { NoHandlers(workers); }
    }
  }

  lemma NoHandlers(workers: bool)
    ensures NoneTurnedAway(Initial(workers))
  {
  }

  lemma OnlyTimeOut(s: State, e: Step)
    requires Enabled(s, e)
    ensures Next(s, e).stopper == Done(false) ==> e.TimeOut? || s.stopper == Done(false)
    ensures !e.Shutdown? && !s.stopping && NoneTurnedAway(s) ==> !Next(s, e).stopping && NoneTurnedAway(Next(s, e))
  {
  }
}
