/** What a completed shutdown and a detached call can rely on, in every interleaving. */
module ShutdownProofs {
  import opened Common
  import opened Shutdown

  function CountServing(hs: seq<Handler>): nat {
    if hs == [] then 0 else CountServing(hs[..|hs| - 1]) + if hs[|hs| - 1].Serving? then 1 else 0
  }

  function CountUnfinished(rs: seq<Run>): nat {
    if rs == [] then 0 else CountUnfinished(rs[..|rs| - 1]) + if rs[|rs| - 1].progress.Finished? then 0 else 1
  }

  lemma {:induction false} ServingUpdate(hs: seq<Handler>, i: nat, h: Handler)
    requires i < |hs|
    ensures CountServing(hs[i := h]) + (if hs[i].Serving? then 1 else 0) == CountServing(hs) + if h.Serving? then 1 else 0
  {
    if i < |hs| - 1 {
      ServingUpdate(hs[..|hs| - 1], i, h);
      assert hs[i := h][..|hs| - 1] == hs[..|hs| - 1][i := h];
    } else {
      assert hs[i := h][..|hs| - 1] == hs[..|hs| - 1];
    }
  }

  lemma {:induction false} UnfinishedUpdate(rs: seq<Run>, i: nat, r: Run)
    requires i < |rs|
    ensures CountUnfinished(rs[i := r]) + (if rs[i].progress.Finished? then 0 else 1) == CountUnfinished(rs) + if r.progress.Finished? then 0 else 1
  {
    if i < |rs| - 1 {
      UnfinishedUpdate(rs[..|rs| - 1], i, r);
      assert rs[i := r][..|rs| - 1] == rs[..|rs| - 1][i := r];
    } else {
      assert rs[i := r][..|rs| - 1] == rs[..|rs| - 1];
    }
  }

  lemma Snoc(hs: seq<Handler>, rs: seq<Run>, r: Run)
    ensures CountServing(hs + [Arriving]) == CountServing(hs)
    ensures CountUnfinished(rs + [r]) == CountUnfinished(rs) + if r.progress.Finished? then 0 else 1
  {
    assert (hs + [Arriving])[..|hs|] == hs && (rs + [r])[..|rs|] == rs;
  }

  lemma {:induction false} ServingCounts(hs: seq<Handler>, i: nat)
    requires i < |hs| && hs[i].Serving?
    ensures CountServing(hs) > 0
  {
    if i < |hs| - 1 { ServingCounts(hs[..|hs| - 1], i); }
  }

  lemma {:induction false} UnfinishedCounts(rs: seq<Run>, i: nat)
    requires i < |rs| && !rs[i].progress.Finished?
    ensures CountUnfinished(rs) > 0
  {
    if i < |rs| - 1 { UnfinishedCounts(rs[..|rs| - 1], i); }
  }

  // ----- The invariant

  /** A run whose entry is in the map. */
  predicate Active(r: Run) {
    r.progress.Running? || r.progress.Returned?
  }

  /** The map holds exactly the active runs, under their own keys. */
  ghost predicate Mapped(s: State) {
    && (forall k :: k in s.inflight ==> s.inflight[k] < |s.runs| && s.runs[s.inflight[k]].key == k && Active(s.runs[s.inflight[k]]))
    && (forall r :: 0 <= r < |s.runs| && Active(s.runs[r]) ==> s.runs[r].key in s.inflight && s.inflight[s.runs[r].key] == r)
  }

  ghost predicate CallInv(s: State, c: Call) {
    c.run < |s.runs| && (c.joined.Running? || c.joined.Returned?)
    && (c.outcome.GotResult? ==> s.runs[c.run].progress.Closed? || s.runs[c.run].progress.Finished?)
  }

  ghost predicate Inv(s: State) {
    && s.work == CountServing(s.handlers) + CountUnfinished(s.runs)
    && (s.gate.Unmade? <==> !s.stopping)
    && (s.gate.Waited? || s.gate.Shut? ==> s.work == 0)
    && (s.stopper.Selecting? || s.stopper.Done? ==> s.stopping)
    && (s.stopper.Selecting? && !s.stopper.handlers ==> s.gate.Shut?)
    && (s.stopper.Selecting? && !s.stopper.workers ==> !s.workerRunning)
    && (s.stopper == Done(true) ==> s.gate.Shut? && !s.workerRunning)
    && Mapped(s) && forall c :: 0 <= c < |s.calls| ==> CallInv(s, s.calls[c])
  }

  lemma MappedAt(s: State, r: nat, p: Progress)
    requires Mapped(s) && r < |s.runs| && (Active(s.runs[r]) <==> Active(s.runs[r].(progress := p)))
    ensures Mapped(At(s, r, p))
  {
  }

  lemma MappedDelete(s: State, r: nat)
    requires Mapped(s) && Enabled(s, Delete(r))
    ensures Mapped(Next(s, Delete(r)))
  {
    var t := Next(s, Delete(r));
    forall k | k in t.inflight ensures t.inflight[k] < |t.runs| && t.runs[t.inflight[k]].key == k && Active(t.runs[t.inflight[k]]) {
      assert t.inflight[k] != r;
    }
    forall q | 0 <= q < |t.runs| && Active(t.runs[q]) ensures t.runs[q].key in t.inflight && t.inflight[t.runs[q].key] == q {
      assert q != r;
    }
  }

  lemma CallsAt(s: State, t: State)
    requires |t.runs| >= |s.runs| && (forall c :: 0 <= c < |s.calls| ==> CallInv(s, s.calls[c]))
    requires forall r :: 0 <= r < |s.runs| ==> (s.runs[r].progress.Closed? || s.runs[r].progress.Finished? ==> t.runs[r].progress.Closed? || t.runs[r].progress.Finished?)
    ensures forall c :: 0 <= c < |s.calls| ==> CallInv(t, s.calls[c])
  {
    forall c | 0 <= c < |s.calls| ensures CallInv(t, s.calls[c]) { assert CallInv(s, s.calls[c]); }
  }

  lemma RunStepKeeps(s: State, e: Step)
    requires Inv(s) && Enabled(s, e) && (e.Return? || e.Delete? || e.Close? || e.Finish?)
    ensures Inv(Next(s, e))
  {
    var t := Next(s, e);
    UnfinishedUpdate(s.runs, e.r, t.runs[e.r]);
    CallsAt(s, t);
    UnfinishedCounts(s.runs, e.r);
    if e.Delete? { MappedDelete(s, e.r); } else { MappedAt(s, e.r, t.runs[e.r].progress); }
  }

  lemma HandlerStepKeeps(s: State, e: Step)
    requires Inv(s) && Enabled(s, e) && (e.Arrive? || e.Enter? || e.Leave?)
    ensures Inv(Next(s, e))
  {
    var t := Next(s, e);
    CallsAt(s, t);
    if e.Arrive? {
      Snoc(s.handlers, s.runs, Run("", Running));
    } else {
      ServingUpdate(s.handlers, e.h, t.handlers[e.h]);
      if e.Leave? { ServingCounts(s.handlers, e.h); }
    }
  }

  lemma BeginKeeps(s: State, h: nat, key: string)
    requires Inv(s) && Enabled(s, Begin(h, key))
    ensures Inv(Next(s, Begin(h, key)))
    ensures Active(Next(s, Begin(h, key)).runs[Next(s, Begin(h, key)).calls[|s.calls|].run])
  {
    hide CountServing, CountUnfinished, Mapped, CallInv, Busy;
    var t := Next(s, Begin(h, key));
    ServingCounts(s.handlers, h);
    CallsAt(s, t);
    Snoc(s.handlers, s.runs, Run(key, Running));
    MappedBegin(s, h, key);
    NewCall(s, t, t.calls[|s.calls|]);
  }

  lemma MappedBegin(s: State, h: nat, key: string)
    requires Mapped(s) && Enabled(s, Begin(h, key))
    ensures var t := Next(s, Begin(h, key)); Mapped(t) && t.calls[|s.calls|].run < |t.runs| && Active(t.runs[t.calls[|s.calls|].run])
    ensures var t := Next(s, Begin(h, key)); var j := t.calls[|s.calls|].joined; j.Running? || j.Returned?
  {
    var t := Next(s, Begin(h, key));
    if key !in s.inflight {
      forall r | 0 <= r < |t.runs| && Active(t.runs[r]) ensures t.runs[r].key in t.inflight && t.inflight[t.runs[r].key] == r {
        if r < |s.runs| { assert t.runs[r] == s.runs[r]; }
      }
    }
  }

  lemma NewCall(s: State, t: State, call: Call)
    requires (forall c :: 0 <= c < |s.calls| ==> CallInv(t, s.calls[c])) && t.calls == s.calls + [call] && CallInv(t, call)
    ensures forall c :: 0 <= c < |t.calls| ==> CallInv(t, t.calls[c])
  {
    forall c | 0 <= c < |t.calls| ensures CallInv(t, t.calls[c]) {
      if c < |s.calls| { assert t.calls[c] == s.calls[c]; }
    }
  }

  lemma CallStepKeeps(s: State, e: Step)
    requires Inv(s) && Enabled(s, e) && (e.Receive? || e.GiveUp?)
    ensures Inv(Next(s, e))
  {
    var t := Next(s, e);
    CallsAt(s, t);
    assert CallInv(s, s.calls[e.c]);
    forall c | 0 <= c < |t.calls| ensures CallInv(t, t.calls[c]) {
      if c != e.c { assert t.calls[c] == s.calls[c]; }
    }
  }

  lemma StopperStepKeeps(s: State, e: Step)
    requires Inv(s) && Enabled(s, e)
    requires e.WorkersStop? || e.Shutdown? || e.WaitReturns? || e.CloseGate? || e.SeeHandlers? || e.SeeWorkers? || e.TimeOut? || e.AllSeen?
    ensures Inv(Next(s, e))
  {
    CallsAt(s, Next(s, e));
  }

  lemma StepKeeps(s: State, e: Step)
    requires Inv(s) && Enabled(s, e)
    ensures Inv(Next(s, e))
  {
    hide Inv, Next, Enabled;
    match e {
      case Arrive => HandlerStepKeeps(s, e);
      case Enter(_) => HandlerStepKeeps(s, e);
      case Leave(_) => HandlerStepKeeps(s, e);
      case Begin(h, key) => BeginKeeps(s, h, key);
      case Return(_) => RunStepKeeps(s, e);
      case Delete(_) => RunStepKeeps(s, e);
      case Close(_) => RunStepKeeps(s, e);
      case Finish(_) => RunStepKeeps(s, e);
      case Receive(_) => CallStepKeeps(s, e);
      case GiveUp(_) => CallStepKeeps(s, e);
      case _ => StopperStepKeeps(s, e);
    }
  }

  lemma {:induction false} RunKeeps(workers: bool, es: seq<Step>)
    requires IsRun(Initial(workers), es)
    ensures Inv(After(Initial(workers), es))
    decreases |es|
  {
    hide Inv, Next, Enabled;
    if es == [] {
      assert Inv(Initial(workers)) by { InitialInv(workers); }
    } else {
      RunKeeps(workers, es[..|es| - 1]);
      StepKeeps(After(Initial(workers), es[..|es| - 1]), es[|es| - 1]);
    }
  }

  lemma InitialInv(workers: bool)
    ensures Inv(Initial(workers))
  {
  }

  // ----- The results

  /** Nothing that uses the store is left. */
  ghost predicate Quiet(s: State) {
    && (forall h :: 0 <= h < |s.handlers| ==> !s.handlers[h].Serving?)
    && (forall r :: 0 <= r < |s.runs| ==> s.runs[r].progress.Finished?)
    && !s.workerRunning
  }

  lemma DoneIsQuiet(s: State)
    requires Inv(s) && s.stopper == Done(true)
    ensures Quiet(s)
  {
    forall h | 0 <= h < |s.handlers| ensures !s.handlers[h].Serving? { if s.handlers[h].Serving? { ServingCounts(s.handlers, h); } }
    forall r | 0 <= r < |s.runs| ensures s.runs[r].progress.Finished? { if !s.runs[r].progress.Finished? { UnfinishedCounts(s.runs, r); } }
  }

  ghost predicate QuietAfter(workers: bool, es: seq<Step>)
    requires IsRun(Initial(workers), es)
  {
    Quiet(After(Initial(workers), es)) && After(Initial(workers), es).stopper == Done(true)
  }

  lemma {:induction false} StaysQuiet(workers: bool, es: seq<Step>, more: seq<Step>)
    requires IsRun(Initial(workers), es) && After(Initial(workers), es).stopper == Done(true)
    requires IsRun(Initial(workers), es + more)
    ensures QuietAfter(workers, es + more)
    decreases |more|
  {
    hide Quiet, Inv, Enabled, Next;
    var all := es + more;
    RunKeeps(workers, all);
    if more == [] {
      assert all == es;
    } else {
      assert all[..|all| - 1] == es + more[..|more| - 1];
      StaysQuiet(workers, es, more[..|more| - 1]);
      StaysDone(After(Initial(workers), all[..|all| - 1]), all[|all| - 1]);
    }
    DoneIsQuiet(After(Initial(workers), all));
  }

  /** When shutdownDesktop has returned true, no admitted handler, detached run or background worker is running, after
      the next step, and in every state the run reaches from there, however it goes on. */
  lemma ShutdownMeansQuiet(workers: bool, es: seq<Step>)
    requires IsRun(Initial(workers), es) && After(Initial(workers), es).stopper == Done(true)
    ensures Quiet(After(Initial(workers), es))
    ensures forall e :: Enabled(After(Initial(workers), es), e) ==>
              Quiet(Next(After(Initial(workers), es), e)) && Next(After(Initial(workers), es), e).stopper == Done(true)
    ensures forall more :: IsRun(Initial(workers), es + more) ==> QuietAfter(workers, es + more)
  {
    var s := After(Initial(workers), es);
    RunKeeps(workers, es);
    DoneIsQuiet(s);
    hide Quiet, IsRun, After;
    forall e | Enabled(s, e) ensures Quiet(Next(s, e)) && Next(s, e).stopper == Done(true) {
      StepKeeps(s, e);
      StaysDone(s, e);
      DoneIsQuiet(Next(s, e));
    }
    forall more | IsRun(Initial(workers), es + more) ensures QuietAfter(workers, es + more) {
      StaysQuiet(workers, es, more);
    }
  }

  lemma StaysDone(s: State, e: Step)
    requires Enabled(s, e) && s.stopper.Done?
    ensures Next(s, e).stopper == s.stopper
  {
  }

  /** For each key at most one run is in flight, in every reachable state. */
  lemma SingleFlight(workers: bool, es: seq<Step>, i: nat, j: nat)
    requires IsRun(Initial(workers), es)
    requires var s := After(Initial(workers), es); i < |s.runs| && j < |s.runs| && Active(s.runs[i]) && Active(s.runs[j]) && s.runs[i].key == s.runs[j].key
    ensures i == j
  {
    RunKeeps(workers, es);
  }

  /** A caller gets the result of a run that was still in flight when its call began, and only after that run closed its
      channel: never the result of a run whose entry was deleted before. */
  lemma ResultsAreCurrent(workers: bool, es: seq<Step>, c: nat)
    requires IsRun(Initial(workers), es) && c < |After(Initial(workers), es).calls|
    ensures var s := After(Initial(workers), es);
            && s.calls[c].run < |s.runs| && (s.calls[c].joined.Running? || s.calls[c].joined.Returned?)
            && (s.calls[c].outcome.GotResult? ==> s.runs[s.calls[c].run].progress.Closed? || s.runs[s.calls[c].run].progress.Finished?)
  {
    RunKeeps(workers, es);
    var s := After(Initial(workers), es);
    assert CallInv(s, s.calls[c]);
  }

  /** In every interleaving a call that begins waits for the one active run of its key, and a run is started for it
      exactly when there was none; how far that run is, is recorded faithfully. */
  lemma JoinedIsTrue(workers: bool, es: seq<Step>, h: nat, key: string)
    requires IsRun(Initial(workers), es) && Enabled(After(Initial(workers), es), Begin(h, key))
    ensures var s := After(Initial(workers), es);
            var t := Next(s, Begin(h, key));
            var c := t.calls[|s.calls|];
            && c.run < |t.runs| && ActiveFor(t.runs[c.run], key) && c.joined == t.runs[c.run].progress
            && (forall r :: 0 <= r < |t.runs| && ActiveFor(t.runs[r], key) ==> r == c.run)
            && (|t.runs| > |s.runs| <==> forall r :: 0 <= r < |s.runs| ==> !ActiveFor(s.runs[r], key))
  {
    RunKeeps(workers, es);
    var s := After(Initial(workers), es);
    assert Mapped(s);
    hide IsRun, After;
    if key in s.inflight { assert ActiveFor(s.runs[s.inflight[key]], key); }
  }

  predicate ActiveFor(r: Run, key: string) {
    Active(r) && r.key == key
  }

  /** The function of the run may already have returned when a call joins it: two requests, and the second call begins
      after the function returned and before the entry is deleted. */
  function LateJoin(): seq<Step> {
    [Arrive, Enter(0), Arrive, Enter(1), Begin(0, "k"), Return(0), Begin(1, "k"), Delete(0), Close(0), Receive(1)]
  }

  lemma LateJoinPrefix(n: nat)
    requires n <= 10
    ensures n > 0 ==> LateJoin()[..n][..n - 1] == LateJoin()[..n - 1] && LateJoin()[..n][n - 1] == LateJoin()[n - 1]
  {
  }

  lemma Advance(n: nat, s: State)
    requires n < 10 && IsRun(Initial(true), LateJoin()[..n]) && After(Initial(true), LateJoin()[..n]) == s && Enabled(s, LateJoin()[n])
    ensures IsRun(Initial(true), LateJoin()[..n + 1]) && After(Initial(true), LateJoin()[..n + 1]) == Next(s, LateJoin()[n])
  {
    LateJoinPrefix(n + 1);
  }

  lemma JoinsReturnedRun()
    ensures IsRun(Initial(true), LateJoin())
    ensures var s := After(Initial(true), LateJoin()); |s.calls| == 2 && s.calls[1].joined.Returned? && s.calls[1].outcome.GotResult?
  {
    LateJoinStart();
    LateJoinEnd();
  }

  const RETURNED := State([Serving, Serving], [Run("k", Returned)], map["k" := 0], [Call(0, 0, Running, Waiting)], 3, false, Unmade, true, Idle)

  lemma LateJoinStart()
    ensures IsRun(Initial(true), LateJoin()[..6]) && After(Initial(true), LateJoin()[..6]) == RETURNED
  {
    hide IsRun, After;
    var s := Initial(true);
    assert IsRun(s, LateJoin()[..0]) && After(s, LateJoin()[..0]) == s by { EmptyRun(s); }
    Advance(0, s);
    Advance(1, State([Arriving], [], map[], [], 0, false, Unmade, true, Idle));
    Advance(2, State([Serving], [], map[], [], 1, false, Unmade, true, Idle));
    LateJoinMiddle();
  }

  lemma LateJoinMiddle()
    requires IsRun(Initial(true), LateJoin()[..3])
    requires After(Initial(true), LateJoin()[..3]) == State([Serving, Arriving], [], map[], [], 1, false, Unmade, true, Idle)
    ensures IsRun(Initial(true), LateJoin()[..6]) && After(Initial(true), LateJoin()[..6]) == RETURNED
  {
    hide IsRun, After;
    Advance(3, State([Serving, Arriving], [], map[], [], 1, false, Unmade, true, Idle));
    Advance(4, State([Serving, Serving], [], map[], [], 2, false, Unmade, true, Idle));
    Advance(5, State([Serving, Serving], [Run("k", Running)], map["k" := 0], [Call(0, 0, Running, Waiting)], 3, false, Unmade, true, Idle));
  }

  lemma EmptyRun(s: State)
    ensures IsRun(s, LateJoin()[..0]) && After(s, LateJoin()[..0]) == s
  {
  }

  lemma LateJoinEnd()
    requires IsRun(Initial(true), LateJoin()[..6]) && After(Initial(true), LateJoin()[..6]) == RETURNED
    ensures IsRun(Initial(true), LateJoin())
    ensures var s := After(Initial(true), LateJoin()); |s.calls| == 2 && s.calls[1].joined.Returned? && s.calls[1].outcome.GotResult?
  {
    hide IsRun, After;
    var two := [Call(0, 0, Running, Waiting), Call(1, 0, Returned, Waiting)];
    assert !Busy(RETURNED, 1);
    Advance(6, RETURNED);
    Advance(7, RETURNED.(calls := two));
    var empty: map<string, nat> := map[];
    assert map["k" := 0] - {"k"} == empty;
    Advance(8, State([Serving, Serving], [Run("k", Deleted)], empty, two, 3, false, Unmade, true, Idle));
    Advance(9, State([Serving, Serving], [Run("k", Closed)], empty, two, 3, false, Unmade, true, Idle));
    assert LateJoin()[..10] == LateJoin();
  }
}
