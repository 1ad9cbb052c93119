/** requestGate and shutdownDesktop of cmd/desktop/shutdown.go with runDetached of cmd/desktop/detached_work.go: every
    interleaving of request handlers, detached runs, background workers and one shutdown. */
module Shutdown {
  import opened Common

  /** A request: not yet at the gate, being served, turned away, or served. */
  datatype Handler = Arriving | Serving | TurnedAway | Served

  /** A detached run: its function running, returned, its entry deleted, its channel closed, its goroutine finished. */
  datatype Progress = Running | Returned | Deleted | Closed | Finished

  datatype Run = Run(key: string, progress: Progress)

  /** A call of runDetached by a handler: which run it waits for, how far that run was when it joined, and its outcome. */
  datatype Outcome = Waiting | GotResult | GaveUp

  datatype Call = Call(handler: nat, run: nat, joined: Progress, outcome: Outcome)

  /** The gate's done channel: not made, made, its waiter through with waiting, closed. */
  datatype Gate = Unmade | Open | Waited | Shut

  /** shutdownDesktop: the channels it still waits for, or what it returned. */
  datatype Stopper = Idle | Selecting(handlers: bool, workers: bool) | Done(allStopped: bool)

  datatype State = State(handlers: seq<Handler>, runs: seq<Run>, inflight: map<string, nat>, calls: seq<Call>,
                         work: int, stopping: bool, gate: Gate, workerRunning: bool, stopper: Stopper)

  function Initial(workers: bool): State {
    State([], [], map[], [], 0, false, Unmade, workers, Idle)
  }

  /** One step of one goroutine; each mutex region and each channel operation is a step. */
  datatype Step =
    | Arrive | Enter(h: nat) | Leave(h: nat)
    | Begin(h: nat, key: string)
    | Return(r: nat) | Delete(r: nat) | Close(r: nat) | Finish(r: nat)
    | Receive(c: nat) | GiveUp(c: nat)
    | WorkersStop
    | Shutdown | WaitReturns | CloseGate | SeeHandlers | SeeWorkers | TimeOut | AllSeen

  /** The handler is inside a call of runDetached. */
  predicate Busy(s: State, h: nat) {
    exists c :: 0 <= c < |s.calls| && s.calls[c].handler == h && s.calls[c].outcome.Waiting?
  }

  predicate Enabled(s: State, e: Step) {
    match e
    case Arrive => true
    case Enter(h) => h < |s.handlers| && s.handlers[h].Arriving?
    case Leave(h) => h < |s.handlers| && s.handlers[h].Serving? && !Busy(s, h)
    case Begin(h, key) => h < |s.handlers| && s.handlers[h].Serving? && !Busy(s, h)
    case Return(r) => r < |s.runs| && s.runs[r].progress.Running?
    case Delete(r) => r < |s.runs| && s.runs[r].progress.Returned?
    case Close(r) => r < |s.runs| && s.runs[r].progress.Deleted?
    case Finish(r) => r < |s.runs| && s.runs[r].progress.Closed?
    case Receive(c) => c < |s.calls| && s.calls[c].outcome.Waiting? && s.calls[c].run < |s.runs|
                       && (s.runs[s.calls[c].run].progress.Closed? || s.runs[s.calls[c].run].progress.Finished?)
    case GiveUp(c) => c < |s.calls| && s.calls[c].outcome.Waiting?
    case WorkersStop => s.workerRunning
    case Shutdown => s.stopper.Idle?
    case WaitReturns => s.gate.Open? && s.work == 0
    case CloseGate => s.gate.Waited?
    case SeeHandlers => s.stopper.Selecting? && s.stopper.handlers && s.gate.Shut?
    case SeeWorkers => s.stopper.Selecting? && s.stopper.workers && !s.workerRunning
    case TimeOut => s.stopper.Selecting? && (s.stopper.handlers || s.stopper.workers)
    case AllSeen => s.stopper == Selecting(false, false)
  }

  function At(s: State, r: nat, p: Progress): State
    requires r < |s.runs|
  {
    s.(runs := s.runs[r := s.runs[r].(progress := p)])
  }

  function Next(s: State, e: Step): State
    requires Enabled(s, e)
  {
    match e
    case Arrive => s.(handlers := s.handlers + [Arriving])
    case Enter(h) =>
      if s.stopping then s.(handlers := s.handlers[h := TurnedAway])
      else s.(handlers := s.handlers[h := Serving], work := s.work + 1)
    case Leave(h) => s.(handlers := s.handlers[h := Served], work := s.work - 1)
    case Begin(h, key) => Begun(s, h, key)
    case Return(r) => At(s, r, Returned)
    case Delete(r) => At(s, r, Deleted).(inflight := s.inflight - {s.runs[r].key})
    case Close(r) => At(s, r, Closed)
    case Finish(r) => At(s, r, Finished).(work := s.work - 1)
    case Receive(c) => s.(calls := s.calls[c := s.calls[c].(outcome := GotResult)])
    case GiveUp(c) => s.(calls := s.calls[c := s.calls[c].(outcome := Outcome.GaveUp)])
    case WorkersStop => s.(workerRunning := false)
    case Shutdown => Stopped(s).(stopper := Selecting(true, true))
    case WaitReturns => s.(gate := Waited)
    case CloseGate => s.(gate := Shut)
    case SeeHandlers => s.(stopper := s.stopper.(handlers := false))
    case SeeWorkers => s.(stopper := s.stopper.(workers := false))
    case TimeOut => s.(stopper := Done(false))
    case AllSeen => s.(stopper := Done(true))
  }

  /** runDetached up to its select: join the run in flight for the key, or start one. */
  function Begun(s: State, h: nat, key: string): State {
    if key in s.inflight then
      var joined := if s.inflight[key] < |s.runs| then s.runs[s.inflight[key]].progress else Running;
      s.(calls := s.calls + [Call(h, s.inflight[key], joined, Waiting)])
    else
      s.(runs := s.runs + [Run(key, Running)], inflight := s.inflight[key := |s.runs|], work := s.work + 1,
         calls := s.calls + [Call(h, |s.runs|, Running, Waiting)])
  }

  /** stop. */
  function Stopped(s: State): State {
    if s.gate.Unmade? then s.(stopping := true, gate := Open) else s
  }

  predicate IsRun(s: State, es: seq<Step>)
    decreases |es|, 0
  {
    es == [] || (IsRun(s, es[..|es| - 1]) && Enabled(After(s, es[..|es| - 1]), es[|es| - 1]))
  }

  function After(s: State, es: seq<Step>): State
    requires IsRun(s, es)
    decreases |es|, 1
  {
    if es == [] then s else Next(After(s, es[..|es| - 1]), es[|es| - 1])
  }

  // ----- The mutex regions, as the server runs them

  class Server {
    var handlers: seq<Handler>
    var runs: seq<Run>
    var inflight: map<string, nat>
    var calls: seq<Call>
    var work: int
    var stopping: bool
    var gate: Gate
    var workerRunning: bool
    var stopper: Stopper

    function Value(): State
      reads this
    {
      State(handlers, runs, inflight, calls, work, stopping, gate, workerRunning, stopper)
    }

    constructor (workers: bool)
      ensures Value() == Initial(workers)
    {
      handlers, runs, inflight, calls, work := [], [], map[], [], 0;
      stopping, gate, workerRunning, stopper := false, Unmade, workers, Idle;
    }

    /** wrap, before the handler. */
    method Admit(h: nat) returns (admitted: bool)
      requires Enabled(Value(), Enter(h))
      modifies `handlers, `work
      ensures Value() == Next(old(Value()), Enter(h)) && admitted == !stopping
    {
      if stopping {
        handlers := handlers[h := TurnedAway];
        return false;
      }
      work := work + 1;
      handlers := handlers[h := Serving];
      admitted := true;
    }

    /** wrap, behind the handler. */
    method Release(h: nat)
      requires Enabled(Value(), Leave(h))
      modifies `handlers, `work
      ensures Value() == Next(old(Value()), Leave(h))
    {
      handlers := handlers[h := Served];
      work := work - 1;
    }

    method Stop()
      modifies `stopping, `gate
      ensures Value() == Stopped(old(Value()))
    {
      if gate.Unmade? {
        stopping := true;
        gate := Open;
      }
    }

    /** The first mutex region of runDetached. */
    method RunDetached(h: nat, key: string) returns (call: nat)
      requires Enabled(Value(), Begin(h, key))
      modifies `runs, `inflight, `work, `calls
      ensures Value() == Next(old(Value()), Begin(h, key)) && call == |old(calls)|
    {
      call := |calls|;
      if key !in inflight {
        inflight := inflight[key := |runs|];
        work := work + 1;
        runs := runs + [Run(key, Running)];
      }
      var r := inflight[key];
      calls := calls + [Call(h, r, if r < |runs| then runs[r].progress else Running, Waiting)];
    }

    /** The second mutex region, in the goroutine of the run. */
    method RemoveRun(r: nat)
      requires Enabled(Value(), Delete(r))
      modifies `runs, `inflight
      ensures Value() == Next(old(Value()), Delete(r))
    {
      inflight := inflight - {runs[r].key};
      runs := runs[r := runs[r].(progress := Deleted)];
    }
  }
}
