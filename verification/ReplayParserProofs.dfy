/** How a legacy recording is split into matches, for every sequence of lines. */
module ReplayParserProofs {
  import opened Common
  import opened Mapper
  import opened MapperProofs
  import opened ReplayParser

  // ----- Maximal runs of one effective session id

  /** The session id of a run is the one of its first snapshot; it may be empty only for the first run of a file. */
  ghost predicate IsRun(run: seq<Sample>) {
    && run != [] && (forall i :: 0 <= i < |run| ==> run[i].raw.Some?)
    && forall i :: 0 <= i < |run| ==> run[i].raw.value.session in {"", SessionOf(run)}
  }

  function SessionOf(run: seq<Sample>): string {
    if run != [] && run[0].raw.Some? then run[0].raw.value.session else ""
  }

  /** Neighbouring runs have different ids, and every run but the first has a proper one: no run can be made longer. */
  ghost predicate Maximal(runs: seq<seq<Sample>>) {
    && (forall k :: 0 <= k < |runs| ==> IsRun(runs[k]))
    && (forall k :: 0 < k < |runs| ==> SessionOf(runs[k]) != "" && SessionOf(runs[k]) != SessionOf(runs[k - 1]))
  }

  function Concat(runs: seq<seq<Sample>>): seq<Sample> {
    if runs == [] then [] else Concat(runs[..|runs| - 1]) + runs[|runs| - 1]
  }

  // ----- What each run yields

  /** The results of a fresh mapper over a run. */
  function ResultsOf(m: State, run: seq<Sample>): seq<MapResult> {
    Run(m, run).1
  }

  /** The ticks of one match: those with frames, the first of them announcing the match. */
  function DeliveriesOf(m: State, run: seq<Sample>): seq<Delivery>
    decreases |run|
  {
    if run == [] then [] else
      var before, last, r := DeliveriesOf(m, run[..|run| - 1]), run[|run| - 1], LastResult(Run(m, run).1);
      if r.skipped || r.frames == [] then before
      else before + [Delivery(SessionOf(run), before == [], r.frames[0].index, last.time, r.frames)]
  }

  function LastResult(results: seq<MapResult>): MapResult {
    if results == [] then NOTHING else results[|results| - 1]
  }

  function AllDeliveries(m: State, runs: seq<seq<Sample>>): seq<Delivery> {
    if runs == [] then [] else AllDeliveries(m, runs[..|runs| - 1]) + DeliveriesOf(m, runs[|runs| - 1])
  }

  // ----- The invariant of the loop

  /** The matches and ticks so far are those of the runs, each mapped by a fresh mapper, within the budget. */
  ghost predicate Matched(p: Parse, m: State, runs: seq<seq<Sample>>, budget: int) {
    && Maximal(runs) && |p.matches| == |runs|
    && (forall k :: 0 <= k < |runs| ==> MatchOf(m, runs[k], p.matches[k], budget))
    && p.delivered == AllDeliveries(m, runs)
  }

  ghost predicate MatchOf(m: State, run: seq<Sample>, context: Context, budget: int) {
    && MergedContext(ResultsOf(m, run)) == Some(context) && context.session == SessionOf(run)
    && |Frames(ResultsOf(m, run))| <= budget
  }

  /** The local variables describe the last run. */
  ghost predicate Current(p: Parse, m: State, runs: seq<seq<Sample>>) {
    if runs == [] then p.current.None? && p.mapper == m && !p.pending && p.used == 0
    else
      var run := runs[|runs| - 1];
      && p.matches != [] && p.current == Some(p.matches[|p.matches| - 1])
      && p.mapper == Run(m, run).0 && p.used == |Frames(ResultsOf(m, run))|
      && (p.pending <==> DeliveriesOf(m, run) == [])
  }

  /** The runs after one more snapshot. */
  function Extended(runs: seq<seq<Sample>>, s: Sample): seq<seq<Sample>> {
    if runs == [] || (s.raw.Some? && s.raw.value.session != "" && s.raw.value.session != SessionOf(runs[|runs| - 1]))
    then runs + [[s]]
    else runs[..|runs| - 1] + [runs[|runs| - 1] + [s]]
  }

  lemma LongerRun(run: seq<Sample>, s: Sample)
    requires IsRun(run) && s.raw.Some? && s.raw.value.session in {"", SessionOf(run)}
    ensures IsRun(run + [s]) && SessionOf(run + [s]) == SessionOf(run)
  {
    forall i | 0 <= i < |run + [s]| ensures (run + [s])[i].raw.Some? && (run + [s])[i].raw.value.session in {"", SessionOf(run)} {
      if i < |run| { assert (run + [s])[i] == run[i]; }
    }
  }

  lemma ExtendedMaximal(runs: seq<seq<Sample>>, s: Sample)
    requires Maximal(runs) && s.raw.Some?
    ensures Maximal(Extended(runs, s)) && Concat(Extended(runs, s)) == Concat(runs) + [s]
  {
    hide IsRun, SessionOf;
    var next := Extended(runs, s);
    if |next| == |runs| {
      var init, run := runs[..|runs| - 1], runs[|runs| - 1];
      assert IsRun(runs[|runs| - 1]);
      LongerRun(run, s);
      ConcatSnoc(init, run + [s]);
      assert runs == init + [run];
      Associate(Concat(init), run, [s]);
      ReplaceLast(runs, run + [s]);
    } else {
      ConcatSnoc(runs, [s]);
      OneSample(s);
      AddLast(runs, [s]);
    }
  }

  lemma Associate(a: seq<Sample>, b: seq<Sample>, c: seq<Sample>)
    ensures (a + b) + c == a + (b + c)
  {
  }

  lemma OneSample(s: Sample)
    requires s.raw.Some?
    ensures IsRun([s]) && SessionOf([s]) == s.raw.value.session
  {
  }

  lemma ReplaceLast(runs: seq<seq<Sample>>, run: seq<Sample>)
    requires Maximal(runs) && runs != [] && IsRun(run) && SessionOf(run) == SessionOf(runs[|runs| - 1])
    ensures Maximal(runs[..|runs| - 1] + [run])
  {
    hide IsRun, SessionOf;
    var next := runs[..|runs| - 1] + [run];
    forall k | 0 <= k < |next| ensures IsRun(next[k]) && SessionOf(next[k]) == SessionOf(runs[k]) { assert IsRun(runs[k]); }
  }

  lemma AddLast(runs: seq<seq<Sample>>, run: seq<Sample>)
    requires Maximal(runs) && IsRun(run) && (runs != [] ==> SessionOf(run) != "" && SessionOf(run) != SessionOf(runs[|runs| - 1]))
    ensures Maximal(runs + [run])
  {
    hide IsRun, SessionOf;
    var next := runs + [run];
    forall k | 0 <= k < |next| ensures IsRun(next[k]) { if k < |runs| { assert IsRun(runs[k]); } }
  }

  lemma ConcatSnoc(runs: seq<seq<Sample>>, run: seq<Sample>)
    ensures Concat(runs + [run]) == Concat(runs) + run
  {
    assert (runs + [run])[..|runs|] == runs;
  }

  // ----- One more snapshot in a run

  lemma RunSnoc(m: State, run: seq<Sample>, s: Sample)
    ensures var (after, r) := Step(Run(m, run).0, s.raw, s.time);
            && Run(m, run + [s]) == (after, ResultsOf(m, run) + [r])
            && |ResultsOf(m, run + [s])| == |run| + 1
  {
    assert (run + [s])[..|run|] == run;
    ResultCount(m, run);
  }

  lemma {:induction false} ResultCount(m: State, run: seq<Sample>)
    ensures |Run(m, run).1| == |run|
    decreases |run|
  {
    if run != [] { ResultCount(m, run[..|run| - 1]); }
  }

  /** The tick of a snapshot, if it has frames. */
  function NewDelivery(r: MapResult, session: string, first: bool, time: int): seq<Delivery> {
    if r.skipped || r.frames == [] then [] else [Delivery(session, first, r.frames[0].index, time, r.frames)]
  }

  lemma DeliveriesSnoc(m: State, run: seq<Sample>, s: Sample)
    ensures DeliveriesOf(m, run + [s]) == DeliveriesOf(m, run) + NewDelivery(Step(Run(m, run).0, s.raw, s.time).1, SessionOf(run + [s]), DeliveriesOf(m, run) == [], s.time)
  {
    RunSnoc(m, run, s);
    ResultCount(m, run);
    assert (run + [s])[..|run|] == run;
  }

  lemma MergedSnoc(results: seq<MapResult>, r: MapResult)
    requires r.context.Some?
    ensures MergedContext(results + [r]) == Some(if MergedContext(results).None? then r.context.value else Merged(MergedContext(results).value, r.context.value))
  {
    assert (results + [r])[..|results|] == results;
  }

  lemma ContextSession(s: State, raw: Snapshot, time: int)
    ensures var c := Step(s, Some(raw), time).1.context; c.Some? ==> c.value.session == raw.session
  {
    hide SlotsOf, FirstOnly, Emitted, Ticked, SizeError, Admitted;
  }

  lemma FreshRun(m: State, run: seq<Sample>)
    requires AtStart(m)
    ensures Fresh(Run(m, run).0) == m
    decreases |run|
  {
    if run != [] {
      hide AtStart;
      FreshRun(m, run[..|run| - 1]);
      var last := run[|run| - 1];
      FreshStep(Run(m, run[..|run| - 1]).0, last.raw, last.time);
    }
  }

  lemma FreshStep(s: State, raw: Option<Snapshot>, time: int)
    ensures Fresh(Step(s, raw, time).0) == Fresh(s)
  {
    hide SlotsOf, FirstOnly, Emitted, ContextOf, SizeError, Admitted;
  }

  // ----- The loop keeps the invariant

  /** What taking a snapshot does, given the mapper's result. */
  lemma TakenMeans(p: Parse, raw: Snapshot, time: int, budget: int, refuse: nat -> bool)
    requires p.error.None?
    ensures var q := Taken(p, raw, time, budget, refuse);
            var starts := StartsMatch(p.current, raw);
            var used := if starts then 0 else p.used;
            var (mapper, r) := Step(if p.current.Some? && starts then Fresh(p.mapper) else p.mapper, Some(raw), time);
            if q.error.None? || q.error == Some(CallbackFailed) then
              && r.context.Some? && q.mapper == mapper && used + |r.frames| <= budget && q.used == used + |r.frames|
              && q.current == Some(if starts then r.context.value else Merged(p.current.value, r.context.value))
              && q.matches == (if starts then p.matches + [q.current.value] else Replaced(p.matches, q.current.value))
              && q.delivered == p.delivered + NewDelivery(r, q.current.value.session, starts || p.pending, time)
              && (q.pending <==> (r.skipped || r.frames == []) && (p.pending || starts))
            else q.matches == p.matches && q.delivered == p.delivered
  {
    hide Step, Merged, Replaced;
    var starts := StartsMatch(p.current, raw);
    var step := Step(if p.current.Some? && starts then Fresh(p.mapper) else p.mapper, Some(raw), time);
    var used := if starts then 0 else p.used;
    if step.1.context.Some? && |step.1.frames| <= budget - used {
      assert p.delivered + [] == p.delivered;
    } else {
      assert Taken(p, raw, time, budget, refuse).error.Some?;
    }
  }

  /** A snapshot that starts a match. */
  lemma StartKeeps(p: Parse, m: State, runs: seq<seq<Sample>>, raw: Snapshot, time: int, budget: int, refuse: nat -> bool)
    requires AtStart(m) && Matched(p, m, runs, budget) && Current(p, m, runs) && p.error.None? && StartsMatch(p.current, raw)
    ensures var q, s := Taken(p, raw, time, budget, refuse), Sample(Some(raw), time);
            && (q.error.None? || q.error == Some(CallbackFailed) ==> Matched(q, m, runs + [[s]], budget) && Current(q, m, runs + [[s]]))
            && (q.error.Some? && q.error != Some(CallbackFailed) ==> q.matches == p.matches && q.delivered == p.delivered)
            && Extended(runs, s) == runs + [[s]]
  {
    hide Taken, Step, Maximal, AtStart, Merged, NewDelivery, Matched, Current, MergedContext, Frames, Run, DeliveriesOf, Fresh;
    TakenMeans(p, raw, time, budget, refuse);
    CurrentId(p, m, runs, budget);
    StartsFresh(p, m, runs);
    var q, s := Taken(p, raw, time, budget, refuse), Sample(Some(raw), time);
    var r := Step(m, Some(raw), time).1;
    OneSample(s);
    MatchedMaximal(p, m, runs, budget);
    ExtendedMaximal(runs, s);
    if q.error.None? || q.error == Some(CallbackFailed) {
      FirstOfRun(m, s);
      ContextSession(m, raw, time);
      AddedMatched(p, q, m, runs, [s], budget);
      NewIsNothing(r, raw.session, true, time);
      CurrentAfter(q, m, runs, [s]);
    }
  }

  lemma MatchedMaximal(p: Parse, m: State, runs: seq<seq<Sample>>, budget: int)
    requires Matched(p, m, runs, budget)
    ensures Maximal(runs) && p.delivered == AllDeliveries(m, runs)
  {
  }

  lemma CurrentAfter(q: Parse, m: State, runs: seq<seq<Sample>>, run: seq<Sample>)
    requires q.matches != [] && q.current == Some(q.matches[|q.matches| - 1])
    requires q.mapper == Run(m, run).0 && q.used == |Frames(ResultsOf(m, run))| && (q.pending <==> DeliveriesOf(m, run) == [])
    ensures Current(q, m, runs + [run])
  {
    hide Run, Frames, DeliveriesOf;
  }

  /** The results and ticks of a run of one snapshot. */
  lemma FirstOfRun(m: State, s: Sample)
    requires s.raw.Some? && Step(m, s.raw, s.time).1.context.Some?
    ensures var (after, r) := Step(m, s.raw, s.time);
            && Run(m, [s]).0 == after && MergedContext(ResultsOf(m, [s])) == r.context && Frames(ResultsOf(m, [s])) == r.frames
            && DeliveriesOf(m, [s]) == NewDelivery(r, s.raw.value.session, true, s.time)
  {
    hide Step;
    assert [] + [s] == [s];
    RunSnoc(m, [], s);
    DeliveriesSnoc(m, [], s);
    MergedSnoc([], Step(m, s.raw, s.time).1);
    ResultsSnoc([], Step(m, s.raw, s.time).1);
  }

  /** The current match has the id of the last run. */
  lemma CurrentId(p: Parse, m: State, runs: seq<seq<Sample>>, budget: int)
    requires Matched(p, m, runs, budget) && Current(p, m, runs)
    ensures runs == [] <==> p.current.None?
    ensures runs != [] ==> p.current.value.session == SessionOf(runs[|runs| - 1]) && MatchOf(m, runs[|runs| - 1], p.current.value, budget)
    ensures runs != [] ==> p.matches != [] && p.mapper == Run(m, runs[|runs| - 1]).0 && p.used == |Frames(ResultsOf(m, runs[|runs| - 1]))|
    ensures runs != [] ==> (p.pending <==> DeliveriesOf(m, runs[|runs| - 1]) == [])
  {
    if runs != [] { assert MatchOf(m, runs[|runs| - 1], p.matches[|runs| - 1], budget); }
  }

  lemma StartsFresh(p: Parse, m: State, runs: seq<seq<Sample>>)
    requires AtStart(m) && Current(p, m, runs)
    ensures (if p.current.Some? then Fresh(p.mapper) else p.mapper) == m
  {
    if runs != [] { FreshRun(m, runs[|runs| - 1]); }
  }

  lemma AddedMatched(p: Parse, q: Parse, m: State, runs: seq<seq<Sample>>, run: seq<Sample>, budget: int)
    requires Matched(p, m, runs, budget) && Maximal(runs + [run]) && q.current.Some?
    requires q.matches == p.matches + [q.current.value] && MatchOf(m, run, q.current.value, budget)
    requires q.delivered == p.delivered + DeliveriesOf(m, run)
    ensures Matched(q, m, runs + [run], budget)
  {
    hide Maximal, MatchOf, DeliveriesOf;
    var next := runs + [run];
    assert next[..|runs|] == runs;
    forall k | 0 <= k < |next| ensures MatchOf(m, next[k], q.matches[k], budget) {
      if k < |runs| { assert MatchOf(m, runs[k], p.matches[k], budget); }
    }
  }

  /** A snapshot of the current match. */
  lemma ContinueKeeps(p: Parse, m: State, runs: seq<seq<Sample>>, raw: Snapshot, time: int, budget: int, refuse: nat -> bool)
    requires AtStart(m) && Matched(p, m, runs, budget) && Current(p, m, runs) && p.error.None? && !StartsMatch(p.current, raw)
    ensures var q, s := Taken(p, raw, time, budget, refuse), Sample(Some(raw), time);
            && (q.error.None? || q.error == Some(CallbackFailed) ==> Matched(q, m, Extended(runs, s), budget) && Current(q, m, Extended(runs, s)))
            && (q.error.Some? && q.error != Some(CallbackFailed) ==> q.matches == p.matches && q.delivered == p.delivered)
  {
    hide Taken, Step, Maximal, AtStart, Merged, NewDelivery, Matched, Current, AllDeliveries, SessionOf, DeliveriesOf, Run, MergedContext, Frames;
    TakenMeans(p, raw, time, budget, refuse);
    CurrentId(p, m, runs, budget);
    MatchedMaximal(p, m, runs, budget);
    var q, s := Taken(p, raw, time, budget, refuse), Sample(Some(raw), time);
    var run := runs[|runs| - 1];
    if q.error.None? || q.error == Some(CallbackFailed) {
      var r := Step(p.mapper, Some(raw), time).1;
      NextOfRun(m, run, s, p.current.value);
      SameSession(run, s, runs);
      ExtendedMaximal(runs, s);
      MergedSession(p.current.value, r.context.value);
      DeliveriesJoin(m, runs, run + [s], NewDelivery(r, SessionOf(run), DeliveriesOf(m, run) == [], time));
      ReplacedMatched(p, q, m, runs, run + [s], budget);
      NewIsNothing(r, SessionOf(run), DeliveriesOf(m, run) == [], time);
      CurrentAfter(q, m, runs[..|runs| - 1], run + [s]);
    }
  }

  lemma NewIsNothing(r: MapResult, session: string, first: bool, time: int)
    ensures NewDelivery(r, session, first, time) == [] <==> r.skipped || r.frames == []
  {
  }

  /** The results and ticks of a run with one more snapshot. */
  lemma NextOfRun(m: State, run: seq<Sample>, s: Sample, context: Context)
    requires MergedContext(ResultsOf(m, run)) == Some(context) && Step(Run(m, run).0, s.raw, s.time).1.context.Some?
    ensures var (after, r) := Step(Run(m, run).0, s.raw, s.time);
            && Run(m, run + [s]).0 == after
            && MergedContext(ResultsOf(m, run + [s])) == Some(Merged(context, r.context.value))
            && |Frames(ResultsOf(m, run + [s]))| == |Frames(ResultsOf(m, run))| + |r.frames|
            && DeliveriesOf(m, run + [s]) == DeliveriesOf(m, run) + NewDelivery(r, SessionOf(run + [s]), DeliveriesOf(m, run) == [], s.time)
  {
    hide Step, Merged;
    var r := Step(Run(m, run).0, s.raw, s.time).1;
    RunSnoc(m, run, s);
    DeliveriesSnoc(m, run, s);
    MergedSnoc(ResultsOf(m, run), r);
    ResultsSnoc(ResultsOf(m, run), r);
  }

  lemma ReplacedMatched(p: Parse, q: Parse, m: State, runs: seq<seq<Sample>>, run: seq<Sample>, budget: int)
    requires Matched(p, m, runs, budget) && runs != [] && q.current.Some? && q.matches == Replaced(p.matches, q.current.value)
    requires MatchOf(m, run, q.current.value, budget)
    requires Maximal(runs[..|runs| - 1] + [run]) && q.delivered == AllDeliveries(m, runs[..|runs| - 1] + [run])
    ensures Matched(q, m, runs[..|runs| - 1] + [run], budget)
  {
    hide Maximal, MatchOf, AllDeliveries;
    var next := runs[..|runs| - 1] + [run];
    forall k | 0 <= k < |next| ensures MatchOf(m, next[k], q.matches[k], budget) {
      if k < |runs| - 1 { assert MatchOf(m, runs[k], p.matches[k], budget); }
    }
  }

  lemma DeliveriesJoin(m: State, runs: seq<seq<Sample>>, longer: seq<Sample>, more: seq<Delivery>)
    requires runs != [] && DeliveriesOf(m, longer) == DeliveriesOf(m, runs[|runs| - 1]) + more
    ensures AllDeliveries(m, runs[..|runs| - 1] + [longer]) == AllDeliveries(m, runs) + more
  {
    hide DeliveriesOf;
    var next := runs[..|runs| - 1] + [longer];
    assert next[..|next| - 1] == runs[..|runs| - 1];
  }

  lemma MergedSession(a: Context, b: Context)
    ensures Merged(a, b).session == a.session
  {
  }

  lemma SameSession(run: seq<Sample>, s: Sample, runs: seq<seq<Sample>>)
    requires Maximal(runs) && runs != [] && run == runs[|runs| - 1]
    ensures SessionOf(run + [s]) == SessionOf(run)
  {
    assert IsRun(runs[|runs| - 1]);
  }

  /** The snapshots the parser maps: those with teams, up to an error. */
  ghost predicate Parsed(p: Parse, m: State, runs: seq<seq<Sample>>, budget: int) {
    Matched(p, m, runs, budget) && (p.error.None? || p.error == Some(CallbackFailed) ==> Current(p, m, runs))
  }

  /** One line: either it adds its snapshot to the runs, or nothing changes, or parsing ends with an error. */
  lemma LineKeeps(p: Parse, m: State, runs: seq<seq<Sample>>, line: Line, budget: int, refuse: nat -> bool)
    returns (next: seq<seq<Sample>>, taken: bool)
    requires AtStart(m) && Parsed(p, m, runs, budget)
    ensures Parsed(ParseLine(p, line, budget, refuse), m, next, budget)
    ensures taken ==> line.Sampled? && line.raw.teams != [] && p.error.None? && next == Extended(runs, Sample(Some(line.raw), line.time))
    ensures !taken ==> next == runs && (!line.Sampled? || line.raw.teams == [] || ParseLine(p, line, budget, refuse).error.Some?)
    ensures p.error.None? && ParseLine(p, line, budget, refuse).error == Some(CallbackFailed) ==> taken
  {
    hide Matched, Current, Taken, SizeError, Extended, AtStart;
    next, taken := runs, false;
    if p.error.None? && line.Sampled? && line.raw.teams != [] && SizeError(p.mapper.limits, line.raw.teams).None? {
      var q := Taken(p, line.raw, line.time, budget, refuse);
      assert ParseLine(p, line, budget, refuse) == q;
      if StartsMatch(p.current, line.raw) {
        StartKeeps(p, m, runs, line.raw, line.time, budget, refuse);
      } else {
        ContinueKeeps(p, m, runs, line.raw, line.time, budget, refuse);
      }
      if q.error.None? || q.error == Some(CallbackFailed) {
        next, taken := Extended(runs, Sample(Some(line.raw), line.time)), true;
      } else {
        SameMatched(p, q, m, runs, budget);
      }
    } else {
      SameMatched(p, ParseLine(p, line, budget, refuse), m, runs, budget);
      SameCurrent(p, ParseLine(p, line, budget, refuse), m, runs);
    }
  }

  lemma SameMatched(p: Parse, q: Parse, m: State, runs: seq<seq<Sample>>, budget: int)
    requires Matched(p, m, runs, budget) && q.matches == p.matches && q.delivered == p.delivered
    ensures Matched(q, m, runs, budget)
  {
  }

  lemma SameCurrent(p: Parse, q: Parse, m: State, runs: seq<seq<Sample>>)
    requires q.matches == p.matches && q.current == p.current && q.mapper == p.mapper && q.used == p.used && q.pending == p.pending
    ensures Current(p, m, runs) ==> Current(q, m, runs)
  {
  }

  // ----- Whole files

  /** The snapshots among the lines that have teams. */
  function Snapshots(lines: seq<Line>): seq<Sample> {
    if lines == [] then [] else
      var rest, last := Snapshots(lines[..|lines| - 1]), lines[|lines| - 1];
      if last.Sampled? && last.raw.teams != [] then rest + [Sample(Some(last.raw), last.time)] else rest
  }

  lemma NothingMatched(m: State, budget: int)
    requires AtStart(m)
    ensures Parsed(Opened(m), m, [], budget)
  {
  }

  /** The matches of a file are the maximal runs of one effective session id among its snapshots, where a snapshot
      without an id stays with the match before it. Each match lists the merged context of its run, and the ticks
      delivered for it are those of a fresh mapper over its run. After an error the same holds for the snapshots taken
      before it. */
  lemma {:induction false} FileIsSplit(m: State, lines: seq<Line>, budget: int, refuse: nat -> bool) returns (runs: seq<seq<Sample>>)
    requires AtStart(m)
    ensures var p := ParseLines(Opened(m), lines, budget, refuse);
            && Maximal(runs) && Concat(runs) <= Snapshots(lines) && (p.error.None? ==> Concat(runs) == Snapshots(lines))
            && Matched(p, m, runs, budget) && Parsed(p, m, runs, budget)
    decreases |lines|
  {
    hide Parsed, Matched, ParseLine, AtStart, Maximal, Extended;
    if lines == [] {
      runs := [];
      NothingMatched(m, budget);
      ParsedMatched(Opened(m), m, runs, budget);
    } else {
      var rest, line := lines[..|lines| - 1], lines[|lines| - 1];
      var before := ParseLines(Opened(m), rest, budget, refuse);
      var earlier := FileIsSplit(m, rest, budget, refuse);
      var taken: bool;
      runs, taken := LineKeeps(before, m, earlier, line, budget, refuse);
      ParsedMatched(ParseLine(before, line, budget, refuse), m, runs, budget);
      if taken { ExtendedMaximal(earlier, Sample(Some(line.raw), line.time)); }
      ErrorStays(before, line, budget, refuse);
    }
  }

  lemma ParsedMatched(p: Parse, m: State, runs: seq<seq<Sample>>, budget: int)
    requires Parsed(p, m, runs, budget)
    ensures Matched(p, m, runs, budget) && Maximal(runs)
  {
  }

  lemma ErrorStays(p: Parse, line: Line, budget: int, refuse: nat -> bool)
    ensures p.error.Some? ==> ParseLine(p, line, budget, refuse) == p
  {
  }

  // ----- What the ticks of one match look like

  /** Only the first tick of a match announces it, every tick carries the match's id, and frame indices increase. */
  ghost predicate Announced(ticks: seq<Delivery>, session: string) {
    && (forall i :: 0 <= i < |ticks| ==> ticks[i].session == session && (ticks[i].newMatch <==> i == 0) && ticks[i].frames != [])
    && (forall i, j :: 0 <= i < j < |ticks| ==> ticks[i].index < ticks[j].index)
    && (forall i, k :: 0 <= i < |ticks| && 0 <= k < |ticks[i].frames| ==> ticks[i].frames[k].index == ticks[i].index)
  }

  function FrameTotal(ticks: seq<Delivery>): nat {
    if ticks == [] then 0 else FrameTotal(ticks[..|ticks| - 1]) + |ticks[|ticks| - 1].frames|
  }

  lemma StepIndex(s: State, raw: Option<Snapshot>, time: int)
    ensures var (after, r) := Step(s, raw, time);
            && (forall k :: 0 <= k < |r.frames| ==> r.frames[k].index == s.frameIndex)
            && after.frameIndex >= s.frameIndex && (r.frames != [] ==> after.frameIndex > s.frameIndex && !r.skipped)
  {
    hide SlotsOf, FirstOnly, ContextOf, SizeError, Admitted;
    if raw.Some? {
      var kept := FirstOnly(SlotsOf(raw.value.teams));
      FirstOnlyDistinct(SlotsOf(raw.value.teams));
      var s1 := s.(first := Some(FirstSample(s, time)));
      var s0 := Rebound(s.(players := if Admitted(s, raw.value.teams).Some? then Admitted(s, raw.value.teams).value else {}, first := Some(FirstSample(s, time))), raw.value);
      var t := Ticked(s0, time);
      EmittedOnce(kept, t.0.prev, s.frameIndex, t.1);
    }
  }

  lemma {:induction false} RunAnnounces(m: State, run: seq<Sample>)
    requires AtStart(m) && (run == [] || IsRun(run))
    ensures Announced(DeliveriesOf(m, run), SessionOf(run))
    ensures FrameTotal(DeliveriesOf(m, run)) == |Frames(ResultsOf(m, run))|
    ensures forall i :: 0 <= i < |DeliveriesOf(m, run)| ==> DeliveriesOf(m, run)[i].index < Run(m, run).0.frameIndex
    decreases |run|
  {
    hide AtStart, Step, Run, MergedContext;
    if run != [] {
      hide DeliveriesOf, Announced, FrameTotal, Frames, IsRun, SessionOf;
      var rest, s := run[..|run| - 1], run[|run| - 1];
      assert run == rest + [s];
      if rest != [] { ShorterRun(run); } else { NothingAnnounced(m, SessionOf(run)); }
      RunAnnounces(m, rest);
      RunSnoc(m, rest, s);
      DeliveriesSnoc(m, rest, s);
      StepIndex(Run(m, rest).0, s.raw, s.time);
      var r := Step(Run(m, rest).0, s.raw, s.time).1;
      ResultsSnoc(ResultsOf(m, rest), r);
      AnnouncedSnoc(DeliveriesOf(m, rest), SessionOf(run), r, s.time, Run(m, rest).0.frameIndex, Run(m, run).0.frameIndex);
    } else {
      NothingAnnounced(m, SessionOf(run));
      assert Run(m, run) == (m, []) by { EmptyRun(m); }
    }
  }

  lemma EmptyRun(m: State)
    ensures Run(m, []) == (m, [])
  {
  }

  lemma NothingAnnounced(m: State, session: string)
    ensures DeliveriesOf(m, []) == [] && Announced([], session) && FrameTotal([]) == 0 && Frames([]) == []
  {
  }

  lemma AnnouncedSnoc(ticks: seq<Delivery>, session: string, r: MapResult, time: int, index: nat, after: nat)
    requires Announced(ticks, session) && after >= index && (forall i :: 0 <= i < |ticks| ==> ticks[i].index < index)
    requires (forall k :: 0 <= k < |r.frames| ==> r.frames[k].index == index) && (r.frames != [] ==> after > index && !r.skipped)
    ensures var next := ticks + NewDelivery(r, session, ticks == [], time);
            && Announced(next, session) && FrameTotal(next) == FrameTotal(ticks) + |r.frames|
            && forall i :: 0 <= i < |next| ==> next[i].index < after
  {
    if r.frames == [] {
      assert ticks + [] == ticks;
    } else {
      var d := Delivery(session, ticks == [], r.frames[0].index, time, r.frames);
      assert (ticks + [d])[..|ticks|] == ticks;
    }
  }

  lemma ShorterRun(run: seq<Sample>)
    requires IsRun(run) && |run| > 1
    ensures IsRun(run[..|run| - 1]) && SessionOf(run[..|run| - 1]) == SessionOf(run)
  {
  }

  /** For each match of a file: its first delivered tick, and no other, announces it, even after snapshots without
      frames; frame indices increase strictly; and the delivered frames stay within the budget. */
  lemma MatchesAreAnnounced(m: State, lines: seq<Line>, budget: int, refuse: nat -> bool) returns (ticks: seq<seq<Delivery>>)
    requires AtStart(m)
    ensures var p := ParseLines(Opened(m), lines, budget, refuse);
            && |ticks| == |p.matches| && p.delivered == Flatten(ticks)
            && forall k :: 0 <= k < |ticks| ==> Announced(ticks[k], p.matches[k].session) && FrameTotal(ticks[k]) <= budget
  {
    var runs := FileIsSplit(m, lines, budget, refuse);
    var p := ParseLines(Opened(m), lines, budget, refuse);
    ticks := seq(|runs|, k requires 0 <= k < |runs| => DeliveriesOf(m, runs[k]));
    FlattenAll(m, runs, ticks);
    forall k | 0 <= k < |ticks| ensures Announced(ticks[k], p.matches[k].session) && FrameTotal(ticks[k]) <= budget {
      hide Announced, DeliveriesOf, FrameTotal, Run, MergedContext, ParseLines;
      assert IsRun(runs[k]) && MatchOf(m, runs[k], p.matches[k], budget);
      RunAnnounces(m, runs[k]);
    }
  }

  function Flatten(ticks: seq<seq<Delivery>>): seq<Delivery> {
    if ticks == [] then [] else Flatten(ticks[..|ticks| - 1]) + ticks[|ticks| - 1]
  }

  lemma {:induction false} FlattenAll(m: State, runs: seq<seq<Sample>>, ticks: seq<seq<Delivery>>)
    requires |ticks| == |runs| && forall k :: 0 <= k < |runs| ==> ticks[k] == DeliveriesOf(m, runs[k])
    ensures Flatten(ticks) == AllDeliveries(m, runs)
  {
    if runs != [] { FlattenAll(m, runs[..|runs| - 1], ticks[..|ticks| - 1]); }
  }
}
