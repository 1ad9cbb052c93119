/** When parsing a legacy recording fails, with which error, and what has been delivered and listed by then. */
module ReplayParserErrors {
  import opened Common
  import opened Mapper
  import opened MapperProofs
  import opened ReplayParser
  import opened ReplayParserProofs

  // ----- The only way to cut snapshots into matches

  function Split(samples: seq<Sample>): seq<seq<Sample>>
    decreases |samples|
  {
    if samples == [] then [] else Extended(Split(samples[..|samples| - 1]), samples[|samples| - 1])
  }

  lemma SplitSnoc(samples: seq<Sample>, s: Sample)
    ensures Split(samples + [s]) == Extended(Split(samples), s)
  {
    assert (samples + [s])[..|samples|] == samples;
  }

  /** Any cut into maximal runs of one effective session id is this one. */
  lemma {:induction false} SplitIsUnique(runs: seq<seq<Sample>>)
    requires Maximal(runs)
    ensures Split(Concat(runs)) == runs
    decreases |Concat(runs)|, |runs|
  {
    hide SessionOf;
    if runs != [] {
      var init, run := runs[..|runs| - 1], runs[|runs| - 1];
      assert IsRun(run);
      var n := |run| - 1;
      assert runs == init + [run] && run == run[..n] + [run[n]];
      ConcatSnoc(init, run);
      Associate(Concat(init), run[..n], [run[n]]);
      if n == 0 {
        assert run[..0] == [] && Concat(init) + [] == Concat(init);
        InitMaximal(runs);
        SplitIsUnique(init);
        SplitSnoc(Concat(init), run[0]);
        OneSample(run[0]);
        assert run == [run[0]];
      } else {
        var shorter := init + [run[..n]];
        ShorterRun(run);
        ReplaceLast(runs, run[..n]);
        ConcatSnoc(init, run[..n]);
        SplitIsUnique(shorter);
        SplitSnoc(Concat(shorter), run[n]);
        assert shorter[..|shorter| - 1] == init && run[n].raw.value.session in {"", SessionOf(run)};
      }
    }
  }

  lemma InitMaximal(runs: seq<seq<Sample>>)
    requires Maximal(runs) && runs != []
    ensures Maximal(runs[..|runs| - 1])
    ensures |runs| > 1 ==> SessionOf(runs[|runs| - 1]) != "" && SessionOf(runs[|runs| - 1]) != SessionOf(runs[|runs| - 2])
  {
    hide IsRun, SessionOf;
    var init := runs[..|runs| - 1];
    forall k | 0 <= k < |init| ensures IsRun(init[k]) { assert init[k] == runs[k]; }
  }

  // ----- What is wrong with a line

  /** The error of a line behind lines without one, whose snapshots are cut into these matches: the recording is refused when
      the mapper refuses the snapshot, when the match the snapshot belongs to then has more frames than the budget, and
      when the callback refuses its tick. */
  function FaultOf(m: State, runs: seq<seq<Sample>>, line: Line, budget: int, refuse: nat -> bool): Option<ParseError> {
    match line
    case Ignored => None
    case Oversized => Some(RosterLimit)
    case Sampled(raw, time) =>
      if raw.teams == [] then None
      else
        var next := Extended(runs, Sample(Some(raw), time));
        var results := ResultsOf(m, next[|next| - 1]);
        if LastResult(results).limit.Some? then Some(RosterLimit)
        else if |Frames(results)| > budget then Some(TooManyFrames)
        else if LastResult(results).frames != [] && refuse(|AllDeliveries(m, runs)|) then Some(CallbackFailed)
        else None
  }

  /** The error of the i-th line, if the lines before it have none. */
  function FaultAt(m: State, lines: seq<Line>, i: nat, budget: int, refuse: nat -> bool): Option<ParseError>
    requires i < |lines|
  {
    FaultOf(m, Split(Snapshots(lines[..i])), lines[i], budget, refuse)
  }

  ghost predicate Faultless(m: State, lines: seq<Line>, n: nat, budget: int, refuse: nat -> bool)
    requires n <= |lines|
  {
    forall i :: 0 <= i < n ==> FaultAt(m, lines, i, budget, refuse).None?
  }

  lemma StepLimit(s: State, raw: Snapshot, time: int)
    ensures var r := Step(s, Some(raw), time).1;
            && (r.limit.Some? <==> r.context.None?) && (SizeError(s.limits, raw.teams).Some? ==> r.limit.Some?)
            && (r.skipped ==> r.frames == [])
  {
    hide SlotsOf, FirstOnly, Emitted, Ticked, SizeError, Admitted, ContextOf;
  }

  /** The error of taking a snapshot, and what it leaves alone. */
  lemma TakenError(p: Parse, raw: Snapshot, time: int, budget: int, refuse: nat -> bool)
    requires p.error.None?
    ensures var q := Taken(p, raw, time, budget, refuse);
            var starts := StartsMatch(p.current, raw);
            var used := if starts then 0 else p.used;
            var r := Step(if p.current.Some? && starts then Fresh(p.mapper) else p.mapper, Some(raw), time).1;
            && q.error == (if r.limit.Some? then Some(RosterLimit) else if used + |r.frames| > budget then Some(TooManyFrames)
                           else if r.frames != [] && refuse(|p.delivered|) then Some(CallbackFailed) else None)
            && (q.error.Some? && q.error != Some(CallbackFailed) ==> q.current == p.current)
  {
    hide Step, Merged, Replaced;
    var starts := StartsMatch(p.current, raw);
    StepLimit(if p.current.Some? && starts then Fresh(p.mapper) else p.mapper, raw, time);
  }

  /** A run with one more snapshot. */
  lemma LongerResults(m: State, run: seq<Sample>, s: Sample)
    ensures var r, results := Step(Run(m, run).0, s.raw, s.time).1, ResultsOf(m, run + [s]);
            LastResult(results) == r && |Frames(results)| == |Frames(ResultsOf(m, run))| + |r.frames|
  {
    hide Step, Frames, Run;
    ReplayParserProofs.RunSnoc(m, run, s);
    ResultsSnoc(ResultsOf(m, run), Step(Run(m, run).0, s.raw, s.time).1);
  }

  /** The last match with one more snapshot. */
  lemma LastRun(p: Parse, m: State, runs: seq<seq<Sample>>, raw: Snapshot, time: int, budget: int)
    requires AtStart(m) && Matched(p, m, runs, budget) && Current(p, m, runs)
    ensures var s := Sample(Some(raw), time);
            var next := Extended(runs, s);
            var results := ResultsOf(m, next[|next| - 1]);
            var starts := StartsMatch(p.current, raw);
            var r := Step(if p.current.Some? && starts then Fresh(p.mapper) else p.mapper, Some(raw), time).1;
            LastResult(results) == r && |Frames(results)| == (if starts then 0 else p.used) + |r.frames|
  {
    hide Step, Matched, Maximal, AtStart, SessionOf, Run, Frames, DeliveriesOf, MergedContext, Fresh, LastResult, ResultsOf;
    var s := Sample(Some(raw), time);
    CurrentId(p, m, runs, budget);
    StartsFresh(p, m, runs);
    hide Current;
    if StartsMatch(p.current, raw) {
      assert Extended(runs, s) == runs + [[s]];
      hide Extended;
      assert [] + [s] == [s];
      LongerResults(m, [], s);
      NoFrames(m);
    } else {
      var run := runs[|runs| - 1];
      assert Extended(runs, s) == runs[..|runs| - 1] + [run + [s]];
      hide Extended;
      LongerResults(m, run, s);
    }
  }

  lemma NoFrames(m: State)
    ensures Run(m, []).0 == m && Frames(ResultsOf(m, [])) == []
  {
  }

  lemma LineFault(p: Parse, m: State, runs: seq<seq<Sample>>, line: Line, budget: int, refuse: nat -> bool)
    requires AtStart(m) && Parsed(p, m, runs, budget) && p.error.None?
    ensures ParseLine(p, line, budget, refuse).error == FaultOf(m, runs, line, budget, refuse)
    ensures FaultOf(m, runs, line, budget, refuse) in {Some(RosterLimit), Some(TooManyFrames)} ==>
              ParseLine(p, line, budget, refuse).current == p.current
  {
    hide Matched, Current, AtStart, Taken, Step, SizeError, Frames, Run, Extended;
    if line.Sampled? && line.raw.teams != [] {
      MatchedMaximal(p, m, runs, budget);
      TakenError(p, line.raw, line.time, budget, refuse);
      LastRun(p, m, runs, line.raw, line.time, budget);
      StepLimit(if p.current.Some? && StartsMatch(p.current, line.raw) then Fresh(p.mapper) else p.mapper, line.raw, line.time);
    }
  }

  // ----- Whole files

  /** How many lines have taken effect: all of them, or those before the first faulty one and, if the callback refused
      its tick, that one as well. */
  ghost predicate Effective(m: State, lines: seq<Line>, n: nat, budget: int, refuse: nat -> bool)
    requires n <= |lines|
  {
    if n == |lines| && Faultless(m, lines, n, budget, refuse) then true
    else if n < |lines| && Faultless(m, lines, n, budget, refuse)
    then FaultAt(m, lines, n, budget, refuse) in {Some(RosterLimit), Some(TooManyFrames)}
    else n > 0 && Faultless(m, lines, n - 1, budget, refuse) && FaultAt(m, lines, n - 1, budget, refuse) == Some(CallbackFailed)
  }

  lemma SomeLinesTakeEffect(m: State, lines: seq<Line>, budget: int, refuse: nat -> bool) returns (n: nat)
    ensures n <= |lines| && Effective(m, lines, n, budget, refuse)
  {
    n := 0;
    while n < |lines| && FaultAt(m, lines, n, budget, refuse).None?
      invariant n <= |lines| && Faultless(m, lines, n, budget, refuse)
    {
      n := n + 1;
    }
    if n < |lines| && FaultAt(m, lines, n, budget, refuse) == Some(CallbackFailed) { n := n + 1; }
  }

  /** Parsing fails exactly on a file with a faulty line, and with the error of the first one. */
  lemma {:induction false} FailsExactlyWhen(m: State, lines: seq<Line>, budget: int, refuse: nat -> bool)
    requires AtStart(m)
    ensures var p := ParseLines(Opened(m), lines, budget, refuse);
            && (p.error.None? <==> Faultless(m, lines, |lines|, budget, refuse))
            && forall i :: 0 <= i < |lines| && Faultless(m, lines, i, budget, refuse) && FaultAt(m, lines, i, budget, refuse).Some? ==>
                 p.error == FaultAt(m, lines, i, budget, refuse)
    decreases |lines|
  {
    hide AtStart, FaultOf, FaultAt, ParseLine;
    if lines != [] {
      var n := |lines| - 1;
      FailsExactlyWhen(m, lines[..n], budget, refuse);
      EarlierFaults(m, lines, n, budget, refuse);
      FaultOfLast(m, lines, budget, refuse);
      ErrorStays(ParseLines(Opened(m), lines[..n], budget, refuse), lines[n], budget, refuse);
    }
  }

  lemma EarlierFaults(m: State, lines: seq<Line>, n: nat, budget: int, refuse: nat -> bool)
    requires n <= |lines|
    ensures forall i :: 0 <= i < n ==> FaultAt(m, lines[..n], i, budget, refuse) == FaultAt(m, lines, i, budget, refuse)
    ensures forall k :: 0 <= k <= n ==> (Faultless(m, lines[..n], k, budget, refuse) <==> Faultless(m, lines, k, budget, refuse))
  {
    hide FaultOf;
    forall i | 0 <= i < n ensures FaultAt(m, lines[..n], i, budget, refuse) == FaultAt(m, lines, i, budget, refuse) {
      assert lines[..n][..i] == lines[..i];
    }
    hide FaultAt;
    forall k | 0 <= k <= n ensures Faultless(m, lines[..n], k, budget, refuse) <==> Faultless(m, lines, k, budget, refuse) {}
  }

  /** The last line, when those before it have no error. */
  lemma FaultOfLast(m: State, lines: seq<Line>, budget: int, refuse: nat -> bool)
    requires AtStart(m) && lines != []
    ensures var n := |lines| - 1;
            var before := ParseLines(Opened(m), lines[..n], budget, refuse);
            before.error.None? ==>
              && ParseLines(Opened(m), lines, budget, refuse).error == FaultAt(m, lines, n, budget, refuse)
              && (FaultAt(m, lines, n, budget, refuse) in {Some(RosterLimit), Some(TooManyFrames)} ==>
                    ParseLines(Opened(m), lines, budget, refuse).current == before.current)
  {
    hide AtStart, FaultOf, ParseLine, Parsed, Matched, Maximal;
    var n := |lines| - 1;
    var before := ParseLines(Opened(m), lines[..n], budget, refuse);
    var runs := FileIsSplit(m, lines[..n], budget, refuse);
    if before.error.None? {
      SplitIsUnique(runs);
      LineFault(before, m, runs, lines[n], budget, refuse);
    }
  }

  /** Without an error every snapshot with teams has been taken. */
  lemma CleanParse(m: State, lines: seq<Line>, budget: int, refuse: nat -> bool)
    requires AtStart(m) && ParseLines(Opened(m), lines, budget, refuse).error.None?
    ensures Parsed(ParseLines(Opened(m), lines, budget, refuse), m, Split(Snapshots(lines)), budget)
  {
    hide AtStart, ParseLines, Parsed, Matched, Maximal;
    var runs := FileIsSplit(m, lines, budget, refuse);
    SplitIsUnique(runs);
  }

  /** The parse in terms of these matches. */
  ghost predicate Holds(p: Parse, m: State, runs: seq<seq<Sample>>, budget: int) {
    && Matched(p, m, runs, budget)
    && FirstMatch(p.matches, p.current) == (if runs == [] then None else MergedContext(ResultsOf(m, runs[0])))
    && p.current == (if runs == [] then None else MergedContext(ResultsOf(m, runs[|runs| - 1])))
  }

  lemma ParsedHolds(p: Parse, m: State, runs: seq<seq<Sample>>, budget: int)
    requires Parsed(p, m, runs, budget) && (p.error.None? || p.error == Some(CallbackFailed))
    ensures Holds(p, m, runs, budget)
  {
    hide Maximal, AllDeliveries, Run, MergedContext, Frames, DeliveriesOf;
    if runs != [] {
      assert MatchOf(m, runs[0], p.matches[0], budget);
      assert MatchOf(m, runs[|runs| - 1], p.matches[|runs| - 1], budget);
    }
  }

  lemma SameHolds(p: Parse, q: Parse, m: State, runs: seq<seq<Sample>>, budget: int)
    requires Holds(p, m, runs, budget) && q.matches == p.matches && q.delivered == p.delivered && q.current == p.current
    ensures Holds(q, m, runs, budget)
  {
    SameMatched(p, q, m, runs, budget);
  }

  lemma RefusedLine(p: Parse, line: Line, budget: int, refuse: nat -> bool)
    requires p.error.None? && ParseLine(p, line, budget, refuse).error in {Some(RosterLimit), Some(TooManyFrames)}
    ensures var q := ParseLine(p, line, budget, refuse); q.matches == p.matches && q.delivered == p.delivered
  {
    hide Step, Merged, Replaced;
    if line.Sampled? && line.raw.teams != [] { TakenMeans(p, line.raw, line.time, budget, refuse); }
  }

  lemma SnapshotsSnoc(lines: seq<Line>, line: Line)
    requires line.Sampled? && line.raw.teams != []
    ensures Snapshots(lines + [line]) == Snapshots(lines) + [Sample(Some(line.raw), line.time)]
  {
    assert (lines + [line])[..|lines|] == lines;
  }

  /** One more line, which the callback refuses. */
  lemma CallbackRefuses(m: State, lines: seq<Line>, line: Line, budget: int, refuse: nat -> bool)
    requires AtStart(m) && ParseLines(Opened(m), lines, budget, refuse).error.None?
    requires ParseLines(Opened(m), lines + [line], budget, refuse).error == Some(CallbackFailed)
    ensures Holds(ParseLines(Opened(m), lines + [line], budget, refuse), m, Split(Snapshots(lines + [line])), budget)
  {
    hide AtStart, ParseLine, Parsed, Split, Snapshots, Holds;
    assert (lines + [line])[..|lines|] == lines;
    var p := ParseLines(Opened(m), lines, budget, refuse);
    CleanParse(m, lines, budget, refuse);
    var next, taken := LineKeeps(p, m, Split(Snapshots(lines)), line, budget, refuse);
    SnapshotsSnoc(lines, line);
    SplitSnoc(Snapshots(lines), Sample(Some(line.raw), line.time));
    ParsedHolds(ParseLine(p, line, budget, refuse), m, next, budget);
  }

  /** The matches listed and the ticks delivered are those of the lines that took effect. The context returned is the one of the
      first match, merged over all its snapshots; only when the reader fails it is the last one instead. */
  lemma EffectIsThatOfItsLines(m: State, lines: seq<Line>, n: nat, budget: int, refuse: nat -> bool)
    requires AtStart(m) && n <= |lines| && Effective(m, lines, n, budget, refuse)
    ensures var p, runs := ParseLines(Opened(m), lines, budget, refuse), Split(Snapshots(lines[..n]));
            && Matched(p, m, runs, budget)
            && FirstMatch(p.matches, p.current) == (if runs == [] then None else MergedContext(ResultsOf(m, runs[0])))
            && p.current == (if runs == [] then None else MergedContext(ResultsOf(m, runs[|runs| - 1])))
  {
    hide AtStart, FaultAt, ParseLine, Parsed, Matched, Snapshots, Split, Faultless, ParseLines;
    if Faultless(m, lines, n, budget, refuse) {
      EarlierFaults(m, lines, n, budget, refuse);
      FailsExactlyWhen(m, lines[..n], budget, refuse);
      CleanParse(m, lines[..n], budget, refuse);
      var p := ParseLines(Opened(m), lines[..n], budget, refuse);
      ParsedHolds(p, m, Split(Snapshots(lines[..n])), budget);
      if n < |lines| {
        StopsAtFault(m, lines, n, budget, refuse);
        SameHolds(p, ParseLines(Opened(m), lines, budget, refuse), m, Split(Snapshots(lines[..n])), budget);
      } else {
        assert lines[..n] == lines;
      }
    } else {
      EarlierFaults(m, lines, n - 1, budget, refuse);
      FailsExactlyWhen(m, lines[..n - 1], budget, refuse);
      FaultOfNext(m, lines, n - 1, budget, refuse);
      assert lines[..n] == lines[..n - 1] + [lines[n - 1]];
      CallbackRefuses(m, lines[..n - 1], lines[n - 1], budget, refuse);
      RestIgnored(Opened(m), lines, n, budget, refuse);
    }
  }

  lemma FaultOfNext(m: State, lines: seq<Line>, n: nat, budget: int, refuse: nat -> bool)
    requires AtStart(m) && n < |lines| && ParseLines(Opened(m), lines[..n], budget, refuse).error.None?
    ensures ParseLines(Opened(m), lines[..n + 1], budget, refuse).error == FaultAt(m, lines, n, budget, refuse)
    ensures FaultAt(m, lines, n, budget, refuse) in {Some(RosterLimit), Some(TooManyFrames)} ==>
              ParseLines(Opened(m), lines[..n + 1], budget, refuse).current == ParseLines(Opened(m), lines[..n], budget, refuse).current
  {
    hide AtStart, FaultOf, ParseLines;
    assert lines[..n + 1][..n] == lines[..n];
    FaultOfLast(m, lines[..n + 1], budget, refuse);
  }

  /** A refused line, and everything behind it, changes nothing. */
  lemma StopsAtFault(m: State, lines: seq<Line>, n: nat, budget: int, refuse: nat -> bool)
    requires AtStart(m) && n < |lines| && ParseLines(Opened(m), lines[..n], budget, refuse).error.None?
    requires FaultAt(m, lines, n, budget, refuse) in {Some(RosterLimit), Some(TooManyFrames)}
    ensures var p, q := ParseLines(Opened(m), lines[..n], budget, refuse), ParseLines(Opened(m), lines, budget, refuse);
            q.matches == p.matches && q.delivered == p.delivered && q.current == p.current
  {
    hide AtStart, FaultAt, ParseLine;
    FaultOfNext(m, lines, n, budget, refuse);
    assert lines[..n + 1][..n] == lines[..n];
    RefusedLine(ParseLines(Opened(m), lines[..n], budget, refuse), lines[n], budget, refuse);
    RestIgnored(Opened(m), lines, n + 1, budget, refuse);
  }

  // ----- Which context is returned

  /** What ParseReader returns. */
  function Returned(p: Parse, readFails: bool): Option<Context> {
    if p.error.None? && (readFails || p.current.None?) then p.current else FirstMatch(p.matches, p.current)
  }

  /** The context returned is documented to be the first match's. It is the one of the last match exactly when the reader failed
      before anything else did. */
  lemma ReturnedMatch(m: State, lines: seq<Line>, budget: int, refuse: nat -> bool, readFails: bool)
    requires AtStart(m)
    ensures var p := ParseLines(Opened(m), lines, budget, refuse);
            var broken := readFails && Faultless(m, lines, |lines|, budget, refuse);
            && (p.matches == [] ==> Returned(p, readFails).None?)
            && (p.matches != [] ==> Returned(p, readFails) == Some(p.matches[if broken then |p.matches| - 1 else 0]))
            && (p.matches != [] && p.matches[0] != p.matches[|p.matches| - 1] ==>
                  (Returned(p, readFails) == Some(p.matches[0]) <==> !broken))
  {
    var p := ParseLines(Opened(m), lines, budget, refuse);
    hide AtStart, ParseLines, Faultless, Effective, Split, Snapshots, Run, Frames, AllDeliveries, Maximal, MergedContext;
    FailsExactlyWhen(m, lines, budget, refuse);
    var n := SomeLinesTakeEffect(m, lines, budget, refuse);
    EffectIsThatOfItsLines(m, lines, n, budget, refuse);
    var runs := Split(Snapshots(lines[..n]));
    if runs != [] {
      assert MatchOf(m, runs[0], p.matches[0], budget);
      assert MatchOf(m, runs[|runs| - 1], p.matches[|runs| - 1], budget);
    }
  }

  /** A snapshot of a lobby without players. */
  function Lobby(session: string): Snapshot {
    Snapshot(session, "", [Team(None, [])], 0)
  }

  lemma LobbyIsMapped(s: State, session: string, time: int)
    ensures var r := Step(s, Some(Lobby(session)), time).1;
            AtStart(s) ==> r.context.Some? && r.context.value.session == session && r.frames == []
    ensures SizeError(s.limits, Lobby(session).teams).None?
  {
    assert Lobby(session).teams[..0] == [];
    assert SlotsOf(Lobby(session).teams) == [] + [] && CountEntries(Lobby(session).teams) == 0;
  }

  /** A lobby that starts a match. */
  lemma LobbyStarts(p: Parse, m: State, session: string, time: int, budget: nat, refuse: nat -> bool)
    requires AtStart(m) && p.error.None? && (p.current.None? ==> p.mapper == m) && Fresh(p.mapper) == m
    requires p.current.None? || (session != "" && session != p.current.value.session)
    ensures var q := ParseLine(p, Sampled(Lobby(session), time), budget, refuse);
            && q.error.None? && q.current.Some? && q.current.value.session == session && q.matches == p.matches + [q.current.value]
            && Fresh(q.mapper) == m
  {
    LobbyIsMapped(m, session, time);
    LobbyIsMapped(p.mapper, session, time);
    FreshStep(m, Some(Lobby(session)), time);
    hide Step, SizeError;
  }

  lemma TwoLines(p: Parse, x: Line, y: Line, budget: int, refuse: nat -> bool)
    ensures ParseLines(p, [x, y], budget, refuse) == ParseLine(ParseLine(p, x, budget, refuse), y, budget, refuse)
  {
    hide ParseLine;
    assert [x, y][..1] == [x] && [x][..0] == [];
    assert ParseLines(p, [], budget, refuse) == p;
    assert ParseLines(p, [x], budget, refuse) == ParseLine(p, x, budget, refuse);
  }

  /** Two matches and then a read error: the second match is returned. */
  lemma ReadErrorReturnsTheLast(m: State, a: string, b: string, budget: nat, refuse: nat -> bool)
    requires AtStart(m) && a != b && b != ""
    ensures var p := ParseLines(Opened(m), [Sampled(Lobby(a), 0), Sampled(Lobby(b), 1)], budget, refuse);
            && p.error.None? && |p.matches| == 2 && p.matches[0].session == a && p.matches[1].session == b
            && Returned(p, true) == Some(p.matches[1]) && Returned(p, false) == Some(p.matches[0])
  {
    hide ParseLine, Fresh;
    var first, second := Sampled(Lobby(a), 0), Sampled(Lobby(b), 1);
    TwoLines(Opened(m), first, second, budget, refuse);
    LobbyStarts(Opened(m), m, a, 0, budget, refuse);
    LobbyStarts(ParseLine(Opened(m), first, budget, refuse), m, b, 1, budget, refuse);
  }
}
