/** parseReader of internal/adapter/replay_parser.go for legacy recordings: splitting a file into matches. */
module ReplayParser {
  import opened Common
  import opened Mapper

  /** A line after decoding: skipped or rejected, with a roster that is too large to decode, or a sampled snapshot. */
  datatype Line = Ignored | Oversized | Sampled(raw: Snapshot, time: int)

  /** ParsedTick: what the callback receives. */
  datatype Delivery = Delivery(session: string, newMatch: bool, index: nat, time: int, frames: seq<Frame>)

  datatype ParseError = RosterLimit | TooManyFrames | CallbackFailed | ReadFailed | NoFrames

  /** The local state of parseReader; matches ends with the context of the current match. */
  datatype Parse = Parse(mapper: State, current: Option<Context>, matches: seq<Context>, pending: bool, used: int,
                         delivered: seq<Delivery>, error: Option<ParseError>)

  /** A snapshot without a session id stays with the current match. */
  predicate StartsMatch(current: Option<Context>, raw: Snapshot) {
    current.None? || (raw.session != "" && raw.session != current.value.session)
  }

  /** The context of the current match, which is the last one listed, has grown. */
  function Replaced(matches: seq<Context>, context: Context): seq<Context> {
    if matches == [] then [] else matches[|matches| - 1 := context]
  }

  /** One pass of the loop; the callback refuses the k-th delivery when refuse(k) holds. */
  function ParseLine(p: Parse, line: Line, budget: int, refuse: nat -> bool): Parse {
    if p.error.Some? then p
    else
      match line
      case Ignored => p
      case Oversized => p.(error := Some(RosterLimit))
      case Sampled(raw, time) =>
        if raw.teams == [] then p
        else if SizeError(p.mapper.limits, raw.teams).Some? then p.(error := Some(RosterLimit))
        else Taken(p, raw, time, budget, refuse)
  }

  /** A snapshot with teams, and not too many players. */
  function Taken(p: Parse, raw: Snapshot, time: int, budget: int, refuse: nat -> bool): Parse {
    var starts := StartsMatch(p.current, raw);
    var used := if starts then 0 else p.used;
    var (mapper, r) := Step(if p.current.Some? && starts then Fresh(p.mapper) else p.mapper, Some(raw), time);
    if r.context.None? then p.(mapper := mapper, error := Some(RosterLimit))
    else if |r.frames| > budget - used then p.(mapper := mapper, error := Some(TooManyFrames))
    else
      var context := if starts then r.context.value else Merged(p.current.value, r.context.value);
      var matches := if starts then p.matches + [context] else Replaced(p.matches, context);
      Offered(p.(mapper := mapper, current := Some(context), matches := matches, used := used + |r.frames|), r, starts, time, refuse)
  }

  /** The tick is offered to the callback, unless the snapshot has no frames. */
  function Offered(p: Parse, r: MapResult, starts: bool, time: int, refuse: nat -> bool): Parse
    requires p.current.Some?
  {
    if r.skipped || r.frames == [] then p.(pending := p.pending || starts)
    else
      p.(pending := false,
         delivered := p.delivered + [Delivery(p.current.value.session, starts || p.pending, r.frames[0].index, time, r.frames)],
         error := if refuse(|p.delivered|) then Some(CallbackFailed) else None)
  }

  function ParseLines(p: Parse, lines: seq<Line>, budget: int, refuse: nat -> bool): Parse
    decreases |lines|
  {
    if lines == [] then p else ParseLine(ParseLines(p, lines[..|lines| - 1], budget, refuse), lines[|lines| - 1], budget, refuse)
  }

  function Opened(mapper: State): Parse {
    Parse(mapper, None, [], false, 0, [], None)
  }

  function FirstMatch(matches: seq<Context>, fallback: Option<Context>): Option<Context> {
    if |matches| > 0 then Some(matches[0]) else fallback
  }

  class EchoReplayParser {
    const mapper: Mapper
    const maxNormalizedFrames: int
    var matches: seq<Context>
    /** What the callback has been called with. */
    var ticks: seq<Delivery>

    constructor (budget: int)
      ensures fresh(mapper) && AtRest() && mapper.limits == ENFORCED && maxNormalizedFrames == budget
    {
      mapper := new Mapper();
      maxNormalizedFrames := budget;
      matches, ticks := [], [];
      new;
      mapper.EnforceRosterLimits();
    }

    predicate AtRest()
      reads this, mapper
    {
      mapper.Value() == Fresh(mapper.Value()) && matches == [] && ticks == []
    }

    function Local(current: Option<Context>, pending: bool, used: int, error: Option<ParseError>): Parse
      reads this, mapper
    {
      Parse(mapper.Value(), current, matches, pending, used, ticks, error)
    }

    /** What a new file resets. */
    method StartFile()
      modifies this, mapper
      ensures AtRest() && mapper.Value() == Fresh(old(mapper.Value()))
    {
      matches, ticks := [], [];
      mapper.NewMatch();
    }

    method ParseReader(lines: seq<Line>, readFails: bool, refuse: nat -> bool) returns (first: Option<Context>, error: Option<ParseError>)
      requires AtRest()
      modifies this, mapper
      ensures var p := ParseLines(Opened(old(mapper.Value())), lines, maxNormalizedFrames, refuse);
              && matches == p.matches && ticks == p.delivered
              && error == (if p.error.Some? then p.error else if readFails then Some(ReadFailed)
                           else if p.current.None? then Some(NoFrames) else None)
              && first == (if p.error.None? && (readFails || p.current.None?) then p.current else FirstMatch(p.matches, p.current))
    {
      hide ParseLine;
      ghost var start := Opened(mapper.Value());
      var matchCtx: Option<Context>, pendingNewMatch, matchFrames := None, false, 0;
      error := None;
      for i := 0 to |lines|
        invariant Local(matchCtx, pendingNewMatch, matchFrames, error) == ParseLines(start, lines[..i], maxNormalizedFrames, refuse)
        invariant error.None?
      {
        assert lines[..i + 1][..i] == lines[..i];
        matchCtx, pendingNewMatch, matchFrames, error := ParseOne(lines[i], matchCtx, pendingNewMatch, matchFrames, refuse);
        if error.Some? {
          first := FirstMatch(matches, matchCtx);
          RestIgnored(start, lines, i + 1, maxNormalizedFrames, refuse);
          return;
        }
      }
      assert lines[..|lines|] == lines;
      if readFails { return matchCtx, Some(ReadFailed); }
      if matchCtx.None? { return None, Some(NoFrames); }
      first := FirstMatch(matches, matchCtx);
    }

    method ParseOne(line: Line, matchCtx: Option<Context>, pendingNewMatch: bool, matchFrames: int, refuse: nat -> bool)
      returns (current: Option<Context>, pending: bool, used: int, error: Option<ParseError>)
      modifies this, mapper
      ensures Local(current, pending, used, error) == ParseLine(old(Local(matchCtx, pendingNewMatch, matchFrames, None)), line, maxNormalizedFrames, refuse)
    {
      hide Taken;
      current, pending, used, error := matchCtx, pendingNewMatch, matchFrames, None;
      if line.Ignored? { return; }
      if line.Oversized? {
        error := Some(RosterLimit);
        return;
      }
      if |line.raw.teams| == 0 { return; }
      var size := mapper.SnapshotSizeError(line.raw.teams);
      if size.Some? {
        error := Some(RosterLimit);
        return;
      }
      current, pending, used, error := TakeSnapshot(line.raw, line.time, matchCtx, pendingNewMatch, matchFrames, refuse);
    }

    method TakeSnapshot(raw: Snapshot, time: int, matchCtx: Option<Context>, pendingNewMatch: bool, matchFrames: int, refuse: nat -> bool)
      returns (current: Option<Context>, pending: bool, used: int, error: Option<ParseError>)
      modifies this, mapper
      ensures Local(current, pending, used, error) == Taken(old(Local(matchCtx, pendingNewMatch, matchFrames, None)), raw, time, maxNormalizedFrames, refuse)
    {
      hide Step, Merged;
      current, pending, used, error := matchCtx, pendingNewMatch, matchFrames, None;
      var newMatch := matchCtx.None?;
      if matchCtx.Some? && raw.session != "" && raw.session != matchCtx.value.session {
        mapper.NewMatch();
        newMatch := true;
      }
      var matchUsed := if newMatch then 0 else matchFrames;
      var result := mapper.MapSessionAt(Some(raw), time);
      if result.context.None? {
        error := Some(RosterLimit);
        return;
      }
      if |result.frames| > maxNormalizedFrames - matchUsed {
        error := Some(TooManyFrames);
        return;
      }
      used := matchUsed + |result.frames|;
      var context := result.context.value;
      if newMatch {
        matches := matches + [context];
      } else {
        context := MergeMatchContext(matchCtx.value, context);
        matches := Replaced(matches, context);
      }
      current := Some(context);
      if result.skipped || |result.frames| == 0 {
        pending := pendingNewMatch || newMatch;
        return;
      }
      var tick := Delivery(context.session, newMatch || pendingNewMatch, result.frames[0].index, time, result.frames);
      pending := false;
      error := if refuse(|ticks|) then Some(CallbackFailed) else None;
      ticks := ticks + [tick];
    }
  }

  /** Once parsing failed, the remaining lines change nothing. */
  lemma {:induction false} RestIgnored(p: Parse, lines: seq<Line>, i: nat, budget: int, refuse: nat -> bool)
    requires i <= |lines| && ParseLines(p, lines[..i], budget, refuse).error.Some?
    ensures ParseLines(p, lines, budget, refuse) == ParseLines(p, lines[..i], budget, refuse)
    decreases |lines|
  {
    if i == |lines| {
      assert lines[..i] == lines;
    } else {
      var rest := lines[..|lines| - 1];
      assert rest[..i] == lines[..i];
      RestIgnored(p, rest, i, budget, refuse);
    }
  }
}
