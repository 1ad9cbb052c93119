/** The time line of a match, told from the sample times alone. */
module MapperTimes {
  import opened Common
  import opened Mapper
  import opened MapperProofs

  /** The times of the samples that were mapped. */
  function MappedTimes(samples: seq<Sample>, results: seq<MapResult>): seq<int>
    requires |samples| == |results|
  {
    if samples == [] then []
    else
      var n := |samples| - 1;
      MappedTimes(samples[..n], results[..n]) + if results[n].tick.Some? then [samples[n].time] else []
  }

  function SampleTimes(ticks: seq<Tick>): seq<int> {
    seq(|ticks|, i requires 0 <= i < |ticks| => ticks[i].sample)
  }

  /** The first tick of the epoch of tick i. */
  function EpochStart(ticks: seq<Tick>, i: nat): (f: nat)
    requires i < |ticks|
    ensures f <= i && ticks[f].epoch == ticks[i].epoch
  {
    if i == 0 || ticks[i - 1].epoch != ticks[i].epoch then i else EpochStart(ticks, i - 1)
  }

  /** Sample i in the time base of the epoch that was current before it. */
  function Measured(ticks: seq<Tick>, i: nat): int
    requires 0 < i < |ticks|
  {
    var start := ticks[EpochStart(ticks, i - 1)];
    start.timestamp + ticks[i].sample - start.sample
  }

  /** The law of every tick after the first: a step back of a second or more, in the time base of the current epoch, begins
      a new epoch at the next instant; a smaller one repeats the previous timestamp; any other sample is as far from the
      start of its epoch as it was measured. */
  ghost predicate Obeys(ticks: seq<Tick>, i: nat)
    requires 0 < i < |ticks|
  {
    var t, before, measured := ticks[i], ticks[i - 1], Measured(ticks, i);
    && (measured <= before.timestamp - 1_000_000_000 ==> !t.clamped && t.epoch == before.epoch + 1 && t.timestamp == before.timestamp + 1)
    && (before.timestamp - 1_000_000_000 < measured < before.timestamp ==> t.clamped && t.epoch == before.epoch && t.timestamp == before.timestamp)
    && (before.timestamp <= measured ==> !t.clamped && t.epoch == before.epoch && t.timestamp == measured)
  }

  ghost predicate IsTimeLine(ticks: seq<Tick>) {
    && (ticks != [] ==> ticks[0].timestamp == 0 && !ticks[0].clamped && ticks[0].epoch == 0)
    && forall i :: 0 < i < |ticks| ==> Obeys(ticks, i)
  }

  // ----- The mapper keeps the law

  /** The state's time base is that of the last tick's epoch. */
  ghost predicate Based(s: State, ticks: seq<Tick>) {
    && IsTimeLine(ticks)
    && (ticks == [] ==> s.last.None? && s.epoch == 0 && s.clockOffset == 0)
    && (ticks != [] ==>
          var last, start := ticks[|ticks| - 1], ticks[EpochStart(ticks, |ticks| - 1)];
          && s.first.Some? && s.last == Some(last.timestamp) && s.epoch == last.epoch
          && start.timestamp - start.sample == s.clockOffset - s.first.value)
  }

  lemma {:induction false} EpochStartSnoc(ticks: seq<Tick>, t: Tick, i: nat)
    requires i < |ticks|
    ensures EpochStart(ticks + [t], i) == EpochStart(ticks, i)
  {
    if i > 0 { EpochStartSnoc(ticks, t, i - 1); }
  }

  lemma TimeLineSnoc(ticks: seq<Tick>, t: Tick)
    requires IsTimeLine(ticks)
    requires ticks == [] ==> t.timestamp == 0 && !t.clamped && t.epoch == 0
    requires ticks != [] ==> Obeys(ticks + [t], |ticks|)
    ensures IsTimeLine(ticks + [t])
  {
    var longer := ticks + [t];
    forall i | 0 < i < |longer| ensures Obeys(longer, i) {
      if i < |ticks| {
        assert Obeys(ticks, i);
        EpochStartSnoc(ticks, t, i - 1);
      }
    }
  }

  lemma TickedIsBased(s: State, sample: int, ticks: seq<Tick>)
    requires Based(s, ticks) && s.first.Some? && (ticks == [] ==> s.first == Some(sample))
    ensures var (after, t) := Ticked(s, sample); Based(after, ticks + [t]) && t.sample == sample
  {
    var (after, t) := Ticked(s, sample);
    var longer := ticks + [t];
    if ticks != [] {
      EpochStartSnoc(ticks, t, |ticks| - 1);
      assert Measured(longer, |ticks|) == sample - s.first.value + s.clockOffset;
      assert Obeys(longer, |ticks|);
    }
    hide Obeys;
    TimeLineSnoc(ticks, t);
  }

  lemma StepIsBased(s: State, raw: Option<Snapshot>, sample: int, ticks: seq<Tick>)
    requires Based(s, ticks) && (s.first.None? <==> ticks == [])
    ensures var (after, r) := Step(s, raw, sample);
            && (r.tick.None? ==> Based(after, ticks) && (after.first.None? <==> ticks == []))
            && (r.tick.Some? ==> Based(after, ticks + [r.tick.value]) && after.first.Some? && r.tick.value.sample == sample)
  {
    hide SizeError, Admitted, Ticked, Emitted, ContextOf, SlotsOf, FirstOnly, IsTimeLine;
    if raw.Some? && SizeError(s.limits, raw.value.teams).None? && Admitted(s, raw.value.teams).Some? {
      var s1 := Rebound(s.(players := Admitted(s, raw.value.teams).value, first := Some(FirstSample(s, sample))), raw.value);
      TickedIsBased(s1, sample, ticks);
      TickedFirst(s1, sample);
    }
  }

  lemma TickedFirst(s: State, sample: int)
    ensures Ticked(s, sample).0.first == s.first
  {
  }

  lemma {:induction false} RunIsBased(s: State, samples: seq<Sample>)
    requires AtStart(s)
    ensures var (after, results) := Run(s, samples);
            && |results| == |samples| && Based(after, Ticks(results)) && (after.first.None? <==> Ticks(results) == [])
            && SampleTimes(Ticks(results)) == MappedTimes(samples, results)
    decreases |samples|
  {
    if samples != [] {
      hide Step, AtStart, Based;
      var last := samples[|samples| - 1];
      var (before, results) := Run(s, samples[..|samples| - 1]);
      RunIsBased(s, samples[..|samples| - 1]);
      var r := Step(before, last.raw, last.time).1;
      StepIsBased(before, last.raw, last.time, Ticks(results));
      ResultsSnoc(results, r);
      assert (results + [r])[..|results|] == results;
      assert Ticks(results) + [] == Ticks(results);
    }
  }

  // ----- The results

  /** For every sequence of samples of a match: the ticks of the mapped samples, in order, are the time line of their sample
      times, which starts at 0. */
  lemma TicksAreTheTimeLine(s: State, samples: seq<Sample>)
    requires AtStart(s)
    ensures var results := Run(s, samples).1;
            |results| == |samples| && IsTimeLine(Ticks(results)) && SampleTimes(Ticks(results)) == MappedTimes(samples, results)
  {
    RunIsBased(s, samples);
  }

  /** Sample times determine their time line. */
  lemma {:induction false} TimeLineIsUnique(a: seq<Tick>, b: seq<Tick>)
    requires IsTimeLine(a) && IsTimeLine(b) && SampleTimes(a) == SampleTimes(b)
    ensures a == b
    decreases |a|
  {
    assert |SampleTimes(a)| == |a| && |SampleTimes(b)| == |b|;
    if a != [] {
      var n := |a| - 1;
      forall i | 0 <= i <= n ensures a[i].sample == b[i].sample {
        assert SampleTimes(a)[i] == SampleTimes(b)[i];
      }
      PrefixIsTimeLine(a);
      PrefixIsTimeLine(b);
      assert SampleTimes(a[..n]) == SampleTimes(b[..n]);
      TimeLineIsUnique(a[..n], b[..n]);
      assert a == a[..n] + [a[n]] && b == b[..n] + [b[n]];
      if n > 0 {
        assert Obeys(a, n) && Obeys(b, n);
        EpochStartSnoc(a[..n], a[n], n - 1);
        EpochStartSnoc(b[..n], b[n], n - 1);
      }
    }
  }

  lemma PrefixIsTimeLine(ticks: seq<Tick>)
    requires IsTimeLine(ticks) && ticks != []
    ensures IsTimeLine(ticks[..|ticks| - 1])
  {
    var n := |ticks| - 1;
    var rest := ticks[..n];
    assert ticks == rest + [ticks[n]];
    forall i | 0 < i < n ensures Obeys(rest, i) {
      assert Obeys(ticks, i);
      EpochStartSnoc(rest, ticks[n], i - 1);
    }
  }

  /** When sample times never decrease, no tick is clamped, no epoch ends, and every timestamp is the time since the first
      mapped sample. */
  lemma OrderedSamplesKeepTheirTimes(s: State, samples: seq<Sample>, i: nat)
    requires AtStart(s) && i < |Ticks(Run(s, samples).1)|
    requires var times := SampleTimes(Ticks(Run(s, samples).1)); forall j, k :: 0 <= j < k < |times| ==> times[j] <= times[k]
    ensures var ticks := Ticks(Run(s, samples).1); ticks[i] == Tick(ticks[i].sample, ticks[i].sample - ticks[0].sample, false, 0)
  {
    var ticks := Ticks(Run(s, samples).1);
    TicksAreTheTimeLine(s, samples);
    forall j, k | 0 <= j < k < |ticks| ensures ticks[j].sample <= ticks[k].sample {
      assert SampleTimes(ticks)[j] <= SampleTimes(ticks)[k];
    }
    hide Run, AtStart;
    OrderedTimeLine(ticks, i);
  }

  lemma {:induction false} OrderedTimeLine(ticks: seq<Tick>, i: nat)
    requires IsTimeLine(ticks) && i < |ticks| && forall j, k :: 0 <= j < k < |ticks| ==> ticks[j].sample <= ticks[k].sample
    ensures ticks[i] == Tick(ticks[i].sample, ticks[i].sample - ticks[0].sample, false, 0) && EpochStart(ticks, i) == 0
  {
    if i > 0 {
      OrderedTimeLine(ticks, i - 1);
      assert Obeys(ticks, i);
    }
  }
}
