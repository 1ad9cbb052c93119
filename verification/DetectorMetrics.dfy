/** samplePredicted and metricsForSamples of cmd/desktop/calibration_gate.go: every detector's accumulators. */
module DetectorMetrics {
  import opened Events
  import opened Metrics
  import opened ClusterRanges
  import opened Wilson
  import DatasetSplits

  // ----- Labelling a sample

  predicate Matches(s: Sample, e: DetectionEvent) {
    e.detector == s.detector && e.player == s.player && End(e) >= s.frameStart && Start(e) <= s.frameEnd
  }

  /** Some event of the sample's detector and player overlaps its frames. */
  predicate Predicted(s: Sample, events: seq<DetectionEvent>) {
    exists i :: 0 <= i < |events| && Matches(s, events[i])
  }

  /** samplePredicted. */
  method SamplePredicted(s: Sample, events: seq<DetectionEvent>) returns (r: bool)
    ensures r <==> Predicted(s, events)
  {
    for i := 0 to |events|
      invariant forall j :: 0 <= j < i ==> !Matches(s, events[j])
    {
      var event := events[i];
      if event.detector != s.detector || event.player != s.player { continue; }
      var start, end := Start(event), End(event);
      if end >= s.frameStart && start <= s.frameEnd { return true; }
    }
    r := false;
  }

  function EventsOf(events: map<string, seq<DetectionEvent>>, matchId: string): seq<DetectionEvent> {
    if matchId in events then events[matchId] else []
  }

  function SplitOf(splits: map<string, string>, matchId: string): string {
    if matchId in splits then splits[matchId] else ""
  }

  /** The entry a sample becomes. */
  function Label(s: Sample, events: map<string, seq<DetectionEvent>>, splits: map<string, string>): Entry {
    var split := SplitOf(splits, s.matchId);
    Entry(s.(conflict := split == "quarantined"), Predicted(s, EventsOf(events, s.matchId)), split)
  }

  function Labelled(samples: seq<Sample>, events: map<string, seq<DetectionEvent>>, splits: map<string, string>): (log: seq<Entry>)
    ensures |log| == |samples|
    ensures forall i :: 0 <= i < |log| ==> log[i] == Label(samples[i], events, splits)
  {
    seq(|samples|, i requires 0 <= i < |samples| => Label(samples[i], events, splits))
  }

  /** The frame is one of the sample and one of the event; an event without a range covers its own frame. */
  predicate Common(s: Sample, e: DetectionEvent, f: int) {
    && s.frameStart <= f <= s.frameEnd
    && if e.rangeStart == 0 && e.rangeEnd == 0 then f == e.frameIndex else e.rangeStart <= f <= e.rangeEnd
  }

  /** For ranges that do not end before they start, overlapping means to have a frame in common. */
  lemma OverlapIsACommonFrame(s: Sample, e: DetectionEvent)
    requires s.frameStart <= s.frameEnd && Start(e) <= End(e)
    ensures Matches(s, e) <==> e.detector == s.detector && e.player == s.player && exists f :: Common(s, e, f)
  {
    var f := if Start(e) <= s.frameStart then s.frameStart else Start(e);
    assert Matches(s, e) ==> Common(s, e, f);
  }

  /** The event is one of the sample's detector and player, and neither ends before the sample nor starts behind it. */
  predicate Meets(s: Sample, e: DetectionEvent) {
    && e.detector == s.detector && e.player == s.player
    && if e.rangeStart == 0 && e.rangeEnd == 0 then s.frameStart <= e.frameIndex <= s.frameEnd
       else !(e.rangeEnd < s.frameStart) && !(e.rangeStart > s.frameEnd)
  }

  /** The entry of a sample: it is predicted exactly if some event of its match meets it, and in conflict exactly if its match is
      quarantined. */
  lemma LabelsAreThoseOfTheMatch(samples: seq<Sample>, events: map<string, seq<DetectionEvent>>, splits: map<string, string>, i: nat)
    requires i < |samples|
    ensures var s, e := samples[i], Labelled(samples, events, splits)[i];
            && e.sample == s.(conflict := s.matchId in splits && splits[s.matchId] == "quarantined")
            && (if s.matchId in splits then e.split == splits[s.matchId] else e.split == "")
            && (e.predicted <==> s.matchId in events && exists event :: event in events[s.matchId] && Meets(s, event))
  {
    var s := samples[i];
    if s.matchId in events && Predicted(s, events[s.matchId]) {
      var j :| 0 <= j < |events[s.matchId]| && Matches(s, events[s.matchId][j]);
      assert Meets(s, events[s.matchId][j]);
    }
    if event :| s.matchId in events && event in events[s.matchId] && Meets(s, event) {
      var j :| 0 <= j < |events[s.matchId]| && events[s.matchId][j] == event;
      assert Matches(s, events[s.matchId][j]);
    }
  }

  // ----- Which entries each accumulator receives

  datatype Part = Training | Validation | Holdout | Quarantined

  /** Every match that is not held out, validating or quarantined trains. */
  function PartOf(split: string): Part {
    if split == "holdout" then Holdout else if split == "validation" then Validation
    else if split == "quarantined" then Quarantined else Training
  }

  datatype Band = Ping | Capture | Quality | Legal

  function Key(b: Band, s: Sample): string {
    match b
    case Ping => s.ping
    case Capture => s.capture
    case Quality => s.quality
    case Legal => s.legal
  }

  /** The accumulators of one detector. */
  datatype Selector = Overall | InPart(part: Part) | InBand(band: Band, key: string)

  predicate Selects(sel: Selector, e: Entry) {
    match sel
    case Overall => true
    case InPart(p) => PartOf(e.split) == p
    case InBand(b, k) => Key(b, e.sample) == k
  }

  /** The entries of a detector that an accumulator receives, in order. */
  function Sublog(d: string, sel: Selector, log: seq<Entry>): seq<Entry> {
    if log == [] then [] else
      var rest, e := Sublog(d, sel, log[..|log| - 1]), log[|log| - 1];
      if e.sample.detector == d && Selects(sel, e) then rest + [e] else rest
  }

  // ----- detectorAcc

  datatype DetectorAcc = DetectorAcc(overall: Acc, training: Acc, validation: Acc, holdout: Acc,
                                     ping: map<string, Acc>, capture: map<string, Acc>, quality: map<string, Acc>, legal: map<string, Acc>)

  const EMPTY := DetectorAcc(NOTHING, NOTHING, NOTHING, NOTHING, map[], map[], map[], map[])

  function Lookup(target: map<string, Acc>, key: string): Acc {
    if key in target then target[key] else NOTHING
  }

  function BandOf(acc: DetectorAcc, b: Band): map<string, Acc> {
    match b
    case Ping => acc.ping
    case Capture => acc.capture
    case Quality => acc.quality
    case Legal => acc.legal
  }

  function Pick(acc: DetectorAcc, sel: Selector): Acc {
    match sel
    case Overall => acc.overall
    case InPart(p) => (match p case Training => acc.training case Validation => acc.validation case Holdout => acc.holdout case Quarantined => NOTHING)
    case InBand(b, k) => Lookup(BandOf(acc, b), k)
  }

  function Of(all: map<string, DetectorAcc>, d: string): DetectorAcc {
    if d in all then all[d] else EMPTY
  }

  /** acc tallies, accumulator by accumulator, exactly the entries of detector d; quarantined entries have none. */
  ghost predicate AccTallies(acc: DetectorAcc, d: string, log: seq<Entry>) {
    && (forall sel :: sel != InPart(Quarantined) ==> Tallies(Pick(acc, sel), Sublog(d, sel, log)))
    && (forall b: Band, k: string :: k in BandOf(acc, b) <==> Sublog(d, InBand(b, k), log) != [])
  }

  ghost predicate AllTally(all: map<string, DetectorAcc>, log: seq<Entry>) {
    && (forall d :: d in all <==> Sublog(d, Overall, log) != [])
    && (forall d :: AccTallies(Of(all, d), d, log))
  }

  lemma SublogSnoc(d: string, sel: Selector, log: seq<Entry>, e: Entry)
    ensures Sublog(d, sel, log + [e]) == if e.sample.detector == d && Selects(sel, e) then Sublog(d, sel, log) + [e] else Sublog(d, sel, log)
  {
    assert (log + [e])[..|log|] == log;
  }

  function AddStratum(key: string, target: map<string, Acc>, e: Entry): map<string, Acc> {
    target[key := Added(Lookup(target, key), e)]
  }

  /** What one pass of the loop does with its detector's accumulators. */
  function Absorbed(acc: DetectorAcc, e: Entry): DetectorAcc {
    var part := PartOf(e.split);
    DetectorAcc(Added(acc.overall, e),
                if part.Training? then Added(acc.training, e) else acc.training,
                if part.Validation? then Added(acc.validation, e) else acc.validation,
                if part.Holdout? then Added(acc.holdout, e) else acc.holdout,
                AddStratum(e.sample.ping, acc.ping, e), AddStratum(e.sample.capture, acc.capture, e),
                AddStratum(e.sample.quality, acc.quality, e), AddStratum(e.sample.legal, acc.legal, e))
  }

  lemma PickAbsorbed(acc: DetectorAcc, e: Entry, sel: Selector)
    requires sel != InPart(Quarantined)
    ensures Pick(Absorbed(acc, e), sel) == if Selects(sel, e) then Added(Pick(acc, sel), e) else Pick(acc, sel)
  {
    hide Added, PartOf;
  }

  lemma BandAbsorbed(acc: DetectorAcc, e: Entry, b: Band, k: string)
    ensures k in BandOf(Absorbed(acc, e), b) <==> k in BandOf(acc, b) || Key(b, e.sample) == k
  {
    hide Added, PartOf;
  }

  lemma AbsorbedTallies(acc: DetectorAcc, d: string, log: seq<Entry>, e: Entry)
    requires AccTallies(acc, d, log)
    ensures AccTallies(if e.sample.detector == d then Absorbed(acc, e) else acc, d, log + [e])
  {
    var next := if e.sample.detector == d then Absorbed(acc, e) else acc;
    forall sel | sel != InPart(Quarantined) ensures Tallies(Pick(next, sel), Sublog(d, sel, log + [e])) {
      SublogSnoc(d, sel, log, e);
      PickAbsorbed(acc, e, sel);
      assert Tallies(Pick(acc, sel), Sublog(d, sel, log));
      if e.sample.detector == d && Selects(sel, e) { AddedTallies(Pick(acc, sel), Sublog(d, sel, log), e); }
    }
    forall b: Band, k: string ensures k in BandOf(next, b) <==> Sublog(d, InBand(b, k), log + [e]) != [] {
      SublogSnoc(d, InBand(b, k), log, e);
      BandAbsorbed(acc, e, b, k);
    }
  }

  lemma AllAbsorb(all: map<string, DetectorAcc>, log: seq<Entry>, e: Entry)
    requires AllTally(all, log)
    ensures AllTally(all[e.sample.detector := Absorbed(Of(all, e.sample.detector), e)], log + [e])
  {
    var next := all[e.sample.detector := Absorbed(Of(all, e.sample.detector), e)];
    forall d ensures (d in next <==> Sublog(d, Overall, log + [e]) != []) && AccTallies(Of(next, d), d, log + [e]) {
      assert AccTallies(Of(all, d), d, log);
      SublogSnoc(d, Overall, log, e);
      AbsorbedTallies(Of(all, d), d, log, e);
    }
  }

  lemma NothingAbsorbed()
    ensures AllTally(map[], [])
  {
    forall d ensures AccTallies(EMPTY, d, []) {
      forall sel | sel != InPart(Quarantined) ensures Tallies(Pick(EMPTY, sel), Sublog(d, sel, [])) { NothingTalliesNothing(); }
    }
  }

  method Accumulate(samples: seq<Sample>, events: map<string, seq<DetectionEvent>>, splits: map<string, string>)
    returns (all: map<string, DetectorAcc>)
    ensures AllTally(all, Labelled(samples, events, splits))
  {
    ghost var log := Labelled(samples, events, splits);
    all := map[];
    NothingAbsorbed();
    for i := 0 to |samples|
      invariant AllTally(all, log[..i])
    {
      var sample := samples[i];
      var acc := if sample.detector in all then all[sample.detector] else EMPTY;
      var split := SplitOf(splits, sample.matchId);
      var predicted := SamplePredicted(sample, EventsOf(events, sample.matchId));
      sample := sample.(conflict := split == "quarantined");
      var e := Entry(sample, predicted, split);
      acc := AbsorbEntry(acc, e);
      AllAbsorb(all, log[..i], e);
      TakeSnoc(log, i);
      all := all[sample.detector := acc];
    }
    assert log[..|samples|] == log;
  }

  lemma TakeSnoc(log: seq<Entry>, i: nat)
    requires i < |log|
    ensures log[..i + 1] == log[..i] + [log[i]]
  {
  }

  /** The body of the loop, one accumulator at a time. */
  method AbsorbEntry(before: DetectorAcc, e: Entry) returns (acc: DetectorAcc)
    ensures acc == Absorbed(before, e)
  {
    acc := before.(overall := Added(before.overall, e));
    if e.split == "holdout" {
      acc := acc.(holdout := Added(acc.holdout, e));
    } else if e.split == "validation" {
      acc := acc.(validation := Added(acc.validation, e));
    } else if e.split != "quarantined" {
      acc := acc.(training := Added(acc.training, e));
    }
    acc := acc.(ping := AddStratum(e.sample.ping, acc.ping, e));
    acc := acc.(capture := AddStratum(e.sample.capture, acc.capture, e));
    acc := acc.(quality := AddStratum(e.sample.quality, acc.quality, e));
    acc := acc.(legal := AddStratum(e.sample.legal, acc.legal, e));
  }

  // ----- The report

  /** detectorCalibrationMetric, without the fields the gate fills in. */
  datatype DetectorMetric = DetectorMetric(detector: string, overall: Metric, training: Metric, validation: Metric, holdout: Metric,
                                           byPing: map<string, Metric>, byCapture: map<string, Metric>,
                                           byQuality: map<string, Metric>, byLegal: map<string, Metric>)

  /** Each band map has one report for every key that occurs. */
  ghost predicate BandReported(reports: map<string, Metric>, d: string, b: Band, log: seq<Entry>, wilson: (int, int) -> Interval) {
    && (forall k :: k in reports <==> Sublog(d, InBand(b, k), log) != [])
    && (forall k :: k in reports ==> Reports(reports[k], Sublog(d, InBand(b, k), log), wilson))
  }

  ghost predicate Reported(m: DetectorMetric, d: string, log: seq<Entry>, wilson: (int, int) -> Interval) {
    && m.detector == d
    && Reports(m.overall, Sublog(d, Overall, log), wilson)
    && Reports(m.training, Sublog(d, InPart(Training), log), wilson)
    && Reports(m.validation, Sublog(d, InPart(Validation), log), wilson)
    && Reports(m.holdout, Sublog(d, InPart(Holdout), log), wilson)
    && BandReported(m.byPing, d, Ping, log, wilson) && BandReported(m.byCapture, d, Capture, log, wilson)
    && BandReported(m.byQuality, d, Quality, log, wilson) && BandReported(m.byLegal, d, Legal, log, wilson)
  }

  method FinishOne(a: Acc, wilson: (int, int) -> Interval, ghost log: seq<Entry>) returns (m: Metric)
    requires Tallies(a, log)
    ensures Reports(m, log, wilson)
  {
    m := Finish(a, wilson);
  }

  method FinishBand(items: map<string, Acc>, wilson: (int, int) -> Interval, ghost d: string, ghost b: Band, ghost log: seq<Entry>)
    returns (out: map<string, Metric>)
    requires forall k :: k in items <==> Sublog(d, InBand(b, k), log) != []
    requires forall k :: k in items ==> Tallies(items[k], Sublog(d, InBand(b, k), log))
    ensures BandReported(out, d, b, log, wilson)
  {
    hide Reports, Tallies;
    out := map[];
    var rest := items.Keys;
    while rest != {}
      invariant rest <= items.Keys && out.Keys == items.Keys - rest
      invariant forall k :: k in out ==> Reports(out[k], Sublog(d, InBand(b, k), log), wilson)
      decreases |rest|
    {
      var k :| k in rest;
      var m := FinishOne(items[k], wilson, Sublog(d, InBand(b, k), log));
      out := out[k := m];
      rest := rest - {k};
    }
  }

  method FinishDetector(acc: DetectorAcc, d: string, wilson: (int, int) -> Interval, ghost log: seq<Entry>) returns (m: DetectorMetric)
    requires AccTallies(acc, d, log)
    ensures Reported(m, d, log, wilson)
  {
    hide Reports, Tallies, AccTallies;
    PickEach(acc, d, log);
    var overall := FinishOne(acc.overall, wilson, Sublog(d, Overall, log));
    var training := FinishOne(acc.training, wilson, Sublog(d, InPart(Training), log));
    var validation := FinishOne(acc.validation, wilson, Sublog(d, InPart(Validation), log));
    var holdout := FinishOne(acc.holdout, wilson, Sublog(d, InPart(Holdout), log));
    PickBand(acc, d, log, Ping);
    PickBand(acc, d, log, Capture);
    PickBand(acc, d, log, Quality);
    PickBand(acc, d, log, Legal);
    var ping := FinishBand(acc.ping, wilson, d, Ping, log);
    var capture := FinishBand(acc.capture, wilson, d, Capture, log);
    var quality := FinishBand(acc.quality, wilson, d, Quality, log);
    var legal := FinishBand(acc.legal, wilson, d, Legal, log);
    m := DetectorMetric(d, overall, training, validation, holdout, ping, capture, quality, legal);
  }

  lemma PickEach(acc: DetectorAcc, d: string, log: seq<Entry>)
    requires AccTallies(acc, d, log)
    ensures Tallies(acc.overall, Sublog(d, Overall, log)) && Tallies(acc.training, Sublog(d, InPart(Training), log))
    ensures Tallies(acc.validation, Sublog(d, InPart(Validation), log)) && Tallies(acc.holdout, Sublog(d, InPart(Holdout), log))
  {
    assert Tallies(Pick(acc, Overall), Sublog(d, Overall, log));
    assert Tallies(Pick(acc, InPart(Training)), Sublog(d, InPart(Training), log));
    assert Tallies(Pick(acc, InPart(Validation)), Sublog(d, InPart(Validation), log));
    assert Tallies(Pick(acc, InPart(Holdout)), Sublog(d, InPart(Holdout), log));
  }

  lemma PickBand(acc: DetectorAcc, d: string, log: seq<Entry>, b: Band)
    requires AccTallies(acc, d, log)
    ensures var items := BandOf(acc, b);
            && (forall k :: k in items <==> Sublog(d, InBand(b, k), log) != [])
            && (forall k :: k in items ==> Tallies(items[k], Sublog(d, InBand(b, k), log)))
  {
    var items := BandOf(acc, b);
    forall k | k in items ensures Tallies(items[k], Sublog(d, InBand(b, k), log)) {
      assert Tallies(Pick(acc, InBand(b, k)), Sublog(d, InBand(b, k), log));
    }
  }

  /** metricsForSamples: every detector with a sample is reported, and every report holds exactly its own entries. */
  method MetricsForSamples(samples: seq<Sample>, events: map<string, seq<DetectionEvent>>, splits: map<string, string>, wilson: (int, int) -> Interval)
    returns (out: map<string, DetectorMetric>)
    ensures var log := Labelled(samples, events, splits);
            && (forall d :: d in out <==> Sublog(d, Overall, log) != [])
            && (forall d :: d in out ==> Reported(out[d], d, log, wilson))
  {
    hide Reported, AccTallies;
    var all := Accumulate(samples, events, splits);
    ghost var log := Labelled(samples, events, splits);
    out := map[];
    var rest := all.Keys;
    while rest != {}
      invariant rest <= all.Keys && out.Keys == all.Keys - rest
      invariant forall d :: d in out ==> Reported(out[d], d, log, wilson)
      decreases |rest|
    {
      var d :| d in rest;
      assert AccTallies(Of(all, d), d, log);
      var m := FinishDetector(all[d], d, wilson, log);
      out := out[d := m];
      rest := rest - {d};
    }
  }
}
