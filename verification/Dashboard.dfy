/** The detectors of buildCalibrationDashboard in cmd/desktop/calibration_gate.go: from the samples to the decision. */
module Dashboard {
  import opened Common
  import opened Events
  import opened Metrics
  import opened ClusterRanges
  import opened DetectorMetrics
  import opened PromotionGate
  import opened PromotionProofs
  import opened Wilson

  /** A detector's report with what the gate filled in. */
  datatype Gated = Gated(metric: DetectorMetric, eligible: bool, reasons: seq<Reason>)

  /** The zero value of a report. */
  const NO_DESCRIPTION := Description(0, 0, 0, 0.0, None, None, None, None)
  const NO_REPORT := Metric(NO_COUNTS, 0, 0, 0.0, 0.0, 0.0, Interval(0.0, 0.0), Interval(0.0, 0.0), Interval(0.0, 0.0), NO_DESCRIPTION)

  function Unmeasured(d: string): DetectorMetric {
    DetectorMetric(d, NO_REPORT, NO_REPORT, NO_REPORT, NO_REPORT, map[], map[], map[], map[])
  }

  /** A detector with samples carries its own report, one without samples the zero report. */
  ghost predicate Measured(m: DetectorMetric, d: string, log: seq<Entry>, wilson: (int, int) -> Interval) {
    if Sublog(d, Overall, log) == [] then m == Unmeasured(d) else Reported(m, d, log, wilson)
  }

  /** Only configured detectors are gated, and those by the reasons of the gate. */
  ghost predicate GatedAs(g: Gated, d: string, configured: bool, log: seq<Entry>, wilson: (int, int) -> Interval) {
    && Measured(g.metric, d, log, wilson)
    && g.reasons == (if configured then Applying(Considered(d), g.metric, wilson) else [])
    && (g.eligible <==> configured && Eligible(g.metric, wilson))
  }

  /** The calibration table: one entry for every detector that has samples or is configured. */
  method GateDetectors(samples: seq<Sample>, events: map<string, seq<DetectionEvent>>, splits: map<string, string>,
                       specs: seq<string>, wilson: (int, int) -> Interval)
    returns (out: map<string, Gated>)
    ensures var log := Labelled(samples, events, splits);
            && (forall d :: d in out <==> Sublog(d, Overall, log) != [] || d in specs)
            && (forall d :: d in out ==> GatedAs(out[d], d, d in specs, log, wilson))
  {
    hide Sublog, Reported, Applying, Considered, Eligible;
    ghost var log := Labelled(samples, events, splits);
    var byID := MetricsForSamples(samples, events, splits, wilson);
    out := map d | d in byID :: Gated(byID[d], false, []);
    for i := 0 to |specs|
      invariant forall d :: d in out <==> Sublog(d, Overall, log) != [] || d in specs[..i]
      invariant forall d :: d in out ==> GatedAs(out[d], d, d in specs[..i], log, wilson)
    {
      var id := specs[i];
      var metric := if id in out then out[id].metric else Unmeasured(id);
      MeasuredIsNamed(metric, id, log, wilson);
      var eligible, reasons := ApplyPromotionGate(metric, wilson);
      EligibleMeans(metric, eligible, wilson);
      assert specs[..i + 1] == specs[..i] + [specs[i]];
      out := out[id := Gated(metric, eligible, reasons)];
    }
    assert specs[..|specs|] == specs;
  }

  lemma MeasuredIsNamed(m: DetectorMetric, d: string, log: seq<Entry>, wilson: (int, int) -> Interval)
    requires Measured(m, d, log, wilson)
    ensures m.detector == d
  {
    hide Reports, BandReported;
  }

  lemma EligibleMeans(m: DetectorMetric, eligible: bool, wilson: (int, int) -> Interval)
    requires eligible <==> forall i :: 0 <= i < |Considered(m.detector)| ==> !Fails(Considered(m.detector)[i], m, wilson)
    ensures eligible <==> Eligible(m, wilson)
  {
    hide Considered, Fails;
  }

  lemma FewPositivesIsCounted()
    ensures FewPositives(Whole) in CountReasons()
  {
    hide EvidenceReasons, RateReasons;
    assert FloorReasons()[0] == FewPositives(Whole);
  }

  /** A detector without samples is never eligible. */
  lemma UnmeasuredIsRefused(d: string, wilson: (int, int) -> Interval)
    ensures !Eligible(Unmeasured(d), wilson)
  {
    hide Considered, CountReasons, Eligible;
    FewPositivesIsCounted();
    ConsideredHas(d, FewPositives(Whole));
    if Eligible(Unmeasured(d), wilson) { AppliesToEligible(Unmeasured(d), wilson, FewPositives(Whole)); }
  }

  lemma EligibleIsReported(g: Gated, d: string, configured: bool, log: seq<Entry>, wilson: (int, int) -> Interval)
    requires GatedAs(g, d, configured, log, wilson) && g.eligible
    ensures configured && Reported(g.metric, d, log, wilson) && Eligible(g.metric, wilson)
  {
    hide Eligible, Reported, Sublog, Applying, Considered;
    UnmeasuredIsRefused(d, wilson);
  }

  /** From the samples to the decision, first half: a detector is eligible only if none of its decisive samples is
      quarantined, and then every confusion count and both label counts of its samples split without remainder over
      training, validation and holdout; all its decisive samples are current and carry independent evidence. */
  lemma EligibleSamplesAreSplit(g: Gated, d: string, configured: bool, samples: seq<Sample>,
                                events: map<string, seq<DetectionEvent>>, splits: map<string, string>,
                                wilson: (int, int) -> Interval, f: Field)
    requires GatedAs(g, d, configured, Labelled(samples, events, splits), wilson) && g.eligible
    requires Confusion(f) || f.Positive? || f.Negative?
    ensures var log := Labelled(samples, events, splits);
            && CountOf(f, Sublog(d, InPart(Quarantined), log)) == 0
            && CountOf(f, Sublog(d, Overall, log)) == CountOf(f, Sublog(d, InPart(Training), log))
               + CountOf(f, Sublog(d, InPart(Validation), log)) + CountOf(f, Sublog(d, InPart(Holdout), log))
            && CountOf(Current, Sublog(d, Overall, log)) == CountOf(Independent, Sublog(d, Overall, log))
               == CountOf(Positive, Sublog(d, Overall, log)) + CountOf(Negative, Sublog(d, Overall, log))
  {
    hide GatedAs, Eligible, Sublog, CountOf, Labelled, ConflictsMarked, Considered, Reports, BandReported;
    var log := Labelled(samples, events, splits);
    EligibleIsReported(g, d, configured, log, wilson);
    LabelledMarksConflicts(samples, events, splits);
    EligibleCountsAreSplit(g.metric, d, log, wilson, f);
    var m := g.metric;
    ReportCounts(m.overall, Sublog(d, Overall, log), wilson);
    ReportCounts(m.training, Sublog(d, InPart(Training), log), wilson);
    ReportCounts(m.validation, Sublog(d, InPart(Validation), log), wilson);
    ReportCounts(m.holdout, Sublog(d, InPart(Holdout), log), wilson);
    EvidenceCounted(m.overall, Sublog(d, Overall, log), wilson);
    PartsAddUp(f, d, log);
  }

  lemma EvidenceCounted(m: Metric, log: seq<Entry>, wilson: (int, int) -> Interval)
    requires Reports(m, log, wilson)
    ensures m.counts.current == CountOf(Current, log) && m.counts.independent == CountOf(Independent, log)
    ensures m.counts.positives == CountOf(Positive, log) && m.counts.negatives == CountOf(Negative, log)
  {
    hide Reports, CountOf;
    ReportCount(m, log, wilson, Current);
    ReportCount(m, log, wilson, Independent);
    ReportCount(m, log, wilson, Positive);
    ReportCount(m, log, wilson, Negative);
  }

  /** The square root is one at the places where the bounds of these samples need it. */
  ghost predicate RootsForSamples(log: seq<Entry>, q: Quantile, sqrt: real -> real) {
    var tp, fp, fn, tn := CountOf(TruePositive, log), CountOf(FalsePositive, log), CountOf(FalseNegative, log), CountOf(TrueNegative, log);
    Sqrt(sqrt, tp, tp + fp, q) && Sqrt(sqrt, tp, tp + fn, q) && Sqrt(sqrt, fp, fp + tn, q)
  }

  /** Second half: then in all its samples, in those of the validation split and in those of the holdout, the counts
      satisfy the polynomial inequalities behind the three Wilson bounds, and there are at least 381 legitimate
      samples, 563 once one of them was flagged. */
  lemma EligibleSamplesMeetBounds(g: Gated, d: string, configured: bool, samples: seq<Sample>,
                                  events: map<string, seq<DetectionEvent>>, splits: map<string, string>,
                                  sqrt: real -> real, w: Which)
    requires GatedAs(g, d, configured, Labelled(samples, events, splits), WilsonWith(Q95, sqrt)) && g.eligible
    requires RootsForSamples(Sublog(d, SelectorOf(w), Labelled(samples, events, splits)), Q95, sqrt)
    ensures var log := Sublog(d, SelectorOf(w), Labelled(samples, events, splits));
            var tp, fp := CountOf(TruePositive, log), CountOf(FalsePositive, log);
            var positives, negatives := CountOf(Positive, log), CountOf(Negative, log);
            && EnoughOf(tp, tp + fp, Q95, MIN_PRECISION) && EnoughOf(tp, positives, Q95, MIN_RECALL_LOWER)
            && FewOf(fp, negatives, Q95, MAX_FALSE_RATE)
            && negatives >= 381 && (fp > 0 ==> negatives >= 563)
  {
    hide GatedAs, Eligible, Sublog, CountOf, Labelled, Considered, Reports, BandReported, EnoughOf, FewOf, WilsonWith, Sqrt;
    var log := Labelled(samples, events, splits);
    EligibleIsReported(g, d, configured, log, WilsonWith(Q95, sqrt));
    ConfusionCounted(ReportOf(g.metric, w), Sublog(d, SelectorOf(w), log), WilsonWith(Q95, sqrt));
    EligibleMeansBounds(g.metric, d, log, sqrt, w);
  }

  lemma ConfusionCounted(m: Metric, log: seq<Entry>, wilson: (int, int) -> Interval)
    requires Reports(m, log, wilson)
    ensures m.counts.tp == CountOf(TruePositive, log) && m.counts.fp == CountOf(FalsePositive, log)
    ensures m.counts.fn == CountOf(FalseNegative, log) && m.counts.tn == CountOf(TrueNegative, log)
    ensures m.counts.positives == CountOf(Positive, log) && m.counts.negatives == CountOf(Negative, log)
  {
    hide Reports, CountOf;
    ReportCount(m, log, wilson, TruePositive);
    ReportCount(m, log, wilson, FalsePositive);
    ReportCount(m, log, wilson, FalseNegative);
    ReportCount(m, log, wilson, TrueNegative);
    ReportCount(m, log, wilson, Positive);
    ReportCount(m, log, wilson, Negative);
  }
}
