/** What the reports conserve, and what eligibility for promotion implies. */
module PromotionProofs {
  import opened Metrics
  import opened ClusterRanges
  import opened DetectorMetrics
  import opened PromotionGate
  import opened Wilson

  // ----- Conservation across the accumulators of one detector

  /** Every counter of the overall report is the sum of those of the four parts; only the quarantined one is not reported. */
  lemma {:induction false} PartsAddUp(f: Field, d: string, log: seq<Entry>)
    ensures CountOf(f, Sublog(d, Overall, log))
         == CountOf(f, Sublog(d, InPart(Training), log)) + CountOf(f, Sublog(d, InPart(Validation), log))
          + CountOf(f, Sublog(d, InPart(Holdout), log)) + CountOf(f, Sublog(d, InPart(Quarantined), log))
  {
    if log != [] {
      hide Sublog, CountOf, Hits, PartOf;
      PartsAddUp(f, d, log[..|log| - 1]);
      CountSublogLast(f, d, Overall, log);
      CountSublogLast(f, d, InPart(Training), log);
      CountSublogLast(f, d, InPart(Validation), log);
      CountSublogLast(f, d, InPart(Holdout), log);
      CountSublogLast(f, d, InPart(Quarantined), log);
    }
  }

  lemma CountSublogLast(f: Field, d: string, sel: Selector, log: seq<Entry>)
    requires log != []
    ensures var rest, e := log[..|log| - 1], log[|log| - 1];
            CountOf(f, Sublog(d, sel, log)) == CountOf(f, Sublog(d, sel, rest)) + if e.sample.detector == d && Selects(sel, e) then Bit(f, e) else 0
  {
    var rest, e := log[..|log| - 1], log[|log| - 1];
    assert log == rest + [e];
    CountSublogSnoc(f, d, sel, rest, e);
  }

  lemma CountSublogSnoc(f: Field, d: string, sel: Selector, log: seq<Entry>, e: Entry)
    ensures CountOf(f, Sublog(d, sel, log + [e]))
         == CountOf(f, Sublog(d, sel, log)) + if e.sample.detector == d && Selects(sel, e) then Bit(f, e) else 0
  {
    SublogSnoc(d, sel, log, e);
    CountSnoc(f, Sublog(d, sel, log), e);
  }

  predicate Distinct(keys: seq<string>) {
    forall i, j :: 0 <= i < j < |keys| ==> keys[i] != keys[j]
  }

  /** The sum of a counter over the strata with the given keys. */
  function StrataSum(f: Field, d: string, b: Band, keys: seq<string>, log: seq<Entry>): nat {
    if keys == [] then 0
    else StrataSum(f, d, b, keys[..|keys| - 1], log) + CountOf(f, Sublog(d, InBand(b, keys[|keys| - 1]), log))
  }

  lemma {:induction false} StrataSumSnoc(f: Field, d: string, b: Band, keys: seq<string>, log: seq<Entry>, e: Entry)
    requires Distinct(keys)
    ensures StrataSum(f, d, b, keys, log + [e])
         == StrataSum(f, d, b, keys, log) + if e.sample.detector == d && Key(b, e.sample) in keys then Bit(f, e) else 0
  {
    if keys != [] {
      hide Sublog, CountOf, Hits;
      var rest, k := keys[..|keys| - 1], keys[|keys| - 1];
      assert keys == rest + [k];
      StrataSumSnoc(f, d, b, rest, log, e);
      CountSublogSnoc(f, d, InBand(b, k), log, e);
    }
  }

  lemma {:induction false} StrataSumEmpty(f: Field, d: string, b: Band, keys: seq<string>)
    ensures StrataSum(f, d, b, keys, []) == 0
  {
    if keys != [] { StrataSumEmpty(f, d, b, keys[..|keys| - 1]); }
  }

  /** Each stratification sums to the overall report: for every band, any duplicate-free list of its occurring keys. */
  lemma {:induction false} StrataAddUp(f: Field, d: string, b: Band, keys: seq<string>, log: seq<Entry>)
    requires Distinct(keys) && forall k :: Sublog(d, InBand(b, k), log) != [] ==> k in keys
    ensures StrataSum(f, d, b, keys, log) == CountOf(f, Sublog(d, Overall, log))
  {
    if log == [] {
      StrataSumEmpty(f, d, b, keys);
    } else {
      var rest, e := log[..|log| - 1], log[|log| - 1];
      assert log == rest + [e];
      forall k | Sublog(d, InBand(b, k), rest) != [] ensures k in keys {
        SublogSnoc(d, InBand(b, k), rest, e);
      }
      SublogSnoc(d, InBand(b, Key(b, e.sample)), rest, e);
      hide Sublog, CountOf, Hits;
      StrataAddUp(f, d, b, keys, rest);
      StrataSumSnoc(f, d, b, keys, rest, e);
      CountSublogSnoc(f, d, Overall, rest, e);
    }
  }

  // ----- Quarantined samples show up as conflicts

  /** As metricsForSamples labels them: the samples of quarantined matches, and no others, carry the conflict mark. */
  predicate ConflictsMarked(log: seq<Entry>) {
    forall i :: 0 <= i < |log| ==> (log[i].sample.conflict <==> log[i].split == "quarantined")
  }

  lemma LabelledMarksConflicts(samples: seq<Sample>, events: map<string, seq<Events.DetectionEvent>>, splits: map<string, string>)
    ensures ConflictsMarked(Labelled(samples, events, splits))
  {
  }

  lemma {:induction false} ConflictsAreQuarantined(d: string, log: seq<Entry>)
    requires ConflictsMarked(log)
    ensures CountOf(Conflict, Sublog(d, Overall, log))
         == CountOf(Positive, Sublog(d, InPart(Quarantined), log)) + CountOf(Negative, Sublog(d, InPart(Quarantined), log))
  {
    if log != [] {
      var e := log[|log| - 1];
      ConflictsAreQuarantined(d, log[..|log| - 1]);
      MarkedBit(e, log);
      hide Sublog, CountOf, ConflictsMarked, PartOf, Hits;
      CountSublogLast(Conflict, d, Overall, log);
      CountSublogLast(Positive, d, InPart(Quarantined), log);
      CountSublogLast(Negative, d, InPart(Quarantined), log);
    }
  }

  lemma MarkedBit(e: Entry, log: seq<Entry>)
    requires ConflictsMarked(log) && e in log
    ensures Bit(Conflict, e) == if Selects(InPart(Quarantined), e) then Bit(Positive, e) + Bit(Negative, e) else 0
  {
  }

  lemma ReportCounts(m: Metric, log: seq<Entry>, wilson: (int, int) -> Interval)
    requires Reports(m, log, wilson)
    ensures forall f :: Get(m.counts, f) == CountOf(f, log)
    ensures m.counts.tp + m.counts.fn == m.counts.positives && m.counts.fp + m.counts.tn == m.counts.negatives
  {
    hide Describes;
    var a :| Tallies(a, log) && Finished(a, m, wilson);
    Conservation(a, log);
  }

  /** A confusion count of a report. */
  lemma ReportCount(m: Metric, log: seq<Entry>, wilson: (int, int) -> Interval, f: Field)
    requires Reports(m, log, wilson)
    ensures Get(m.counts, f) == CountOf(f, log)
  {
    ReportCounts(m, log, wilson);
  }

  // ----- Eligibility

  ghost predicate Eligible(m: DetectorMetric, wilson: (int, int) -> Interval) {
    forall i :: 0 <= i < |Considered(m.detector)| ==> !Fails(Considered(m.detector)[i], m, wilson)
  }

  lemma AppliesToEligible(m: DetectorMetric, wilson: (int, int) -> Interval, r: Reason)
    requires Eligible(m, wilson) && r in Considered(m.detector)
    ensures !Fails(r, m, wilson)
  {
    hide Fails, Considered;
  }

  lemma ConsideredHas(d: string, r: Reason)
    requires r == Blocked || r in GroupReasons(ORDER) || r in CountReasons() || r in BoundReasons(ORDER)
    ensures r in Considered(d)
  {
    hide GroupReasons, CountReasons, BoundReasons, StratumReasons, StrataKeys;
  }

  lemma CountReasonsHas()
    ensures ConflictingSamples in CountReasons() && StaleSamples in CountReasons() && UnusableSamples in CountReasons() && UnverifiedEvidence in CountReasons()
  {
    hide FloorReasons, RateReasons;
    assert EvidenceReasons()[0] == StaleSamples && EvidenceReasons()[1] == UnverifiedEvidence;
    assert EvidenceReasons()[2] == UnusableSamples && EvidenceReasons()[3] == ConflictingSamples;
  }

  lemma BoundReasonsHas(w: Which)
    ensures PrecisionBound(w) in BoundReasons(ORDER) && RecallBound(w) in BoundReasons(ORDER) && FalseRateBound(w) in BoundReasons(ORDER)
  {
    assert BoundReasonsOf(w)[0] == PrecisionBound(w) && BoundReasonsOf(w)[1] == RecallBound(w) && BoundReasonsOf(w)[2] == FalseRateBound(w);
    assert ORDER[..3][..2] == ORDER[..2] && ORDER[..2][..1] == ORDER[..1] && ORDER[..1][..0] == [];
    assert BoundReasons(ORDER) == BoundReasons(ORDER[..2]) + BoundReasonsOf(HeldOut);
    assert BoundReasons(ORDER[..2]) == BoundReasons(ORDER[..1]) + BoundReasonsOf(Validating);
    assert BoundReasons(ORDER[..1]) == BoundReasons([]) + BoundReasonsOf(Whole);
  }

  /** A detector whose samples include quarantined decisive ones is never eligible, so an eligible detector's overall
      decisive counts, and each of its confusion counts, are the sums over training, validation and holdout. */
  lemma EligibleCountsAreSplit(m: DetectorMetric, d: string, log: seq<Entry>, wilson: (int, int) -> Interval, f: Field)
    requires Reported(m, d, log, wilson) && ConflictsMarked(log) && Eligible(m, wilson)
    requires Confusion(f) || f.Positive? || f.Negative?
    ensures Get(m.overall.counts, f) == Get(m.training.counts, f) + Get(m.validation.counts, f) + Get(m.holdout.counts, f)
    ensures m.overall.counts.current == m.overall.counts.independent == m.overall.counts.positives + m.overall.counts.negatives
  {
    hide Considered, Reports, BandReported, Fails, Sublog, CountOf, ConflictsMarked, Eligible;
    EligibleEvidence(m, wilson);
    ReportCount(m.overall, Sublog(d, Overall, log), wilson, Conflict);
    ConflictsAreQuarantined(d, log);
    NoDecisiveNoConfusion(f, Sublog(d, InPart(Quarantined), log));
    PartsAddUp(f, d, log);
    ReportCount(m.overall, Sublog(d, Overall, log), wilson, f);
    ReportCount(m.training, Sublog(d, InPart(Training), log), wilson, f);
    ReportCount(m.validation, Sublog(d, InPart(Validation), log), wilson, f);
    ReportCount(m.holdout, Sublog(d, InPart(Holdout), log), wilson, f);
    CurrentOrStale(m.overall, Sublog(d, Overall, log), wilson);
  }

  lemma EligibleEvidence(m: DetectorMetric, wilson: (int, int) -> Interval)
    requires Eligible(m, wilson)
    ensures var c := m.overall.counts; c.conflicts == 0 && c.stale == 0 && c.independent == c.positives + c.negatives
  {
    hide Considered, CountReasons, Fails, Eligible;
    CountReasonsHas();
    ConsideredHas(m.detector, ConflictingSamples);
    ConsideredHas(m.detector, StaleSamples);
    ConsideredHas(m.detector, UnverifiedEvidence);
    AppliesToEligible(m, wilson, ConflictingSamples);
    AppliesToEligible(m, wilson, StaleSamples);
    AppliesToEligible(m, wilson, UnverifiedEvidence);
    EvidenceFails(m, wilson);
  }

  lemma EvidenceFails(m: DetectorMetric, wilson: (int, int) -> Interval)
    ensures Fails(ConflictingSamples, m, wilson) <==> m.overall.counts.conflicts > 0
    ensures Fails(StaleSamples, m, wilson) <==> m.overall.counts.stale > 0
    ensures Fails(UnverifiedEvidence, m, wilson) <==> m.overall.counts.independent != m.overall.counts.positives + m.overall.counts.negatives
  {
    hide PrecisionUnproved, RecallUnproved, FalseRateUnproved, ThinAt;
  }

  lemma CurrentOrStale(m: Metric, log: seq<Entry>, wilson: (int, int) -> Interval)
    requires Reports(m, log, wilson)
    ensures m.counts.current + m.counts.stale == m.counts.positives + m.counts.negatives
  {
    hide Describes;
    var a :| Tallies(a, log) && Finished(a, m, wilson);
    Conservation(a, log);
  }

  lemma {:induction false} NoDecisiveNoConfusion(f: Field, log: seq<Entry>)
    requires Confusion(f) || f.Positive? || f.Negative?
    ensures CountOf(f, log) <= CountOf(Positive, log) + CountOf(Negative, log)
  {
    if log != [] { NoDecisiveNoConfusion(f, log[..|log| - 1]); }
  }

  // ----- The bounds without roots

  /** wilson, for a quantile and a square root. */
  function WilsonWith(q: Quantile, sqrt: real -> real): (int, int) -> Interval
    requires q.w > 0.0
  {
    (k: int, n: int) => ScoreInterval(k, n, q, sqrt)
  }

  /** sqrt is the square root at the three places where the report's bounds need it. */
  predicate RootsFor(c: Counts, q: Quantile, sqrt: real -> real) {
    Sqrt(sqrt, c.tp, c.tp + c.fp, q) && Sqrt(sqrt, c.tp, c.tp + c.fn, q) && Sqrt(sqrt, c.fp, c.fp + c.tn, q)
  }

  /** k successes in n put the lower score bound at a or higher. */
  predicate EnoughOf(k: nat, n: nat, q: Quantile, a: real) {
    n > 0 && k as real >= a * n as real && ScoreOf(k, n, q, a) >= 0.0
  }

  /** k successes in n keep the upper score bound at b or lower. */
  predicate FewOf(k: nat, n: nat, q: Quantile, b: real) {
    n > 0 && k as real <= b * n as real && ScoreOf(k, n, q, b) >= 0.0
  }

  /** The Wilson checks of one report pass exactly when polynomial inequalities in its counts hold. */
  lemma BoundsAreInequalities(c: Counts, q: Quantile, sqrt: real -> real)
    requires IsQuantile(q) && RootsFor(c, q, sqrt)
    ensures !PrecisionUnproved(c, WilsonWith(q, sqrt)) <==> EnoughOf(c.tp, c.tp + c.fp, q, MIN_PRECISION)
    ensures !RecallUnproved(c, WilsonWith(q, sqrt)) <==> EnoughOf(c.tp, c.tp + c.fn, q, MIN_RECALL_LOWER)
    ensures !FalseRateUnproved(c, WilsonWith(q, sqrt)) <==> FewOf(c.fp, c.fp + c.tn, q, MAX_FALSE_RATE)
  {
    hide ScoreInterval, ScoreOf, Sqrt, IsScoreInterval;
    if c.tp + c.fp > 0 {
      ClampingIsIdle(c.tp, c.tp + c.fp, q, sqrt);
      LowerAtLeast(c.tp, c.tp + c.fp, q, ScoreInterval(c.tp, c.tp + c.fp, q, sqrt), MIN_PRECISION);
    }
    if c.tp + c.fn > 0 {
      ClampingIsIdle(c.tp, c.tp + c.fn, q, sqrt);
      LowerAtLeast(c.tp, c.tp + c.fn, q, ScoreInterval(c.tp, c.tp + c.fn, q, sqrt), MIN_RECALL_LOWER);
    }
    if c.fp + c.tn > 0 {
      ClampingIsIdle(c.fp, c.fp + c.tn, q, sqrt);
      UpperAtMost(c.fp, c.fp + c.tn, q, ScoreInterval(c.fp, c.fp + c.tn, q, sqrt), MAX_FALSE_RATE);
    }
  }

  /** A false-rate bound of one percent takes at least 381 legitimate samples, and 563 once one of them was flagged. */
  lemma FalseRateNeedsSamples(k: nat, n: nat)
    requires FewOf(k, n, Q95, MAX_FALSE_RATE)
    ensures n >= 381
    ensures k > 0 ==> n >= 563
  {
    var x, m := k as real, n as real;
    var d := 0.01 * m - x;
    ScoreAtOnePercent(x, m, d);
    hide ScoreOf;
    MoreThan380(d, m);
    if k > 0 { MoreThan562(d, m); }
  }

  lemma ScoreAtOnePercent(x: real, m: real, d: real)
    requires d == 0.01 * m - x
    ensures Score(x, m, W, 0.01) == d * d - W * 0.0099 * m
  {
    FlipSquare(x, 0.01 * m);
    assert m * 0.01 == 0.01 * m;
    assert 0.01 * (1.0 - 0.01) == 0.0099;
  }

  lemma MoreThan380(d: real, m: real)
    requires m > 0.0 && 0.0 <= d <= 0.01 * m && d * d >= W * 0.0099 * m
    ensures m > 380.0
  {
    SquareShrinks(d, 0.01 * m);
    NotTooFew(d * d, m);
  }

  lemma NotTooFew(q: real, m: real)
    requires m > 0.0 && W * 0.0099 * m <= q <= (0.01 * m) * (0.01 * m)
    ensures m > 380.0
  {
    if m <= 380.0 {
      assert (0.01 * m) * (0.01 * m) == (0.0001 * m) * m;
      MulMonotone(m, 0.0001 * m, W * 0.0099);
    }
  }

  lemma MoreThan562(d: real, m: real)
    requires m > 0.0 && 0.0 <= d <= 0.01 * m - 1.0 && d * d >= W * 0.0099 * m
    ensures m > 562.0
  {
    SquareShrinks(d, 0.01 * m - 1.0);
    if m <= 562.0 { TooFewWithOne(m); }
  }

  lemma SquareShrinks(a: real, b: real)
    requires 0.0 <= a <= b
    ensures a * a <= b * b
  {
    if a < b { SquareGrows(a, b); }
  }

  lemma TooFewWithOne(m: real)
    requires 100.0 <= m <= 562.0
    ensures (0.01 * m - 1.0) * (0.01 * m - 1.0) < W * 0.0099 * m
  {
    assert (m - 100.0) * (562.0 - m) >= 0.0 by { NotNegativeProduct(m - 100.0, 562.0 - m); }
    assert (m - 100.0) * (562.0 - m) == 662.0 * m - m * m - 56200.0;
    assert (0.01 * m - 1.0) * (0.01 * m - 1.0) == 0.0001 * (m * m) - 0.02 * m + 1.0;
  }

  /** Eligibility pins down the counts of the overall, validation and holdout reports: the polynomial inequalities
      behind the three bounds hold for each of them, and each has at least 381 legitimate samples. */
  lemma EligibleMeansBounds(m: DetectorMetric, d: string, log: seq<Entry>, sqrt: real -> real, w: Which)
    requires Reported(m, d, log, WilsonWith(Q95, sqrt)) && Eligible(m, WilsonWith(Q95, sqrt)) && RootsFor(ReportOf(m, w).counts, Q95, sqrt)
    ensures var c := ReportOf(m, w).counts;
            && EnoughOf(c.tp, c.tp + c.fp, Q95, MIN_PRECISION) && EnoughOf(c.tp, c.positives, Q95, MIN_RECALL_LOWER)
            && FewOf(c.fp, c.negatives, Q95, MAX_FALSE_RATE)
            && c.negatives >= 381 && (c.fp > 0 ==> c.negatives >= 563)
  {
    hide Considered, Reports, BandReported, Fails, EnoughOf, FewOf, BoundReasons, RootsFor, WilsonWith;
    var c, wilson := ReportOf(m, w).counts, WilsonWith(Q95, sqrt);
    BoundReasonsHas(w);
    ConsideredHas(d, PrecisionBound(w));
    ConsideredHas(d, RecallBound(w));
    ConsideredHas(d, FalseRateBound(w));
    AppliesToEligible(m, wilson, PrecisionBound(w));
    AppliesToEligible(m, wilson, RecallBound(w));
    AppliesToEligible(m, wilson, FalseRateBound(w));
    BoundFails(m, w, wilson);
    BoundsAreInequalities(c, Q95, sqrt);
    ReportCounts(ReportOf(m, w), Sublog(d, SelectorOf(w), log), wilson);
    FalseRateNeedsSamples(c.fp, c.fp + c.tn);
  }

  function SelectorOf(w: Which): Selector {
    match w
    case Whole => Overall
    case Validating => InPart(Validation)
    case HeldOut => InPart(Holdout)
  }

  lemma BoundFails(m: DetectorMetric, w: Which, wilson: (int, int) -> Interval)
    ensures Fails(PrecisionBound(w), m, wilson) <==> PrecisionUnproved(ReportOf(m, w).counts, wilson)
    ensures Fails(RecallBound(w), m, wilson) <==> RecallUnproved(ReportOf(m, w).counts, wilson)
    ensures Fails(FalseRateBound(w), m, wilson) <==> FalseRateUnproved(ReportOf(m, w).counts, wilson)
  {
    hide PrecisionUnproved, RecallUnproved, FalseRateUnproved, ThinAt;
  }
}
