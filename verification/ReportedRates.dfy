/** The rates, intervals and cluster ranges of a report, over its samples. */
module ReportedRates {
  import opened Common
  import opened Metrics
  import opened Wilson
  import opened ClusterRanges
  import opened Eligibility
  import DatasetSplits

  /** The rate and the interval of k in n samples; none are reported without samples. */
  ghost predicate IsRate(rate: real, interval: Interval, k: nat, n: nat, wilson: (int, int) -> Interval) {
    if n == 0 then rate == 0.0 && interval == Interval(0.0, 0.0)
    else rate * n as real == k as real && interval == wilson(k, n)
  }

  lemma RatioTimes(k: nat, n: nat)
    ensures if n == 0 then Ratio(k, n) == 0.0 else Ratio(k, n) * n as real == k as real
  {
  }

  lemma IntervalsOf(m: Metric, log: seq<Entry>, wilson: (int, int) -> Interval)
    requires Reports(m, log, wilson)
    ensures m.precisionCI == IntervalOf(wilson, m.counts.tp, m.counts.tp + m.counts.fp)
    ensures m.recallCI == IntervalOf(wilson, m.counts.tp, m.counts.tp + m.counts.fn)
    ensures m.falseRateCI == IntervalOf(wilson, m.counts.fp, m.counts.fp + m.counts.tn)
  {
    hide Tallies, Describes, Ratio, IntervalOf;
    var a :| Tallies(a, log) && Finished(a, m, wilson);
  }

  lemma RateFrom(rate: real, interval: Interval, k: nat, n: nat, wilson: (int, int) -> Interval)
    requires rate == Ratio(k, n) && interval == IntervalOf(wilson, k, n)
    ensures IsRate(rate, interval, k, n, wilson)
  {
    RatioTimes(k, n);
    hide Ratio;
  }

  /** Precision, recall and false rate are quotients of the numbers of samples, with the interval of the same two numbers. */
  lemma RatesAreThoseOfTheSamples(m: Metric, log: seq<Entry>, wilson: (int, int) -> Interval)
    requires Reports(m, log, wilson)
    ensures IsRate(m.precision, m.precisionCI, Number(Caught, log), Number(Caught, log) + Number(Accused, log), wilson)
    ensures IsRate(m.recall, m.recallCI, Number(Caught, log), Number(Cheated, log), wilson)
    ensures IsRate(m.falseRate, m.falseRateCI, Number(Accused, log), Number(Honest, log), wilson)
  {
    hide Reports, Number, Ratio, IntervalOf, IsRate;
    ReportNumbers(m, log, wilson);
    IntervalsOf(m, log, wilson);
    RateFrom(m.precision, m.precisionCI, m.counts.tp, m.counts.tp + m.counts.fp, wilson);
    RateFrom(m.recall, m.recallCI, m.counts.tp, m.counts.positives, wilson);
    RateFrom(m.falseRate, m.falseRateCI, m.counts.fp, m.counts.negatives, wilson);
  }

  // ----- The ranges over clusters

  /** The rate of one cluster: of its samples of the one kind, how many are of the other. */
  ghost function ClusterRate(hits: Entry -> bool, kind: Entry -> bool, log: seq<Entry>, id: string): real {
    var own := InCluster(log, id);
    if Number(kind, own) == 0 then 0.0 else Number(hits, own) as real / Number(kind, own) as real
  }

  ghost function RatesSum(hits: Entry -> bool, kind: Entry -> bool, log: seq<Entry>, ids: seq<string>): real {
    if ids == [] then 0.0 else RatesSum(hits, kind, log, ids[..|ids| - 1]) + ClusterRate(hits, kind, log, ids[|ids| - 1])
  }

  /** The range is the smallest that holds the rates of all clusters with a sample of the kind. */
  ghost predicate IsRange(range: Option<Interval>, hits: Entry -> bool, kind: Entry -> bool, log: seq<Entry>) {
    var ids := Clusters(kind, log);
    && (range.None? <==> ids == {})
    && (range.Some? ==>
          && (forall id :: id in ids ==> range.value.lower <= ClusterRate(hits, kind, log, id) <= range.value.upper)
          && (exists id :: id in ids && ClusterRate(hits, kind, log, id) == range.value.lower)
          && (exists id :: id in ids && ClusterRate(hits, kind, log, id) == range.value.upper))
  }

  /** The mean is that of their rates; the sum is over all clusters in order, of which the others add nothing. */
  ghost predicate IsMean(mean: Option<real>, hits: Entry -> bool, kind: Entry -> bool, log: seq<Entry>) {
    var ids := Clusters(kind, log);
    && (mean.None? <==> ids == {})
    && (mean.Some? ==> mean.value * |ids| as real == RatesSum(hits, kind, log, DatasetSplits.SortedOf(multiset(Clusters(Decided, log)))))
  }

  ghost predicate RateAgrees(a: Acc, log: seq<Entry>, r: Rate, hits: Entry -> bool, kind: Entry -> bool, id: string) {
    id in a.clusters ==> ClusterRate(hits, kind, log, id) == if id in Rated(r, a.clusters) then Observed(r, a.clusters[id]) else 0.0
  }

  lemma ClusterRates(a: Acc, log: seq<Entry>, id: string)
    requires Tallies(a, log)
    ensures RateAgrees(a, log, Recall, Caught, Cheated, id) && RateAgrees(a, log, FalseRate, Accused, Honest, id)
  {
    if id in a.clusters {
      var own := InCluster(log, id);
      ClusterKnown(a, log, id);
      ClusterCounts(a, log, id, TruePositive);
      ClusterCounts(a, log, id, FalsePositive);
      NumberIsCount(Caught, TruePositive, own);
      NumberIsCount(Accused, FalsePositive, own);
      NumberIsCount(Cheated, Positive, own);
      NumberIsCount(Honest, Negative, own);
      hide Tallies, CountOf, Number, InCluster;
    }
  }

  lemma {:induction false} SumsAgree(a: Acc, log: seq<Entry>, r: Rate, hits: Entry -> bool, kind: Entry -> bool, ids: seq<string>)
    requires (forall id :: RateAgrees(a, log, r, hits, kind, id)) && forall i :: 0 <= i < |ids| ==> ids[i] in a.clusters
    ensures RatesSum(hits, kind, log, ids) == RateSum(r, a.clusters, ids)
  {
    hide ClusterRate, Observed, Rated;
    if ids != [] {
      SumsAgree(a, log, r, hits, kind, ids[..|ids| - 1]);
      assert RateAgrees(a, log, r, hits, kind, ids[|ids| - 1]);
    }
  }

  lemma MeanFrom(a: Acc, log: seq<Entry>, r: Rate, hits: Entry -> bool, kind: Entry -> bool, range: Option<Interval>, mean: Option<real>)
    requires forall id :: RateAgrees(a, log, r, hits, kind, id)
    requires a.clusters.Keys == Clusters(Decided, log) && Rated(r, a.clusters) == Clusters(kind, log)
    requires (range.None? <==> Rated(r, a.clusters) == {}) && Averages(mean, range, |Rated(r, a.clusters)|, TotalRate(r, a.clusters))
    ensures IsMean(mean, hits, kind, log)
  {
    hide ClusterRate, RatesSum, RateSum, Clusters, Rated, Observed;
    var sorted := DatasetSplits.SortedOf(multiset(a.clusters.Keys));
    forall i | 0 <= i < |sorted| ensures sorted[i] in a.clusters { assert sorted[i] in multiset(sorted); }
    SumsAgree(a, log, r, hits, kind, sorted);
    hide RateAgrees;
  }

  lemma SpanFrom(a: Acc, log: seq<Entry>, r: Rate, hits: Entry -> bool, kind: Entry -> bool, range: Option<Interval>)
    requires forall id :: id in Rated(r, a.clusters) ==> ClusterRate(hits, kind, log, id) == Observed(r, a.clusters[id])
    requires Rated(r, a.clusters) == Clusters(kind, log) && Spans(range, r, a.clusters, Rated(r, a.clusters))
    ensures IsRange(range, hits, kind, log)
  {
    hide ClusterRate, Clusters, Observed;
    if range.Some? {
      var low :| low in Rated(r, a.clusters) && Observed(r, a.clusters[low]) == range.value.lower;
      var high :| high in Rated(r, a.clusters) && Observed(r, a.clusters[high]) == range.value.upper;
      assert ClusterRate(hits, kind, log, low) == range.value.lower && ClusterRate(hits, kind, log, high) == range.value.upper;
    }
  }

  lemma SameRates(a: Acc, log: seq<Entry>, r: Rate, hits: Entry -> bool, kind: Entry -> bool)
    requires forall id :: RateAgrees(a, log, r, hits, kind, id)
    ensures forall id :: id in Rated(r, a.clusters) ==> ClusterRate(hits, kind, log, id) == Observed(r, a.clusters[id])
  {
    hide ClusterRate, Observed;
    forall id | id in Rated(r, a.clusters) ensures ClusterRate(hits, kind, log, id) == Observed(r, a.clusters[id]) {
      assert RateAgrees(a, log, r, hits, kind, id);
    }
  }

  /** The observed ranges and the macro averages of recall and false rate are those of the clusters of the samples. */
  lemma RangesAreThoseOfTheClusters(m: Metric, log: seq<Entry>, wilson: (int, int) -> Interval)
    requires Reports(m, log, wilson)
    ensures IsRange(m.clusters.recallRange, Caught, Cheated, log) && IsMean(m.clusters.macroRecall, Caught, Cheated, log)
    ensures IsRange(m.clusters.falseRange, Accused, Honest, log) && IsMean(m.clusters.macroFalseRate, Accused, Honest, log)
  {
    hide Tallies, Ratio, IntervalOf, IsRange, IsMean, RateAgrees, Averages, Clusters, Rated, LargestShare, TotalRate, ClusterRate, Observed;
    var a :| Tallies(a, log) && Finished(a, m, wilson);
    GroupsAreClusters(a, log);
    forall id ensures RateAgrees(a, log, Recall, Caught, Cheated, id) && RateAgrees(a, log, FalseRate, Accused, Honest, id) {
      ClusterRates(a, log, id);
    }
    SameRates(a, log, Recall, Caught, Cheated);
    SameRates(a, log, FalseRate, Accused, Honest);
    SpanFrom(a, log, Recall, Caught, Cheated, m.clusters.recallRange);
    SpanFrom(a, log, FalseRate, Accused, Honest, m.clusters.falseRange);
    MeanFrom(a, log, Recall, Caught, Cheated, m.clusters.recallRange, m.clusters.macroRecall);
    MeanFrom(a, log, FalseRate, Accused, Honest, m.clusters.falseRange, m.clusters.macroFalseRate);
  }
}
