/** describeClusters and metricAccumulator.finish of cmd/desktop/calibration_gate.go: what is reported of the counts. */
module ClusterRanges {
  import opened Common
  import opened Metrics
  import opened Wilson
  import Strings
  import DatasetSplits

  /** clusterDescription. */
  datatype Description = Description(groups: nat, positiveGroups: nat, negativeGroups: nat, largestFraction: real,
                                     recallRange: Option<Interval>, falseRange: Option<Interval>,
                                     macroRecall: Option<real>, macroFalseRate: Option<real>)

  /** The two rates observed in a group: the recall over its cheating samples, the false rate over its legitimate ones. */
  datatype Rate = Recall | FalseRate

  function Trials(r: Rate, c: Cluster): nat {
    if r.Recall? then c.tp + c.fn else c.fp + c.tn
  }

  function Observed(r: Rate, c: Cluster): real
    requires Trials(r, c) > 0
  {
    (if r.Recall? then c.tp else c.fp) as real / Trials(r, c) as real
  }

  function Share(c: Cluster, total: nat): real {
    if total == 0 then 0.0 else (c.tp + c.fp + c.tn + c.fn) as real / total as real
  }

  /** The groups with a sample of the kind the rate is over. */
  function Rated(r: Rate, groups: map<string, Cluster>): set<string> {
    set id | id in groups && Trials(r, groups[id]) > 0
  }

  ghost function RateSum(r: Rate, groups: map<string, Cluster>, ids: seq<string>): real {
    if ids == [] then 0.0
    else
      var id := ids[|ids| - 1];
      RateSum(r, groups, ids[..|ids| - 1]) + if id in Rated(r, groups) then Observed(r, groups[id]) else 0.0
  }

  /** range is the smallest interval holding the rates of the groups in ids, or nothing when there are none. */
  ghost predicate Spans(range: Option<Interval>, r: Rate, groups: map<string, Cluster>, ids: set<string>) {
    && (range.None? <==> ids == {})
    && (forall id :: id in ids ==> id in Rated(r, groups))
    && (range.Some? ==>
          && (forall id :: id in ids ==> range.value.lower <= Observed(r, groups[id]) <= range.value.upper)
          && (exists id :: id in ids && Observed(r, groups[id]) == range.value.lower)
          && (exists id :: id in ids && Observed(r, groups[id]) == range.value.upper))
  }

  /** The macro average is the mean of count rates with the given sum, and lies within their range. */
  predicate Averages(macro: Option<real>, range: Option<Interval>, count: nat, sum: real) {
    && (macro.None? <==> range.None?)
    && (macro.Some? && range.Some? ==> macro.value * count as real == sum && range.value.lower <= macro.value <= range.value.upper)
  }

  /** The sum of a rate over all the groups that have it, in key order. */
  ghost function TotalRate(r: Rate, groups: map<string, Cluster>): real {
    RateSum(r, groups, DatasetSplits.SortedOf(multiset(groups.Keys)))
  }

  ghost predicate LargestShare(largest: real, groups: map<string, Cluster>, ids: set<string>, total: nat) {
    && largest >= 0.0
    && (forall id :: id in ids && id in groups ==> Share(groups[id], total) <= largest)
    && (largest == 0.0 || exists id :: id in ids && id in groups && Share(groups[id], total) == largest)
  }

  ghost predicate Describes(d: Description, groups: map<string, Cluster>, total: nat) {
    && d.groups == |groups|
    && d.positiveGroups == |Rated(Recall, groups)| && d.negativeGroups == |Rated(FalseRate, groups)|
    && LargestShare(d.largestFraction, groups, groups.Keys, total)
    && Spans(d.recallRange, Recall, groups, Rated(Recall, groups))
    && Spans(d.falseRange, FalseRate, groups, Rated(FalseRate, groups))
    && Averages(d.macroRecall, d.recallRange, d.positiveGroups, TotalRate(Recall, groups))
    && Averages(d.macroFalseRate, d.falseRange, d.negativeGroups, TotalRate(FalseRate, groups))
  }

  // ----- The running summary of one rate

  datatype Summary = Summary(count: nat, sum: real, range: Option<Interval>)

  /** What one loop pass does with a group's rate. */
  function Include(s: Summary, value: real): Summary {
    Summary(s.count + 1, s.sum + value,
            Some(if s.range.None? then Interval(value, value)
                 else Interval(if value < s.range.value.lower then value else s.range.value.lower,
                               if value > s.range.value.upper then value else s.range.value.upper)))
  }

  ghost predicate Summarizes(s: Summary, r: Rate, groups: map<string, Cluster>, ids: seq<string>) {
    && s.count == |Done(r, groups, ids)| && s.sum == RateSum(r, groups, ids) && Spans(s.range, r, groups, Done(r, groups, ids))
    && Bounded(s)
  }

  /** The sum lies between count times the ends of the range. */
  predicate Bounded(s: Summary) {
    match s.range
    case None => s.count == 0 && s.sum == 0.0
    case Some(i) => i.lower * s.count as real <= s.sum <= i.upper * s.count as real
  }

  ghost function Set(ids: seq<string>): set<string> {
    set id | id in ids
  }

  lemma SetSnoc(ids: seq<string>, id: string)
    ensures Set(ids + [id]) == Set(ids) + {id}
  {
  }

  /** The rated groups among ids. */
  ghost function Done(r: Rate, groups: map<string, Cluster>, ids: seq<string>): set<string> {
    Rated(r, groups) * Set(ids)
  }

  lemma DoneSnoc(r: Rate, groups: map<string, Cluster>, ids: seq<string>, id: string)
    requires id !in ids
    ensures id !in Done(r, groups, ids)
    ensures Done(r, groups, ids + [id]) == if id in Rated(r, groups) then Done(r, groups, ids) + {id} else Done(r, groups, ids)
    ensures RateSum(r, groups, ids + [id]) == RateSum(r, groups, ids) + if id in Rated(r, groups) then Observed(r, groups[id]) else 0.0
  {
    SetSnoc(ids, id);
    assert (ids + [id])[..|ids|] == ids;
  }

  /** One group's turn for one rate. */
  method IncludeRate(s: Summary, r: Rate, groups: map<string, Cluster>, id: string, ghost ids: seq<string>) returns (next: Summary)
    requires Summarizes(s, r, groups, ids) && id in groups && id !in ids
    ensures Summarizes(next, r, groups, ids + [id])
  {
    next := s;
    DoneSnoc(r, groups, ids, id);
    if Trials(r, groups[id]) > 0 {
      var value := Observed(r, groups[id]);
      next := Include(s, value);
      SpansMore(s, r, groups, Done(r, groups, ids), id, value);
      IncludeBounds(s, value);
    }
  }

  lemma IncludeBounds(s: Summary, v: real)
    requires Bounded(s)
    ensures Bounded(Include(s, v))
  {
    if s.range.Some? { Widen(s.range.value.lower, s.range.value.upper, s.count, s.sum, v); }
  }

  lemma SpansMore(s: Summary, r: Rate, groups: map<string, Cluster>, ids: set<string>, id: string, v: real)
    requires Spans(s.range, r, groups, ids) && id in Rated(r, groups) && v == Observed(r, groups[id])
    ensures Spans(Include(s, v).range, r, groups, ids + {id})
  {
    assert id in ids + {id};
    if s.range.Some? {
      var low :| low in ids && Observed(r, groups[low]) == s.range.value.lower;
      var high :| high in ids && Observed(r, groups[high]) == s.range.value.upper;
      assert low in ids + {id} && high in ids + {id};
    }
  }

  lemma Widen(lower: real, upper: real, n: nat, sum: real, v: real)
    requires lower * n as real <= sum <= upper * n as real
    ensures var l, u := if v < lower then v else lower, if v > upper then v else upper;
            l * (n + 1) as real <= sum + v <= u * (n + 1) as real
  {
    var l, u := if v < lower then v else lower, if v > upper then v else upper;
    ScaleOrder(l, lower, n as real);
    ScaleOrder(upper, u, n as real);
    OneMore(l, n);
    OneMore(u, n);
  }

  lemma OneMore(a: real, n: nat)
    ensures a * (n + 1) as real == a * n as real + a
  {
    assert (n + 1) as real == n as real + 1.0;
  }

  lemma ScaleOrder(a: real, b: real, m: real)
    requires a <= b && m >= 0.0
    ensures a * m <= b * m
  {
    assert (b - a) * m >= 0.0;
  }

  lemma MeanWithin(lower: real, upper: real, n: nat, sum: real)
    requires n > 0 && lower * n as real <= sum <= upper * n as real
    ensures var mean := sum / n as real; lower <= mean <= upper && mean * n as real == sum
  {
    var m := n as real;
    var mean := sum / m;
    assert mean * m == sum;
    if mean < lower { MulMonotone(m, mean, lower); Swap(m, mean); Swap(m, lower); }
    if mean > upper { MulMonotone(m, upper, mean); Swap(m, mean); Swap(m, upper); }
  }

  method Mean(s: Summary) returns (mean: Option<real>)
    requires (s.range.None? <==> s.count == 0) && Bounded(s)
    ensures Averages(mean, s.range, s.count, s.sum)
  {
    mean := None;
    if s.count > 0 {
      mean := Some(s.sum / s.count as real);
      MeanWithin(s.range.value.lower, s.range.value.upper, s.count, s.sum);
    }
  }

  lemma SummaryOfAll(s: Summary, r: Rate, groups: map<string, Cluster>, keys: seq<string>)
    requires Summarizes(s, r, groups, keys) && multiset(keys) == multiset(groups.Keys)
    requires keys == DatasetSplits.SortedOf(multiset(groups.Keys))
    ensures s.count == |Rated(r, groups)| && s.sum == TotalRate(r, groups) && Spans(s.range, r, groups, Rated(r, groups))
    ensures s.range.None? <==> s.count == 0
  {
    AllKeys(r, keys, groups);
  }

  lemma Swap(a: real, b: real)
    ensures a * b == b * a
  {
  }

  /** describeClusters. */
  method DescribeClusters(groups: map<string, Cluster>, total: nat) returns (out: Description)
    ensures Describes(out, groups, total)
  {
    var recall, falseRate, largest := Summary(0, 0.0, None), Summary(0, 0.0, None), 0.0;
    var keys := DatasetSplits.InSomeOrder(groups.Keys);
    DatasetSplits.SortedOfListing(keys);
    Strings.SortIsSorted(keys);
    keys := Strings.SortStrings(keys);
    for i := 0 to |keys|
      invariant multiset(keys) == multiset(groups.Keys) && keys == DatasetSplits.SortedOf(multiset(groups.Keys))
      invariant Summarizes(recall, Recall, groups, keys[..i])
      invariant Summarizes(falseRate, FalseRate, groups, keys[..i])
      invariant LargestShare(largest, groups, Set(keys[..i]), total)
    {
      KeyAt(keys, groups, i);
      TakeSnoc(keys, i);
      ShareMore(largest, groups, Set(keys[..i]), keys[i], total);
      SetSnoc(keys[..i], keys[i]);
      if total > 0 && Share(groups[keys[i]], total) > largest { largest := Share(groups[keys[i]], total); }
      recall := IncludeRate(recall, Recall, groups, keys[i], keys[..i]);
      falseRate := IncludeRate(falseRate, FalseRate, groups, keys[i], keys[..i]);
    }
    TakeAll(keys);
    SummaryOfAll(recall, Recall, groups, keys);
    SummaryOfAll(falseRate, FalseRate, groups, keys);
    AllKeys(Recall, keys, groups);
    var macroRecall := Mean(recall);
    var macroFalseRate := Mean(falseRate);
    out := Description(|groups|, recall.count, falseRate.count, largest, recall.range, falseRate.range, macroRecall, macroFalseRate);
  }

  lemma TakeSnoc(keys: seq<string>, i: nat)
    requires i < |keys|
    ensures keys[..i + 1] == keys[..i] + [keys[i]]
  {
  }

  lemma TakeAll(keys: seq<string>)
    ensures keys[..|keys|] == keys
  {
  }

  lemma KeyAt(keys: seq<string>, groups: map<string, Cluster>, i: nat)
    requires multiset(keys) == multiset(groups.Keys) && i < |keys|
    ensures keys[i] in groups && keys[i] !in keys[..i]
  {
    var k := keys[i];
    assert k in multiset(keys);
    assert keys == keys[..i] + [k] + keys[i + 1..];
    assert multiset(keys)[k] == 1;
  }

  lemma AllKeys(r: Rate, keys: seq<string>, groups: map<string, Cluster>)
    requires multiset(keys) == multiset(groups.Keys)
    ensures Set(keys) == groups.Keys
    ensures Done(r, groups, keys) == Rated(r, groups)
  {
    forall k ensures k in keys <==> k in groups.Keys {
      assert k in keys <==> k in multiset(keys);
    }
  }

  lemma ShareMore(largest: real, groups: map<string, Cluster>, ids: set<string>, id: string, total: nat)
    requires LargestShare(largest, groups, ids, total) && id in groups
    ensures LargestShare(if Share(groups[id], total) > largest then Share(groups[id], total) else largest, groups, ids + {id}, total)
  {
    assert id in ids + {id};
    if largest != 0.0 {
      var k :| k in ids && k in groups && Share(groups[k], total) == largest;
      assert k in ids + {id};
    }
  }

  // ----- finish

  /** confusionMetric. */
  datatype Metric = Metric(counts: Counts, players: nat, matches: nat, precision: real, recall: real, falseRate: real,
                           precisionCI: Interval, recallCI: Interval, falseRateCI: Interval, clusters: Description)

  function Ratio(k: nat, n: nat): real {
    if n > 0 then k as real / n as real else 0.0
  }

  /** The interval of k successes in n trials as the function wilson gives it, and none without trials. */
  function IntervalOf(wilson: (int, int) -> Interval, k: nat, n: nat): Interval {
    if n > 0 then wilson(k, n) else Interval(0.0, 0.0)
  }

  /** m is the report of an accumulator that holds exactly the entries of log. */
  ghost predicate Reports(m: Metric, log: seq<Entry>, wilson: (int, int) -> Interval) {
    exists a :: Tallies(a, log) && Finished(a, m, wilson)
  }

  ghost predicate Finished(a: Acc, m: Metric, wilson: (int, int) -> Interval) {
    var c := a.counts;
    && m.counts == c && m.players == |a.players| && m.matches == |a.matches|
    && m.precision == Ratio(c.tp, c.tp + c.fp) && m.precisionCI == IntervalOf(wilson, c.tp, c.tp + c.fp)
    && m.recall == Ratio(c.tp, c.tp + c.fn) && m.recallCI == IntervalOf(wilson, c.tp, c.tp + c.fn)
    && m.falseRate == Ratio(c.fp, c.fp + c.tn) && m.falseRateCI == IntervalOf(wilson, c.fp, c.fp + c.tn)
    && Describes(m.clusters, a.clusters, c.positives + c.negatives)
  }

  /** finish. */
  method Finish(a: Acc, wilson: (int, int) -> Interval) returns (m: Metric)
    ensures Finished(a, m, wilson)
  {
    var c := a.counts;
    var precision, precisionCI := RateOf(c.tp, c.tp + c.fp, wilson);
    var recall, recallCI := RateOf(c.tp, c.tp + c.fn, wilson);
    var falseRate, falseRateCI := RateOf(c.fp, c.fp + c.tn, wilson);
    var clusters := DescribeClusters(a.clusters, c.positives + c.negatives);
    m := Metric(c, |a.players|, |a.matches|, precision, recall, falseRate, precisionCI, recallCI, falseRateCI, clusters);
  }

  method RateOf(k: nat, n: nat, wilson: (int, int) -> Interval) returns (rate: real, interval: Interval)
    ensures rate == Ratio(k, n) && interval == IntervalOf(wilson, k, n)
  {
    rate, interval := 0.0, Interval(0.0, 0.0);
    if n > 0 {
      rate, interval := k as real / n as real, wilson(k, n);
    }
  }
}
