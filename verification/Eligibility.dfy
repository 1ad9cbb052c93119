/** The promotion gate over the samples themselves: which reasons stand against a detector, and when none does. */
module Eligibility {
  import opened Metrics
  import opened ClusterRanges
  import opened DetectorMetrics
  import opened PromotionGate
  import opened PromotionProofs
  import opened Wilson
  import opened Dashboard
  import Strings
  import DatasetSplits

  // ----- What a sample says

  /** A decided sample of a player that cheated, or that played by the rules, with telemetry to decide it on. */
  predicate Cheated(e: Entry) {
    !e.sample.noWindow && e.sample.truth == Cheating
  }

  predicate Honest(e: Entry) {
    !e.sample.noWindow && e.sample.truth == Legitimate
  }

  predicate Decided(e: Entry) {
    Cheated(e) || Honest(e)
  }

  predicate Caught(e: Entry) {
    Cheated(e) && e.predicted
  }

  predicate Accused(e: Entry) {
    Honest(e) && e.predicted
  }

  function Number(p: Entry -> bool, log: seq<Entry>): nat {
    if log == [] then 0 else Number(p, log[..|log| - 1]) + if p(log[|log| - 1]) then 1 else 0
  }

  /** The clusters that some such sample names. */
  function Clusters(p: Entry -> bool, log: seq<Entry>): set<string> {
    set e | e in log && p(e) && e.sample.cluster != "" :: e.sample.cluster
  }

  function Players(log: seq<Entry>): set<string> {
    set e | e in log && Decided(e) :: e.sample.player
  }

  function MatchIds(log: seq<Entry>): set<string> {
    set e | e in log && Decided(e) :: e.sample.matchId
  }

  /** The decided samples that name the cluster. */
  function ClusterSize(log: seq<Entry>, id: string): nat {
    if log == [] then 0
    else ClusterSize(log[..|log| - 1], id) + if Decided(log[|log| - 1]) && log[|log| - 1].sample.cluster == id then 1 else 0
  }

  /** At most the share x of all decided samples names the cluster. */
  predicate HasAtMost(log: seq<Entry>, id: string, x: real) {
    ClusterSize(log, id) as real <= x * (Number(Cheated, log) + Number(Honest, log)) as real
  }

  /** No cluster has more than that share. */
  predicate SharesWithin(log: seq<Entry>, x: real) {
    forall id :: id in Clusters(Decided, log) ==> HasAtMost(log, id, x)
  }

  // ----- What the gate asks for

  /** The strata a detector must cover, by its family. */
  predicate Required(d: string, b: Band, key: string) {
    match b
    case Ping => key in {"low_under_80ms", "medium_80_150ms", "high_over_150ms"}
    case Capture => key in {"low_under_12hz", "standard_12_22hz", "high_over_22hz"}
    case Quality => false
    case Legal =>
      if |d| >= 6 && d[..6] == "THROW_" then key in {"normal", "stack", "block_push", "slap", "headbutt"}
      else if |d| >= 4 && d[..4] == "MOV_" then key in {"normal", "lean", "stack", "block_push"}
      else key in {"normal", "transition"}
  }

  /** The reasons the gate looks for. */
  predicate Asked(r: Reason, d: string) {
    match r
    case Narrow(w) => w != Whole
    case ThinStratum(b, key) => Required(d, b, key)
    case _ => true
  }

  /** Detectors that may never be promoted. */
  predicate Promotable(d: string) {
    d !in {"BIO_001", "MOV_003", "MOV_004", "MOV_005", "MOV_006",
           "PAT_001", "PAT_002", "PAT_003", "PAT_004", "PAT_005",
           "STATE_001", "STATE_003", "STATE_004", "STATE_005", "STATE_006", "STATE_007", "STATE_008",
           "THROW_004", "THROW_005", "THROW_006", "THROW_007"}
  }

  /** The split whose samples a report is about. */
  predicate Within(w: Which, split: string) {
    match w
    case Whole => true
    case Validating => split == "validation"
    case HeldOut => split == "holdout"
  }

  /** The samples a reason is about. */
  predicate Concerns(r: Reason, e: Entry) {
    match r
    case FewPositives(w) => Within(w, e.split)
    case FewNegatives(w) => Within(w, e.split)
    case LowPrecision(w) => Within(w, e.split)
    case LowRecall(w) => Within(w, e.split)
    case HighFalseRate(w) => Within(w, e.split)
    case PrecisionBound(w) => Within(w, e.split)
    case RecallBound(w) => Within(w, e.split)
    case FalseRateBound(w) => Within(w, e.split)
    case Narrow(w) => Within(w, e.split)
    case FewGroups(w) => Within(w, e.split)
    case Dominated(w) => Within(w, e.split)
    case ThinStratum(Ping, key) => e.sample.ping == key
    case ThinStratum(Capture, key) => e.sample.capture == key
    case ThinStratum(Quality, key) => e.sample.quality == key
    case ThinStratum(Legal, key) => e.sample.legal == key
    case _ => true
  }

  function Those(r: Reason, d: string, log: seq<Entry>): seq<Entry> {
    if log == [] then [] else
      var rest, e := Those(r, d, log[..|log| - 1]), log[|log| - 1];
      if e.sample.detector == d && Concerns(r, e) then rest + [e] else rest
  }

  /** What it takes for a reason not to stand, over the samples it is about. */
  ghost predicate MetBy(r: Reason, d: string, log: seq<Entry>) {
    var cheated, honest, caught, accused := Number(Cheated, log), Number(Honest, log), Number(Caught, log), Number(Accused, log);
    match r
    case Blocked => Promotable(d)
    case FewPositives(w) => cheated >= if w.Whole? then 160 else 80
    case FewNegatives(w) => honest >= if w.Whole? then 800 else 400
    case FewPlayers => |Players(log)| >= 10
    case FewMatches => |MatchIds(log)| >= 20
    case StaleSamples => forall e :: e in log && Decided(e) ==> e.sample.current
    case UnverifiedEvidence => forall e :: e in log && Decided(e) ==> e.sample.independent
    case UnusableSamples => forall e :: e in log ==> !e.sample.noWindow && (Decided(e) ==> !e.sample.unusable)
    case ConflictingSamples => forall e :: e in log && Decided(e) ==> e.split != "quarantined"
    case LowPrecision(_) => cheated > 0 ==> caught + accused > 0 && caught as real >= 0.95 * (caught + accused) as real
    case LowRecall(_) => caught as real >= 0.90 * cheated as real
    case HighFalseRate(_) => accused as real <= 0.01 * honest as real
    case PrecisionBound(_) => EnoughOf(caught, caught + accused, Q95, 0.95)
    case RecallBound(_) => EnoughOf(caught, cheated, Q95, 0.80)
    case FalseRateBound(_) => FewOf(accused, honest, Q95, 0.01)
    case Narrow(_) => |Players(log)| >= 5 && |MatchIds(log)| >= 5
    case FewGroups(w) =>
      && |Clusters(Decided, log)| >= (if w.Whole? then 10 else 5)
      && |Clusters(Cheated, log)| >= 3 && |Clusters(Honest, log)| >= 3
    case Dominated(w) => SharesWithin(log, if w.Whole? then 0.25 else 0.40)
    case ThinStratum(_, _) => honest >= 20 && |Clusters(Honest, log)| >= 3
  }

  ghost predicate Met(r: Reason, d: string, log: seq<Entry>) {
    MetBy(r, d, Those(r, d, log))
  }

  // ----- The samples of a report

  /** The report a reason is about. */
  function SelectorFor(r: Reason): Selector {
    match r
    case FewPositives(w) => SelectorOf(w)
    case FewNegatives(w) => SelectorOf(w)
    case LowPrecision(w) => SelectorOf(w)
    case LowRecall(w) => SelectorOf(w)
    case HighFalseRate(w) => SelectorOf(w)
    case PrecisionBound(w) => SelectorOf(w)
    case RecallBound(w) => SelectorOf(w)
    case FalseRateBound(w) => SelectorOf(w)
    case Narrow(w) => SelectorOf(w)
    case FewGroups(w) => SelectorOf(w)
    case Dominated(w) => SelectorOf(w)
    case ThinStratum(b, key) => InBand(b, key)
    case _ => Overall
  }

  lemma ConcernsSelected(r: Reason, e: Entry)
    ensures Concerns(r, e) <==> Selects(SelectorFor(r), e)
  {
  }

  lemma {:induction false} ThoseAreSelected(r: Reason, d: string, log: seq<Entry>)
    ensures Those(r, d, log) == Sublog(d, SelectorFor(r), log)
  {
    if log != [] {
      ThoseAreSelected(r, d, log[..|log| - 1]);
      ConcernsSelected(r, log[|log| - 1]);
    }
  }

  lemma {:induction false} NumberIsCount(p: Entry -> bool, f: Field, log: seq<Entry>)
    requires forall e :: p(e) <==> Hits(f, e)
    ensures Number(p, log) == CountOf(f, log)
  {
    if log != [] { NumberIsCount(p, f, log[..|log| - 1]); }
  }

  lemma {:induction false} NoneOrSome(f: Field, log: seq<Entry>)
    ensures CountOf(f, log) > 0 <==> exists e :: e in log && Hits(f, e)
  {
    if log != [] {
      var rest, last := log[..|log| - 1], log[|log| - 1];
      assert log == rest + [last];
      NoneOrSome(f, rest);
      assert last in log;
    }
  }

  /** Entries that a counter misses while others count them. */
  lemma {:induction false} AllCounted(f: Field, log: seq<Entry>)
    requires forall e :: Hits(f, e) ==> Decided(e)
    ensures CountOf(f, log) <= CountOf(Positive, log) + CountOf(Negative, log)
    ensures CountOf(f, log) == CountOf(Positive, log) + CountOf(Negative, log) <==> forall e :: e in log && Decided(e) ==> Hits(f, e)
  {
    if log != [] {
      var rest, last := log[..|log| - 1], log[|log| - 1];
      assert log == rest + [last];
      AllCounted(f, rest);
      assert last in log;
      assert Decided(last) <==> Hits(Positive, last) || Hits(Negative, last);
    }
  }

  /** What a report says of its samples. */
  lemma ReportNumbers(m: Metric, log: seq<Entry>, wilson: (int, int) -> Interval)
    requires Reports(m, log, wilson)
    ensures m.counts.tp == Number(Caught, log) && m.counts.fp == Number(Accused, log)
    ensures m.counts.positives == Number(Cheated, log) && m.counts.negatives == Number(Honest, log)
    ensures m.counts.tp + m.counts.fn == m.counts.positives && m.counts.fp + m.counts.tn == m.counts.negatives
    ensures m.precision == Ratio(m.counts.tp, m.counts.tp + m.counts.fp) && m.recall == Ratio(m.counts.tp, m.counts.positives)
    ensures m.falseRate == Ratio(m.counts.fp, m.counts.negatives)
  {
    NumberIsCount(Caught, TruePositive, log);
    NumberIsCount(Accused, FalsePositive, log);
    NumberIsCount(Cheated, Positive, log);
    NumberIsCount(Honest, Negative, log);
    hide Reports, Number, CountOf, Hits, Ratio;
    ConfusionCounted(m, log, wilson);
    ReportCounts(m, log, wilson);
    ReportRates(m, log, wilson);
  }

  lemma ReportRates(m: Metric, log: seq<Entry>, wilson: (int, int) -> Interval)
    requires Reports(m, log, wilson)
    ensures m.precision == Ratio(m.counts.tp, m.counts.tp + m.counts.fp) && m.recall == Ratio(m.counts.tp, m.counts.tp + m.counts.fn)
    ensures m.falseRate == Ratio(m.counts.fp, m.counts.fp + m.counts.tn)
  {
    hide Describes, Tallies, Ratio, IntervalOf;
    var a :| Tallies(a, log) && Finished(a, m, wilson);
  }

  lemma ReportSets(m: Metric, log: seq<Entry>, wilson: (int, int) -> Interval)
    requires Reports(m, log, wilson)
    ensures m.players == |Players(log)| && m.matches == |MatchIds(log)|
  {
    hide Describes;
    var a :| Tallies(a, log) && Finished(a, m, wilson);
    assert Players(log) == PlayersOf(log) && MatchIds(log) == MatchesOf(log);
  }

  // ----- The clusters of a report

  lemma {:induction false} InClusterHas(log: seq<Entry>, id: string, e: Entry)
    ensures e in InCluster(log, id) <==> e in log && e.sample.cluster == id
  {
    if log != [] {
      var rest, last := log[..|log| - 1], log[|log| - 1];
      assert log == rest + [last];
      InClusterHas(rest, id, e);
    }
  }

  lemma {:induction false} ClusterSizeIsCount(log: seq<Entry>, id: string)
    ensures ClusterSize(log, id) == CountOf(Positive, InCluster(log, id)) + CountOf(Negative, InCluster(log, id))
  {
    if log != [] {
      var rest, last := log[..|log| - 1], log[|log| - 1];
      assert log == rest + [last];
      hide InCluster, CountOf, Bit, Decided;
      ClusterSizeIsCount(rest, id);
      InClusterSnoc(rest, last, id);
      CountSnoc(Positive, InCluster(rest, id), last);
      CountSnoc(Negative, InCluster(rest, id), last);
      DecidedOnce(last);
      hide ClusterSize;
      ClusterSizeSnoc(rest, last, id);
    } else {
      hide ClusterSize;
      NoSize(id);
    }
  }

  lemma NoSize(id: string)
    ensures ClusterSize([], id) == 0 && InCluster([], id) == [] && CountOf(Positive, []) == 0 && CountOf(Negative, []) == 0
  {
  }

  lemma DecidedOnce(e: Entry)
    ensures Bit(Positive, e) + Bit(Negative, e) == if Decided(e) then 1 else 0
  {
  }

  lemma ClusterSizeSnoc(log: seq<Entry>, e: Entry, id: string)
    ensures ClusterSize(log + [e], id) == ClusterSize(log, id) + if Decided(e) && e.sample.cluster == id then 1 else 0
  {
    assert (log + [e])[..|log|] == log;
  }

  /** The groups with a sample of some kind are those some such sample names. */
  lemma KindInCluster(p: Entry -> bool, f: Field, log: seq<Entry>, id: string)
    requires id != "" && forall e :: p(e) <==> Hits(f, e)
    ensures CountOf(f, InCluster(log, id)) > 0 <==> id in Clusters(p, log)
  {
    NoneOrSome(f, InCluster(log, id));
    if e :| e in InCluster(log, id) && Hits(f, e) { InClusterHas(log, id, e); }
    if id in Clusters(p, log) {
      var e :| e in log && p(e) && e.sample.cluster == id;
      InClusterHas(log, id, e);
    }
  }

  /** What an accumulator knows of one cluster. */
  lemma ClusterKnown(a: Acc, log: seq<Entry>, id: string)
    requires Tallies(a, log) && id in a.clusters
    ensures var c := a.clusters[id];
            && c.tp + c.fn == CountOf(Positive, InCluster(log, id)) && c.fp + c.tn == CountOf(Negative, InCluster(log, id))
            && id != ""
  {
    BitsAddUp(TruePositive, FalseNegative, Positive, InCluster(log, id));
    BitsAddUp(FalsePositive, TrueNegative, Negative, InCluster(log, id));
    hide Tallies;
    ClusterCounts(a, log, id, TruePositive);
    ClusterCounts(a, log, id, FalsePositive);
    ClusterCounts(a, log, id, FalseNegative);
    ClusterCounts(a, log, id, TrueNegative);
  }

  lemma ClusterCounts(a: Acc, log: seq<Entry>, id: string, f: Field)
    requires Tallies(a, log) && id in a.clusters && Confusion(f)
    ensures ClusterGet(a.clusters[id], f) == CountOf(f, InCluster(log, id)) && id != ""
  {
    assert id in ClustersOf(log);
  }

  lemma GroupsAreClusters(a: Acc, log: seq<Entry>)
    requires Tallies(a, log)
    ensures a.clusters.Keys == Clusters(Decided, log)
    ensures Rated(Recall, a.clusters) == Clusters(Cheated, log) && Rated(FalseRate, a.clusters) == Clusters(Honest, log)
  {
    assert ClustersOf(log) == Clusters(Decided, log);
    forall id ensures id in Rated(Recall, a.clusters) <==> id in Clusters(Cheated, log) {
      RatedIs(a, log, id);
    }
    forall id ensures id in Rated(FalseRate, a.clusters) <==> id in Clusters(Honest, log) {
      RatedIs(a, log, id);
    }
  }

  lemma RatedIs(a: Acc, log: seq<Entry>, id: string)
    requires Tallies(a, log)
    ensures id in Rated(Recall, a.clusters) <==> id in Clusters(Cheated, log)
    ensures id in Rated(FalseRate, a.clusters) <==> id in Clusters(Honest, log)
  {
    if id in a.clusters {
      ClusterKnown(a, log, id);
      KindInCluster(Cheated, Positive, log, id);
      KindInCluster(Honest, Negative, log, id);
    } else {
      assert id !in ClustersOf(log);
    }
  }

  /** One cluster's share stays within x. */
  lemma ShareWithin(c: Cluster, total: nat, n: nat, x: real)
    requires n == c.tp + c.fp + c.tn + c.fn && total > 0
    ensures Share(c, total) <= x <==> n as real <= x * total as real
  {
    var t, q := total as real, Share(c, total);
    assert q * t == n as real;
    if q <= x { ScaleOrder(q, x, t); }
    if q > x { MulMonotone(t, x, q); Swap(t, x); Swap(t, q); }
  }

  lemma LargestWithin(m: Metric, a: Acc, log: seq<Entry>, wilson: (int, int) -> Interval, x: real)
    requires Tallies(a, log) && Finished(a, m, wilson) && x >= 0.0
    ensures m.clusters.largestFraction <= x <==> SharesWithin(log, x)
  {
    hide Tallies, Share, Clusters, Number, ClusterSize, HasAtMost, Describes, Ratio, IntervalOf;
    GroupsAreClusters(a, log);
    TotalIs(a, log);
    var total := Number(Cheated, log) + Number(Honest, log);
    assert Describes(m.clusters, a.clusters, total);
    hide Finished, SharesWithin;
    LargestIs(m.clusters, a.clusters, total, x);
    forall id | id in a.clusters ensures Share(a.clusters[id], total) <= x <==> HasAtMost(log, id, x) {
      ShareOfCluster(a, log, id, total, x);
    }
    SharesAgree(a, log, total, x);
  }

  lemma SharesAgree(a: Acc, log: seq<Entry>, total: nat, x: real)
    requires a.clusters.Keys == Clusters(Decided, log)
    requires forall id :: id in a.clusters ==> (Share(a.clusters[id], total) <= x <==> HasAtMost(log, id, x))
    ensures SharesWithin(log, x) <==> forall id :: id in a.clusters ==> Share(a.clusters[id], total) <= x
  {
    hide Share, Clusters, HasAtMost;
    assert forall id :: id in a.clusters <==> id in a.clusters.Keys;
  }

  lemma LargestIs(d: Description, groups: map<string, Cluster>, total: nat, x: real)
    requires Describes(d, groups, total) && x >= 0.0
    ensures d.largestFraction <= x <==> forall id :: id in groups ==> Share(groups[id], total) <= x
  {
    hide Spans, Averages, Share;
  }

  lemma TotalIs(a: Acc, log: seq<Entry>)
    requires Tallies(a, log)
    ensures a.counts.positives + a.counts.negatives == Number(Cheated, log) + Number(Honest, log)
  {
    NumberIsCount(Cheated, Positive, log);
    NumberIsCount(Honest, Negative, log);
    assert Get(a.counts, Positive) == CountOf(Positive, log) && Get(a.counts, Negative) == CountOf(Negative, log);
  }

  lemma ShareOfCluster(a: Acc, log: seq<Entry>, id: string, total: nat, x: real)
    requires Tallies(a, log) && id in a.clusters && total == Number(Cheated, log) + Number(Honest, log)
    ensures Share(a.clusters[id], total) <= x <==> HasAtMost(log, id, x)
  {
    hide Tallies, Clusters, Number, ClusterSize, Share, Rated, CountOf, HasAtMost;
    ClusterOfSize(a, log, id, total);
    ShareWithin(a.clusters[id], total, ClusterSize(log, id), x);
    AtMostOf(log, id, total, x);
  }

  lemma AtMostOf(log: seq<Entry>, id: string, total: nat, x: real)
    requires total == Number(Cheated, log) + Number(Honest, log)
    ensures HasAtMost(log, id, x) <==> ClusterSize(log, id) as real <= x * total as real
  {
    hide ClusterSize, Number;
  }

  lemma ClusterOfSize(a: Acc, log: seq<Entry>, id: string, total: nat)
    requires Tallies(a, log) && id in a.clusters && total == Number(Cheated, log) + Number(Honest, log)
    ensures var c := a.clusters[id]; ClusterSize(log, id) == c.tp + c.fp + c.tn + c.fn && total > 0
  {
    hide Number, CountOf, ClusterSize, Clusters, InCluster, Rated;
    GroupsAreClusters(a, log);
    ClusterKnown(a, log, id);
    hide Tallies;
    ClusterSizeIsCount(log, id);
    DecidedSomewhere(log, id);
    NumberIsCount(Cheated, Positive, log);
    NumberIsCount(Honest, Negative, log);
  }

  lemma DecidedSomewhere(log: seq<Entry>, id: string)
    requires id in Clusters(Decided, log)
    ensures CountOf(Positive, log) + CountOf(Negative, log) > 0
  {
    NoneOrSome(Positive, log);
    NoneOrSome(Negative, log);
    var e :| e in log && Decided(e) && e.sample.cluster == id;
    assert Hits(Positive, e) || Hits(Negative, e);
  }

  lemma ReportGroups(m: Metric, log: seq<Entry>, wilson: (int, int) -> Interval, x: real)
    requires Reports(m, log, wilson) && x >= 0.0
    ensures m.clusters.groups == |Clusters(Decided, log)|
    ensures m.clusters.positiveGroups == |Clusters(Cheated, log)| && m.clusters.negativeGroups == |Clusters(Honest, log)|
    ensures m.clusters.largestFraction <= x <==> SharesWithin(log, x)
  {
    hide Tallies, Clusters, SharesWithin;
    var a :| Tallies(a, log) && Finished(a, m, wilson);
    GroupsAreClusters(a, log);
    LargestWithin(m, a, log, wilson, x);
  }

  // ----- A detector without samples

  lemma NoReportReports(wilson: (int, int) -> Interval)
    ensures Reports(NO_REPORT, [], wilson)
  {
    NothingTalliesNothing();
    NothingFinished(wilson);
    hide Tallies, Finished;
  }

  lemma NothingFinished(wilson: (int, int) -> Interval)
    ensures Finished(NOTHING, NO_REPORT, wilson)
  {
    NothingDescribed();
    NoRate(wilson);
    hide Describes;
    FinishedWithoutRates(NOTHING, NO_REPORT, wilson);
  }

  lemma FinishedWithoutRates(a: Acc, m: Metric, wilson: (int, int) -> Interval)
    requires a.counts == NO_COUNTS == m.counts && m.players == |a.players| && m.matches == |a.matches|
    requires m.precision == m.recall == m.falseRate == 0.0 && m.precisionCI == m.recallCI == m.falseRateCI == Interval(0.0, 0.0)
    requires Describes(m.clusters, a.clusters, a.counts.positives + a.counts.negatives)
    ensures Finished(a, m, wilson)
  {
    NoRate(wilson);
    hide Describes, Ratio, IntervalOf;
    var c := a.counts;
    assert c.tp == 0 && c.fp == 0 && c.fn == 0 && c.tn == 0;
  }

  lemma NoRate(wilson: (int, int) -> Interval)
    ensures Ratio(0, 0) == 0.0 && IntervalOf(wilson, 0, 0) == Interval(0.0, 0.0)
  {
  }

  lemma NothingDescribed()
    ensures Describes(NO_DESCRIPTION, NOTHING.clusters, NOTHING.counts.positives + NOTHING.counts.negatives)
  {
    assert Rated(Recall, NOTHING.clusters) == {} && Rated(FalseRate, NOTHING.clusters) == {};
  }

  lemma {:induction false} NothingSelected(d: string, sel: Selector, log: seq<Entry>)
    requires Sublog(d, Overall, log) == []
    ensures Sublog(d, sel, log) == []
  {
    if log != [] { NothingSelected(d, sel, log[..|log| - 1]); }
  }

  /** Measured or not, a report is that of its samples. */
  lemma MeasuredIsReported(m: DetectorMetric, d: string, log: seq<Entry>, wilson: (int, int) -> Interval)
    requires Measured(m, d, log, wilson)
    ensures Reported(m, d, log, wilson)
  {
    hide Reports;
    if Sublog(d, Overall, log) == [] {
      NoReportReports(wilson);
      NothingSelected(d, InPart(Training), log);
      NothingSelected(d, InPart(Validation), log);
      NothingSelected(d, InPart(Holdout), log);
      forall b: Band, k: string ensures Sublog(d, InBand(b, k), log) == [] { NothingSelected(d, InBand(b, k), log); }
    }
  }

  // ----- Each reason, over the samples

  lemma RatioAtLeast(k: nat, n: nat, x: real)
    requires n > 0
    ensures Ratio(k, n) < x <==> (k as real) < x * n as real
  {
    var t, q := n as real, Ratio(k, n);
    assert q * t == k as real;
    Swap(t, x);
    Swap(t, q);
    if q < x { MulMonotone(t, q, x); }
    if q >= x { ScaleOrder(x, q, t); }
  }

  lemma RatioAtMost(k: nat, n: nat, x: real)
    requires n > 0
    ensures Ratio(k, n) > x <==> k as real > x * n as real
  {
    var t, q := n as real, Ratio(k, n);
    assert q * t == k as real;
    Swap(t, x);
    Swap(t, q);
    if q > x { MulMonotone(t, x, q); }
    if q <= x { ScaleOrder(q, x, t); }
  }

  /** A report and the samples it is about. */
  lemma ReportFor(m: DetectorMetric, d: string, log: seq<Entry>, wilson: (int, int) -> Interval, w: Which)
    requires Reported(m, d, log, wilson)
    ensures Reports(ReportOf(m, w), Sublog(d, SelectorOf(w), log), wilson)
  {
    hide Reports, BandReported;
  }

  /** What the gate finds wrong with the counts, the sets and the groups of a report. */
  lemma CountFails(m: DetectorMetric, w: Which, wilson: (int, int) -> Interval)
    ensures var r, c := ReportOf(m, w), ReportOf(m, w).counts;
            && (Fails(FewPositives(w), m, wilson) <==> c.positives < if w.Whole? then 160 else 80)
            && (Fails(FewNegatives(w), m, wilson) <==> c.negatives < if w.Whole? then 800 else 400)
            && (Fails(LowPrecision(w), m, wilson) <==> c.positives > 0 && r.precision < 0.95)
            && (Fails(LowRecall(w), m, wilson) <==> c.positives > 0 && r.recall < 0.90)
            && (Fails(HighFalseRate(w), m, wilson) <==> c.negatives > 0 && r.falseRate > 0.01)
  {
    hide PrecisionUnproved, RecallUnproved, FalseRateUnproved, ThinAt;
  }

  lemma SetFails(m: DetectorMetric, w: Which, wilson: (int, int) -> Interval)
    ensures Fails(FewPlayers, m, wilson) <==> m.overall.players < 10
    ensures Fails(FewMatches, m, wilson) <==> m.overall.matches < 20
    ensures Fails(Narrow(w), m, wilson) <==> ReportOf(m, w).players < 5 || ReportOf(m, w).matches < 5
  {
    hide PrecisionUnproved, RecallUnproved, FalseRateUnproved, ThinAt;
  }

  lemma GroupFails(m: DetectorMetric, w: Which, wilson: (int, int) -> Interval)
    ensures var c := ReportOf(m, w).clusters;
            && (Fails(FewGroups(w), m, wilson) <==> c.groups < (if w.Whole? then 10 else 5) || c.positiveGroups < 3 || c.negativeGroups < 3)
            && (Fails(Dominated(w), m, wilson) <==> c.largestFraction > if w.Whole? then 0.25 else 0.40)
  {
    hide PrecisionUnproved, RecallUnproved, FalseRateUnproved, ThinAt;
  }

  lemma CountMet(d: string, log: seq<Entry>, w: Which)
    ensures var cheated, honest, caught, accused := Number(Cheated, log), Number(Honest, log), Number(Caught, log), Number(Accused, log);
            && (MetBy(FewPositives(w), d, log) <==> cheated >= if w.Whole? then 160 else 80)
            && (MetBy(FewNegatives(w), d, log) <==> honest >= if w.Whole? then 800 else 400)
            && (MetBy(LowPrecision(w), d, log) <==> (cheated > 0 ==> caught + accused > 0 && caught as real >= 0.95 * (caught + accused) as real))
            && (MetBy(LowRecall(w), d, log) <==> caught as real >= 0.90 * cheated as real)
            && (MetBy(HighFalseRate(w), d, log) <==> accused as real <= 0.01 * honest as real)
  {
    hide Number, EnoughOf, FewOf, Clusters, Players, MatchIds, ClusterSize, Promotable;
  }

  lemma SetMet(d: string, log: seq<Entry>, w: Which)
    ensures MetBy(FewPlayers, d, log) <==> |Players(log)| >= 10
    ensures MetBy(FewMatches, d, log) <==> |MatchIds(log)| >= 20
    ensures MetBy(Narrow(w), d, log) <==> |Players(log)| >= 5 && |MatchIds(log)| >= 5
  {
    hide Number, EnoughOf, FewOf, Clusters, Players, MatchIds, ClusterSize, Promotable;
  }

  lemma GroupMet(d: string, log: seq<Entry>, w: Which)
    ensures MetBy(FewGroups(w), d, log) <==>
              |Clusters(Decided, log)| >= (if w.Whole? then 10 else 5) && |Clusters(Cheated, log)| >= 3 && |Clusters(Honest, log)| >= 3
    ensures MetBy(Dominated(w), d, log) <==> SharesWithin(log, if w.Whole? then 0.25 else 0.40)
  {
    hide SharesWithin, Number, EnoughOf, FewOf, Clusters, Players, MatchIds, ClusterSize, Promotable;
  }

  lemma BoundMet(d: string, log: seq<Entry>, w: Which)
    ensures MetBy(PrecisionBound(w), d, log) <==> EnoughOf(Number(Caught, log), Number(Caught, log) + Number(Accused, log), Q95, MIN_PRECISION)
    ensures MetBy(RecallBound(w), d, log) <==> EnoughOf(Number(Caught, log), Number(Cheated, log), Q95, MIN_RECALL_LOWER)
    ensures MetBy(FalseRateBound(w), d, log) <==> FewOf(Number(Accused, log), Number(Honest, log), Q95, MAX_FALSE_RATE)
  {
    hide Number, EnoughOf, FewOf, Clusters, Players, MatchIds, ClusterSize, Promotable;
  }

  lemma EvidenceMet(d: string, log: seq<Entry>)
    ensures MetBy(StaleSamples, d, log) <==> forall e :: e in log && Decided(e) ==> e.sample.current
    ensures MetBy(UnverifiedEvidence, d, log) <==> forall e :: e in log && Decided(e) ==> e.sample.independent
    ensures MetBy(UnusableSamples, d, log) <==> forall e :: e in log ==> !e.sample.noWindow && (Decided(e) ==> !e.sample.unusable)
    ensures MetBy(ConflictingSamples, d, log) <==> forall e :: e in log && Decided(e) ==> e.split != "quarantined"
  {
    hide Number, EnoughOf, FewOf, Clusters, Players, MatchIds, ClusterSize, Promotable;
  }

  lemma StratumMet(d: string, log: seq<Entry>, b: Band, key: string)
    ensures MetBy(ThinStratum(b, key), d, log) <==> Number(Honest, log) >= 20 && |Clusters(Honest, log)| >= 3
  {
    hide Number, EnoughOf, FewOf, Clusters, Players, MatchIds, ClusterSize, Promotable;
  }

  /** A reason stands against a report exactly if its samples do not meet it. */
  ghost predicate Agrees(r: Reason, m: DetectorMetric, d: string, log: seq<Entry>, wilson: (int, int) -> Interval) {
    Fails(r, m, wilson) <==> !MetBy(r, d, Sublog(d, SelectorFor(r), log))
  }

  lemma CountsAgree(m: DetectorMetric, d: string, log: seq<Entry>, wilson: (int, int) -> Interval, w: Which)
    requires Reported(m, d, log, wilson)
    ensures Agrees(FewPositives(w), m, d, log, wilson) && Agrees(FewNegatives(w), m, d, log, wilson)
    ensures Agrees(LowPrecision(w), m, d, log, wilson) && Agrees(LowRecall(w), m, d, log, wilson) && Agrees(HighFalseRate(w), m, d, log, wilson)
  {
    hide Fails, MetBy, Reported, Reports, Sublog, Number, Ratio;
    var own, c := Sublog(d, SelectorOf(w), log), ReportOf(m, w).counts;
    ReportFor(m, d, log, wilson, w);
    ReportNumbers(ReportOf(m, w), own, wilson);
    CountFails(m, w, wilson);
    CountMet(d, own, w);
    if c.tp + c.fp > 0 { RatioAtLeast(c.tp, c.tp + c.fp, 0.95); } else { NoRatio(c.tp); }
    if c.positives > 0 { RatioAtLeast(c.tp, c.positives, 0.90); }
    if c.negatives > 0 { RatioAtMost(c.fp, c.negatives, 0.01); }
  }

  lemma NoRatio(k: nat)
    ensures Ratio(k, 0) == 0.0
  {
  }

  lemma SetsAgree(m: DetectorMetric, d: string, log: seq<Entry>, wilson: (int, int) -> Interval, w: Which)
    requires Reported(m, d, log, wilson)
    ensures Agrees(FewPlayers, m, d, log, wilson) && Agrees(FewMatches, m, d, log, wilson) && Agrees(Narrow(w), m, d, log, wilson)
  {
    hide Fails, MetBy, Reported, Reports, Sublog, Players, MatchIds;
    ReportFor(m, d, log, wilson, w);
    ReportFor(m, d, log, wilson, Whole);
    ReportSets(ReportOf(m, w), Sublog(d, SelectorOf(w), log), wilson);
    ReportSets(m.overall, Sublog(d, Overall, log), wilson);
    SetFails(m, w, wilson);
    SetMet(d, Sublog(d, SelectorOf(w), log), w);
    SetMet(d, Sublog(d, Overall, log), w);
  }

  lemma GroupsAgree(m: DetectorMetric, d: string, log: seq<Entry>, wilson: (int, int) -> Interval, w: Which)
    requires Reported(m, d, log, wilson)
    ensures Agrees(FewGroups(w), m, d, log, wilson) && Agrees(Dominated(w), m, d, log, wilson)
  {
    hide Fails, MetBy, Reported, Reports, Sublog, Number, Clusters, ClusterSize, SharesWithin;
    ReportFor(m, d, log, wilson, w);
    ReportGroups(ReportOf(m, w), Sublog(d, SelectorOf(w), log), wilson, if w.Whole? then 0.25 else 0.40);
    GroupFails(m, w, wilson);
    GroupMet(d, Sublog(d, SelectorOf(w), log), w);
  }

  lemma BoundsAgree(m: DetectorMetric, d: string, log: seq<Entry>, sqrt: real -> real, w: Which)
    requires Reported(m, d, log, WilsonWith(Q95, sqrt)) && RootsForSamples(Sublog(d, SelectorOf(w), log), Q95, sqrt)
    ensures var wilson := WilsonWith(Q95, sqrt);
            Agrees(PrecisionBound(w), m, d, log, wilson) && Agrees(RecallBound(w), m, d, log, wilson) && Agrees(FalseRateBound(w), m, d, log, wilson)
  {
    hide Fails, MetBy, Reported, Reports, Sublog, Number, WilsonWith, EnoughOf, FewOf, PrecisionUnproved, RecallUnproved, FalseRateUnproved, Sqrt;
    var own, wilson := Sublog(d, SelectorOf(w), log), WilsonWith(Q95, sqrt);
    ReportFor(m, d, log, wilson, w);
    ReportNumbers(ReportOf(m, w), own, wilson);
    ConfusionCounted(ReportOf(m, w), own, wilson);
    BoundFails(m, w, wilson);
    BoundsAreInequalities(ReportOf(m, w).counts, Q95, sqrt);
    BoundMet(d, own, w);
  }

  lemma EvidenceAgrees(m: DetectorMetric, d: string, log: seq<Entry>, wilson: (int, int) -> Interval)
    requires Reported(m, d, log, wilson) && ConflictsMarked(Sublog(d, Overall, log))
    ensures Agrees(StaleSamples, m, d, log, wilson) && Agrees(UnverifiedEvidence, m, d, log, wilson)
    ensures Agrees(UnusableSamples, m, d, log, wilson) && Agrees(ConflictingSamples, m, d, log, wilson)
  {
    hide Fails, MetBy, Reported, Reports, Sublog, CountOf, Hits, ConflictsMarked, Decided;
    var own := Sublog(d, Overall, log);
    ReportFor(m, d, log, wilson, Whole);
    EvidenceCounts(m.overall, own, wilson);
    EvidenceFails(m, wilson);
    UnusableFails(m, wilson);
    EvidenceMet(d, own);
  }

  lemma UnusableFails(m: DetectorMetric, wilson: (int, int) -> Interval)
    ensures Fails(UnusableSamples, m, wilson) <==> m.overall.counts.unusable > 0
  {
    hide PrecisionUnproved, RecallUnproved, FalseRateUnproved, ThinAt;
  }

  lemma EvidenceCounts(m: Metric, log: seq<Entry>, wilson: (int, int) -> Interval)
    requires Reports(m, log, wilson) && ConflictsMarked(log)
    ensures m.counts.stale == 0 <==> forall e :: e in log && Decided(e) ==> e.sample.current
    ensures m.counts.independent == m.counts.positives + m.counts.negatives <==> forall e :: e in log && Decided(e) ==> e.sample.independent
    ensures m.counts.unusable == 0 <==> forall e :: e in log ==> !e.sample.noWindow && (Decided(e) ==> !e.sample.unusable)
    ensures m.counts.conflicts == 0 <==> forall e :: e in log && Decided(e) ==> e.split != "quarantined"
  {
    hide Reports, CountOf, Hits, ConflictsMarked, Decided;
    ReportCount(m, log, wilson, Stale);
    ReportCount(m, log, wilson, Independent);
    ReportCount(m, log, wilson, Unusable);
    ReportCount(m, log, wilson, Conflict);
    ReportCount(m, log, wilson, Positive);
    ReportCount(m, log, wilson, Negative);
    NoneStale(log);
    NoneUnusable(log);
    NoneConflicting(log);
    AllIndependent(log);
  }

  lemma NoneStale(log: seq<Entry>)
    ensures CountOf(Stale, log) == 0 <==> forall e :: e in log && Decided(e) ==> e.sample.current
  {
    NoneOrSome(Stale, log);
    hide CountOf;
  }

  lemma NoneUnusable(log: seq<Entry>)
    ensures CountOf(Unusable, log) == 0 <==> forall e :: e in log ==> !e.sample.noWindow && (Decided(e) ==> !e.sample.unusable)
  {
    NoneOrSome(Unusable, log);
    hide CountOf;
  }

  lemma NoneConflicting(log: seq<Entry>)
    requires ConflictsMarked(log)
    ensures CountOf(Conflict, log) == 0 <==> forall e :: e in log && Decided(e) ==> e.split != "quarantined"
  {
    NoneOrSome(Conflict, log);
    hide CountOf;
  }

  lemma AllIndependent(log: seq<Entry>)
    ensures CountOf(Independent, log) == CountOf(Positive, log) + CountOf(Negative, log)
       <==> forall e :: e in log && Decided(e) ==> e.sample.independent
  {
    AllCounted(Independent, log);
    hide CountOf;
  }

  lemma StrataAgree(m: DetectorMetric, d: string, log: seq<Entry>, wilson: (int, int) -> Interval, b: Band, key: string)
    requires Reported(m, d, log, wilson)
    ensures Agrees(ThinStratum(b, key), m, d, log, wilson)
  {
    var own, values := Sublog(d, InBand(b, key), log), Stratum(m, b);
    hide Fails, MetBy, Reports, Sublog, Clusters, ClusterSize;
    assert BandReported(values, d, b, log, wilson);
    assert own == [] ==> Number(Honest, own) == 0;
    hide Number, Reported;
    if key in values {
      ReportNumbers(values[key], own, wilson);
      ReportGroups(values[key], own, wilson, 0.0);
    }
    ThinFails(b, key, m, wilson);
    StratumMet(d, own, b, key);
  }

  lemma BlockingAgrees(m: DetectorMetric, d: string, log: seq<Entry>, wilson: (int, int) -> Interval)
    requires m.detector == d
    ensures Agrees(Blocked, m, d, log, wilson)
  {
    hide PrecisionUnproved, RecallUnproved, FalseRateUnproved, ThinAt, EnoughOf, FewOf, Clusters, Players, MatchIds, ClusterSize, Number, Sublog;
  }

  // ----- All the reasons

  /** Every reason the gate may look for, over the samples. */
  lemma EveryReasonAgrees(r: Reason, m: DetectorMetric, d: string, log: seq<Entry>, sqrt: real -> real)
    requires Reported(m, d, log, WilsonWith(Q95, sqrt)) && ConflictsMarked(Sublog(d, Overall, log))
    requires BoundsOne(r) ==> RootsForSamples(Sublog(d, SelectorFor(r), log), Q95, sqrt)
    ensures Agrees(r, m, d, log, WilsonWith(Q95, sqrt))
  {
    hide Agrees, Sublog, RootsForSamples, WilsonWith, ConflictsMarked, Reports, BandReported;
    var wilson := WilsonWith(Q95, sqrt);
    match r
    case Blocked => BlockingAgrees(m, d, log, wilson);
    case FewPositives(w) => CountsAgree(m, d, log, wilson, w);
    case FewNegatives(w) => CountsAgree(m, d, log, wilson, w);
    case LowPrecision(w) => CountsAgree(m, d, log, wilson, w);
    case LowRecall(w) => CountsAgree(m, d, log, wilson, w);
    case HighFalseRate(w) => CountsAgree(m, d, log, wilson, w);
    case FewPlayers => SetsAgree(m, d, log, wilson, Whole);
    case FewMatches => SetsAgree(m, d, log, wilson, Whole);
    case Narrow(w) => SetsAgree(m, d, log, wilson, w);
    case StaleSamples => EvidenceAgrees(m, d, log, wilson);
    case UnverifiedEvidence => EvidenceAgrees(m, d, log, wilson);
    case UnusableSamples => EvidenceAgrees(m, d, log, wilson);
    case ConflictingSamples => EvidenceAgrees(m, d, log, wilson);
    case PrecisionBound(w) => BoundsAgree(m, d, log, sqrt, w);
    case RecallBound(w) => BoundsAgree(m, d, log, sqrt, w);
    case FalseRateBound(w) => BoundsAgree(m, d, log, sqrt, w);
    case FewGroups(w) => GroupsAgree(m, d, log, wilson, w);
    case Dominated(w) => GroupsAgree(m, d, log, wilson, w);
    case ThinStratum(b, key) => StrataAgree(m, d, log, wilson, b, key);
  }

  predicate BoundsOne(r: Reason) {
    r.PrecisionBound? || r.RecallBound? || r.FalseRateBound?
  }

  lemma {:induction false} MarkedSublog(d: string, sel: Selector, log: seq<Entry>)
    requires ConflictsMarked(log)
    ensures ConflictsMarked(Sublog(d, sel, log))
  {
    if log != [] { MarkedSublog(d, sel, log[..|log| - 1]); }
  }

  lemma {:induction false} StratumReasonsHave(b: Band, keys: seq<string>, r: Reason)
    ensures r in StratumReasons(b, keys) <==> r.ThinStratum? && r.band == b && r.key in keys
  {
    if keys != [] {
      var rest, k := keys[..|keys| - 1], keys[|keys| - 1];
      assert keys == rest + [k];
      StratumReasonsHave(b, rest, r);
    }
  }

  lemma CountReasonsHave(r: Reason)
    ensures r in CountReasons() <==>
              || (r.FewPositives? || r.FewNegatives? || r.FewPlayers? || r.FewMatches?)
              || (r.StaleSamples? || r.UnverifiedEvidence? || r.UnusableSamples? || r.ConflictingSamples?)
              || (r.LowPrecision? || r.LowRecall? || r.HighFalseRate?)
  {
    FloorReasonsHave(r);
    RateReasonsHave(r, Whole);
    RateReasonsHave(r, HeldOut);
    RateReasonsHave(r, Validating);
    assert r in EvidenceReasons() <==> r.StaleSamples? || r.UnverifiedEvidence? || r.UnusableSamples? || r.ConflictingSamples?;
    hide FloorReasons, EvidenceReasons, RateReasons;
  }

  lemma FloorReasonsHave(r: Reason)
    ensures r in FloorReasons() <==> r.FewPositives? || r.FewNegatives? || r.FewPlayers? || r.FewMatches?
  {
    var rs := FloorReasons();
    assert rs[0] == FewPositives(Whole) && rs[1] == FewNegatives(Whole) && rs[2] == FewPlayers && rs[3] == FewMatches;
    assert rs[4] == FewPositives(HeldOut) && rs[5] == FewNegatives(HeldOut);
    assert rs[6] == FewPositives(Validating) && rs[7] == FewNegatives(Validating);
    if r.FewPositives? || r.FewNegatives? {
      match r.w case Whole => case Validating => case HeldOut =>
    }
  }

  lemma RateReasonsHave(r: Reason, w: Which)
    ensures r in RateReasons(w) <==> (r.LowPrecision? || r.LowRecall? || r.HighFalseRate?) && r.w == w
  {
  }

  lemma OrderPrefixes()
    ensures ORDER == [Whole, Validating] + [HeldOut] && [Whole, Validating] == [Whole] + [Validating] && [Whole] == [] + [Whole]
  {
  }

  lemma BoundReasonsHave(r: Reason)
    ensures r in BoundReasons(ORDER) <==> BoundsOne(r) || (r.Narrow? && r.w != Whole)
    ensures r in GroupReasons(ORDER) <==> r.FewGroups? || r.Dominated?
  {
    OrderPrefixes();
    BoundReasonsOfHave(r, Whole);
    BoundReasonsOfHave(r, Validating);
    BoundReasonsOfHave(r, HeldOut);
    assert GroupReasons([]) == [] && BoundReasons([]) == [];
    BoundReasonsSnoc([], Whole);
    BoundReasonsSnoc([Whole], Validating);
    BoundReasonsSnoc([Whole, Validating], HeldOut);
    hide GroupReasons, BoundReasons, BoundReasonsOf;
  }

  lemma BoundReasonsSnoc(ws: seq<Which>, w: Which)
    ensures BoundReasons(ws + [w]) == BoundReasons(ws) + BoundReasonsOf(w)
    ensures GroupReasons(ws + [w]) == GroupReasons(ws) + [FewGroups(w), Dominated(w)]
  {
    assert (ws + [w])[..|ws|] == ws;
  }

  lemma BoundReasonsOfHave(r: Reason, w: Which)
    ensures r in BoundReasonsOf(w) <==> (BoundsOne(r) || (r.Narrow? && w != Whole)) && r.w == w
    ensures r in [FewGroups(w), Dominated(w)] <==> (r.FewGroups? || r.Dominated?) && r.w == w
  {
    var rs := BoundReasonsOf(w);
    assert rs[0] == PrecisionBound(w) && rs[1] == RecallBound(w) && rs[2] == FalseRateBound(w);
    assert w != Whole ==> rs[3] == Narrow(w);
  }

  /** The keys listed for a detector are the ones it must cover. */
  lemma RequiredKeys(d: string, b: Band, key: string)
    requires b != Quality
    ensures key in StrataKeys(b, d) <==> Required(d, b, key)
  {
    assert HasPrefix(d, "THROW_") <==> |d| >= 6 && d[..6] == "THROW_";
    assert HasPrefix(d, "MOV_") <==> |d| >= 4 && d[..4] == "MOV_";
  }

  /** The gate considers exactly the reasons it is asked to. */
  lemma ConsideredIsAsked(d: string, r: Reason)
    ensures r in Considered(d) <==> Asked(r, d)
  {
    CountReasonsHave(r);
    BoundReasonsHave(r);
    StratumReasonsHave(Ping, StrataKeys(Ping, d), r);
    StratumReasonsHave(Capture, StrataKeys(Capture, d), r);
    StratumReasonsHave(Legal, StrataKeys(Legal, d), r);
    if r.ThinStratum? && r.band != Quality { RequiredKeys(d, r.band, r.key); }
    hide GroupReasons, CountReasons, BoundReasons, StratumReasons, StrataKeys;
  }

  lemma {:induction false} ApplyingHas(rs: seq<Reason>, m: DetectorMetric, wilson: (int, int) -> Interval, r: Reason)
    ensures r in Applying(rs, m, wilson) <==> r in rs && Fails(r, m, wilson)
  {
    hide Fails;
    if rs != [] {
      var rest, last := rs[..|rs| - 1], rs[|rs| - 1];
      assert rs == rest + [last];
      ApplyingHas(rest, m, wilson, r);
    }
  }

  // ----- The decision, from the samples

  /** The square root is one wherever the gate needs it for these samples. */
  ghost predicate RootsForAll(d: string, log: seq<Entry>, sqrt: real -> real) {
    forall w :: RootsForSamples(Sublog(d, SelectorOf(w), log), Q95, sqrt)
  }

  /** A reason stands against a detector exactly if the gate asks for it and the samples it is about do not meet it. */
  lemma ReasonsExactlyWhen(g: Gated, d: string, configured: bool, samples: seq<Sample>,
                           events: map<string, seq<Events.DetectionEvent>>, splits: map<string, string>, sqrt: real -> real, r: Reason)
    requires GatedAs(g, d, configured, Labelled(samples, events, splits), WilsonWith(Q95, sqrt))
    requires RootsForAll(d, Labelled(samples, events, splits), sqrt)
    ensures r in g.reasons <==> configured && Asked(r, d) && !Met(r, d, Labelled(samples, events, splits))
  {
    hide Labelled, Considered, Fails, Applying, Reported, ConflictsMarked, WilsonWith, MetBy, Asked, RootsForSamples, Measured;
    var log, wilson := Labelled(samples, events, splits), WilsonWith(Q95, sqrt);
    LabelledMarksConflicts(samples, events, splits);
    MarkedSublog(d, Overall, log);
    MeasuredIsReported(g.metric, d, log, wilson);
    MeasuredIsNamed(g.metric, d, log, wilson);
    ConsideredIsAsked(d, r);
    ApplyingHas(Considered(d), g.metric, wilson, r);
    ThoseAreSelected(r, d, log);
    EveryReasonAgrees(r, g.metric, d, log, sqrt);
  }

  /** A detector is eligible for promotion if and only if it is configured and its samples meet all the gate asks for. */
  lemma EligibleExactlyWhen(g: Gated, d: string, configured: bool, samples: seq<Sample>,
                            events: map<string, seq<Events.DetectionEvent>>, splits: map<string, string>, sqrt: real -> real)
    requires GatedAs(g, d, configured, Labelled(samples, events, splits), WilsonWith(Q95, sqrt))
    requires RootsForAll(d, Labelled(samples, events, splits), sqrt)
    ensures g.eligible <==> configured && forall r :: Asked(r, d) ==> Met(r, d, Labelled(samples, events, splits))
  {
    hide Labelled, Met, Asked, RootsForAll, GatedAs;
    var log := Labelled(samples, events, splits);
    forall r ensures r in g.reasons <==> configured && Asked(r, d) && !Met(r, d, log) {
      ReasonsExactlyWhen(g, d, configured, samples, events, splits, sqrt, r);
    }
    EligibleWithoutReasons(g, d, configured, log, WilsonWith(Q95, sqrt));
    hide WilsonWith;
  }

  lemma EligibleWithoutReasons(g: Gated, d: string, configured: bool, log: seq<Entry>, wilson: (int, int) -> Interval)
    requires GatedAs(g, d, configured, log, wilson)
    ensures g.eligible <==> configured && forall r :: r !in g.reasons
  {
    hide Considered, Fails, Measured;
    MeasuredIsNamed(g.metric, d, log, wilson);
    NoneApplies(Considered(d), g.metric, wilson);
    if g.reasons != [] { assert g.reasons[0] in g.reasons; }
  }
}
