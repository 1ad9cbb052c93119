/** calibrationSample and metricAccumulator of cmd/desktop/calibration_gate.go: the confusion counts behind promotion. */
module Metrics {
  import opened Events

  /** The ground truth of a sample; every text that is neither of the two decisive ones counts as uncertain. */
  datatype Truth = Cheating | Legitimate | Undecided

  datatype Sample = Sample(cluster: string, legal: string, matchId: string, player: string, detector: string,
                           frameStart: int, frameEnd: int, truth: Truth, eventReview: bool, blind: bool,
                           ping: string, capture: string, quality: string,
                           current: bool, independent: bool, unusable: bool, noWindow: bool, conflict: bool)

  /** A sample as an accumulator receives it: with the prediction and the split of its match. */
  datatype Entry = Entry(sample: Sample, predicted: bool, split: string)

  // ----- What each counter is for

  datatype Field = TruePositive | FalsePositive | FalseNegative | TrueNegative | Uncertain | Positive | Negative
                 | Direct | Window | Blind | Current | Stale | Independent | Unusable | Conflict

  /** The sample says whether its player cheated, and there was telemetry to decide it on. */
  predicate Decisive(s: Sample) {
    !s.noWindow && !s.truth.Undecided?
  }

  /** The entries a counter counts. */
  predicate Hits(f: Field, e: Entry) {
    var s := e.sample;
    match f
    case TruePositive => Decisive(s) && s.truth.Cheating? && e.predicted
    case FalsePositive => Decisive(s) && s.truth.Legitimate? && e.predicted
    case FalseNegative => Decisive(s) && s.truth.Cheating? && !e.predicted
    case TrueNegative => Decisive(s) && s.truth.Legitimate? && !e.predicted
    case Uncertain => !Decisive(s)
    case Positive => Decisive(s) && s.truth.Cheating?
    case Negative => Decisive(s) && s.truth.Legitimate?
    case Direct => s.eventReview
    case Window => !s.eventReview
    case Blind => s.blind
    case Current => Decisive(s) && s.current
    case Stale => Decisive(s) && !s.current
    case Independent => Decisive(s) && s.independent
    case Unusable => s.noWindow || (Decisive(s) && s.unusable)
    case Conflict => Decisive(s) && s.conflict
  }

  function CountOf(f: Field, log: seq<Entry>): nat {
    if log == [] then 0 else CountOf(f, log[..|log| - 1]) + (if Hits(f, log[|log| - 1]) then 1 else 0)
  }

  // ----- The accumulator

  datatype Counts = Counts(tp: nat, fp: nat, fn: nat, tn: nat, uncertain: nat, positives: nat, negatives: nat,
                           direct: nat, window: nat, blind: nat, current: nat, stale: nat,
                           independent: nat, unusable: nat, conflicts: nat)

  /** clusterCounts. */
  datatype Cluster = Cluster(tp: nat, fp: nat, tn: nat, fn: nat)

  datatype Acc = Acc(counts: Counts, players: set<string>, matches: set<string>, clusters: map<string, Cluster>)

  const NO_COUNTS := Counts(0, 0, 0, 0, 0, 0, 0, 0, 0, 0, 0, 0, 0, 0, 0)
  const NOTHING := Acc(NO_COUNTS, {}, {}, map[])

  function Get(c: Counts, f: Field): nat {
    match f
    case TruePositive => c.tp
    case FalsePositive => c.fp
    case FalseNegative => c.fn
    case TrueNegative => c.tn
    case Uncertain => c.uncertain
    case Positive => c.positives
    case Negative => c.negatives
    case Direct => c.direct
    case Window => c.window
    case Blind => c.blind
    case Current => c.current
    case Stale => c.stale
    case Independent => c.independent
    case Unusable => c.unusable
    case Conflict => c.conflicts
  }

  function ClusterGet(c: Cluster, f: Field): nat {
    match f
    case TruePositive => c.tp
    case FalsePositive => c.fp
    case TrueNegative => c.tn
    case FalseNegative => c.fn
    case _ => 0
  }

  /** The four fields a cluster keeps. */
  predicate Confusion(f: Field) {
    f.TruePositive? || f.FalsePositive? || f.TrueNegative? || f.FalseNegative?
  }

  function ClusterOf(clusters: map<string, Cluster>, id: string): Cluster {
    if id in clusters then clusters[id] else Cluster(0, 0, 0, 0)
  }

  /** a holds exactly what the entries of log say: every counter counts its own entries, the players and matches are
      those of the decisive entries, and each cluster counts the decisive entries that name it. */
  ghost predicate Tallies(a: Acc, log: seq<Entry>) {
    && (forall f :: Get(a.counts, f) == CountOf(f, log))
    && a.players == PlayersOf(log) && a.matches == MatchesOf(log)
    && a.clusters.Keys == ClustersOf(log)
    && (forall id, f :: id in a.clusters && Confusion(f) ==> ClusterGet(a.clusters[id], f) == CountOf(f, InCluster(log, id)))
  }

  function PlayersOf(log: seq<Entry>): set<string> {
    set e | e in log && Decisive(e.sample) :: e.sample.player
  }

  function MatchesOf(log: seq<Entry>): set<string> {
    set e | e in log && Decisive(e.sample) :: e.sample.matchId
  }

  /** Samples without a cluster belong to none. */
  function ClustersOf(log: seq<Entry>): set<string> {
    set e | e in log && Decisive(e.sample) && e.sample.cluster != "" :: e.sample.cluster
  }

  function InCluster(log: seq<Entry>, id: string): seq<Entry> {
    if log == [] then [] else
      var rest, last := InCluster(log[..|log| - 1], id), log[|log| - 1];
      if last.sample.cluster == id then rest + [last] else rest
  }

  function Bit(f: Field, e: Entry): nat {
    if Hits(f, e) then 1 else 0
  }

  function Counted(c: Counts, e: Entry): Counts {
    Counts(c.tp + Bit(TruePositive, e), c.fp + Bit(FalsePositive, e), c.fn + Bit(FalseNegative, e), c.tn + Bit(TrueNegative, e),
           c.uncertain + Bit(Uncertain, e), c.positives + Bit(Positive, e), c.negatives + Bit(Negative, e),
           c.direct + Bit(Direct, e), c.window + Bit(Window, e), c.blind + Bit(Blind, e),
           c.current + Bit(Current, e), c.stale + Bit(Stale, e),
           c.independent + Bit(Independent, e), c.unusable + Bit(Unusable, e), c.conflicts + Bit(Conflict, e))
  }

  function Clustered(clusters: map<string, Cluster>, e: Entry): map<string, Cluster> {
    if Decisive(e.sample) && e.sample.cluster != "" then
      var c := ClusterOf(clusters, e.sample.cluster);
      clusters[e.sample.cluster := Cluster(c.tp + Bit(TruePositive, e), c.fp + Bit(FalsePositive, e), c.tn + Bit(TrueNegative, e), c.fn + Bit(FalseNegative, e))]
    else clusters
  }

  /** The accumulator after one more entry. */
  function Added(a: Acc, e: Entry): Acc {
    Acc(Counted(a.counts, e),
        if Decisive(e.sample) then a.players + {e.sample.player} else a.players,
        if Decisive(e.sample) then a.matches + {e.sample.matchId} else a.matches,
        Clustered(a.clusters, e))
  }

  class MetricAccumulator {
    var truePositive: nat
    var falsePositive: nat
    var falseNegative: nat
    var trueNegative: nat
    var uncertain: nat
    var positives: nat
    var negatives: nat
    var directLabels: nat
    var windowLabels: nat
    var blindLabels: nat
    var currentProvenance: nat
    var staleProvenance: nat
    var independentEvidence: nat
    var unusableTelemetry: nat
    var isolationConflicts: nat
    var players: set<string>
    var matches: set<string>
    var clusters: map<string, Cluster>

    function Value(): Acc
      reads this
    {
      Acc(Counts(truePositive, falsePositive, falseNegative, trueNegative, uncertain, positives, negatives, directLabels, windowLabels,
                 blindLabels, currentProvenance, staleProvenance, independentEvidence, unusableTelemetry, isolationConflicts),
          players, matches, clusters)
    }

    constructor ()
      ensures Value() == NOTHING
    {
      truePositive, falsePositive, falseNegative, trueNegative, uncertain, positives, negatives := 0, 0, 0, 0, 0, 0, 0;
      directLabels, windowLabels, blindLabels, currentProvenance, staleProvenance := 0, 0, 0, 0, 0;
      independentEvidence, unusableTelemetry, isolationConflicts := 0, 0, 0;
      players, matches, clusters := {}, {}, map[];
    }

    method Add(e: Entry)
      modifies this
      ensures Value() == Added(old(Value()), e)
    {
      ghost var before := Value();
      AddLabel(e);
      if e.sample.noWindow { AddUnseen(e); } else { AddSeen(e); }
      assert Value().counts == Counted(before.counts, e);
    }

    method AddUnseen(e: Entry)
      requires e.sample.noWindow
      modifies `uncertain, `unusableTelemetry
      ensures uncertain == old(uncertain) + Bit(Uncertain, e) && unusableTelemetry == old(unusableTelemetry) + Bit(Unusable, e)
      ensures Bit(Independent, e) == Bit(Conflict, e) == Bit(Current, e) == Bit(Stale, e) == Bit(Positive, e) == Bit(Negative, e) == 0
      ensures Bit(TruePositive, e) == Bit(FalsePositive, e) == Bit(TrueNegative, e) == Bit(FalseNegative, e) == 0
      ensures !Decisive(e.sample)
    {
      uncertain, unusableTelemetry := uncertain + 1, unusableTelemetry + 1;
    }

    method AddSeen(e: Entry)
      requires !e.sample.noWindow
      modifies `players, `matches, `clusters, `currentProvenance, `staleProvenance, `positives, `negatives, `uncertain
      modifies `truePositive, `falseNegative, `falsePositive, `trueNegative
      modifies `independentEvidence, `unusableTelemetry, `isolationConflicts
      ensures clusters == Clustered(old(clusters), e)
      ensures independentEvidence == old(independentEvidence) + Bit(Independent, e)
      ensures unusableTelemetry == old(unusableTelemetry) + Bit(Unusable, e)
      ensures isolationConflicts == old(isolationConflicts) + Bit(Conflict, e)
      ensures players == old(players) + if Decisive(e.sample) then {e.sample.player} else {}
      ensures matches == old(matches) + if Decisive(e.sample) then {e.sample.matchId} else {}
      ensures currentProvenance == old(currentProvenance) + Bit(Current, e) && staleProvenance == old(staleProvenance) + Bit(Stale, e)
      ensures positives == old(positives) + Bit(Positive, e) && negatives == old(negatives) + Bit(Negative, e)
      ensures uncertain == old(uncertain) + Bit(Uncertain, e)
      ensures truePositive == old(truePositive) + Bit(TruePositive, e) && falsePositive == old(falsePositive) + Bit(FalsePositive, e)
      ensures falseNegative == old(falseNegative) + Bit(FalseNegative, e) && trueNegative == old(trueNegative) + Bit(TrueNegative, e)
    {
      if e.sample.truth.Cheating? || e.sample.truth.Legitimate? {
        AddCluster(e);
        AddEvidence(e);
      }
      AddOutcome(e);
    }

    method AddOutcome(e: Entry)
      requires !e.sample.noWindow
      modifies `players, `matches, `currentProvenance, `staleProvenance, `positives, `negatives, `uncertain
      modifies `truePositive, `falseNegative, `falsePositive, `trueNegative
      ensures players == old(players) + if Decisive(e.sample) then {e.sample.player} else {}
      ensures matches == old(matches) + if Decisive(e.sample) then {e.sample.matchId} else {}
      ensures currentProvenance == old(currentProvenance) + Bit(Current, e) && staleProvenance == old(staleProvenance) + Bit(Stale, e)
      ensures positives == old(positives) + Bit(Positive, e) && negatives == old(negatives) + Bit(Negative, e)
      ensures uncertain == old(uncertain) + Bit(Uncertain, e)
      ensures truePositive == old(truePositive) + Bit(TruePositive, e) && falsePositive == old(falsePositive) + Bit(FalsePositive, e)
      ensures falseNegative == old(falseNegative) + Bit(FalseNegative, e) && trueNegative == old(trueNegative) + Bit(TrueNegative, e)
    {
      match e.sample.truth {
        case Cheating =>
          players, matches := players + {e.sample.player}, matches + {e.sample.matchId};
          AddProvenance(e);
          positives := positives + 1;
          if e.predicted { truePositive := truePositive + 1; } else { falseNegative := falseNegative + 1; }
        case Legitimate =>
          players, matches := players + {e.sample.player}, matches + {e.sample.matchId};
          AddProvenance(e);
          negatives := negatives + 1;
          if e.predicted { falsePositive := falsePositive + 1; } else { trueNegative := trueNegative + 1; }
        case Undecided =>
          uncertain := uncertain + 1;
      }
    }

    method AddLabel(e: Entry)
      modifies `directLabels, `windowLabels, `blindLabels
      ensures directLabels == old(directLabels) + Bit(Direct, e) && windowLabels == old(windowLabels) + Bit(Window, e)
      ensures blindLabels == old(blindLabels) + Bit(Blind, e)
    {
      if e.sample.eventReview { directLabels := directLabels + 1; } else { windowLabels := windowLabels + 1; }
      if e.sample.blind { blindLabels := blindLabels + 1; }
    }

    method AddCluster(e: Entry)
      requires Decisive(e.sample)
      modifies `clusters
      ensures clusters == Clustered(old(clusters), e)
    {
      var id := e.sample.cluster;
      if id != "" {
        var c := ClusterOf(clusters, id);
        if e.sample.truth.Cheating? {
          c := if e.predicted then c.(tp := c.tp + 1) else c.(fn := c.fn + 1);
        } else {
          c := if e.predicted then c.(fp := c.fp + 1) else c.(tn := c.tn + 1);
        }
        clusters := clusters[id := c];
      }
    }

    method AddEvidence(e: Entry)
      requires Decisive(e.sample)
      modifies `independentEvidence, `unusableTelemetry, `isolationConflicts
      ensures independentEvidence == old(independentEvidence) + Bit(Independent, e)
      ensures unusableTelemetry == old(unusableTelemetry) + Bit(Unusable, e)
      ensures isolationConflicts == old(isolationConflicts) + Bit(Conflict, e)
    {
      if e.sample.independent { independentEvidence := independentEvidence + 1; }
      if e.sample.unusable { unusableTelemetry := unusableTelemetry + 1; }
      if e.sample.conflict { isolationConflicts := isolationConflicts + 1; }
    }

    method AddProvenance(e: Entry)
      requires Decisive(e.sample)
      modifies `currentProvenance, `staleProvenance
      ensures currentProvenance == old(currentProvenance) + Bit(Current, e)
      ensures staleProvenance == old(staleProvenance) + Bit(Stale, e)
    {
      if e.sample.current { currentProvenance := currentProvenance + 1; } else { staleProvenance := staleProvenance + 1; }
    }
  }

  // ----- An accumulator holds exactly what it was given

  lemma CountSnoc(f: Field, log: seq<Entry>, e: Entry)
    ensures CountOf(f, log + [e]) == CountOf(f, log) + Bit(f, e)
  {
    assert (log + [e])[..|log|] == log;
  }

  lemma InClusterSnoc(log: seq<Entry>, e: Entry, id: string)
    ensures InCluster(log + [e], id) == if e.sample.cluster == id then InCluster(log, id) + [e] else InCluster(log, id)
  {
    assert (log + [e])[..|log|] == log;
  }

  lemma NothingTalliesNothing()
    ensures Tallies(NOTHING, [])
  {
  }

  /** Adding one entry to the accumulator of a log gives the accumulator of the longer log. */
  lemma AddedTallies(a: Acc, log: seq<Entry>, e: Entry)
    requires Tallies(a, log)
    ensures Tallies(Added(a, e), log + [e])
  {
    forall f ensures Get(Counted(a.counts, e), f) == CountOf(f, log + [e]) {
      assert Get(a.counts, f) == CountOf(f, log);
      CountSnoc(f, log, e);
      CountedGet(a.counts, e, f);
    }
    SetsSnoc(log, e);
    ClustersTally(a, log, e);
  }

  lemma CountedGet(c: Counts, e: Entry, f: Field)
    ensures Get(Counted(c, e), f) == Get(c, f) + Bit(f, e)
  {
  }

  lemma SetsSnoc(log: seq<Entry>, e: Entry)
    ensures PlayersOf(log + [e]) == PlayersOf(log) + if Decisive(e.sample) then {e.sample.player} else {}
    ensures MatchesOf(log + [e]) == MatchesOf(log) + if Decisive(e.sample) then {e.sample.matchId} else {}
    ensures ClustersOf(log + [e]) == ClustersOf(log) + if Decisive(e.sample) && e.sample.cluster != "" then {e.sample.cluster} else {}
  {
    assert forall x :: x in log + [e] <==> x in log || x == e;
  }

  lemma ClustersTally(a: Acc, log: seq<Entry>, e: Entry)
    requires Tallies(a, log)
    ensures var b := Clustered(a.clusters, e);
            forall id, f :: id in b && Confusion(f) ==> ClusterGet(b[id], f) == CountOf(f, InCluster(log + [e], id))
  {
    var b := Clustered(a.clusters, e);
    forall id, f | id in b && Confusion(f) ensures ClusterGet(b[id], f) == CountOf(f, InCluster(log + [e], id)) {
      assert "" !in a.clusters by { assert "" !in ClustersOf(log); }
      hide Clustered, CountOf, InCluster, Bit, ClusterGet;
      ClusteredGet(a.clusters, e, id, f);
      ClusterBefore(a, log, id, f);
      hide Tallies, Confusion;
      InClusterSnoc(log, e, id);
      CountSnoc(f, InCluster(log, id), e);
    }
  }

  /** One more entry in the counts of a cluster. */
  lemma ClusteredGet(clusters: map<string, Cluster>, e: Entry, id: string, f: Field)
    requires id in Clustered(clusters, e) && Confusion(f) && "" !in clusters
    ensures id != ""
    ensures ClusterGet(Clustered(clusters, e)[id], f)
         == (if id in clusters then ClusterGet(clusters[id], f) else 0) + if e.sample.cluster == id then Bit(f, e) else 0
  {
  }

  lemma ClusterBefore(a: Acc, log: seq<Entry>, id: string, f: Field)
    requires Tallies(a, log) && Confusion(f) && id != ""
    ensures CountOf(f, InCluster(log, id)) == if id in a.clusters then ClusterGet(a.clusters[id], f) else 0
  {
    if id !in a.clusters {
      assert id !in ClustersOf(log);
      UnseenCluster(f, log, id);
    }
  }

  /** A cluster no decisive entry names has no confusion counts. */
  lemma {:induction false} UnseenCluster(f: Field, log: seq<Entry>, id: string)
    requires Confusion(f) && id != "" && id !in ClustersOf(log)
    ensures CountOf(f, InCluster(log, id)) == 0
  {
    if log != [] {
      var rest, e := log[..|log| - 1], log[|log| - 1];
      assert log == rest + [e];
      SetsSnoc(rest, e);
      InClusterSnoc(rest, e, id);
      CountSnoc(f, InCluster(rest, id), e);
      UnseenCluster(f, rest, id);
    }
  }

  lemma SameCounts(c: Counts, d: Counts)
    requires forall f :: Get(c, f) == Get(d, f)
    ensures c == d
  {
    assert Get(c, TruePositive) == Get(d, TruePositive) && Get(c, FalsePositive) == Get(d, FalsePositive);
    assert Get(c, FalseNegative) == Get(d, FalseNegative) && Get(c, TrueNegative) == Get(d, TrueNegative);
    assert Get(c, Uncertain) == Get(d, Uncertain) && Get(c, Positive) == Get(d, Positive) && Get(c, Negative) == Get(d, Negative);
    assert Get(c, Direct) == Get(d, Direct) && Get(c, Window) == Get(d, Window) && Get(c, Blind) == Get(d, Blind);
    assert Get(c, Current) == Get(d, Current) && Get(c, Stale) == Get(d, Stale);
    assert Get(c, Independent) == Get(d, Independent) && Get(c, Unusable) == Get(d, Unusable) && Get(c, Conflict) == Get(d, Conflict);
  }

  // ----- Conservation inside one accumulator

  /** Three counters whose bits always add up add up themselves. */
  lemma {:induction false} BitsAddUp(f: Field, g: Field, h: Field, log: seq<Entry>)
    requires forall e :: Bit(f, e) + Bit(g, e) == Bit(h, e)
    ensures CountOf(f, log) + CountOf(g, log) == CountOf(h, log)
  {
    if log != [] {
      BitsAddUp(f, g, h, log[..|log| - 1]);
      assert Bit(f, log[|log| - 1]) + Bit(g, log[|log| - 1]) == Bit(h, log[|log| - 1]);
    }
  }

  lemma {:induction false} BitsCover(f: Field, g: Field, h: Field, i: Field, log: seq<Entry>)
    requires forall e :: Bit(f, e) + Bit(g, e) == Bit(h, e) + Bit(i, e)
    ensures CountOf(f, log) + CountOf(g, log) == CountOf(h, log) + CountOf(i, log)
  {
    if log != [] {
      var e := log[|log| - 1];
      BitsCover(f, g, h, i, log[..|log| - 1]);
      assert Bit(f, e) + Bit(g, e) == Bit(h, e) + Bit(i, e);
    }
  }

  lemma {:induction false} BitWithin(f: Field, g: Field, h: Field, log: seq<Entry>)
    requires forall e :: Bit(f, e) <= Bit(g, e) + Bit(h, e)
    ensures CountOf(f, log) <= CountOf(g, log) + CountOf(h, log)
  {
    if log != [] {
      var e := log[|log| - 1];
      BitWithin(f, g, h, log[..|log| - 1]);
      assert Bit(f, e) <= Bit(g, e) + Bit(h, e);
    }
  }

  lemma {:induction false} EveryEntryLabelled(log: seq<Entry>)
    ensures CountOf(Direct, log) + CountOf(Window, log) == |log|
  {
    if log != [] {
      EveryEntryLabelled(log[..|log| - 1]);
    }
  }

  lemma {:induction false} EveryEntryDecided(log: seq<Entry>)
    ensures CountOf(Positive, log) + CountOf(Negative, log) + CountOf(Uncertain, log) == |log|
  {
    if log != [] {
      EveryEntryDecided(log[..|log| - 1]);
    }
  }

  /** Whatever was added: TP + FN are the positives, FP + TN the negatives, current and stale split the decisive
      samples, and decisive and uncertain samples add up to the labels of either kind. */
  lemma Conservation(a: Acc, log: seq<Entry>)
    requires Tallies(a, log)
    ensures var c := a.counts;
            && c.tp + c.fn == c.positives && c.fp + c.tn == c.negatives
            && c.current + c.stale == c.positives + c.negatives
            && c.positives + c.negatives + c.uncertain == c.direct + c.window == |log|
            && c.independent <= c.positives + c.negatives && c.conflicts <= c.positives + c.negatives
  {
    BitsAddUp(TruePositive, FalseNegative, Positive, log);
    BitsAddUp(FalsePositive, TrueNegative, Negative, log);
    BitsCover(Current, Stale, Positive, Negative, log);
    BitWithin(Independent, Positive, Negative, log);
    BitWithin(Conflict, Positive, Negative, log);
    EveryEntryLabelled(log);
    EveryEntryDecided(log);
    SameCounts(a.counts, CountsOf(log));
  }

  ghost function CountsOf(log: seq<Entry>): (c: Counts)
    ensures forall f :: Get(c, f) == CountOf(f, log)
  {
    Counts(CountOf(TruePositive, log), CountOf(FalsePositive, log), CountOf(FalseNegative, log), CountOf(TrueNegative, log),
           CountOf(Uncertain, log), CountOf(Positive, log), CountOf(Negative, log),
           CountOf(Direct, log), CountOf(Window, log), CountOf(Blind, log), CountOf(Current, log), CountOf(Stale, log),
           CountOf(Independent, log), CountOf(Unusable, log), CountOf(Conflict, log))
  }
}
