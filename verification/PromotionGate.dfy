/** applyPromotionGate of cmd/desktop/calibration_gate.go: when a detector's measured counts allow its promotion. */
module PromotionGate {
  import opened Metrics
  import opened ClusterRanges
  import opened DetectorMetrics
  import opened Wilson

  /** The detectors with a non-empty promotionBlocked text. */
  const BLOCKED: set<string> :=
    {"MOV_006", "PAT_005", "BIO_001", "THROW_004", "THROW_007", "MOV_003", "MOV_004", "MOV_005",
     "STATE_003", "STATE_004", "STATE_005", "STATE_006", "STATE_007", "STATE_008", "STATE_001",
     "THROW_005", "THROW_006", "PAT_001", "PAT_002", "PAT_003", "PAT_004"}

  const MIN_PRECISION := 0.95
  const MIN_RECALL := 0.90
  const MAX_FALSE_RATE := 0.01
  const MIN_RECALL_LOWER := 0.80

  /** The three reports the gate looks at. */
  datatype Which = Whole | Validating | HeldOut

  function ReportOf(m: DetectorMetric, w: Which): Metric {
    match w
    case Whole => m.overall
    case Validating => m.validation
    case HeldOut => m.holdout
  }

  /** The reasons to refuse, in the source's wording shortened to a name. */
  datatype Reason =
    | Blocked
    | FewPositives(w: Which) | FewNegatives(w: Which) | FewPlayers | FewMatches
    | StaleSamples | UnverifiedEvidence | UnusableSamples | ConflictingSamples
    | LowPrecision(w: Which) | LowRecall(w: Which) | HighFalseRate(w: Which)
    | PrecisionBound(w: Which) | RecallBound(w: Which) | FalseRateBound(w: Which) | Narrow(w: Which)
    | FewGroups(w: Which) | Dominated(w: Which)
    | ThinStratum(band: Band, key: string)

  function MinPositive(w: Which): nat {
    if w.Whole? then 160 else 80
  }

  function MinNegative(w: Which): nat {
    if w.Whole? then 800 else 400
  }

  function MinGroups(w: Which): nat {
    if w.Whole? then 10 else 5
  }

  function MaxShare(w: Which): real {
    if w.Whole? then 0.25 else 0.40
  }

  /** strings.HasPrefix. */
  predicate HasPrefix(s: string, prefix: string) {
    prefix <= s
  }

  /** The strata every detector must cover, which for the legal context depend on its family. */
  function StrataKeys(b: Band, detector: string): seq<string> {
    match b
    case Ping => ["low_under_80ms", "medium_80_150ms", "high_over_150ms"]
    case Capture => ["low_under_12hz", "standard_12_22hz", "high_over_22hz"]
    case Quality => []
    case Legal =>
      if HasPrefix(detector, "THROW_") then ["normal", "stack", "block_push", "slap", "headbutt"]
      else if HasPrefix(detector, "MOV_") then ["normal", "lean", "stack", "block_push"]
      else ["normal", "transition"]
  }

  function Stratum(m: DetectorMetric, b: Band): map<string, Metric> {
    match b
    case Ping => m.byPing
    case Capture => m.byCapture
    case Quality => m.byQuality
    case Legal => m.byLegal
  }

  predicate ThinAt(values: map<string, Metric>, key: string) {
    key !in values || values[key].counts.negatives < 20 || values[key].clusters.negativeGroups < 3
  }

  /** Whether a reason applies to a report. */
  predicate Fails(r: Reason, m: DetectorMetric, wilson: (int, int) -> Interval) {
    var o := m.overall;
    match r
    case Blocked => m.detector in BLOCKED
    case FewPositives(w) => ReportOf(m, w).counts.positives < MinPositive(w)
    case FewNegatives(w) => ReportOf(m, w).counts.negatives < MinNegative(w)
    case FewPlayers => o.players < 10
    case FewMatches => o.matches < 20
    case StaleSamples => o.counts.stale > 0
    case UnverifiedEvidence => o.counts.independent != o.counts.positives + o.counts.negatives
    case UnusableSamples => o.counts.unusable > 0
    case ConflictingSamples => o.counts.conflicts > 0
    case LowPrecision(w) => ReportOf(m, w).counts.positives > 0 && ReportOf(m, w).precision < MIN_PRECISION
    case LowRecall(w) => ReportOf(m, w).counts.positives > 0 && ReportOf(m, w).recall < MIN_RECALL
    case HighFalseRate(w) => ReportOf(m, w).counts.negatives > 0 && ReportOf(m, w).falseRate > MAX_FALSE_RATE
    case PrecisionBound(w) => PrecisionUnproved(ReportOf(m, w).counts, wilson)
    case RecallBound(w) => RecallUnproved(ReportOf(m, w).counts, wilson)
    case FalseRateBound(w) => FalseRateUnproved(ReportOf(m, w).counts, wilson)
    case Narrow(w) => ReportOf(m, w).players < 5 || ReportOf(m, w).matches < 5
    case FewGroups(w) => var c := ReportOf(m, w).clusters; c.groups < MinGroups(w) || c.positiveGroups < 3 || c.negativeGroups < 3
    case Dominated(w) => ReportOf(m, w).clusters.largestFraction > MaxShare(w)
    case ThinStratum(b, key) => ThinAt(Stratum(m, b), key)
  }

  predicate PrecisionUnproved(c: Counts, wilson: (int, int) -> Interval) {
    c.tp + c.fp == 0 || wilson(c.tp, c.tp + c.fp).lower < MIN_PRECISION
  }

  predicate RecallUnproved(c: Counts, wilson: (int, int) -> Interval) {
    c.tp + c.fn == 0 || wilson(c.tp, c.tp + c.fn).lower < MIN_RECALL_LOWER
  }

  predicate FalseRateUnproved(c: Counts, wilson: (int, int) -> Interval) {
    c.fp + c.tn == 0 || wilson(c.fp, c.fp + c.tn).upper > MAX_FALSE_RATE
  }

  /** Every reason the gate considers for a detector, in the order it reports them. */
  function Considered(detector: string): seq<Reason> {
    [Blocked] + GroupReasons(ORDER) + StratumReasons(Ping, StrataKeys(Ping, detector)) + StratumReasons(Capture, StrataKeys(Capture, detector))
    + StratumReasons(Legal, StrataKeys(Legal, detector)) + CountReasons() + BoundReasons(ORDER)
  }

  /** The order in which the three reports are looked at. */
  const ORDER := [Whole, Validating, HeldOut]

  function GroupReasons(ws: seq<Which>): seq<Reason> {
    if ws == [] then [] else
      var w := ws[|ws| - 1];
      GroupReasons(ws[..|ws| - 1]) + [FewGroups(w), Dominated(w)]
  }

  function FloorReasons(): seq<Reason> {
    [FewPositives(Whole), FewNegatives(Whole), FewPlayers, FewMatches,
     FewPositives(HeldOut), FewNegatives(HeldOut), FewPositives(Validating), FewNegatives(Validating)]
  }

  function EvidenceReasons(): seq<Reason> {
    [StaleSamples, UnverifiedEvidence, UnusableSamples, ConflictingSamples]
  }

  function RateReasons(w: Which): seq<Reason> {
    [LowPrecision(w), LowRecall(w), HighFalseRate(w)]
  }

  function CountReasons(): seq<Reason> {
    FloorReasons() + EvidenceReasons() + RateReasons(Whole) + RateReasons(HeldOut) + RateReasons(Validating)
  }

  function BoundReasons(ws: seq<Which>): seq<Reason> {
    if ws == [] then [] else BoundReasons(ws[..|ws| - 1]) + BoundReasonsOf(ws[|ws| - 1])
  }

  function BoundReasonsOf(w: Which): seq<Reason> {
    [PrecisionBound(w), RecallBound(w), FalseRateBound(w)] + if w.Whole? then [] else [Narrow(w)]
  }

  function StratumReasons(b: Band, keys: seq<string>): seq<Reason> {
    if keys == [] then [] else StratumReasons(b, keys[..|keys| - 1]) + [ThinStratum(b, keys[|keys| - 1])]
  }

  /** The reasons among rs that apply. */
  function Applying(rs: seq<Reason>, m: DetectorMetric, wilson: (int, int) -> Interval): seq<Reason> {
    if rs == [] then [] else
      var last := rs[|rs| - 1];
      Applying(rs[..|rs| - 1], m, wilson) + if Fails(last, m, wilson) then [last] else []
  }

  lemma {:induction false} ApplyingConcat(a: seq<Reason>, b: seq<Reason>, m: DetectorMetric, wilson: (int, int) -> Interval)
    ensures Applying(a + b, m, wilson) == Applying(a, m, wilson) + Applying(b, m, wilson)
  {
    hide Fails;
    if b == [] {
      assert a + b == a;
    } else {
      var rest, last := b[..|b| - 1], b[|b| - 1];
      ApplyingConcat(a, rest, m, wilson);
      assert (a + b)[..|a + b| - 1] == a + rest;
    }
  }

  lemma {:induction false} NoneApplies(rs: seq<Reason>, m: DetectorMetric, wilson: (int, int) -> Interval)
    ensures Applying(rs, m, wilson) == [] <==> forall i :: 0 <= i < |rs| ==> !Fails(rs[i], m, wilson)
  {
    hide Fails;
    if rs != [] {
      NoneApplies(rs[..|rs| - 1], m, wilson);
      assert rs == rs[..|rs| - 1] + [rs[|rs| - 1]];
    }
  }

  // ----- The gate

  /** A check of the source: whether it failed, and what it reports then. */
  datatype Check = Check(failed: bool, text: Reason)

  ghost predicate Decided(checks: seq<Check>, rs: seq<Reason>, m: DetectorMetric, wilson: (int, int) -> Interval) {
    |checks| == |rs| && forall i :: 0 <= i < |rs| ==> checks[i] == Check(Fails(rs[i], m, wilson), rs[i])
  }

  /** The fixed checks. */
  function CountChecks(m: DetectorMetric): seq<Check> {
    FloorChecks(m) + EvidenceChecks(m.overall.counts)
    + RateChecks(Whole, m.overall) + RateChecks(HeldOut, m.holdout) + RateChecks(Validating, m.validation)
  }

  function FloorChecks(m: DetectorMetric): seq<Check> {
    var o, v, h := m.overall, m.validation, m.holdout;
    [Check(o.counts.positives < 160, FewPositives(Whole)), Check(o.counts.negatives < 800, FewNegatives(Whole)),
     Check(o.players < 10, FewPlayers), Check(o.matches < 20, FewMatches),
     Check(h.counts.positives < 80, FewPositives(HeldOut)), Check(h.counts.negatives < 400, FewNegatives(HeldOut)),
     Check(v.counts.positives < 80, FewPositives(Validating)), Check(v.counts.negatives < 400, FewNegatives(Validating))]
  }

  function EvidenceChecks(c: Counts): seq<Check> {
    [Check(c.stale > 0, StaleSamples), Check(c.independent != c.positives + c.negatives, UnverifiedEvidence),
     Check(c.unusable > 0, UnusableSamples), Check(c.conflicts > 0, ConflictingSamples)]
  }

  function RateChecks(w: Which, r: Metric): seq<Check> {
    [Check(r.counts.positives > 0 && r.precision < MIN_PRECISION, LowPrecision(w)),
     Check(r.counts.positives > 0 && r.recall < MIN_RECALL, LowRecall(w)),
     Check(r.counts.negatives > 0 && r.falseRate > MAX_FALSE_RATE, HighFalseRate(w))]
  }

  lemma RateChecksDecided(m: DetectorMetric, w: Which, wilson: (int, int) -> Interval)
    ensures Decided(RateChecks(w, ReportOf(m, w)), RateReasons(w), m, wilson)
  {
    hide PrecisionUnproved, RecallUnproved, FalseRateUnproved, ThinAt;
  }

  lemma FloorsDecided(m: DetectorMetric, wilson: (int, int) -> Interval)
    ensures Decided(FloorChecks(m), FloorReasons(), m, wilson)
  {
    hide PrecisionUnproved, RecallUnproved, FalseRateUnproved, ThinAt;
  }

  lemma EvidenceDecided(m: DetectorMetric, wilson: (int, int) -> Interval)
    ensures Decided(EvidenceChecks(m.overall.counts), EvidenceReasons(), m, wilson)
  {
    hide PrecisionUnproved, RecallUnproved, FalseRateUnproved, ThinAt;
  }

  lemma CountChecksDecided(m: DetectorMetric, wilson: (int, int) -> Interval)
    ensures Decided(CountChecks(m), CountReasons(), m, wilson)
  {
    hide Decided, FloorChecks, FloorReasons, EvidenceChecks, EvidenceReasons, RateChecks, RateReasons;
    var f, e, fr, er := FloorChecks(m), EvidenceChecks(m.overall.counts), FloorReasons(), EvidenceReasons();
    FloorsDecided(m, wilson);
    EvidenceDecided(m, wilson);
    RateChecksDecided(m, Whole, wilson);
    RateChecksDecided(m, HeldOut, wilson);
    RateChecksDecided(m, Validating, wilson);
    DecidedConcat(f, e, fr, er, m, wilson);
    DecidedConcat(f + e, RateChecks(Whole, m.overall), fr + er, RateReasons(Whole), m, wilson);
    DecidedConcat(f + e + RateChecks(Whole, m.overall), RateChecks(HeldOut, m.holdout), fr + er + RateReasons(Whole), RateReasons(HeldOut), m, wilson);
    DecidedConcat(f + e + RateChecks(Whole, m.overall) + RateChecks(HeldOut, m.holdout), RateChecks(Validating, m.validation),
                  fr + er + RateReasons(Whole) + RateReasons(HeldOut), RateReasons(Validating), m, wilson);
  }

  /** The three Wilson bounds of one report, recomputed from its counts. */
  method BoundChecks(m: DetectorMetric, w: Which, wilson: (int, int) -> Interval) returns (checks: seq<Check>)
    ensures Decided(checks, BoundReasonsOf(w), m, wilson)
  {
    var r := ReportOf(m, w);
    var c := r.counts;
    var precision := wilson(c.tp, c.tp + c.fp);
    var recall := wilson(c.tp, c.tp + c.fn);
    var falseRate := wilson(c.fp, c.fp + c.tn);
    checks := [Check(c.tp + c.fp == 0 || precision.lower < MIN_PRECISION, PrecisionBound(w)),
               Check(c.tp + c.fn == 0 || recall.lower < MIN_RECALL_LOWER, RecallBound(w)),
               Check(c.fp + c.tn == 0 || falseRate.upper > MAX_FALSE_RATE, FalseRateBound(w))];
    if !w.Whole? { checks := checks + [Check(r.players < 5 || r.matches < 5, Narrow(w))]; }
  }

  method GroupFailures(m: DetectorMetric, w: Which, ghost wilson: (int, int) -> Interval) returns (reasons: seq<Reason>)
    ensures reasons == Applying([FewGroups(w), Dominated(w)], m, wilson)
  {
    var c := ReportOf(m, w).clusters;
    var minGroups, maxShare := 5, 0.40;
    if w.Whole? { minGroups, maxShare := 10, 0.25; }
    reasons := [];
    if c.groups < minGroups || c.positiveGroups < 3 || c.negativeGroups < 3 { reasons := reasons + [FewGroups(w)]; }
    if c.largestFraction > maxShare { reasons := reasons + [Dominated(w)]; }
    assert [FewGroups(w), Dominated(w)] == [FewGroups(w)] + [Dominated(w)];
    ApplyingConcat([FewGroups(w)], [Dominated(w)], m, wilson);
  }

  /** checkStrata. */
  method CheckStrata(b: Band, keys: seq<string>, values: map<string, Metric>, ghost m: DetectorMetric, ghost wilson: (int, int) -> Interval)
    returns (reasons: seq<Reason>)
    requires values == Stratum(m, b)
    ensures reasons == Applying(StratumReasons(b, keys), m, wilson)
  {
    hide Fails;
    reasons := [];
    for i := 0 to |keys|
      invariant reasons == Applying(StratumReasons(b, keys[..i]), m, wilson)
    {
      StratumSnoc(b, keys, i);
      ApplyingSnoc(StratumReasons(b, keys[..i]), ThinStratum(b, keys[i]), m, wilson);
      ThinFails(b, keys[i], m, wilson);
      if keys[i] !in values || values[keys[i]].counts.negatives < 20 || values[keys[i]].clusters.negativeGroups < 3 {
        reasons := reasons + [ThinStratum(b, keys[i])];
      }
    }
    TakeAll(keys);
  }

  lemma TakeAll<T>(xs: seq<T>)
    ensures xs[..|xs|] == xs
  {
  }

  lemma ThinFails(b: Band, key: string, m: DetectorMetric, wilson: (int, int) -> Interval)
    ensures Fails(ThinStratum(b, key), m, wilson) <==> ThinAt(Stratum(m, b), key)
  {
    hide PrecisionUnproved, RecallUnproved, FalseRateUnproved;
  }

  lemma ApplyingSnoc(rs: seq<Reason>, r: Reason, m: DetectorMetric, wilson: (int, int) -> Interval)
    ensures Applying(rs + [r], m, wilson) == Applying(rs, m, wilson) + if Fails(r, m, wilson) then [r] else []
  {
    hide Fails;
    assert (rs + [r])[..|rs|] == rs;
  }

  lemma StratumSnoc(b: Band, keys: seq<string>, i: nat)
    requires i < |keys|
    ensures StratumReasons(b, keys[..i + 1]) == StratumReasons(b, keys[..i]) + [ThinStratum(b, keys[i])]
  {
    assert keys[..i + 1][..i] == keys[..i];
  }

  /** The last loop: the failed checks, in order. */
  method FailedChecks(checks: seq<Check>, ghost rs: seq<Reason>, ghost m: DetectorMetric, ghost wilson: (int, int) -> Interval) returns (reasons: seq<Reason>)
    requires Decided(checks, rs, m, wilson)
    ensures reasons == Applying(rs, m, wilson)
  {
    hide Fails;
    reasons := [];
    for i := 0 to |checks|
      invariant reasons == Applying(rs[..i], m, wilson)
    {
      assert rs[..i + 1][..i] == rs[..i];
      if checks[i].failed { reasons := reasons + [checks[i].text]; }
    }
    assert rs[..|checks|] == rs;
  }

  lemma DecidedConcat(c: seq<Check>, d: seq<Check>, rs: seq<Reason>, qs: seq<Reason>, m: DetectorMetric, wilson: (int, int) -> Interval)
    requires Decided(c, rs, m, wilson) && Decided(d, qs, m, wilson)
    ensures Decided(c + d, rs + qs, m, wilson)
  {
    hide Fails;
    forall i | 0 <= i < |rs + qs| ensures (c + d)[i] == Check(Fails((rs + qs)[i], m, wilson), (rs + qs)[i]) {
      if i >= |rs| { assert (c + d)[i] == d[i - |rs|]; }
    }
  }

  /** applyPromotionGate: the reasons are exactly the considered ones that apply, in the source's order, and the
      detector is eligible when there are none. */
  method ApplyPromotionGate(m: DetectorMetric, wilson: (int, int) -> Interval) returns (eligible: bool, reasons: seq<Reason>)
    ensures reasons == Applying(Considered(m.detector), m, wilson)
    ensures eligible <==> forall i :: 0 <= i < |Considered(m.detector)| ==> !Fails(Considered(m.detector)[i], m, wilson)
  {
    hide Fails, Applying, Decided, CountReasons, CountChecks;
    reasons := BlockReason(m, wilson);
    var checks := CountChecks(m);
    CountChecksDecided(m, wilson);
    NothingMore([Blocked], CountReasons());
    for i := 0 to |ORDER|
      invariant reasons == Applying([Blocked] + GroupReasons(ORDER[..i]), m, wilson)
      invariant Decided(checks, CountReasons() + BoundReasons(ORDER[..i]), m, wilson)
    {
      var w := ORDER[i];
      var bound := BoundChecks(m, w, wilson);
      DecidedConcat(checks, bound, CountReasons() + BoundReasons(ORDER[..i]), BoundReasonsOf(w), m, wilson);
      checks := checks + bound;
      var failures := GroupFailures(m, w, wilson);
      ApplyingConcat([Blocked] + GroupReasons(ORDER[..i]), [FewGroups(w), Dominated(w)], m, wilson);
      reasons := reasons + failures;
      OneMore(i);
      Regroup([Blocked], GroupReasons(ORDER[..i]), [FewGroups(w), Dominated(w)]);
      Regroup(CountReasons(), BoundReasons(ORDER[..i]), BoundReasonsOf(w));
    }
    TakeAll(ORDER);
    var ping := CheckStrata(Ping, StrataKeys(Ping, m.detector), m.byPing, m, wilson);
    var capture := CheckStrata(Capture, StrataKeys(Capture, m.detector), m.byCapture, m, wilson);
    var legal := CheckStrata(Legal, StrataKeys(Legal, m.detector), m.byLegal, m, wilson);
    var failed := FailedChecks(checks, CountReasons() + BoundReasons(ORDER), m, wilson);
    reasons := reasons + ping + capture + legal + failed;
    Assemble(m, wilson);
    NoneApplies(Considered(m.detector), m, wilson);
    eligible := |reasons| == 0;
  }

  lemma NothingMore(a: seq<Reason>, b: seq<Reason>)
    ensures a + GroupReasons(ORDER[..0]) == a && b + BoundReasons(ORDER[..0]) == b
  {
  }

  lemma OneMore(i: nat)
    requires i < |ORDER|
    ensures GroupReasons(ORDER[..i + 1]) == GroupReasons(ORDER[..i]) + [FewGroups(ORDER[i]), Dominated(ORDER[i])]
    ensures BoundReasons(ORDER[..i + 1]) == BoundReasons(ORDER[..i]) + BoundReasonsOf(ORDER[i])
  {
    assert ORDER[..i + 1][..i] == ORDER[..i];
  }

  method BlockReason(m: DetectorMetric, ghost wilson: (int, int) -> Interval) returns (reasons: seq<Reason>)
    ensures reasons == Applying([Blocked], m, wilson)
  {
    reasons := [];
    if m.detector in BLOCKED { reasons := reasons + [Blocked]; }
  }

  lemma Regroup(a: seq<Reason>, b: seq<Reason>, c: seq<Reason>)
    ensures a + b + c == a + (b + c)
  {
  }

  lemma Assemble(m: DetectorMetric, wilson: (int, int) -> Interval)
    ensures Applying(Considered(m.detector), m, wilson)
         == Applying([Blocked] + GroupReasons(ORDER), m, wilson) + Applying(StratumReasons(Ping, StrataKeys(Ping, m.detector)), m, wilson)
          + Applying(StratumReasons(Capture, StrataKeys(Capture, m.detector)), m, wilson)
          + Applying(StratumReasons(Legal, StrataKeys(Legal, m.detector)), m, wilson)
          + Applying(CountReasons() + BoundReasons(ORDER), m, wilson)
  {
    hide Fails, Applying, GroupReasons, BoundReasons, CountReasons, StratumReasons, StrataKeys;
    var d := m.detector;
    var g, p := [Blocked] + GroupReasons(ORDER), StratumReasons(Ping, StrataKeys(Ping, d));
    var c, l := StratumReasons(Capture, StrataKeys(Capture, d)), StratumReasons(Legal, StrataKeys(Legal, d));
    ApplyingConcat(g, p, m, wilson);
    ApplyingConcat(g + p, c, m, wilson);
    ApplyingConcat(g + p + c, l, m, wilson);
    ApplyingConcat(g + p + c + l, CountReasons() + BoundReasons(ORDER), m, wilson);
    Regroup(g + p + c + l, CountReasons(), BoundReasons(ORDER));
  }
}
