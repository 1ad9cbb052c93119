/** When incidents are the connected components of nearly touching frame ranges, and what they report. */
module IncidentsProofs {
  import opened Common
  import opened Events
  import opened Incidents
  import Strings

  // ----- Partition, for all events

  function Flatten(out: seq<Incident>): seq<DetectionEvent> {
    if out == [] then [] else Flatten(out[..|out| - 1]) + out[|out| - 1].events
  }

  /** Every event is in exactly one incident, in sorted order, whatever the ranges look like. */
  lemma {:induction false} EventsArePartitioned(es: seq<DetectionEvent>)
    ensures Flatten(Grouped(es)) == es
  {
    if es != [] {
      GroupedLast(es);
      hide Flatten, Absorbed, Grouped;
      var rest, e := es[..|es| - 1], es[|es| - 1];
      EventsArePartitioned(rest);
      FlattenAbsorbed(Grouped(rest), e);
      LastOnce(es);
    }
  }

  lemma LastOnce(es: seq<DetectionEvent>)
    requires es != []
    ensures es == es[..|es| - 1] + [es[|es| - 1]]
  {
  }

  predicate OfOnePlayer(inc: Incident) {
    forall i :: 0 <= i < |inc.events| ==> inc.events[i].player == inc.player
  }

  /** An incident holds events of one player only. */
  lemma {:induction false} IncidentsOfOnePlayer(es: seq<DetectionEvent>)
    ensures forall k :: 0 <= k < |Grouped(es)| ==> OfOnePlayer(Grouped(es)[k])
  {
    if es != [] {
      IncidentsOfOnePlayer(es[..|es| - 1]);
    }
  }

  lemma FlattenAbsorbed(out: seq<Incident>, e: DetectionEvent)
    ensures Flatten(Absorbed(out, e)) == Flatten(out) + [e]
  {
    var next := Absorbed(out, e);
    if Joins(out, e) {
      assert next[..|next| - 1] == out[..|out| - 1];
      assert Flatten(out) + [e] == Flatten(out[..|out| - 1]) + (out[|out| - 1].events + [e]);
    } else {
      assert next[..|next| - 1] == out;
    }
  }

  // ----- Which incident an event joined

  /** The place of the incident that event i was put in. */
  function Place(es: seq<DetectionEvent>, i: nat): int
    requires i < |es|
  {
    |Grouped(es[..i + 1])| - 1
  }

  /** The incident being built after i + 1 events. */
  function Latest(es: seq<DetectionEvent>, i: nat): Incident
    requires i < |es|
  {
    var out := Grouped(es[..i + 1]);
    if out == [] then Opened(es[i]) else out[|out| - 1]
  }

  /** Event i joins the incident being built. */
  predicate JoinsAt(es: seq<DetectionEvent>, i: nat)
    requires i < |es|
  {
    i > 0 && Latest(es, i - 1).player == es[i].player && Start(es[i]) <= Latest(es, i - 1).endFrame + GAP
  }

  lemma PlaceStep(es: seq<DetectionEvent>, i: nat)
    requires i < |es|
    ensures Grouped(es[..i + 1]) == Absorbed(Grouped(es[..i]), es[i]) && Grouped(es[..i + 1]) != []
    ensures i == 0 ==> Place(es, 0) == 0
    ensures i > 0 ==> Place(es, i) == Place(es, i - 1) + if JoinsAt(es, i) then 0 else 1
    ensures Latest(es, i) == Extended(if JoinsAt(es, i) then Latest(es, i - 1) else Opened(es[i]), es[i])
  {
    assert es[..i + 1][..i] == es[..i];
    if i > 0 { assert es[..i][..i - 1] == es[..i - 1]; }
  }

  /** The incident being built holds events of one player, ends with one of them, and none of them ends later. */
  ghost predicate EndInv(es: seq<DetectionEvent>, i: nat)
    requires i < |es|
  {
    var inc := Latest(es, i);
    && inc.player == es[i].player
    && (exists k :: 0 <= k <= i && LastOf(es, k, i))
    && (forall j :: 0 <= j <= i && Place(es, j) == Place(es, i) ==> End(es[j]) <= inc.endFrame && es[j].player == inc.player)
  }

  predicate LastOf(es: seq<DetectionEvent>, k: nat, i: nat)
    requires k <= i < |es|
  {
    Place(es, k) == Place(es, i) && End(es[k]) == Latest(es, i).endFrame
  }

  lemma {:induction false} PlaceMonotone(es: seq<DetectionEvent>, i: nat, j: nat)
    requires i <= j < |es|
    ensures Place(es, i) <= Place(es, j)
    decreases j
  {
    hide Latest, Grouped, JoinsAt, Place, Absorbed, Extended;
    if i < j {
      PlaceStep(es, j);
      PlaceMonotone(es, i, j - 1);
    }
  }

  lemma {:induction false} EndHolds(es: seq<DetectionEvent>, i: nat)
    requires i < |es|
    ensures EndInv(es, i)
  {
    hide Grouped, Place, Latest, Absorbed;
    PlaceStep(es, i);
    if JoinsAt(es, i) {
      EndHolds(es, i - 1);
      var k: nat :| k <= i - 1 && LastOf(es, k, i - 1);
      assert if End(es[i]) > Latest(es, i - 1).endFrame then LastOf(es, i, i) else LastOf(es, k, i);
    } else {
      assert LastOf(es, i, i);
      forall j | 0 <= j <= i && Place(es, j) == Place(es, i) ensures j == i {
        if j < i { PlaceMonotone(es, j, i - 1); }
      }
    }
  }

  // ----- The condition on the events

  /** The sort may put a before b, in one player's events. */
  predicate Comes(a: DetectionEvent, b: DetectionEvent) {
    a.player == b.player && a.rangeStart <= b.rangeStart
  }

  /** b starts at most 20 frames behind the end of a. */
  predicate Reaches(a: DetectionEvent, b: DetectionEvent) {
    Start(b) <= End(a) + GAP
  }

  /** For events of these kinds, one that an earlier one reaches reaches back, and what comes between them is reached
      too. */
  ghost predicate Admits(ok: DetectionEvent -> bool) {
    && (forall a, b :: ok(a) && ok(b) && Comes(a, b) && Reaches(a, b) ==> Reaches(b, a))
    && (forall a, m, b :: ok(a) && ok(m) && ok(b) && Comes(a, m) && Comes(m, b) && Reaches(a, b) ==> Reaches(a, m))
  }

  predicate AllOf(ok: DetectionEvent -> bool, es: seq<DetectionEvent>) {
    forall i :: 0 <= i < |es| ==> ok(es[i])
  }

  lemma SortedComes(es: seq<DetectionEvent>, i: nat, j: nat)
    requires Sorted(es) && i <= j < |es| && es[i].player == es[j].player
    ensures Comes(es[i], es[j])
  {
    Strings.LessIrreflexive(es[j].player);
    if i < j { assert InOrder(es[i], es[j]); }
  }

  /** The range is given, ends no earlier than it starts, and so is where the sort sees it. */
  predicate Explicit(e: DetectionEvent) {
    (e.rangeStart == 0 && e.rangeEnd == 0 ==> e.frameIndex == 0) && e.rangeStart <= e.rangeEnd
  }

  lemma ExplicitIsAdmitted()
    ensures Admits(Explicit)
  {
  }

  // ----- Components

  /** The events of one player with ranges at most 20 frames apart. */
  predicate Near(a: DetectionEvent, b: DetectionEvent) {
    a.player == b.player && Start(a) <= End(b) + GAP && Start(b) <= End(a) + GAP
  }

  ghost predicate ConnectedIn(es: seq<DetectionEvent>, i: nat, j: nat, n: nat)
    requires i < |es| && j < |es|
    decreases n
  {
    if n == 0 then i == j else exists k: nat :: k < |es| && Near(es[i], es[k]) && ConnectedIn(es, k, j, n - 1)
  }

  ghost predicate Connected(es: seq<DetectionEvent>, i: nat, j: nat)
    requires i < |es| && j < |es|
  {
    exists n: nat :: ConnectedIn(es, i, j, n)
  }

  lemma {:induction false} ConnectedInTransitive(es: seq<DetectionEvent>, i: nat, j: nat, k: nat, n: nat, m: nat)
    requires i < |es| && j < |es| && k < |es| && ConnectedIn(es, i, j, n) && ConnectedIn(es, j, k, m)
    ensures ConnectedIn(es, i, k, n + m)
    decreases n
  {
    if n > 0 {
      var h: nat :| h < |es| && Near(es[i], es[h]) && ConnectedIn(es, h, j, n - 1);
      ConnectedInTransitive(es, h, j, k, n - 1, m);
    }
  }

  lemma NearConnects(es: seq<DetectionEvent>, i: nat, j: nat, k: nat)
    requires i < |es| && j < |es| && k < |es| && Connected(es, i, j) && Near(es[j], es[k])
    ensures Connected(es, i, k) && Connected(es, k, j)
  {
    var n: nat :| ConnectedIn(es, i, j, n);
    assert ConnectedIn(es, k, k, 0) && ConnectedIn(es, j, j, 0);
    assert ConnectedIn(es, j, k, 1) && ConnectedIn(es, k, j, 1);
    ConnectedInTransitive(es, i, j, k, n, 1);
  }

  lemma ConnectedTransitive(es: seq<DetectionEvent>, i: nat, j: nat, k: nat)
    requires i < |es| && j < |es| && k < |es| && Connected(es, i, j) && Connected(es, j, k)
    ensures Connected(es, i, k)
  {
    var n: nat :| ConnectedIn(es, i, j, n);
    var m: nat :| ConnectedIn(es, j, k, m);
    ConnectedInTransitive(es, i, j, k, n, m);
  }

  lemma SelfConnected(es: seq<DetectionEvent>, i: nat)
    requires i < |es|
    ensures Connected(es, i, i)
  {
    assert ConnectedIn(es, i, i, 0);
  }

  /** An event that joins an incident is near one of its events. */
  lemma JoinedTo(ok: DetectionEvent -> bool, es: seq<DetectionEvent>, j: nat) returns (k: nat)
    requires Sorted(es) && AllOf(ok, es) && Admits(ok) && 0 < j < |es| && JoinsAt(es, j)
    ensures k < j && Place(es, k) == Place(es, j - 1) && Near(es[k], es[j])
  {
    hide Grouped, Place, Latest, InOrder;
    EndHolds(es, j - 1);
    k :| k <= j - 1 && LastOf(es, k, j - 1);
    assert es[k].player == Latest(es, j - 1).player;
    SortedComes(es, k, j);
    assert Reaches(es[k], es[j]);
  }

  /** Two events of one incident are connected, through events before the later one. */
  lemma {:induction false} SamePlaceConnects(ok: DetectionEvent -> bool, es: seq<DetectionEvent>, i: nat, j: nat)
    requires Sorted(es) && AllOf(ok, es) && Admits(ok) && i <= j < |es| && Place(es, i) == Place(es, j)
    ensures Connected(es, i, j) && Connected(es, j, i)
    decreases j
  {
    hide Grouped, Place, Latest, Connected, InOrder, Absorbed, Extended, EndInv;
    SelfConnected(es, i);
    if i < j {
      PlaceStep(es, j);
      PlaceMonotone(es, i, j - 1);
      assert JoinsAt(es, j);
      var k := JoinedTo(ok, es, j);
      if i <= k {
        SamePlaceConnects(ok, es, i, k);
      } else {
        SamePlaceConnects(ok, es, k, i);
      }
      NearConnects(es, i, k, j);
      ConnectedTransitive(es, j, k, i);
    }
  }

  lemma Covers(es: seq<DetectionEvent>, i: nat, m: nat)
    requires i <= m < |es| && Place(es, i) == Place(es, m)
    ensures End(es[i]) <= Latest(es, m).endFrame && es[i].player == Latest(es, m).player
  {
    EndHolds(es, m);
  }

  /** Two events that are near each other are in one incident. */
  lemma {:induction false} NearSharesPlace(ok: DetectionEvent -> bool, es: seq<DetectionEvent>, i: nat, j: nat, m: nat)
    requires Sorted(es) && AllOf(ok, es) && Admits(ok) && i <= m <= j < |es| && Near(es[i], es[j])
    ensures Place(es, m) == Place(es, i)
    decreases m
  {
    hide Grouped, Place, Latest, InOrder, Absorbed, Extended, EndInv, Sorted;
    if i < m {
      NearSharesPlace(ok, es, i, j, m - 1);
      Covers(es, i, m - 1);
      PlaceStep(es, m);
      Between(es, i, m, j);
      SortedComes(es, i, m);
      SortedComes(es, m, j);
      assert Reaches(es[i], es[j]) && Reaches(es[i], es[m]);
      assert JoinsAt(es, m);
    }
  }

  lemma Between(es: seq<DetectionEvent>, i: nat, m: nat, j: nat)
    requires Sorted(es) && i <= m <= j < |es| && es[i].player == es[j].player
    ensures es[m].player == es[i].player
  {
    Strings.LessIrreflexive(es[i].player);
    if i < m && m < j {
      assert InOrder(es[i], es[m]) && InOrder(es[m], es[j]);
      if es[i].player != es[m].player { Strings.LessTransitive(es[i].player, es[m].player, es[j].player); }
    } else if i < j {
      assert InOrder(es[i], es[j]);
    }
  }

  lemma NearIsMutual(a: DetectionEvent, b: DetectionEvent)
    ensures Near(a, b) <==> Near(b, a)
  {
  }

  lemma {:induction false} ConnectedSharesPlace(ok: DetectionEvent -> bool, es: seq<DetectionEvent>, i: nat, j: nat, n: nat)
    requires Sorted(es) && AllOf(ok, es) && Admits(ok) && i < |es| && j < |es| && ConnectedIn(es, i, j, n)
    ensures Place(es, i) == Place(es, j)
    decreases n
  {
    hide Place, Sorted, AllOf, Admits, Near;
    if n > 0 {
      var k: nat :| k < |es| && Near(es[i], es[k]) && ConnectedIn(es, k, j, n - 1);
      ConnectedSharesPlace(ok, es, k, j, n - 1);
      NearIsMutual(es[i], es[k]);
      if i <= k { NearSharesPlace(ok, es, i, k, k); } else { NearSharesPlace(ok, es, k, i, i); }
    }
  }

  lemma SharedPlaceIsConnected(ok: DetectionEvent -> bool, es: seq<DetectionEvent>, i: nat, j: nat)
    requires Sorted(es) && AllOf(ok, es) && Admits(ok) && i < |es| && j < |es|
    ensures Place(es, i) == Place(es, j) <==> Connected(es, i, j)
  {
    if Place(es, i) == Place(es, j) {
      if i <= j { SamePlaceConnects(ok, es, i, j); } else { SamePlaceConnects(ok, es, j, i); }
    }
    if Connected(es, i, j) {
      var n: nat :| ConnectedIn(es, i, j, n);
      ConnectedSharesPlace(ok, es, i, j, n);
    }
  }

  // ----- Where the events are in the result

  /** How many events come before event p of incident k. */
  function Index(out: seq<Incident>, k: nat, p: nat): nat
    requires k < |out|
  {
    |Flatten(out[..k])| + p
  }

  lemma {:induction false} FlattenSplit(out: seq<Incident>, k: nat)
    requires k < |out|
    ensures |Flatten(out[..k + 1])| == |Flatten(out[..k])| + |out[k].events|
    ensures |Flatten(out[..k + 1])| <= |Flatten(out)|
    ensures forall p :: 0 <= p < |out[k].events| ==> Flatten(out)[Index(out, k, p)] == out[k].events[p]
    decreases |out|
  {
    var rest := out[..|out| - 1];
    FlattenLast(out);
    FlattenTake(out, k);
    hide Flatten;
    if k == |out| - 1 {
      assert out[..k + 1] == out;
    } else {
      FlattenSplit(rest, k);
      assert rest[..k] == out[..k] && rest[..k + 1] == out[..k + 1];
      forall p | 0 <= p < |out[k].events| ensures Flatten(out)[Index(out, k, p)] == out[k].events[p] {
        assert Flatten(rest)[Index(rest, k, p)] == rest[k].events[p];
      }
    }
  }

  lemma FlattenLast(out: seq<Incident>)
    requires out != []
    ensures Flatten(out) == Flatten(out[..|out| - 1]) + out[|out| - 1].events
  {
  }

  lemma FlattenTake(out: seq<Incident>, k: nat)
    requires k < |out|
    ensures Flatten(out[..k + 1]) == Flatten(out[..k]) + out[k].events
  {
    assert out[..k + 1][..k] == out[..k];
  }

  /** Absorbing one more event leaves the number of events before an incident as it is. */
  lemma AbsorbedKeepsIndex(out: seq<Incident>, e: DetectionEvent, k: nat, p: nat)
    requires k < |out|
    ensures k < |Absorbed(out, e)| && Index(Absorbed(out, e), k, p) == Index(out, k, p)
    ensures |out[k].events| <= |Absorbed(out, e)[k].events|
  {
    assert Absorbed(out, e)[..k] == out[..k];
  }

  ghost predicate HeldBy(out: seq<Incident>, k: int, i: nat) {
    0 <= k < |out| && Index(out, k, 0) <= i < Index(out, k, |out[k].events|)
  }

  lemma LastIsHeld(es: seq<DetectionEvent>)
    requires es != []
    ensures HeldBy(Grouped(es), |Grouped(es)| - 1, |es| - 1)
  {
    hide Grouped, Flatten, Absorbed;
    var out := Grouped(es);
    EventsArePartitioned(es);
    GroupedHaveEvents(es);
    assert es[..|es|] == es;
    PlaceStep(es, |es| - 1);
    FlattenSplit(out, |out| - 1);
    assert out[..|out|] == out;
  }

  lemma AbsorbedHolds(out: seq<Incident>, e: DetectionEvent, k: int, i: nat)
    requires HeldBy(out, k, i)
    ensures HeldBy(Absorbed(out, e), k, i)
  {
    AbsorbedKeepsIndex(out, e, k, 0);
  }

  /** Event i is an event of the incident that is its place. */
  lemma {:induction false} PlaceHolds(es: seq<DetectionEvent>, i: nat)
    requires i < |es|
    ensures HeldBy(Grouped(es), Place(es, i), i)
    decreases |es|
  {
    hide HeldBy, Absorbed;
    if i < |es| - 1 {
      var rest := es[..|es| - 1];
      assert es[..i + 1] == rest[..i + 1];
      PlaceHolds(rest, i);
      AbsorbedHolds(Grouped(rest), es[|es| - 1], Place(rest, i), i);
    } else {
      assert es[..i + 1] == es;
      LastIsHeld(es);
    }
  }

  lemma {:induction false} IndexGrows(out: seq<Incident>, k: nat, m: nat)
    requires k < m < |out|
    ensures Index(out, k, |out[k].events|) <= Index(out, m, 0)
    decreases m
  {
    FlattenSplit(out, k);
    if k + 1 < m {
      FlattenSplit(out, m - 1);
      IndexGrows(out, k, m - 1);
    }
  }

  /** The place of an event is the incident it is found in. */
  lemma FoundAtPlace(es: seq<DetectionEvent>, k: nat, p: nat)
    requires k < |Grouped(es)| && p < |Grouped(es)[k].events|
    ensures var i := Index(Grouped(es), k, p);
            i < |es| && es[i] == Grouped(es)[k].events[p] && Place(es, i) == k
  {
    hide Grouped, Place, Flatten;
    var out := Grouped(es);
    EventsArePartitioned(es);
    FlattenSplit(out, k);
    var i := Index(out, k, p);
    PlaceHolds(es, i);
    if Place(es, i) < k { IndexGrows(out, Place(es, i), k); }
    if k < Place(es, i) { IndexGrows(out, k, Place(es, i)); }
  }

  lemma {:induction false} SameEventsFlatten(a: seq<Incident>, b: seq<Incident>)
    requires |a| == |b| && forall k :: 0 <= k < |a| ==> a[k].events == b[k].events
    ensures Flatten(a) == Flatten(b)
  {
    if a != [] { SameEventsFlatten(a[..|a| - 1], b[..|b| - 1]); }
  }

  lemma BuiltHoldsGrouped(out: seq<Incident>, es: seq<DetectionEvent>, k: nat, p: nat)
    requires BuiltFrom(out, es) && k < |out|
    ensures out[k].events == Grouped(es)[k].events && Index(out, k, p) == Index(Grouped(es), k, p)
  {
    SameEventsFlatten(out[..k], Grouped(es)[..k]);
  }

  /** In what buildIncidents returns, the incidents one after the other hold the sorted events, so event p of incident
      k is event number Index(out, k, p). For events of kinds the condition admits, two of them are in one incident
      exactly when a chain of events of their player, each at most 20 frames from the next, connects them. */
  lemma IncidentsAreComponents(ok: DetectionEvent -> bool, out: seq<Incident>, es: seq<DetectionEvent>,
                               k: nat, p: nat, m: nat, q: nat)
    requires BuiltFrom(out, es) && Sorted(es) && AllOf(ok, es) && Admits(ok)
    requires k < |out| && p < |out[k].events| && m < |out| && q < |out[m].events|
    ensures var i, j := Index(out, k, p), Index(out, m, q);
            && i < |es| && es[i] == out[k].events[p] && j < |es| && es[j] == out[m].events[q]
            && (k == m <==> Connected(es, i, j))
  {
    BuiltHoldsGrouped(out, es, k, p);
    BuiltHoldsGrouped(out, es, m, q);
    hide Grouped, Place, Index, Sorted, AllOf, Admits, Connected;
    FoundAtPlace(es, k, p);
    FoundAtPlace(es, m, q);
    SharedPlaceIsConnected(ok, es, Index(out, k, p), Index(out, m, q));
  }

  // ----- The condition is exact

  /** Any two events of the list are in one incident exactly when they are connected. */
  ghost predicate AreComponents(es: seq<DetectionEvent>) {
    forall i, j :: 0 <= i < |es| && 0 <= j < |es| ==> SharesExactly(es, i, j)
  }

  ghost predicate SharesExactly(es: seq<DetectionEvent>, i: nat, j: nat)
    requires i < |es| && j < |es|
  {
    Place(es, i) == Place(es, j) <==> Connected(es, i, j)
  }

  /** Two events, the first of which reaches the second, are merged; they are connected only if the second reaches
      back. */
  lemma PairMustReachBack(a: DetectionEvent, b: DetectionEvent)
    requires Comes(a, b) && Reaches(a, b) && AreComponents([a, b])
    ensures Reaches(b, a)
  {
    var es := [a, b];
    hide Grouped, Connected, Absorbed;
    PlaceStep(es, 0);
    PlaceStep(es, 1);
    assert JoinsAt(es, 1);
    assert SharesExactly(es, 0, 1);
    if !Reaches(b, a) { NotConnected(es); }
  }

  lemma NotConnected(es: seq<DetectionEvent>)
    requires |es| == 2 && !Near(es[0], es[1])
    ensures !Connected(es, 0, 1)
  {
    if Connected(es, 0, 1) {
      var n: nat :| ConnectedIn(es, 0, 1, n);
      NeverLeaves(es, n);
    }
  }

  /** Of three events, one in the middle that the first does not reach ends the first one's incident. */
  lemma MiddleMustBeReached(a: DetectionEvent, m: DetectionEvent, b: DetectionEvent)
    requires Comes(a, m) && Comes(m, b) && Reaches(a, b) && Reaches(b, a) && AreComponents([a, m, b])
    ensures Reaches(a, m)
  {
    var es := [a, m, b];
    hide Grouped, Connected, Absorbed;
    PlaceStep(es, 0);
    PlaceStep(es, 1);
    PlaceStep(es, 2);
    assert SharesExactly(es, 0, 2);
    assert Near(es[0], es[2]);
    SelfConnected(es, 0);
    NearConnects(es, 0, 0, 2);
    assert JoinsAt(es, 1) ==> Reaches(a, m);
  }

  lemma PairIsSorted(a: DetectionEvent, b: DetectionEvent)
    requires Comes(a, b)
    ensures Sorted([a, b])
  {
  }

  lemma TripleIsSorted(a: DetectionEvent, m: DetectionEvent, b: DetectionEvent)
    requires Comes(a, m) && Comes(m, b)
    ensures Sorted([a, m, b])
  {
  }

  /** For any kinds of events: in every sorted list of such events the incidents are the components if and only if the
      kinds satisfy the condition. */
  lemma ComponentsExactlyWhen(ok: DetectionEvent -> bool)
    ensures (forall es :: Sorted(es) && AllOf(ok, es) ==> AreComponents(es)) <==> Admits(ok)
  {
    hide Sorted, Comes, Reaches;
    if Admits(ok) {
      forall es | Sorted(es) && AllOf(ok, es) ensures AreComponents(es) { AdmittedAreComponents(ok, es); }
    }
    if forall es :: Sorted(es) && AllOf(ok, es) ==> AreComponents(es) {
      hide AreComponents;
      forall a, b | ok(a) && ok(b) && Comes(a, b) && Reaches(a, b) ensures Reaches(b, a) {
        PairIsSorted(a, b);
        assert AllOf(ok, [a, b]);
        PairMustReachBack(a, b);
      }
      forall a, m, b | ok(a) && ok(m) && ok(b) && Comes(a, m) && Comes(m, b) && Reaches(a, b) ensures Reaches(a, m) {
        ComesAlong(a, m, b);
        TripleIsSorted(a, m, b);
        assert AllOf(ok, [a, m, b]);
        MiddleMustBeReached(a, m, b);
      }
    }
  }

  lemma ComesAlong(a: DetectionEvent, m: DetectionEvent, b: DetectionEvent)
    requires Comes(a, m) && Comes(m, b)
    ensures Comes(a, b)
  {
  }

  lemma AdmittedAreComponents(ok: DetectionEvent -> bool, es: seq<DetectionEvent>)
    requires Sorted(es) && AllOf(ok, es) && Admits(ok)
    ensures AreComponents(es)
  {
    hide Sorted, AllOf, Admits, Place, Connected;
    forall i, j | 0 <= i < |es| && 0 <= j < |es| ensures SharesExactly(es, i, j) {
      SharedPlaceIsConnected(ok, es, i, j);
    }
  }

  // ----- Hulls and gaps

  /** A closed incident is followed, for the same player, by one that starts more than 20 frames after its end. */
  ghost predicate Gapped(out: seq<Incident>) {
    forall k :: 0 < k < |out| && out[k].player == out[k - 1].player ==> out[k].startFrame > out[k - 1].endFrame + GAP
  }

  lemma {:induction false} ConsecutiveAreApart(es: seq<DetectionEvent>)
    ensures Gapped(Grouped(es))
  {
    if es != [] {
      ConsecutiveAreApart(es[..|es| - 1]);
    }
  }

  /** No range ends before it starts, and the events of one player come in the order of their starts. */
  ghost predicate StartOrdered(es: seq<DetectionEvent>) {
    forall i, j :: 0 <= i <= j < |es| && es[i].player == es[j].player ==> Start(es[i]) <= Start(es[j]) <= End(es[j])
  }

  /** Sorted events with explicit ranges are in that order. */
  lemma ExplicitIsOrdered(es: seq<DetectionEvent>)
    requires Sorted(es) && AllOf(Explicit, es)
    ensures StartOrdered(es)
  {
    forall i, j | 0 <= i <= j < |es| && es[i].player == es[j].player
      ensures Start(es[i]) <= Start(es[j]) <= End(es[j])
    {
      SortedComes(es, i, j);
      assert Explicit(es[i]) && Explicit(es[j]);
    }
  }

  /** The range of an incident is the hull of its events' ranges. */
  ghost predicate IsHull(inc: Incident) {
    && inc.events != [] && inc.startFrame == Start(inc.events[0])
    && (forall i :: 0 <= i < |inc.events| ==> inc.startFrame <= Start(inc.events[i]) && End(inc.events[i]) <= inc.endFrame)
    && (exists i :: 0 <= i < |inc.events| && End(inc.events[i]) == inc.endFrame)
  }

  predicate LastIsOf(es: seq<DetectionEvent>, inc: Incident) {
    inc.events != [] && inc.events[0] in es && inc.events[0].player == inc.player
  }

  ghost predicate AreHulls(out: seq<Incident>) {
    forall k :: 0 <= k < |out| ==> IsHull(out[k])
  }

  /** The range of every incident is the hull of its events' ranges. */
  lemma {:induction false} IncidentsAreHulls(es: seq<DetectionEvent>)
    requires StartOrdered(es)
    ensures AreHulls(Grouped(es))
  {
    if es != [] {
      var rest, e := es[..|es| - 1], es[|es| - 1];
      GroupedLast(es);
      OrderedPrefix(es);
      FirstOfLast(rest);
      hide Grouped, Absorbed, IsHull, StartOrdered, AreHulls, LastIsOf;
      IncidentsAreHulls(rest);
      var out := Grouped(rest);
      if Joins(out, e) { StartsBefore(out, es); }
      AbsorbedHulls(out, e);
    }
  }

  lemma OrderedPrefix(es: seq<DetectionEvent>)
    requires StartOrdered(es) && es != []
    ensures StartOrdered(es[..|es| - 1])
  {
  }

  /** The incident being built has an event to start with. */
  lemma {:induction false} FirstOfLast(es: seq<DetectionEvent>)
    ensures es != [] ==> Grouped(es) != [] && LastIsOf(es, Grouped(es)[|Grouped(es)| - 1])
  {
    if es != [] {
      var rest, e := es[..|es| - 1], es[|es| - 1];
      FirstOfLast(rest);
      GroupedLast(es);
      hide Grouped;
      var out := Grouped(rest);
      if Joins(out, e) && rest != [] {
        assert out[|out| - 1].events[0] in es;
      } else {
        assert Extended(Opened(e), e).events == [e];
        assert e in es;
      }
    }
  }

  lemma StartsBefore(out: seq<Incident>, es: seq<DetectionEvent>)
    requires StartOrdered(es) && es != [] && AreHulls(out) && Joins(out, es[|es| - 1])
    requires LastIsOf(es[..|es| - 1], out[|out| - 1])
    ensures out[|out| - 1].startFrame <= Start(es[|es| - 1])
  {
    var inc := out[|out| - 1];
    assert IsHull(inc);
    var f :| 0 <= f < |es| - 1 && es[..|es| - 1][f] == inc.events[0];
    assert es[f] == inc.events[0];
  }

  lemma AbsorbedHulls(out: seq<Incident>, e: DetectionEvent)
    requires AreHulls(out) && (Joins(out, e) ==> out[|out| - 1].startFrame <= Start(e))
    ensures AreHulls(Absorbed(out, e))
  {
    hide IsHull, Extended, Opened;
    if Joins(out, e) { ExtendedHull(out[|out| - 1], e); } else { OpenedHull(e); }
  }

  lemma OpenedHull(e: DetectionEvent)
    ensures IsHull(Extended(Opened(e), e))
  {
    assert [] + [e] == [e];
    assert Extended(Opened(e), e).events[0] == e;
  }

  lemma ExtendedHull(inc: Incident, e: DetectionEvent)
    requires IsHull(inc) && inc.startFrame <= Start(e)
    ensures IsHull(Extended(inc, e))
  {
    var next := Extended(inc, e);
    var k :| 0 <= k < |inc.events| && End(inc.events[k]) == inc.endFrame;
    assert next.events[k] == inc.events[k] && next.events[|inc.events|] == e;
  }

  // ----- What an incident reports

  function SumConfidence(es: seq<DetectionEvent>): real {
    if es == [] then 0.0 else SumConfidence(es[..|es| - 1]) + es[|es| - 1].confidence
  }

  /** The severity is the highest one, and at least 0. */
  ghost predicate SeverityReported(inc: Incident) {
    && inc.maxSeverity >= 0.0 && (forall i :: 0 <= i < |inc.events| ==> inc.events[i].severity <= inc.maxSeverity)
    && (inc.maxSeverity == 0.0 || exists i :: 0 <= i < |inc.events| && inc.events[i].severity == inc.maxSeverity)
  }

  ghost predicate Detects(es: seq<DetectionEvent>, d: string) {
    exists i :: 0 <= i < |es| && es[i].detector == d
  }

  /** The detectors are those of the events, each once. */
  ghost predicate DetectorsReported(inc: Incident) {
    && (forall i, j :: 0 <= i < j < |inc.detectors| ==> inc.detectors[i] != inc.detectors[j])
    && (forall d :: d in inc.detectors <==> Detects(inc.events, d))
  }

  ghost predicate Reported(inc: Incident) {
    inc.confidence == SumConfidence(inc.events) && SeverityReported(inc) && DetectorsReported(inc)
  }

  lemma ExtendedSeverity(inc: Incident, e: DetectionEvent)
    requires SeverityReported(inc)
    ensures SeverityReported(Extended(inc, e))
  {
    var next := Extended(inc, e);
    assert next.events[|inc.events|] == e;
    if inc.maxSeverity != 0.0 {
      var i :| 0 <= i < |inc.events| && inc.events[i].severity == inc.maxSeverity;
      assert next.events[i].severity == inc.maxSeverity;
    }
  }

  lemma DetectsSnoc(es: seq<DetectionEvent>, e: DetectionEvent, d: string)
    ensures Detects(es + [e], d) <==> Detects(es, d) || d == e.detector
  {
    var next := es + [e];
    assert next[|es|] == e;
    if Detects(es, d) {
      var i :| 0 <= i < |es| && es[i].detector == d;
      assert next[i].detector == d;
    }
  }

  lemma ExtendedDetectors(inc: Incident, e: DetectionEvent)
    requires DetectorsReported(inc)
    ensures DetectorsReported(Extended(inc, e))
  {
    hide Detects;
    forall d ensures d in Extended(inc, e).detectors <==> Detects(Extended(inc, e).events, d) {
      DetectsSnoc(inc.events, e, d);
    }
  }

  lemma ExtendedReports(inc: Incident, e: DetectionEvent)
    requires Reported(inc)
    ensures Reported(Extended(inc, e))
  {
    hide SeverityReported, DetectorsReported, SumConfidence, MaxReal;
    ExtendedSeverity(inc, e);
    ExtendedDetectors(inc, e);
    SumSnoc(inc.events, e);
  }

  lemma SumSnoc(es: seq<DetectionEvent>, e: DetectionEvent)
    ensures SumConfidence(es + [e]) == SumConfidence(es) + e.confidence
  {
    assert (es + [e])[..|es|] == es;
  }

  /** Confidence is summed over the incident's events (and divided by their number at the end), the severity is the
      highest one and at least 0, and the detectors are those of the events, each once. */
  lemma {:induction false} IncidentsReport(es: seq<DetectionEvent>)
    ensures forall k :: 0 <= k < |Grouped(es)| ==> Reported(Grouped(es)[k])
  {
    if es != [] {
      var rest, e := es[..|es| - 1], es[|es| - 1];
      IncidentsReport(rest);
      GroupedLast(es);
      OpenedReports(e);
      hide Grouped, Reported, Extended, Opened;
      ExtendedReports(Opened(e), e);
      if Joins(Grouped(rest), e) { ExtendedReports(Grouped(rest)[|Grouped(rest)| - 1], e); }
    }
  }

  lemma OpenedReports(e: DetectionEvent)
    ensures Reported(Opened(e))
  {
  }

  // ----- Where the condition is needed

  function Point(frame: int): DetectionEvent {
    DetectionEvent("D", "p", frame, 0, 0, 1.0, 1.0)
  }

  function Ranged(start: int, end: int): DetectionEvent {
    DetectionEvent("D", "p", start, start, end, 1.0, 1.0)
  }

  /** An event without a range is sorted as if it started at frame 0 but merged at its own frame: here events 994 frames
      apart become one incident, which even starts after one of them. */
  lemma FallbackBreaksComponents()
    ensures var es := [Point(1000), Ranged(5, 6)];
            && Sorted(es) && !StartOrdered(es) && Place(es, 0) == Place(es, 1) && !Connected(es, 0, 1)
            && |Grouped(es)| == 1 && Grouped(es)[0].startFrame > Start(es[1])
  {
    var es := [Point(1000), Ranged(5, 6)];
    assert es[..2][..1] == es[..1] && es[..1][..0] == [] && es[..2] == es;
    assert Grouped(es[..1]) == [Extended(Opened(es[0]), es[0])];
    assert Start(es[0]) == 1000 && Start(es[1]) == 5;
    NotConnected(es);
  }

  lemma {:induction false} NeverLeaves(es: seq<DetectionEvent>, n: nat)
    requires |es| == 2 && !Near(es[0], es[1])
    ensures !ConnectedIn(es, 0, 1, n)
  {
    if n > 0 && ConnectedIn(es, 0, 1, n) {
      var k: nat :| k < |es| && Near(es[0], es[k]) && ConnectedIn(es, k, 1, n - 1);
      NeverLeaves(es, n - 1);
    }
  }
}
