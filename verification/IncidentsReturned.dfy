/** What buildIncidents returns, for all events. */
module IncidentsReturned {
  import opened Common
  import opened Events
  import opened Incidents
  import opened IncidentsProofs
  import Strings

  /** The latest end among the first n events. */
  ghost predicate LatestEnd(es: seq<DetectionEvent>, n: nat, end: int)
    requires 0 < n <= |es|
  {
    (forall i :: 0 <= i < n ==> End(es[i]) <= end) && exists i :: 0 <= i < n && End(es[i]) == end
  }

  /** The events are of the incident's player; the first one gives its start and the latest end its end; and each event
      after the first starts at most 20 frames after the latest end before it. */
  ghost predicate Covers(inc: Incident) {
    && OfOnePlayer(inc) && inc.events != [] && inc.startFrame == Start(inc.events[0]) && LatestEnd(inc.events, |inc.events|, inc.endFrame)
    && forall n, end :: 0 < n < |inc.events| && LatestEnd(inc.events, n, end) ==> Start(inc.events[n]) <= end + 20
  }

  /** The severity is the highest one and at least 0, the confidence is the mean, and the detectors are those of the
      events, in order and each once. */
  ghost predicate Sums(inc: Incident) {
    && SeverityReported(inc) && inc.confidence * |inc.events| as real == SumConfidence(inc.events)
    && DetectorsReported(inc) && Strings.Sorted(inc.detectors)
  }

  // ----- Merging keeps it

  lemma LatestPrefix(es: seq<DetectionEvent>, e: DetectionEvent, n: nat, end: int)
    requires 0 < n <= |es|
    ensures LatestEnd(es + [e], n, end) <==> LatestEnd(es, n, end)
  {
    if LatestEnd(es, n, end) {
      var i :| 0 <= i < n && End(es[i]) == end;
      assert (es + [e])[i] == es[i];
    }
    if LatestEnd(es + [e], n, end) {
      var i :| 0 <= i < n && End((es + [e])[i]) == end;
      assert (es + [e])[i] == es[i];
      forall j | 0 <= j < n ensures End(es[j]) <= end { assert (es + [e])[j] == es[j]; }
    }
  }

  lemma LatestIsUnique(es: seq<DetectionEvent>, n: nat, a: int, b: int)
    requires 0 < n <= |es| && LatestEnd(es, n, a) && LatestEnd(es, n, b)
    ensures a == b
  {
  }

  lemma LatestSnoc(es: seq<DetectionEvent>, e: DetectionEvent, end: int)
    requires es != [] && LatestEnd(es, |es|, end)
    ensures LatestEnd(es + [e], |es| + 1, Max(end, End(e)))
  {
    var longer := es + [e];
    var i :| 0 <= i < |es| && End(es[i]) == end;
    assert longer[i] == es[i] && longer[|es|] == e;
  }

  lemma OpenedCovers(e: DetectionEvent)
    ensures Covers(Extended(Opened(e), e))
  {
    var inc := Extended(Opened(e), e);
    assert inc.events == [e] && inc.events[0] == e;
  }

  lemma ExtendedCovers(inc: Incident, e: DetectionEvent)
    requires Covers(inc) && e.player == inc.player && Start(e) <= inc.endFrame + 20
    ensures Covers(Extended(inc, e))
  {
    var next := Extended(inc, e);
    LatestSnoc(inc.events, e, inc.endFrame);
    forall n, end | 0 < n < |next.events| && LatestEnd(next.events, n, end) ensures Start(next.events[n]) <= end + 20 {
      LatestPrefix(inc.events, e, n, end);
      if n == |inc.events| { LatestIsUnique(inc.events, n, end, inc.endFrame); }
    }
  }

  lemma {:induction false} GroupedCover(es: seq<DetectionEvent>)
    ensures forall k :: 0 <= k < |Grouped(es)| ==> Covers(Grouped(es)[k])
  {
    if es != [] {
      var rest, e := es[..|es| - 1], es[|es| - 1];
      GroupedCover(rest);
      GroupedLast(es);
      OpenedCovers(e);
      hide Grouped, Covers, Extended, Opened;
      if Joins(Grouped(rest), e) { ExtendedCovers(Grouped(rest)[|Grouped(rest)| - 1], e); }
    }
  }

  // ----- The last loop

  lemma FinishedCovers(inc: Incident)
    requires Covers(inc)
    ensures Covers(Finished(inc))
  {
    var out := Finished(inc);
    assert out.events == inc.events && out.startFrame == inc.startFrame && out.endFrame == inc.endFrame && out.player == inc.player;
    hide Finished, LatestEnd;
  }

  lemma MeanTimesCount(sum: real, n: nat)
    requires n > 0
    ensures sum / n as real * n as real == sum
  {
  }

  lemma {:induction false} SortedKeepsDistinct(xs: seq<string>, ys: seq<string>)
    requires multiset(xs) == multiset(ys) && forall i, j :: 0 <= i < j < |xs| ==> xs[i] != xs[j]
    ensures forall i, j :: 0 <= i < j < |ys| ==> ys[i] != ys[j]
    ensures forall x :: x in xs <==> x in ys
  {
    forall x ensures x in xs <==> x in ys { assert x in xs <==> x in multiset(xs); }
    forall i, j | 0 <= i < j < |ys| ensures ys[i] != ys[j] {
      AtMostOnce(xs, ys[i]);
      if ys[i] == ys[j] { Twice(ys, i, j); }
    }
  }

  lemma {:induction false} AtMostOnce(xs: seq<string>, x: string)
    requires forall i, j :: 0 <= i < j < |xs| ==> xs[i] != xs[j]
    ensures multiset(xs)[x] <= 1
  {
    if xs != [] {
      var rest, last := xs[..|xs| - 1], xs[|xs| - 1];
      AtMostOnce(rest, x);
      assert xs == rest + [last];
      if last == x {
        assert x !in rest;
        assert x !in multiset(rest);
      }
    }
  }

  lemma Twice(xs: seq<string>, i: nat, j: nat)
    requires i < j < |xs| && xs[i] == xs[j]
    ensures multiset(xs)[xs[i]] >= 2
  {
    assert xs == xs[..i] + [xs[i]] + xs[i + 1..j] + [xs[j]] + xs[j + 1..];
  }

  lemma FinishedSums(inc: Incident)
    requires Reported(inc) && inc.events != []
    ensures Sums(Finished(inc))
  {
    var out := Finished(inc);
    MeanTimesCount(inc.confidence, |inc.events|);
    Strings.SortIsSorted(inc.detectors);
    SortedKeepsDistinct(inc.detectors, out.detectors);
    hide Detects, SumConfidence;
  }

  /** In every order of the events that the sort may leave: the incidents hold the events one after the other; each covers
      and sums up its own events; and consecutive ones of a player are more than 20 frames apart. */
  lemma ReturnedIncidents(out: seq<Incident>, es: seq<DetectionEvent>)
    requires BuiltFrom(out, es)
    ensures Flatten(out) == es
    ensures forall k :: 0 <= k < |out| ==> Covers(out[k]) && Sums(out[k])
    ensures forall k :: 0 < k < |out| && out[k].player == out[k - 1].player ==> out[k].startFrame > out[k - 1].endFrame + 20
  {
    var grouped := Grouped(es);
    EventsArePartitioned(es);
    SameEventsFlatten(out, grouped);
    GroupedCover(es);
    IncidentsReport(es);
    ConsecutiveAreApart(es);
    GroupedHaveEvents(es);
    forall k | 0 <= k < |out| ensures Covers(out[k]) && Sums(out[k]) {
      hide Grouped, Covers, Sums, Finished, Reported;
      FinishedCovers(grouped[k]);
      FinishedSums(grouped[k]);
    }
    hide Grouped, Covers, Sums, Reported, Flatten;
  }

  /** When no range ends before it starts and each player's events come in the order of their starts, as explicit ranges do,
      every returned incident is the hull of its own events. */
  lemma ReturnedHulls(out: seq<Incident>, es: seq<DetectionEvent>)
    requires BuiltFrom(out, es) && StartOrdered(es)
    ensures AreHulls(out)
  {
    IncidentsAreHulls(es);
    hide Grouped, StartOrdered;
    forall k | 0 <= k < |out| ensures IsHull(out[k]) {
      assert IsHull(Grouped(es)[k]);
      assert out[k].events == Grouped(es)[k].events;
    }
  }
}
