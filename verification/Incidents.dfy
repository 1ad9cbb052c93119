/** buildIncidents of cmd/desktop/investigation_suite.go: events of one player whose frame ranges nearly touch become one incident. */
module Incidents {
  import opened Common
  import opened Events
  import Strings

  /** investigationIncident, with the events themselves in place of their ids. */
  datatype Incident = Incident(player: string, startFrame: int, endFrame: int, events: seq<DetectionEvent>,
                               detectors: seq<string>, maxSeverity: real, confidence: real)

  const GAP := 20

  // ----- The sort order

  predicate InOrder(a: DetectionEvent, b: DetectionEvent) {
    Strings.Less(a.player, b.player) || (a.player == b.player && a.rangeStart <= b.rangeStart)
  }

  ghost predicate Sorted(es: seq<DetectionEvent>) {
    forall i, j :: 0 <= i < j < |es| ==> InOrder(es[i], es[j])
  }

  lemma InOrderTransitive(a: DetectionEvent, b: DetectionEvent, c: DetectionEvent)
    requires InOrder(a, b) && InOrder(b, c)
    ensures InOrder(a, c)
  {
    if a.player != b.player && b.player != c.player { Strings.LessTransitive(a.player, b.player, c.player); }
  }

  lemma InOrderTotal(a: DetectionEvent, b: DetectionEvent)
    ensures InOrder(a, b) || InOrder(b, a)
  {
    Strings.LessTotal(a.player, b.player);
  }

  function Insert(e: DetectionEvent, xs: seq<DetectionEvent>): seq<DetectionEvent> {
    if xs == [] || InOrder(e, xs[0]) then [e] + xs else [xs[0]] + Insert(e, xs[1..])
  }

  lemma {:induction false} InsertKeepsElements(e: DetectionEvent, xs: seq<DetectionEvent>)
    ensures multiset(Insert(e, xs)) == multiset{e} + multiset(xs)
  {
    if xs != [] && !InOrder(e, xs[0]) {
      InsertKeepsElements(e, xs[1..]);
      assert xs == [xs[0]] + xs[1..];
    }
  }

  lemma {:induction false} InsertKeepsSorted(e: DetectionEvent, xs: seq<DetectionEvent>)
    requires Sorted(xs)
    ensures Sorted(Insert(e, xs))
  {
    hide InOrder;
    if xs == [] {
    } else if InOrder(e, xs[0]) {
      forall j | 0 <= j < |xs| ensures InOrder(e, xs[j]) { if j > 0 { InOrderTransitive(e, xs[0], xs[j]); } }
    } else {
      var rest := Insert(e, xs[1..]);
      InsertKeepsSorted(e, xs[1..]);
      InsertKeepsElements(e, xs[1..]);
      InOrderTotal(e, xs[0]);
      forall j | 0 <= j < |rest| ensures InOrder(xs[0], rest[j]) {
        assert rest[j] in multiset(rest);
        assert rest[j] == e || rest[j] in xs[1..];
      }
    }
  }

  /** sort.Slice: some ordered rearrangement. */
  method SortedCopy(events: seq<DetectionEvent>) returns (es: seq<DetectionEvent>)
    ensures Sorted(es) && multiset(es) == multiset(events)
  {
    es := [];
    for i := 0 to |events|
      invariant Sorted(es) && multiset(es) == multiset(events[..i])
    {
      assert events[..i + 1] == events[..i] + [events[i]];
      InsertKeepsElements(events[i], es);
      InsertKeepsSorted(events[i], es);
      es := Insert(events[i], es);
    }
    assert events[..|events|] == events;
  }

  // ----- Merging

  /** The event belongs to the incident before it. */
  predicate Joins(out: seq<Incident>, e: DetectionEvent) {
    out != [] && out[|out| - 1].player == e.player && Start(e) <= out[|out| - 1].endFrame + GAP
  }

  function Opened(e: DetectionEvent): Incident {
    Incident(e.player, Start(e), End(e), [], [], 0.0, 0.0)
  }

  function MaxReal(a: real, b: real): real {
    if a >= b then a else b
  }

  function Extended(incident: Incident, e: DetectionEvent): Incident {
    incident.(endFrame := Max(incident.endFrame, End(e)), events := incident.events + [e],
              maxSeverity := MaxReal(incident.maxSeverity, e.severity), confidence := incident.confidence + e.confidence,
              detectors := if e.detector in incident.detectors then incident.detectors else incident.detectors + [e.detector])
  }

  /** One pass of the loop. */
  function Absorbed(out: seq<Incident>, e: DetectionEvent): seq<Incident> {
    if Joins(out, e) then out[|out| - 1 := Extended(out[|out| - 1], e)] else out + [Extended(Opened(e), e)]
  }

  function Grouped(es: seq<DetectionEvent>): seq<Incident> {
    if es == [] then [] else Absorbed(Grouped(es[..|es| - 1]), es[|es| - 1])
  }

  lemma GroupedLast(es: seq<DetectionEvent>)
    requires es != []
    ensures Grouped(es) == Absorbed(Grouped(es[..|es| - 1]), es[|es| - 1])
  {
  }

  lemma GroupedSnoc(es: seq<DetectionEvent>, i: nat)
    requires i < |es|
    ensures Grouped(es[..i + 1]) == Absorbed(Grouped(es[..i]), es[i])
  {
    assert es[..i + 1][..i] == es[..i];
  }

  /** The confidence becomes the mean, and the detectors are sorted. */
  function Finished(incident: Incident): Incident {
    incident.(confidence := if incident.events == [] then 0.0 else incident.confidence / |incident.events| as real,
              detectors := Strings.SortStrings(incident.detectors))
  }

  lemma {:induction false} GroupedHaveEvents(es: seq<DetectionEvent>)
    ensures forall k :: 0 <= k < |Grouped(es)| ==> Grouped(es)[k].events != []
  {
    if es != [] { GroupedHaveEvents(es[..|es| - 1]); }
  }

  /** out is what the loops make of the events in the given order. */
  ghost predicate BuiltFrom(out: seq<Incident>, es: seq<DetectionEvent>) {
    |out| == |Grouped(es)| && forall k :: 0 <= k < |out| ==> out[k] == Finished(Grouped(es)[k])
  }

  method BuildIncidents(events: seq<DetectionEvent>) returns (out: seq<Incident>)
    ensures exists es: seq<DetectionEvent> :: Sorted(es) && multiset(es) == multiset(events) && BuiltFrom(out, es)
  {
    var copyEvents := SortedCopy(events);
    out := Merge(copyEvents);
    GroupedHaveEvents(copyEvents);
    hide Grouped, Finished, Sorted;
    out := Finish(out);
    assert BuiltFrom(out, copyEvents);
  }

  /** The first loop. */
  method Merge(copyEvents: seq<DetectionEvent>) returns (out: seq<Incident>)
    ensures out == Grouped(copyEvents)
  {
    out := [];
    for i := 0 to |copyEvents|
      invariant out == Grouped(copyEvents[..i])
    {
      GroupedSnoc(copyEvents, i);
      hide Grouped, Extended, Opened;
      var event := copyEvents[i];
      if |out| > 0 && out[|out| - 1].player == event.player && Start(event) <= out[|out| - 1].endFrame + GAP {
        out := out[|out| - 1 := Extended(out[|out| - 1], event)];
      } else {
        out := out + [Extended(Opened(event), event)];
      }
    }
    assert copyEvents[..|copyEvents|] == copyEvents;
  }

  /** The second loop. */
  method Finish(merged: seq<Incident>) returns (out: seq<Incident>)
    requires forall k :: 0 <= k < |merged| ==> merged[k].events != []
    ensures |out| == |merged| && forall k :: 0 <= k < |out| ==> out[k] == Finished(merged[k])
  {
    out := merged;
    for i := 0 to |out|
      invariant |out| == |merged|
      invariant forall k :: 0 <= k < i ==> out[k] == Finished(merged[k])
      invariant forall k :: i <= k < |out| ==> out[k] == merged[k]
    {
      var incident := out[i];
      incident := incident.(confidence := incident.confidence / |incident.events| as real);
      incident := incident.(detectors := Strings.SortStrings(incident.detectors));
      assert incident == Finished(merged[i]);
      hide Finished;
      out := out[i := incident];
    }
  }
}
