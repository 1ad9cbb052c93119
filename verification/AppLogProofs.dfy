/** What a reader of the rotated log finds, whatever file operations fail. */
module AppLogProofs {
  import opened Common
  import opened AppLog

  // ----- Order

  ghost predicate Increasing(es: seq<Entry>) {
    forall i, j :: 0 <= i < j < |es| ==> es[i].id < es[j].id
  }

  ghost predicate Before(a: seq<Entry>, b: seq<Entry>) {
    forall i, j :: 0 <= i < |a| && 0 <= j < |b| ==> a[i].id < b[j].id
  }

  /** Every entry is a whole accepted write. */
  ghost predicate FromWrites(es: seq<Entry>, written: seq<string>) {
    forall i :: 0 <= i < |es| ==> es[i].id < |written| && es[i].text == written[es[i].id]
  }

  /** Within a generation later writes come later, and older generations hold earlier writes. */
  ghost predicate Ordered(files: Files) {
    && (forall i: nat :: Increasing(Generation(files, i)))
    && (forall i: nat, j: nat :: i < j ==> Before(Generation(files, j), Generation(files, i)))
  }

  ghost predicate Genuine(files: Files, written: seq<string>) {
    forall i: nat :: FromWrites(Generation(files, i), written)
  }

  ghost predicate Within(files: Files, keep: nat) {
    forall i :: i in files ==> i <= keep
  }

  lemma Nothing(es: seq<Entry>, written: seq<string>)
    ensures Increasing([]) && Before([], es) && Before(es, []) && FromWrites([], written)
  {
  }

  /** Generation i takes the place of generation i + 1. */
  lemma GenerationMoved(files: Files, i: nat, works: bool, k: nat)
    ensures Generation(Moved(files, i, works), k)
         == if works && i in files then (if k == i then [] else if k == i + 1 then Generation(files, i) else Generation(files, k)) else Generation(files, k)
  {
  }

  lemma MovedKeeps(files: Files, i: nat, works: bool, written: seq<string>, keep: nat)
    requires Ordered(files) && Genuine(files, written) && Within(files, keep) && i < keep
    ensures var next := Moved(files, i, works); Ordered(next) && Genuine(next, written) && Within(next, keep)
  {
    var next := Moved(files, i, works);
    if works && i in files {
      hide Increasing, Before, FromWrites, Moved;
      forall k: nat ensures Increasing(Generation(next, k)) && FromWrites(Generation(next, k), written) {
        GenerationMoved(files, i, works, k);
        Nothing([], written);
      }
      forall j: nat, k: nat | j < k ensures Before(Generation(next, k), Generation(next, j)) {
        GenerationMoved(files, i, works, k);
        GenerationMoved(files, i, works, j);
        Nothing(Generation(next, k), written);
        Nothing(Generation(next, j), written);
      }
      WithinMoved(files, i, keep);
    }
  }

  lemma WithinMoved(files: Files, i: nat, keep: nat)
    requires Within(files, keep) && i < keep
    ensures Within(Moved(files, i, true), keep)
  {
  }

  /** Removing a generation keeps the rest as it is. */
  lemma RemovedKeeps(files: Files, i: nat, written: seq<string>, keep: nat)
    requires Ordered(files) && Genuine(files, written) && Within(files, keep)
    ensures Ordered(files - {i}) && Genuine(files - {i}, written) && Within(files - {i}, keep)
  {
    hide Increasing, Before, FromWrites;
    var next := files - {i};
    forall k: nat ensures Generation(next, k) == if k == i then [] else Generation(files, k) {}
    forall k: nat ensures Increasing(Generation(next, k)) && FromWrites(Generation(next, k), written) { Nothing([], written); }
    forall j: nat, k: nat | j < k ensures Before(Generation(next, k), Generation(next, j)) {
      Nothing(Generation(next, k), written);
      Nothing(Generation(next, j), written);
    }
  }

  lemma {:induction false} ShiftedKeeps(files: Files, n: nat, plan: Plan, written: seq<string>, keep: nat)
    requires Ordered(files) && Genuine(files, written) && Within(files, keep) && n < keep
    ensures var next := Shifted(files, n, plan); Ordered(next) && Genuine(next, written) && Within(next, keep)
    ensures 0 in Shifted(files, n, plan) <==> 0 in files
    decreases n
  {
    hide Ordered, Genuine, Within;
    if n > 0 {
      MovedKeeps(files, n, plan.rename(n), written, keep);
      ShiftedKeeps(Moved(files, n, plan.rename(n)), n - 1, plan, written, keep);
    }
  }

  ghost predicate Inv(c: Config, l: Log) {
    && Ordered(l.files) && Genuine(l.files, l.written) && Within(l.files, c.keep)
    && (l.handle.Usable? ==> 0 in l.files && l.size == Bytes(l.files[0]))
    && (l.handle.Broken? ==> 0 in l.files)
  }

  lemma OpenedKeeps(c: Config, l: Log, works: bool)
    requires Inv(c, l)
    ensures Inv(c, Opened(l, works).0) && Opened(l, works).0.written == l.written
  {
    EmptyFileKeeps(l.files, l.written, c.keep);
    hide Ordered, Genuine, Within;
  }

  lemma EmptyFileKeeps(files: Files, written: seq<string>, keep: nat)
    requires Ordered(files) && Genuine(files, written) && Within(files, keep)
    ensures 0 !in files ==> Ordered(files[0 := []]) && Genuine(files[0 := []], written) && Within(files[0 := []], keep)
  {
    hide Increasing, Before, FromWrites;
    if 0 !in files {
      var next := files[0 := []];
      forall k: nat ensures Generation(next, k) == Generation(files, k) {}
      forall k: nat ensures Increasing(Generation(next, k)) && FromWrites(Generation(next, k), written) {}
      forall j: nat, k: nat | j < k ensures Before(Generation(next, k), Generation(next, j)) {}
    }
  }

  lemma RotatedKeeps(c: Config, l: Log, plan: Plan)
    requires Inv(c, l) && c.keep >= 1 && !l.handle.Absent?
    ensures var r := Rotated(c, l, plan); Inv(c, r.0) && r.0.written == l.written && (r.1 ==> r.0.handle.Usable?)
  {
    hide Ordered, Genuine, Within, Shifted;
    if !l.handle.Broken? && plan.close {
      var removed := Removed(c, l.files, plan);
      RemovedKeeps(l.files, c.keep, l.written, c.keep);
      ShiftedKeeps(removed, c.keep - 1, plan, l.written, c.keep);
      var shifted := Shifted(removed, c.keep - 1, plan);
      MovedKeeps(shifted, 0, true, l.written, c.keep);
      hide Moved, Opened;
      OpenedKeeps(c, l.(handle := Absent, files := Moved(shifted, 0, true)), plan.open);
      OpenedUsable(l.(handle := Absent, files := Moved(shifted, 0, true)), plan.open);
    }
  }

  lemma OpenedUsable(l: Log, works: bool)
    ensures Opened(l, works).1 ==> Opened(l, works).0.handle.Usable?
  {
  }

  lemma AppendedKeeps(c: Config, l: Log, text: string, works: bool)
    requires Inv(c, l)
    ensures Inv(c, Appended(l, text, works).0)
  {
    hide Ordered, Genuine;
    if l.handle.Usable? && works {
      var e := Entry(|l.written|, text);
      var next := l.files[0 := l.files[0] + [e]];
      assert (l.files[0] + [e])[..|l.files[0]|] == l.files[0];
      NewestLast(l.files, l.written, e, text);
    }
  }

  lemma NewestLast(files: Files, written: seq<string>, e: Entry, text: string)
    requires Ordered(files) && Genuine(files, written) && e == Entry(|written|, text)
    ensures var next := files[0 := Generation(files, 0) + [e]]; Ordered(next) && Genuine(next, written + [text])
  {
    hide Increasing, Before, FromWrites;
    var next := files[0 := Generation(files, 0) + [e]];
    forall k: nat ensures Increasing(Generation(next, k)) && FromWrites(Generation(next, k), written + [text]) {
      NewestOf(Generation(files, k), Generation(files, k), written, e, text);
    }
    forall j: nat, k: nat | j < k ensures Before(Generation(next, k), Generation(next, j)) {
      NewestOf(Generation(files, k), Generation(files, j), written, e, text);
    }
  }

  lemma NewestOf(older: seq<Entry>, es: seq<Entry>, written: seq<string>, e: Entry, text: string)
    requires FromWrites(older, written) && FromWrites(es, written) && Increasing(es) && e == Entry(|written|, text)
    ensures FromWrites(older, written + [text]) && FromWrites(es + [e], written + [text]) && Increasing(es + [e])
    ensures Before(older, es) ==> Before(older, es + [e])
  {
  }

  lemma WroteKeeps(c: Config, l: Log, text: string, plan: Plan)
    requires Inv(c, l) && c.keep >= 1
    ensures Inv(c, Wrote(c, l, text, plan).0)
    ensures Wrote(c, l, text, plan).0.written == if Wrote(c, l, text, plan).1 then l.written + [text] else l.written
  {
    hide Inv, Rotated;
    if !l.handle.Absent? {
      if l.size > 0 && l.size + |text| > c.maxBytes {
        RotatedKeeps(c, l, plan);
        var r := Rotated(c, l, plan).0;
        OpenedKeeps(c, r, plan.reopen);
        AppendedKeeps(c, Opened(r, plan.reopen).0, text, plan.write);
        AppendedKeeps(c, r, text, plan.write);
      } else {
        AppendedKeeps(c, l, text, plan.write);
      }
    }
  }

  lemma {:induction false} WroteAllKeeps(c: Config, texts: seq<string>, plans: seq<Plan>)
    requires |texts| == |plans| && c.keep >= 1
    ensures Inv(c, WroteAll(c, texts, plans))
    decreases |texts|
  {
    if texts != [] {
      hide Inv, Wrote;
      var n := |texts| - 1;
      WroteAllKeeps(c, texts[..n], plans[..n]);
      WroteKeeps(c, WroteAll(c, texts[..n], plans[..n]), texts[n], plans[n]);
    }
  }

  // ----- What a reader finds

  /** Reading the generations from the oldest to the current one gives whole accepted writes in the order they were made,
      whatever fails: some may be missing, none is torn, repeated or out of place. */
  lemma ReadingIsOrdered(c: Config, texts: seq<string>, plans: seq<Plan>)
    requires |texts| == |plans| && c.keep >= 1
    ensures var l := WroteAll(c, texts, plans); Increasing(Reading(l.files, c.keep)) && FromWrites(Reading(l.files, c.keep), l.written)
  {
    WroteAllKeeps(c, texts, plans);
    var l := WroteAll(c, texts, plans);
    ReadingFrom(l.files, l.written, c.keep);
  }

  lemma {:induction false} ReadingFrom(files: Files, written: seq<string>, keep: nat)
    requires Ordered(files) && Genuine(files, written)
    ensures Increasing(Reading(files, keep)) && FromWrites(Reading(files, keep), written)
    ensures forall k: nat :: k > keep ==> Before(Generation(files, k), Reading(files, keep))
    decreases keep
  {
    hide Increasing, FromWrites, Before, Generation;
    assert Increasing(Generation(files, keep)) && FromWrites(Generation(files, keep), written);
    assert Generation(files, keep) + [] == Generation(files, keep);
    if keep > 0 {
      ReadingFrom(files, written, keep - 1);
      Joined(Generation(files, keep), Reading(files, keep - 1), written);
      forall k: nat | k > keep ensures Before(Generation(files, k), Reading(files, keep)) {
        BeforeBoth(Generation(files, k), Generation(files, keep), Reading(files, keep - 1));
      }
    }
  }

  lemma BeforeBoth(older: seq<Entry>, a: seq<Entry>, b: seq<Entry>)
    requires Before(older, a) && Before(older, b)
    ensures Before(older, a + b)
  {
  }

  lemma Joined(a: seq<Entry>, b: seq<Entry>, written: seq<string>)
    requires Increasing(a) && Increasing(b) && Before(a, b) && FromWrites(a, written) && FromWrites(b, written)
    ensures Increasing(a + b) && FromWrites(a + b, written)
  {
  }

  // ----- The contiguous suffix

  /** The entries of all accepted writes from the k-th on. */
  function Tail(written: seq<string>, k: nat): seq<Entry>
    requires k <= |written|
  {
    seq(|written| - k, i requires 0 <= i < |written| - k => Entry(k + i, written[k + i]))
  }

  ghost predicate IsTail(es: seq<Entry>, written: seq<string>) {
    exists k: nat :: k <= |written| && es == Tail(written, k)
  }

  lemma ShorterTail(a: seq<Entry>, b: seq<Entry>, written: seq<string>)
    requires IsTail(a + b, written)
    ensures IsTail(b, written)
  {
    var k: nat :| k <= |written| && a + b == Tail(written, k);
    assert |a + b| == |written| - k;
    forall i | 0 <= i < |b| ensures b[i] == Tail(written, k + |a|)[i] { assert b[i] == (a + b)[|a| + i]; }
    assert b == Tail(written, k + |a|);
  }

  lemma LongerTail(es: seq<Entry>, written: seq<string>, text: string)
    requires IsTail(es, written)
    ensures IsTail(es + [Entry(|written|, text)], written + [text])
  {
    var k: nat :| k <= |written| && es == Tail(written, k);
    assert es + [Entry(|written|, text)] == Tail(written + [text], k);
  }

  /** Every rename of an existing file works. */
  ghost predicate RenamesWork(plan: Plan) {
    forall i: nat :: plan.rename(i)
  }

  /** When all renames work, moving generation n up on top of an emptied place changes nothing a reader finds. */
  lemma {:induction false} ShiftReading(files: Files, n: nat, plan: Plan, keep: nat)
    requires RenamesWork(plan) && n < keep && n + 1 !in files
    ensures var next := Shifted(files, n, plan);
            Reading(next, keep) == Reading(files, keep) && 1 !in next && (forall i :: i in next && i > n + 1 ==> i in files)
    decreases n
  {
    if n > 0 {
      MoveReading(files, n, keep);
      ShiftReading(Moved(files, n, true), n - 1, plan, keep);
    }
  }

  lemma {:induction false} MoveReading(files: Files, n: nat, keep: nat)
    requires n < keep && n + 1 !in files
    ensures Reading(Moved(files, n, true), keep) == Reading(files, keep)
    decreases keep
  {
    var next := Moved(files, n, true);
    MovedUp(files, n);
    hide Moved, Generation;
    if keep == n + 1 {
      SameReading(files, next, n);
      assert Reading(files, keep) == [] + Reading(files, n) && Reading(files, n) == Generation(files, n) + ReadingBelow(files, n);
      assert Reading(next, keep) == Generation(files, n) + Reading(next, n) && Reading(next, n) == [] + ReadingBelow(next, n);
    } else {
      MoveReading(files, n, keep - 1);
    }
  }

  lemma MovedUp(files: Files, n: nat)
    requires n + 1 !in files
    ensures var next := Moved(files, n, true);
            && Generation(next, n) == [] && Generation(next, n + 1) == Generation(files, n) && Generation(files, n + 1) == []
            && forall k: nat :: k != n && k != n + 1 ==> Generation(next, k) == Generation(files, k)
  {
  }

  function ReadingBelow(files: Files, n: nat): seq<Entry> {
    if n == 0 then [] else Reading(files, n - 1)
  }

  lemma {:induction false} SameReading(files: Files, next: Files, n: nat)
    requires forall i: nat :: i < n ==> Generation(next, i) == Generation(files, i)
    ensures ReadingBelow(next, n) == ReadingBelow(files, n)
  {
    if n > 0 {
      SameReading(files, next, n - 1);
    }
  }

  /** The shift with the oldest generation still in its place: the reader loses exactly that generation. */
  lemma ShiftDrops(files: Files, plan: Plan, keep: nat)
    requires RenamesWork(plan) && keep >= 1
    ensures var shifted := Shifted(files, keep - 1, plan); var next := Moved(shifted, 0, 0 in shifted);
            Reading(next, keep) == Reading(files, keep) || Reading(next, keep) == ReadingBelow(files, keep)
  {
    if keep - 1 in files || keep !in files || keep == 1 {
      var without := files - {keep};
      SameReading(files, without, keep);
      assert Reading(without, keep) == [] + ReadingBelow(without, keep);
      if keep == 1 {
        MoveReading(without, 0, keep);
        assert Moved(files, 0, 0 in files) == if 0 in files then Moved(without, 0, true) else files;
      } else {
        ShiftTwice(files, plan, keep);
      }
    } else {
      ShiftTwice(files, plan, keep);
    }
  }

  lemma ShiftTwice(files: Files, plan: Plan, keep: nat)
    requires RenamesWork(plan) && keep >= 2
    ensures var shifted := Shifted(files, keep - 1, plan); var next := Moved(shifted, 0, 0 in shifted);
            Reading(next, keep) == Reading(files, keep) || Reading(next, keep) == ReadingBelow(files, keep)
  {
    var moved := Moved(files, keep - 1, true);
    MoveOver(files, keep);
    ShiftStep(files, keep - 1, plan);
    hide Shifted, Moved, Reading;
    ShiftReading(moved, keep - 2, plan, keep);
    var shifted := Shifted(moved, keep - 2, plan);
    MovedNothing(shifted);
    if 0 in shifted { MoveReading(shifted, 0, keep); }
  }

  lemma ShiftStep(files: Files, n: nat, plan: Plan)
    requires RenamesWork(plan) && n > 0
    ensures Shifted(files, n, plan) == Shifted(Moved(files, n, true), n - 1, plan)
  {
  }

  lemma MovedNothing(files: Files)
    ensures Moved(files, 0, false) == files
  {
  }

  /** Moving the generation before the oldest replaces the oldest one, if there is one to move. */
  lemma MoveOver(files: Files, keep: nat)
    requires keep >= 2
    ensures var moved := Moved(files, keep - 1, true);
            (Reading(moved, keep) == Reading(files, keep) || Reading(moved, keep) == ReadingBelow(files, keep)) && keep - 1 !in moved
  {
    if keep - 1 in files {
      var without := files - {keep};
      MoveReading(without, keep - 1, keep);
      assert Moved(without, keep - 1, true) == Moved(files, keep - 1, true);
      SameReading(files, without, keep);
      assert Reading(without, keep) == [] + ReadingBelow(without, keep);
    }
  }

  lemma RotatedTail(c: Config, l: Log, plan: Plan)
    requires RenamesWork(plan) && c.keep >= 1 && IsTail(Reading(l.files, c.keep), l.written)
    ensures IsTail(Reading(Rotated(c, l, plan).0.files, c.keep), l.written)
  {
    hide Shifted, Moved, Reading, ReadingBelow, Generation, IsTail;
    if !l.handle.Broken? && plan.close {
      var removed := Removed(c, l.files, plan);
      DropLast(l.files, c.keep, l.written);
      var shifted := Shifted(removed, c.keep - 1, plan);
      var next := Moved(shifted, 0, 0 in shifted);
      ShiftDrops(removed, plan, c.keep);
      MovedNothing(shifted);
      ReadingSplits(removed, c.keep);
      ShorterTail(Generation(removed, c.keep), ReadingBelow(removed, c.keep), l.written);
      assert IsTail(Reading(next, c.keep), l.written);
      OpenReading(next, c.keep);
    }
  }

  lemma ReadingSplits(files: Files, keep: nat)
    ensures Reading(files, keep) == Generation(files, keep) + ReadingBelow(files, keep)
  {
  }

  lemma DropLast(files: Files, keep: nat, written: seq<string>)
    requires IsTail(Reading(files, keep), written)
    ensures IsTail(Reading(files - {keep}, keep), written)
  {
    SameReading(files, files - {keep}, keep);
    assert Reading(files, keep) == Generation(files, keep) + ReadingBelow(files, keep);
    ShorterTail(Generation(files, keep), ReadingBelow(files, keep), written);
    assert Reading(files - {keep}, keep) == [] + ReadingBelow(files - {keep}, keep);
    assert [] + ReadingBelow(files, keep) == ReadingBelow(files, keep);
  }

  /** An empty current file adds nothing. */
  lemma {:induction false} OpenReading(files: Files, keep: nat)
    ensures 0 !in files ==> Reading(files[0 := []], keep) == Reading(files, keep)
    decreases keep
  {
    if keep > 0 { OpenReading(files, keep - 1); }
  }

  lemma {:induction false} AppendReading(files: Files, keep: nat, e: Entry)
    ensures Reading(files[0 := Generation(files, 0) + [e]], keep) == Reading(files, keep) + [e]
    decreases keep
  {
    var next := files[0 := Generation(files, 0) + [e]];
    if keep == 0 {
      assert Reading(next, 0) == (Generation(files, 0) + [e]) + [];
      assert Reading(files, 0) == Generation(files, 0) + [];
    } else {
      AppendReading(files, keep - 1, e);
      assert Generation(files, keep) + (Reading(files, keep - 1) + [e]) == (Generation(files, keep) + Reading(files, keep - 1)) + [e];
    }
  }

  lemma AppendedTail(c: Config, l: Log, text: string, works: bool)
    requires IsTail(Reading(l.files, c.keep), l.written)
    ensures var a := Appended(l, text, works).0; IsTail(Reading(a.files, c.keep), a.written)
  {
    AppendReading(l.files, c.keep, Entry(|l.written|, text));
    LongerTail(Reading(l.files, c.keep), l.written, text);
  }

  lemma WroteTail(c: Config, l: Log, text: string, plan: Plan)
    requires RenamesWork(plan) && c.keep >= 1 && IsTail(Reading(l.files, c.keep), l.written)
    ensures var w := Wrote(c, l, text, plan).0; IsTail(Reading(w.files, c.keep), w.written)
  {
    hide Rotated, Reading, IsTail;
    var r := Rotated(c, l, plan).0;
    RotatedTail(c, l, plan);
    RotatedWritten(c, l, plan);
    OpenReading(r.files, c.keep);
    AppendedTail(c, r, text, plan.write);
    AppendedTail(c, Opened(r, plan.reopen).0, text, plan.write);
    AppendedTail(c, l, text, plan.write);
  }

  lemma RotatedWritten(c: Config, l: Log, plan: Plan)
    ensures Rotated(c, l, plan).0.written == l.written
  {
  }

  /** As long as renames work, whatever else fails, a reader finds exactly the last accepted writes, without a gap. */
  lemma {:induction false} ReadingIsSuffix(c: Config, texts: seq<string>, plans: seq<Plan>)
    requires |texts| == |plans| && c.keep >= 1 && forall i :: 0 <= i < |plans| ==> RenamesWork(plans[i])
    ensures var l := WroteAll(c, texts, plans); IsTail(Reading(l.files, c.keep), l.written)
    decreases |texts|
  {
    if texts == [] {
      NothingRead(c.keep);
      assert Tail([], 0) == [];
    } else {
      hide Wrote, Reading, IsTail;
      var n := |texts| - 1;
      ReadingIsSuffix(c, texts[..n], plans[..n]);
      WroteTail(c, WroteAll(c, texts[..n], plans[..n]), texts[n], plans[n]);
    }
  }

  lemma {:induction false} NothingRead(keep: nat)
    ensures Reading(map[0 := []], keep) == []
    decreases keep
  {
    if keep > 0 { NothingRead(keep - 1); }
  }

  // ----- Sizes

  /** Within the limit, or one write larger than the limit on its own (and writes of nothing). */
  ghost predicate SizeOk(c: Config, es: seq<Entry>) {
    Bytes(es) <= c.maxBytes || exists i :: 0 <= i < |es| && Bytes(es) == |es[i].text|
  }

  ghost predicate SizesOk(c: Config, files: Files) {
    forall i :: i in files ==> SizeOk(c, files[i])
  }

  lemma MovedSizes(c: Config, files: Files, i: nat, works: bool)
    requires SizesOk(c, files)
    ensures SizesOk(c, Moved(files, i, works))
  {
    hide SizeOk;
  }

  lemma {:induction false} ShiftedSizes(c: Config, files: Files, n: nat, plan: Plan)
    requires SizesOk(c, files)
    ensures SizesOk(c, Shifted(files, n, plan))
    ensures 0 in Shifted(files, n, plan) <==> 0 in files
    decreases n
  {
    hide SizesOk;
    if n > 0 {
      MovedSizes(c, files, n, plan.rename(n));
      ShiftedSizes(c, Moved(files, n, plan.rename(n)), n - 1, plan);
    }
  }

  lemma AppendedSize(c: Config, l: Log, text: string, works: bool)
    requires SizesOk(c, l.files) && c.maxBytes >= 0 && (l.handle.Usable? ==> 0 in l.files && Bytes(l.files[0]) == l.size)
    requires l.size == 0 || l.size + |text| <= c.maxBytes || !l.handle.Usable?
    ensures SizesOk(c, Appended(l, text, works).0.files)
  {
    if l.handle.Usable? && works {
      var e := Entry(|l.written|, text);
      var es := l.files[0] + [e];
      assert es[..|l.files[0]|] == l.files[0];
      if l.size == 0 { assert Bytes(es) == |es[|l.files[0]|].text|; }
      assert SizeOk(c, es);
    }
  }

  /** After a rotation whose rename of the current file works, the current file is empty or cannot be written. */
  lemma RotatedSize(c: Config, l: Log, plan: Plan)
    requires Inv(c, l) && c.keep >= 1 && SizesOk(c, l.files) && c.maxBytes >= 0 && plan.rename(0) && !l.handle.Absent?
    ensures var r := Rotated(c, l, plan).0;
            && SizesOk(c, r.files) && (r.handle.Usable? ==> 0 in r.files && Bytes(r.files[0]) == r.size == 0)
            && (r.handle.Absent? ==> 0 !in r.files)
  {
    if !l.handle.Broken? && plan.close {
      var removed := Removed(c, l.files, plan);
      assert SizesOk(c, removed);
      ShiftedSizes(c, removed, c.keep - 1, plan);
      hide SizeOk, Shifted, Ordered, Genuine, Within;
      var shifted := Shifted(removed, c.keep - 1, plan);
      MovedSizes(c, shifted, 0, true);
      NewFileSize(c, Moved(shifted, 0, true));
    }
  }

  lemma WroteSizes(c: Config, l: Log, text: string, plan: Plan)
    requires Inv(c, l) && c.keep >= 1 && SizesOk(c, l.files) && c.maxBytes >= 0 && plan.rename(0)
    ensures SizesOk(c, Wrote(c, l, text, plan).0.files)
  {
    hide Rotated, SizesOk, Ordered, Genuine;
    if !l.handle.Absent? {
      if l.size > 0 && l.size + |text| > c.maxBytes {
        RotatedSize(c, l, plan);
        var r := Rotated(c, l, plan).0;
        if r.handle.Absent? {
          NewFileSize(c, r.files);
          AppendedSize(c, Opened(r, plan.reopen).0, text, plan.write);
        } else {
          AppendedSize(c, r, text, plan.write);
        }
        NeverUsable(c, l, plan);
      } else {
        AppendedSize(c, l, text, plan.write);
      }
    }
  }

  lemma NeverUsable(c: Config, l: Log, plan: Plan)
    ensures Rotated(c, l, plan).1 ==> Rotated(c, l, plan).0.handle.Usable?
  {
  }

  lemma NewFileSize(c: Config, files: Files)
    requires SizesOk(c, files) && c.maxBytes >= 0
    ensures SizesOk(c, files[0 := []])
  {
  }

  /** Every file stays within the limit, or holds one oversized write, as long as the rename of the current file works
      whenever it is tried; the other operations may fail. */
  lemma {:induction false} SizesAreBounded(c: Config, texts: seq<string>, plans: seq<Plan>)
    requires |texts| == |plans| && c.keep >= 1 && c.maxBytes >= 0 && forall i :: 0 <= i < |plans| ==> plans[i].rename(0)
    ensures SizesOk(c, WroteAll(c, texts, plans).files)
    decreases |texts|
  {
    if texts != [] {
      hide Wrote, SizesOk;
      var n := |texts| - 1;
      SizesAreBounded(c, texts[..n], plans[..n]);
      WroteAllKeeps(c, texts[..n], plans[..n]);
      WroteSizes(c, WroteAll(c, texts[..n], plans[..n]), texts[n], plans[n]);
    }
  }

  /** For one accepted write: the limit is kept exactly unless a rotation was due, the rename of the current file failed,
      and the write was not empty. */
  lemma LimitBreaksExactly(c: Config, l: Log, text: string, plan: Plan)
    requires Inv(c, l) && c.keep >= 1 && c.maxBytes >= 0 && SizesOk(c, l.files) && l.handle.Usable? && Wrote(c, l, text, plan).1
    ensures SizesOk(c, Wrote(c, l, text, plan).0.files) <==> !(l.size > 0 && l.size + |text| > c.maxBytes && !plan.rename(0) && |text| > 0)
  {
    hide Ordered, Genuine, SizesOk, Shifted;
    if l.size > 0 && l.size + |text| > c.maxBytes && !plan.rename(0) {
      GrewPast(c, l, text, plan);
    } else if plan.rename(0) {
      WroteSizes(c, l, text, plan);
    } else {
      AppendedSize(c, l, text, plan.write);
    }
  }

  lemma GrewPast(c: Config, l: Log, text: string, plan: Plan)
    requires Inv(c, l) && c.keep >= 1 && c.maxBytes >= 0 && SizesOk(c, l.files) && l.handle.Usable? && Wrote(c, l, text, plan).1
    requires l.size > 0 && l.size + |text| > c.maxBytes && !plan.rename(0)
    ensures SizesOk(c, Wrote(c, l, text, plan).0.files) <==> |text| == 0
  {
    hide Ordered, Genuine;
    var removed := Removed(c, l.files, plan);
    CurrentStays(removed, c.keep - 1, plan);
    ShiftedSizes(c, removed, c.keep - 1, plan);
    var shifted := Shifted(removed, c.keep - 1, plan);
    var es, e := l.files[0], Entry(|l.written|, text);
    var after := Wrote(c, l, text, plan).0;
    assert after.files == shifted[0 := es + [e]];
    assert SizeOk(c, es);
    TwoParts(c, es, e);
    hide SizeOk, Shifted;
    assert after.files[0] == es + [e];
  }

  lemma {:induction false} CurrentStays(files: Files, n: nat, plan: Plan)
    requires 0 in files
    ensures 0 in Shifted(files, n, plan) && Shifted(files, n, plan)[0] == files[0]
    decreases n
  {
    if n > 0 { CurrentStays(Moved(files, n, plan.rename(n)), n - 1, plan); }
  }

  lemma TwoParts(c: Config, es: seq<Entry>, e: Entry)
    requires SizeOk(c, es) && Bytes(es) > 0 && Bytes(es) + |e.text| > c.maxBytes
    ensures SizeOk(c, es + [e]) <==> |e.text| == 0
  {
    assert (es + [e])[..|es|] == es;
    if |e.text| == 0 && Bytes(es) > c.maxBytes {
      var i :| 0 <= i < |es| && Bytes(es) == |es[i].text|;
      assert (es + [e])[i] == es[i];
    }
    forall i | 0 <= i < |es + [e]| && |e.text| > 0 ensures Bytes(es + [e]) != |(es + [e])[i].text| {
      if i < |es| { OnePart(es, i); }
    }
  }

  lemma {:induction false} OnePart(es: seq<Entry>, i: nat)
    requires i < |es|
    ensures |es[i].text| <= Bytes(es)
  {
    if i < |es| - 1 { OnePart(es[..|es| - 1], i); }
  }

  /** When that rename fails, the current file keeps growing past the limit. */
  lemma FailedRenameBreaksTheLimit()
    ensures var c := Config(4, 3);
            var works := Plan(true, true, i => true, true, true, true);
            var stuck := works.(rename := i => false);
            !SizesOk(c, WroteAll(c, ["abc", "def"], [works, stuck]).files)
  {
    var c := Config(4, 3);
    var works := Plan(true, true, i => true, true, true, true);
    var stuck := works.(rename := i => false);
    assert ["abc", "def"][..1] == ["abc"] && [works, stuck][..1] == [works];
    var l := WroteAll(c, ["abc"], [works]);
    FirstWrite(c, works);
    StuckRotation(c, l, stuck);
    var two := [Entry(0, "abc"), Entry(1, "def")];
    assert two[..1] == [Entry(0, "abc")] && [Entry(0, "abc")][..0] == [];
    assert Bytes([Entry(0, "abc")]) == 3;
    assert Bytes(two) == 6;
    assert WroteAll(c, ["abc", "def"], [works, stuck]) == Wrote(c, l, "def", stuck).0;
    assert [Entry(0, "abc")] + [Entry(1, "def")] == two;
    assert Wrote(c, l, "def", stuck).0.files[0] == two;
  }

  lemma FirstWrite(c: Config, plan: Plan)
    requires plan.write
    ensures WroteAll(c, ["abc"], [plan]) == Log(map[0 := [Entry(0, "abc")]], Usable, 3, ["abc"])
  {
    assert ["abc"][..0] == [] && [plan][..0] == [];
    assert WroteAll(c, [], []) == Created();
    assert [] + [Entry(0, "abc")] == [Entry(0, "abc")] && [] + ["abc"] == ["abc"];
    assert Wrote(c, Created(), "abc", plan) == Appended(Created(), "abc", true);
  }

  lemma StuckRotation(c: Config, l: Log, plan: Plan)
    requires c.keep == 3 && l.handle.Usable? && l.files.Keys == {0} && plan.close && !plan.rename(0) && !plan.rename(1) && !plan.rename(2)
    ensures Rotated(c, l, plan) == (l.(handle := Absent), false)
  {
    var removed := if plan.remove then l.files - {3} else l.files;
    assert removed == l.files;
    assert Shifted(removed, 0, plan) == removed && Shifted(removed, 1, plan) == removed && Shifted(removed, 2, plan) == removed;
  }

  // ----- When the log falls silent

  /** The call rotates. */
  predicate RotationDue(c: Config, l: Log, text: string) {
    l.size > 0 && l.size + |text| > c.maxBytes
  }

  /** A usable log falls silent exactly when a rotation was due and its Close failed, or the rename of the current
      file or the opening of the next one failed and the file could not be opened again either. */
  lemma SilencedExactlyWhen(c: Config, l: Log, text: string, plan: Plan)
    requires Inv(c, l) && l.handle.Usable?
    ensures var h := Wrote(c, l, text, plan).0.handle;
            && (h.Broken? <==> RotationDue(c, l, text) && !plan.close)
            && (h.Absent? <==> RotationDue(c, l, text) && plan.close && !(plan.rename(0) && plan.open) && !plan.reopen)
  {
    hide Shifted;
    CurrentStays(Removed(c, l.files, plan), if c.keep == 0 then 0 else c.keep - 1, plan);
  }

  /** A silent log stays silent: whatever follows and whichever operations work, every write is refused and nothing
      changes any more. */
  lemma {:induction false} SilentForever(c: Config, texts: seq<string>, plans: seq<Plan>, more: seq<string>, morePlans: seq<Plan>)
    requires |texts| == |plans| && |more| == |morePlans| && !WroteAll(c, texts, plans).handle.Usable?
    ensures WroteAll(c, texts + more, plans + morePlans) == WroteAll(c, texts, plans)
    decreases |more|
  {
    if more == [] {
      assert texts + more == texts && plans + morePlans == plans;
    } else {
      var n := |more| - 1;
      SilentForever(c, texts, plans, more[..n], morePlans[..n]);
      var all, allPlans := texts + more, plans + morePlans;
      assert all[..|all| - 1] == texts + more[..n] && allPlans[..|all| - 1] == plans + morePlans[..n];
      SilentRefuses(c, WroteAll(c, texts, plans), more[n], morePlans[n]);
    }
  }

  lemma SilentRefuses(c: Config, l: Log, text: string, plan: Plan)
    requires !l.handle.Usable?
    ensures Wrote(c, l, text, plan) == (l, false)
  {
  }

  /** The comment in Write promises to keep logging when a rotation fails. One failing Close, whatever works
      from then on, and the log never takes another line. */
  lemma FailedCloseSilencesTheLog(more: seq<string>, morePlans: seq<Plan>)
    requires |more| == |morePlans|
    ensures var c := Config(4, 3);
            var works := Plan(true, true, i => true, true, true, true);
            var l := WroteAll(c, ["abc", "def"] + more, [works, works.(close := false)] + morePlans);
            l.handle.Broken? && l.written == ["abc"]
  {
    var c := Config(4, 3);
    var works := Plan(true, true, i => true, true, true, true);
    var stuck := works.(close := false);
    FirstWrite(c, works);
    assert ["abc", "def"][..1] == ["abc"] && [works, stuck][..1] == [works];
    assert WroteAll(c, ["abc", "def"], [works, stuck]) == Wrote(c, WroteAll(c, ["abc"], [works]), "def", stuck).0;
    SilentForever(c, ["abc", "def"], [works, stuck], more, morePlans);
  }
}
