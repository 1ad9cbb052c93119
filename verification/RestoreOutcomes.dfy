/** How every start with a scheduled restore ends, told from the request, the files and the coming errors alone. */
module RestoreOutcomes {
  import opened Common
  import opened Restore
  import opened RestoreProofs

  // ----- The coming operations

  function At(faults: seq<Fault>, i: nat): Fault {
    if i < |faults| then faults[i] else Works
  }

  function Drop(faults: seq<Fault>, n: nat): seq<Fault> {
    if n <= |faults| then faults[n..] else []
  }

  /** The first n operations work. */
  predicate AllWork(faults: seq<Fault>, n: nat) {
    forall i :: 0 <= i < n ==> At(faults, i).Works?
  }

  /** The first of n operations that breaks, or n. */
  function FirstBreak(faults: seq<Fault>, n: nat): (b: nat)
    ensures b <= n
    decreases n
  {
    if n == 0 || At(faults, 0).Breaks? then 0 else 1 + FirstBreak(Drop(faults, 1), n - 1)
  }

  lemma AtDrop(faults: seq<Fault>, n: nat, i: nat)
    ensures At(Drop(faults, n), i) == At(faults, n + i)
  {
  }

  lemma DropDrop(faults: seq<Fault>, n: nat, m: nat)
    ensures Drop(Drop(faults, n), m) == Drop(faults, n + m)
  {
  }

  lemma {:induction false} FirstBreakBreaks(faults: seq<Fault>, n: nat)
    ensures var b := FirstBreak(faults, n); AllWork(faults, b) && (b < n ==> At(faults, b).Breaks?)
    decreases n
  {
    if n > 0 && At(faults, 0).Works? {
      var rest, b := Drop(faults, 1), FirstBreak(faults, n);
      FirstBreakBreaks(rest, n - 1);
      forall i | 0 <= i < b ensures At(faults, i).Works? {
        if i > 0 {
          AtDrop(faults, 1, i - 1);
          assert At(rest, i - 1).Works?;
        }
      }
      AtDrop(faults, 1, b - 1);
    }
  }

  /** The first break is where everything before works and that operation breaks. */
  lemma FirstBreakIs(faults: seq<Fault>, n: nat, b: nat)
    requires b <= n && AllWork(faults, b) && (b < n ==> At(faults, b).Breaks?)
    ensures FirstBreak(faults, n) == b
  {
    hide FirstBreak, At;
    FirstBreakBreaks(faults, n);
  }

  /** The first break among the operations behind the first k, when those work. */
  lemma FirstBreakBehind(faults: seq<Fault>, k: nat, n: nat)
    requires AllWork(faults, k)
    ensures FirstBreak(faults, k + n) == k + FirstBreak(Drop(faults, k), n)
  {
    var b := FirstBreak(Drop(faults, k), n);
    FirstBreakBreaks(Drop(faults, k), n);
    forall i | 0 <= i < k + b ensures At(faults, i).Works? {
      if i >= k {
        AtDrop(faults, k, i - k);
        assert At(Drop(faults, k), i - k).Works?;
      }
    }
    AtDrop(faults, k, b);
    FirstBreakIs(faults, k + n, k + b);
  }

  lemma Ticks(d: Disk)
    ensures Coming(d) == At(d.faults, 0) && Tick(d).faults == Drop(d.faults, 1)
  {
  }

  // ----- Moving the live files away, and back

  /** Which of the listed files are there. */
  function Flags(files: Files, todo: seq<Suffix>): seq<bool> {
    if todo == [] then [] else [Live(todo[0]) in files] + Flags(files, todo[1..])
  }

  function Count(flags: seq<bool>): nat {
    if flags == [] then 0 else (if flags[0] then 1 else 0) + Count(flags[1..])
  }

  /** Each listed file is looked at, and moved when it is there. */
  function MoveOps(flags: seq<bool>): nat {
    if flags == [] then 0 else (if flags[0] then 2 else 1) + MoveOps(flags[1..])
  }

  lemma {:induction false} MoveOpsCount(flags: seq<bool>)
    ensures MoveOps(flags) == |flags| + Count(flags)
  {
    if flags != [] { MoveOpsCount(flags[1..]); }
  }

  /** How many files the first b of these operations move. */
  function MovedBefore(flags: seq<bool>, b: nat): nat {
    if flags == [] then 0
    else if flags[0] then (if b < 2 then 0 else 1 + MovedBefore(flags[1..], b - 2))
    else if b < 1 then 0
    else MovedBefore(flags[1..], b - 1)
  }

  lemma {:induction false} AllMoved(flags: seq<bool>, b: nat)
    requires b >= MoveOps(flags)
    ensures MovedBefore(flags, b) == Count(flags)
  {
    if flags != [] { AllMoved(flags[1..], b - if flags[0] then 2 else 1); }
  }

  lemma {:induction false} FlagsStay(files: Files, next: Files, todo: seq<Suffix>)
    requires forall s :: s in todo ==> (Live(s) in files <==> Live(s) in next)
    ensures Flags(files, todo) == Flags(next, todo)
  {
    if todo != [] { FlagsStay(files, next, todo[1..]); }
  }

  /** What the moves come to: whether they all went through, how many files they moved, and the errors left over. */
  predicate MovesEnd(flags: seq<bool>, faults: seq<Fault>, before: nat, r: (Disk, seq<Suffix>, bool)) {
    var b := FirstBreak(faults, MoveOps(flags));
    && r.2 == (b == MoveOps(flags)) && |r.1| == before + MovedBefore(flags, b)
    && r.0.faults == Drop(faults, if r.2 then b else b + 1)
  }

  lemma LookBreaks(flags: seq<bool>, faults: seq<Fault>, before: nat, r: (Disk, seq<Suffix>, bool))
    requires flags != [] && At(faults, 0).Breaks? && !r.2 && |r.1| == before && r.0.faults == Drop(faults, 1)
    ensures MovesEnd(flags, faults, before, r)
  {
  }

  lemma NothingToMove(flags: seq<bool>, faults: seq<Fault>, before: nat, r: (Disk, seq<Suffix>, bool))
    requires flags != [] && !flags[0] && At(faults, 0).Works? && MovesEnd(flags[1..], Drop(faults, 1), before, r)
    ensures MovesEnd(flags, faults, before, r)
  {
    hide Drop;
    var b := FirstBreak(Drop(faults, 1), MoveOps(flags[1..]));
    assert FirstBreak(faults, MoveOps(flags)) == 1 + b;
    DropDrop(faults, 1, b);
    DropDrop(faults, 1, b + 1);
  }

  lemma MoveBreaks(flags: seq<bool>, faults: seq<Fault>, before: nat, r: (Disk, seq<Suffix>, bool))
    requires flags != [] && flags[0] && At(faults, 0).Works? && At(faults, 1).Breaks?
    requires !r.2 && |r.1| == before && r.0.faults == Drop(faults, 2)
    ensures MovesEnd(flags, faults, before, r)
  {
    AtDrop(faults, 1, 0);
    hide Drop, At;
    assert FirstBreak(Drop(faults, 1), MoveOps(flags) - 1) == 0;
    assert FirstBreak(faults, MoveOps(flags)) == 1;
  }

  lemma OneMoved(flags: seq<bool>, faults: seq<Fault>, before: nat, r: (Disk, seq<Suffix>, bool))
    requires flags != [] && flags[0] && At(faults, 0).Works? && At(faults, 1).Works?
    requires MovesEnd(flags[1..], Drop(faults, 2), before + 1, r)
    ensures MovesEnd(flags, faults, before, r)
  {
    AtDrop(faults, 1, 0);
    DropDrop(faults, 1, 1);
    hide Drop, At;
    var b := FirstBreak(Drop(faults, 2), MoveOps(flags[1..]));
    assert FirstBreak(Drop(faults, 1), 1 + MoveOps(flags[1..])) == 1 + b;
    assert FirstBreak(faults, MoveOps(flags)) == 2 + b;
    DropDrop(faults, 2, b);
    DropDrop(faults, 2, b + 1);
  }

  lemma {:induction false} MovesForetold(d: Disk, dir: nat, todo: seq<Suffix>, moved: seq<Suffix>)
    requires Distinct(todo)
    ensures MovesEnd(Flags(d.files, todo), d.faults, |moved|, MovedAway(d, dir, todo, moved))
    decreases |todo|
  {
    if todo != [] {
      hide MovesEnd, Drop, At;
      var s, rest := todo[0], todo[1..];
      var flags, r := Flags(d.files, todo), MovedAway(d, dir, todo, moved);
      assert flags[1..] == Flags(d.files, rest);
      var i := Inspected(d, Live(s));
      Ticks(d);
      if i.1.Unknown? {
        LookBreaks(flags, d.faults, |moved|, r);
      } else if i.1.Missing? {
        MovesForetold(i.0, dir, rest, moved);
        NothingToMove(flags, d.faults, |moved|, r);
      } else {
        var next := Renamed(i.0, Live(s), Recovery(dir, s));
        Ticks(i.0);
        AtDrop(d.faults, 1, 0);
        DropDrop(d.faults, 1, 1);
        if next.1 {
          assert forall t :: t in rest ==> t != s;
          FlagsStay(d.files, next.0.files, rest);
          MovesForetold(next.0, dir, rest, moved + [s]);
          OneMoved(flags, d.faults, |moved|, r);
        } else {
          MoveBreaks(flags, d.faults, |moved|, r);
        }
      }
    } else {
      assert Drop(d.faults, 0) == d.faults;
    }
  }

  lemma RenamedBackOp(d: Disk, dir: nat, list: seq<Suffix>)
    requires list != [] && Distinct(list) && forall s :: s in list ==> Recovery(dir, s) in d.files
    ensures var s, rest := list[|list| - 1], list[..|list| - 1];
            var r := Renamed(d, Recovery(dir, s), Live(s));
            && r.1 == At(d.faults, 0).Works? && r.0.faults == Drop(d.faults, 1)
            && Distinct(rest) && forall t :: t in rest ==> Recovery(dir, t) in r.0.files
  {
    var s, rest := list[|list| - 1], list[..|list| - 1];
    assert s in list;
    assert forall t :: t in rest ==> t in list && t != s;
  }

  lemma {:induction false} RollbackForetold(d: Disk, dir: nat, list: seq<Suffix>)
    requires Distinct(list) && forall s :: s in list ==> Recovery(dir, s) in d.files
    ensures var r := RolledBack(d, dir, list);
            r.1 == AllWork(d.faults, |list|) && r.0.faults == Drop(d.faults, |list|)
    decreases |list|
  {
    if list != [] {
      hide AllWork, Drop, At, Renamed;
      var s, rest := list[|list| - 1], list[..|list| - 1];
      var r := Renamed(d, Recovery(dir, s), Live(s));
      RenamedBackOp(d, dir, list);
      RollbackForetold(r.0, dir, rest);
      DropDrop(d.faults, 1, |rest|);
      AllWorkTail(d.faults, |rest|);
    }
  }

  lemma AllWorkTail(faults: seq<Fault>, n: nat)
    ensures AllWork(faults, n + 1) <==> At(faults, 0).Works? && AllWork(Drop(faults, 1), n)
  {
    if AllWork(faults, n + 1) {
      assert At(faults, 0).Works?;
      forall i | 0 <= i < n ensures At(Drop(faults, 1), i).Works? { AtDrop(faults, 1, i); }
    }
    if At(faults, 0).Works? && AllWork(Drop(faults, 1), n) {
      forall i | 0 <= i < n + 1 ensures At(faults, i).Works? {
        if i > 0 {
          AtDrop(faults, 1, i - 1);
          assert At(Drop(faults, 1), i - 1).Works?;
        }
      }
    }
  }

  // ----- The forecast

  /** The result, and how many operations it takes to get there. */
  datatype Forecast = Forecast(result: Result, spent: nat)

  /** The part from the first move on: two more operations install the copy and remove the request. */
  function SwapForecast(flags: seq<bool>, faults: seq<Fault>): Forecast {
    var n := MoveOps(flags) + 2;
    var b := FirstBreak(faults, n);
    var m := MovedBefore(flags, b);
    if b == n then Forecast(Restored, n)
    else if b == n - 1 then Forecast(CleanupFailed, n)
    else Forecast(if AllWork(Drop(faults, b + 1), m) then Refused else RollbackFailed, b + 1 + m)
  }

  /** A request of this build for a valid copy that is there. */
  predicate Applicable(files: Files, w: World) {
    && Request in files && w.decode(files[Request]).Wanted?
    && Backup(w.decode(files[Request]).source) in files && w.valid(files[Backup(w.decode(files[Request]).source)])
  }

  /** The whole restore: six operations find, verify and stage the copy, and its staging place is removed last. */
  function RestoreForecast(files: Files, faults: seq<Fault>, w: World): Forecast {
    if Applicable(files, w) then
      var b := FirstBreak(faults, 6);
      if b < 3 then Forecast(Refused, b + 1)
      else if b < 6 then Forecast(Refused, b + 2)
      else
        var f := SwapForecast(Flags(files, SUFFIXES), Drop(faults, 6));
        Forecast(f.result, 6 + f.spent + 1)
    else if At(faults, 0).Breaks? then Forecast(Refused, 1)
    else if Request !in files then Forecast(NoRequest, 1)
    else Forecast(Refused, if w.decode(files[Request]).Wanted? then 2 else 1)
  }

  /** The result and the errors left over are those of the forecast. */
  predicate Follows(r: (Disk, Result), f: Forecast, faults: seq<Fault>) {
    r.1 == f.result && r.0.faults == Drop(faults, f.spent)
  }

  /** After the moves: the moved files are in the recovery directory, the staged copy and the request in their places. */
  lemma MovedAreSaved(d: Disk, stage: nat, dir: nat)
    requires (forall s :: Recovery(dir, s) !in d.files) && Staged(stage) in d.files && Request in d.files
    ensures var r := MovedAway(d, dir, SUFFIXES, []);
            && Distinct(r.1) && (forall s :: s in r.1 ==> Recovery(dir, s) in r.0.files)
            && Staged(stage) in r.0.files && Request in r.0.files
  {
    var orig := d.files;
    assert Holds(orig, orig, dir, {});
    assert Set([]) == {};
    EverySuffix();
    NothingGained(d.journal, orig, dir, "");
    MoveHolds(orig, d, dir, SUFFIXES, [], |d.journal|, "");
    var r := MovedAway(d, dir, SUFFIXES, []);
    hide MovedAway;
    assert Same(d.files, r.0.files, Staged(stage)) && Aside(Request, dir) && Same(orig, r.0.files, Request);
    forall s | s in r.1 ensures Recovery(dir, s) in r.0.files { assert s in Set(r.1) && Saved(orig, r.0.files, dir, s); }
  }

  lemma UndoneForetold(d: Disk, dir: nat, moved: seq<Suffix>)
    requires Distinct(moved) && forall s :: s in moved ==> Recovery(dir, s) in d.files
    ensures var r := Undone(d, dir, moved);
            && r.1 == (if AllWork(d.faults, |moved|) then Refused else RollbackFailed)
            && r.0.faults == Drop(d.faults, |moved|)
  {
    hide RolledBack, AllWork, Drop;
    RollbackForetold(d, dir, moved);
  }

  /** When the moves went through: installing the copy and removing the request. */
  lemma InstallForetold(d: Disk, e: Disk, moved: seq<Suffix>, stage: nat, dir: nat)
    requires MovedAway(d, dir, SUFFIXES, []) == (e, moved, true)
    requires Distinct(moved) && (forall s :: s in moved ==> Recovery(dir, s) in e.files)
    requires Staged(stage) in e.files && Request in e.files
    ensures var r := Swapped(d, stage, dir);
            if At(e.faults, 0).Breaks? then
              r.0.faults == Drop(e.faults, 1 + |moved|)
              && r.1 == if AllWork(Drop(e.faults, 1), |moved|) then Refused else RollbackFailed
            else r.0.faults == Drop(e.faults, 2) && r.1 == if At(e.faults, 1).Breaks? then CleanupFailed else Restored
  {
    var i := Renamed(e, Staged(stage), Live(Main));
    Ticks(e);
    assert Request in i.0.files && i.0.faults == Drop(e.faults, 1);
    Ticks(i.0);
    AtDrop(e.faults, 1, 0);
    DropDrop(e.faults, 1, 1);
    DropDrop(e.faults, 1, |moved|);
    hide MovedAway, Drop, AllWork;
    if !i.1 {
      assert forall s :: s in moved ==> Recovery(dir, s) in i.0.files;
      hide Renamed, Undone, At;
      UndoneForetold(i.0, dir, moved);
    }
  }

  lemma SwapForetold(d: Disk, stage: nat, dir: nat)
    requires (forall s :: Recovery(dir, s) !in d.files) && Staged(stage) in d.files && Request in d.files
    ensures Follows(Swapped(d, stage, dir), SwapForecast(Flags(d.files, SUFFIXES), d.faults), d.faults)
  {
    var flags := Flags(d.files, SUFFIXES);
    var n := MoveOps(flags);
    var m := MovedAway(d, dir, SUFFIXES, []);
    var b := FirstBreak(d.faults, n);
    hide MovedAway, MovedBefore, MoveOps, Flags, FirstBreak, AllWork, Drop, At, Undone, Renamed, Removed;
    MovesForetold(d, dir, SUFFIXES, []);
    MovedAreSaved(d, stage, dir);
    FirstBreakBreaks(d.faults, n);
    if b < n {
      FirstBreakIs(d.faults, n + 2, b);
      UndoneForetold(m.0, dir, m.1);
      DropDrop(d.faults, b + 1, |m.1|);
    } else {
      FirstBreakBehind(d.faults, n, 2);
      TwoLeft(m.0.faults);
      AllMoved(flags, n);
      AllMoved(flags, n + 1);
      AllMoved(flags, n + 2);
      DropDrop(d.faults, n, 1);
      DropDrop(d.faults, n, 1 + |m.1|);
      DropDrop(d.faults, n, 2);
      InstallForetold(d, m.0, m.1, stage, dir);
    }
  }

  lemma TwoLeft(faults: seq<Fault>)
    ensures FirstBreak(faults, 2) == if At(faults, 0).Breaks? then 0 else if At(faults, 1).Breaks? then 1 else 2
  {
    AtDrop(faults, 1, 0);
    assert FirstBreak(Drop(faults, 1), 1) == if At(faults, 1).Breaks? then 0 else 1;
  }

  // ----- The restore follows the forecast

  function After(n: nat, f: Forecast): Forecast {
    Forecast(f.result, n + f.spent)
  }

  /** The copy is made and verified, and the recovery directory created, before the files move. */
  lemma StageForetold(d: Disk, stage: nat, source: string, w: World)
    requires (forall s :: Recovery(d.nextDir, s) !in d.files) && Request in d.files
    requires Backup(source) in d.files && w.valid(d.files[Backup(source)])
    ensures var r, b := StagedAndSwapped(d, stage, source, w), FirstBreak(d.faults, 3);
            Follows(r, if b < 3 then Forecast(Refused, b + 1)
                       else After(3, SwapForecast(Flags(d.files, SUFFIXES), Drop(d.faults, 3))), d.faults)
  {
    hide StagedAndSwapped, Swapped, SwapForecast, Flags, FirstBreak, Drop, At;
    ThreeLeft(d.faults);
    StageSteps(d, stage, source, w);
    if FirstBreak(d.faults, 3) == 3 {
      var e := Ready(d, stage, source);
      FlagsStay(d.files, e.files, SUFFIXES);
      SwapForetold(e, stage, d.nextDir);
      DropDrop(d.faults, 3, SwapForecast(Flags(d.files, SUFFIXES), Drop(d.faults, 3)).spent);
    }
  }

  /** The disk when the copy is staged and everything is ready for the moves. */
  function Ready(d: Disk, stage: nat, source: string): Disk
    requires Backup(source) in d.files
  {
    var files := d.files[Staged(stage) := d.files[Backup(source)]];
    Disk(files, d.nextDir + 1, Drop(d.faults, 3), d.journal + [files])
  }

  lemma StageSteps(d: Disk, stage: nat, source: string, w: World)
    requires Backup(source) in d.files && w.valid(d.files[Backup(source)])
    ensures var r := StagedAndSwapped(d, stage, source, w);
            if At(d.faults, 0).Breaks? then r.1.Refused? && r.0.faults == Drop(d.faults, 1)
            else if At(d.faults, 1).Breaks? then r.1.Refused? && r.0.faults == Drop(d.faults, 2)
            else if At(d.faults, 2).Breaks? then r.1.Refused? && r.0.faults == Drop(d.faults, 3)
            else r == Swapped(Ready(d, stage, source), stage, d.nextDir)
  {
    hide Copied, Verified, TempDir, Swapped, Drop, At;
    var c := Copied(d, Backup(source), Staged(stage)).0;
    var v := Verified(c, Staged(stage), w.valid).0;
    CopiedOp(d, Backup(source), Staged(stage));
    VerifiedOp(c, Staged(stage), w.valid);
    TempDirOp(v);
    NextOps(d.faults);
  }

  lemma CopiedOp(d: Disk, from: Path, to: Path)
    requires from in d.files
    ensures var r := Copied(d, from, to);
            && r.1 == At(d.faults, 0).Works? && r.0.faults == Drop(d.faults, 1)
            && (r.1 ==> var files := d.files[to := d.files[from]];
                        r.0 == Disk(files, d.nextDir, Drop(d.faults, 1), d.journal + [files]))
  {
  }

  lemma VerifiedOp(d: Disk, p: Path, valid: Content -> bool)
    ensures Verified(d, p, valid) ==
            (d.(faults := Drop(d.faults, 1)), At(d.faults, 0).Works? && p in d.files && valid(d.files[p]))
  {
  }

  lemma TempDirOp(d: Disk)
    ensures TempDir(d) == if At(d.faults, 0).Works? then (d.(faults := Drop(d.faults, 1), nextDir := d.nextDir + 1), Some(d.nextDir))
                          else (d.(faults := Drop(d.faults, 1)), None)
  {
  }

  lemma ReadOp(d: Disk, p: Path)
    ensures Read(d, p).0 == d.(faults := Drop(d.faults, 1))
    ensures Read(d, p).1 == if At(d.faults, 0).Breaks? then Unknown else if p in d.files then Present else Missing
    ensures Read(d, p).1.Present? ==> Read(d, p).2 == d.files[p]
  {
  }

  lemma NextOps(faults: seq<Fault>)
    ensures At(Drop(faults, 1), 0) == At(faults, 1) && At(Drop(faults, 2), 0) == At(faults, 2)
    ensures Drop(Drop(faults, 1), 1) == Drop(faults, 2) && Drop(Drop(faults, 2), 1) == Drop(faults, 3)
  {
    AtDrop(faults, 1, 0);
    AtDrop(faults, 2, 0);
    DropDrop(faults, 1, 1);
    DropDrop(faults, 2, 1);
  }

  lemma ThreeLeft(faults: seq<Fault>)
    ensures FirstBreak(faults, 3)
         == if At(faults, 0).Breaks? then 0 else if At(faults, 1).Breaks? then 1 else if At(faults, 2).Breaks? then 2 else 3
    ensures FirstBreak(faults, 6) == if FirstBreak(faults, 3) < 3 then FirstBreak(faults, 3) else 3 + FirstBreak(Drop(faults, 3), 3)
  {
    TwoLeft(Drop(faults, 1));
    AtDrop(faults, 1, 0);
    AtDrop(faults, 1, 1);
    assert FirstBreak(faults, 3) == if At(faults, 0).Breaks? then 0 else 1 + FirstBreak(Drop(faults, 1), 2);
    hide FirstBreak, At, Drop;
    FirstBreakBreaks(faults, 3);
    var b := FirstBreak(faults, 3);
    if b < 3 { FirstBreakIs(faults, 6, b); } else { FirstBreakBehind(faults, 3, 3); }
  }

  lemma RemovedTakesOne(d: Disk, p: Path, faults: seq<Fault>, n: nat)
    requires d.faults == Drop(faults, n)
    ensures Removed(d, p).0.faults == Drop(faults, n + 1)
  {
    Ticks(d);
    DropDrop(faults, n, 1);
  }

  /** What finds the request and the copy, and makes a place for it. */
  lemma FoundForetold(d: Disk, w: World)
    requires Applicable(d.files, w)
    ensures var source, b := w.decode(d.files[Request]).source, FirstBreak(d.faults, 3);
            var e := d.(faults := Drop(d.faults, 3), nextDir := d.nextDir + 1);
            var s := StagedAndSwapped(e, d.nextDir, source, w);
            if b < 3 then Follows(Applied(d, w), Forecast(Refused, b + 1), d.faults)
            else Applied(d, w) == (Removed(s.0, Staged(d.nextDir)).0, s.1)
  {
    hide Read, Verified, TempDir, StagedAndSwapped, Removed, FirstBreak, Drop, At;
    var source := w.decode(d.files[Request]).source;
    var read := Read(d, Request).0;
    var v := Verified(read, Backup(source), w.valid).0;
    ReadOp(d, Request);
    VerifiedOp(read, Backup(source), w.valid);
    TempDirOp(v);
    NextOps(d.faults);
    ThreeLeft(d.faults);
  }

  /** For every disk and every list of errors the restore ends as foretold, having used as many operations. */
  lemma RestoreIsForetold(d: Disk, w: World)
    requires Fresh(d.files, d.nextDir)
    ensures Follows(Applied(d, w), RestoreForecast(d.files, d.faults, w), d.faults)
  {
    if Applicable(d.files, w) {
      hide Applied, StagedAndSwapped, Removed, SwapForecast, Flags, FirstBreak, Drop, At;
      FoundForetold(d, w);
      ThreeLeft(d.faults);
      if FirstBreak(d.faults, 3) == 3 { StagedThenRemoved(d, w); }
    } else {
      NotApplicable(d, w);
    }
  }

  lemma StagedThenRemoved(d: Disk, w: World)
    requires Fresh(d.files, d.nextDir) && Applicable(d.files, w) && FirstBreak(d.faults, 3) == 3
    ensures var e := d.(faults := Drop(d.faults, 3), nextDir := d.nextDir + 1);
            var s := StagedAndSwapped(e, d.nextDir, w.decode(d.files[Request]).source, w);
            && RestoreForecast(d.files, d.faults, w).spent > 0
            && s.0.faults == Drop(d.faults, RestoreForecast(d.files, d.faults, w).spent - 1)
            && Follows((Removed(s.0, Staged(d.nextDir)).0, s.1), RestoreForecast(d.files, d.faults, w), d.faults)
  {
    hide StagedAndSwapped, Removed, SwapForecast, Flags, FirstBreak, Drop, At;
    ThreeLeft(d.faults);
    var e := d.(faults := Drop(d.faults, 3), nextDir := d.nextDir + 1);
    var source := w.decode(d.files[Request]).source;
    StageForetold(e, d.nextDir, source, w);
    var s := StagedAndSwapped(e, d.nextDir, source, w);
    var b := FirstBreak(e.faults, 3);
    var f := SwapForecast(Flags(d.files, SUFFIXES), Drop(d.faults, 6));
    DropDrop(d.faults, 3, 3);
    DropDrop(d.faults, 3, b + 1);
    DropDrop(d.faults, 3, 3 + f.spent);
    RemovedTakesOne(s.0, Staged(d.nextDir), d.faults, if b < 3 then 3 + b + 1 else 6 + f.spent);
  }

  lemma NotApplicable(d: Disk, w: World)
    requires !Applicable(d.files, w)
    ensures Follows(Applied(d, w), RestoreForecast(d.files, d.faults, w), d.faults)
  {
    hide StagedAndSwapped, Drop;
    var read := Read(d, Request).0;
    Ticks(d);
    Ticks(read);
    DropDrop(d.faults, 1, 1);
  }

  // ----- When each result occurs

  /** How many of the live files are there. */
  function LiveCount(files: Files): nat {
    Count(Flags(files, SUFFIXES))
  }

  lemma SwapOps(files: Files)
    ensures MoveOps(Flags(files, SUFFIXES)) == 3 + LiveCount(files)
  {
    MoveOpsCount(Flags(files, SUFFIXES));
    FlagsLength(files, SUFFIXES);
  }

  lemma {:induction false} FlagsLength(files: Files, todo: seq<Suffix>)
    ensures |Flags(files, todo)| == |todo|
  {
    if todo != [] { FlagsLength(files, todo[1..]); }
  }

  /** The copy is installed and the request removed: 11 operations, and one more for each live file. */
  predicate CarriedOut(files: Files, faults: seq<Fault>, w: World) {
    Applicable(files, w) && AllWork(faults, 11 + LiveCount(files))
  }

  /** Everything up to the removal of the request works, and that breaks. */
  predicate RemovalBreaks(files: Files, faults: seq<Fault>, w: World) {
    Applicable(files, w) && AllWork(faults, 10 + LiveCount(files)) && At(faults, 10 + LiveCount(files)).Breaks?
  }

  /** Operation b is the first to break, it comes after the first move began, and so does another while the files moved
      until then are put back. */
  predicate RollbackBreaksAt(files: Files, faults: seq<Fault>, b: nat) {
    && 6 <= b < 10 + LiveCount(files) && AllWork(faults, b) && At(faults, b).Breaks?
    && !AllWork(Drop(faults, b + 1), MovedBefore(Flags(files, SUFFIXES), b - 6))
  }

  predicate RollbackBreaks(files: Files, faults: seq<Fault>, w: World) {
    Applicable(files, w) && exists b :: 0 <= b < 10 + LiveCount(files) && RollbackBreaksAt(files, faults, b)
  }

  lemma FirstBreakMeans(faults: seq<Fault>, n: nat, b: nat)
    ensures FirstBreak(faults, n) == b <==> b <= n && AllWork(faults, b) && (b < n ==> At(faults, b).Breaks?)
  {
    hide FirstBreak, AllWork, At;
    FirstBreakBreaks(faults, n);
    if b <= n && AllWork(faults, b) && (b < n ==> At(faults, b).Breaks?) { FirstBreakIs(faults, n, b); }
  }

  lemma AllWorkFewer(faults: seq<Fault>, n: nat, m: nat)
    requires AllWork(faults, n) && m <= n
    ensures AllWork(faults, m)
  {
  }

  /** The forecast, in terms of the first break among all operations up to the removal of the request. */
  lemma ForecastByFirstBreak(files: Files, faults: seq<Fault>, w: World)
    requires Applicable(files, w)
    ensures var n, b := 11 + LiveCount(files), FirstBreak(faults, 11 + LiveCount(files));
            var f := RestoreForecast(files, faults, w);
            && (b == n ==> f == Forecast(Restored, n + 1)) && (b == n - 1 ==> f == Forecast(CleanupFailed, n + 1))
            && (b < 6 ==> f.result.Refused?)
            && (6 <= b < n - 1 ==> f.result == if AllWork(Drop(faults, b + 1), MovedBefore(Flags(files, SUFFIXES), b - 6)) then Refused else RollbackFailed)
  {
    SwapOps(files);
    FirstBreakBreaks(faults, 6);
    if FirstBreak(faults, 6) < 6 { BreaksEarly(files, faults, w); } else { BreaksLate(files, faults, w); }
  }

  lemma BreaksEarly(files: Files, faults: seq<Fault>, w: World)
    requires Applicable(files, w) && FirstBreak(faults, 6) < 6
    ensures FirstBreak(faults, 11 + LiveCount(files)) == FirstBreak(faults, 6) && RestoreForecast(files, faults, w).result.Refused?
  {
    hide FirstBreak, AllWork, At, LiveCount, SwapForecast, Applicable;
    FirstBreakBreaks(faults, 6);
    FirstBreakIs(faults, 11 + LiveCount(files), FirstBreak(faults, 6));
  }

  lemma ForecastLate(files: Files, faults: seq<Fault>, w: World)
    requires Applicable(files, w) && FirstBreak(faults, 6) == 6
    ensures var f := SwapForecast(Flags(files, SUFFIXES), Drop(faults, 6));
            RestoreForecast(files, faults, w) == Forecast(f.result, f.spent + 7)
  {
  }

  lemma BreaksLate(files: Files, faults: seq<Fault>, w: World)
    requires Applicable(files, w) && FirstBreak(faults, 6) == 6
    ensures var n, b := 11 + LiveCount(files), FirstBreak(faults, 11 + LiveCount(files));
            var f := RestoreForecast(files, faults, w);
            && b >= 6 && (b == n ==> f == Forecast(Restored, n + 1)) && (b == n - 1 ==> f == Forecast(CleanupFailed, n + 1))
            && (b < n - 1 ==> f.result == if AllWork(Drop(faults, b + 1), MovedBefore(Flags(files, SUFFIXES), b - 6)) then Refused else RollbackFailed)
  {
    hide *;
    LateBreak(faults, 5 + LiveCount(files));
    SwapOps(files);
    ForecastLate(files, faults, w);
    SwapForecastByFirstBreak(Flags(files, SUFFIXES), Drop(faults, 6), 5 + LiveCount(files));
  }

  lemma LateBreak(faults: seq<Fault>, n: nat)
    requires FirstBreak(faults, 6) == 6
    ensures var b := FirstBreak(Drop(faults, 6), n);
            FirstBreak(faults, 6 + n) == 6 + b && Drop(Drop(faults, 6), b + 1) == Drop(faults, 6 + b + 1)
  {
    hide *;
    FirstBreakBreaks(faults, 6);
    FirstBreakBehind(faults, 6, n);
    DropDrop(faults, 6, FirstBreak(Drop(faults, 6), n) + 1);
  }

  lemma SwapForecastByFirstBreak(flags: seq<bool>, faults: seq<Fault>, n: nat)
    requires n == MoveOps(flags) + 2
    ensures var b, f := FirstBreak(faults, n), SwapForecast(flags, faults);
            && (b == n ==> f == Forecast(Restored, n)) && (b == n - 1 ==> f == Forecast(CleanupFailed, n))
            && (b < n - 1 ==> f.result == if AllWork(Drop(faults, b + 1), MovedBefore(flags, b)) then Refused else RollbackFailed)
  {
    hide FirstBreak, AllWork, Drop, MovedBefore, MoveOps;
  }

  /** For every disk, every list of errors and every request: which result the restore has, as a condition on these. */
  lemma ResultsExactlyWhen(d: Disk, w: World)
    requires Fresh(d.files, d.nextDir)
    ensures var result := Applied(d, w).1;
            && (result.NoRequest? <==> Request !in d.files && At(d.faults, 0).Works?)
            && (result.Restored? <==> CarriedOut(d.files, d.faults, w))
            && (result.CleanupFailed? <==> RemovalBreaks(d.files, d.faults, w))
            && (result.RollbackFailed? <==> RollbackBreaks(d.files, d.faults, w))
  {
    RestoreIsForetold(d, w);
    ForecastExactlyWhen(d.files, d.faults, w);
  }

  lemma ForecastExactlyWhen(files: Files, faults: seq<Fault>, w: World)
    ensures var f := RestoreForecast(files, faults, w);
            && (f.result.NoRequest? <==> Request !in files && At(faults, 0).Works?)
            && (f.result.Restored? <==> CarriedOut(files, faults, w))
            && (f.result.CleanupFailed? <==> RemovalBreaks(files, faults, w))
            && (f.result.RollbackFailed? <==> RollbackBreaks(files, faults, w))
            && (f.result.CleanupFailed? ==> f.spent == 12 + LiveCount(files))
  {
    hide FirstBreak, AllWork, Drop, Flags, SwapForecast, LiveCount;
    if Applicable(files, w) {
      var n := 11 + LiveCount(files);
      var b := FirstBreak(faults, n);
      ForecastByFirstBreak(files, faults, w);
      hide RestoreForecast, At;
      FirstBreakMeans(faults, n, n);
      FirstBreakMeans(faults, n, n - 1);
      FirstBreakMeans(faults, n, b);
      RollbackByFirstBreak(files, faults, b);
    }
  }

  lemma RollbackByFirstBreak(files: Files, faults: seq<Fault>, b: nat)
    requires b == FirstBreak(faults, 11 + LiveCount(files))
    ensures (exists c :: 0 <= c < 10 + LiveCount(files) && RollbackBreaksAt(files, faults, c))
       <==> b < 10 + LiveCount(files) && RollbackBreaksAt(files, faults, b)
  {
    hide FirstBreak, AllWork, At, Drop, Flags, LiveCount;
    if c :| 0 <= c < 10 + LiveCount(files) && RollbackBreaksAt(files, faults, c) {
      FirstBreakIs(faults, 11 + LiveCount(files), c);
    }
  }

  // ----- What the start of the app concludes

  /** Writing the failure record or removing the request breaks, the restore having used n operations. */
  predicate RecordingBreaks(faults: seq<Fault>, n: nat) {
    At(faults, n + 1).Breaks? || At(faults, n + 2).Breaks?
  }

  function StartForecast(d: Disk, w: World): Startup {
    var f := RestoreForecast(d.files, Drop(d.faults, 1), w);
    if At(d.faults, 0).Works? && Request !in d.files then NothingPending
    else if f.result.NoRequest? || f.result.Restored? then Replaced
    else if f.result.RollbackFailed? || RecordingBreaks(d.faults, 1 + f.spent) then StartRefused
    else Recorded
  }

  lemma RecordingForetold(d: Disk, w: World)
    ensures Recording(d, w).1 == if RecordingBreaks(d.faults, 0) then StartRefused else Recorded
  {
    var d1 := Read(d, Request).0;
    var d2 := Written(d1, FailureRecord, w.record).0;
    Ticks(d);
    Ticks(d1);
    Ticks(d2);
    AtDrop(d.faults, 1, 0);
    AtDrop(d.faults, 2, 0);
    DropDrop(d.faults, 1, 1);
    hide At, Drop;
  }

  lemma InspectedTicks(d: Disk)
    ensures Inspected(d, Request).0 == d.(faults := Drop(d.faults, 1))
    ensures Inspected(d, Request).1.Missing? <==> At(d.faults, 0).Works? && Request !in d.files
  {
  }

  /** Every start ends as foretold from the disk, the request and the errors. */
  lemma StartIsForetold(d: Disk, w: World)
    requires Fresh(d.files, d.nextDir)
    ensures Resolved(d, w).1 == StartForecast(d, w)
  {
    hide Applied, RestoreForecast, Recording, Inspected, Removed, At, Drop, RecordingBreaks;
    var d1 := Inspected(d, Request).0;
    InspectedTicks(d);
    RestoreIsForetold(d1, w);
    var r := Applied(d1, w);
    var f := RestoreForecast(d1.files, d1.faults, w);
    RecordingForetold(r.0, w);
    DropDrop(d.faults, 1, f.spent);
    RecordingLater(d.faults, 1 + f.spent);
  }

  lemma RecordingLater(faults: seq<Fault>, n: nat)
    ensures RecordingBreaks(Drop(faults, n), 0) <==> RecordingBreaks(faults, n)
  {
    AtDrop(faults, n, 1);
    AtDrop(faults, n, 2);
  }

  /** What each conclusion says about the live files, by the result of the restore. */
  lemma ConclusionMeans(d: Disk, w: World)
    requires Fresh(d.files, d.nextDir)
    ensures var (after, outcome) := Resolved(d, w);
            var result := Applied(Inspected(d, Request).0, w).1;
            && (outcome.NothingPending? ==> after.files == d.files && Request !in d.files)
            && (outcome.Replaced? ==> result.NoRequest? || result.Restored?)
            && (outcome.Recorded? ==> result.Refused? || result.CleanupFailed?)
            && (outcome.StartRefused? ==> result.Refused? || result.CleanupFailed? || result.RollbackFailed?)
            && (!outcome.NothingPending? ==>
                  match result
                  case NoRequest => Untouched(d.files, after.files)
                  case Restored => WasCopied(d.files, after.files, w)
                  case CleanupFailed => WasCopied(d.files, after.files, w)
                  case Refused => Untouched(d.files, after.files)
                  case RollbackFailed => Kept(d.files, after.files) && !Untouched(d.files, after.files))
  {
    var d1 := Inspected(d, Request).0;
    var r := Applied(d1, w);
    OutcomeIsHonest(d1, w);
    forall s ensures Same(r.0.files, Recording(r.0, w).0.files, Live(s)) && Same(r.0.files, Removed(Removed(r.0, SourceIndex).0, FailureRecord).0.files, Live(s)) {
      RecordingKeepsLive(r.0, w, s);
    }
    hide Applied, Recording, Removed, Asks, Fresh, Kept;
    LiveCarries(d.files, r.0.files, Recording(r.0, w).0.files, w);
    LiveCarries(d.files, r.0.files, Removed(Removed(r.0, SourceIndex).0, FailureRecord).0.files, w);
    RecordingConcludes(r.0, w);
  }

  /** What the app's start may conclude, and what each conclusion says about the database, from the disk, the request and
      the coming errors: a record stands for a replaced database exactly when the copy was installed and the removal of
      the request broke. */
  lemma RecordMeans(d: Disk, w: World)
    requires Fresh(d.files, d.nextDir)
    ensures var (after, outcome) := Resolved(d, w);
            var faults := Drop(d.faults, 1);
            match outcome
            case NothingPending => after.files == d.files && Request !in d.files
            case Replaced =>
              if CarriedOut(d.files, faults, w) then WasCopied(d.files, after.files, w)
              else Request !in d.files && Untouched(d.files, after.files)
            case Recorded =>
              if RemovalBreaks(d.files, faults, w) then WasCopied(d.files, after.files, w) else Untouched(d.files, after.files)
            case StartRefused =>
              if RollbackBreaks(d.files, faults, w) then Kept(d.files, after.files) && !Untouched(d.files, after.files)
              else if RemovalBreaks(d.files, faults, w) then WasCopied(d.files, after.files, w)
              else Untouched(d.files, after.files)
  {
    hide Resolved, Applied, WasCopied, Untouched, Kept, CarriedOut, RemovalBreaks, RollbackBreaks, Fresh;
    InspectedTicks(d);
    ConclusionMeans(d, w);
    ResultsExactlyWhen(Inspected(d, Request).0, w);
    match Resolved(d, w).1
    case NothingPending =>
    case Replaced =>
    case Recorded =>
    case StartRefused => assert Applied(Inspected(d, Request).0, w).1.RollbackFailed? || !RollbackBreaks(d.files, Drop(d.faults, 1), w);
  }

  // ----- When the documentation of the start is wrong

  /** The live database is the requested copy already. */
  ghost predicate AlreadyCopied(files: Files, w: World) {
    Applicable(files, w) && IsCopy(files, files[Backup(w.decode(files[Request]).source)])
  }

  lemma AsksIsApplicable(orig: Files, w: World, copy: Content)
    requires Asks(orig, w, copy)
    ensures Applicable(orig, w) && copy == orig[Backup(w.decode(orig[Request]).source)]
  {
  }

  lemma CopiesAgree(orig: Files, h: Files, copy: Content)
    requires IsCopy(h, copy)
    ensures Untouched(orig, h) <==> IsCopy(orig, copy)
  {
    if Untouched(orig, h) {
      assert Same(orig, h, Live(Main)) && Same(orig, h, Live(Wal)) && Same(orig, h, Live(Shm));
    }
    if IsCopy(orig, copy) {
      forall s: Suffix ensures Same(orig, h, Live(s)) { assert s == Main || s == Wal || s == Shm; }
    }
  }

  lemma CopiedIsUntouched(orig: Files, h: Files, w: World)
    requires WasCopied(orig, h, w)
    ensures Untouched(orig, h) <==> AlreadyCopied(orig, w)
  {
    var copy :| Asks(orig, w, copy) && IsCopy(h, copy);
    hide Asks;
    assert copy == orig[Backup(w.decode(orig[Request]).source)] && Applicable(orig, w) by { AsksIsApplicable(orig, w, copy); }
    hide Applicable;
    CopiesAgree(orig, h, copy);
  }

  /** A failure record is documented to mean that the app starts on the untouched database. It stands beside a changed
      one exactly when the copy was installed over a different database, the removal of the request broke, and its
      record could be written and the request removed on the second try. */
  lemma RecordMisleadsExactlyWhen(d: Disk, w: World)
    requires Fresh(d.files, d.nextDir)
    ensures var (after, outcome) := Resolved(d, w);
            outcome.Recorded? && !Untouched(d.files, after.files) <==>
            && RemovalBreaks(d.files, Drop(d.faults, 1), w) && !AlreadyCopied(d.files, w)
            && !RecordingBreaks(d.faults, 13 + LiveCount(d.files))
  {
    hide Resolved, RestoreForecast, WasCopied, Untouched, Kept, AlreadyCopied, CarriedOut, RemovalBreaks, RollbackBreaks,
         RecordingBreaks, Fresh;
    var after := Resolved(d, w).0;
    StartIsForetold(d, w);
    ForecastExactlyWhen(d.files, Drop(d.faults, 1), w);
    RecordMeans(d, w);
    RemovalIsPresent(d, w);
    if RemovalBreaks(d.files, Drop(d.faults, 1), w) && Resolved(d, w).1.Recorded? {
      CopiedIsUntouched(d.files, after.files, w);
    }
  }

  lemma RemovalIsPresent(d: Disk, w: World)
    ensures RemovalBreaks(d.files, Drop(d.faults, 1), w) ==> Request in d.files
  {
  }

  /** The start is documented to fail only when the database could not be put back. It fails on an untouched database
      exactly when the restore was refused, or stopped only at the removal of the request after a copy that changed
      nothing, and then the record could not be written or the request not removed. */
  lemma StartFailsWronglyExactlyWhen(d: Disk, w: World)
    requires Fresh(d.files, d.nextDir)
    ensures var (after, outcome) := Resolved(d, w);
            var f := RestoreForecast(d.files, Drop(d.faults, 1), w);
            outcome.StartRefused? && Untouched(d.files, after.files) <==>
            && !(At(d.faults, 0).Works? && Request !in d.files)
            && (f.result.Refused? || (f.result.CleanupFailed? && AlreadyCopied(d.files, w)))
            && RecordingBreaks(d.faults, 1 + f.spent)
  {
    hide Resolved, RestoreForecast, WasCopied, Untouched, Kept, AlreadyCopied, CarriedOut, RemovalBreaks, RollbackBreaks,
         RecordingBreaks, Fresh, At;
    var after := Resolved(d, w).0;
    StartIsForetold(d, w);
    ForecastExactlyWhen(d.files, Drop(d.faults, 1), w);
    RecordMeans(d, w);
    if RemovalBreaks(d.files, Drop(d.faults, 1), w) && Resolved(d, w).1.StartRefused? {
      CopiedIsUntouched(d.files, after.files, w);
    }
  }

  function AllWorking(n: nat): seq<Fault> {
    seq(n, i => Works)
  }

  lemma OneBreak(faults: seq<Fault>, n: nat, k: nat)
    requires faults == AllWorking(1 + n) + [Breaks(k)]
    ensures AllWork(Drop(faults, 1), n) && At(Drop(faults, 1), n).Breaks? && !RecordingBreaks(faults, n + 3)
  {
  }

  /** Whatever the disk and the request: one single broken operation, the removal of the request, leaves a failure record
      beside a replaced database. */
  lemma RecordedYetReplaced(d: Disk, w: World, k: nat)
    requires Fresh(d.files, d.nextDir) && Applicable(d.files, w)
    requires d.faults == AllWorking(11 + LiveCount(d.files)) + [Breaks(k)]
    ensures var (after, outcome) := Resolved(d, w);
            outcome.Recorded? && WasCopied(d.files, after.files, w) && (!AlreadyCopied(d.files, w) ==> !Untouched(d.files, after.files))
  {
    var faults := Drop(d.faults, 1);
    OneBreak(d.faults, 10 + LiveCount(d.files), k);
    hide AllWork, At, Drop, Applicable;
    assert RemovalBreaks(d.files, faults, w) && !RecordingBreaks(d.faults, 13 + LiveCount(d.files));
    hide Resolved, Fresh, RemovalBreaks, RecordingBreaks, RestoreForecast, LiveCount, Untouched, AlreadyCopied, WasCopied;
    StartIsForetold(d, w);
    ForecastExactlyWhen(d.files, faults, w);
    RecordMeans(d, w);
    CopiedIsUntouched(d.files, Resolved(d, w).0.files, w);
  }

  /** Whatever the disk: a request this build cannot read, and a record that cannot be written, and the start fails
      although no live file was touched. */
  lemma UnreadableRequestStopsTheStart(d: Disk, w: World, k: nat)
    requires Fresh(d.files, d.nextDir) && Request in d.files && !w.decode(d.files[Request]).Wanted?
    requires d.faults == AllWorking(3) + [Breaks(k)]
    ensures var (after, outcome) := Resolved(d, w); outcome.StartRefused? && Untouched(d.files, after.files)
  {
    var faults := Drop(d.faults, 1);
    assert At(d.faults, 0).Works? && At(faults, 0).Works? && At(d.faults, 3).Breaks?;
    assert RestoreForecast(d.files, faults, w) == Forecast(Refused, 1);
    assert RecordingBreaks(d.faults, 2);
    hide Resolved, Fresh, RestoreForecast, RecordingBreaks, Untouched;
    StartFailsWronglyExactlyWhen(d, w);
  }

  // ----- A record after an earlier start was cut off

  /** A record speaks of the files its own start found: compared with any earlier state of the disk, the live files are
      untouched exactly if that start found them so, or replaced them by what they were. */
  lemma RecordSpeaksOfFoundFiles(orig: Files, d: Disk, w: World)
    requires Fresh(d.files, d.nextDir) && Resolved(d, w).1.Recorded?
    ensures Untouched(orig, Resolved(d, w).0.files) <==>
            if RemovalBreaks(d.files, Drop(d.faults, 1), w)
            then IsCopy(orig, d.files[Backup(w.decode(d.files[Request]).source)])
            else Untouched(orig, d.files)
  {
    hide Resolved, Fresh, CarriedOut, RollbackBreaks, Asks;
    RecordMeans(d, w);
    var after := Resolved(d, w).0.files;
    if RemovalBreaks(d.files, Drop(d.faults, 1), w) {
      var copy :| Asks(d.files, w, copy) && IsCopy(after, copy);
      AsksIsApplicable(d.files, w, copy);
      CopiesAgree(orig, after, copy);
    } else {
      UntouchedAlong(orig, d.files, after);
    }
  }

  lemma UntouchedAlong(orig: Files, h: Files, next: Files)
    requires Untouched(h, next)
    ensures Untouched(orig, h) <==> Untouched(orig, next)
  {
    forall s ensures Same(orig, h, Live(s)) <==> Same(orig, next, Live(s)) { assert Same(h, next, Live(s)); }
  }

  /** The journal of what comes later begins with that of what was before. */
  predicate Extends(d: Disk, e: Disk) {
    |d.journal| <= |e.journal| && e.journal[..|d.journal|] == d.journal
  }

  lemma ExtendsAlong(d: Disk, e: Disk, f: Disk)
    requires Extends(d, e) && Extends(e, f)
    ensures Extends(d, f)
  {
    assert f.journal[..|d.journal|] == f.journal[..|e.journal|][..|d.journal|];
  }

  lemma {:induction false} MovesExtend(d: Disk, dir: nat, todo: seq<Suffix>, moved: seq<Suffix>)
    ensures Extends(d, MovedAway(d, dir, todo, moved).0)
    decreases |todo|
  {
    if todo != [] {
      var i := Inspected(d, Live(todo[0]));
      if i.1.Missing? {
        MovesExtend(i.0, dir, todo[1..], moved);
      } else if i.1.Present? {
        var r := Renamed(i.0, Live(todo[0]), Recovery(dir, todo[0]));
        if r.1 {
          MovesExtend(r.0, dir, todo[1..], moved + [todo[0]]);
          ExtendsAlong(d, r.0, MovedAway(r.0, dir, todo[1..], moved + [todo[0]]).0);
        }
      }
    }
  }

  lemma {:induction false} RollbackExtends(d: Disk, dir: nat, list: seq<Suffix>)
    ensures Extends(d, RolledBack(d, dir, list).0)
    decreases |list|
  {
    if list != [] {
      var r := Renamed(d, Recovery(dir, list[|list| - 1]), Live(list[|list| - 1])).0;
      RollbackExtends(r, dir, list[..|list| - 1]);
      ExtendsAlong(d, r, RolledBack(r, dir, list[..|list| - 1]).0);
    }
  }

  lemma SwapExtends(d: Disk, stage: nat, dir: nat)
    ensures Extends(MovedAway(d, dir, SUFFIXES, []).0, Swapped(d, stage, dir).0)
  {
    var m := MovedAway(d, dir, SUFFIXES, []);
    var i := Renamed(m.0, Staged(stage), Live(Main));
    hide MovedAway, RolledBack;
    RollbackExtends(m.0, dir, m.1);
    RollbackExtends(i.0, dir, m.1);
    ExtendsAlong(m.0, i.0, RolledBack(i.0, dir, m.1).0);
    ExtendsAlong(m.0, i.0, Removed(i.0, Request).0);
  }

  lemma StartExtends(d: Disk, w: World)
    ensures Extends(Applied(Inspected(d, Request).0, w).0, Resolved(d, w).0)
            || (Inspected(d, Request).1.Missing? && Resolved(d, w).0 == Inspected(d, Request).0)
  {
    hide Applied;
    var r := Applied(Inspected(d, Request).0, w).0;
    ExtendsAlong(r, Removed(r, SourceIndex).0, Removed(Removed(r, SourceIndex).0, FailureRecord).0);
    RecordingExtends(r, w);
    hide Recording, Removed;
  }

  lemma RecordingExtends(d: Disk, w: World)
    ensures Extends(d, Recording(d, w).0)
  {
  }

  /** The first move of a restore without errors, when the database is there. */
  lemma FirstMove(d: Disk, dir: nat)
    requires d.faults == [] && Live(Main) in d.files
    ensures var files := (d.files - {Live(Main)})[Recovery(dir, Main) := d.files[Live(Main)]];
            Extends(d.(files := files, journal := d.journal + [files]), MovedAway(d, dir, SUFFIXES, []).0)
  {
    var i := Inspected(d, Live(Main)).0;
    var r := Renamed(i, Live(Main), Recovery(dir, Main)).0;
    MovesExtend(r, dir, SUFFIXES[1..], [] + [Main]);
  }

  /** The files after the copy was staged and the database moved away. */
  function MainMoved(files: Files, nextDir: nat, copy: Content): Files
    requires Live(Main) in files
  {
    (files[Staged(nextDir) := copy] - {Live(Main)})[Recovery(nextDir + 1, Main) := files[Live(Main)]]
  }

  /** The disk at that moment. */
  function MovedDisk(files: Files, nextDir: nat, copy: Content): Disk
    requires Live(Main) in files
  {
    var moved := MainMoved(files, nextDir, copy);
    Disk(moved, nextDir + 2, [], [files[Staged(nextDir) := copy], moved])
  }

  lemma SwapPassesBy(files: Files, nextDir: nat, copy: Content)
    requires Live(Main) in files
    ensures var staged := files[Staged(nextDir) := copy];
            Extends(MovedDisk(files, nextDir, copy), Swapped(Disk(staged, nextDir + 2, [], [staged]), nextDir, nextDir + 1).0)
  {
    var staged := files[Staged(nextDir) := copy];
    var e := Disk(staged, nextDir + 2, [], [staged]);
    FirstMove(e, nextDir + 1);
    SwapExtends(e, nextDir, nextDir + 1);
    assert [staged] + [MainMoved(files, nextDir, copy)] == [staged, MainMoved(files, nextDir, copy)];
    hide Swapped, MovedAway, Extends;
    ExtendsAlong(MovedDisk(files, nextDir, copy), MovedAway(e, nextDir + 1, SUFFIXES, []).0, Swapped(e, nextDir, nextDir + 1).0);
  }

  lemma StartPassesBy(files: Files, nextDir: nat, w: World, copy: Content)
    requires Asks(files, w, copy) && Live(Main) in files
    ensures Extends(MovedDisk(files, nextDir, copy), Resolved(Booting(files, nextDir, []), w).0)
  {
    hide Applied, Swapped, Resolved, Removed, Extends, Inspected, MovedDisk;
    var d := Booting(files, nextDir, []);
    var staged := files[Staged(nextDir) := copy];
    var s := Swapped(Disk(staged, nextDir + 2, [], [staged]), nextDir, nextDir + 1).0;
    var m := MovedDisk(files, nextDir, copy);
    NoErrors(d, w.decode(files[Request]).source, w, copy);
    SwapPassesBy(files, nextDir, copy);
    RemovedExtends(s, Staged(nextDir));
    ExtendsAlong(m, s, Applied(d, w).0);
    StartExtends(d, w);
    ExtendsAlong(m, Applied(d, w).0, Resolved(d, w).0);
  }

  /** A start cut off there. */
  lemma CutOff(files: Files, nextDir: nat, w: World, copy: Content)
    requires Asks(files, w, copy) && Live(Main) in files
    ensures AfterBoot(files, nextDir, Boot([], 2), w) == MainMoved(files, nextDir, copy)
  {
    StartPassesBy(files, nextDir, w, copy);
    SecondEntry(MovedDisk(files, nextDir, copy), Resolved(Booting(files, nextDir, []), w).0);
    hide Resolved, Extends;
  }

  lemma RemovedExtends(d: Disk, p: Path)
    ensures Extends(d, Removed(d, p).0)
  {
  }

  lemma SecondEntry(d: Disk, e: Disk)
    requires Extends(d, e) && |d.journal| == 2
    ensures |e.journal| >= 2 && e.journal[1] == d.journal[1]
  {
    assert e.journal[..2][1] == e.journal[1];
  }

  lemma NoErrors(d: Disk, source: string, w: World, copy: Content)
    requires d.faults == [] && d.journal == [] && Asks(d.files, w, copy) && source == w.decode(d.files[Request]).source
    ensures var staged := d.files[Staged(d.nextDir) := copy];
            var s := Swapped(Disk(staged, d.nextDir + 2, [], [staged]), d.nextDir, d.nextDir + 1);
            Inspected(d, Request) == (d, Present) && Applied(d, w) == (Removed(s.0, Staged(d.nextDir)).0, s.1)
  {
    hide Swapped, Removed;
    assert [] + [d.files[Staged(d.nextDir) := copy]] == [d.files[Staged(d.nextDir) := copy]];
  }

  /** Whatever the disk: a start cut off after it moved the database away, then one that cannot read the request, and the
      app starts with a failure record and without its database, which is in the recovery directory. */
  lemma RecordedYetMovedAway(files: Files, nextDir: nat, w: World, copy: Content)
    requires Fresh(files, nextDir) && Asks(files, w, copy) && Live(Main) in files
    ensures var h := AfterBoot(files, nextDir, Boot([], 2), w);
            var (after, outcome) := Resolved(Booting(h, nextDir + 2, [Works, Breaks(0)]), w);
            outcome.Recorded? && Live(Main) !in after.files && Saved(files, after.files, nextDir + 1, Main)
  {
    CutOff(files, nextDir, w, copy);
    var h := MainMoved(files, nextDir, copy);
    var d := Booting(h, nextDir + 2, [Works, Breaks(0)]);
    hide AfterBoot;
    assert d.faults[1..] == [Breaks(0)] && [Breaks(0)][1..] == [];
    assert Applied(Inspected(d, Request).0, w) == (d.(faults := []), Refused);
    hide Applied;
    assert Resolved(d, w) == Recording(d.(faults := []), w);
  }
}
