/** Which files a start with a scheduled restore leaves behind, told from the disk and the coming errors. */
module RestoreRemains {
  import opened Common
  import opened Restore
  import opened RestoreProofs
  import opened RestoreOutcomes

  /** The file is gone, or as it was when its removal broke. */
  ghost predicate GoneUnless(broke: bool, before: Files, after: Files, p: Path) {
    if broke then Same(before, after, p) else p !in after
  }

  ghost predicate Holding(h: Files, p: Path, c: Content) {
    p in h && h[p] == c
  }

  /** A restore leaves the backups, the source index and the failure record alone, and the request unless it carried it out. */
  lemma AppliedAside(d: Disk, w: World, p: Path)
    requires Fresh(d.files, d.nextDir) && Aside(p, RecoveryDir(d))
    ensures p != Request || !Applied(d, w).1.Restored? ==> Same(d.files, Applied(d, w).0.files, p)
    ensures Applied(d, w).1.Restored? ==> Request !in Applied(d, w).0.files
  {
    RestoreMeans(d, w, CopyOf(d.files, w));
    hide Applied, Fresh;
    var r := Applied(d, w);
    if r.1.RollbackFailed? {
      var moved: set<Suffix> :| Holds(d.files, r.0.files, RecoveryDir(d), moved);
    }
  }

  /** The operation by which a start that found nothing to restore, or restored, removes the source index; the failure
      record comes next. */
  function CleanupAt(d: Disk): nat {
    if Request in d.files then 13 + LiveCount(d.files) else 2
  }

  lemma RemovedOp(d: Disk, p: Path)
    ensures var e := Removed(d, p).0;
            && GoneUnless(At(d.faults, 0).Breaks?, d.files, e.files, p) && e.faults == Drop(d.faults, 1)
            && forall q :: q != p ==> Same(d.files, e.files, q)
    ensures Removed(d, p).1.Unknown? <==> At(d.faults, 0).Breaks?
  {
  }

  lemma WrittenOp(d: Disk, p: Path, c: Content)
    ensures var (e, ok) := Written(d, p, c);
            && ok == At(d.faults, 0).Works? && e.faults == Drop(d.faults, 1)
            && Holding(e.files, p, if ok then c else Prefix(c, At(d.faults, 0).written))
            && forall q :: q != p ==> Same(d.files, e.files, q)
  {
  }

  lemma SameAlong(a: Files, b: Files, c: Files, p: Path)
    requires Same(a, b, p)
    ensures Same(a, c, p) <==> Same(b, c, p)
    ensures forall broke :: GoneUnless(broke, a, c, p) <==> GoneUnless(broke, b, c, p)
  {
  }

  /** The two removals after a restore. */
  lemma CleanupLeaves(d: Disk)
    ensures var e := Removed(Removed(d, SourceIndex).0, FailureRecord).0;
            && GoneUnless(At(d.faults, 0).Breaks?, d.files, e.files, SourceIndex)
            && GoneUnless(At(d.faults, 1).Breaks?, d.files, e.files, FailureRecord)
            && forall q :: q != SourceIndex && q != FailureRecord ==> Same(d.files, e.files, q)
  {
    var d1 := Removed(d, SourceIndex).0;
    var e := Removed(d1, FailureRecord).0;
    RemovedOp(d, SourceIndex);
    RemovedOp(d1, FailureRecord);
    AtDrop(d.faults, 1, 0);
    hide Removed, At, Drop;
    SameAlong(d.files, d1.files, e.files, FailureRecord);
    assert Same(d1.files, e.files, SourceIndex);
    forall q | q != SourceIndex && q != FailureRecord ensures Same(d.files, e.files, q) {
      assert Same(d.files, d1.files, q) && Same(d1.files, e.files, q);
    }
  }

  /** The recording of a failure: a record that could not be written is left cut off, and the request stays then. */
  lemma RecordingLeaves(d: Disk, w: World)
    ensures var e := Recording(d, w).0;
            && Holding(e.files, FailureRecord, if At(d.faults, 1).Works? then w.record else Prefix(w.record, At(d.faults, 1).written))
            && GoneUnless(RecordingBreaks(d.faults, 0), d.files, e.files, Request)
            && forall q :: q != Request && q != FailureRecord ==> Same(d.files, e.files, q)
  {
    var d1 := Read(d, Request).0;
    var d2 := Written(d1, FailureRecord, w.record).0;
    ReadOp(d, Request);
    WrittenOp(d1, FailureRecord, w.record);
    RemovedOp(d2, Request);
    AtDrop(d.faults, 1, 0);
    AtDrop(d.faults, 2, 0);
    DropDrop(d.faults, 1, 1);
    hide Read, Written, Removed, At, Drop;
    var e := Recording(d, w).0;
    forall q | q != Request && q != FailureRecord ensures Same(d.files, e.files, q) {
      assert Same(d1.files, d2.files, q) && (e != d2 ==> Same(d2.files, e.files, q));
    }
    assert e != d2 ==> Same(d2.files, e.files, FailureRecord);
    assert Same(d1.files, d2.files, Request);
    SameAlong(d1.files, d2.files, e.files, Request);
  }

  /** A start that found nothing to restore, or restored. */
  lemma ReplacedLeaves(d: Disk, w: World)
    requires Fresh(d.files, d.nextDir) && Resolved(d, w).1.Replaced?
    ensures var after, n := Resolved(d, w).0, CleanupAt(d);
            && Request !in after.files && (forall name :: Same(d.files, after.files, Backup(name)))
            && GoneUnless(At(d.faults, n).Breaks?, d.files, after.files, SourceIndex)
            && GoneUnless(At(d.faults, n + 1).Breaks?, d.files, after.files, FailureRecord)
  {
    var d1 := Inspected(d, Request).0;
    var r, after := Applied(d1, w).0, Resolved(d, w).0;
    hide Applied, Removed, At, Drop, RestoreForecast, CarriedOut, RemovalBreaks, RollbackBreaks, Fresh, LiveCount;
    InspectedTicks(d);
    RestoreIsForetold(d1, w);
    var spent := RestoreForecast(d1.files, d1.faults, w).spent;
    SpentByRestored(d1.files, d1.faults, w);
    ResultsExactlyWhen(d1, w);
    assert 1 + spent == CleanupAt(d);
    CleanupLeaves(r);
    DropDrop(d.faults, 1, spent);
    AtDrop(d.faults, 1 + spent, 0);
    AtDrop(d.faults, 1 + spent, 1);
    AppliedAside(d1, w, SourceIndex);
    AppliedAside(d1, w, FailureRecord);
    AppliedAside(d1, w, Request);
    assert Same(r.files, after.files, Request);
    SameAlong(d.files, r.files, after.files, SourceIndex);
    SameAlong(d.files, r.files, after.files, FailureRecord);
    forall name ensures Same(d.files, after.files, Backup(name)) {
      AppliedAside(d1, w, Backup(name));
      assert Same(r.files, after.files, Backup(name));
    }
  }

  /** How many operations a restore takes that carries a request out, or finds none. */
  lemma SpentByRestored(files: Files, faults: seq<Fault>, w: World)
    ensures var f := RestoreForecast(files, faults, w);
            && (f.result.Restored? ==> Request in files && f.spent == 12 + LiveCount(files))
            && (f.result.NoRequest? ==> Request !in files && f.spent == 1)
  {
    ForecastExactlyWhen(files, faults, w);
    hide LiveCount, FirstBreak, AllWork, At, Drop, SwapForecast, RemovalBreaks, RollbackBreaks;
    if Applicable(files, w) {
      ForecastByFirstBreak(files, faults, w);
      FirstBreakMeans(faults, 11 + LiveCount(files), 11 + LiveCount(files));
    }
  }

  /** A start that dealt with a failure. */
  lemma FailedLeaves(d: Disk, w: World)
    requires Fresh(d.files, d.nextDir) && (Resolved(d, w).1.Recorded? || Resolved(d, w).1.StartRefused?)
    requires !RollbackBreaks(d.files, Drop(d.faults, 1), w)
    ensures var (after, outcome) := Resolved(d, w);
            && (forall name :: Same(d.files, after.files, Backup(name))) && Same(d.files, after.files, SourceIndex)
            && (if outcome.Recorded? then Request !in after.files && Holding(after.files, FailureRecord, w.record)
                else Same(d.files, after.files, Request) && exists k :: RecordCutAt(after.files, w, k))
  {
    var d1 := Inspected(d, Request).0;
    var r, after := Applied(d1, w).0, Resolved(d, w).0;
    hide Applied, Recording, Removed, At, Drop, CarriedOut, RemovalBreaks, RollbackBreaks, Fresh;
    InspectedTicks(d);
    ResultsExactlyWhen(d1, w);
    assert Resolved(d, w) == Recording(r, w);
    RecordingLeaves(r, w);
    RecordingForetold(r, w);
    PrefixCuts(after.files, w, At(r.faults, 1));
    AppliedAside(d1, w, SourceIndex);
    AppliedAside(d1, w, Request);
    SameAlong(d.files, r.files, after.files, Request);
    SameAlong(d.files, r.files, after.files, SourceIndex);
    assert Same(r.files, after.files, SourceIndex);
    forall name ensures Same(d.files, after.files, Backup(name)) {
      AppliedAside(d1, w, Backup(name));
      assert Same(r.files, after.files, Backup(name));
    }
  }

  /** The failure record holds the first k characters of what was to be written. */
  ghost predicate RecordCutAt(h: Files, w: World, k: nat) {
    k <= |w.record| && Holding(h, FailureRecord, w.record[..k])
  }

  lemma PrefixCuts(h: Files, w: World, f: Fault)
    requires Holding(h, FailureRecord, if f.Works? then w.record else Prefix(w.record, f.written))
    ensures exists k :: RecordCutAt(h, w, k)
  {
    assert w.record[..|w.record|] == w.record;
    assert RecordCutAt(h, w, if f.Works? then |w.record| else Min(f.written, |w.record|));
  }

  /** A start that could not put the live files back. */
  lemma StrandedLeaves(d: Disk, w: World)
    requires Fresh(d.files, d.nextDir) && RollbackBreaks(d.files, Drop(d.faults, 1), w)
    ensures var (after, outcome) := Resolved(d, w);
            && outcome.StartRefused? && (forall name :: Same(d.files, after.files, Backup(name)))
            && Same(d.files, after.files, SourceIndex) && Same(d.files, after.files, FailureRecord) && Same(d.files, after.files, Request)
  {
    var d1 := Inspected(d, Request).0;
    hide Applied, Recording, Removed, At, Drop, CarriedOut, RemovalBreaks, RollbackBreaks, Fresh;
    InspectedTicks(d);
    ResultsExactlyWhen(d1, w);
    RequestIsThere(d, w);
    AppliedAside(d1, w, SourceIndex);
    AppliedAside(d1, w, FailureRecord);
    AppliedAside(d1, w, Request);
    forall name ensures Same(d.files, Applied(d1, w).0.files, Backup(name)) { AppliedAside(d1, w, Backup(name)); }
  }

  lemma RequestIsThere(d: Disk, w: World)
    requires RollbackBreaks(d.files, Drop(d.faults, 1), w)
    ensures Request in d.files
  {
  }

  /** For every disk and every list of errors, what a start leaves of the request, the failure record, the source index
      and the backups. After a restore the index and an old record are gone, each exactly unless its own removal broke;
      a failure on record is the record of this failure, and nothing else has changed. */
  lemma StartLeaves(d: Disk, w: World)
    requires Fresh(d.files, d.nextDir)
    ensures var (after, outcome) := Resolved(d, w);
            var n := CleanupAt(d);
            && (forall name :: Same(d.files, after.files, Backup(name)))
            && (!outcome.Replaced? ==> Same(d.files, after.files, SourceIndex))
            && match outcome
               case NothingPending => after.files == d.files
               case Replaced =>
                 && Request !in after.files
                 && GoneUnless(At(d.faults, n).Breaks?, d.files, after.files, SourceIndex)
                 && GoneUnless(At(d.faults, n + 1).Breaks?, d.files, after.files, FailureRecord)
               case Recorded => Request !in after.files && Holding(after.files, FailureRecord, w.record)
               case StartRefused =>
                 && Same(d.files, after.files, Request)
                 && if RollbackBreaks(d.files, Drop(d.faults, 1), w) then Same(d.files, after.files, FailureRecord)
                    else exists k :: RecordCutAt(after.files, w, k)
  {
    hide Resolved, At, Drop, RollbackBreaks, RecordCutAt, Fresh, Holding;
    RecordMeans(d, w);
    if Resolved(d, w).1.Replaced? {
      ReplacedLeaves(d, w);
    } else if RollbackBreaks(d.files, Drop(d.faults, 1), w) {
      StrandedLeaves(d, w);
    } else if !Resolved(d, w).1.NothingPending? {
      FailedLeaves(d, w);
    }
  }

  // ----- The staged copy

  lemma {:induction false} MovesKeepStaged(d: Disk, dir: nat, todo: seq<Suffix>, moved: seq<Suffix>, k: nat)
    ensures Same(d.files, MovedAway(d, dir, todo, moved).0.files, Staged(k))
    decreases |todo|
  {
    if todo != [] {
      var i := Inspected(d, Live(todo[0]));
      var r := Renamed(i.0, Live(todo[0]), Recovery(dir, todo[0]));
      if i.1.Missing? {
        MovesKeepStaged(i.0, dir, todo[1..], moved, k);
      } else if i.1.Present? && r.1 {
        MovesKeepStaged(r.0, dir, todo[1..], moved + [todo[0]], k);
      }
    }
  }

  lemma {:induction false} RollbackKeepsStaged(d: Disk, dir: nat, list: seq<Suffix>, k: nat)
    ensures Same(d.files, RolledBack(d, dir, list).0.files, Staged(k))
    decreases |list|
  {
    if list != [] {
      var s := list[|list| - 1];
      RollbackKeepsStaged(Renamed(d, Recovery(dir, s), Live(s)).0, dir, list[..|list| - 1], k);
    }
  }

  lemma SwapKeepsStaged(d: Disk, stage: nat, dir: nat, k: nat)
    requires k != stage
    ensures Same(d.files, Swapped(d, stage, dir).0.files, Staged(k))
  {
    var m := MovedAway(d, dir, SUFFIXES, []);
    MovesKeepStaged(d, dir, SUFFIXES, [], k);
    RollbackKeepsStaged(m.0, dir, m.1, k);
    RollbackKeepsStaged(Renamed(m.0, Staged(stage), Live(Main)).0, dir, m.1, k);
    hide MovedAway, RolledBack;
  }

  lemma StageKeepsStaged(d: Disk, stage: nat, source: string, w: World, k: nat)
    requires k != stage
    ensures Same(d.files, StagedAndSwapped(d, stage, source, w).0.files, Staged(k))
  {
    var c := Copied(d, Backup(source), Staged(stage)).0;
    SwapKeepsStaged(TempDir(Verified(c, Staged(stage), w.valid).0).0, stage, d.nextDir, k);
    hide Swapped;
  }

  /** A restore deals with its own staging place only, and clears it whenever it can. */
  lemma StagingIsCleared(d: Disk, w: World, k: nat)
    requires Fresh(d.files, d.nextDir)
    ensures var r, f := Applied(d, w), RestoreForecast(d.files, d.faults, w);
            && (k != d.nextDir ==> Same(d.files, r.0.files, Staged(k)))
            && (Staged(d.nextDir) !in d.files && Staged(d.nextDir) in r.0.files ==> f.spent > 0 && At(d.faults, f.spent - 1).Breaks?)
  {
    if Applicable(d.files, w) && FirstBreak(d.faults, 3) == 3 {
      hide Applied, StagedAndSwapped, Removed, RestoreForecast, FirstBreak, Drop, At, Applicable;
      var e, source := d.(faults := Drop(d.faults, 3), nextDir := d.nextDir + 1), w.decode(d.files[Request]).source;
      var s := StagedAndSwapped(e, d.nextDir, source, w);
      FoundForetold(d, w);
      StagedThenRemoved(d, w);
      RemovedOp(s.0, Staged(d.nextDir));
      AtDrop(d.faults, RestoreForecast(d.files, d.faults, w).spent - 1, 0);
      if k != d.nextDir {
        StageKeepsStaged(e, d.nextDir, source, w, k);
        SameAlong(d.files, s.0.files, Applied(d, w).0.files, Staged(k));
      }
    } else {
      NothingStaged(d, w);
    }
  }

  lemma NothingStaged(d: Disk, w: World)
    requires !Applicable(d.files, w) || FirstBreak(d.faults, 3) < 3
    ensures Applied(d, w).0.files == d.files
  {
    ThreeLeft(d.faults);
    hide StagedAndSwapped, FirstBreak, Drop;
    var read := Read(d, Request).0;
    var bytes := Read(d, Request).2;
    var v := Verified(read, Backup(if w.decode(bytes).Wanted? then w.decode(bytes).source else ""), w.valid).0;
    Ticks(d);
    Ticks(read);
    Ticks(v);
    NextOps(d.faults);
  }

  /** The same for the whole start: a staged copy stays behind only when its own removal broke. */
  lemma StartClearsStaging(d: Disk, w: World, k: nat)
    requires Fresh(d.files, d.nextDir)
    ensures var after, f := Resolved(d, w).0.files, RestoreForecast(d.files, Drop(d.faults, 1), w);
            && (k != d.nextDir ==> Same(d.files, after, Staged(k)))
            && (Staged(d.nextDir) !in d.files && Staged(d.nextDir) in after ==> At(d.faults, f.spent).Breaks?)
  {
    hide Applied, Resolved, At, Drop, RestoreForecast, Inspected, Fresh;
    var d1 := Inspected(d, Request).0;
    InspectedTicks(d);
    StagingIsCleared(d1, w, k);
    StagedStay(d, w, k);
    StagedStay(d, w, d.nextDir);
    var f := RestoreForecast(d.files, Drop(d.faults, 1), w);
    if f.spent > 0 { AtDrop(d.faults, 1, f.spent - 1); }
  }

  /** What follows the restore leaves staged copies alone. */
  lemma StagedStay(d: Disk, w: World, k: nat)
    ensures var r, after := Applied(Inspected(d, Request).0, w).0.files, Resolved(d, w).0.files;
            Same(r, after, Staged(k)) || after == d.files
  {
    var r := Applied(Inspected(d, Request).0, w).0;
    CleanupLeaves(r);
    RecordingLeaves(r, w);
    hide Applied, Recording, Removed, At, Drop;
  }
}
