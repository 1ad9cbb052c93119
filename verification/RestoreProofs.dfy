/** What a scheduled restore guarantees for every pattern of file errors and every crash. */
module RestoreProofs {
  import opened Common
  import opened Restore

  // ----- The states a restore goes through

  ghost predicate Same(orig: Files, h: Files, p: Path) {
    (p in orig <==> p in h) && (p in orig && p in h ==> h[p] == orig[p])
  }

  /** The paths a restore with this recovery directory leaves alone: backups, records and earlier recovery copies. */
  predicate Aside(p: Path, dir: nat) {
    !p.Staged? && !p.Live? && !(p.Recovery? && p.dir == dir)
  }

  ghost predicate Saved(orig: Files, h: Files, dir: nat, s: Suffix) {
    Live(s) in orig && Recovery(dir, s) in h && h[Recovery(dir, s)] == orig[Live(s)]
  }

  /** Before the copy is installed: the suffixes in moved are in the recovery directory, the others where they were. */
  ghost predicate Holds(orig: Files, h: Files, dir: nat, moved: set<Suffix>) {
    && (forall p :: Aside(p, dir) ==> Same(orig, h, p))
    && (forall s :: if s in moved then Saved(orig, h, dir, s) && Live(s) !in h else Same(orig, h, Live(s)) && Recovery(dir, s) !in h)
  }

  /** The copy is the only live file, and every original is in the recovery directory. */
  ghost predicate Installed(orig: Files, h: Files, dir: nat, copy: Content) {
    && (forall p :: Aside(p, dir) && p != Request ==> Same(orig, h, p))
    && (Same(orig, h, Request) || Request !in h)
    && (forall s :: Live(s) in orig ==> Saved(orig, h, dir, s))
    && (forall s :: Live(s) !in orig ==> Recovery(dir, s) !in h)
    && Live(Main) in h && h[Live(Main)] == copy && Live(Wal) !in h && Live(Shm) !in h
  }

  /** A state in which a crash may leave the disk. */
  ghost predicate InFlight(orig: Files, h: Files, dir: nat, copy: Content) {
    (exists moved: set<Suffix> :: Holds(orig, h, dir, moved)) || Installed(orig, h, dir, copy)
  }

  /** Every state the journal gained since its first n ones. */
  ghost predicate Gained(j: seq<Files>, n: nat, orig: Files, dir: nat, copy: Content) {
    n <= |j| && forall i :: n <= i < |j| ==> InFlight(orig, j[i], dir, copy)
  }

  /** Every original file is still at its live path, or in some recovery directory. */
  ghost predicate Kept(orig: Files, h: Files) {
    forall s :: Live(s) in orig ==> (Live(s) in h && h[Live(s)] == orig[Live(s)]) || exists dir: nat :: Saved(orig, h, dir, s)
  }

  lemma InFlightKeeps(orig: Files, h: Files, dir: nat, copy: Content)
    requires InFlight(orig, h, dir, copy)
    ensures Kept(orig, h)
  {
    if moved: set<Suffix> :| Holds(orig, h, dir, moved) {
      forall s | Live(s) in orig && s !in moved ensures Live(s) in h && h[Live(s)] == orig[Live(s)] {
        assert Same(orig, h, Live(s));
      }
    }
  }

  /** No recovery directory with this or a higher number holds anything yet. */
  ghost predicate Fresh(h: Files, n: nat) {
    forall k: nat, s :: k >= n ==> Recovery(k, s) !in h
  }

  // ----- Rollback

  lemma RenameBack(orig: Files, h: Files, dir: nat, moved: set<Suffix>, s: Suffix)
    requires Holds(orig, h, dir, moved) && s in moved
    ensures var next := (h - {Recovery(dir, s)})[Live(s) := h[Recovery(dir, s)]]; Holds(orig, next, dir, moved - {s})
  {
    var next := (h - {Recovery(dir, s)})[Live(s) := h[Recovery(dir, s)]];
    assert Saved(orig, h, dir, s);
    forall p | Aside(p, dir) ensures Same(orig, next, p) { assert Same(orig, h, p); }
    forall t ensures if t in moved - {s} then Saved(orig, next, dir, t) && Live(t) !in next else Same(orig, next, Live(t)) && Recovery(dir, t) !in next {
      if t !in moved { assert Same(orig, h, Live(t)); }
      if t in moved && t != s { assert Saved(orig, h, dir, t); }
    }
  }

  function Set(moved: seq<Suffix>): set<Suffix> {
    set s | s in moved
  }

  predicate Distinct(moved: seq<Suffix>) {
    forall i, j :: 0 <= i < j < |moved| ==> moved[i] != moved[j]
  }

  /** Rolling back puts each listed file back whose rename works; when all do, nothing stays moved. */
  lemma {:induction false} RollbackHolds(orig: Files, d: Disk, dir: nat, list: seq<Suffix>, moved: set<Suffix>, n: nat, copy: Content)
    returns (left: set<Suffix>)
    requires Holds(orig, d.files, dir, moved) && Distinct(list) && Set(list) <= moved && Gained(d.journal, n, orig, dir, copy)
    ensures var r := RolledBack(d, dir, list);
            && Holds(orig, r.0.files, dir, left) && Gained(r.0.journal, n, orig, dir, copy)
            && (r.1 <==> left == moved - Set(list)) && moved - Set(list) <= left
    decreases |list|
  {
    left := moved;
    if list != [] {
      var s, rest := list[|list| - 1], list[..|list| - 1];
      assert s in Set(list);
      assert Set(list) == Set(rest) + {s} && s !in rest;
      var r := Renamed(d, Recovery(dir, s), Live(s));
      if r.1 {
        RenameBack(orig, d.files, dir, moved, s);
        assert InFlight(orig, r.0.files, dir, copy);
        left := RollbackHolds(orig, r.0, dir, rest, moved - {s}, n, copy);
      } else {
        left := RollbackHolds(orig, r.0, dir, rest, moved, n, copy);
      }
    }
  }

  // ----- Moving the live files away

  lemma RenameAway(orig: Files, h: Files, dir: nat, moved: set<Suffix>, s: Suffix)
    requires Holds(orig, h, dir, moved) && s !in moved && Live(s) in h
    ensures var next := (h - {Live(s)})[Recovery(dir, s) := h[Live(s)]]; Holds(orig, next, dir, moved + {s})
  {
    var next := (h - {Live(s)})[Recovery(dir, s) := h[Live(s)]];
    assert Same(orig, h, Live(s));
    forall p | Aside(p, dir) ensures Same(orig, next, p) { assert Same(orig, h, p); }
    forall t ensures if t in moved + {s} then Saved(orig, next, dir, t) && Live(t) !in next else Same(orig, next, Live(t)) && Recovery(dir, t) !in next {
      if t !in moved { assert Same(orig, h, Live(t)); }
      if t in moved && t != s { assert Saved(orig, h, dir, t); }
    }
  }

  /** The suffixes still to come are where they were; those before are moved, or were never there. */
  ghost predicate Moving(orig: Files, h: Files, dir: nat, todo: seq<Suffix>, moved: seq<Suffix>) {
    && Distinct(moved) && Distinct(todo) && (forall s :: s in todo ==> s !in moved)
    && Holds(orig, h, dir, Set(moved))
    && (forall s :: s !in todo && s !in moved ==> Live(s) !in orig)
  }

  lemma {:induction false} MoveHolds(orig: Files, d: Disk, dir: nat, todo: seq<Suffix>, moved: seq<Suffix>, n: nat, copy: Content)
    requires Moving(orig, d.files, dir, todo, moved) && Gained(d.journal, n, orig, dir, copy)
    ensures var r := MovedAway(d, dir, todo, moved);
            && Distinct(r.1) && Holds(orig, r.0.files, dir, Set(r.1)) && Gained(r.0.journal, n, orig, dir, copy)
            && (r.2 ==> forall s :: s !in r.1 ==> Live(s) !in orig)
            && (d.faults == [] ==> r.2 && r.0.faults == [])
            && (forall p: Path :: p.Staged? ==> Same(d.files, r.0.files, p))
    decreases |todo|
  {
    if todo != [] {
      var s, rest := todo[0], todo[1..];
      forall t | t in rest ensures t in todo {}
      assert todo == [s] + rest;
      var i := Inspected(d, Live(s));
      assert Same(orig, d.files, Live(s));
      if i.1.Missing? {
        MoveHolds(orig, i.0, dir, rest, moved, n, copy);
      } else if i.1.Present? {
        var r := Renamed(i.0, Live(s), Recovery(dir, s));
        if r.1 {
          RenameAway(orig, d.files, dir, Set(moved), s);
          assert Set(moved + [s]) == Set(moved) + {s};
          assert InFlight(orig, r.0.files, dir, copy);
          MoveHolds(orig, r.0, dir, rest, moved + [s], n, copy);
        }
      }
    }
  }

  // ----- Installing the copy

  lemma InstallHolds(orig: Files, h: Files, dir: nat, moved: set<Suffix>, stage: nat)
    requires Holds(orig, h, dir, moved) && Staged(stage) in h && forall s :: s !in moved ==> Live(s) !in orig
    ensures var next := (h - {Staged(stage)})[Live(Main) := h[Staged(stage)]];
            Installed(orig, next, dir, h[Staged(stage)]) && Same(orig, next, Request)
  {
    var next := (h - {Staged(stage)})[Live(Main) := h[Staged(stage)]];
    forall p | Aside(p, dir) ensures Same(orig, next, p) { assert Same(orig, h, p); }
    assert Aside(Request, dir);
    forall s ensures Live(s) !in h && (Live(s) in orig ==> Saved(orig, next, dir, s)) && (Live(s) !in orig ==> Recovery(dir, s) !in next) {
      if s in moved { assert Saved(orig, h, dir, s); } else { assert Same(orig, h, Live(s)); }
    }
  }

  lemma RequestGone(orig: Files, h: Files, dir: nat, copy: Content)
    requires Installed(orig, h, dir, copy)
    ensures Installed(orig, h - {Request}, dir, copy)
  {
    var next := h - {Request};
    forall p | Aside(p, dir) && p != Request ensures Same(orig, next, p) { assert Same(orig, h, p); }
    forall s | Live(s) in orig ensures Saved(orig, next, dir, s) { assert Saved(orig, h, dir, s); }
  }

  /** Writing or deleting a staged copy changes nothing else. */
  lemma StagedAsideInstalled(orig: Files, h: Files, next: Files, dir: nat, copy: Content)
    requires Installed(orig, h, dir, copy) && forall p: Path :: !p.Staged? ==> Same(h, next, p)
    ensures Installed(orig, next, dir, copy)
  {
    forall p | Aside(p, dir) && p != Request ensures Same(orig, next, p) { assert Same(orig, h, p) && Same(h, next, p); }
    assert Same(h, next, Request);
    forall s ensures Same(h, next, Live(s)) && Same(h, next, Recovery(dir, s)) {}
    forall s | Live(s) in orig ensures Saved(orig, next, dir, s) { assert Saved(orig, h, dir, s); }
  }

  lemma StagedAsideHolds(orig: Files, h: Files, next: Files, dir: nat, moved: set<Suffix>)
    requires Holds(orig, h, dir, moved) && forall p: Path :: !p.Staged? ==> Same(h, next, p)
    ensures Holds(orig, next, dir, moved)
  {
    forall p | Aside(p, dir) ensures Same(orig, next, p) { assert Same(orig, h, p) && Same(h, next, p); }
    forall s ensures Same(h, next, Live(s)) && Same(h, next, Recovery(dir, s)) {}
    forall s | s in moved ensures Saved(orig, next, dir, s) { assert Saved(orig, h, dir, s); }
    forall s | s !in moved ensures Same(orig, next, Live(s)) { assert Same(orig, h, Live(s)); }
  }

  // ----- What each result says about the disk

  /** dir: where the originals may be. */
  ghost predicate Meaning(result: Result, orig: Files, h: Files, dir: nat, copy: Content) {
    match result
    case NoRequest => h == orig && Request !in orig
    case Restored => Installed(orig, h, dir, copy) && Request !in h
    case CleanupFailed => Installed(orig, h, dir, copy) && Same(orig, h, Request)
    case Refused => Holds(orig, h, dir, {})
    case RollbackFailed => exists moved: set<Suffix> :: moved != {} && Holds(orig, h, dir, moved)
  }

  lemma UndoMeans(orig: Files, d: Disk, dir: nat, moved: seq<Suffix>, n: nat, copy: Content)
    requires Holds(orig, d.files, dir, Set(moved)) && Distinct(moved) && Gained(d.journal, n, orig, dir, copy)
    ensures var r := Undone(d, dir, moved);
            (r.1.Refused? || r.1.RollbackFailed?) && Meaning(r.1, orig, r.0.files, dir, copy) && Gained(r.0.journal, n, orig, dir, copy)
  {
    var left := RollbackHolds(orig, d, dir, moved, Set(moved), n, copy);
  }

  lemma SwapMeans(orig: Files, d: Disk, stage: nat, dir: nat, n: nat)
    requires Holds(orig, d.files, dir, {}) && Staged(stage) in d.files && Gained(d.journal, n, orig, dir, d.files[Staged(stage)])
    ensures var r, copy := Swapped(d, stage, dir), d.files[Staged(stage)];
            && Meaning(r.1, orig, r.0.files, dir, copy) && Gained(r.0.journal, n, orig, dir, copy)
            && !r.1.NoRequest?
            && (d.faults == [] && Request in orig ==> r.1.Restored? && r.0.faults == [])
  {
    var copy := d.files[Staged(stage)];
    assert Set([]) == {};
    EverySuffix();
    MoveHolds(orig, d, dir, SUFFIXES, [], n, copy);
    var m := MovedAway(d, dir, SUFFIXES, []);
    assert Same(d.files, m.0.files, Staged(stage));
    if !m.2 {
      UndoMeans(orig, m.0, dir, m.1, n, copy);
    } else {
      var i := Renamed(m.0, Staged(stage), Live(Main));
      if !i.1 {
        UndoMeans(orig, i.0, dir, m.1, n, copy);
      } else {
        InstallHolds(orig, m.0.files, dir, Set(m.1), stage);
        assert InFlight(orig, i.0.files, dir, copy);
        RequestGone(orig, i.0.files, dir, copy);
        assert Same(orig, i.0.files, Request);
        assert Removed(i.0, Request).1.Present? ==> InFlight(orig, Removed(i.0, Request).0.files, dir, copy);
      }
    }
  }

  lemma EverySuffix()
    ensures forall s: Suffix :: s in SUFFIXES
  {
    assert SUFFIXES[0] == Main && SUFFIXES[1] == Wal && SUFFIXES[2] == Shm;
    forall s: Suffix ensures s in SUFFIXES {
      match s case Main => case Wal => case Shm =>
    }
  }

  lemma FreshHolds(orig: Files, dir: nat)
    requires Fresh(orig, dir)
    ensures Holds(orig, orig, dir, {})
  {
  }

  /** The copy the request asks for, as it is on the disk before the restore. */
  ghost predicate Asks(orig: Files, w: World, copy: Content) {
    && Request in orig && w.decode(orig[Request]).Wanted?
    && Backup(w.decode(orig[Request]).source) in orig && orig[Backup(w.decode(orig[Request]).source)] == copy
    && w.valid(copy)
  }

  lemma StagedMeans(orig: Files, d: Disk, stage: nat, source: string, w: World, n: nat)
    requires d.files == orig && Fresh(orig, d.nextDir) && Backup(source) in orig && w.valid(orig[Backup(source)])
    requires Gained(d.journal, n, orig, d.nextDir, orig[Backup(source)])
    ensures var r, copy := StagedAndSwapped(d, stage, source, w), orig[Backup(source)];
            && !r.1.NoRequest? && Meaning(r.1, orig, r.0.files, d.nextDir, copy) && Gained(r.0.journal, n, orig, d.nextDir, copy)
            && (d.faults == [] && Request in orig ==> r.1.Restored? && r.0.faults == [])
  {
    var copy := orig[Backup(source)];
    FreshHolds(orig, d.nextDir);
    var c := Copied(d, Backup(source), Staged(stage));
    StagedAsideHolds(orig, orig, c.0.files, d.nextDir, {});
    assert InFlight(orig, c.0.files, d.nextDir, copy);
    if c.1 {
      var v := Verified(c.0, Staged(stage), w.valid);
      if v.1 && TempDir(v.0).1.Some? {
        SwapMeans(orig, TempDir(v.0).0, stage, d.nextDir, n);
      }
    }
  }

  /** Removing the staged copy, if it is still there, leaves the meaning of the result as it is. */
  lemma CleanedUp(orig: Files, d: Disk, stage: nat, result: Result, dir: nat, n: nat, copy: Content)
    requires Meaning(result, orig, d.files, dir, copy) && !result.NoRequest? && Gained(d.journal, n, orig, dir, copy)
    ensures var c := Removed(d, Staged(stage)).0; Meaning(result, orig, c.files, dir, copy) && Gained(c.journal, n, orig, dir, copy)
  {
    var c := Removed(d, Staged(stage)).0;
    forall p: Path | !p.Staged? ensures Same(d.files, c.files, p) {}
    match result {
      case Restored => StagedAsideInstalled(orig, d.files, c.files, dir, copy);
      case CleanupFailed => StagedAsideInstalled(orig, d.files, c.files, dir, copy);
      case Refused => StagedAsideHolds(orig, d.files, c.files, dir, {});
      case RollbackFailed =>
        var moved: set<Suffix> :| moved != {} && Holds(orig, d.files, dir, moved);
        StagedAsideHolds(orig, d.files, c.files, dir, moved);
    }
    assert InFlight(orig, c.files, dir, copy);
  }

  lemma NothingGained(j: seq<Files>, orig: Files, dir: nat, copy: Content)
    ensures Gained(j, |j|, orig, dir, copy)
  {
  }

  /** Where the originals go in a restore of this disk. */
  function RecoveryDir(d: Disk): nat {
    d.nextDir + 1
  }

  ghost predicate Concludes(d: Disk, r: (Disk, Result), w: World, copy: Content) {
    && Meaning(r.1, d.files, r.0.files, RecoveryDir(d), copy)
    && Gained(r.0.journal, |d.journal|, d.files, RecoveryDir(d), copy)
    && (r.1.Restored? || r.1.CleanupFailed? ==> Asks(d.files, w, copy))
    && (d.faults == [] && Asks(d.files, w, copy) ==> r.1.Restored?)
  }

  lemma EarlyEnd(d: Disk, after: Disk, result: Result, w: World, copy: Content)
    requires Fresh(d.files, d.nextDir) && after.files == d.files && after.journal == d.journal
    requires result.Refused? || (result.NoRequest? && Request !in d.files)
    requires d.faults == [] ==> !Asks(d.files, w, copy)
    ensures Concludes(d, (after, result), w, copy)
  {
    FreshHolds(d.files, RecoveryDir(d));
    NothingGained(d.journal, d.files, RecoveryDir(d), copy);
  }

  lemma LateEnd(d: Disk, d3: Disk, source: string, w: World, copy: Content)
    requires Fresh(d.files, d.nextDir) && d3.files == d.files && d3.journal == d.journal && d3.nextDir == RecoveryDir(d)
    requires Asks(d.files, w, copy) && source == w.decode(d.files[Request]).source && (d.faults == [] ==> d3.faults == [])
    ensures var s := StagedAndSwapped(d3, d.nextDir, source, w); Concludes(d, (Removed(s.0, Staged(d.nextDir)).0, s.1), w, copy)
  {
    NothingGained(d.journal, d.files, RecoveryDir(d), copy);
    StagedMeans(d.files, d3, d.nextDir, source, w, |d.journal|);
    hide StagedAndSwapped, Meaning, Gained, Removed;
    var s := StagedAndSwapped(d3, d.nextDir, source, w);
    CleanedUp(d.files, s.0, d.nextDir, s.1, RecoveryDir(d), |d.journal|, copy);
  }

  /** For every pattern of errors: what the result says, and what a crash would have left at any moment. */
  lemma RestoreMeans(d: Disk, w: World, copy: Content)
    requires Fresh(d.files, d.nextDir)
    requires Asks(d.files, w, copy) || (forall c: Content :: !Asks(d.files, w, c))
    ensures Concludes(d, Applied(d, w), w, copy)
  {
    hide StagedAndSwapped, Concludes, Removed, Fresh;
    var read := Read(d, Request);
    if !read.1.Present? || !w.decode(read.2).Wanted? {
      EarlyEnd(d, read.0, Applied(d, w).1, w, copy);
    } else {
      var source := w.decode(read.2).source;
      var v := Verified(read.0, Backup(source), w.valid);
      if !v.1 {
        EarlyEnd(d, v.0, Refused, w, copy);
      } else {
        assert Asks(d.files, w, d.files[Backup(source)]);
        var stage := TempDir(v.0);
        if stage.1.None? {
          EarlyEnd(d, stage.0, Refused, w, copy);
        } else {
          LateEnd(d, stage.0, source, w, copy);
        }
      }
    }
  }

  // ----- The results

  /** The live files are exactly as they were found. */
  ghost predicate Untouched(orig: Files, h: Files) {
    forall s :: Same(orig, h, Live(s))
  }

  /** The live database is the copy, without sidecars. */
  ghost predicate IsCopy(h: Files, copy: Content) {
    Live(Main) in h && h[Live(Main)] == copy && Live(Wal) !in h && Live(Shm) !in h
  }

  /** A restore installs the verified copy the request asked for, leaves the live files exactly as found, or says that
      they could not all be put back. */
  lemma OutcomeIsHonest(d: Disk, w: World)
    requires Fresh(d.files, d.nextDir)
    ensures var (after, result) := Applied(d, w);
            match result
            case NoRequest => Untouched(d.files, after.files)
            case Refused => Untouched(d.files, after.files)
            case Restored => Request !in after.files && exists copy :: Asks(d.files, w, copy) && IsCopy(after.files, copy)
            case CleanupFailed => exists copy :: Asks(d.files, w, copy) && IsCopy(after.files, copy)
            case RollbackFailed => Kept(d.files, after.files) && !Untouched(d.files, after.files)
  {
    var copy := CopyOf(d.files, w);
    RestoreMeans(d, w, copy);
    var r := Applied(d, w);
    if r.1.RollbackFailed? {
      NotPutBack(d.files, r.0.files, RecoveryDir(d));
      InFlightKeeps(d.files, r.0.files, RecoveryDir(d), copy);
    }
    if r.1.Refused? {
      forall s ensures Same(d.files, r.0.files, Live(s)) {}
    }
  }

  lemma NotPutBack(orig: Files, h: Files, dir: nat)
    requires exists moved: set<Suffix> :: moved != {} && Holds(orig, h, dir, moved)
    ensures !Untouched(orig, h)
  {
    var moved: set<Suffix> :| moved != {} && Holds(orig, h, dir, moved);
    var s :| s in moved;
    assert Saved(orig, h, dir, s) && !Same(orig, h, Live(s));
  }

  ghost function CopyOf(orig: Files, w: World): (copy: Content)
    ensures Asks(orig, w, copy) || forall c: Content :: !Asks(orig, w, c)
  {
    if exists c: Content :: Asks(orig, w, c) then (var c: Content :| Asks(orig, w, c); c) else ""
  }

  /** Whatever the errors, and at whatever moment the power fails, no original file is lost. */
  lemma CrashLosesNothing(d: Disk, w: World, i: nat)
    requires Fresh(d.files, d.nextDir)
    requires |d.journal| <= i < |Applied(d, w).0.journal|
    ensures Kept(d.files, Applied(d, w).0.journal[i])
  {
    var copy := CopyOf(d.files, w);
    RestoreMeans(d, w, copy);
    hide Applied;
    InFlightKeeps(d.files, Applied(d, w).0.journal[i], RecoveryDir(d), copy);
  }

  /** Like Kept, with recovery directories created so far. */
  ghost predicate KeptBelow(orig: Files, h: Files, n: nat) {
    forall s :: Live(s) in orig ==> (Live(s) in h && h[Live(s)] == orig[Live(s)]) || SavedBelow(orig, h, n, s)
  }

  ghost predicate SavedBelow(orig: Files, h: Files, n: nat, s: Suffix) {
    exists dir: nat :: dir < n && Saved(orig, h, dir, s)
  }

  lemma StillSaved(orig: Files, h: Files, next: Files, n: nat, dir: nat, copy: Content, s: Suffix)
    requires InFlight(h, next, dir, copy) && n <= dir && Live(s) in orig
    requires (Live(s) in h && h[Live(s)] == orig[Live(s)]) || SavedBelow(orig, h, n, s)
    ensures (Live(s) in next && next[Live(s)] == orig[Live(s)]) || SavedBelow(orig, next, dir + 1, s)
  {
    if SavedBelow(orig, h, n, s) {
      var k: nat :| k < n && Saved(orig, h, k, s);
      assert Aside(Recovery(k, s), dir);
      assert Same(h, next, Recovery(k, s));
      assert Saved(orig, next, k, s);
    } else if moved: set<Suffix> :| Holds(h, next, dir, moved) {
      if s in moved { assert Saved(h, next, dir, s) && Saved(orig, next, dir, s); } else { assert Same(h, next, Live(s)); }
    } else {
      assert Saved(h, next, dir, s) && Saved(orig, next, dir, s);
    }
  }

  lemma StillKept(orig: Files, h: Files, next: Files, n: nat, copy: Content)
    requires InFlight(h, next, n + 1, copy) && KeptBelow(orig, h, n)
    ensures KeptBelow(orig, next, n + 2)
  {
    forall s | Live(s) in orig ensures (Live(s) in next && next[Live(s)] == orig[Live(s)]) || SavedBelow(orig, next, n + 2, s) {
      StillSaved(orig, h, next, n, n + 1, copy, s);
    }
  }

  lemma StillFresh(h: Files, next: Files, dir: nat, copy: Content)
    requires dir > 0 && Fresh(h, dir - 1) && InFlight(h, next, dir, copy)
    ensures Fresh(next, dir + 1)
  {
    forall k: nat, s | k >= dir + 1 ensures Recovery(k, s) !in next {
      assert Aside(Recovery(k, s), dir);
      assert Same(h, next, Recovery(k, s));
    }
  }

  // ----- Crash and restart, as often as it takes

  /** One start of the app: how its file operations will go, and after how many changes the power fails. */
  datatype Boot = Boot(faults: seq<Fault>, crash: nat)

  function Booting(files: Files, nextDir: nat, faults: seq<Fault>): Disk {
    Disk(files, nextDir, faults, [])
  }

  /** The files after a start that ran to its end or was cut off, wherever it was: in the restore, in the cleanup after
      it, or in the recording of its failure. */
  function AfterBoot(files: Files, nextDir: nat, boot: Boot, w: World): Files {
    var after := Resolved(Booting(files, nextDir, boot.faults), w).0;
    if boot.crash == 0 then files
    else if boot.crash <= |after.journal| then after.journal[boot.crash - 1]
    else after.files
  }

  function AfterBoots(files: Files, nextDir: nat, boots: seq<Boot>, w: World): Files
    decreases |boots|
  {
    if boots == [] then files else AfterBoots(AfterBoot(files, nextDir, boots[0], w), nextDir + 2, boots[1..], w)
  }

  /** h has the live files, recovery copies and backups of m, and its request or none. */
  ghost predicate Carries(m: Files, h: Files) {
    && (forall p: Path :: p.Live? || p.Recovery? || p.Backup? ==> Same(m, h, p))
    && (Request in h ==> Same(m, h, Request))
  }

  ghost predicate Through(orig: Files, m: Files, h: Files, dir: nat, copy: Content) {
    InFlight(orig, m, dir, copy) && Carries(m, h)
  }

  /** A request that is gone was carried out, or its failure is on record and the database untouched. */
  ghost predicate Settled(orig: Files, h: Files, copy: Content) {
    Request !in h ==> IsCopy(h, copy) || (Untouched(orig, h) && FailureRecord in h)
  }

  /** A state in which a start may leave the disk. */
  ghost predicate BootState(orig: Files, h: Files, dir: nat, w: World, copy: Content) {
    (exists m: Files :: Through(orig, m, h, dir, copy)) && (Asks(orig, w, copy) ==> Settled(orig, h, copy))
  }

  ghost predicate BootStates(j: seq<Files>, n: nat, orig: Files, dir: nat, w: World, copy: Content) {
    n <= |j| && forall i :: n <= i < |j| ==> BootState(orig, j[i], dir, w, copy)
  }

  lemma InFlightIsBootState(orig: Files, h: Files, dir: nat, w: World, copy: Content)
    requires InFlight(orig, h, dir, copy)
    ensures BootState(orig, h, dir, w, copy)
  {
    if Asks(orig, w, copy) { StillAsks(orig, h, dir, w, copy); }
    assert Carries(h, h);
    assert Through(orig, h, h, dir, copy);
  }

  lemma GainedAreBootStates(j: seq<Files>, n: nat, orig: Files, dir: nat, w: World, copy: Content)
    requires Gained(j, n, orig, dir, copy)
    ensures BootStates(j, n, orig, dir, w, copy)
  {
    forall i | n <= i < |j| ensures BootState(orig, j[i], dir, w, copy) {
      InFlightIsBootState(orig, j[i], dir, w, copy);
    }
  }

  /** What is known once the restore itself is over and its outcome is dealt with. */
  ghost predicate Dealt(result: Result, orig: Files, m: Files, dir: nat, w: World, copy: Content) {
    && InFlight(orig, m, dir, copy)
    && match result
       case NoRequest => Request !in orig
       case Restored => IsCopy(m, copy)
       case CleanupFailed => IsCopy(m, copy)
       case Refused => Untouched(orig, m) && (Request in orig ==> Request in m)
       case RollbackFailed => true
  }

  lemma MeaningDeals(result: Result, orig: Files, m: Files, dir: nat, w: World, copy: Content)
    requires Meaning(result, orig, m, dir, copy) && Fresh(orig, dir)
    ensures Dealt(result, orig, m, dir, w, copy)
  {
    FreshHolds(orig, dir);
    if result.Refused? { assert Aside(Request, dir) && Same(orig, m, Request); }
  }

  lemma StillCopy(m: Files, h: Files, copy: Content)
    requires IsCopy(m, copy) && Carries(m, h)
    ensures IsCopy(h, copy)
  {
    assert Same(m, h, Live(Main)) && Same(m, h, Live(Wal)) && Same(m, h, Live(Shm));
  }

  lemma StillUntouched(orig: Files, m: Files, h: Files)
    requires Untouched(orig, m) && Carries(m, h)
    ensures Untouched(orig, h)
  {
    forall s ensures Same(orig, h, Live(s)) { assert Same(orig, m, Live(s)) && Same(m, h, Live(s)); }
  }

  lemma CarriedIsBootState(result: Result, orig: Files, m: Files, h: Files, dir: nat, w: World, copy: Content)
    requires Dealt(result, orig, m, dir, w, copy) && !result.RollbackFailed? && Carries(m, h)
    requires result.Refused? && Request !in h && Request in orig ==> FailureRecord in h
    ensures BootState(orig, h, dir, w, copy)
  {
    assert Through(orig, m, h, dir, copy);
    if Asks(orig, w, copy) && Request !in h {
      if result.Refused? { StillUntouched(orig, m, h); } else { StillCopy(m, h, copy); }
    }
  }

  lemma CleanupStates(result: Result, orig: Files, d: Disk, dir: nat, w: World, copy: Content, n: nat)
    requires Dealt(result, orig, d.files, dir, w, copy) && (result.NoRequest? || result.Restored?)
    requires BootStates(d.journal, n, orig, dir, w, copy)
    ensures var e := Removed(Removed(d, SourceIndex).0, FailureRecord).0;
            BootState(orig, e.files, dir, w, copy) && BootStates(e.journal, n, orig, dir, w, copy)
  {
    var d1 := Removed(d, SourceIndex).0;
    var e := Removed(d1, FailureRecord).0;
    assert Carries(d.files, d1.files) && Carries(d.files, e.files);
    hide BootState, Dealt, Carries;
    CarriedIsBootState(result, orig, d.files, d1.files, dir, w, copy);
    CarriedIsBootState(result, orig, d.files, e.files, dir, w, copy);
  }

  lemma RecordingStates(result: Result, orig: Files, d: Disk, dir: nat, w: World, copy: Content, n: nat)
    requires Dealt(result, orig, d.files, dir, w, copy) && (result.Refused? || result.CleanupFailed?)
    requires BootStates(d.journal, n, orig, dir, w, copy)
    ensures var e := Recording(d, w).0;
            BootState(orig, e.files, dir, w, copy) && BootStates(e.journal, n, orig, dir, w, copy)
  {
    var d1 := Written(Read(d, Request).0, FailureRecord, w.record).0;
    var e := Recording(d, w).0;
    assert Carries(d.files, d1.files) && Carries(d.files, e.files);
    assert FailureRecord in d1.files && FailureRecord in e.files;
    hide BootState, Dealt, Carries;
    CarriedIsBootState(result, orig, d.files, d1.files, dir, w, copy);
    CarriedIsBootState(result, orig, d.files, e.files, dir, w, copy);
  }

  /** Every state of a start, for every pattern of errors. */
  lemma StartStates(d: Disk, w: World, copy: Content)
    requires Fresh(d.files, d.nextDir)
    requires Asks(d.files, w, copy) || (forall c: Content :: !Asks(d.files, w, c))
    ensures var e := Resolved(d, w).0;
            && BootState(d.files, e.files, RecoveryDir(d), w, copy)
            && BootStates(e.journal, |d.journal|, d.files, RecoveryDir(d), w, copy)
  {
    hide Applied, Recording, Removed, BootState, BootStates, Gained, Meaning, Fresh, InFlight, Holds;
    var d1 := Inspected(d, Request).0;
    RestoreMeans(d1, w, copy);
    var r := Applied(d1, w);
    var dir := RecoveryDir(d);
    FreshLater(d.files, d.nextDir);
    NothingPassed(d.files, dir, w, copy, d.journal);
    MeaningDeals(r.1, d.files, r.0.files, dir, w, copy);
    GainedAreBootStates(r.0.journal, |d.journal|, d.files, dir, w, copy);
    match r.1
    case NoRequest => CleanupStates(r.1, d.files, r.0, dir, w, copy, |d.journal|);
    case Restored => CleanupStates(r.1, d.files, r.0, dir, w, copy, |d.journal|);
    case RollbackFailed => InFlightIsBootState(d.files, r.0.files, dir, w, copy);
    case Refused => RecordingStates(r.1, d.files, r.0, dir, w, copy, |d.journal|);
    case CleanupFailed => RecordingStates(r.1, d.files, r.0, dir, w, copy, |d.journal|);
  }

  lemma FreshLater(h: Files, n: nat)
    requires Fresh(h, n)
    ensures Fresh(h, n + 1)
  {
  }

  lemma NothingPassed(files: Files, dir: nat, w: World, copy: Content, j: seq<Files>)
    requires Fresh(files, dir)
    ensures BootState(files, files, dir, w, copy) && BootStates(j, |j|, files, dir, w, copy)
  {
    FreshHolds(files, dir);
    InFlightIsBootState(files, files, dir, w, copy);
  }

  lemma AfterBootState(files: Files, nextDir: nat, boot: Boot, w: World)
    requires Fresh(files, nextDir)
    ensures BootState(files, AfterBoot(files, nextDir, boot, w), nextDir + 1, w, CopyOf(files, w))
  {
    hide Resolved, BootState, Fresh;
    var d, copy := Booting(files, nextDir, boot.faults), CopyOf(files, w);
    StartStates(d, w, copy);
    FreshLater(files, nextDir);
    NothingPassed(files, nextDir + 1, w, copy, []);
  }

  lemma CarriedKeeps(orig: Files, m: Files, h: Files, n: nat)
    requires KeptBelow(orig, m, n) && Carries(m, h)
    ensures KeptBelow(orig, h, n)
  {
    forall s | Live(s) in orig ensures (Live(s) in h && h[Live(s)] == orig[Live(s)]) || SavedBelow(orig, h, n, s) {
      assert Same(m, h, Live(s));
      if SavedBelow(orig, m, n, s) {
        var k: nat :| k < n && Saved(orig, m, k, s);
        assert Same(m, h, Recovery(k, s));
        assert Saved(orig, h, k, s);
      }
    }
  }

  lemma CarriedFresh(m: Files, h: Files, n: nat)
    requires Fresh(m, n) && Carries(m, h)
    ensures Fresh(h, n)
  {
    forall k: nat, s | k >= n ensures Recovery(k, s) !in h { assert Same(m, h, Recovery(k, s)); }
  }

  lemma BootKeeps(orig: Files, files: Files, next: Files, nextDir: nat, w: World, copy: Content)
    requires BootState(files, next, nextDir + 1, w, copy) && Fresh(files, nextDir) && KeptBelow(orig, files, nextDir)
    ensures Fresh(next, nextDir + 2) && KeptBelow(orig, next, nextDir + 2)
  {
    hide KeptBelow, InFlight, Fresh, Carries;
    var m: Files :| Through(files, m, next, nextDir + 1, copy);
    StillKept(orig, files, m, nextDir, copy);
    StillFresh(files, m, nextDir + 1, copy);
    CarriedKeeps(orig, m, next, nextDir + 2);
    CarriedFresh(m, next, nextDir + 2);
  }

  /** No original file is lost over any number of starts, each with its own errors and its own power failure. */
  lemma {:induction false} BootsLoseNothing(orig: Files, files: Files, nextDir: nat, boots: seq<Boot>, w: World)
    requires Fresh(files, nextDir) && KeptBelow(orig, files, nextDir)
    ensures Kept(orig, AfterBoots(files, nextDir, boots, w))
    decreases |boots|
  {
    if boots == [] {
      forall s | Live(s) in orig && SavedBelow(orig, files, nextDir, s) ensures exists dir: nat :: Saved(orig, files, dir, s) {}
    } else {
      hide AfterBoot, KeptBelow, BootState, Fresh;
      var next := AfterBoot(files, nextDir, boots[0], w);
      AfterBootState(files, nextDir, boots[0], w);
      BootKeeps(orig, files, next, nextDir, w, CopyOf(files, w));
      BootsLoseNothing(orig, next, nextDir + 2, boots[1..], w);
    }
  }

  lemma CarriedAsks(files: Files, h: Files, dir: nat, w: World, copy: Content)
    requires BootState(files, h, dir, w, copy) && Asks(files, w, copy) && Request in h
    ensures Asks(h, w, copy)
  {
    hide InFlight;
    var m: Files :| Through(files, m, h, dir, copy);
    StillAsks(files, m, dir, w, copy);
    assert Same(m, h, Request);
    assert Same(m, h, Backup(w.decode(h[Request]).source));
  }

  /** A start without errors on a request that can be carried out carries it out. */
  lemma CleanStart(h: Files, nextDir: nat, w: World, copy: Content)
    requires Fresh(h, nextDir) && Asks(h, w, copy)
    ensures var (after, outcome) := Resolved(Booting(h, nextDir, []), w);
            outcome.Replaced? && Request !in after.files && IsCopy(after.files, copy)
  {
    var d := Booting(h, nextDir, []);
    RestoreMeans(d, w, copy);
    hide Applied, Asks;
    var r := Applied(d, w);
    var e := Removed(Removed(r.0, SourceIndex).0, FailureRecord).0;
    assert Carries(r.0.files, e.files);
    StillCopy(r.0.files, e.files, copy);
  }

  /** After a start with any errors, cut off at any moment, on a request that could be carried out: if the request is
      still there, a start without errors installs the copy; if it is gone, the copy is installed already, or the
      failure is on record and the database untouched. */
  lemma RetryCompletes(files: Files, nextDir: nat, boot: Boot, w: World, copy: Content)
    requires Fresh(files, nextDir) && Asks(files, w, copy)
    ensures var h := AfterBoot(files, nextDir, boot, w);
            var (after, outcome) := Resolved(Booting(h, nextDir + 2, []), w);
            if Request in h then outcome.Replaced? && Request !in after.files && IsCopy(after.files, copy)
            else outcome.NothingPending? && after.files == h
                 && (IsCopy(h, copy) || (Untouched(files, h) && FailureRecord in h))
  {
    var h := AfterBoot(files, nextDir, boot, w);
    KeptAtFirst(files, nextDir);
    assert Settled(files, h, copy) && BootState(files, h, nextDir + 1, w, copy) by { AfterBootState(files, nextDir, boot, w); }
    BootKeeps(files, files, h, nextDir, w, copy);
    hide AfterBoot, BootState, Fresh;
    if Request in h {
      CarriedAsks(files, h, nextDir + 1, w, copy);
      CleanStart(h, nextDir + 2, w, copy);
    }
  }

  lemma NoNewRequest(files: Files, h: Files, dir: nat, w: World, copy: Content)
    requires BootState(files, h, dir, w, copy) && Request !in files
    ensures Request !in h
  {
    var m: Files :| Through(files, m, h, dir, copy);
    assert Aside(Request, dir);
    if moved: set<Suffix> :| Holds(files, m, dir, moved) { assert Same(files, m, Request); }
  }

  /** No start makes a request. */
  lemma {:induction false} NothingComesBack(files: Files, nextDir: nat, boots: seq<Boot>, w: World)
    requires Fresh(files, nextDir) && Request !in files
    ensures Request !in AfterBoots(files, nextDir, boots, w)
    decreases |boots|
  {
    if boots != [] {
      hide AfterBoot, BootState, Fresh, KeptBelow;
      var next := AfterBoot(files, nextDir, boots[0], w);
      AfterBootState(files, nextDir, boots[0], w);
      KeptAtFirst(files, nextDir);
      NoNewRequest(files, next, nextDir + 1, w, CopyOf(files, w));
      BootKeeps(files, files, next, nextDir, w, CopyOf(files, w));
      NothingComesBack(next, nextDir + 2, boots[1..], w);
    }
  }

  /** The i-th of these starts makes the request disappear, and then the copy is installed, or its failure is on record
      and the live files are as that start found them. */
  ghost predicate EndsRequest(files: Files, nextDir: nat, boots: seq<Boot>, i: nat, w: World, copy: Content)
    requires i < |boots|
  {
    var before := AfterBoots(files, nextDir, boots[..i], w);
    var after := AfterBoot(before, nextDir + 2 * i, boots[i], w);
    Request in before && Request !in after && Settled(before, after, copy)
  }

  ghost predicate RequestEnded(files: Files, nextDir: nat, boots: seq<Boot>, w: World, copy: Content) {
    exists i :: 0 <= i < |boots| && EndsRequest(files, nextDir, boots, i, w, copy)
  }

  lemma EndedAtFirst(files: Files, nextDir: nat, boots: seq<Boot>, w: World, copy: Content)
    requires boots != [] && Request in files
    requires var next := AfterBoot(files, nextDir, boots[0], w); Request !in next && Settled(files, next, copy)
    ensures RequestEnded(files, nextDir, boots, w, copy)
  {
    hide AfterBoot, Settled;
    assert AfterBoots(files, nextDir, boots[..0], w) == files;
    assert EndsRequest(files, nextDir, boots, 0, w, copy);
  }

  lemma EndedLater(files: Files, nextDir: nat, boots: seq<Boot>, w: World, copy: Content)
    requires boots != [] && RequestEnded(AfterBoot(files, nextDir, boots[0], w), nextDir + 2, boots[1..], w, copy)
    ensures RequestEnded(files, nextDir, boots, w, copy)
  {
    hide AfterBoot, Settled;
    var next := AfterBoot(files, nextDir, boots[0], w);
    var i: nat :| i < |boots[1..]| && EndsRequest(next, nextDir + 2, boots[1..], i, w, copy);
    assert boots[..i + 1][1..] == boots[1..][..i] && boots[..i + 1][0] == boots[0];
    assert EndsRequest(files, nextDir, boots, i + 1, w, copy);
  }

  /** The first of several starts on a request that can be carried out. */
  lemma FirstBoot(files: Files, nextDir: nat, boot: Boot, w: World, copy: Content)
    requires Fresh(files, nextDir) && Asks(files, w, copy)
    ensures var next := AfterBoot(files, nextDir, boot, w);
            && Request in files && Settled(files, next, copy) && Fresh(next, nextDir + 2)
            && (Request in next ==> Asks(next, w, copy))
  {
    var next := AfterBoot(files, nextDir, boot, w);
    KeptAtFirst(files, nextDir);
    assert Settled(files, next, copy) && BootState(files, next, nextDir + 1, w, copy) by { AfterBootState(files, nextDir, boot, w); }
    hide AfterBoot, BootState, Settled, Fresh;
    BootKeeps(files, files, next, nextDir, w, copy);
    if Request in next { CarriedAsks(files, next, nextDir + 1, w, copy); }
  }

  /** After any number of starts, each with its own errors and cut off at its own moment, on a request that could be
      carried out at first: if the request is still there, a start without errors installs the copy; if it is gone, one
      of the starts ended it, by installing the copy or by putting its failure on record. */
  lemma {:induction false} RetriesComplete(files: Files, nextDir: nat, boots: seq<Boot>, w: World, copy: Content)
    requires Fresh(files, nextDir) && Asks(files, w, copy)
    ensures var h := AfterBoots(files, nextDir, boots, w);
            var (after, outcome) := Resolved(Booting(h, nextDir + 2 * |boots|, []), w);
            if Request in h then outcome.Replaced? && Request !in after.files && IsCopy(after.files, copy)
            else RequestEnded(files, nextDir, boots, w, copy)
    decreases |boots|
  {
    hide AfterBoot, Settled, Fresh, Resolved, RequestEnded;
    if boots == [] {
      CleanStart(files, nextDir, w, copy);
    } else {
      hide Asks;
      var next := AfterBoot(files, nextDir, boots[0], w);
      FirstBoot(files, nextDir, boots[0], w, copy);
      if Request in next {
        RetriesComplete(next, nextDir + 2, boots[1..], w, copy);
        if RequestEnded(next, nextDir + 2, boots[1..], w, copy) { EndedLater(files, nextDir, boots, w, copy); }
      } else {
        EndedAtFirst(files, nextDir, boots, w, copy);
        NothingComesBack(next, nextDir + 2, boots[1..], w);
      }
    }
  }

  lemma KeptAtFirst(files: Files, n: nat)
    ensures KeptBelow(files, files, n)
  {
  }

  lemma StillAsks(orig: Files, h: Files, dir: nat, w: World, copy: Content)
    requires InFlight(orig, h, dir, copy) && Asks(orig, w, copy)
    ensures if Request in h then Asks(h, w, copy) else IsCopy(h, copy)
  {
    var backup := Backup(w.decode(orig[Request]).source);
    assert Aside(backup, dir) && Aside(Request, dir);
    if moved: set<Suffix> :| Holds(orig, h, dir, moved) {
      assert Same(orig, h, backup) && Same(orig, h, Request);
    } else {
      assert Same(orig, h, backup);
    }
  }

  // ----- What the start of the app concludes

  /** Changing records and indexes changes no live file. */
  lemma RecordingKeepsLive(d: Disk, w: World, s: Suffix)
    ensures Same(d.files, Recording(d, w).0.files, Live(s))
    ensures Same(d.files, Removed(Removed(d, SourceIndex).0, FailureRecord).0.files, Live(s))
  {
  }

  ghost predicate LiveAgrees(a: Files, b: Files) {
    forall s :: Same(a, b, Live(s))
  }

  lemma RecordingConcludes(d: Disk, w: World)
    ensures Recording(d, w).1.Recorded? || Recording(d, w).1.StartRefused?
  {
  }

  /** The live database is the valid copy the request asked for. */
  ghost predicate WasCopied(orig: Files, h: Files, w: World) {
    exists copy :: Asks(orig, w, copy) && IsCopy(h, copy)
  }

  lemma LiveCarries(orig: Files, h: Files, next: Files, w: World)
    requires LiveAgrees(h, next)
    ensures Untouched(orig, h) ==> Untouched(orig, next)
    ensures WasCopied(orig, h, w) ==> WasCopied(orig, next, w)
  {
    if Untouched(orig, h) {
      forall s ensures Same(orig, next, Live(s)) { assert Same(orig, h, Live(s)) && Same(h, next, Live(s)); }
    }
    if WasCopied(orig, h, w) {
      var copy :| Asks(orig, w, copy) && IsCopy(h, copy);
      assert Same(h, next, Live(Main)) && Same(h, next, Live(Wal)) && Same(h, next, Live(Shm));
      assert IsCopy(next, copy);
    }
  }
}
