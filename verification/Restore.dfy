/** cmd/desktop/restore_startup.go: a scheduled restore swaps three live files for one verified copy before the database opens. */
module Restore {
  import opened Common

  // ----- The disk

  /** The database file and its two sidecars. */
  datatype Suffix = Main | Wal | Shm

  const SUFFIXES := [Main, Wal, Shm]

  datatype Path =
    | Live(s: Suffix) | Recovery(dir: nat, s: Suffix) | Staged(dir: nat)
    | Request | FailureRecord | SourceIndex | Backup(name: string)

  type Content = string
  type Files = map<Path, Content>

  /** What happens to one file operation: it works, or breaks after writing some of its bytes. */
  datatype Fault = Works | Breaks(written: nat)

  /** The files, the number of the next temporary directory, what will happen to the coming operations (all work once the
      list is used up), and every state the files went through. */
  datatype Disk = Disk(files: Files, nextDir: nat, faults: seq<Fault>, journal: seq<Files>)

  datatype Status = Present | Missing | Unknown

  function Coming(d: Disk): Fault {
    if d.faults == [] then Works else d.faults[0]
  }

  function Tick(d: Disk): Disk {
    if d.faults == [] then d else d.(faults := d.faults[1..])
  }

  /** The files have changed: from here on a crash leaves this state. */
  function Wrote(d: Disk, files: Files): Disk {
    Tick(d).(files := files, journal := d.journal + [files])
  }

  /** os.Rename: atomic, and replaces what is at the new path. */
  function Renamed(d: Disk, from: Path, to: Path): (Disk, bool) {
    if !Coming(d).Works? || from !in d.files then (Tick(d), false)
    else (Wrote(d, (d.files - {from})[to := d.files[from]]), true)
  }

  /** os.Lstat. */
  function Inspected(d: Disk, p: Path): (Disk, Status) {
    (Tick(d), if !Coming(d).Works? then Unknown else if p in d.files then Present else Missing)
  }

  /** os.ReadFile. */
  function Read(d: Disk, p: Path): (Disk, Status, Content) {
    var status := Inspected(d, p).1;
    (Tick(d), status, if status.Present? then d.files[p] else "")
  }

  /** os.Remove. */
  function Removed(d: Disk, p: Path): (Disk, Status) {
    var status := Inspected(d, p).1;
    (if status.Present? then Wrote(d, d.files - {p}) else Tick(d), status)
  }

  /** os.MkdirTemp. */
  function TempDir(d: Disk): (Disk, Option<nat>) {
    if Coming(d).Works? then (Tick(d).(nextDir := d.nextDir + 1), Some(d.nextDir)) else (Tick(d), None)
  }

  function Prefix(c: Content, n: nat): Content {
    c[..Min(n, |c|)]
  }

  /** os.WriteFile: a broken write leaves some prefix. */
  function Written(d: Disk, p: Path, c: Content): (Disk, bool) {
    match Coming(d)
    case Works => (Wrote(d, d.files[p := c]), true)
    case Breaks(n) => (Wrote(d, d.files[p := Prefix(c, n)]), false)
  }

  /** copyRestoreFile. */
  function Copied(d: Disk, from: Path, to: Path): (Disk, bool) {
    if from in d.files then Written(d, to, d.files[from]) else (Tick(d), false)
  }

  /** sqlite.VerifyEvidenceDatabase, which may also fail to read. */
  function Verified(d: Disk, p: Path, valid: Content -> bool): (Disk, bool) {
    (Tick(d), Coming(d).Works? && p in d.files && valid(d.files[p]))
  }

  // ----- The restore, as a function of the disk

  /** What the bytes of a request ask for. */
  datatype Document = Unreadable | WrongTarget | OutsideBackups | Wanted(source: string)

  /** How this build reads requests, judges databases and words failure records. */
  datatype World = World(decode: Content -> Document, valid: Content -> bool, record: Content)

  datatype Result = NoRequest | Restored | Refused | RollbackFailed | CleanupFailed

  /** rollback: put the moved files back, last first. */
  function RolledBack(d: Disk, dir: nat, moved: seq<Suffix>): (Disk, bool)
    decreases |moved|
  {
    if moved == [] then (d, true)
    else
      var s := moved[|moved| - 1];
      var (d1, ok) := Renamed(d, Recovery(dir, s), Live(s));
      var (d2, rest) := RolledBack(d1, dir, moved[..|moved| - 1]);
      (d2, ok && rest)
  }

  /** The loop that moves the live files away; moved grows by those that were there. */
  function MovedAway(d: Disk, dir: nat, todo: seq<Suffix>, moved: seq<Suffix>): (Disk, seq<Suffix>, bool)
    decreases |todo|
  {
    if todo == [] then (d, moved, true)
    else
      var s := todo[0];
      var (d1, status) := Inspected(d, Live(s));
      match status
      case Missing => MovedAway(d1, dir, todo[1..], moved)
      case Unknown => (d1, moved, false)
      case Present =>
        var (d2, ok) := Renamed(d1, Live(s), Recovery(dir, s));
        if ok then MovedAway(d2, dir, todo[1..], moved + [s]) else (d2, moved, false)
  }

  function Undone(d: Disk, dir: nat, moved: seq<Suffix>): (Disk, Result) {
    var (d1, ok) := RolledBack(d, dir, moved);
    (d1, if ok then Refused else RollbackFailed)
  }

  /** Everything from the first move on. */
  function Swapped(d: Disk, stage: nat, dir: nat): (Disk, Result) {
    var (d1, moved, ok) := MovedAway(d, dir, SUFFIXES, []);
    if !ok then Undone(d1, dir, moved)
    else
      var (d2, installed) := Renamed(d1, Staged(stage), Live(Main));
      if !installed then Undone(d2, dir, moved)
      else
        var (d3, status) := Removed(d2, Request);
        (d3, if status.Present? then Restored else CleanupFailed)
  }

  /** The copy is made and verified, then the recovery directory is created. */
  function StagedAndSwapped(d: Disk, stage: nat, source: string, w: World): (Disk, Result) {
    var (d1, copied) := Copied(d, Backup(source), Staged(stage));
    if !copied then (d1, Refused)
    else
      var (d2, valid) := Verified(d1, Staged(stage), w.valid);
      if !valid then (d2, Refused)
      else
        var (d3, dir) := TempDir(d2);
        if dir.None? then (d3, Refused) else Swapped(d3, stage, dir.value)
  }

  /** applyPendingRestoreWithRename. */
  function Applied(d: Disk, w: World): (Disk, Result) {
    var (d1, status, bytes) := Read(d, Request);
    if status.Missing? then (d1, NoRequest)
    else if status.Unknown? || !w.decode(bytes).Wanted? then (d1, Refused)
    else
      var source := w.decode(bytes).source;
      var (d2, valid) := Verified(d1, Backup(source), w.valid);
      if !valid then (d2, Refused)
      else
        var (d3, stage) := TempDir(d2);
        if stage.None? then (d3, Refused)
        else
          var (d4, result) := StagedAndSwapped(d3, stage.value, source, w);
          (Removed(d4, Staged(stage.value)).0, result)
  }

  datatype Startup = NothingPending | Replaced | Recorded | StartRefused

  /** resolvePendingRestoreWithRename. */
  function Resolved(d: Disk, w: World): (Disk, Startup) {
    var (d1, status) := Inspected(d, Request);
    if status.Missing? then (d1, NothingPending)
    else
      var (d2, result) := Applied(d1, w);
      match result
      case NoRequest => (Removed(Removed(d2, SourceIndex).0, FailureRecord).0, Replaced)
      case Restored => (Removed(Removed(d2, SourceIndex).0, FailureRecord).0, Replaced)
      case RollbackFailed => (d2, StartRefused)
      case Refused => Recording(d2, w)
      case CleanupFailed => Recording(d2, w)
  }

  /** The request becomes a failure record. */
  function Recording(d: Disk, w: World): (Disk, Startup) {
    var d1 := Read(d, Request).0;
    var (d2, written) := Written(d1, FailureRecord, w.record);
    if !written then (d2, StartRefused)
    else
      var (d3, status) := Removed(d2, Request);
      (d3, if status.Unknown? then StartRefused else Recorded)
  }

  // ----- The restore, as the app runs it

  class FileSystem {
    var files: Files
    var nextDir: nat
    var faults: seq<Fault>
    ghost var journal: seq<Files>

    ghost function Value(): Disk
      reads this
    {
      Disk(files, nextDir, faults, journal)
    }

    constructor (d: Disk)
      ensures Value() == d
    {
      files, nextDir, faults, journal := d.files, d.nextDir, d.faults, d.journal;
    }

    method Next() returns (f: Fault)
      modifies `faults
      ensures f == Coming(old(Value())) && Value() == Tick(old(Value()))
    {
      if |faults| == 0 { return Works; }
      f, faults := faults[0], faults[1..];
    }

    method Rename(from: Path, to: Path) returns (ok: bool)
      modifies this
      ensures (Value(), ok) == Renamed(old(Value()), from, to)
    {
      var f := Next();
      ok := f.Works? && from in files;
      if ok {
        files := (files - {from})[to := files[from]];
        journal := journal + [files];
      }
    }

    method Lstat(p: Path) returns (status: Status)
      modifies `faults
      ensures (Value(), status) == Inspected(old(Value()), p)
    {
      var f := Next();
      status := if !f.Works? then Unknown else if p in files then Present else Missing;
    }

    method ReadFile(p: Path) returns (status: Status, bytes: Content)
      modifies `faults
      ensures (Value(), status, bytes) == Read(old(Value()), p)
    {
      status := Lstat(p);
      bytes := if status.Present? then files[p] else "";
    }

    method Remove(p: Path) returns (status: Status)
      modifies this
      ensures (Value(), status) == Removed(old(Value()), p)
    {
      status := Lstat(p);
      if status.Present? {
        files := files - {p};
        journal := journal + [files];
      }
    }

    method MkdirTemp() returns (dir: Option<nat>)
      modifies this
      ensures (Value(), dir) == TempDir(old(Value()))
    {
      var f := Next();
      dir := None;
      if f.Works? {
        dir := Some(nextDir);
        nextDir := nextDir + 1;
      }
    }

    method WriteFile(p: Path, c: Content) returns (ok: bool)
      modifies this
      ensures (Value(), ok) == Written(old(Value()), p, c)
    {
      var f := Next();
      ok := f.Works?;
      files := files[p := if ok then c else Prefix(c, f.written)];
      journal := journal + [files];
    }

    method CopyRestoreFile(from: Path, to: Path) returns (ok: bool)
      modifies this
      ensures (Value(), ok) == Copied(old(Value()), from, to)
    {
      if from in files {
        ok := WriteFile(to, files[from]);
      } else {
        var f := Next();
        ok := false;
      }
    }

    method Verify(p: Path, valid: Content -> bool) returns (ok: bool)
      modifies `faults
      ensures (Value(), ok) == Verified(old(Value()), p, valid)
    {
      var f := Next();
      ok := f.Works? && p in files && valid(files[p]);
    }

    method Rollback(dir: nat, moved: seq<Suffix>) returns (result: Result)
      modifies this
      ensures (Value(), result) == Undone(old(Value()), dir, moved)
    {
      hide Renamed;
      result := Refused;
      ghost var start := Value();
      var i := |moved|;
      assert moved[..i] == moved;
      while i > 0
        invariant 0 <= i <= |moved|
        invariant result in {Refused, RollbackFailed}
        invariant RolledBack(start, dir, moved).0 == RolledBack(Value(), dir, moved[..i]).0
        invariant RolledBack(start, dir, moved).1 == (result.Refused? && RolledBack(Value(), dir, moved[..i]).1)
      {
        i := i - 1;
        assert moved[..i + 1][..i] == moved[..i] && moved[..i + 1][i] == moved[i];
        var ok := Rename(Recovery(dir, moved[i]), Live(moved[i]));
        if !ok { result := RollbackFailed; }
      }
    }

    method ApplyPendingRestore(w: World) returns (result: Result)
      modifies this
      ensures (Value(), result) == Applied(old(Value()), w)
    {
      hide Removed, Read, Verified, TempDir;
      var status, bytes := ReadFile(Request);
      if status.Missing? { return NoRequest; }
      if status.Unknown? || !w.decode(bytes).Wanted? { return Refused; }
      var source := w.decode(bytes).source;
      var valid := Verify(Backup(source), w.valid);
      if !valid { return Refused; }
      var stage := MkdirTemp();
      if stage.None? { return Refused; }
      result := StageAndSwap(stage.value, source, w);
      var cleanup := Remove(Staged(stage.value));
    }

    method StageAndSwap(stage: nat, source: string, w: World) returns (result: Result)
      modifies this
      ensures (Value(), result) == StagedAndSwapped(old(Value()), stage, source, w)
    {
      hide Copied, Verified, TempDir, Swapped;
      var copied := CopyRestoreFile(Backup(source), Staged(stage));
      if !copied { return Refused; }
      var valid := Verify(Staged(stage), w.valid);
      if !valid { return Refused; }
      var dir := MkdirTemp();
      if dir.None? { return Refused; }
      result := Swap(stage, dir.value);
    }

    method Swap(stage: nat, dir: nat) returns (result: Result)
      modifies this
      ensures (Value(), result) == Swapped(old(Value()), stage, dir)
    {
      hide Renamed, Inspected, Removed, Undone;
      ghost var start := Value();
      var moved: seq<Suffix> := [];
      for i := 0 to |SUFFIXES|
        invariant MovedAway(start, dir, SUFFIXES, []) == MovedAway(Value(), dir, SUFFIXES[i..], moved)
      {
        assert SUFFIXES[i..][1..] == SUFFIXES[i + 1..];
        var status := Lstat(Live(SUFFIXES[i]));
        if status.Missing? { continue; }
        if status.Unknown? {
          result := Rollback(dir, moved);
          return;
        }
        var ok := Rename(Live(SUFFIXES[i]), Recovery(dir, SUFFIXES[i]));
        if !ok {
          result := Rollback(dir, moved);
          return;
        }
        moved := moved + [SUFFIXES[i]];
      }
      var installed := Rename(Staged(stage), Live(Main));
      if !installed {
        result := Rollback(dir, moved);
        return;
      }
      var status := Remove(Request);
      result := if status.Present? then Restored else CleanupFailed;
    }

    method ResolvePendingRestore(w: World) returns (outcome: Startup)
      modifies this
      ensures (Value(), outcome) == Resolved(old(Value()), w)
    {
      hide Applied, Removed, Inspected, Read, Written;
      var status := Lstat(Request);
      if status.Missing? { return NothingPending; }
      var result := ApplyPendingRestore(w);
      if result.NoRequest? || result.Restored? {
        var index := Remove(SourceIndex);
        var record := Remove(FailureRecord);
        return Replaced;
      }
      if result.RollbackFailed? { return StartRefused; }
      var found, bytes := ReadFile(Request);
      var written := WriteFile(FailureRecord, w.record);
      if !written { return StartRefused; }
      var removed := Remove(Request);
      outcome := if removed.Unknown? then StartRefused else Recorded;
    }
  }
}
