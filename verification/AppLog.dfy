/** rotatingLog of cmd/desktop/app_log.go: an append-only log in a current file and numbered older generations. */
module AppLog {
  import opened Common

  /** One write, with its place among all accepted writes. */
  datatype Entry = Entry(id: nat, text: string)

  /** Generation 0 is the current file, generation k is path.k; missing files are not in the map. */
  type Files = map<nat, seq<Entry>>

  /** The file field: nil, a usable file, or a file whose Close failed and that accepts nothing any more. */
  datatype Handle = Absent | Usable | Broken

  /** written: everything that was accepted so far. */
  datatype Log = Log(files: Files, handle: Handle, size: int, written: seq<string>)

  datatype Config = Config(maxBytes: int, keep: nat)

  /** Which file operations of one call work; rename(i) is the one away from generation i. */
  datatype Plan = Plan(close: bool, remove: bool, rename: nat -> bool, open: bool, reopen: bool, write: bool)

  function Generation(files: Files, i: nat): seq<Entry> {
    if i in files then files[i] else []
  }

  function Bytes(es: seq<Entry>): nat {
    if es == [] then 0 else Bytes(es[..|es| - 1]) + |es[|es| - 1].text|
  }

  /** os.Rename of generation i to i + 1, replacing what is there. */
  function Moved(files: Files, i: nat, works: bool): Files {
    if works && i in files then (files - {i})[i + 1 := files[i]] else files
  }

  /** The loop of rotate: generations n, n - 1, .. 1 move up, as far as their renames work. */
  function Shifted(files: Files, n: nat, plan: Plan): Files
    decreases n
  {
    if n == 0 then files else Shifted(Moved(files, n, plan.rename(n)), n - 1, plan)
  }

  /** open: creates the current file when it is missing. */
  function Opened(l: Log, works: bool): (Log, bool) {
    if !works then (l, false)
    else
      var files := if 0 in l.files then l.files else l.files[0 := []];
      (l.(files := files, handle := Usable, size := Bytes(files[0])), true)
  }

  /** os.Remove of the oldest generation; path.0 is not the current file. */
  function Removed(c: Config, files: Files, plan: Plan): Files {
    if plan.remove && c.keep != 0 then files - {c.keep} else files
  }

  /** rotate. */
  function Rotated(c: Config, l: Log, plan: Plan): (Log, bool) {
    if l.handle.Broken? || !plan.close then (l.(handle := Broken), false)
    else
      var removed := Removed(c, l.files, plan);
      var shifted := Shifted(removed, if c.keep == 0 then 0 else c.keep - 1, plan);
      var closed := l.(handle := Absent, files := shifted);
      if !plan.rename(0) || 0 !in shifted then (closed, false)
      else Opened(closed.(files := Moved(shifted, 0, true)), plan.open)
  }

  /** The write itself, and the size that follows it. */
  function Appended(l: Log, text: string, works: bool): (Log, bool) {
    if !l.handle.Usable? || !works then (l, false)
    else
      (l.(files := l.files[0 := Generation(l.files, 0) + [Entry(|l.written|, text)]], size := l.size + |text|, written := l.written + [text]), true)
  }

  /** Write: whether the text was accepted. A failed rotation keeps logging to the current file. */
  function Wrote(c: Config, l: Log, text: string, plan: Plan): (Log, bool) {
    if l.handle.Absent? then (l, false)
    else if l.size > 0 && l.size + |text| > c.maxBytes then
      var (rotated, ok) := Rotated(c, l, plan);
      if !ok && rotated.handle.Absent? then
        var (retried, again) := Opened(rotated, plan.reopen);
        if again then Appended(retried, text, plan.write) else (retried, false)
      else Appended(rotated, text, plan.write)
    else Appended(l, text, plan.write)
  }

  /** A log on empty files. */
  function Created(): Log {
    Log(map[0 := []], Usable, 0, [])
  }

  function WroteAll(c: Config, texts: seq<string>, plans: seq<Plan>): Log
    requires |texts| == |plans|
  {
    if texts == [] then Created()
    else
      var n := |texts| - 1;
      Wrote(c, WroteAll(c, texts[..n], plans[..n]), texts[n], plans[n]).0
  }

  /** Everything a reader finds, oldest generation first. */
  function Reading(files: Files, keep: nat): seq<Entry>
    decreases keep
  {
    Generation(files, keep) + if keep == 0 then [] else Reading(files, keep - 1)
  }

  class RotatingLog {
    const cfg: Config
    var files: Files
    var handle: Handle
    var size: int
    var written: seq<string>

    function Value(): Log
      reads this
    {
      Log(files, handle, size, written)
    }

    constructor (cfg: Config)
      ensures Value() == Created() && this.cfg == cfg
    {
      this.cfg := cfg;
      files, handle, size, written := map[0 := []], Usable, 0, [];
    }

    method Open(works: bool) returns (ok: bool)
      modifies `files, `handle, `size
      ensures (Value(), ok) == Opened(old(Value()), works)
    {
      if !works { return false; }
      if 0 !in files { files := files[0 := []]; }
      handle, size := Usable, Bytes(files[0]);
      ok := true;
    }

    method Rotate(plan: Plan) returns (ok: bool)
      modifies `files, `handle, `size
      ensures (Value(), ok) == Rotated(cfg, old(Value()), plan)
    {
      if handle.Broken? || !plan.close {
        handle := Broken;
        return false;
      }
      handle := Absent;
      if plan.remove && cfg.keep != 0 { files := files - {cfg.keep}; }
      ghost var n: nat := if cfg.keep == 0 then 0 else cfg.keep - 1;
      ghost var removed := files;
      var i: nat := if cfg.keep == 0 then 0 else cfg.keep - 1;
      while i > 0
        invariant i <= n && Shifted(files, i, plan) == Shifted(removed, n, plan)
        invariant handle.Absent? && size == old(size)
      {
        if plan.rename(i) && i in files { files := (files - {i})[i + 1 := files[i]]; }
        i := i - 1;
      }
      assert files == Shifted(removed, n, plan);
      if !plan.rename(0) || 0 !in files { return false; }
      files := (files - {0})[1 := files[0]];
      ok := Open(plan.open);
    }

    method Write(text: string, plan: Plan) returns (ok: bool)
      modifies this
      ensures (Value(), ok) == Wrote(cfg, old(Value()), text, plan)
    {
      hide Rotated;
      if handle.Absent? { return false; }
      if size > 0 && size + |text| > cfg.maxBytes {
        var rotated := Rotate(plan);
        if !rotated && handle.Absent? {
          var again := Open(plan.reopen);
          if !again { return false; }
        }
      }
      ok := handle.Usable? && plan.write;
      if ok {
        files := files[0 := Generation(files, 0) + [Entry(|written|, text)]];
        size := size + |text|;
        written := written + [text];
      }
    }
  }
}
