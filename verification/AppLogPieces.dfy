/** What each generation of the log holds when no file operation fails: rotations lose the oldest generation and nothing else. */
module AppLogPieces {
  import opened Common
  import opened AppLog
  import opened AppLogProofs

  predicate Works(plan: Plan, keep: nat) {
    plan.close && plan.remove && plan.open && plan.write && forall i :: 0 <= i < keep ==> plan.rename(i)
  }

  /** All accepted writes in order. */
  function Entries(texts: seq<string>): seq<Entry> {
    seq(|texts|, i requires 0 <= i < |texts| => Entry(i, texts[i]))
  }

  function Flatten(pieces: seq<seq<Entry>>): seq<Entry> {
    if pieces == [] then [] else Flatten(pieces[..|pieces| - 1]) + pieces[|pieces| - 1]
  }

  /** Every write of the piece still fit behind those before it, or was the first that has any bytes. */
  ghost predicate Fits(max: int, piece: seq<Entry>) {
    forall i :: 0 < i < |piece| ==> Bytes(piece[..i]) == 0 || Bytes(piece[..i]) + |piece[i].text| <= max
  }

  /** The first write of the next piece did not fit any more. */
  ghost predicate Full(max: int, piece: seq<Entry>, next: seq<Entry>) {
    next != [] && Bytes(piece) > 0 && Bytes(piece) + |next[0].text| > max
  }

  /** The writes cut into pieces, each cut as late as the limit allows. */
  ghost predicate IsCut(max: int, pieces: seq<seq<Entry>>, texts: seq<string>) {
    && pieces != [] && Flatten(pieces) == Entries(texts)
    && (forall j :: 0 <= j < |pieces| ==> Fits(max, pieces[j]))
    && (forall j :: 0 < j < |pieces| ==> Full(max, pieces[j - 1], pieces[j]))
  }

  /** Generation k is the k-th piece from the end; older pieces are lost. */
  ghost predicate HoldsLast(files: Files, keep: nat, pieces: seq<seq<Entry>>) {
    && (forall k :: 0 <= k <= keep ==> Generation(files, k) == if k < |pieces| then pieces[|pieces| - 1 - k] else [])
    && (forall k :: k in files ==> k <= keep)
  }

  // ----- A rotation

  /** The loop moves generations 1 to n up by one. */
  lemma {:induction false} ShiftedUp(files: Files, n: nat, plan: Plan, keep: nat)
    requires n < keep && Works(plan, keep) && n + 1 !in files
    ensures var next := Shifted(files, n, plan);
            && Generation(next, 0) == Generation(files, 0) && Generation(next, 1) == []
            && (forall k: nat :: 2 <= k <= n + 1 ==> Generation(next, k) == Generation(files, k - 1))
            && (forall k: nat :: k > n + 1 ==> Generation(next, k) == Generation(files, k))
            && (0 in next <==> 0 in files) && 1 !in next && (forall k :: k in next ==> k in files || k <= n + 1)
    decreases n
  {
    if n > 0 {
      var moved := Moved(files, n, true);
      forall k: nat ensures Generation(moved, k) == if k == n + 1 then Generation(files, n) else if k == n then [] else Generation(files, k) {}
      ShiftedUp(moved, n - 1, plan, keep);
      var next := Shifted(files, n, plan);
      forall k: nat | 2 <= k <= n + 1 ensures Generation(next, k) == Generation(files, k - 1) {
        assert k <= n ==> Generation(moved, k - 1) == Generation(files, k - 1);
      }
    }
  }

  lemma RotatedUp(c: Config, l: Log, plan: Plan)
    requires c.keep >= 1 && Works(plan, c.keep) && l.handle.Usable? && 0 in l.files && forall k :: k in l.files ==> k <= c.keep
    ensures var (r, ok) := Rotated(c, l, plan);
            && ok && r.handle.Usable? && r.size == 0 && r.written == l.written && 0 in r.files && (forall k :: k in r.files ==> k <= c.keep)
            && Generation(r.files, 0) == [] && forall k :: 1 <= k <= c.keep ==> Generation(r.files, k) == Generation(l.files, k - 1)
  {
    var removed := Removed(c, l.files, plan);
    ShiftedUp(removed, c.keep - 1, plan, c.keep);
    hide Shifted;
    var shifted := Shifted(removed, c.keep - 1, plan);
    var next := Rotated(c, l, plan).0.files;
    assert next == Moved(shifted, 0, true)[0 := []];
    forall k | 1 <= k <= c.keep ensures Generation(next, k) == Generation(l.files, k - 1) {
      if k == 1 {
        assert Generation(next, 1) == Generation(shifted, 0) == Generation(removed, 0);
      } else {
        assert Generation(next, k) == Generation(shifted, k) == Generation(removed, k - 1);
      }
    }
  }

  // ----- One more write

  lemma EntriesSnoc(texts: seq<string>, text: string)
    ensures Entries(texts + [text]) == Entries(texts) + [Entry(|texts|, text)]
  {
  }

  lemma FlattenSnoc(pieces: seq<seq<Entry>>, piece: seq<Entry>)
    ensures Flatten(pieces + [piece]) == Flatten(pieces) + piece
  {
    assert (pieces + [piece])[..|pieces|] == pieces;
  }

  /** The write starts a new piece. */
  lemma NewPiece(max: int, pieces: seq<seq<Entry>>, texts: seq<string>, text: string)
    requires IsCut(max, pieces, texts) && Bytes(pieces[|pieces| - 1]) > 0 && Bytes(pieces[|pieces| - 1]) + |text| > max
    ensures IsCut(max, pieces + [[Entry(|texts|, text)]], texts + [text])
  {
    hide Bytes, Flatten;
    var e := [Entry(|texts|, text)];
    FlattenSnoc(pieces, e);
    EntriesSnoc(texts, text);
    var next := pieces + [e];
    forall j | 0 <= j < |next| ensures Fits(max, next[j]) { if j < |pieces| { assert Fits(max, pieces[j]); } }
    forall j | 0 < j < |next| ensures Full(max, next[j - 1], next[j]) { if j < |pieces| { assert Full(max, pieces[j - 1], pieces[j]); } }
  }

  /** The write joins the last piece. */
  lemma SamePiece(max: int, pieces: seq<seq<Entry>>, texts: seq<string>, text: string)
    requires IsCut(max, pieces, texts) && (Bytes(pieces[|pieces| - 1]) == 0 || Bytes(pieces[|pieces| - 1]) + |text| <= max)
    ensures IsCut(max, pieces[..|pieces| - 1] + [pieces[|pieces| - 1] + [Entry(|texts|, text)]], texts + [text])
  {
    hide Bytes, Flatten;
    var init, last, e := pieces[..|pieces| - 1], pieces[|pieces| - 1], Entry(|texts|, text);
    var next := init + [last + [e]];
    FlattenSnoc(init, last + [e]);
    FlattenSnoc(init, last);
    EntriesSnoc(texts, text);
    assert pieces == init + [last] && Flatten(init) + (last + [e]) == (Flatten(init) + last) + [e];
    forall j | 0 <= j < |next| ensures Fits(max, next[j]) {
      assert Fits(max, pieces[j]);
      if j == |init| { LongerFits(max, last, e); }
    }
    forall j | 0 < j < |next| ensures Full(max, next[j - 1], next[j]) { assert Full(max, pieces[j - 1], pieces[j]); }
  }

  lemma LongerFits(max: int, piece: seq<Entry>, e: Entry)
    requires Fits(max, piece) && (Bytes(piece) == 0 || Bytes(piece) + |e.text| <= max)
    ensures Fits(max, piece + [e])
  {
    hide Bytes;
    var longer := piece + [e];
    forall i | 0 < i < |longer| ensures Bytes(longer[..i]) == 0 || Bytes(longer[..i]) + |longer[i].text| <= max {
      assert longer[..i] == piece[..i];
      if i == |piece| { assert piece[..i] == piece; }
    }
  }

  lemma HoldsNew(files: Files, rotated: Files, keep: nat, pieces: seq<seq<Entry>>, e: Entry)
    requires HoldsLast(files, keep, pieces) && keep >= 1
    requires Generation(rotated, 0) == [] && (forall k :: k in rotated ==> k <= keep)
    requires forall k :: 1 <= k <= keep ==> Generation(rotated, k) == Generation(files, k - 1)
    ensures HoldsLast(rotated[0 := Generation(rotated, 0) + [e]], keep, pieces + [[e]])
  {
    var next, after := rotated[0 := Generation(rotated, 0) + [e]], pieces + [[e]];
    forall k | 0 <= k <= keep ensures Generation(next, k) == if k < |after| then after[|after| - 1 - k] else [] {
      if k > 0 { assert Generation(next, k) == Generation(rotated, k) == Generation(files, k - 1); }
    }
  }

  lemma HoldsLonger(files: Files, keep: nat, pieces: seq<seq<Entry>>, e: Entry)
    requires HoldsLast(files, keep, pieces) && pieces != []
    ensures HoldsLast(files[0 := Generation(files, 0) + [e]], keep, pieces[..|pieces| - 1] + [pieces[|pieces| - 1] + [e]])
  {
    var next, after := files[0 := Generation(files, 0) + [e]], pieces[..|pieces| - 1] + [pieces[|pieces| - 1] + [e]];
    forall k | 0 <= k <= keep ensures Generation(next, k) == if k < |after| then after[|after| - 1 - k] else [] {
      if k > 0 { assert Generation(next, k) == Generation(files, k); }
    }
  }

  ghost predicate LogIs(c: Config, l: Log, pieces: seq<seq<Entry>>, texts: seq<string>) {
    && IsCut(c.maxBytes, pieces, texts) && HoldsLast(l.files, c.keep, pieces)
    && l.handle.Usable? && 0 in l.files && l.size == Bytes(l.files[0]) && l.written == texts
  }

  lemma BytesSnoc(es: seq<Entry>, e: Entry)
    ensures Bytes(es + [e]) == Bytes(es) + |e.text|
  {
    assert (es + [e])[..|es|] == es;
  }

  lemma WriteIs(c: Config, l: Log, pieces: seq<seq<Entry>>, texts: seq<string>, text: string, plan: Plan) returns (next: seq<seq<Entry>>)
    requires c.keep >= 1 && Works(plan, c.keep) && LogIs(c, l, pieces, texts)
    ensures LogIs(c, Wrote(c, l, text, plan).0, next, texts + [text]) && Wrote(c, l, text, plan).1
    ensures next == if RotationDue(c, l, text) then pieces + [[Entry(|texts|, text)]]
                    else pieces[..|pieces| - 1] + [pieces[|pieces| - 1] + [Entry(|texts|, text)]]
  {
    hide Rotated, IsCut, Bytes, Works;
    CutNotEmpty(c.maxBytes, pieces, texts);
    var e, last := Entry(|texts|, text), pieces[|pieces| - 1];
    assert Generation(l.files, 0) == last;
    assert plan.write by { CanWrite(plan, c.keep); }
    if RotationDue(c, l, text) {
      next := pieces + [[e]];
      RotatedUp(c, l, plan);
      NewPiece(c.maxBytes, pieces, texts, text);
      var r := Rotated(c, l, plan).0;
      HoldsNew(l.files, r.files, c.keep, pieces, e);
      BytesSnoc(Generation(r.files, 0), e);
      assert Bytes([]) == 0 by { NoBytes(); }
    } else {
      next := pieces[..|pieces| - 1] + [last + [e]];
      SamePiece(c.maxBytes, pieces, texts, text);
      HoldsLonger(l.files, c.keep, pieces, e);
      BytesSnoc(Generation(l.files, 0), e);
    }
  }

  lemma CutNotEmpty(max: int, pieces: seq<seq<Entry>>, texts: seq<string>)
    requires IsCut(max, pieces, texts)
    ensures pieces != []
  {
  }

  lemma CanWrite(plan: Plan, keep: nat)
    requires Works(plan, keep)
    ensures plan.write
  {
  }

  lemma NoBytes()
    ensures Bytes([]) == 0
  {
  }

  /** When every file operation works, every write is accepted, and the generations are the last pieces of all writes, cut exactly
      where the next write would have passed the limit: a rotation drops the oldest kept piece and leaves the others whole. */
  lemma GenerationsArePieces(c: Config, texts: seq<string>, plans: seq<Plan>) returns (pieces: seq<seq<Entry>>)
    requires |texts| == |plans| && c.keep >= 1 && forall i :: 0 <= i < |plans| ==> Works(plans[i], c.keep)
    ensures IsCut(c.maxBytes, pieces, texts) && HoldsLast(WroteAll(c, texts, plans).files, c.keep, pieces)
    ensures WroteAll(c, texts, plans).written == texts && WroteAll(c, texts, plans).handle.Usable?
  {
    hide WroteAll, IsCut, HoldsLast, Works, Bytes;
    pieces := AllWrites(c, texts, plans);
  }

  lemma {:induction false} AllWrites(c: Config, texts: seq<string>, plans: seq<Plan>) returns (pieces: seq<seq<Entry>>)
    requires |texts| == |plans| && c.keep >= 1 && forall i :: 0 <= i < |plans| ==> Works(plans[i], c.keep)
    ensures LogIs(c, WroteAll(c, texts, plans), pieces, texts)
    decreases |texts|
  {
    hide Wrote, LogIs, Works, Created, RotationDue;
    if texts == [] {
      pieces := [[]];
      CreatedIs(c);
    } else {
      var n := |texts| - 1;
      var before := AllWrites(c, texts[..n], plans[..n]);
      pieces := WriteIs(c, WroteAll(c, texts[..n], plans[..n]), before, texts[..n], texts[n], plans[n]);
      assert texts == texts[..n] + [texts[n]];
    }
  }

  lemma CreatedIs(c: Config)
    ensures LogIs(c, Created(), [[]], [])
  {
    var none: seq<seq<Entry>>, empty: seq<Entry> := [], [];
    FlattenSnoc(none, empty);
    assert none + [empty] == [empty] && Flatten([empty]) == Entries([]);
    hide Flatten, Entries;
    assert IsCut(c.maxBytes, [empty], []);
    hide IsCut;
    assert HoldsLast(Created().files, c.keep, [empty]);
  }
}
