/** groupedDatasetSplits of cmd/desktop/calibration_gate.go: matches connected by shared players stay in one dataset split. */
module DatasetSplits {
  import opened Common
  import opened Strings
  import UF = UnionFind

  datatype MatchContext = MatchContext(matchID: string, playerIDs: seq<string>)

  datatype StoredMatch = StoredMatch(context: Option<MatchContext>)

  datatype Split = Holdout | Validation | Training

  datatype Assignment = Assignment(matchID: string, groupKey: string, split: Split)

  /** splitForGroup; hash stands for the 32-bit FNV digest of the key. */
  function SplitForGroup(hash: string -> nat, key: string): Split {
    var bucket := hash(key) % 10;
    if bucket < 2 then Holdout else if bucket < 4 then Validation else Training
  }

  // ----- Who played where

  /** The trimmed, nonempty player ids among the given ones. */
  function PlayersOf(ids: seq<string>): set<string> {
    set p | p in ids && TrimSpace(p) != "" :: TrimSpace(p)
  }

  predicate PlaysAt(m: StoredMatch, id: string, p: string) {
    m.context.Some? && m.context.value.matchID == id && p in PlayersOf(m.context.value.playerIDs)
  }

  ghost predicate Plays(matches: seq<StoredMatch>, id: string, p: string) {
    exists m :: m in matches && PlaysAt(m, id, p)
  }

  function Ids(matches: seq<StoredMatch>): set<string> {
    set m | m in matches && m.context.Some? :: m.context.value.matchID
  }

  // ----- Connection by shared players

  ghost predicate Linked(matches: seq<StoredMatch>, a: string, b: string) {
    exists p :: Plays(matches, a, p) && Plays(matches, b, p)
  }

  /** A chain of n links leads from a to b. */
  ghost predicate ConnectedIn(matches: seq<StoredMatch>, a: string, b: string, n: nat)
    decreases n
  {
    if n == 0 then a == b && a in Ids(matches)
    else exists c :: Linked(matches, a, c) && ConnectedIn(matches, c, b, n - 1)
  }

  ghost predicate Connected(matches: seq<StoredMatch>, a: string, b: string) {
    exists n: nat :: ConnectedIn(matches, a, b, n)
  }

  lemma LinkedIds(matches: seq<StoredMatch>, a: string, b: string)
    requires Linked(matches, a, b)
    ensures a in Ids(matches) && b in Ids(matches) && Linked(matches, b, a)
  {
  }

  lemma ConnectedReflexive(matches: seq<StoredMatch>, a: string)
    requires a in Ids(matches)
    ensures Connected(matches, a, a)
  {
    assert ConnectedIn(matches, a, a, 0);
  }

  lemma LinkedConnected(matches: seq<StoredMatch>, a: string, b: string)
    requires Linked(matches, a, b)
    ensures Connected(matches, a, b)
  {
    LinkedIds(matches, a, b);
    assert ConnectedIn(matches, b, b, 0);
    assert ConnectedIn(matches, a, b, 1);
  }

  lemma {:induction false} ConnectedInTransitive(matches: seq<StoredMatch>, a: string, b: string, c: string, n: nat, m: nat)
    requires ConnectedIn(matches, a, b, n) && ConnectedIn(matches, b, c, m)
    ensures ConnectedIn(matches, a, c, n + m)
    decreases n
  {
    if n > 0 {
      var d :| Linked(matches, a, d) && ConnectedIn(matches, d, b, n - 1);
      ConnectedInTransitive(matches, d, b, c, n - 1, m);
    }
  }

  lemma ConnectedTransitive(matches: seq<StoredMatch>, a: string, b: string, c: string)
    requires Connected(matches, a, b) && Connected(matches, b, c)
    ensures Connected(matches, a, c)
  {
    var n: nat :| ConnectedIn(matches, a, b, n);
    var m: nat :| ConnectedIn(matches, b, c, m);
    ConnectedInTransitive(matches, a, b, c, n, m);
  }

  lemma {:induction false} ConnectedInSymmetric(matches: seq<StoredMatch>, a: string, b: string, n: nat)
    requires ConnectedIn(matches, a, b, n)
    ensures Connected(matches, b, a)
    decreases n
  {
    if n == 0 {
      ConnectedReflexive(matches, a);
    } else {
      var c :| Linked(matches, a, c) && ConnectedIn(matches, c, b, n - 1);
      ConnectedInSymmetric(matches, c, b, n - 1);
      LinkedIds(matches, a, c);
      LinkedConnected(matches, c, a);
      ConnectedTransitive(matches, b, c, a);
    }
  }

  lemma ConnectedSymmetric(matches: seq<StoredMatch>, a: string, b: string)
    requires Connected(matches, a, b)
    ensures Connected(matches, b, a)
  {
    var n: nat :| ConnectedIn(matches, a, b, n);
    ConnectedInSymmetric(matches, a, b, n);
  }

  lemma {:induction false} ConnectedInIds(matches: seq<StoredMatch>, a: string, b: string, n: nat)
    requires ConnectedIn(matches, a, b, n)
    ensures a in Ids(matches) && b in Ids(matches)
    decreases n
  {
    if n > 0 {
      var c :| Linked(matches, a, c) && ConnectedIn(matches, c, b, n - 1);
      LinkedIds(matches, a, c);
      ConnectedInIds(matches, c, b, n - 1);
    }
  }

  /** All matches connected to id. */
  ghost function Component(matches: seq<StoredMatch>, id: string): set<string> {
    set b | b in Ids(matches) && Connected(matches, id, b)
  }

  lemma ComponentsAgree(matches: seq<StoredMatch>, a: string, b: string)
    requires Connected(matches, a, b)
    ensures Component(matches, a) == Component(matches, b)
  {
    ConnectedSymmetric(matches, a, b);
    forall c ensures Connected(matches, a, c) <==> Connected(matches, b, c) {
      if Connected(matches, a, c) { ConnectedTransitive(matches, b, a, c); }
      if Connected(matches, b, c) { ConnectedTransitive(matches, a, b, c); }
    }
  }

  // ----- The group key of a component

  /** The ids of the matches in the given set, as often as they are listed. */
  function IdsIn(matches: seq<StoredMatch>, members: set<string>): multiset<string> {
    if matches == [] then multiset{}
    else
      IdsIn(matches[..|matches| - 1], members) + IdOf(matches[|matches| - 1], members)
  }

  function IdOf(m: StoredMatch, members: set<string>): multiset<string> {
    if m.context.Some? && m.context.value.matchID in members then multiset{m.context.value.matchID} else multiset{}
  }

  /** The players of the matches in the given set. */
  function PlayersIn(matches: seq<StoredMatch>, members: set<string>): set<string> {
    set m, p | m in matches && m.context.Some? && m.context.value.matchID in members
               && p in PlayersOf(m.context.value.playerIDs) :: p
  }

  ghost predicate Lists(xs: seq<string>, m: multiset<string>) {
    multiset(xs) == m
  }

  lemma {:induction false} Listing(m: multiset<string>) returns (xs: seq<string>)
    ensures Lists(xs, m)
    decreases |m|
  {
    if m == multiset{} {
      xs := [];
    } else {
      var x :| x in m;
      var rest := Listing(m - multiset{x});
      xs := [x] + rest;
    }
  }

  /** The elements in sorted order. */
  ghost function SortedOf(m: multiset<string>): (xs: seq<string>)
    ensures Sorted(xs) && multiset(xs) == m
  {
    assert exists ys: seq<string> :: Lists(ys, m) by { var ys := Listing(m); }
    var ys: seq<string> :| Lists(ys, m);
    SortIsSorted(ys);
    SortStrings(ys)
  }

  lemma SortedOfListing(xs: seq<string>)
    ensures SortStrings(xs) == SortedOf(multiset(xs))
  {
    SortIsSorted(xs);
    SortedIsUnique(SortStrings(xs), SortedOf(multiset(xs)));
  }

  ghost function KeyOf(players: set<string>, ids: multiset<string>): string {
    if players != {} then "players:" + Join(SortedOf(multiset(players))) else "matches:" + Join(SortedOf(ids))
  }

  ghost function GroupKey(matches: seq<StoredMatch>, id: string): string {
    var members := Component(matches, id);
    KeyOf(PlayersIn(matches, members), IdsIn(matches, members))
  }

  ghost function AssignmentOf(matches: seq<StoredMatch>, hash: string -> nat, id: string): Assignment {
    Assignment(id, GroupKey(matches, id), SplitForGroup(hash, GroupKey(matches, id)))
  }

  ghost function SplitMap(matches: seq<StoredMatch>, hash: string -> nat): map<string, Split> {
    SplitsOf(Table(matches, hash))
  }

  ghost function SplitsOf(table: map<string, Assignment>): map<string, Split> {
    map id | id in table :: table[id].split
  }

  /** The assignment of every match. */
  ghost function Table(matches: seq<StoredMatch>, hash: string -> nat): map<string, Assignment> {
    map id | id in Ids(matches) :: AssignmentOf(matches, hash, id)
  }

  ghost function Listed(table: map<string, Assignment>, ids: seq<string>): seq<Assignment>
    requires forall i :: 0 <= i < |ids| ==> ids[i] in table
  {
    seq(|ids|, i requires 0 <= i < |ids| => table[ids[i]])
  }

  lemma {:induction false} IdsInElements(matches: seq<StoredMatch>, members: set<string>, id: string)
    ensures id in IdsIn(matches, members) <==> id in Ids(matches) && id in members
  {
    if matches != [] {
      var front, last := matches[..|matches| - 1], matches[|matches| - 1];
      assert matches == front + [last];
      IdsSnoc(front, last);
      IdsInElements(front, members, id);
    }
  }

  /** Every listed match id, as often as it is listed, in sorted order. */
  ghost function SortedIds(matches: seq<StoredMatch>): (ids: seq<string>)
    ensures forall i :: 0 <= i < |ids| ==> ids[i] in Ids(matches)
  {
    var ids := SortedOf(IdsIn(matches, Ids(matches)));
    assert forall i :: 0 <= i < |ids| ==> ids[i] in Ids(matches) by {
      forall i | 0 <= i < |ids| ensures ids[i] in Ids(matches) {
        assert ids[i] in multiset(ids);
        IdsInElements(matches, Ids(matches), ids[i]);
      }
    }
    ids
  }

  ghost function AssignmentList(matches: seq<StoredMatch>, hash: string -> nat): seq<Assignment> {
    Listed(Table(matches, hash), SortedIds(matches))
  }

  // ----- Uniting matches by shared players

  /** Equal roots mean connected, and players already seen are filed under a match they played in. */
  ghost predicate RootsSound(matches: seq<StoredMatch>, roots: map<string, string>, first: map<string, string>) {
    && roots.Keys == Ids(matches)
    && (forall a, b :: SoundPair(matches, roots, a, b))
    && (forall p :: SoundFirst(matches, first, p))
  }

  ghost predicate SoundPair(matches: seq<StoredMatch>, roots: map<string, string>, a: string, b: string) {
    a in roots && b in roots && roots[a] == roots[b] ==> Connected(matches, a, b)
  }

  ghost predicate SoundFirst(matches: seq<StoredMatch>, first: map<string, string>, p: string) {
    p in first ==> Plays(matches, first[p], p)
  }

  /** Player p of match id is filed, and id has the root of the match it is filed under. */
  ghost predicate Filed(roots: map<string, string>, first: map<string, string>, id: string, p: string) {
    p in first && first[p] in roots && id in roots && roots[first[p]] == roots[id]
  }

  ghost predicate FiledUpTo(matches: seq<StoredMatch>, n: nat, roots: map<string, string>, first: map<string, string>)
    requires n <= |matches|
  {
    forall id, p :: Plays(matches[..n], id, p) ==> Filed(roots, first, id, p)
  }

  lemma PlaysIsId(matches: seq<StoredMatch>, id: string, p: string)
    requires Plays(matches, id, p)
    ensures id in Ids(matches)
  {
  }

  lemma MergeKeepsSound(matches: seq<StoredMatch>, roots: map<string, string>, first: map<string, string>, a: string, b: string)
    requires RootsSound(matches, roots, first) && a in roots && b in roots && Linked(matches, a, b)
    ensures RootsSound(matches, UF.MergedRoots(roots, a, b), first)
  {
    var after := UF.MergedRoots(roots, a, b);
    LinkedConnected(matches, a, b);
    ConnectedSymmetric(matches, a, b);
    forall x, y ensures SoundPair(matches, after, x, y) {
      assert SoundPair(matches, roots, x, y);
      if x in after && y in after && after[x] == after[y] && roots[x] != roots[y] {
        var u := if roots[x] == roots[a] then a else b;
        var v := if roots[y] == roots[a] then a else b;
        assert roots[x] == roots[u] && roots[y] == roots[v];
        ConnectedReflexive(matches, u);
        assert SoundPair(matches, roots, x, u) && SoundPair(matches, roots, v, y);
        ConnectedTransitive(matches, x, u, v);
        ConnectedTransitive(matches, x, v, y);
      }
    }
  }

  /** When every player of every match is filed, connected matches have equal roots. */
  lemma {:induction false} ConnectedInSameRoot(matches: seq<StoredMatch>, roots: map<string, string>, first: map<string, string>,
                                               a: string, b: string, n: nat)
    requires roots.Keys == Ids(matches) && ConnectedIn(matches, a, b, n)
    requires forall id, p :: Plays(matches, id, p) ==> Filed(roots, first, id, p)
    ensures a in roots && b in roots && roots[a] == roots[b]
    decreases n
  {
    ConnectedInIds(matches, a, b, n);
    if n > 0 {
      var c :| Linked(matches, a, c) && ConnectedIn(matches, c, b, n - 1);
      ConnectedInSameRoot(matches, roots, first, c, b, n - 1);
      var p :| Plays(matches, a, p) && Plays(matches, c, p);
      assert Filed(roots, first, a, p) && Filed(roots, first, c, p);
    }
  }

  /** The first loop over the matches: one union for every player already seen in an earlier match. */
  method UniteByPlayers(u: UF.UnionFind, matches: seq<StoredMatch>)
    requires UF.Downward(u.parent) && u.parent.Keys == Ids(matches)
    requires UF.Roots(u.parent) == map id | id in Ids(matches) :: id
    modifies u
    ensures UF.Downward(u.parent) && u.parent.Keys == Ids(matches)
    ensures forall a, b :: a in Ids(matches) && b in Ids(matches) ==>
              (UF.Roots(u.parent)[a] == UF.Roots(u.parent)[b] <==> Connected(matches, a, b))
  {
    var first: map<string, string> := map[];
    forall a | a in Ids(matches) ensures Connected(matches, a, a) { ConnectedReflexive(matches, a); }
    for n := 0 to |matches|
      invariant UF.Downward(u.parent) && u.parent.Keys == Ids(matches)
      invariant RootsSound(matches, UF.Roots(u.parent), first)
      invariant FiledUpTo(matches, n, UF.Roots(u.parent), first)
    {
      assert matches[..n + 1] == matches[..n] + [matches[n]];
      if matches[n].context.Some? {
        assert forall p :: p in PlayersOf(matches[n].context.value.playerIDs) ==> PlaysAt(matches[n], matches[n].context.value.matchID, p);
        first := UnitePlayers(u, matches, matches[n].context.value.matchID, matches[n].context.value.playerIDs, first);
      }
    }
    assert matches[..|matches|] == matches;
    forall a, b | a in Ids(matches) && b in Ids(matches)
      ensures UF.Roots(u.parent)[a] == UF.Roots(u.parent)[b] ==> Connected(matches, a, b)
    {
      assert SoundPair(matches, UF.Roots(u.parent), a, b);
    }
    forall a, b | a in Ids(matches) && b in Ids(matches) && Connected(matches, a, b)
      ensures UF.Roots(u.parent)[a] == UF.Roots(u.parent)[b]
    {
      var n: nat :| ConnectedIn(matches, a, b, n);
      ConnectedInSameRoot(matches, UF.Roots(u.parent), first, a, b, n);
    }
  }

  /** One player of one match: unite with the match the player is filed under, or file the player. */
  method UnitePlayer(u: UF.UnionFind, matches: seq<StoredMatch>, mid: string, player: string, first0: map<string, string>)
    returns (first: map<string, string>)
    requires UF.Downward(u.parent) && u.parent.Keys == Ids(matches)
    requires RootsSound(matches, UF.Roots(u.parent), first0) && Plays(matches, mid, player)
    modifies u
    ensures UF.Downward(u.parent) && u.parent.Keys == Ids(matches)
    ensures RootsSound(matches, UF.Roots(u.parent), first)
    ensures KeepsFiled(UF.Roots(old(u.parent)), first0, UF.Roots(u.parent), first)
    ensures Filed(UF.Roots(u.parent), first, mid, player)
  {
    first := first0;
    PlaysIsId(matches, mid, player);
    ghost var roots := UF.Roots(u.parent);
    assert SoundFirst(matches, first, player);
    if player in first {
      PlaysIsId(matches, first[player], player);
      MergeKeepsSound(matches, roots, first, mid, first[player]);
      MergeKeepsAllFiled(roots, first, mid, first[player]);
      u.Union(mid, first[player]);
      MergeFiles(roots, first, mid, player);
    } else {
      first := first[player := mid];
      FileKeepsSound(matches, roots, first0, mid, player);
    }
  }

  lemma MergeFiles(roots: map<string, string>, first: map<string, string>, mid: string, player: string)
    requires player in first && first[player] in roots && mid in roots
    ensures Filed(UF.MergedRoots(roots, mid, first[player]), first, mid, player)
  {
  }

  lemma FileKeepsSound(matches: seq<StoredMatch>, roots: map<string, string>, first: map<string, string>, mid: string, player: string)
    requires RootsSound(matches, roots, first) && Plays(matches, mid, player) && player !in first && mid in roots
    ensures RootsSound(matches, roots, first[player := mid])
    ensures KeepsFiled(roots, first, roots, first[player := mid]) && Filed(roots, first[player := mid], mid, player)
  {
    var after := first[player := mid];
    forall p ensures SoundFirst(matches, after, p) { assert SoundFirst(matches, first, p); }
  }

  ghost predicate KeepsFiled(roots0: map<string, string>, first0: map<string, string>,
                             roots: map<string, string>, first: map<string, string>) {
    forall id, p :: Filed(roots0, first0, id, p) ==> Filed(roots, first, id, p)
  }

  lemma MergeKeepsAllFiled(roots: map<string, string>, first: map<string, string>, a: string, b: string)
    requires a in roots && b in roots
    ensures KeepsFiled(roots, first, UF.MergedRoots(roots, a, b), first)
  {
  }

  /** The players of one match. */
  method UnitePlayers(u: UF.UnionFind, matches: seq<StoredMatch>, mid: string, players: seq<string>, first0: map<string, string>)
    returns (first: map<string, string>)
    requires UF.Downward(u.parent) && u.parent.Keys == Ids(matches)
    requires RootsSound(matches, UF.Roots(u.parent), first0)
    requires forall p :: p in PlayersOf(players) ==> Plays(matches, mid, p)
    modifies u
    ensures UF.Downward(u.parent) && u.parent.Keys == Ids(matches)
    ensures RootsSound(matches, UF.Roots(u.parent), first)
    ensures KeepsFiled(UF.Roots(old(u.parent)), first0, UF.Roots(u.parent), first)
    ensures forall p :: p in PlayersOf(players) ==> Filed(UF.Roots(u.parent), first, mid, p)
  {
    first := first0;
    for j := 0 to |players|
      invariant UF.Downward(u.parent) && u.parent.Keys == Ids(matches)
      invariant RootsSound(matches, UF.Roots(u.parent), first)
      invariant KeepsFiled(UF.Roots(old(u.parent)), first0, UF.Roots(u.parent), first)
      invariant forall p :: p in PlayersOf(players[..j]) ==> Filed(UF.Roots(u.parent), first, mid, p)
    {
      var player := TrimSpace(players[j]);
      PlayersSnoc(players, j);
      if player == "" { continue; }
      assert players[j] in players && player in PlayersOf(players);
      first := UnitePlayer(u, matches, mid, player, first);
    }
    assert players[..|players|] == players;
  }

  lemma PlayersSnoc(ids: seq<string>, j: nat)
    requires j < |ids|
    ensures PlayersOf(ids[..j + 1]) ==
            PlayersOf(ids[..j]) + (if TrimSpace(ids[j]) != "" then {TrimSpace(ids[j])} else {})
  {
    assert ids[..j + 1] == ids[..j] + [ids[j]];
    assert forall p :: p in ids[..j + 1] <==> p in ids[..j] || p == ids[j];
  }

  // ----- Grouping by root

  ghost function Class(roots: map<string, string>, r: string): set<string> {
    set x | x in roots && roots[x] == r
  }

  lemma ClassIsComponent(matches: seq<StoredMatch>, roots: map<string, string>, id: string)
    requires roots.Keys == Ids(matches) && id in roots
    requires forall a, b :: a in Ids(matches) && b in Ids(matches) ==> (roots[a] == roots[b] <==> Connected(matches, a, b))
    ensures Class(roots, roots[id]) == Component(matches, id)
  {
  }

  function Filled(m: map<string, seq<string>>, r: string): seq<string> {
    if r in m then m[r] else []
  }

  function FilledSet(m: map<string, set<string>>, r: string): set<string> {
    if r in m then m[r] else {}
  }

  /** What the second loop has collected for root r after the first n matches. */
  ghost predicate GroupedAt(matches: seq<StoredMatch>, roots: map<string, string>, cm: map<string, seq<string>>,
                            cp: map<string, set<string>>, r: string) {
    && multiset(Filled(cm, r)) == IdsIn(matches, Class(roots, r))
    && FilledSet(cp, r) == PlayersIn(matches, Class(roots, r))
    && (r in cm <==> exists id :: id in Ids(matches) && id in roots && roots[id] == r)
  }

  lemma PlayersInSnoc(matches: seq<StoredMatch>, m: StoredMatch, members: set<string>)
    ensures PlayersIn(matches + [m], members) == PlayersIn(matches, members) +
            if m.context.Some? && m.context.value.matchID in members then PlayersOf(m.context.value.playerIDs) else {}
  {
  }

  lemma IdsSnoc(matches: seq<StoredMatch>, m: StoredMatch)
    ensures Ids(matches + [m]) == Ids(matches) + if m.context.Some? then {m.context.value.matchID} else {}
  {
  }

  lemma IdsInSnoc(matches: seq<StoredMatch>, m: StoredMatch, members: set<string>)
    ensures IdsIn(matches + [m], members) == IdsIn(matches, members) + IdOf(m, members)
  {
    assert (matches + [m])[..|matches|] == matches;
  }

  lemma GroupSnoc(matches: seq<StoredMatch>, m: StoredMatch, roots: map<string, string>,
                  cm: map<string, seq<string>>, cp: map<string, set<string>>, r: string)
    requires m.context.Some? && m.context.value.matchID in roots
    requires GroupedAt(matches, roots, cm, cp, r)
    ensures var root := roots[m.context.value.matchID];
            GroupedAt(matches + [m], roots,
                      cm[root := Filled(cm, root) + [m.context.value.matchID]],
                      cp[root := FilledSet(cp, root) + PlayersOf(m.context.value.playerIDs)], r)
  {
    IdsInSnoc(matches, m, Class(roots, r));
    PlayersInSnoc(matches, m, Class(roots, r));
    IdsSnoc(matches, m);
    var mid := m.context.value.matchID;
    assert mid in Ids(matches + [m]) && mid in roots;
  }

  lemma GroupSkip(matches: seq<StoredMatch>, m: StoredMatch, roots: map<string, string>,
                  cm: map<string, seq<string>>, cp: map<string, set<string>>, r: string)
    requires m.context.None? && GroupedAt(matches, roots, cm, cp, r)
    ensures GroupedAt(matches + [m], roots, cm, cp, r)
  {
    IdsInSnoc(matches, m, Class(roots, r));
    PlayersInSnoc(matches, m, Class(roots, r));
    IdsSnoc(matches, m);
  }

  ghost predicate Grouped(matches: seq<StoredMatch>, roots: map<string, string>, cm: map<string, seq<string>>, cp: map<string, set<string>>) {
    cm.Keys == cp.Keys && forall r :: GroupedAt(matches, roots, cm, cp, r)
  }

  lemma GroupAllSnoc(matches: seq<StoredMatch>, m: StoredMatch, roots: map<string, string>,
                     cm: map<string, seq<string>>, cp: map<string, set<string>>,
                     cm1: map<string, seq<string>>, cp1: map<string, set<string>>)
    requires Grouped(matches, roots, cm, cp) && (m.context.Some? ==> m.context.value.matchID in roots)
    requires if m.context.None? then cm1 == cm && cp1 == cp
             else var c := m.context.value;
                  var root := roots[c.matchID];
                  && cm1 == cm[root := Filled(cm, root) + [c.matchID]]
                  && cp1 == cp[root := FilledSet(cp, root) + PlayersOf(c.playerIDs)]
    ensures Grouped(matches + [m], roots, cm1, cp1)
  {
    var longer := matches + [m];
    forall r ensures GroupedAt(longer, roots, cm1, cp1, r) {
      assert GroupedAt(matches, roots, cm, cp, r);
      if m.context.None? {
        GroupSkip(matches, m, roots, cm, cp, r);
      } else {
        GroupSnoc(matches, m, roots, cm, cp, r);
      }
    }
  }

  /** The second loop over the matches: the ids and players of every root. */
  method GroupByRoot(u: UF.UnionFind, matches: seq<StoredMatch>)
    returns (cm: map<string, seq<string>>, cp: map<string, set<string>>)
    requires UF.Downward(u.parent) && u.parent.Keys == Ids(matches)
    modifies u
    ensures UF.Downward(u.parent) && UF.Roots(u.parent) == UF.Roots(old(u.parent))
    ensures Grouped(matches, UF.Roots(u.parent), cm, cp)
  {
    cm, cp := map[], map[];
    ghost var roots := UF.Roots(u.parent);
    for n := 0 to |matches|
      invariant UF.Downward(u.parent) && u.parent.Keys == Ids(matches) && UF.Roots(u.parent) == roots
      invariant Grouped(matches[..n], roots, cm, cp)
    {
      var m := matches[n];
      assert matches[..n + 1] == matches[..n] + [m] && m in matches;
      ghost var cm0, cp0 := cm, cp;
      if m.context.Some? {
        var root := u.Find(m.context.value.matchID);
        cm := cm[root := Filled(cm, root) + [m.context.value.matchID]];
        cp := cp[root := FilledSet(cp, root) + PlayersOf(m.context.value.playerIDs)];
      }
      GroupAllSnoc(matches[..n], m, roots, cm0, cp0, cm, cp);
    }
    assert matches[..|matches|] == matches;
  }

  // ----- The assignment list

  function MatchIDs(xs: seq<Assignment>): seq<string> {
    if xs == [] then [] else [xs[0].matchID] + MatchIDs(xs[1..])
  }

  function InsertAssignment(a: Assignment, xs: seq<Assignment>): seq<Assignment> {
    if xs == [] || AtMost(a.matchID, xs[0].matchID) then [a] + xs else [xs[0]] + InsertAssignment(a, xs[1..])
  }

  /** sort.Slice by match id. */
  function SortAssignments(xs: seq<Assignment>): seq<Assignment> {
    if xs == [] then [] else InsertAssignment(xs[0], SortAssignments(xs[1..]))
  }

  /** Every listed assignment is the one the table has for its match. */
  ghost predicate AllAssigned(table: map<string, Assignment>, xs: seq<Assignment>) {
    forall i :: 0 <= i < |xs| ==> xs[i].matchID in table && xs[i] == table[xs[i].matchID]
  }

  lemma {:induction false} InsertAssignmentIds(table: map<string, Assignment>, a: Assignment, xs: seq<Assignment>)
    requires AllAssigned(table, xs) && AllAssigned(table, [a])
    ensures MatchIDs(InsertAssignment(a, xs)) == Insert(a.matchID, MatchIDs(xs))
    ensures AllAssigned(table, InsertAssignment(a, xs))
  {
    assert a == [a][0];
    if xs != [] && !AtMost(a.matchID, xs[0].matchID) {
      InsertAssignmentIds(table, a, xs[1..]);
      assert MatchIDs(xs)[1..] == MatchIDs(xs[1..]);
    }
  }

  lemma {:induction false} SortAssignmentsIds(table: map<string, Assignment>, xs: seq<Assignment>)
    requires AllAssigned(table, xs)
    ensures MatchIDs(SortAssignments(xs)) == SortStrings(MatchIDs(xs))
    ensures AllAssigned(table, SortAssignments(xs))
  {
    if xs != [] {
      SortAssignmentsIds(table, xs[1..]);
      InsertAssignmentIds(table, xs[0], SortAssignments(xs[1..]));
      assert MatchIDs(xs)[1..] == MatchIDs(xs[1..]);
    }
  }

  lemma {:induction false} MatchIDsAt(xs: seq<Assignment>, i: nat)
    requires i < |xs|
    ensures |MatchIDs(xs)| == |xs| && MatchIDs(xs)[i] == xs[i].matchID
  {
    if |xs| > 1 { MatchIDsAt(xs[1..], if i > 0 then i - 1 else 0); }
  }

  lemma {:induction false} MatchIDsSnoc(xs: seq<Assignment>, a: Assignment)
    ensures MatchIDs(xs + [a]) == MatchIDs(xs) + [a.matchID]
  {
    if xs != [] {
      MatchIDsSnoc(xs[1..], a);
      assert (xs + [a])[1..] == xs[1..] + [a];
    }
  }

  lemma SortedAssignments(table: map<string, Assignment>, xs: seq<Assignment>, ids: seq<string>)
    requires AllAssigned(table, xs) && SortStrings(MatchIDs(xs)) == ids
    ensures var ys := SortAssignments(xs);
            |ys| == |ids| && forall i :: 0 <= i < |ids| ==> ids[i] in table && ys[i] == table[ids[i]]
  {
    SortAssignmentsIds(table, xs);
    var ys := SortAssignments(xs);
    if ys != [] { MatchIDsAt(ys, 0); }
    forall i | 0 <= i < |ys| ensures ids[i] in table && ys[i] == table[ids[i]] { MatchIDsAt(ys, i); }
  }

  // ----- groupedDatasetSplits

  /** A range over a Go map: the elements of the set in some order. */
  method InSomeOrder(s: set<string>) returns (xs: seq<string>)
    ensures multiset(xs) == multiset(s)
  {
    xs := [];
    var rest := s;
    while rest != {}
      invariant rest <= s && multiset(xs) == multiset(s - rest)
      decreases |rest|
    {
      var x :| x in rest;
      assert s - (rest - {x}) == (s - rest) + {x};
      rest := rest - {x};
      xs := xs + [x];
    }
    assert s - {} == s;
  }

  method GroupKeyOf(players: set<string>, mids: seq<string>) returns (key: string)
    ensures key == KeyOf(players, multiset(mids))
  {
    var listed := InSomeOrder(players);
    SortedOfListing(listed);
    SortedOfListing(mids);
    key := if players != {} then "players:" + Join(SortStrings(listed)) else "matches:" + Join(SortStrings(mids));
  }

  ghost function IdsOfRoots(roots: map<string, string>, done: set<string>): set<string> {
    set x | x in roots && roots[x] in done
  }

  lemma {:induction false} IdsInUnion(matches: seq<StoredMatch>, a: set<string>, b: set<string>)
    requires a !! b
    ensures IdsIn(matches, a + b) == IdsIn(matches, a) + IdsIn(matches, b)
  {
    if matches != [] { IdsInUnion(matches[..|matches| - 1], a, b); }
  }

  ghost predicate OutAt(table: map<string, Assignment>, out: map<string, Split>, id: string) {
    id in out ==> id in table && out[id] == table[id].split
  }

  ghost predicate OutFrom(table: map<string, Assignment>, out: map<string, Split>) {
    forall id :: OutAt(table, out, id)
  }

  /** What the last loop has written for the given ids. */
  ghost predicate Written(matches: seq<StoredMatch>, table: map<string, Assignment>, ids: set<string>,
                          out: map<string, Split>, assignments: seq<Assignment>) {
    && out.Keys == ids && OutFrom(table, out)
    && AllAssigned(table, assignments)
    && multiset(MatchIDs(assignments)) == IdsIn(matches, ids)
  }

  lemma WriteOne(table: map<string, Assignment>, out: map<string, Split>, assignments: seq<Assignment>, a: Assignment)
    requires OutFrom(table, out) && AllAssigned(table, assignments)
    requires a.matchID in table && table[a.matchID] == a
    ensures OutFrom(table, out[a.matchID := a.split]) && AllAssigned(table, assignments + [a])
    ensures MatchIDs(assignments + [a]) == MatchIDs(assignments) + [a.matchID]
  {
    MatchIDsSnoc(assignments, a);
    var longer := out[a.matchID := a.split];
    forall id ensures OutAt(table, longer, id) { assert OutAt(table, out, id); }
  }

  /** The assignments of one component. */
  method AssignComponent(ghost table: map<string, Assignment>, key: string, split: Split, mids: seq<string>,
                         out0: map<string, Split>, assignments0: seq<Assignment>)
    returns (out: map<string, Split>, assignments: seq<Assignment>)
    requires forall i :: 0 <= i < |mids| ==> mids[i] in table && table[mids[i]] == Assignment(mids[i], key, split)
    requires OutFrom(table, out0) && AllAssigned(table, assignments0)
    ensures out.Keys == out0.Keys + Elements(mids)
    ensures OutFrom(table, out) && AllAssigned(table, assignments)
    ensures MatchIDs(assignments) == MatchIDs(assignments0) + mids
  {
    out, assignments := out0, assignments0;
    for i := 0 to |mids|
      invariant out.Keys == out0.Keys + Elements(mids[..i])
      invariant OutFrom(table, out) && AllAssigned(table, assignments)
      invariant MatchIDs(assignments) == MatchIDs(assignments0) + mids[..i]
    {
      var a := Assignment(mids[i], key, split);
      WriteOne(table, out, assignments, a);
      SetSnoc(mids, i);
      out := out[a.matchID := a.split];
      assignments := assignments + [a];
    }
    assert mids[..|mids|] == mids;
  }

  function Elements(xs: seq<string>): set<string> {
    set x | x in xs
  }

  lemma SetSnoc(xs: seq<string>, i: nat)
    requires i < |xs|
    ensures xs[..i + 1] == xs[..i] + [xs[i]]
    ensures Elements(xs[..i + 1]) == Elements(xs[..i]) + {xs[i]}
  {
  }

  lemma WriteClass(matches: seq<StoredMatch>, ids: set<string>, added: set<string>, mids: seq<string>)
    requires ids !! added && added <= Ids(matches) && multiset(mids) == IdsIn(matches, added)
    ensures IdsIn(matches, ids + added) == IdsIn(matches, ids) + multiset(mids)
    ensures Elements(mids) == added
  {
    IdsInUnion(matches, ids, added);
    forall i | 0 <= i < |mids| ensures mids[i] in added {
      assert mids[i] in multiset(mids);
      IdsInElements(matches, added, mids[i]);
    }
    forall id | id in added ensures id in mids {
      IdsInElements(matches, added, id);
      assert id in multiset(mids);
    }
  }

  lemma KeyOfClass(matches: seq<StoredMatch>, hash: string -> nat, roots: map<string, string>, root: string, id: string)
    requires roots.Keys == Ids(matches) && id in Class(roots, root)
    requires forall a, b :: a in Ids(matches) && b in Ids(matches) ==> (roots[a] == roots[b] <==> Connected(matches, a, b))
    ensures var key := KeyOf(PlayersIn(matches, Class(roots, root)), IdsIn(matches, Class(roots, root)));
            id in Table(matches, hash) && Table(matches, hash)[id] == Assignment(id, key, SplitForGroup(hash, key))
  {
    ClassIsComponent(matches, roots, id);
  }

  /** The members all have the assignment that their common players and ids determine. */
  ghost predicate Keyed(matches: seq<StoredMatch>, table: map<string, Assignment>, hash: string -> nat, members: set<string>) {
    var key := KeyOf(PlayersIn(matches, members), IdsIn(matches, members));
    forall id :: id in members ==> id in table && table[id] == Assignment(id, key, SplitForGroup(hash, key))
  }

  lemma ClassIsKeyed(matches: seq<StoredMatch>, hash: string -> nat, roots: map<string, string>, root: string)
    requires roots.Keys == Ids(matches)
    requires forall a, b :: a in Ids(matches) && b in Ids(matches) ==> (roots[a] == roots[b] <==> Connected(matches, a, b))
    ensures Keyed(matches, Table(matches, hash), hash, Class(roots, root))
  {
    var key := KeyOf(PlayersIn(matches, Class(roots, root)), IdsIn(matches, Class(roots, root)));
    forall id | id in Class(roots, root)
      ensures id in Table(matches, hash) && Table(matches, hash)[id] == Assignment(id, key, SplitForGroup(hash, key))
    {
      KeyOfClass(matches, hash, roots, root, id);
    }
  }

  /** The body of the last loop for one root. */
  method AssignRoot(matches: seq<StoredMatch>, hash: string -> nat, ghost table: map<string, Assignment>,
                    ghost ids: set<string>, ghost added: set<string>, players: set<string>, mids: seq<string>,
                    out0: map<string, Split>, assignments0: seq<Assignment>)
    returns (out: map<string, Split>, assignments: seq<Assignment>)
    requires ids !! added && added <= Ids(matches) <= table.Keys
    requires multiset(mids) == IdsIn(matches, added) && players == PlayersIn(matches, added)
    requires Keyed(matches, table, hash, added)
    requires Written(matches, table, ids, out0, assignments0)
    ensures Written(matches, table, ids + added, out, assignments)
  {
    var key := GroupKeyOf(players, mids);
    SortIsSorted(mids);
    var sorted, split := SortStrings(mids), SplitForGroup(hash, key);
    forall i | 0 <= i < |sorted| ensures sorted[i] in added {
      assert sorted[i] in multiset(sorted);
      IdsInElements(matches, added, sorted[i]);
    }
    out, assignments := AssignComponent(table, key, split, sorted, out0, assignments0);
    WriteClass(matches, ids, added, sorted);
  }

  /** The last loop: a range over the components. */
  method AssignComponents(matches: seq<StoredMatch>, hash: string -> nat, ghost roots: map<string, string>,
                          ghost table: map<string, Assignment>, cm: map<string, seq<string>>, cp: map<string, set<string>>)
    returns (out: map<string, Split>, assignments: seq<Assignment>)
    requires roots.Keys == Ids(matches) == table.Keys && Grouped(matches, roots, cm, cp)
    requires forall r :: Keyed(matches, table, hash, Class(roots, r))
    ensures Written(matches, table, Ids(matches), out, assignments)
  {
    hide Written, Keyed;
    out, assignments := map[], [];
    var rest := cm.Keys;
    ghost var done := {};
    KeysAreRoots(matches, roots, cm, cp);
    NothingWritten(matches, table, roots);
    while rest != {}
      invariant rest !! done && rest + done == cm.Keys
      invariant Written(matches, table, IdsOfRoots(roots, done), out, assignments)
      decreases |rest|
    {
      var root :| root in rest;
      assert GroupedAt(matches, roots, cm, cp, root);
      DoneSnoc(roots, done, root);
      out, assignments := AssignRoot(matches, hash, table, IdsOfRoots(roots, done), Class(roots, root),
                                     cp[root], cm[root], out, assignments);
      rest, done := rest - {root}, done + {root};
    }
    AllDone(roots);
  }

  lemma DoneSnoc(roots: map<string, string>, done: set<string>, root: string)
    requires root !in done
    ensures IdsOfRoots(roots, done) !! Class(roots, root) && Class(roots, root) <= roots.Keys
    ensures IdsOfRoots(roots, done + {root}) == IdsOfRoots(roots, done) + Class(roots, root)
  {
  }

  lemma AllDone(roots: map<string, string>)
    ensures IdsOfRoots(roots, roots.Values) == roots.Keys
  {
  }

  method ListIds(matches: seq<StoredMatch>) returns (ids: seq<string>)
    ensures (set id | id in ids) == Ids(matches)
  {
    ids := [];
    for n := 0 to |matches|
      invariant (set id | id in ids) == Ids(matches[..n])
    {
      assert matches[..n + 1] == matches[..n] + [matches[n]];
      IdsSnoc(matches[..n], matches[n]);
      if matches[n].context.Some? { ids := ids + [matches[n].context.value.matchID]; }
    }
    assert matches[..|matches|] == matches;
  }

  /** groupedDatasetSplits: the result depends on nothing but who played where. */
  method GroupedDatasetSplits(matches: seq<StoredMatch>, hash: string -> nat)
    returns (out: map<string, Split>, assignments: seq<Assignment>)
    ensures out == SplitMap(matches, hash)
    ensures assignments == AssignmentList(matches, hash)
  {
    var ids := ListIds(matches);
    var u := new UF.UnionFind(ids);
    UniteByPlayers(u, matches);
    var cm, cp := GroupByRoot(u, matches);
    ghost var roots := UF.Roots(u.parent);
    forall r ensures Keyed(matches, Table(matches, hash), hash, Class(roots, r)) { ClassIsKeyed(matches, hash, roots, r); }
    out, assignments := AssignComponents(matches, hash, roots, Table(matches, hash), cm, cp);
    WrittenIsResult(matches, hash, out, assignments);
    assignments := SortAssignments(assignments);
  }

  lemma WrittenIsResult(matches: seq<StoredMatch>, hash: string -> nat, out: map<string, Split>, assignments: seq<Assignment>)
    requires Written(matches, Table(matches, hash), Ids(matches), out, assignments)
    ensures out == SplitMap(matches, hash) && SortAssignments(assignments) == AssignmentList(matches, hash)
  {
    WrittenSplits(matches, Table(matches, hash), out, assignments);
    ResultList(matches, Table(matches, hash), assignments);
  }

  lemma WrittenSplits(matches: seq<StoredMatch>, table: map<string, Assignment>, out: map<string, Split>, assignments: seq<Assignment>)
    requires Written(matches, table, Ids(matches), out, assignments) && table.Keys == Ids(matches)
    ensures out == SplitsOf(table)
  {
    forall id | id in out ensures out[id] == table[id].split { assert OutAt(table, out, id); }
  }

  lemma ResultList(matches: seq<StoredMatch>, table: map<string, Assignment>, assignments: seq<Assignment>)
    requires AllAssigned(table, assignments) && multiset(MatchIDs(assignments)) == IdsIn(matches, Ids(matches))
    requires table.Keys == Ids(matches)
    ensures SortAssignments(assignments) == Listed(table, SortedIds(matches))
  {
    SortedOfListing(MatchIDs(assignments));
    SortedAssignments(table, assignments, SortedIds(matches));
  }

  lemma KeysAreRoots(matches: seq<StoredMatch>, roots: map<string, string>, cm: map<string, seq<string>>, cp: map<string, set<string>>)
    requires Grouped(matches, roots, cm, cp) && roots.Keys == Ids(matches)
    ensures cm.Keys == roots.Values
  {
    forall r ensures r in cm <==> r in roots.Values { assert GroupedAt(matches, roots, cm, cp, r); }
  }

  lemma {:induction false} IdsInNothing(matches: seq<StoredMatch>)
    ensures IdsIn(matches, {}) == multiset{}
  {
    if matches != [] { IdsInNothing(matches[..|matches| - 1]); }
  }

  lemma NothingWritten(matches: seq<StoredMatch>, table: map<string, Assignment>, roots: map<string, string>)
    ensures Written(matches, table, IdsOfRoots(roots, {}), map[], [])
  {
    assert IdsOfRoots(roots, {}) == {};
    IdsInNothing(matches);
  }
}
