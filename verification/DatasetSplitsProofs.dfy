/** What groupedDatasetSplits is for: no player in two splits, whatever the order of the library, and stable keys. */
module DatasetSplitsProofs {
  import opened Common
  import opened Strings
  import opened DatasetSplits
  import UF = UnionFind

  // ----- Connected matches are never separated

  lemma ConnectedShareKey(matches: seq<StoredMatch>, hash: string -> nat, a: string, b: string)
    requires Connected(matches, a, b)
    ensures GroupKey(matches, a) == GroupKey(matches, b)
    ensures a in SplitMap(matches, hash) && b in SplitMap(matches, hash)
    ensures SplitMap(matches, hash)[a] == SplitMap(matches, hash)[b]
  {
    ComponentsAgree(matches, a, b);
    var n: nat :| ConnectedIn(matches, a, b, n);
    ConnectedInIds(matches, a, b, n);
  }

  /** A player never appears in two splits. */
  lemma NoPlayerLeaks(matches: seq<StoredMatch>, hash: string -> nat, a: string, b: string, player: string)
    requires Plays(matches, a, player) && Plays(matches, b, player)
    ensures a in SplitMap(matches, hash) && b in SplitMap(matches, hash)
    ensures SplitMap(matches, hash)[a] == SplitMap(matches, hash)[b]
  {
    assert Linked(matches, a, b);
    LinkedConnected(matches, a, b);
    ConnectedShareKey(matches, hash, a, b);
  }

  /** The union-find root of a match is the smallest id of its component. */
  lemma RootIsMinimum(matches: seq<StoredMatch>, parent: map<string, string>, id: string, other: string)
    requires UF.Downward(parent) && parent.Keys == Ids(matches) && id in parent && other in Component(matches, id)
    requires forall a, b :: a in Ids(matches) && b in Ids(matches) ==>
               (UF.Roots(parent)[a] == UF.Roots(parent)[b] <==> Connected(matches, a, b))
    ensures UF.Root(parent, id) in Component(matches, id) && AtMost(UF.Root(parent, id), other)
  {
    var roots := UF.Roots(parent);
    UF.RootIsRoot(parent, id);
    UF.RootIsRoot(parent, other);
    assert roots[id] == UF.Root(parent, id) && roots[other] == UF.Root(parent, other);
    assert roots[roots[id]] == roots[id];
    assert roots[id] == roots[other];
  }

  // ----- Independence of the order of the library

  lemma SamePlays(m1: seq<StoredMatch>, m2: seq<StoredMatch>, id: string, p: string)
    requires forall m :: m in m1 ==> m in m2
    requires Plays(m1, id, p)
    ensures Plays(m2, id, p)
  {
  }

  lemma {:induction false} SameConnectedIn(m1: seq<StoredMatch>, m2: seq<StoredMatch>, a: string, b: string, n: nat)
    requires forall m :: m in m1 ==> m in m2
    requires ConnectedIn(m1, a, b, n)
    ensures ConnectedIn(m2, a, b, n)
    decreases n
  {
    if n > 0 {
      var c :| Linked(m1, a, c) && ConnectedIn(m1, c, b, n - 1);
      var p :| Plays(m1, a, p) && Plays(m1, c, p);
      SamePlays(m1, m2, a, p);
      SamePlays(m1, m2, c, p);
      assert Linked(m2, a, c);
      SameConnectedIn(m1, m2, c, b, n - 1);
    }
  }

  lemma MoreMatchesConnect(m1: seq<StoredMatch>, m2: seq<StoredMatch>, a: string, b: string)
    requires forall m :: m in m1 ==> m in m2
    requires Connected(m1, a, b)
    ensures Connected(m2, a, b)
  {
    var n: nat :| ConnectedIn(m1, a, b, n);
    SameConnectedIn(m1, m2, a, b, n);
  }

  lemma SameComponent(m1: seq<StoredMatch>, m2: seq<StoredMatch>, id: string)
    requires forall m :: m in m1 <==> m in m2
    ensures Ids(m1) == Ids(m2) && Component(m1, id) == Component(m2, id)
  {
    forall b ensures Connected(m1, id, b) <==> Connected(m2, id, b) {
      if Connected(m1, id, b) { MoreMatchesConnect(m1, m2, id, b); }
      if Connected(m2, id, b) { MoreMatchesConnect(m2, m1, id, b); }
    }
  }

  lemma {:induction false} IdsInConcat(a: seq<StoredMatch>, b: seq<StoredMatch>, members: set<string>)
    ensures IdsIn(a + b, members) == IdsIn(a, members) + IdsIn(b, members)
  {
    if b == [] {
      assert a + b == a;
    } else {
      var front, last := b[..|b| - 1], b[|b| - 1];
      IdsInConcat(a, front, members);
      LastMoves(a, b);
      IdsInSnoc(a + front, last, members);
      IdsInSnoc(front, last, members);
      SumAssociates(IdsIn(a, members), IdsIn(front, members), IdOf(last, members));
    }
  }

  lemma LastMoves<T>(a: seq<T>, b: seq<T>)
    requires b != []
    ensures a + b == (a + b[..|b| - 1]) + [b[|b| - 1]] && b == b[..|b| - 1] + [b[|b| - 1]]
  {
  }

  lemma SumAssociates(a: multiset<string>, b: multiset<string>, c: multiset<string>)
    ensures (a + b) + c == a + (b + c)
  {
  }

  lemma SumSwaps(a: multiset<string>, b: multiset<string>, c: multiset<string>)
    ensures (a + b) + c == (a + c) + b
  {
  }

  lemma IdsInMoveLast(before: seq<StoredMatch>, m: StoredMatch, after: seq<StoredMatch>, members: set<string>)
    ensures IdsIn(before + [m] + after, members) == IdsIn(before + after + [m], members)
  {
    IdsInConcat(before + [m], after, members);
    IdsInConcat(before, [m], members);
    IdsInConcat(before + after, [m], members);
    IdsInConcat(before, after, members);
    SumSwaps(IdsIn(before, members), IdsIn([m], members), IdsIn(after, members));
  }

  lemma {:induction false} IdsInPermutation(m1: seq<StoredMatch>, m2: seq<StoredMatch>, members: set<string>)
    requires multiset(m1) == multiset(m2)
    ensures IdsIn(m1, members) == IdsIn(m2, members)
  {
    assert |m1| == |multiset(m1)| == |multiset(m2)| == |m2|;
    if m1 != [] {
      var front, last := m1[..|m1| - 1], m1[|m1| - 1];
      assert m1 == front + [last];
      var before, after := TakeOut(m2, last);
      assert multiset(before + after) == multiset(front);
      IdsInPermutation(front, before + after, members);
      IdsInMoveLast(before, last, after, members);
      SameAfterLast(front, before + after, last, members);
    }
  }

  lemma TakeOut<T>(xs: seq<T>, x: T) returns (before: seq<T>, after: seq<T>)
    requires x in multiset(xs)
    ensures xs == before + [x] + after && multiset(before + after) == multiset(xs) - multiset{x}
  {
    var i :| 0 <= i < |xs| && xs[i] == x;
    before, after := xs[..i], xs[i + 1..];
    assert xs == before + [x] + after;
  }

  lemma SameAfterLast(a: seq<StoredMatch>, b: seq<StoredMatch>, m: StoredMatch, members: set<string>)
    requires IdsIn(a, members) == IdsIn(b, members)
    ensures IdsIn(a + [m], members) == IdsIn(b + [m], members)
  {
    IdsInSnoc(a, m, members);
    IdsInSnoc(b, m, members);
  }

  lemma KeyOfPermutation(m1: seq<StoredMatch>, m2: seq<StoredMatch>, id: string)
    requires multiset(m1) == multiset(m2)
    ensures GroupKey(m1, id) == GroupKey(m2, id)
  {
    SameElements(m1, m2);
    SameComponent(m1, m2, id);
    IdsInPermutation(m1, m2, Component(m1, id));
    assert PlayersIn(m1, Component(m1, id)) == PlayersIn(m2, Component(m1, id));
  }

  lemma SameElements<T>(xs: seq<T>, ys: seq<T>)
    requires multiset(xs) == multiset(ys)
    ensures forall x :: x in xs <==> x in ys
  {
    forall x ensures x in xs <==> x in ys { assert (x in xs <==> x in multiset(xs)) && (x in ys <==> x in multiset(ys)); }
  }

  /** The split map and the assignment list do not depend on the order in which the matches are listed. */
  lemma OrderDoesNotMatter(m1: seq<StoredMatch>, m2: seq<StoredMatch>, hash: string -> nat)
    requires multiset(m1) == multiset(m2)
    ensures SplitMap(m1, hash) == SplitMap(m2, hash)
    ensures AssignmentList(m1, hash) == AssignmentList(m2, hash)
  {
    SameElements(m1, m2);
    assert Ids(m1) == Ids(m2);
    forall id | id in Ids(m1) ensures AssignmentOf(m1, hash, id) == AssignmentOf(m2, hash, id) { KeyOfPermutation(m1, m2, id); }
    assert Table(m1, hash) == Table(m2, hash);
    IdsInPermutation(m1, m2, Ids(m1));
    SortedIsUnique(SortedIds(m1), SortedIds(m2));
  }

  // ----- Unrelated matches

  /** No added match has an id of the component or shares a player with it. */
  ghost predicate Unrelated(matches: seq<StoredMatch>, extra: seq<StoredMatch>, members: set<string>) {
    forall e :: e in extra && e.context.Some? ==>
      && e.context.value.matchID !in members
      && PlayersOf(e.context.value.playerIDs) !! PlayersIn(matches, members)
  }

  lemma LinkStaysInside(matches: seq<StoredMatch>, extra: seq<StoredMatch>, id: string, a: string, b: string)
    requires Unrelated(matches, extra, Component(matches, id)) && a in Component(matches, id)
    requires Linked(matches + extra, a, b)
    ensures Linked(matches, a, b)
  {
    var p :| Plays(matches + extra, a, p) && Plays(matches + extra, b, p);
    var m :| m in matches + extra && PlaysAt(m, a, p);
    assert m in matches;
    assert Plays(matches, a, p) && p in PlayersIn(matches, Component(matches, id));
    var k :| k in matches + extra && PlaysAt(k, b, p);
    assert k in matches;
    assert Plays(matches, b, p);
  }

  lemma {:induction false} ReachStaysInside(matches: seq<StoredMatch>, extra: seq<StoredMatch>, id: string, a: string, b: string, n: nat)
    requires id in Ids(matches) && Unrelated(matches, extra, Component(matches, id)) && a in Component(matches, id)
    requires ConnectedIn(matches + extra, a, b, n)
    ensures b in Component(matches, id)
    decreases n
  {
    hide Linked, Unrelated;
    if n > 0 {
      var c :| Linked(matches + extra, a, c) && ConnectedIn(matches + extra, c, b, n - 1);
      LinkStaysInside(matches, extra, id, a, c);
      LinkedIds(matches, a, c);
      LinkedConnected(matches, a, c);
      ConnectedTransitive(matches, id, a, c);
      ReachStaysInside(matches, extra, id, c, b, n - 1);
    }
  }

  lemma ComponentIsUnmoved(matches: seq<StoredMatch>, extra: seq<StoredMatch>, id: string)
    requires id in Ids(matches) && Unrelated(matches, extra, Component(matches, id))
    ensures Component(matches + extra, id) == Component(matches, id)
  {
    var all := matches + extra;
    ConnectedReflexive(matches, id);
    forall b | b in Component(all, id) ensures b in Component(matches, id) {
      var n: nat :| ConnectedIn(all, id, b, n);
      ReachStaysInside(matches, extra, id, id, b, n);
    }
    forall b | b in Component(matches, id) ensures b in Component(all, id) {
      MoreMatchesConnect(matches, all, id, b);
    }
  }

  lemma {:induction false} NoIdsAmong(extra: seq<StoredMatch>, members: set<string>)
    requires forall e :: e in extra && e.context.Some? ==> e.context.value.matchID !in members
    ensures IdsIn(extra, members) == multiset{}
  {
    if extra != [] { NoIdsAmong(extra[..|extra| - 1], members); }
  }

  /** Adding matches that share no player with a component leaves its key and its split unchanged. */
  lemma UnrelatedMatchesChangeNothing(matches: seq<StoredMatch>, extra: seq<StoredMatch>, hash: string -> nat, id: string)
    requires id in Ids(matches) && Unrelated(matches, extra, Component(matches, id))
    ensures GroupKey(matches + extra, id) == GroupKey(matches, id)
    ensures id in SplitMap(matches, hash) && id in SplitMap(matches + extra, hash)
    ensures SplitMap(matches + extra, hash)[id] == SplitMap(matches, hash)[id]
  {
    var members := Component(matches, id);
    ComponentIsUnmoved(matches, extra, id);
    SameIdsInside(matches, extra, members);
    SamePlayersInside(matches, extra, members);
    assert id in Ids(matches + extra);
    assert AssignmentOf(matches + extra, hash, id) == AssignmentOf(matches, hash, id);
  }

  lemma SameIdsInside(matches: seq<StoredMatch>, extra: seq<StoredMatch>, members: set<string>)
    requires Unrelated(matches, extra, members)
    ensures IdsIn(matches + extra, members) == IdsIn(matches, members)
  {
    IdsInConcat(matches, extra, members);
    NoIdsAmong(extra, members);
  }

  lemma SamePlayersInside(matches: seq<StoredMatch>, extra: seq<StoredMatch>, members: set<string>)
    requires Unrelated(matches, extra, members)
    ensures PlayersIn(matches + extra, members) == PlayersIn(matches, members)
  {
  }

  // ----- When the key tells components apart

  predicate BarFree(s: string) {
    forall i :: 0 <= i < |s| ==> s[i] != '|'
  }

  lemma JoinSplits(xs: seq<string>)
    requires |xs| > 1
    ensures |xs[0]| < |Join(xs)| && Join(xs)[..|xs[0]|] == xs[0] && Join(xs)[|xs[0]|] == '|'
    ensures Join(xs)[|xs[0]| + 1..] == Join(xs[1..])
  {
  }

  lemma BarAt(s: string, i: nat)
    requires BarFree(s) && i < |s|
    ensures s[i] != '|'
  {
  }

  lemma FirstBarIsUnique(s: string, i: nat, j: nat)
    requires i < |s| && j < |s| && s[i] == '|' && s[j] == '|' && BarFree(s[..i]) && BarFree(s[..j])
    ensures i == j
  {
    if i < j {
      BarAt(s[..j], i);
      assert false;
    }
    if j < i {
      BarAt(s[..i], j);
      assert false;
    }
  }

  lemma {:induction false} JoinInjective(xs: seq<string>, ys: seq<string>)
    requires xs != [] && ys != [] && Join(xs) == Join(ys)
    requires forall i :: 0 <= i < |xs| ==> BarFree(xs[i])
    requires forall i :: 0 <= i < |ys| ==> BarFree(ys[i])
    ensures xs == ys
  {
    if |xs| > 1 { JoinSplits(xs); }
    if |ys| > 1 { JoinSplits(ys); }
    if |xs| > 1 && |ys| > 1 {
      FirstBarIsUnique(Join(xs), |xs[0]|, |ys[0]|);
      JoinInjective(xs[1..], ys[1..]);
      assert xs == [xs[0]] + xs[1..] && ys == [ys[0]] + ys[1..];
    } else if |xs| == 1 && |ys| == 1 {
      assert xs == [xs[0]] && ys == [ys[0]];
    } else if |xs| == 1 {
      OneIsNotMany(xs[0], ys);
    } else {
      OneIsNotMany(ys[0], xs);
    }
  }

  lemma OneIsNotMany(x: string, ys: seq<string>)
    requires BarFree(x) && |ys| > 1
    ensures x != Join(ys)
  {
    assert !BarFree(Join(ys)) by { JoinSplits(ys); }
  }

  ghost predicate BarFreeLibrary(matches: seq<StoredMatch>) {
    && (forall id :: id in Ids(matches) ==> BarFree(id))
    && (forall id, p :: Plays(matches, id, p) ==> BarFree(p))
  }

  lemma ListedKeysAgree(m1: multiset<string>, m2: multiset<string>)
    requires m1 != multiset{} && m2 != multiset{} && Join(SortedOf(m1)) == Join(SortedOf(m2))
    requires forall s :: s in m1 || s in m2 ==> BarFree(s)
    ensures m1 == m2
  {
    var xs, ys := SortedOf(m1), SortedOf(m2);
    forall i | 0 <= i < |xs| ensures BarFree(xs[i]) { assert xs[i] in multiset(xs); }
    forall i | 0 <= i < |ys| ensures BarFree(ys[i]) { assert ys[i] in multiset(ys); }
    assert |xs| == |multiset(xs)| && |ys| == |multiset(ys)|;
    JoinInjective(xs, ys);
  }

  lemma CommonPlayerConnects(matches: seq<StoredMatch>, a: string, b: string, p: string)
    requires p in PlayersIn(matches, Component(matches, a)) && p in PlayersIn(matches, Component(matches, b))
    ensures Connected(matches, a, b)
  {
    var m :| m in matches && m.context.Some? && m.context.value.matchID in Component(matches, a)
             && p in PlayersOf(m.context.value.playerIDs);
    var k :| k in matches && k.context.Some? && k.context.value.matchID in Component(matches, b)
             && p in PlayersOf(k.context.value.playerIDs);
    var c, d := m.context.value.matchID, k.context.value.matchID;
    assert PlaysAt(m, c, p) && PlaysAt(k, d, p);
    assert Plays(matches, c, p) && Plays(matches, d, p);
    assert Linked(matches, c, d);
    LinkedConnected(matches, c, d);
    ConnectedTransitive(matches, a, c, d);
    ConnectedSymmetric(matches, b, d);
    ConnectedTransitive(matches, a, d, b);
  }

  lemma KeyKinds(players: set<string>, ids: multiset<string>)
    ensures players != {} ==> KeyOf(players, ids)[..8] == "players:" && KeyOf(players, ids)[8..] == Join(SortedOf(multiset(players)))
    ensures players == {} ==> KeyOf(players, ids)[..8] == "matches:" && KeyOf(players, ids)[8..] == Join(SortedOf(ids))
  {
  }

  /** When no id contains the separator, two matches have the same group key exactly if they are connected. */
  lemma SameKeyMeansConnected(matches: seq<StoredMatch>, a: string, b: string)
    requires BarFreeLibrary(matches) && a in Ids(matches) && b in Ids(matches)
    ensures GroupKey(matches, a) == GroupKey(matches, b) <==> Connected(matches, a, b)
  {
    if Connected(matches, a, b) { ComponentsAgree(matches, a, b); }
    if GroupKey(matches, a) == GroupKey(matches, b) {
      var pa, pb := PlayersIn(matches, Component(matches, a)), PlayersIn(matches, Component(matches, b));
      var ia, ib := IdsIn(matches, Component(matches, a)), IdsIn(matches, Component(matches, b));
      KeyKinds(pa, ia);
      KeyKinds(pb, ib);
      if pa != {} {
        assert "players:"[0] != "matches:"[0];
        PlayersBarFree(matches, Component(matches, a));
        PlayersBarFree(matches, Component(matches, b));
        ListedKeysAgree(multiset(pa), multiset(pb));
        var p :| p in pa;
        assert p in multiset(pa) && p in multiset(pb);
        CommonPlayerConnects(matches, a, b, p);
      } else {
        assert "players:"[0] != "matches:"[0];
        IdsAreMembers(matches, a);
        IdsAreMembers(matches, b);
        ListedKeysAgree(ia, ib);
        IdsInElements(matches, Component(matches, b), a);
        ConnectedSymmetric(matches, b, a);
      }
    }
  }

  lemma PlayersBarFree(matches: seq<StoredMatch>, members: set<string>)
    requires BarFreeLibrary(matches)
    ensures forall p :: p in PlayersIn(matches, members) ==> BarFree(p)
  {
    forall p | p in PlayersIn(matches, members) ensures BarFree(p) {
      var m :| m in matches && m.context.Some? && m.context.value.matchID in members
               && p in PlayersOf(m.context.value.playerIDs);
      assert PlaysAt(m, m.context.value.matchID, p);
      assert Plays(matches, m.context.value.matchID, p);
    }
  }

  lemma IdsAreMembers(matches: seq<StoredMatch>, a: string)
    requires a in Ids(matches)
    ensures a in IdsIn(matches, Component(matches, a))
    ensures forall id :: id in IdsIn(matches, Component(matches, a)) ==> id in Ids(matches)
  {
    ConnectedReflexive(matches, a);
    IdsInElements(matches, Component(matches, a), a);
    forall id | id in IdsIn(matches, Component(matches, a)) ensures id in Ids(matches) {
      IdsInElements(matches, Component(matches, a), id);
    }
  }

  // ----- When different groups share a key

  lemma {:induction false} TrimShortens(s: string)
    ensures |TrimSpace(s)| <= |s|
    decreases |s|
  {
    if s != "" && IsSpace(s[0]) {
      TrimShortens(s[1..]);
    } else if s != "" && IsSpace(s[|s| - 1]) {
      TrimShortens(s[..|s| - 1]);
    }
  }

  /** A string as trimming leaves it. */
  predicate Trimmed(s: string) {
    TrimSpace(s) == s != ""
  }

  lemma JoinedIsTrimmed(x: string, y: string)
    requires Trimmed(x) && Trimmed(y)
    ensures Trimmed(x + "|" + y)
  {
    TrimShortens(x[1..]);
    TrimShortens(y[..|y| - 1]);
    if IsSpace(y[0]) { TrimShortens(y[1..]); }
    var s := x + "|" + y;
    assert s[0] == x[0] && s[|s| - 1] == y[|y| - 1];
  }

  lemma OnePlayer(p: string)
    requires Trimmed(p)
    ensures PlayersOf([p]) == {p}
  {
    assert p in [p];
  }

  lemma TwoPlayers(x: string, y: string)
    requires Trimmed(x) && Trimmed(y)
    ensures PlayersOf([x, y]) == {x, y}
  {
    assert x in [x, y] && y in [x, y];
  }

  predicate TwoStored(matches: seq<StoredMatch>, a: string, b: string, ps: seq<string>, qs: seq<string>) {
    a != b && matches == [StoredMatch(Some(MatchContext(a, ps))), StoredMatch(Some(MatchContext(b, qs)))]
  }

  /** In a library of two matches without a common player the first one is a component of its own. */
  lemma {:induction false} Alone(matches: seq<StoredMatch>, a: string, b: string, ps: seq<string>, qs: seq<string>, c: string, n: nat)
    requires TwoStored(matches, a, b, ps, qs) && PlayersOf(ps) !! PlayersOf(qs) && ConnectedIn(matches, a, c, n)
    ensures c == a
    decreases n
  {
    if n > 0 {
      var d :| Linked(matches, a, d) && ConnectedIn(matches, d, c, n - 1);
      OnlyLinked(matches, a, b, ps, qs, d);
      hide Linked, PlayersOf;
      Alone(matches, a, b, ps, qs, c, n - 1);
    }
  }

  lemma OnlyLinked(matches: seq<StoredMatch>, a: string, b: string, ps: seq<string>, qs: seq<string>, d: string)
    requires TwoStored(matches, a, b, ps, qs) && PlayersOf(ps) !! PlayersOf(qs) && Linked(matches, a, d)
    ensures d == a
  {
    hide PlayersOf;
    var p :| Plays(matches, a, p) && Plays(matches, d, p);
    assert p in PlayersOf(ps);
  }

  lemma AloneComponent(matches: seq<StoredMatch>, a: string, b: string, ps: seq<string>, qs: seq<string>)
    requires TwoStored(matches, a, b, ps, qs) && PlayersOf(ps) !! PlayersOf(qs)
    ensures Component(matches, a) == {a} && PlayersIn(matches, Component(matches, a)) == PlayersOf(ps)
    ensures !Connected(matches, a, b)
  {
    assert matches[0] in matches;
    ConnectedReflexive(matches, a);
    forall c | Connected(matches, a, c) ensures c == a {
      var n: nat :| ConnectedIn(matches, a, c, n);
      Alone(matches, a, b, ps, qs, c, n);
    }
  }

  /** The library in the other order, for the second match. */
  lemma AloneSecond(matches: seq<StoredMatch>, a: string, b: string, ps: seq<string>, qs: seq<string>)
    requires TwoStored(matches, a, b, ps, qs) && PlayersOf(ps) !! PlayersOf(qs)
    ensures PlayersIn(matches, Component(matches, b)) == PlayersOf(qs)
  {
    var swapped := [matches[1], matches[0]];
    AloneComponent(swapped, b, a, qs, ps);
    assert multiset(matches) == multiset(swapped);
    SameElements(matches, swapped);
    SameComponent(matches, swapped, b);
    assert forall m :: m in matches <==> m in swapped;
  }

  lemma KeyOfList(players: set<string>, ids: multiset<string>, xs: seq<string>)
    requires players != {} && Sorted(xs) && multiset(xs) == multiset(players)
    ensures KeyOf(players, ids) == "players:" + Join(xs)
  {
    SortedIsUnique(xs, SortedOf(multiset(players)));
  }

  /** The separator in a player id makes separate groups collide: whatever two players are joined in one id, a match
      of that id and a match of the two players share no player but have the same group key, hence the same split. */
  lemma SeparatorCollides(a: string, b: string, x: string, y: string) returns (matches: seq<StoredMatch>)
    requires a != b && Trimmed(x) && Trimmed(y) && Less(x, y)
    ensures matches == [StoredMatch(Some(MatchContext(a, [x + "|" + y]))), StoredMatch(Some(MatchContext(b, [x, y])))]
    ensures !Connected(matches, a, b)
    ensures GroupKey(matches, a) == GroupKey(matches, b) == "players:" + x + "|" + y
  {
    var joined := x + "|" + y;
    matches := [StoredMatch(Some(MatchContext(a, [joined]))), StoredMatch(Some(MatchContext(b, [x, y])))];
    hide TrimSpace, Less, KeyOf, PlayersOf, PlayersIn, Component, Connected, IdsIn;
    JoinedIsTrimmed(x, y);
    OnePlayer(joined);
    TwoPlayers(x, y);
    LessIrreflexive(x);
    assert |joined| > |x| && |joined| > |y|;
    AloneComponent(matches, a, b, [joined], [x, y]);
    AloneSecond(matches, a, b, [joined], [x, y]);
    assert Sorted([x, y]) && Sorted([joined]);
    assert multiset([x, y]) == multiset({x, y}) && multiset([joined]) == multiset({joined});
    KeyOfList({joined}, IdsIn(matches, Component(matches, a)), [joined]);
    KeyOfList({x, y}, IdsIn(matches, Component(matches, b)), [x, y]);
    assert [x, y][1..] == [y];
    assert Join([x, y]) == joined;
    assert "players:" + joined == "players:" + x + "|" + y;
  }

  // ----- Which alphabets of ids keep groups apart

  predicate Over(allowed: char -> bool, s: string) {
    forall i :: 0 <= i < |s| ==> allowed(s[i])
  }

  /** All ids of matches and players are spelled with these characters. */
  ghost predicate LibraryOver(allowed: char -> bool, matches: seq<StoredMatch>) {
    && (forall id :: id in Ids(matches) ==> Over(allowed, id))
    && (forall id, p :: Plays(matches, id, p) ==> Over(allowed, p))
  }

  ghost predicate NeverCollides(matches: seq<StoredMatch>) {
    forall a, b :: a in Ids(matches) && b in Ids(matches) && GroupKey(matches, a) == GroupKey(matches, b) ==> Connected(matches, a, b)
  }

  lemma LibraryIsBarFree(allowed: char -> bool, matches: seq<StoredMatch>)
    requires LibraryOver(allowed, matches) && !allowed('|')
    ensures BarFreeLibrary(matches)
  {
    hide Ids, Plays;
    forall id | id in Ids(matches) ensures BarFree(id) { assert Over(allowed, id); }
    forall id, p | Plays(matches, id, p) ensures BarFree(p) { assert Over(allowed, p); }
  }

  lemma BarFreeNeverCollides(matches: seq<StoredMatch>)
    requires BarFreeLibrary(matches)
    ensures NeverCollides(matches)
  {
    hide BarFreeLibrary, Ids, GroupKey, Connected;
    forall a, b | a in Ids(matches) && b in Ids(matches) && GroupKey(matches, a) == GroupKey(matches, b) ensures Connected(matches, a, b) {
      SameKeyMeansConnected(matches, a, b);
    }
  }

  lemma ShortAndLong(c: char)
    requires !IsSpace(c)
    ensures Trimmed([c]) && Trimmed([c, c]) && Less([c], [c, c])
  {
    assert [c, c][..1] == [c] == [c][..1];
    assert LessAt([c], [c, c], 1);
  }

  /** Two players named by one and by two copies of a character, and the player that joins the two. */
  lemma BarCollides(allowed: char -> bool, c: char) returns (matches: seq<StoredMatch>)
    requires allowed('|') && allowed(c) && !IsSpace(c) && c != '|'
    ensures LibraryOver(allowed, matches) && !NeverCollides(matches)
  {
    hide TrimSpace, Less, GroupKey, Connected, PlayersOf, LibraryOver;
    var x, y := [c], [c, c];
    ShortAndLong(c);
    matches := SeparatorCollides(x, y, x, y);
    JoinedIsTrimmed(x, y);
    OnePlayer(x + "|" + y);
    TwoPlayers(x, y);
    assert Over(allowed, x) && Over(allowed, y) && Over(allowed, x + "|" + y);
    TwoStoredOver(allowed, matches, x, y, [x + "|" + y], [x, y]);
    assert matches[0] in matches && matches[1] in matches;
    assert x in Ids(matches) && y in Ids(matches);
  }

  lemma TwoStoredOver(allowed: char -> bool, matches: seq<StoredMatch>, a: string, b: string, ps: seq<string>, qs: seq<string>)
    requires TwoStored(matches, a, b, ps, qs) && Over(allowed, a) && Over(allowed, b)
    requires forall p :: p in PlayersOf(ps) || p in PlayersOf(qs) ==> Over(allowed, p)
    ensures LibraryOver(allowed, matches)
  {
    hide Over, PlayersOf;
    forall id, p | Plays(matches, id, p) ensures Over(allowed, p) {
      var m :| m in matches && PlaysAt(m, id, p);
      assert p in PlayersOf(ps) || p in PlayersOf(qs);
    }
  }

  /** For ids spelled with any set of characters, one of which is neither a space nor the separator: separate groups
      never share a key, in any library, if and only if the separator is not among the characters. */
  lemma KeysApartExactlyWhen(allowed: char -> bool, c: char)
    requires allowed(c) && !IsSpace(c) && c != '|'
    ensures (forall matches :: LibraryOver(allowed, matches) ==> NeverCollides(matches)) <==> !allowed('|')
  {
    hide LibraryOver, NeverCollides;
    if allowed('|') {
      var matches := BarCollides(allowed, c);
    } else {
      forall matches | LibraryOver(allowed, matches) ensures NeverCollides(matches) {
        LibraryIsBarFree(allowed, matches);
        BarFreeNeverCollides(matches);
      }
    }
  }
}
