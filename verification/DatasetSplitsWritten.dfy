/** What the split of every match is, and how the assignments are listed. */
module DatasetSplitsWritten {
  import opened Common
  import opened Strings
  import opened DatasetSplits

  /** A match id as it is stored: the ids of the stored matches, as often as they are stored. */
  function StoredIds(matches: seq<StoredMatch>): multiset<string> {
    if matches == [] then multiset{}
    else
      var rest, last := StoredIds(matches[..|matches| - 1]), matches[|matches| - 1];
      if last.context.Some? then rest + multiset{last.context.value.matchID} else rest
  }

  lemma {:induction false} StoredIdsIn(matches: seq<StoredMatch>, members: set<string>)
    requires Ids(matches) <= members
    ensures IdsIn(matches, members) == StoredIds(matches)
  {
    if matches != [] {
      var front, last := matches[..|matches| - 1], matches[|matches| - 1];
      assert matches == front + [last];
      assert Ids(front) <= Ids(matches) && (last.context.Some? ==> last.context.value.matchID in Ids(matches));
      StoredIdsIn(front, members);
    }
  }

  lemma MapKeys(matches: seq<StoredMatch>, hash: string -> nat, id: string)
    ensures id in SplitMap(matches, hash) <==> exists m :: m in matches && m.context.Some? && m.context.value.matchID == id
    ensures id in SplitMap(matches, hash) ==> id in Table(matches, hash) && Table(matches, hash)[id] == AssignmentOf(matches, hash, id)
  {
    hide GroupKey;
    assert id in SplitMap(matches, hash) <==> id in Ids(matches);
  }

  /** Every stored match and no other has a split. Its group key decides it: of ten hash values two are held out, two are for
      validation and six for training. */
  lemma SplitsAreTwoTwoSix(matches: seq<StoredMatch>, hash: string -> nat, id: string)
    ensures id in SplitMap(matches, hash) <==> exists m :: m in matches && m.context.Some? && m.context.value.matchID == id
    ensures id in SplitMap(matches, hash) ==>
              SplitMap(matches, hash)[id] == match hash(GroupKey(matches, id)) % 10
                                             case 0 => Holdout case 1 => Holdout case 2 => Validation case 3 => Validation case _ => Training
  {
    hide GroupKey;
    MapKeys(matches, hash, id);
  }

  /** Some stored match of the player is connected to the match. */
  ghost predicate InGroup(matches: seq<StoredMatch>, id: string, p: string) {
    exists c :: Connected(matches, id, c) && Plays(matches, c, p)
  }

  lemma GroupPlayers(matches: seq<StoredMatch>, id: string, p: string)
    ensures p in PlayersIn(matches, Component(matches, id)) <==> InGroup(matches, id, p)
  {
    var members := Component(matches, id);
    if p in PlayersIn(matches, members) {
      var m :| m in matches && m.context.Some? && m.context.value.matchID in members && p in PlayersOf(m.context.value.playerIDs);
      assert PlaysAt(m, m.context.value.matchID, p);
      assert Connected(matches, id, m.context.value.matchID) && Plays(matches, m.context.value.matchID, p);
    }
    if InGroup(matches, id, p) {
      var c :| Connected(matches, id, c) && Plays(matches, c, p);
      var m :| m in matches && PlaysAt(m, c, p);
      var n: nat :| ConnectedIn(matches, id, c, n);
      ConnectedInIds(matches, id, c, n);
      assert c in members;
    }
  }

  predicate Distinct(xs: seq<string>) {
    forall i, j :: 0 <= i < j < |xs| ==> xs[i] != xs[j]
  }

  lemma {:induction false} DistinctCounts(xs: seq<string>, players: set<string>)
    requires Distinct(xs) && forall x :: x in xs <==> x in players
    ensures multiset(xs) == multiset(players)
    decreases |xs|
  {
    if xs == [] {
      assert players == {};
    } else {
      var n := |xs| - 1;
      var rest, last := xs[..n], xs[n];
      assert xs == rest + [last];
      forall x ensures x in rest <==> x in players - {last} {
        if x in rest { var i :| 0 <= i < n && rest[i] == x; assert xs[i] == x; }
      }
      DistinctCounts(rest, players - {last});
      assert players == (players - {last}) + {last};
    }
  }

  /** The group key names the players of all connected matches, each once and in order, or else the match alone. */
  lemma KeySpellsTheGroup(matches: seq<StoredMatch>, id: string, players: seq<string>, ids: seq<string>)
    requires Sorted(players) && Distinct(players) && forall p :: p in players <==> InGroup(matches, id, p)
    requires Sorted(ids) && multiset(ids) == IdsIn(matches, Component(matches, id))
    ensures GroupKey(matches, id) == if players != [] then "players:" + Join(players) else "matches:" + Join(ids)
  {
    var members := Component(matches, id);
    var all := PlayersIn(matches, members);
    forall p ensures p in players <==> p in all { GroupPlayers(matches, id, p); }
    DistinctCounts(players, all);
    SortedIsUnique(players, SortedOf(multiset(all)));
    SortedIsUnique(ids, SortedOf(IdsIn(matches, members)));
    hide InGroup, Component, PlayersIn, IdsIn, Sorted, SortedOf, Join;
    if players != [] { assert players[0] in all; }
    if all != {} { var p :| p in all; assert p in players; }
  }

  function MatchIdsOf(list: seq<Assignment>): seq<string> {
    seq(|list|, i requires 0 <= i < |list| => list[i].matchID)
  }

  /** The assignments are listed by match id; every stored match is listed as often as it is stored, with its key and split. */
  lemma AssignmentsAreListed(matches: seq<StoredMatch>, hash: string -> nat)
    ensures var list := AssignmentList(matches, hash);
            && Sorted(MatchIdsOf(list)) && multiset(MatchIdsOf(list)) == StoredIds(matches)
            && forall i :: 0 <= i < |list| ==>
                 var a := list[i];
                 a.matchID in SplitMap(matches, hash) && a.split == SplitMap(matches, hash)[a.matchID] && a.groupKey == GroupKey(matches, a.matchID)
  {
    hide GroupKey, SplitForGroup, SortedOf, Sorted;
    StoredIdsIn(matches, Ids(matches));
    var list, ids := AssignmentList(matches, hash), SortedIds(matches);
    assert ids == SortedOf(StoredIds(matches));
    forall i | 0 <= i < |list| ensures list[i] == AssignmentOf(matches, hash, ids[i]) && ids[i] in SplitMap(matches, hash) {
      assert ids[i] in Ids(matches);
    }
    assert MatchIdsOf(list) == ids;
  }
}
