/** unionFind of cmd/desktop/calibration_gate.go: a string union-find with path compression. */
module UnionFind {
  import opened Strings

  ghost predicate DownwardAt(parent: map<string, string>, x: string) {
    x in parent ==> parent[x] in parent && AtMost(parent[x], x)
  }

  /** Every parent is a node, and every node that is not its own parent has a smaller one. */
  ghost predicate Downward(parent: map<string, string>) {
    forall x :: DownwardAt(parent, x)
  }

  ghost function Below(ids: set<string>, x: string): set<string> {
    set y | y in ids && Less(y, x)
  }

  /** How many nodes come before x. */
  ghost function Rank(ids: set<string>, x: string): nat {
    |Below(ids, x)|
  }

  lemma RankShrinks(ids: set<string>, x: string, y: string)
    requires y in ids && Less(y, x)
    ensures Rank(ids, y) < Rank(ids, x)
  {
    forall z | z in Below(ids, y) ensures z in Below(ids, x) { LessTransitive(z, y, x); }
    LessIrreflexive(y);
    assert y in Below(ids, x) && y !in Below(ids, y);
    SmallerSet(Below(ids, y), Below(ids, x));
  }

  lemma {:induction false} SmallerSet<T>(a: set<T>, b: set<T>)
    requires a < b
    ensures |a| < |b|
  {
    if a != {} {
      var x :| x in a;
      SmallerSet(a - {x}, b - {x});
    }
  }

  /** The node reached from x after at most n parent links. */
  ghost function Climb(parent: map<string, string>, x: string, n: nat): string
    decreases n
  {
    if n == 0 || x !in parent || parent[x] == x then x else Climb(parent, parent[x], n - 1)
  }

  /** The node find returns. */
  ghost function Root(parent: map<string, string>, x: string): string {
    Climb(parent, x, |parent|)
  }

  lemma {:induction false} ClimbEnough(parent: map<string, string>, x: string, n: nat, m: nat)
    requires Downward(parent) && x in parent && n >= Rank(parent.Keys, x) && m >= Rank(parent.Keys, x)
    ensures Climb(parent, x, n) == Climb(parent, x, m)
    decreases n
  {
    var p := parent[x];
    assert DownwardAt(parent, x);
    if p != x {
      RankShrinks(parent.Keys, x, p);
      ClimbEnough(parent, p, n - 1, m - 1);
    }
  }

  lemma RankBound(parent: map<string, string>, x: string)
    ensures Rank(parent.Keys, x) <= |parent|
    ensures x in parent ==> Rank(parent.Keys, x) < |parent|
  {
    LessIrreflexive(x);
    assert Below(parent.Keys, x) <= parent.Keys;
    assert |parent| == |parent.Keys|;
    if x in parent {
      SmallerSet(Below(parent.Keys, x), parent.Keys);
    } else if Below(parent.Keys, x) != parent.Keys {
      SmallerSet(Below(parent.Keys, x), parent.Keys);
    }
  }

  lemma RootStep(parent: map<string, string>, x: string)
    requires Downward(parent) && x in parent
    ensures Root(parent, x) == if parent[x] == x then x else Root(parent, parent[x])
  {
    var p := parent[x];
    assert DownwardAt(parent, x);
    RankBound(parent, x);
    if p != x {
      RankBound(parent, p);
      RankShrinks(parent.Keys, x, p);
      ClimbEnough(parent, p, |parent| - 1, |parent|);
    }
  }

  /** A root is its own parent and the smallest node on the way. */
  lemma {:induction false} RootIsRoot(parent: map<string, string>, x: string)
    requires Downward(parent) && x in parent
    ensures var r := Root(parent, x); r in parent && parent[r] == r && AtMost(r, x) && Root(parent, r) == r
    decreases Rank(parent.Keys, x)
  {
    RootStep(parent, x);
    assert DownwardAt(parent, x);
    if parent[x] != x {
      RankShrinks(parent.Keys, x, parent[x]);
      RootIsRoot(parent, parent[x]);
      AtMostTransitive(Root(parent, x), parent[x], x);
    }
  }

  /** The root of every node. */
  ghost function Roots(parent: map<string, string>): map<string, string> {
    map x | x in parent :: Root(parent, x)
  }

  /** The roots after a union: both classes now have the smaller of their two roots. */
  ghost function MergedRoots(roots: map<string, string>, a: string, b: string): map<string, string>
    requires a in roots && b in roots
  {
    map x | x in roots ::
      if roots[x] == roots[a] || roots[x] == roots[b] then Lower(roots[a], roots[b]) else roots[x]
  }

  lemma UpdateKeepsDownward(parent: map<string, string>, x: string, p: string)
    requires Downward(parent) && p in parent && AtMost(p, x)
    ensures Downward(parent[x := p])
  {
    var after := parent[x := p];
    forall y ensures DownwardAt(after, y) { assert DownwardAt(parent, y); }
  }

  lemma {:induction false} CompressKeepsRoot(parent: map<string, string>, id: string, x: string)
    requires Downward(parent) && id in parent && x in parent
    ensures Downward(parent[id := Root(parent, id)])
    ensures Root(parent[id := Root(parent, id)], x) == Root(parent, x)
    decreases Rank(parent.Keys, x)
  {
    var r := Root(parent, id);
    var after := parent[id := r];
    RootIsRoot(parent, id);
    UpdateKeepsDownward(parent, id, r);
    assert DownwardAt(parent, x);
    RootStep(parent, x);
    RootStep(after, x);
    if x == id {
      RootStep(after, r);
    } else if parent[x] != x {
      RankShrinks(parent.Keys, x, parent[x]);
      CompressKeepsRoot(parent, id, parent[x]);
    }
  }

  lemma CompressKeepsRoots(parent: map<string, string>, id: string)
    requires Downward(parent) && id in parent
    ensures Downward(parent[id := Root(parent, id)])
    ensures Roots(parent[id := Root(parent, id)]) == Roots(parent)
  {
    RootIsRoot(parent, id);
    UpdateKeepsDownward(parent, id, Root(parent, id));
    forall x | x in parent ensures Root(parent[id := Root(parent, id)], x) == Root(parent, x) {
      CompressKeepsRoot(parent, id, x);
    }
  }

  lemma {:induction false} LinkMovesRoot(parent: map<string, string>, low: string, high: string, x: string)
    requires Downward(parent) && low in parent && high in parent && x in parent
    requires parent[low] == low && parent[high] == high && Less(low, high)
    ensures Downward(parent[high := low])
    ensures Root(parent[high := low], x) == if Root(parent, x) == high then low else Root(parent, x)
    decreases Rank(parent.Keys, x)
  {
    var after := parent[high := low];
    LessIrreflexive(low);
    UpdateKeepsDownward(parent, high, low);
    assert DownwardAt(parent, x);
    RootStep(parent, x);
    RootStep(after, x);
    if x == high {
      RootStep(after, low);
    } else if parent[x] != x {
      RankShrinks(parent.Keys, x, parent[x]);
      LinkMovesRoot(parent, low, high, parent[x]);
    }
  }

  /** The smaller of two roots, which the merged class keeps. */
  function Lower(a: string, b: string): string {
    if Less(a, b) then a else b
  }

  lemma LinkRoots(parent: map<string, string>, low: string, high: string)
    requires Downward(parent) && low in parent && high in parent
    requires parent[low] == low && parent[high] == high && Less(low, high)
    ensures Roots(parent[high := low]) == Redirected(Roots(parent), low, high)
  {
    forall x | x in parent
      ensures Root(parent[high := low], x) == if Root(parent, x) == high then low else Root(parent, x)
    {
      LinkMovesRoot(parent, low, high, x);
    }
  }

  ghost function Redirected(roots: map<string, string>, low: string, high: string): map<string, string> {
    map x | x in roots :: if roots[x] == high then low else roots[x]
  }

  lemma RedirectedIsMerged(roots: map<string, string>, a: string, b: string, low: string, high: string)
    requires a in roots && b in roots && Less(low, high)
    requires (roots[a] == low && roots[b] == high) || (roots[a] == high && roots[b] == low)
    ensures Redirected(roots, low, high) == MergedRoots(roots, a, b)
  {
    LowerOf(low, high);
  }

  lemma LinkMerges(parent: map<string, string>, a: string, b: string, low: string, high: string)
    requires Downward(parent) && a in parent && b in parent && Less(low, high)
    requires var r := Roots(parent); (r[a] == low && r[b] == high) || (r[a] == high && r[b] == low)
    ensures Downward(parent[high := low]) && Roots(parent[high := low]) == MergedRoots(Roots(parent), a, b)
  {
    assert Roots(parent)[a] == Root(parent, a) && Roots(parent)[b] == Root(parent, b);
    RootIsRoot(parent, a);
    RootIsRoot(parent, b);
    UpdateKeepsDownward(parent, high, low);
    LinkRoots(parent, low, high);
    RedirectedIsMerged(Roots(parent), a, b, low, high);
  }

  /** What find does after the recursive call on the parent. */
  lemma CompressAfterFind(before: map<string, string>, flat: map<string, string>, id: string, top: string)
    requires Downward(before) && Downward(flat) && id in before && before[id] != id
    requires flat.Keys == before.Keys && Roots(flat) == Roots(before) && before[id] in flat
    requires top == Roots(flat)[before[id]]
    ensures Downward(flat[id := top]) && Roots(flat[id := top]) == Roots(before) && top == Roots(before)[id]
  {
    RootStep(before, id);
    assert Roots(flat)[id] == Roots(before)[id] == top;
    assert Root(flat, id) == Roots(flat)[id];
    CompressKeepsRoots(flat, id);
  }

  lemma LowerOf(low: string, high: string)
    requires Less(low, high)
    ensures Lower(low, high) == low == Lower(high, low) && low != high
  {
    LessIrreflexive(low);
    if Less(high, low) { LessTransitive(low, high, low); }
  }

  class UnionFind {
    var parent: map<string, string>

    constructor (ids: seq<string>)
      ensures parent.Keys == (set id | id in ids) && Downward(parent)
      ensures Roots(parent) == map id | id in ids :: id
    {
      var p: map<string, string> := map[];
      for i := 0 to |ids|
        invariant p.Keys == set id | id in ids[..i]
        invariant forall x {:trigger p[x]} :: x in p ==> p[x] == x
      {
        p := p[ids[i] := ids[i]];
      }
      assert ids[..|ids|] == ids;
      forall x ensures DownwardAt(p, x) { assert x in p ==> p[x] == x; }
      forall x | x in p ensures Root(p, x) == x { RootStep(p, x); }
      parent := p;
    }

    /** find with path compression. */
    method Find(id: string) returns (r: string)
      requires Downward(parent) && id in parent
      modifies this
      ensures Downward(parent) && Roots(parent) == Roots(old(parent)) && parent.Keys == old(parent.Keys)
      ensures r == Roots(parent)[id]
      decreases Rank(parent.Keys, id)
    {
      var p := parent[id];
      assert DownwardAt(parent, id);
      if p != id {
        RankShrinks(parent.Keys, id, p);
        var top := Find(p);
        CompressAfterFind(old(parent), parent, id, top);
        parent := parent[id := top];
      } else {
        RootStep(parent, id);
      }
      r := parent[id];
    }

    method Union(a: string, b: string)
      requires Downward(parent) && a in parent && b in parent
      modifies this
      ensures Downward(parent) && Roots(parent) == MergedRoots(Roots(old(parent)), a, b)
      ensures parent.Keys == old(parent.Keys)
    {
      var ra := Find(a);
      var rb := Find(b);
      if ra == rb {
        AlreadyMerged(Roots(parent), a, b);
        return;
      }
      RootIsRoot(parent, a);
      RootIsRoot(parent, b);
      LessTotal(ra, rb);
      if Less(ra, rb) {
        LinkMerges(parent, a, b, ra, rb);
        parent := parent[rb := ra];
      } else {
        LinkMerges(parent, a, b, rb, ra);
        parent := parent[ra := rb];
      }
    }
  }

  lemma AlreadyMerged(roots: map<string, string>, a: string, b: string)
    requires a in roots && b in roots && roots[a] == roots[b]
    ensures MergedRoots(roots, a, b) == roots
  {
  }
}
