// The scope hierarchy as the gate keeps it: dense node indices and one parent pointer each.
module ScopeIndex {
  import opened Prelude

  // One row of the hierarchy as the loader reads it; parent is empty at an axis root.
  datatype ScopeNode = ScopeNode(id: Id, parent: Id)

  // node is the dense index plus one, so that 0 means "not resolved".
  datatype ScopeConstraint = ScopeConstraint(nodeId: Id, inherit: bool, exclude: bool, node: int)

  datatype Index = Index(idx: map<Id, int>, parent: seq<int>)

  predicate Linked(parent: seq<int>) {
    forall i :: 0 <= i < |parent| ==> -1 <= parent[i] < |parent|
  }

  // ---------------------------------------------------------------- building the index

  // idx maps an id to the last row that carries it.
  ghost predicate Numbers(idx: map<Id, int>, nodes: seq<ScopeNode>, n: nat)
    requires n <= |nodes|
  {
    && (forall i :: 0 <= i < n ==> nodes[i].id in idx && i <= idx[nodes[i].id])
    && (forall id :: id in idx ==> 0 <= idx[id] < n && nodes[idx[id]].id == id)
  }

  function ParentIndex(idx: map<Id, int>, parent: Id): int {
    if parent == "" || parent !in idx then -1 else idx[parent]
  }

  method NewScopeIndex(nodes: seq<ScopeNode>) returns (x: Index)
    ensures Numbers(x.idx, nodes, |nodes|)
    ensures Linked(x.parent) && |x.parent| == |nodes|
    ensures forall i :: 0 <= i < |nodes| ==> x.parent[i] == ParentIndex(x.idx, nodes[i].parent)
  {
    var idx: map<Id, int> := map[];
    var parent := new int[|nodes|];
    for i := 0 to |nodes|
      invariant Numbers(idx, nodes, i)
    {
      idx := idx[nodes[i].id := i];
    }
    for i := 0 to |nodes|
      invariant forall j :: 0 <= j < i ==> parent[j] == ParentIndex(idx, nodes[j].parent)
    {
      if nodes[i].parent !in idx || nodes[i].parent == "" {
        parent[i] := -1;
      } else {
        parent[i] := idx[nodes[i].parent];
      }
    }
    x := Index(idx, parent[..]);
  }

  function Resolve(x: Index, id: Id): Option<int> {
    if id in x.idx then Some(x.idx[id]) else None
  }

  function Interned(x: Index, c: ScopeConstraint): ScopeConstraint {
    if c.nodeId in x.idx then c.(node := x.idx[c.nodeId] + 1) else c
  }

  method Intern(x: Index, cs: array<ScopeConstraint>)
    modifies cs
    ensures forall i :: 0 <= i < cs.Length ==> cs[i] == Interned(x, old(cs[i]))
  {
    for i := 0 to cs.Length
      invariant forall j :: 0 <= j < i ==> cs[j] == Interned(x, old(cs[j]))
      invariant forall j :: i <= j < cs.Length ==> cs[j] == old(cs[j])
    {
      if cs[i].nodeId in x.idx {
        cs[i] := cs[i].(node := x.idx[cs[i].nodeId] + 1);
      }
    }
  }

  // ---------------------------------------------------------------- what coverage means

  // The k-th node on the way up from t, or -1 once the way has ended. The parent array may loop.
  function Walk(parent: seq<int>, t: int, k: nat): int
    requires Linked(parent)
    ensures -1 <= Walk(parent, t, k) < |parent|
    decreases k
  {
    if t < 0 || t >= |parent| then -1
    else if k == 0 then t
    else Walk(parent, parent[t], k - 1)
  }

  // c names the node k steps above t, and reaches that far down.
  predicate Hit(parent: seq<int>, c: ScopeConstraint, t: int, k: nat)
    requires Linked(parent)
  {
    Walk(parent, t, k) >= 0 && c.node == Walk(parent, t, k) + 1 && (k == 0 || c.inherit)
  }

  ghost predicate Covers(parent: seq<int>, c: ScopeConstraint, t: int)
    requires Linked(parent)
  {
    exists k: nat :: Hit(parent, c, t, k)
  }

  // Some include covers t and no exclude does.
  ghost predicate Admits(parent: seq<int>, cs: seq<ScopeConstraint>, t: int)
    requires Linked(parent)
  {
    && (exists c :: c in cs && !c.exclude && Covers(parent, c, t))
    && (forall c :: c in cs && c.exclude ==> !Covers(parent, c, t))
  }

  // ---------------------------------------------------------------- the step bound is exact

  lemma {:induction false} WalkSplit(parent: seq<int>, t: int, j: nat, k: nat)
    requires Linked(parent)
    ensures Walk(parent, t, j + k) == Walk(parent, Walk(parent, t, j), k)
    decreases j
  {
    if j > 0 && 0 <= t < |parent| { WalkSplit(parent, parent[t], j - 1, k); }
  }

  // However far up a node is met, it is also met within |parent| steps, even when the pointers loop.
  lemma {:induction false} WalkIsShort(parent: seq<int>, t: int, k: nat)
    requires Linked(parent) && Walk(parent, t, k) >= 0
    ensures exists j: nat :: j < |parent| && j <= k && Walk(parent, t, j) == Walk(parent, t, k)
    decreases k
  {
    if k >= |parent| {
      forall j: nat | j <= k ensures Walk(parent, t, j) >= 0 { WalkSplit(parent, t, j, k - j); }
      var path := seq(k + 1, (j: nat) => Walk(parent, t, j));
      Pigeonhole(path, |parent|);
      var i, j :| 0 <= i < j < |path| && path[i] == path[j];
      WalkSplit(parent, t, j, k - j);
      WalkSplit(parent, t, i, k - j);
      WalkIsShort(parent, t, i + (k - j));
    }
  }

  lemma CoverIsShort(parent: seq<int>, c: ScopeConstraint, t: int)
    requires Linked(parent)
    ensures Covers(parent, c, t) ==> exists k: nat :: k < |parent| && Hit(parent, c, t, k)
  {
    if k: nat :| Hit(parent, c, t, k) {
      WalkIsShort(parent, t, k);
      var j: nat :| j < |parent| && j <= k && Walk(parent, t, j) == Walk(parent, t, k);
      assert Hit(parent, c, t, j);
    }
  }

  // Once the walk has left the tree it stays out.
  lemma WalkEnded(parent: seq<int>, t: int, j: nat, k: nat)
    requires Linked(parent) && Walk(parent, t, j) < 0 && j <= k
    ensures Walk(parent, t, k) < 0
  {
    WalkSplit(parent, t, j, k - j);
  }

  // ---------------------------------------------------------------- running out of steps

  // The way up goes round in a loop.
  ghost predicate Endless(parent: seq<int>, t: int)
    requires Linked(parent)
  {
    forall k: nat :: Walk(parent, t, k) >= 0
  }

  // Only the step bound ends the walk: it never leaves the tree, something inherits, and nothing
  // met settles the answer on the way.
  ghost predicate RunsOut(parent: seq<int>, cs: seq<ScopeConstraint>, t: int)
    requires Linked(parent)
  {
    && Endless(parent, t) && (exists c :: c in cs && c.inherit)
    && (forall c :: c in cs && c.exclude ==> !Covers(parent, c, t))
    && ((exists e :: e in cs && e.exclude) || forall c :: c in cs ==> !Covers(parent, c, t))
  }

  // What takes as many steps as there are nodes has met one of them twice.
  lemma {:induction false} LongIsEndless(parent: seq<int>, t: int, k: nat)
    requires Linked(parent) && Walk(parent, t, |parent|) >= 0
    ensures Walk(parent, t, k) >= 0
    decreases k
  {
    var N := |parent|;
    if k <= N {
      WalkSplit(parent, t, k, N - k);
    } else {
      forall j: nat | j <= N ensures Walk(parent, t, j) >= 0 { WalkSplit(parent, t, j, N - j); }
      var path := seq(N + 1, (j: nat) => Walk(parent, t, j));
      Pigeonhole(path, N);
      var i, j :| 0 <= i < j < |path| && path[i] == path[j];
      WalkSplit(parent, t, j, k - j);
      WalkSplit(parent, t, i, k - j);
      LongIsEndless(parent, t, i + (k - j));
    }
  }

  lemma EndedIsNotRunOut(parent: seq<int>, cs: seq<ScopeConstraint>, t: int, k: nat)
    requires Linked(parent) && Walk(parent, t, k) < 0
    ensures !RunsOut(parent, cs, t)
  {
    hide Covers;
  }

  lemma RanOut(parent: seq<int>, cs: seq<ScopeConstraint>, t: int, hasExclude: bool)
    requires Linked(parent) && Walk(parent, t, |parent|) >= 0 && (exists c :: c in cs && c.inherit)
    requires hasExclude <==> exists c :: c in cs && c.exclude
    requires !(exists c :: c in cs && c.exclude == true && Covers(parent, c, t))
    requires hasExclude || !(exists c :: c in cs && c.exclude == false && Covers(parent, c, t))
    ensures RunsOut(parent, cs, t)
  {
    hide Covers, Walk;
    forall k: nat ensures Walk(parent, t, k) >= 0 { LongIsEndless(parent, t, k); }
  }

  // A walk that runs out denies whenever the set holds no exclude; it allows exactly when the set
  // holds one, some include covers the target and no exclude does.
  lemma RunningOutAllowsIff(parent: seq<int>, cs: seq<ScopeConstraint>, t: int)
    requires Linked(parent) && Endless(parent, t) && exists c :: c in cs && c.inherit
    ensures RunsOut(parent, cs, t) && Admits(parent, cs, t) <==>
            && (exists c :: c in cs && c.exclude)
            && (exists c :: c in cs && !c.exclude && Covers(parent, c, t))
            && (forall c :: c in cs && c.exclude ==> !Covers(parent, c, t))
    ensures RunsOut(parent, cs, t) && (forall c :: c in cs ==> !c.exclude) ==> !Admits(parent, cs, t)
  {
    hide Covers, Endless;
  }

  // It does happen: a node that is its own parent, included, beside an exclude nothing resolves.
  lemma RunningOutCanAllow(node: Id, other: Id)
    ensures var cs := [ScopeConstraint(node, true, false, 1), ScopeConstraint(other, true, true, 0)];
            Linked([0]) && RunsOut([0], cs, 0) && Admits([0], cs, 0)
  {
    var cs := [ScopeConstraint(node, true, false, 1), ScopeConstraint(other, true, true, 0)];
    forall k: nat ensures Walk([0], 0, k) == 0 { StaysAtZero(k); }
    assert cs[0] in cs && cs[1] in cs && Hit([0], cs[0], 0, 0);
  }

  lemma {:induction false} StaysAtZero(k: nat)
    ensures Walk([0], 0, k) == 0
    decreases k
  {
    if k > 0 { StaysAtZero(k - 1); }
  }

  // ---------------------------------------------------------------- CoveredBy

  // Some constraint of the given mode among the first m is hit fewer than n steps up.
  ghost predicate HitBelow(parent: seq<int>, cs: seq<ScopeConstraint>, t: int, n: nat, exclude: bool)
    requires Linked(parent)
  {
    exists c, k: nat :: c in cs && c.exclude == exclude && k < n && Hit(parent, c, t, k)
  }

  lemma HitBelowGrows(parent: seq<int>, cs: seq<ScopeConstraint>, t: int, n: nat, exclude: bool)
    requires Linked(parent)
    ensures HitBelow(parent, cs, t, n + 1, exclude) <==>
            HitBelow(parent, cs, t, n, exclude) || exists c :: c in cs && c.exclude == exclude && Hit(parent, c, t, n)
  {
  }

  // A walk that has seen every step up to n, where it left the tree or ran out of nodes, has seen all.
  lemma WalkSawAll(parent: seq<int>, cs: seq<ScopeConstraint>, t: int, n: nat, exclude: bool)
    requires Linked(parent) && (Walk(parent, t, n) < 0 || n >= |parent|)
    ensures HitBelow(parent, cs, t, n, exclude) <==> exists c :: c in cs && c.exclude == exclude && Covers(parent, c, t)
  {
    forall c | c in cs && c.exclude == exclude && Covers(parent, c, t)
      ensures HitBelow(parent, cs, t, n, exclude)
    {
      CoverIsShort(parent, c, t);
      var k: nat :| k < |parent| && Hit(parent, c, t, k);
      if k >= n { WalkEnded(parent, t, n, k); }
    }
  }

  // The walk, with both early returns and the step bound. The answer is the meaning of the
  // constraint set for every parent array, including one with a loop in it; spent says that it was
  // the bound that ended the walk.
  method CoveredBy(x: Index, target: int, cs: seq<ScopeConstraint>) returns (r: bool, ghost spent: bool)
    requires Linked(x.parent)
    ensures r <==> Admits(x.parent, cs, target)
    ensures spent <==> RunsOut(x.parent, cs, target)
  {
    hide Covers, Admits, RunsOut;
    var parent := x.parent;
    spent := false;
    if target < 0 || target >= |parent| {
      OutsideIsDenied(parent, cs, target);
      EndedIsNotRunOut(parent, cs, target, 0);
      return false, false;
    }
    var included, inherits, hasExclude := false, false, false;
    for i := 0 to |cs|
      invariant hasExclude <==> exists c :: c in cs[..i] && c.exclude
      invariant inherits <==> exists c :: c in cs[..i] && c.inherit
      invariant included <==> HitBelow(parent, cs[..i], target, 1, false)
      invariant !HitBelow(parent, cs[..i], target, 1, true)
    {
      assert cs[..i + 1] == cs[..i] + [cs[i]];
      assert cs[i].node == target + 1 <==> Hit(parent, cs[i], target, 0);
      hasExclude := hasExclude || cs[i].exclude;
      if cs[i].node == target + 1 {
        if cs[i].exclude {
          Vetoed(parent, cs, target, i, 0);
          return false, false;
        }
        included := true;
      }
      inherits := inherits || cs[i].inherit;
    }
    assert cs[..|cs|] == cs;
    if included && !hasExclude {
      SeenInclude(parent, cs, target, 1);
      return true, false;
    }
    if !inherits {
      OnlyDepthZero(parent, cs, target);
      return included, false;
    }
    var n, steps := parent[target], 0;
    while n >= 0 && steps < |parent|
      invariant 0 <= steps <= |parent|
      invariant n == Walk(parent, target, steps + 1)
      invariant included <==> HitBelow(parent, cs, target, steps + 1, false)
      invariant !HitBelow(parent, cs, target, steps + 1, true)
      invariant included ==> hasExclude
      decreases |parent| - steps
    {
      ghost var before := included;
      for i := 0 to |cs|
        invariant included ==> hasExclude
        invariant included <==> before || exists c :: c in cs[..i] && !c.exclude && Hit(parent, c, target, steps + 1)
        invariant forall c :: c in cs[..i] && c.exclude ==> !Hit(parent, c, target, steps + 1)
      {
        assert cs[..i + 1] == cs[..i] + [cs[i]];
        assert cs[i].node == n + 1 && cs[i].inherit <==> Hit(parent, cs[i], target, steps + 1);
        if cs[i].node == n + 1 && cs[i].inherit {
          if cs[i].exclude {
            Vetoed(parent, cs, target, i, steps + 1);
            return false, false;
          }
          if !hasExclude {
            assert HitBelow(parent, cs, target, steps + 2, false);
            SeenInclude(parent, cs, target, steps + 2);
            return true, false;
          }
          included := true;
        }
      }
      assert cs[..|cs|] == cs;
      HitBelowGrows(parent, cs, target, steps + 1, false);
      HitBelowGrows(parent, cs, target, steps + 1, true);
      WalkSplit(parent, target, steps + 1, 1);
      n, steps := parent[n], steps + 1;
    }
    spent := n >= 0;
    WalkIsOver(parent, cs, target, steps, included, hasExclude);
    return included, spent;
  }

  // What is known when the walk stops, at the top or at the bound.
  lemma WalkIsOver(parent: seq<int>, cs: seq<ScopeConstraint>, t: int, steps: nat, included: bool, hasExclude: bool)
    requires Linked(parent) && 0 <= t < |parent| && steps <= |parent|
    requires Walk(parent, t, steps + 1) < 0 || steps == |parent|
    requires included <==> HitBelow(parent, cs, t, steps + 1, false)
    requires !HitBelow(parent, cs, t, steps + 1, true) && (included ==> hasExclude)
    requires hasExclude <==> exists c :: c in cs && c.exclude
    requires exists c :: c in cs && c.inherit
    ensures included <==> Admits(parent, cs, t)
    ensures Walk(parent, t, steps + 1) >= 0 <==> RunsOut(parent, cs, t)
  {
    hide Covers, Admits, RunsOut, HitBelow, Walk;
    WalkSawAll(parent, cs, t, steps + 1, false);
    WalkSawAll(parent, cs, t, steps + 1, true);
    SawBoth(parent, cs, t);
    if Walk(parent, t, steps + 1) >= 0 {
      WalkSplit(parent, t, |parent|, 1);
      LeftStaysOut(parent, 1);
      RanOut(parent, cs, t, hasExclude);
    } else {
      EndedIsNotRunOut(parent, cs, t, steps + 1);
    }
  }

  lemma LeftStaysOut(parent: seq<int>, k: nat)
    requires Linked(parent)
    ensures Walk(parent, -1, k) == -1
  {
  }

  lemma SawBoth(parent: seq<int>, cs: seq<ScopeConstraint>, t: int)
    requires Linked(parent)
    ensures Admits(parent, cs, t) <==>
            && (exists c :: c in cs && c.exclude == false && Covers(parent, c, t))
            && !(exists c :: c in cs && c.exclude == true && Covers(parent, c, t))
  {
  }

  // An exclude hit anywhere on the way up vetoes, whatever the includes say.
  lemma Vetoed(parent: seq<int>, cs: seq<ScopeConstraint>, t: int, i: nat, k: nat)
    requires Linked(parent) && i < |cs| && cs[i].exclude && Hit(parent, cs[i], t, k)
    ensures !Admits(parent, cs, t) && !RunsOut(parent, cs, t)
  {
    hide Endless;
    assert cs[i] in cs && Covers(parent, cs[i], t);
  }

  lemma OutsideIsDenied(parent: seq<int>, cs: seq<ScopeConstraint>, t: int)
    requires Linked(parent) && !(0 <= t < |parent|)
    ensures !Admits(parent, cs, t)
  {
    forall c, k: nat ensures !Hit(parent, c, t, k) { }
  }

  lemma SeenInclude(parent: seq<int>, cs: seq<ScopeConstraint>, t: int, n: nat)
    requires Linked(parent) && HitBelow(parent, cs, t, n, false) && !(exists c :: c in cs && c.exclude)
    ensures Admits(parent, cs, t) && !RunsOut(parent, cs, t)
  {
    hide Endless;
    var c, k: nat :| c in cs && !c.exclude && k < n && Hit(parent, c, t, k);
    assert Covers(parent, c, t);
  }

  lemma OnlyDepthZero(parent: seq<int>, cs: seq<ScopeConstraint>, t: int)
    requires Linked(parent) && !(exists c :: c in cs && c.inherit) && !HitBelow(parent, cs, t, 1, true)
    ensures (Admits(parent, cs, t) <==> HitBelow(parent, cs, t, 1, false)) && !RunsOut(parent, cs, t)
  {
    forall c | c in cs
      ensures Covers(parent, c, t) <==> Hit(parent, c, t, 0)
    {
    }
  }

  // CoveredBy as a function of the frozen state; the method above computes it.
  predicate Admitted(parent: seq<int>, cs: seq<ScopeConstraint>, t: int)
    requires Linked(parent)
    ensures Admitted(parent, cs, t) <==> Admits(parent, cs, t)
  {
    forall c { CoverIsShort(parent, c, t); }
    && (exists c :: c in cs && !c.exclude && exists k :: 0 <= k < |parent| && Hit(parent, c, t, k))
    && (forall c :: c in cs && c.exclude ==> !exists k :: 0 <= k < |parent| && Hit(parent, c, t, k))
  }
}
