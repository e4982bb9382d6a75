// Every routine that edits the scope tree keeps scope_closure exactly the ancestor relation of the
// parent pointers, and so does every run of them.
module ScopeClosure {
  import opened Prelude
  import opened ScopeTree

  // ---------------------------------------------------------------- walking up

  lemma {:induction false} UpSplit(nodes: Nodes, d: Id, j: nat, k: nat)
    ensures Up(nodes, d, j + k) == match Up(nodes, d, j) case None => None case Some(m) => Up(nodes, m, k)
    decreases j
  {
    if d in nodes && j > 0 && nodes[d].parent.Some? {
      UpSplit(nodes, nodes[d].parent.value, j - 1, k);
    }
  }

  lemma {:induction false} UpKnown(nodes: Nodes, d: Id, k: nat)
    ensures Up(nodes, d, k).Some? ==> d in nodes && Up(nodes, d, k).value in nodes
    decreases k
  {
    if d in nodes && k > 0 && nodes[d].parent.Some? {
      UpKnown(nodes, nodes[d].parent.value, k - 1);
    }
  }

  // One more link above a node that is somebody's ancestor.
  lemma UpThrough(nodes: Nodes, d: Id, m: Id, a: Id, j: nat, k: nat)
    requires IsUp(nodes, m, d, j)
    ensures IsUp(nodes, a, m, k) <==> IsUp(nodes, a, d, j + k)
  {
    UpSplit(nodes, d, j, k);
  }

  // In an exact closure no node is its own proper ancestor, and every pair of nodes that is related
  // at all is related at one depth only.
  lemma NoCycle(nodes: Nodes, closure: Closure, a: Id, d: Id, j: nat, k: nat)
    requires Exact(nodes, closure)
    requires IsUp(nodes, a, d, j) && IsUp(nodes, a, d, k)
    ensures j == k
    ensures a == d ==> k == 0
  {
    assert Row(closure, a, d, j) && Row(closure, a, d, k);
    if a == d {
      UpKnown(nodes, d, k);
      assert IsUp(nodes, d, d, 0);
      assert Row(closure, d, d, 0);
    }
  }

  // The closure is a function of the tree: two exact closures of one tree are equal.
  lemma ExactIsUnique(nodes: Nodes, c: Closure, c': Closure)
    requires Exact(nodes, c) && Exact(nodes, c')
    ensures c == c'
  {
    forall key | key in c
      ensures key in c' && c'[key] == c[key]
    {
      assert Row(c, key.0, key.1, c[key]);
      assert IsUp(nodes, key.0, key.1, c[key]);
      assert Row(c', key.0, key.1, c[key]);
    }
    forall key | key in c'
      ensures key in c
    {
      assert Row(c', key.0, key.1, c'[key]);
      assert IsUp(nodes, key.0, key.1, c'[key]);
      assert Row(c, key.0, key.1, c'[key]);
    }
  }

  // The rows of an exact closure only name nodes of the tree.
  lemma RowKnown(nodes: Nodes, closure: Closure, a: Id, d: Id)
    requires Exact(nodes, closure) && (a, d) in closure
    ensures a in nodes && d in nodes && IsUp(nodes, a, d, closure[(a, d)])
  {
    assert Row(closure, a, d, closure[(a, d)]);
    UpKnown(nodes, d, closure[(a, d)]);
  }

  // ---------------------------------------------------------------- adding a leaf

  lemma {:induction false} UpIgnoresLeaf(nodes: Nodes, id: Id, row: Node, d: Id, k: nat)
    requires ParentsPresent(nodes) && id !in nodes && d in nodes
    ensures Up(nodes[id := row], d, k) == Up(nodes, d, k)
    decreases k
  {
    assert ParentOk(nodes, d);
    if k > 0 && nodes[d].parent.Some? {
      UpIgnoresLeaf(nodes, id, row, nodes[d].parent.value, k - 1);
    }
  }

  lemma LeafRow(closure: Closure, p: Id, id: Id, a: Id, k: nat)
    requires a != id
    ensures Row(LeafRows(closure, Some(p), id), a, id, k) <==> k > 0 && Row(closure, a, p, k - 1)
  {
    var rows := LeafRows(closure, Some(p), id);
    if (a, p) in closure {
      assert Some((a, p).1) == Some(p);
      assert (a, id) in rows && rows[(a, id)] == closure[(a, p)] + 1;
    }
  }

  lemma LeafKeepsExact(nodes: Nodes, closure: Closure, id: Id, row: Node)
    requires ParentsPresent(nodes) && Exact(nodes, closure)
    requires id !in nodes && (row.parent.Some? ==> row.parent.value in nodes)
    ensures Exact(nodes[id := row], closure + LeafRows(closure, row.parent, id))
  {
    var nodes' := nodes[id := row];
    var leaf := LeafRows(closure, row.parent, id);
    forall a, d, k: nat
      ensures Row(closure + leaf, a, d, k) <==> IsUp(nodes', a, d, k)
    {
      if d == id {
        LeafChain(nodes, closure, id, row, a, k);
      } else {
        assert (a, d) !in leaf;
        assert Row(closure + leaf, a, d, k) <==> Row(closure, a, d, k);
        if d in nodes { UpIgnoresLeaf(nodes, id, row, d, k); }
      }
    }
  }

  lemma LeafChain(nodes: Nodes, closure: Closure, id: Id, row: Node, a: Id, k: nat)
    requires ParentsPresent(nodes) && Exact(nodes, closure)
    requires id !in nodes && (row.parent.Some? ==> row.parent.value in nodes)
    ensures Row(closure + LeafRows(closure, row.parent, id), a, id, k) <==> IsUp(nodes[id := row], a, id, k)
  {
    var leaf := LeafRows(closure, row.parent, id);
    if (a, id) in closure { RowKnown(nodes, closure, a, id); assert false; }
    assert Row(closure + leaf, a, id, k) <==> Row(leaf, a, id, k);
    LeafChainUp(nodes, id, row, a, k);
    if a != id {
      if row.parent.Some? {
        LeafRow(closure, row.parent.value, id, a, k);
        if k > 0 { assert Row(closure, a, row.parent.value, k - 1) <==> IsUp(nodes, a, row.parent.value, k - 1); }
      } else {
        assert (a, id) !in leaf;
      }
    }
  }

  lemma LeafChainUp(nodes: Nodes, id: Id, row: Node, a: Id, k: nat)
    requires ParentsPresent(nodes) && id !in nodes && (row.parent.Some? ==> row.parent.value in nodes)
    ensures IsUp(nodes[id := row], a, id, k) <==>
            if k == 0 then a == id else row.parent.Some? && IsUp(nodes, a, row.parent.value, k - 1)
    ensures IsUp(nodes[id := row], a, id, k) && k > 0 ==> a != id
  {
    if k > 0 && row.parent.Some? {
      UpIgnoresLeaf(nodes, id, row, row.parent.value, k - 1);
      UpKnown(nodes, row.parent.value, k - 1);
    }
  }

  // ---------------------------------------------------------------- moving a subtree

  // What every lemma about a move starts from: the move has passed its cycle probe.
  ghost predicate Movable(nodes: Nodes, closure: Closure, n: Id, p: Id) {
    && ParentsPresent(nodes) && Exact(nodes, closure)
    && n in nodes && p in nodes && (n, p) !in closure
  }

  lemma Related(nodes: Nodes, closure: Closure, a: Id, d: Id, k: nat)
    requires Exact(nodes, closure) && IsUp(nodes, a, d, k)
    ensures (a, d) in closure && closure[(a, d)] == k
  {
    assert Row(closure, a, d, k);
  }

  lemma {:induction false} UpOutside(nodes: Nodes, closure: Closure, n: Id, p: Id, d: Id, k: nat)
    requires Movable(nodes, closure, n, p) && d in nodes && (n, d) !in closure
    ensures Up(Reparented(nodes, n, Some(p)), d, k) == Up(nodes, d, k)
    decreases k
  {
    if d == n { Related(nodes, closure, n, n, 0); }
    assert ParentOk(nodes, d);
    if k > 0 && nodes[d].parent.Some? {
      var q := nodes[d].parent.value;
      if (n, q) in closure {
        RowKnown(nodes, closure, n, q);
        Related(nodes, closure, n, d, closure[(n, q)] + 1);
      }
      UpOutside(nodes, closure, n, p, q, k - 1);
    }
  }

  lemma {:induction false} UpInside(nodes: Nodes, closure: Closure, n: Id, p: Id, d: Id, j: nat, k: nat)
    requires Movable(nodes, closure, n, p) && IsUp(nodes, n, d, j) && k <= j
    ensures Up(Reparented(nodes, n, Some(p)), d, k) == Up(nodes, d, k)
    decreases k
  {
    UpKnown(nodes, d, j);
    if k > 0 {
      if d == n { NoCycle(nodes, closure, n, n, j, 0); }
      UpInside(nodes, closure, n, p, nodes[d].parent.value, j - 1, k - 1);
    }
  }

  lemma UpPastGraft(nodes: Nodes, closure: Closure, n: Id, p: Id, d: Id, j: nat, k: nat)
    requires Movable(nodes, closure, n, p) && IsUp(nodes, n, d, j)
    ensures Up(Reparented(nodes, n, Some(p)), d, j + 1 + k) == Up(nodes, p, k)
  {
    var nodes' := Reparented(nodes, n, Some(p));
    UpInside(nodes, closure, n, p, d, j, j);
    UpSplit(nodes', d, j, 1 + k);
    UpOutside(nodes, closure, n, p, p, k);
  }

  lemma SeveredRow(closure: Closure, n: Id, a: Id, d: Id, k: nat)
    ensures Row(Severed(closure, n), a, d, k) <==>
            Row(closure, a, d, k) && !((n, d) in closure && (a, n) in closure && a != n)
  {
    if (n, d) in closure { assert (n, d).1 in Below(closure, n); }
    if (a, n) in closure && a != n { assert (a, n).0 in StrictlyAbove(closure, n); }
  }

  lemma SeveredKeeps(closure: Closure, n: Id, p: Id)
    requires (n, p) !in closure
    ensures forall a, k: nat :: Row(Severed(closure, n), a, p, k) <==> Row(closure, a, p, k)
    ensures forall d, k: nat :: Row(Severed(closure, n), n, d, k) <==> Row(closure, n, d, k)
  {
    forall a, k: nat ensures Row(Severed(closure, n), a, p, k) <==> Row(closure, a, p, k) { SeveredRow(closure, n, a, p, k); }
    forall d, k: nat ensures Row(Severed(closure, n), n, d, k) <==> Row(closure, n, d, k) { SeveredRow(closure, n, n, d, k); }
  }

  lemma GraftedRow(c: Closure, n: Id, p: Id, a: Id, d: Id, k: nat)
    ensures Row(Grafted(c, n, Some(p)), a, d, k) <==>
            (a, p) in c && (n, d) in c && k == c[(a, p)] + c[(n, d)] + 1
  {
    CrossedPairs(c, n, p, a, d);
  }

  // a and n both lie on d's path to its root; which of them is nearer decides how they are related.
  lemma OnOnePath(nodes: Nodes, a: Id, n: Id, d: Id, k: nat, j: nat)
    requires IsUp(nodes, a, d, k) && IsUp(nodes, n, d, j)
    ensures k <= j ==> IsUp(nodes, n, a, j - k)
    ensures j <= k ==> IsUp(nodes, a, n, k - j)
  {
    if k <= j { UpThrough(nodes, d, a, n, k, j - k); } else { UpThrough(nodes, d, n, a, j, k - j); }
  }

  // A node between d and n cannot sit above n, nor above the new parent.
  lemma InsideIsNotAbove(nodes: Nodes, closure: Closure, n: Id, p: Id, a: Id, d: Id, k: nat, j: nat)
    requires Movable(nodes, closure, n, p)
    requires IsUp(nodes, a, d, k) && IsUp(nodes, n, d, j) && k <= j
    ensures !((a, n) in closure && a != n)
    ensures (a, p) !in closure
  {
    OnOnePath(nodes, a, n, d, k, j);
    if (a, n) in closure {
      RowKnown(nodes, closure, a, n);
      UpThrough(nodes, n, a, n, closure[(a, n)], j - k);
      NoCycle(nodes, closure, n, n, closure[(a, n)] + (j - k), 0);
    }
    if (a, p) in closure {
      RowKnown(nodes, closure, a, p);
      UpThrough(nodes, p, a, n, closure[(a, p)], j - k);
    }
  }

  // The rows that survive the DELETE and the rows the INSERT adds never share a primary key.
  lemma GraftIsNew(nodes: Nodes, closure: Closure, n: Id, p: Id)
    requires Movable(nodes, closure, n, p)
    ensures Severed(closure, n).Keys !! Grafted(Severed(closure, n), n, Some(p)).Keys
  {
    var severed := Severed(closure, n);
    var graft := Grafted(severed, n, Some(p));
    SeveredKeeps(closure, n, p);
    forall key | key in severed && key in graft
      ensures false
    {
      var (a, d) := key;
      GraftedRow(severed, n, p, a, d, graft[key]);
      assert Row(severed, a, d, severed[key]);
      SeveredRow(closure, n, a, d, severed[key]);
      assert Row(severed, a, p, severed[(a, p)]) && Row(severed, n, d, severed[(n, d)]);
      RowKnown(nodes, closure, a, d);
      RowKnown(nodes, closure, n, d);
      if closure[(a, d)] <= closure[(n, d)] {
        InsideIsNotAbove(nodes, closure, n, p, a, d, closure[(a, d)], closure[(n, d)]);
      } else {
        OnOnePath(nodes, a, n, d, closure[(a, d)], closure[(n, d)]);
      }
    }
  }

  lemma MovedRowInside(nodes: Nodes, closure: Closure, n: Id, p: Id, a: Id, d: Id, k: nat)
    requires Movable(nodes, closure, n, p) && (n, d) in closure
    ensures (Row(Severed(closure, n), a, d, k) || Row(Grafted(Severed(closure, n), n, Some(p)), a, d, k))
            <==> IsUp(Reparented(nodes, n, Some(p)), a, d, k)
  {
    var severed := Severed(closure, n);
    var j := closure[(n, d)];
    RowKnown(nodes, closure, n, d);
    SeveredRow(closure, n, a, d, k);
    SeveredKeeps(closure, n, p);
    GraftedRow(severed, n, p, a, d, k);
    assert Row(severed, n, d, j);
    assert Row(closure, a, d, k) <==> IsUp(nodes, a, d, k);
    if k <= j {
      UpInside(nodes, closure, n, p, d, j, k);
      if IsUp(nodes, a, d, k) { InsideIsNotAbove(nodes, closure, n, p, a, d, k, j); }
    } else {
      UpPastGraft(nodes, closure, n, p, d, j, k - j - 1);
      assert Row(severed, a, p, k - j - 1) <==> Row(closure, a, p, k - j - 1);
      assert Row(closure, a, p, k - j - 1) <==> IsUp(nodes, a, p, k - j - 1);
      if IsUp(nodes, a, d, k) {
        OnOnePath(nodes, a, n, d, k, j);
        Related(nodes, closure, a, n, k - j);
      }
    }
  }

  lemma MovedRowOutside(nodes: Nodes, closure: Closure, n: Id, p: Id, a: Id, d: Id, k: nat)
    requires Movable(nodes, closure, n, p) && (n, d) !in closure
    ensures (Row(Severed(closure, n), a, d, k) || Row(Grafted(Severed(closure, n), n, Some(p)), a, d, k))
            <==> IsUp(Reparented(nodes, n, Some(p)), a, d, k)
  {
    SeveredRow(closure, n, a, d, k);
    GraftedRow(Severed(closure, n), n, p, a, d, k);
    assert (n, d) !in Severed(closure, n);
    assert Row(closure, a, d, k) <==> IsUp(nodes, a, d, k);
    if d in nodes { UpOutside(nodes, closure, n, p, d, k); }
  }

  lemma RowOfUnion(c: Closure, c': Closure, a: Id, d: Id, k: nat)
    requires c.Keys !! c'.Keys
    ensures Row(c + c', a, d, k) <==> Row(c, a, d, k) || Row(c', a, d, k)
  {
    assert !((a, d) in c.Keys && (a, d) in c'.Keys);
  }

  // Delete-then-graft leaves exactly the closure of the tree with n under p.
  lemma MoveKeepsExact(nodes: Nodes, closure: Closure, n: Id, p: Id)
    requires Movable(nodes, closure, n, p)
    ensures Exact(Reparented(nodes, n, Some(p)), Severed(closure, n) + Grafted(Severed(closure, n), n, Some(p)))
  {
    var severed := Severed(closure, n);
    var graft := Grafted(severed, n, Some(p));
    GraftIsNew(nodes, closure, n, p);
    forall a, d, k: nat
      ensures Row(severed + graft, a, d, k) <==> IsUp(Reparented(nodes, n, Some(p)), a, d, k)
    {
      RowOfUnion(severed, graft, a, d, k);
      if (n, d) in closure { MovedRowInside(nodes, closure, n, p, a, d, k); }
      else { MovedRowOutside(nodes, closure, n, p, a, d, k); }
    }
  }

  // ---------------------------------------------------------------- every routine keeps Sound

  lemma DepthBounds(closure: Closure, d: Option<Id>, key: (Id, Id))
    requires key in closure && Some(key.1) == d
    ensures DepthOf(closure, d).Some? && closure[key] <= DepthOf(closure, d).value
  {
    assert closure[key] in DepthsTo(closure, d);
  }

  lemma HeightBounds(closure: Closure, a: Id, key: (Id, Id))
    requires key in closure && key.0 == a
    ensures HeightOf(closure, a).Some? && closure[key] <= HeightOf(closure, a).value
  {
    assert closure[key] in DepthsFrom(closure, a);
  }

  lemma LeafRowComesFrom(closure: Closure, parent: Option<Id>, id: Id, key: (Id, Id))
    requires key in LeafRows(closure, parent, id) && key != (id, id)
    ensures exists up :: up in closure && Some(up.1) == parent && LeafRows(closure, parent, id)[key] == closure[up] + 1
  {
  }

  lemma LeafIsShallow(closure: Closure, parent: Option<Id>, id: Id)
    requires Shallow(closure)
    requires DepthOf(closure, parent).Some? ==> DepthOf(closure, parent).value + 1 <= MAX_DEPTH
    ensures Shallow(closure + LeafRows(closure, parent, id))
  {
    var leaf := LeafRows(closure, parent, id);
    forall key | key in leaf && key != (id, id)
      ensures leaf[key] <= MAX_DEPTH
    {
      hide LeafRows, DepthOf;
      LeafRowComesFrom(closure, parent, id, key);
      var up :| up in closure && Some(up.1) == parent && leaf[key] == closure[up] + 1;
      DepthBounds(closure, parent, up);
    }
  }

  lemma MakeSound(levels: Levels, nodes: Nodes, closure: Closure)
    requires OneTop(levels) && NodesOk(levels, nodes) && Exact(nodes, closure) && Shallow(closure)
    ensures Sound(Scope(levels, nodes, closure))
  {
  }

  // The row's parent was in the table already: the foreign key says it is in the table now, and it
  // is not the row itself.
  lemma ParentWasThere(nodes: Nodes, id: Id, row: Node)
    requires ParentsPresent(nodes[id := row]) && row.parent.Some? && row.parent != Some(id)
    ensures row.parent.value in nodes
  {
    assert ParentOk(nodes[id := row], id);
  }

  lemma AddKeepsSound(s: Scope, id: Id, row: Node)
    requires Sound(s) && row.parent != Some(id)
    ensures AddNode(s, id, row).Ok? ==> Sound(AddNode(s, id, row).value)
  {
    if AddNode(s, id, row).Ok? {
      var nodes', closure' := s.nodes[id := row], s.closure + LeafRows(s.closure, row.parent, id);
      if row.parent.Some? { ParentWasThere(s.nodes, id, row); }
      LeafKeepsExact(s.nodes, s.closure, id, row);
      LeafIsShallow(s.closure, row.parent, id);
      MakeSound(s.levels, nodes', closure');
    }
  }

  lemma RootLeaf(s: Scope, id: Id, row: Node)
    requires Sound(s) && id !in s.nodes && row.parent == None && NodesOk(s.levels, s.nodes[id := row])
    ensures Sound(s.(nodes := s.nodes[id := row], closure := s.closure[(id, id) := 0]))
  {
    hide OneTop, RowChecks, Uniques;
    var closure' := s.closure + LeafRows(s.closure, None, id);
    RootRows(s.closure, id);
    hide LeafRows, Shallow, Exact;
    LeafKeepsExact(s.nodes, s.closure, id, row);
    LeafIsShallow(s.closure, None, id);
    MakeSound(s.levels, s.nodes[id := row], closure');
  }

  lemma RootRows(closure: Closure, id: Id)
    ensures closure + LeafRows(closure, None, id) == closure[(id, id) := 0]
  {
    assert LeafRows(closure, None, id) == map[(id, id) := 0];
  }

  lemma RootKeepsSound(s: Scope, tenant: Id, axis: string, id: Id)
    requires Sound(s) && EnsureRoot(s, tenant, axis, id).Ok?
    ensures Sound(EnsureRoot(s, tenant, axis, id).value.0)
    ensures var (s', r) := EnsureRoot(s, tenant, axis, id).value;
            r in s'.nodes && IsRootOf(s'.nodes[r], tenant, axis)
    // Where one stood nothing changes.
    ensures var (s', r) := EnsureRoot(s, tenant, axis, id).value;
            (exists x :: x in s.nodes && s.nodes[x].tenant == tenant && s.nodes[x].axis == axis && s.nodes[x].isAxisRoot) ==>
              s' == s && r in s.nodes
    // Where none stood one node is added, under the level that has no legal parents and by its name.
    ensures var (s', r) := EnsureRoot(s, tenant, axis, id).value;
            (forall x :: x in s.nodes && s.nodes[x].tenant == tenant && s.nodes[x].axis == axis ==> !s.nodes[x].isAxisRoot) ==>
              && r == id && s'.nodes.Keys == s.nodes.Keys + {id} && id !in s.nodes && s'.levels == s.levels
              && (forall x :: x in s.nodes ==> s'.nodes[x] == s.nodes[x])
              && var root := s'.nodes[id];
                 && root.tenant == tenant && root.axis == axis && root.isAxisRoot && root.parent == None
                 && root.slug == "_root" && root.externalRef == None && root.status == Active
                 && (tenant, root.level) in s.levels
                 && s.levels[(tenant, root.level)].axis == axis && s.levels[(tenant, root.level)].parents == {}
                 && root.name == s.levels[(tenant, root.level)].displayName
  {
    if !(exists r :: r in s.nodes && IsRootOf(s.nodes[r], tenant, axis)) {
      var t :| t in s.levels && IsTop(s.levels, t, tenant, axis);
      RootLeaf(s, id, Node(tenant, axis, None, true, t.1, "_root", s.levels[t].displayName, None, Active));
    }
  }

  // It raises for want of a level exactly when no root stands and no level of the axis may be one.
  lemma RootNeedsLevel(s: Scope, tenant: Id, axis: string, id: Id)
    requires OneTop(s.levels) && Uniques(s.nodes)
    ensures EnsureRoot(s, tenant, axis, id) == Err(NoRootLevel) <==>
            && (forall x :: x in s.nodes && s.nodes[x].tenant == tenant && s.nodes[x].axis == axis ==> !s.nodes[x].isAxisRoot)
            && (forall t :: t in s.levels && t.0 == tenant && s.levels[t].axis == axis ==> s.levels[t].parents != {})
  {
  }

  lemma {:induction false} UpRelabelled(s: Scope, id: Id, name: string, status: Status, d: Id, k: nat)
    ensures Up(Relabel(s, id, name, status).nodes, d, k) == Up(s.nodes, d, k)
    decreases k
  {
    if k > 0 && d in s.nodes && s.nodes[d].parent.Some? {
      UpRelabelled(s, id, name, status, s.nodes[d].parent.value, k - 1);
    }
  }

  lemma RelabelKeepsExact(s: Scope, id: Id, name: string, status: Status)
    requires Exact(s.nodes, s.closure)
    ensures Exact(Relabel(s, id, name, status).nodes, s.closure)
  {
    forall a, d, k: nat
      ensures Row(s.closure, a, d, k) <==> IsUp(Relabel(s, id, name, status).nodes, a, d, k)
    {
      UpRelabelled(s, id, name, status, d, k);
      assert Row(s.closure, a, d, k) <==> IsUp(s.nodes, a, d, k);
    }
  }

  lemma RelabelKeepsSound(s: Scope, id: Id, name: string, status: Status)
    requires Sound(s)
    ensures Sound(Relabel(s, id, name, status))
  {
    RelabelKeepsExact(s, id, name, status);
    var nodes' := Relabel(s, id, name, status).nodes;
    forall x | x in nodes' ensures ParentOk(nodes', x) && RowOk(s.levels, nodes', x) {
      assert ParentOk(s.nodes, x) && RowOk(s.levels, s.nodes, x);
    }
    forall x, y | x in nodes' && y in nodes' && x != y ensures Apart(nodes'[x], nodes'[y]) {
      assert Apart(s.nodes[x], s.nodes[y]);
    }
  }

  // Moving a node nobody has heard of touches no row.
  lemma MoveUnknown(s: Scope, node: Id, parent: Option<Id>)
    requires Sound(s) && node !in s.nodes
    ensures Severed(s.closure, node) == s.closure && Grafted(Severed(s.closure, node), node, parent) == map[]
  {
    forall d | (node, d) in s.closure ensures false { RowKnown(s.nodes, s.closure, node, d); }
    assert Below(s.closure, node) == {};
    if parent.Some? {
      forall pair | pair in Crossed(s.closure, node, parent.value)
        ensures false
      {
        CrossedPairs(s.closure, node, parent.value, pair.0, pair.1);
      }
      assert Crossed(s.closure, node, parent.value) == {};
    }
  }

  lemma RootHasNoneAbove(s: Scope, root: Id)
    requires Sound(s) && root in s.nodes && s.nodes[root].parent == None
    ensures Severed(s.closure, root) == s.closure
  {
    forall key | key in StrictlyAbove(s.closure, root) || (key, root) in s.closure
      ensures key == root && key !in StrictlyAbove(s.closure, root)
    {
      RowKnown(s.nodes, s.closure, key, root);
    }
  }

  // The depth probe bounds every row the graft can add.
  lemma GraftIsShallow(s: Scope, node: Id, p: Id)
    requires Sound(s) && (node, p) !in s.closure
    requires Coalesce(DepthOf(s.closure, Some(p)), 0) + Coalesce(HeightOf(s.closure, node), 0) + 1 <= MAX_DEPTH
    ensures Shallow(Severed(s.closure, node) + Grafted(Severed(s.closure, node), node, Some(p)))
  {
    var severed := Severed(s.closure, node);
    var graft := Grafted(severed, node, Some(p));
    forall key | key in graft
      ensures graft[key] <= MAX_DEPTH
    {
      GraftedRow(severed, node, p, key.0, key.1, graft[key]);
      DepthBounds(s.closure, Some(p), (key.0, p));
      HeightBounds(s.closure, node, (node, key.1));
    }
  }

  lemma RootMove(s: Scope, node: Id)
    requires Sound(s) && node in s.nodes && NodesOk(s.levels, Reparented(s.nodes, node, None))
    ensures Reparented(s.nodes, node, None) == s.nodes && Severed(s.closure, node) == s.closure
  {
    var nodes' := Reparented(s.nodes, node, None);
    assert nodes'[node].parent == None && nodes'[node].isAxisRoot by { assert RowOk(s.levels, nodes', node); }
    assert s.nodes[node].parent == None by { assert RowOk(s.levels, s.nodes, node); }
    RootHasNoneAbove(s, node);
  }

  // A move that is allowed leaves a sound tree with the node under its new parent and nothing else
  // changed; the insert never meets its own primary key.
  lemma MoveKeepsSound(s: Scope, node: Id, parent: Option<Id>)
    requires Sound(s) && MoveNode(s, node, parent).Ok?
    ensures Sound(MoveNode(s, node, parent).value)
    ensures MoveNode(s, node, parent).value.nodes == Reparented(s.nodes, node, parent)
  {
    var s' := MoveNode(s, node, parent).value;
    assert s'.levels == s.levels && NodesOk(s.levels, s'.nodes);
    if node !in s.nodes {
      MoveUnknown(s, node, parent);
      assert s'.closure == s.closure;
    } else if parent.Some? {
      assert parent.value in s.nodes by { assert ParentOk(s'.nodes, node); }
      MoveKeepsExact(s.nodes, s.closure, node, parent.value);
      GraftIsShallow(s, node, parent.value);
    } else {
      RootMove(s, node);
      assert s'.closure == s.closure;
    }
  }

  // When a move is refused, and for what: the cycle probe refuses exactly the moves under the node's
  // own subtree, the depth probe exactly those whose deepest row would not fit, and what is left is
  // the constraints on the moved row. The primary key of scope_closure never refuses anything.
  lemma MoveRefusals(s: Scope, node: Id, parent: Id)
    requires Sound(s) && node in s.nodes && parent in s.nodes
    ensures MoveNode(s, node, Some(parent)) == Err(Cycle) <==> exists k: nat :: IsUp(s.nodes, node, parent, k)
    ensures MoveNode(s, node, Some(parent)) == Err(TooDeep) <==>
            && !(exists k: nat :: IsUp(s.nodes, node, parent, k))
            && exists r, d, i: nat, j: nat :: IsUp(s.nodes, r, parent, i) && IsUp(s.nodes, node, d, j) && i + j + 1 > 32767
    ensures MoveNode(s, node, Some(parent)).Ok? <==>
            && MoveNode(s, node, Some(parent)) != Err(Cycle)
            && MoveNode(s, node, Some(parent)) != Err(TooDeep)
            && NodesOk(s.levels, Reparented(s.nodes, node, Some(parent)))
  {
    if (node, parent) in s.closure {
      RowKnown(s.nodes, s.closure, node, parent);
    } else {
      forall k: nat ensures !IsUp(s.nodes, node, parent, k) { assert Row(s.closure, node, parent, k) <==> IsUp(s.nodes, node, parent, k); }
      GraftIsNew(s.nodes, s.closure, node, parent);
      DeepestPair(s, node, parent);
    }
  }

  lemma DeepestPair(s: Scope, node: Id, parent: Id)
    requires Sound(s) && node in s.nodes && parent in s.nodes
    ensures Coalesce(DepthOf(s.closure, Some(parent)), 0) + Coalesce(HeightOf(s.closure, node), 0) + 1 > MAX_DEPTH <==>
            exists r, d, i: nat, j: nat :: IsUp(s.nodes, r, parent, i) && IsUp(s.nodes, node, d, j) && i + j + 1 > MAX_DEPTH
  {
    Related(s.nodes, s.closure, parent, parent, 0);
    Related(s.nodes, s.closure, node, node, 0);
    DepthBounds(s.closure, Some(parent), (parent, parent));
    HeightBounds(s.closure, node, (node, node));
    var sup :| sup in s.closure && Some(sup.1) == Some(parent) && s.closure[sup] == DepthOf(s.closure, Some(parent)).value;
    var sub :| sub in s.closure && sub.0 == node && s.closure[sub] == HeightOf(s.closure, node).value;
    RowKnown(s.nodes, s.closure, sup.0, parent);
    RowKnown(s.nodes, s.closure, node, sub.1);
    forall r, d, i: nat, j: nat | IsUp(s.nodes, r, parent, i) && IsUp(s.nodes, node, d, j)
      ensures i <= s.closure[sup] && j <= s.closure[sub]
    {
      Related(s.nodes, s.closure, r, parent, i);
      Related(s.nodes, s.closure, node, d, j);
      DepthBounds(s.closure, Some(parent), (r, parent));
      HeightBounds(s.closure, node, (node, d));
    }
  }

  // ---------------------------------------------------------------- over every run

  datatype Edit =
    | EnsureRootOf(tenant: Id, axis: string, id: Id)
    | Add(id: Id, tenant: Id, axis: string, level: string, parent: Option<Id>,
          slug: string, name: string, externalRef: Option<string>)
    | Move(node: Id, newParent: Option<Id>)
    | Label(node: Id, name: string, status: Status)

  // One transaction: a routine that raises leaves the tables as they were.
  function Step(s: Scope, e: Edit): Scope
    requires OneTop(s.levels) && Uniques(s.nodes)
  {
    match e
    case EnsureRootOf(tenant, axis, id) =>
      (match EnsureRoot(s, tenant, axis, id) case Ok(r) => r.0 case Err(_) => s)
    case Add(id, tenant, axis, level, parent, slug, name, externalRef) =>
      if parent == Some(id) then s else  // the uuid is drawn by the insert
      (match AddNode(s, id, NewNode(tenant, axis, level, parent, slug, name, externalRef)) case Ok(s') => s' case Err(_) => s)
    case Move(node, newParent) =>
      (match MoveNode(s, node, newParent) case Ok(s') => s' case Err(_) => s)
    case Label(node, name, status) => Relabel(s, node, name, status)
  }

  lemma StepKeepsSound(s: Scope, e: Edit)
    requires Sound(s)
    ensures Sound(Step(s, e)) && Step(s, e).levels == s.levels
  {
    match e
    case EnsureRootOf(tenant, axis, id) =>
      if EnsureRoot(s, tenant, axis, id).Ok? { RootKeepsSound(s, tenant, axis, id); }
    case Add(id, tenant, axis, level, parent, slug, name, externalRef) =>
      var row := NewNode(tenant, axis, level, parent, slug, name, externalRef);
      if parent != Some(id) && AddNode(s, id, row).Ok? { AddKeepsSound(s, id, row); }
    case Move(node, newParent) =>
      if MoveNode(s, node, newParent).Ok? { MoveKeepsSound(s, node, newParent); }
    case Label(node, name, status) => RelabelKeepsSound(s, node, name, status);
  }

  // Everything of a node but where it hangs, and its name and status.
  predicate SameBut(n: Node, m: Node) {
    && n.tenant == m.tenant && n.axis == m.axis && n.level == m.level && n.isAxisRoot == m.isAxisRoot
    && n.slug == m.slug && n.externalRef == m.externalRef
  }

  // What an edit writes into scope_nodes, column by column, when it is not refused.
  lemma StepWrites(s: Scope, e: Edit)
    requires OneTop(s.levels) && Uniques(s.nodes)
    ensures e.Add? && Step(s, e) != s ==>
              var nodes := Step(s, e).nodes;
              && e.id !in s.nodes && nodes.Keys == s.nodes.Keys + {e.id} && (forall x :: x in s.nodes ==> nodes[x] == s.nodes[x])
              && var n := nodes[e.id];
                 && n.tenant == e.tenant && n.axis == e.axis && n.level == e.level && n.parent == e.parent && !n.isAxisRoot
                 && n.slug == e.slug && n.name == e.name && n.externalRef == e.externalRef && n.status == Active
    ensures e.Move? && Step(s, e) != s ==>
              var nodes := Step(s, e).nodes;
              && nodes.Keys == s.nodes.Keys && (forall x :: x in s.nodes && x != e.node ==> nodes[x] == s.nodes[x])
              && (e.node in s.nodes ==>
                    var n, m := s.nodes[e.node], nodes[e.node];
                    SameBut(n, m) && m.name == n.name && m.status == n.status && m.parent == e.newParent)
    ensures e.Label? && e.node in s.nodes ==>
              var nodes := Step(s, e).nodes;
              && Step(s, e).closure == s.closure && nodes.Keys == s.nodes.Keys
              && (forall x :: x in s.nodes && x != e.node ==> nodes[x] == s.nodes[x])
              && var n, m := s.nodes[e.node], nodes[e.node];
                 SameBut(n, m) && m.name == e.name && m.status == e.status && m.parent == n.parent
  {
    hide NodesOk, DepthOf, HeightOf, Severed, Grafted, LeafRows, OneTop;
  }

  // When an add is refused, and for what: for depth exactly when some ancestor of the parent stands
  // as far above it as the column can say.
  lemma AddRefusals(s: Scope, id: Id, row: Node)
    requires Sound(s) && row.parent != Some(id)
    ensures AddNode(s, id, row) == Err(TooDeep) <==>
            exists a, k: nat :: row.parent.Some? && IsUp(s.nodes, a, row.parent.value, k) && k + 1 > 32767
    ensures AddNode(s, id, row).Ok? <==>
            AddNode(s, id, row) != Err(TooDeep) && id !in s.nodes && NodesOk(s.levels, s.nodes[id := row])
  {
    var depth := DepthOf(s.closure, row.parent);
    if depth.Some? {
      var key :| key in s.closure && Some(key.1) == row.parent && s.closure[key] == depth.value;
      RowKnown(s.nodes, s.closure, key.0, key.1);
    }
    if a, k: nat :| row.parent.Some? && IsUp(s.nodes, a, row.parent.value, k) && k + 1 > 32767 {
      Related(s.nodes, s.closure, a, row.parent.value, k);
      DepthBounds(s.closure, row.parent, (a, row.parent.value));
    }
  }

  // The states a run of edits passes through, starting from an empty tree.
  ghost predicate IsRun(levels: Levels, edits: seq<Edit>, states: seq<Scope>)
    requires OneTop(levels)
  {
    && |states| == |edits| + 1
    && states[0] == Scope(levels, map[], map[])
    && forall i :: 0 <= i < |edits| ==>
         && OneTop(states[i].levels) && Uniques(states[i].nodes)
         && states[i + 1] == Step(states[i], edits[i])
  }

  // After any sequence of root creations, adds, moves and relabellings, refused ones included,
  // scope_closure holds exactly the (ancestor, descendant, depth) triples of the tree, the parent
  // relation has no cycle and no depth exceeds what the column can hold.
  lemma {:induction false} EveryRunIsSound(levels: Levels, edits: seq<Edit>, states: seq<Scope>, i: nat)
    requires OneTop(levels) && IsRun(levels, edits, states) && i < |states|
    ensures Sound(states[i])
    ensures forall a, d, k: nat :: Row(states[i].closure, a, d, k) <==> IsUp(states[i].nodes, a, d, k)
    ensures forall d, k: nat :: IsUp(states[i].nodes, d, d, k) ==> k == 0
    ensures forall a, d, k: nat :: IsUp(states[i].nodes, a, d, k) ==> k <= 32767
    ensures forall id :: id in states[i].nodes ==> RowStands(states[i].levels, states[i].nodes, id)
    ensures forall x, y :: x in states[i].nodes && y in states[i].nodes && x != y ==> TwoStand(states[i].nodes, x, y)
  {
    if i > 0 {
      EveryRunIsSound(levels, edits, states, i - 1);
      StepKeepsSound(states[i - 1], edits[i - 1]);
    }
    var s := states[i];
    forall d, k: nat | IsUp(s.nodes, d, d, k) ensures k == 0 { NoCycle(s.nodes, s.closure, d, d, k, k); }
    forall a, d, k: nat | IsUp(s.nodes, a, d, k) ensures k <= 32767 { Related(s.nodes, s.closure, a, d, k); }
    NodesOkMeans(s.levels, s.nodes);
  }
}
