// Why syncing converges: one run that raises nothing leaves only renames for the next, and after
// that a run changes nothing at all.
module ScopeConverge {
  import opened Prelude
  import opened ScopeTree
  import opened ScopeClosure
  import opened ScopeSync

  // Every row names itself, and no two rows are about one node.
  predicate DistinctRefs(rows: seq<FeedRow>) {
    && (forall i :: 0 <= i < |rows| ==> rows[i].ref.Some?)
    && (forall i, j :: 0 <= i < j < |rows| ==> rows[i].ref != rows[j].ref)
  }

  // The row's node exists and hangs where the row says.
  predicate Settled(nodes: Nodes, src: Source, row: FeedRow)
    requires Uniques(nodes)
  {
    var n := ByRef(nodes, src, row.ref);
    n.Some? && ParentFor(nodes, src, RootOf(nodes, src), row, false, {}) == Ok(nodes[n.value].parent)
  }

  // ... and carries the row's name, and is active.
  predicate Done(nodes: Nodes, src: Source, row: FeedRow)
    requires Uniques(nodes)
  {
    Settled(nodes, src, row) &&
    var n := ByRef(nodes, src, row.ref).value;
    Some(nodes[n].name) == row.name && nodes[n].status == Active
  }

  predicate SameKeys(n: Node, m: Node) {
    n.tenant == m.tenant && n.axis == m.axis && n.externalRef == m.externalRef && n.isAxisRoot == m.isAxisRoot
  }

  // Nodes are never removed, and what they are looked up by never changes.
  ghost predicate Stable(nodes: Nodes, nodes': Nodes) {
    forall id :: id in nodes ==> id in nodes' && SameKeys(nodes[id], nodes'[id])
  }

  lemma LookupsStay(nodes: Nodes, nodes': Nodes, src: Source, ref: Option<string>)
    requires Uniques(nodes) && Uniques(nodes') && Stable(nodes, nodes')
    ensures ByRef(nodes, src, ref).Some? ==> ByRef(nodes', src, ref) == ByRef(nodes, src, ref)
    ensures RootOf(nodes, src).Some? ==> RootOf(nodes', src) == RootOf(nodes, src)
  {
  }

  ghost predicate OnlyWrites(nodes: Nodes, nodes': Nodes, own: Option<Id>) {
    Stable(nodes, nodes') && forall x :: x in nodes && own != Some(x) ==> nodes'[x] == nodes[x]
  }

  lemma MoveTouchesItsNode(s: Scope, n: Id, parent: Option<Id>)
    requires Sound(s) && n in s.nodes && MoveNode(s, n, parent).Ok?
    ensures OnlyWrites(s.nodes, MoveNode(s, n, parent).value.nodes, Some(n))
    ensures MoveNode(s, n, parent).value.nodes.Keys == s.nodes.Keys
  {
    MoveKeepsSound(s, n, parent);
  }

  lemma AddTouchesNone(s: Scope, id: Id, row: Node)
    requires Sound(s) && row.parent != Some(id)
    ensures AddNode(s, id, row).Ok? ==> OnlyWrites(s.nodes, AddNode(s, id, row).value.nodes, None)
  {
  }

  // One row writes at most its own node, and only its own node.
  lemma RowTouchesItsNode(s: Scope, src: Source, root: Option<Id>, row: FeedRow, id: Id, pending: set<string>)
    requires Sound(s)
    ensures OnlyWrites(s.nodes, SyncRow(s, src, root, row, id, false, pending).0.nodes, ByRef(s.nodes, src, row.ref))
  {
    hide Exact, Shallow, OneTop, DepthOf, HeightOf, Severed, Grafted, LeafRows;
    var parent := ParentFor(s.nodes, src, root, row, false, pending);
    if parent.Ok? {
      match ByRef(s.nodes, src, row.ref)
      case None =>
        var leaf := NewRow(s.nodes, src, parent.value, row);
        if parent.value != Some(id) && AddNode(s, id, leaf).Ok? { AddTouchesNone(s, id, leaf); }
      case Some(n) =>
        if MoveNode(s, n, parent.value).Ok? { MoveTouchesItsNode(s, n, parent.value); }
        if row.name.Some? { assert OnlyWrites(s.nodes, Relabel(s, n, row.name.value, Active).nodes, Some(n)); }
    }
  }

  lemma ParentlessIsRoot(s: Scope, src: Source, n: Id)
    requires Sound(s) && n in s.nodes && s.nodes[n].tenant == src.tenant && s.nodes[n].axis == src.axis
    requires s.nodes[n].parent == None
    ensures RootOf(s.nodes, src) == Some(n)
  {
    assert RowOk(s.levels, s.nodes, n);
  }

  // A parent once found for a row is found again, as long as it is a node.
  lemma ParentStays(nodes: Nodes, nodes': Nodes, src: Source, row: FeedRow, pending: set<string>)
    requires Uniques(nodes) && Uniques(nodes') && Stable(nodes, nodes')
    requires ParentFor(nodes, src, RootOf(nodes, src), row, false, pending).Ok?
    requires ParentFor(nodes, src, RootOf(nodes, src), row, false, pending).value.Some?
    ensures ParentFor(nodes', src, RootOf(nodes', src), row, false, {}) == ParentFor(nodes, src, RootOf(nodes, src), row, false, pending)
  {
    LookupsStay(nodes, nodes', src, row.parentRef);
  }

  lemma AddedSettles(s: Scope, src: Source, row: FeedRow, id: Id, pending: set<string>, parent: Option<Id>)
    requires Sound(s) && row.ref.Some? && ByRef(s.nodes, src, row.ref) == None && parent != Some(id)
    requires ParentFor(s.nodes, src, RootOf(s.nodes, src), row, false, pending) == Ok(parent)
    requires AddNode(s, id, NewRow(s.nodes, src, parent, row)).Ok?
    ensures Sound(AddNode(s, id, NewRow(s.nodes, src, parent, row)).value)
    ensures Settled(AddNode(s, id, NewRow(s.nodes, src, parent, row)).value.nodes, src, row)
  {
    var leaf := NewRow(s.nodes, src, parent, row);
    var s' := AddNode(s, id, leaf).value;
    AddKeepsSound(s, id, leaf);
    AddTouchesNone(s, id, leaf);
    assert RowOk(s'.levels, s'.nodes, id);
    assert parent.Some?;
    ParentStays(s.nodes, s'.nodes, src, row, pending);
    assert HasRef(s'.nodes[id], src, row.ref.value);
  }

  lemma MovedSettles(s: Scope, src: Source, row: FeedRow, n: Id, pending: set<string>, parent: Option<Id>)
    requires Sound(s) && row.ref.Some? && ByRef(s.nodes, src, row.ref) == Some(n)
    requires ParentFor(s.nodes, src, RootOf(s.nodes, src), row, false, pending) == Ok(parent)
    requires MoveNode(s, n, parent).Ok?
    ensures Sound(MoveNode(s, n, parent).value)
    ensures Settled(MoveNode(s, n, parent).value.nodes, src, row)
  {
    var s' := MoveNode(s, n, parent).value;
    MoveKeepsSound(s, n, parent);
    MoveTouchesItsNode(s, n, parent);
    LookupsStay(s.nodes, s'.nodes, src, row.ref);
    assert s'.nodes[n].parent == parent;
    HereSettles(s, s', src, row, n, pending, parent);
  }

  // The node hangs where the row asks; if that is nowhere, the structure had no root to ask for.
  lemma HereSettles(s: Scope, s': Scope, src: Source, row: FeedRow, n: Id, pending: set<string>, parent: Option<Id>)
    requires Sound(s) && Sound(s') && row.ref.Some? && ByRef(s.nodes, src, row.ref) == Some(n)
    requires Stable(s.nodes, s'.nodes) && s'.nodes.Keys == s.nodes.Keys && s'.nodes[n].parent == parent
    requires ParentFor(s.nodes, src, RootOf(s.nodes, src), row, false, pending) == Ok(parent)
    ensures Settled(s'.nodes, src, row)
  {
    LookupsStay(s.nodes, s'.nodes, src, row.ref);
    if parent.Some? {
      ParentStays(s.nodes, s'.nodes, src, row, pending);
    } else {
      ParentlessIsRoot(s', src, n);
      assert IsRootOf(s.nodes[n], src.tenant, src.axis);
    }
  }

  // A row that did not raise leaves its node where it asked.
  lemma RowSettles(s: Scope, src: Source, row: FeedRow, id: Id, pending: set<string>)
    requires Sound(s) && row.ref.Some?
    requires !SyncRow(s, src, RootOf(s.nodes, src), row, id, false, pending).1.Failed?
    ensures Uniques(SyncRow(s, src, RootOf(s.nodes, src), row, id, false, pending).0.nodes)
    ensures Settled(SyncRow(s, src, RootOf(s.nodes, src), row, id, false, pending).0.nodes, src, row)
  {
    var parent := ParentFor(s.nodes, src, RootOf(s.nodes, src), row, false, pending).value;
    match ByRef(s.nodes, src, row.ref)
    case None => AddedSettles(s, src, row, id, pending, parent);
    case Some(n) =>
      if s.nodes[n].parent != parent {
        MovedSettles(s, src, row, n, pending, parent);
      } else {
        if row.name.Some? {
          RelabelKeepsSound(s, n, row.name.value, Active);
          HereSettles(s, Relabel(s, n, row.name.value, Active), src, row, n, pending, parent);
        }
        HereSettles(s, s, src, row, n, pending, parent);
      }
  }

  // A row that was added, renamed or found as it is leaves its node done.
  lemma RowIsDone(s: Scope, src: Source, row: FeedRow, id: Id, pending: set<string>)
    requires Sound(s) && row.ref.Some?
    requires SyncRow(s, src, RootOf(s.nodes, src), row, id, false, pending).1 in {Added, Renamed, Unchanged}
    ensures Uniques(SyncRow(s, src, RootOf(s.nodes, src), row, id, false, pending).0.nodes)
    ensures Done(SyncRow(s, src, RootOf(s.nodes, src), row, id, false, pending).0.nodes, src, row)
  {
    var (s', o) := SyncRow(s, src, RootOf(s.nodes, src), row, id, false, pending);
    RowSettles(s, src, row, id, pending);
    OutcomesMean(s, src, RootOf(s.nodes, src), row, id, pending);
    if o == Added {
      AddedMeans(s, src, RootOf(s.nodes, src), row, id, pending);
      assert HasRef(s'.nodes[id], src, row.ref.value);
    } else {
      assert HasRef(s'.nodes[ByRef(s.nodes, src, row.ref).value], src, row.ref.value);
    }
  }

  // On a settled row the run can only relabel, and afterwards the row is done; a row without a name
  // raises instead.
  lemma SettledRow(s: Scope, src: Source, row: FeedRow, id: Id, pending: set<string>)
    requires Sound(s) && row.ref.Some? && Settled(s.nodes, src, row)
    ensures var (s', o) := SyncRow(s, src, RootOf(s.nodes, src), row, id, false, pending);
            && Uniques(s'.nodes) && Settled(s'.nodes, src, row)
            && (if row.name.Some? then o in {Renamed, Unchanged} && Done(s'.nodes, src, row) else o.Failed? && s' == s)
            && (Done(s.nodes, src, row) ==> o == Unchanged && s' == s)
  {
    var root := RootOf(s.nodes, src);
    var (s', o) := SyncRow(s, src, root, row, id, false, pending);
    SyncRowKeepsSound(s, src, root, row, id, false, pending);
    RowTouchesItsNode(s, src, root, row, id, pending);
    LookupsStay(s.nodes, s'.nodes, src, row.ref);
    LookupsStay(s.nodes, s'.nodes, src, row.parentRef);
    if root.None? { RootlessStays(s, s', src); }
  }

  // A structure with no root has no nodes to settle, and relabelling gives it none.
  lemma RootlessStays(s: Scope, s': Scope, src: Source)
    requires Sound(s) && Sound(s') && RootOf(s.nodes, src).None?
    requires s'.nodes.Keys == s.nodes.Keys && Stable(s.nodes, s'.nodes)
    ensures RootOf(s'.nodes, src).None?
  {
    if RootOf(s'.nodes, src).Some? {
      var r := RootOf(s'.nodes, src).value;
      assert IsRootOf(s.nodes[r], src.tenant, src.axis);
    }
  }

  lemma SettledHasParent(s: Scope, src: Source, row: FeedRow)
    requires Sound(s) && Settled(s.nodes, src, row)
    ensures s.nodes[ByRef(s.nodes, src, row.ref).value].parent.Some?
  {
    var n := ByRef(s.nodes, src, row.ref).value;
    if s.nodes[n].parent.None? { ParentlessIsRoot(s, src, n); }
  }

  // Rows about other nodes disturb neither a settled row nor a done one.
  lemma OthersStay(s: Scope, s': Scope, src: Source, other: FeedRow, own: Option<Id>)
    requires Sound(s) && Sound(s') && OnlyWrites(s.nodes, s'.nodes, own)
    requires Settled(s.nodes, src, other) && ByRef(s.nodes, src, other.ref) != own
    ensures Settled(s'.nodes, src, other)
    ensures Done(s.nodes, src, other) ==> Done(s'.nodes, src, other)
  {
    SettledHasParent(s, src, other);
    LookupsStay(s.nodes, s'.nodes, src, other.ref);
    ParentStays(s.nodes, s'.nodes, src, other, {});
  }

  // Nothing a run adds is an axis root, so the root it looked up first is the root throughout.
  lemma {:induction false} RunKeepsRoot(s: Scope, src: Source, rows: seq<FeedRow>, ids: seq<Id>)
    requires Sound(s) && |ids| >= |rows|
    ensures RootOf(SyncRows(s, src, rows, ids, false).0.nodes, src) == RootOf(s.nodes, src)
    decreases |rows|
  {
    if rows != [] {
      var n := |rows| - 1;
      RunKeepsRoot(s, src, rows[..n], ids);
      var (t, outcomes) := SyncRows(s, src, rows[..n], ids, false);
      RowKeepsRoot(t, src, RootOf(s.nodes, src), rows[n], ids[n], Pending(rows[..n], outcomes));
    }
  }

  lemma RowKeepsRoot(s: Scope, src: Source, root: Option<Id>, row: FeedRow, id: Id, pending: set<string>)
    requires Sound(s)
    ensures Uniques(SyncRow(s, src, root, row, id, false, pending).0.nodes)
    ensures RootOf(SyncRow(s, src, root, row, id, false, pending).0.nodes, src) == RootOf(s.nodes, src)
  {
    var s' := SyncRow(s, src, root, row, id, false, pending).0;
    SyncRowKeepsSound(s, src, root, row, id, false, pending);
    RowTouchesItsNode(s, src, root, row, id, pending);
    if RootOf(s'.nodes, src).Some? {
      var r := RootOf(s'.nodes, src).value;
      NewRowsAreNoRoots(s, src, root, row, id, pending, r);
      assert IsRootOf(s.nodes[r], src.tenant, src.axis);
    }
  }

  lemma NewRowsAreNoRoots(s: Scope, src: Source, root: Option<Id>, row: FeedRow, id: Id, pending: set<string>, x: Id)
    requires Sound(s)
    ensures var s' := SyncRow(s, src, root, row, id, false, pending).0;
            x in s'.nodes && s'.nodes[x].isAxisRoot ==> x in s.nodes
  {
    var parent := ParentFor(s.nodes, src, root, row, false, pending);
    if parent.Ok? && ByRef(s.nodes, src, row.ref).Some? {
      var n := ByRef(s.nodes, src, row.ref).value;
      if MoveNode(s, n, parent.value).Ok? { MoveTouchesItsNode(s, n, parent.value); }
    }
  }

  // ---------------------------------------------------------------- the first run settles

  lemma {:induction false} FirstRunSettles(s: Scope, src: Source, rows: seq<FeedRow>, ids: seq<Id>, i: nat)
    requires Sound(s) && |ids| >= |rows| && DistinctRefs(rows) && i < |rows|
    requires forall o :: o in SyncRows(s, src, rows, ids, false).1 ==> !o.Failed?
    ensures Settled(SyncRows(s, src, rows, ids, false).0.nodes, src, rows[i])
    ensures SyncRows(s, src, rows, ids, false).1[i] != Moved ==> Done(SyncRows(s, src, rows, ids, false).0.nodes, src, rows[i])
    decreases |rows|
  {
    var n := |rows| - 1;
    var (t, outcomes) := SyncRows(s, src, rows[..n], ids, false);
    var (t', all) := SyncRows(s, src, rows, ids, false);
    assert forall o :: o in outcomes ==> o in all;
    RunKeepsRoot(s, src, rows[..n], ids);
    assert all[n] in all;
    if i == n {
      RowSettles(t, src, rows[n], ids[n], Pending(rows[..n], outcomes));
      if all[n] != Moved { RowIsDone(t, src, rows[n], ids[n], Pending(rows[..n], outcomes)); }
    } else {
      FirstRunSettles(s, src, rows[..n], ids, i);
      RowTouchesItsNode(t, src, RootOf(s.nodes, src), rows[n], ids[n], Pending(rows[..n], outcomes));
      OtherNode(t.nodes, src, rows[i], rows[n]);
      OthersStay(t, t', src, rows[i], ByRef(t.nodes, src, rows[n].ref));
    }
  }

  lemma OtherNode(nodes: Nodes, src: Source, row: FeedRow, other: FeedRow)
    requires Uniques(nodes) && row.ref.Some? && other.ref.Some? && row.ref != other.ref && ByRef(nodes, src, row.ref).Some?
    ensures ByRef(nodes, src, row.ref) != ByRef(nodes, src, other.ref)
  {
  }

  // ---------------------------------------------------------------- a run over settled rows

  ghost predicate AllSettled(nodes: Nodes, src: Source, rows: seq<FeedRow>)
    requires Uniques(nodes)
  {
    forall i {:trigger Settled(nodes, src, rows[i])} :: 0 <= i < |rows| ==> Settled(nodes, src, rows[i])
  }

  ghost predicate AllDone(nodes: Nodes, src: Source, rows: seq<FeedRow>)
    requires Uniques(nodes)
  {
    forall i {:trigger Done(nodes, src, rows[i])} :: 0 <= i < |rows| ==> Done(nodes, src, rows[i])
  }

  // Row m of such a run, seen from row i.
  lemma SettledStep(t: Scope, src: Source, rows: seq<FeedRow>, m: nat, i: nat, id: Id, pending: set<string>)
    requires Sound(t) && DistinctRefs(rows) && m < |rows| && i < |rows|
    requires Settled(t.nodes, src, rows[m]) && Settled(t.nodes, src, rows[i])
    ensures var t' := SyncRow(t, src, RootOf(t.nodes, src), rows[m], id, false, pending).0;
            && Uniques(t'.nodes) && Settled(t'.nodes, src, rows[i])
            && ((i == m && rows[m].name.Some?) || Done(t.nodes, src, rows[i]) ==> Done(t'.nodes, src, rows[i]))
  {
    SettledRow(t, src, rows[m], id, pending);
    if i != m {
      var t' := SyncRow(t, src, RootOf(t.nodes, src), rows[m], id, false, pending).0;
      SyncRowKeepsSound(t, src, RootOf(t.nodes, src), rows[m], id, false, pending);
      RowTouchesItsNode(t, src, RootOf(t.nodes, src), rows[m], id, pending);
      OtherNode(t.nodes, src, rows[i], rows[m]);
      OthersStay(t, t', src, rows[i], ByRef(t.nodes, src, rows[m].ref));
    }
  }

  // A run over some first rows of a feed whose rows are all settled: every row of the feed is still
  // settled, and the named ones the run has seen are done.
  lemma {:induction false} SettledRun(s: Scope, src: Source, feed: seq<FeedRow>, rows: seq<FeedRow>, ids: seq<Id>, i: nat)
    requires Sound(s) && |ids| >= |rows| && DistinctRefs(feed) && AllSettled(s.nodes, src, feed) && rows <= feed && i < |feed|
    ensures Settled(SyncRows(s, src, rows, ids, false).0.nodes, src, feed[i])
    ensures (i < |rows| && feed[i].name.Some?) || Done(s.nodes, src, feed[i]) ==> Done(SyncRows(s, src, rows, ids, false).0.nodes, src, feed[i])
    decreases |rows|
  {
    assert Settled(s.nodes, src, feed[i]);
    if rows != [] {
      var m := |rows| - 1;
      SettledRun(s, src, feed, rows[..m], ids, i);
      SettledRun(s, src, feed, rows[..m], ids, m);
      var (t, outcomes) := SyncRows(s, src, rows[..m], ids, false);
      RunKeepsRoot(s, src, rows[..m], ids);
      SettledStep(t, src, feed, m, i, ids[m], Pending(rows[..m], outcomes));
    }
  }

  predicate SettledOutcome(nodes: Nodes, src: Source, row: FeedRow, o: Outcome)
    requires Uniques(nodes)
  {
    && (if row.name.Some? then o in {Renamed, Unchanged} else o.Failed?)
    && (Done(nodes, src, row) ==> o == Unchanged)
  }

  lemma {:induction false} SettledOutcomes(s: Scope, src: Source, feed: seq<FeedRow>, rows: seq<FeedRow>, ids: seq<Id>)
    requires Sound(s) && |ids| >= |rows| && DistinctRefs(feed) && AllSettled(s.nodes, src, feed) && rows <= feed
    ensures forall i {:trigger SettledOutcome(s.nodes, src, rows[i], SyncRows(s, src, rows, ids, false).1[i])} :: 0 <= i < |rows| ==>
              SettledOutcome(s.nodes, src, rows[i], SyncRows(s, src, rows, ids, false).1[i])
    decreases |rows|
  {
    if rows != [] {
      hide SettledOutcome;
      var m := |rows| - 1;
      SettledOutcomes(s, src, feed, rows[..m], ids);
      LastOutcome(s, src, feed, rows, ids);
      var outcomes, all := SyncRows(s, src, rows[..m], ids, false).1, SyncRows(s, src, rows, ids, false).1;
      forall i | 0 <= i < |rows| ensures SettledOutcome(s.nodes, src, rows[i], all[i]) {
        if i < m { assert SettledOutcome(s.nodes, src, rows[..m][i], outcomes[i]) && all[i] == outcomes[i]; }
      }
    }
  }

  lemma LastOutcome(s: Scope, src: Source, feed: seq<FeedRow>, rows: seq<FeedRow>, ids: seq<Id>)
    requires Sound(s) && |ids| >= |rows| > 0 && DistinctRefs(feed) && AllSettled(s.nodes, src, feed) && rows <= feed
    ensures var m := |rows| - 1; SettledOutcome(s.nodes, src, rows[m], SyncRows(s, src, rows, ids, false).1[m])
  {
    var m := |rows| - 1;
    SettledRun(s, src, feed, rows[..m], ids, m);
    var (t, outcomes) := SyncRows(s, src, rows[..m], ids, false);
    RunKeepsRoot(s, src, rows[..m], ids);
    SettledRow(t, src, rows[m], ids[m], Pending(rows[..m], outcomes));
  }

  // Over rows that are all done a run does nothing.
  lemma {:induction false} DoneRun(s: Scope, src: Source, feed: seq<FeedRow>, rows: seq<FeedRow>, ids: seq<Id>)
    requires Sound(s) && |ids| >= |rows| && DistinctRefs(feed) && AllDone(s.nodes, src, feed) && rows <= feed
    ensures SyncRows(s, src, rows, ids, false).0 == s
    ensures forall o :: o in SyncRows(s, src, rows, ids, false).1 ==> o == Unchanged
    decreases |rows|
  {
    if rows != [] {
      var m := |rows| - 1;
      DoneRun(s, src, feed, rows[..m], ids);
      var outcomes := SyncRows(s, src, rows[..m], ids, false).1;
      assert Done(s.nodes, src, feed[m]);
      SettledRow(s, src, rows[m], ids[m], Pending(rows[..m], outcomes));
    }
  }

  // ---------------------------------------------------------------- the sweep

  lemma SweepStays(s: Scope, src: Source, rows: seq<FeedRow>)
    requires Sound(s) && DistinctRefs(rows) && AllSettled(s.nodes, src, rows)
    ensures Uniques(Swept(s, src, rows).nodes) && AllSettled(Swept(s, src, rows).nodes, src, rows)
    ensures forall i :: 0 <= i < |rows| && Done(s.nodes, src, rows[i]) ==> Done(Swept(s, src, rows).nodes, src, rows[i])
    ensures AllDone(s.nodes, src, rows) ==> AllDone(Swept(s, src, rows).nodes, src, rows)
  {
    var s' := Swept(s, src, rows);
    SweptKeepsSound(s, src, rows);
    forall i | 0 <= i < |rows|
      ensures Settled(s'.nodes, src, rows[i]) && (Done(s.nodes, src, rows[i]) ==> Done(s'.nodes, src, rows[i]))
    {
      assert Settled(s.nodes, src, rows[i]);
      var n := ByRef(s.nodes, src, rows[i].ref).value;
      assert InFeed(rows, s.nodes[n].externalRef);
      SettledHasParent(s, src, rows[i]);
      LookupsStay(s.nodes, s'.nodes, src, rows[i].ref);
      ParentStays(s.nodes, s'.nodes, src, rows[i], {});
    }
  }

  // After a sweep nothing is left to sweep, and a run over settled rows leaves nothing new.
  lemma NothingGone(s: Scope, src: Source, rows: seq<FeedRow>)
    ensures GoneFrom(Swept(s, src, rows).nodes, src, rows) == {}
  {
  }

  lemma SettledRowLeavesNothingGone(t: Scope, src: Source, rows: seq<FeedRow>, m: nat, id: Id, pending: set<string>)
    requires Sound(t) && DistinctRefs(rows) && m < |rows| && Settled(t.nodes, src, rows[m])
    requires GoneFrom(t.nodes, src, rows) == {}
    ensures GoneFrom(SyncRow(t, src, RootOf(t.nodes, src), rows[m], id, false, pending).0.nodes, src, rows) == {}
  {
    var t' := SyncRow(t, src, RootOf(t.nodes, src), rows[m], id, false, pending).0;
    var own := ByRef(t.nodes, src, rows[m].ref).value;
    assert InFeed(rows, t.nodes[own].externalRef);
    SettledRow(t, src, rows[m], id, pending);
    RowTouchesItsNode(t, src, RootOf(t.nodes, src), rows[m], id, pending);
    assert t'.nodes.Keys == t.nodes.Keys;
    forall x | x in t'.nodes ensures !Gone(t'.nodes[x], src, rows) {
      if x != own { assert x !in GoneFrom(t.nodes, src, rows); }
    }
  }

  lemma {:induction false} SettledRunLeavesNothingGone(s: Scope, src: Source, feed: seq<FeedRow>, rows: seq<FeedRow>, ids: seq<Id>)
    requires Sound(s) && |ids| >= |rows| && DistinctRefs(feed) && AllSettled(s.nodes, src, feed) && rows <= feed
    requires GoneFrom(s.nodes, src, feed) == {}
    ensures GoneFrom(SyncRows(s, src, rows, ids, false).0.nodes, src, feed) == {}
    decreases |rows|
  {
    if rows != [] {
      var m := |rows| - 1;
      SettledRunLeavesNothingGone(s, src, feed, rows[..m], ids);
      SettledRun(s, src, feed, rows[..m], ids, m);
      var (t, outcomes) := SyncRows(s, src, rows[..m], ids, false);
      RunKeepsRoot(s, src, rows[..m], ids);
      SettledRowLeavesNothingGone(t, src, feed, m, ids[m], Pending(rows[..m], outcomes));
    }
  }

  // ---------------------------------------------------------------- convergence

  predicate Named(rows: seq<FeedRow>) {
    forall i :: 0 <= i < |rows| ==> rows[i].name.Some?
  }

  // For a feed that names each node once: after one run in which no row raised, the next run adds
  // nothing, moves nothing and archives nothing, and raises nothing exactly when every row has a
  // name, and reports unchanged every row the first did not move; the run after that then reports
  // every row unchanged and leaves every table exactly as it found it.
  lemma Converges(s: Scope, src: Source, rows: seq<FeedRow>, ids1: seq<Id>, ids2: seq<Id>, ids3: seq<Id>)
    requires Sound(s) && DistinctRefs(rows) && |ids1| >= |rows| && |ids2| >= |rows| && |ids3| >= |rows|
    requires ErrorFree(Sync(s, src, rows, ids1, false))
    ensures var first := Sync(s, src, rows, ids1, false);
            Sound(first.state) &&
            var second := Sync(first.state, src, rows, ids2, false);
            && (forall o :: o in second.outcomes ==> o in {Renamed, Unchanged} || o.Failed?) && second.archived == 0
            && (ErrorFree(second) <==> Named(rows))
            && (forall i :: 0 <= i < |rows| && first.outcomes[i] != Moved ==> second.outcomes[i] == Unchanged)
            && Sound(second.state) &&
            var third := Sync(second.state, src, rows, ids3, false);
            Named(rows) ==> (forall o :: o in third.outcomes ==> o == Unchanged) && third.archived == 0 && third.state == second.state
  {
    FirstRun(s, src, rows, ids1);
    var one := Sync(s, src, rows, ids1, false).state;
    SecondRun(one, src, rows, ids2);
    var two := Sync(one, src, rows, ids2, false).state;
    if Named(rows) {
      DoneRun(two, src, rows, rows, ids3);
      SweptNothing(two, src, rows);
    }
  }

  lemma FirstRun(s: Scope, src: Source, rows: seq<FeedRow>, ids: seq<Id>)
    requires Sound(s) && DistinctRefs(rows) && |ids| >= |rows| && ErrorFree(Sync(s, src, rows, ids, false))
    ensures var s' := Sync(s, src, rows, ids, false).state;
            && Sound(s') && AllSettled(s'.nodes, src, rows) && GoneFrom(s'.nodes, src, rows) == {}
            && forall i :: 0 <= i < |rows| && Sync(s, src, rows, ids, false).outcomes[i] != Moved ==> Done(s'.nodes, src, rows[i])
  {
    hide Settled, Gone, Done;
    var (t, outcomes) := SyncRows(s, src, rows, ids, false);
    forall i | 0 <= i < |rows| ensures Settled(t.nodes, src, rows[i]) && (outcomes[i] != Moved ==> Done(t.nodes, src, rows[i])) {
      FirstRunSettles(s, src, rows, ids, i);
    }
    SyncKeepsSound(s, src, rows, ids, false);
    SweepStays(t, src, rows);
    NothingGone(t, src, rows);
  }

  // A run over a feed that is settled and swept.
  lemma SecondRun(s: Scope, src: Source, rows: seq<FeedRow>, ids: seq<Id>)
    requires Sound(s) && DistinctRefs(rows) && |ids| >= |rows|
    requires AllSettled(s.nodes, src, rows) && GoneFrom(s.nodes, src, rows) == {}
    ensures var run := Sync(s, src, rows, ids, false);
            && (forall o :: o in run.outcomes ==> o in {Renamed, Unchanged} || o.Failed?) && run.archived == 0
            && (ErrorFree(run) <==> Named(rows))
            && (forall i :: 0 <= i < |rows| && Done(s.nodes, src, rows[i]) ==> run.outcomes[i] == Unchanged)
            && Sound(run.state) && GoneFrom(run.state.nodes, src, rows) == {}
            && (Named(rows) ==> AllDone(run.state.nodes, src, rows))
  {
    hide Settled, Done, Gone, SyncRow;
    var (t, outcomes) := SyncRows(s, src, rows, ids, false);
    forall i | 0 <= i < |rows| ensures Settled(t.nodes, src, rows[i]) && (rows[i].name.Some? ==> Done(t.nodes, src, rows[i])) {
      SettledRun(s, src, rows, rows, ids, i);
    }
    SettledOutcomes(s, src, rows, rows, ids);
    forall i | 0 <= i < |rows|
      ensures (if rows[i].name.Some? then outcomes[i] in {Renamed, Unchanged} else outcomes[i].Failed?) && outcomes[i] in outcomes
      ensures Done(s.nodes, src, rows[i]) ==> outcomes[i] == Unchanged
    {
      assert SettledOutcome(s.nodes, src, rows[i], outcomes[i]);
    }
    SettledRunLeavesNothingGone(s, src, rows, rows, ids);
    SyncKeepsSound(s, src, rows, ids, false);
    SweepStays(t, src, rows);
    NothingGone(t, src, rows);
  }

  // Two units under a top: a tree it happens in.
  const LEVELS: Levels := map[("t", "top") := Level("x", "Top", {}), ("t", "unit") := Level("x", "Unit", {"top", "unit"})]

  function Unit(ref: string, parent: Id): Node {
    Node("t", "x", Some(parent), false, "unit", ref, ref, Some(ref), Active)
  }

  const THREE: Scope := Scope(
    LEVELS,
    map["r" := Node("t", "x", None, true, "top", "_root", "Top", None, Active), "a" := Unit("a", "r"), "b" := Unit("b", "r")],
    map[("r", "r") := 0, ("a", "a") := 0, ("b", "b") := 0, ("r", "a") := 1, ("r", "b") := 1])

  lemma ThreeIsSound()
    ensures Sound(THREE)
  {
    var nodes := THREE.nodes;
    forall a, d, k: nat ensures Row(THREE.closure, a, d, k) <==> IsUp(nodes, a, d, k) {
      ThreeUp(d, k);
    }
    assert RowOk(LEVELS, nodes, "r") && RowOk(LEVELS, nodes, "a") && RowOk(LEVELS, nodes, "b");
  }

  lemma ThreeUp(d: Id, k: nat)
    ensures Up(THREE.nodes, d, k) ==
            if d == "r" && k == 0 then Some("r")
            else if d in {"a", "b"} && k == 0 then Some(d)
            else if d in {"a", "b"} && k == 1 then Some("r")
            else None
  {
    if k > 1 && d in {"a", "b"} {
      assert Up(THREE.nodes, "r", k - 1) == None;
    }
  }

  // A nameless row that moves its node passes, and the same feed raises the next time.
  lemma NamelessPassesOnce(s: Scope, src: Source, row: FeedRow, n: Id, p: Id, id1: Id, id2: Id)
    requires Sound(s) && row.name.None? && row.ref.Some? && ByRef(s.nodes, src, row.ref) == Some(n)
    requires row.parentRef.Some? && ByRef(s.nodes, src, row.parentRef) == Some(p)
    requires s.nodes[n].parent != Some(p) && MoveNode(s, n, Some(p)).Ok?
    ensures var first := Sync(s, src, [row], [id1], false);
            first.outcomes == [Moved] && Sound(first.state) && exists f :: Sync(first.state, src, [row], [id2], false).outcomes == [Failed(f)]
  {
    hide Exact, Shallow, OneTop, ParentsPresent, RowChecks, MoveNode, ByRef, RootOf, Swept, GoneFrom;
    var rows := [row];
    assert rows[..0] == [];
    assert SyncRows(s, src, [], [id1], false) == (s, []);
    var first := Sync(s, src, rows, [id1], false);
    assert SyncRow(s, src, RootOf(s.nodes, src), row, id1, false, Pending([], [])).1 == Moved;
    assert first.outcomes == [Moved];
    NamelessRaises(s, src, rows, id1, id2);
  }

  lemma NamelessRaises(s: Scope, src: Source, rows: seq<FeedRow>, id1: Id, id2: Id)
    requires Sound(s) && |rows| == 1 && rows[0].name.None? && rows[0].ref.Some? && ErrorFree(Sync(s, src, rows, [id1], false))
    ensures var first := Sync(s, src, rows, [id1], false);
            Sound(first.state) && exists f :: Sync(first.state, src, rows, [id2], false).outcomes == [Failed(f)]
  {
    hide SyncRows, Swept, GoneFrom, Settled, AllSettled;
    FirstRun(s, src, rows, [id1]);
    var first := Sync(s, src, rows, [id1], false);
    SecondRun(first.state, src, rows, [id2]);
    var outcomes := Sync(first.state, src, rows, [id2], false).outcomes;
    var o :| o in outcomes && o.Failed?;
    assert outcomes == [Failed(o.fault)];
  }

  lemma NamelessRowPassesOnce(slug: string, tail: string, id1: Id, id2: Id)
    ensures var src, rows := Source("t", "x"), [FeedRow(Some("b"), Some("a"), None, Some("unit"), slug, tail)];
            Sound(THREE) &&
            var first := Sync(THREE, src, rows, [id1], false);
            first.outcomes == [Moved] && Sound(first.state) && exists f :: Sync(first.state, src, rows, [id2], false).outcomes == [Failed(f)]
  {
    ThreeIsSound();
    var src := Source("t", "x");
    MoveIsFine();
    assert HasRef(THREE.nodes["b"], src, "b") && HasRef(THREE.nodes["a"], src, "a");
    hide MoveNode, Sound;
    NamelessPassesOnce(THREE, src, FeedRow(Some("b"), Some("a"), None, Some("unit"), slug, tail), "b", "a", id1, id2);
  }

  lemma MoveIsFine()
    ensures MoveNode(THREE, "b", Some("a")).Ok?
  {
    ThreeIsSound();
    forall k: nat ensures !IsUp(THREE.nodes, "b", "a", k) { ThreeUp("a", k); }
    forall r, d, i: nat, j: nat | IsUp(THREE.nodes, r, "a", i) && IsUp(THREE.nodes, "b", d, j) ensures i + j < 3 {
      ThreeUp("a", i);
      ThreeUp(d, j);
    }
    MovedIsOk();
    hide Sound, MoveNode, NodesOk, IsUp;
    MoveRefusals(THREE, "b", "a");
  }

  lemma MovedIsOk()
    ensures NodesOk(LEVELS, Reparented(THREE.nodes, "b", Some("a")))
  {
    var nodes := Reparented(THREE.nodes, "b", Some("a"));
    assert nodes == THREE.nodes["b" := Unit("b", "a")];
    assert RowOk(LEVELS, nodes, "r") && RowOk(LEVELS, nodes, "a") && RowOk(LEVELS, nodes, "b");
  }

  lemma SweptNothing(s: Scope, src: Source, rows: seq<FeedRow>)
    requires GoneFrom(s.nodes, src, rows) == {}
    ensures Swept(s, src, rows) == s
  {
    forall id | id in s.nodes ensures !Gone(s.nodes[id], src, rows) { assert id !in GoneFrom(s.nodes, src, rows); }
    assert Swept(s, src, rows).nodes == s.nodes;
  }

  // ---------------------------------------------------------------- what a feed cannot touch

  // A node that carries no ref keeps its place, its name and its status through any run.
  lemma {:induction false} UnownedIsUntouched(s: Scope, src: Source, rows: seq<FeedRow>, ids: seq<Id>, x: Id)
    requires Sound(s) && |ids| >= |rows| && x in s.nodes && s.nodes[x].externalRef.None?
    ensures x in SyncRows(s, src, rows, ids, false).0.nodes && SyncRows(s, src, rows, ids, false).0.nodes[x] == s.nodes[x]
    ensures x in Sync(s, src, rows, ids, false).state.nodes && Sync(s, src, rows, ids, false).state.nodes[x] == s.nodes[x]
    decreases |rows|
  {
    if rows != [] {
      var n := |rows| - 1;
      UnownedIsUntouched(s, src, rows[..n], ids, x);
      var (t, outcomes) := SyncRows(s, src, rows[..n], ids, false);
      RowTouchesItsNode(t, src, RootOf(s.nodes, src), rows[n], ids[n], Pending(rows[..n], outcomes));
    }
  }
}
