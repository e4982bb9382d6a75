// The scope tables as a store the routines write to, statement by statement. Each routine leaves
// what its function in ScopeTree or ScopeSync says, and a sound tree.
module ScopeStore {
  import opened Prelude
  import opened ScopeTree
  import opened ScopeClosure
  import opened ScopeSync

  datatype Report = Report(
    added: nat, renamed: nat, moved: nat, archived: nat, same: nat,
    errors: seq<(Option<string>, Fault)>)

  // What one row's outcome adds to the report.
  function Noted(report: Report, row: FeedRow, o: Outcome): Report {
    match o
    case Added => report.(added := report.added + 1)
    case Renamed => report.(renamed := report.renamed + 1)
    case Moved => report.(moved := report.moved + 1)
    case Unchanged => report.(same := report.same + 1)
    case Failed(f) => report.(errors := report.errors + [(row.ref, f)])
  }

  function RowsReport(rows: seq<FeedRow>, outcomes: seq<Outcome>): Report
    requires |rows| == |outcomes|
  {
    if rows == [] then Report(0, 0, 0, 0, 0, [])
    else
      var n := |rows| - 1;
      Noted(RowsReport(rows[..n], outcomes[..n]), rows[n], outcomes[n])
  }

  function ReportOf(rows: seq<FeedRow>, run: Run): Report
    requires |rows| == |run.outcomes|
  {
    RowsReport(rows, run.outcomes).(archived := run.archived)
  }

  // Every row of the feed lands in exactly one counter or in the list of errors.
  lemma {:induction false} EveryRowIsCounted(rows: seq<FeedRow>, outcomes: seq<Outcome>)
    requires |rows| == |outcomes|
    ensures var r := RowsReport(rows, outcomes); r.added + r.renamed + r.moved + r.same + |r.errors| == |rows|
    ensures RowsReport(rows, outcomes).errors == [] <==> forall o :: o in outcomes ==> !o.Failed?
    decreases |rows|
  {
    if rows != [] {
      var n := |rows| - 1;
      EveryRowIsCounted(rows[..n], outcomes[..n]);
      assert outcomes == outcomes[..n] + [outcomes[n]];
      assert (forall o :: o in outcomes ==> !o.Failed?) <==> (forall o :: o in outcomes[..n] ==> !o.Failed?) && !outcomes[n].Failed?;
    }
  }

  function Faulty(rows: seq<FeedRow>, outcomes: seq<Outcome>): seq<(Option<string>, Fault)>
    requires |rows| == |outcomes|
  {
    if rows == [] then []
    else (if outcomes[0].Failed? then [(rows[0].ref, outcomes[0].fault)] else []) + Faulty(rows[1..], outcomes[1..])
  }

  // Each counter is how often its outcome came out, and the errors are those of the rows that
  // failed, in the feed's order.
  lemma {:induction false} CountersMean(rows: seq<FeedRow>, outcomes: seq<Outcome>)
    requires |rows| == |outcomes|
    ensures var r := RowsReport(rows, outcomes);
            && r.added == multiset(outcomes)[Added] && r.moved == multiset(outcomes)[Moved]
            && r.renamed == multiset(outcomes)[Renamed] && r.same == multiset(outcomes)[Unchanged]
            && r.errors == Faulty(rows, outcomes)
    decreases |rows|
  {
    if rows != [] {
      var n := |rows| - 1;
      CountersMean(rows[..n], outcomes[..n]);
      FaultyGrows(rows, outcomes);
      assert outcomes == outcomes[..n] + [outcomes[n]];
    }
  }

  lemma {:induction false} FaultyGrows(rows: seq<FeedRow>, outcomes: seq<Outcome>)
    requires |rows| == |outcomes| && rows != []
    ensures var n := |rows| - 1;
            Faulty(rows, outcomes) == Faulty(rows[..n], outcomes[..n]) + (if outcomes[n].Failed? then [(rows[n].ref, outcomes[n].fault)] else [])
    decreases |rows|
  {
    var n := |rows| - 1;
    if n > 0 {
      FaultyGrows(rows[1..], outcomes[1..]);
      assert rows[..n][1..] == rows[1..][..n - 1] && outcomes[..n][1..] == outcomes[1..][..n - 1];
    }
  }

  class Store {
    var levels: Levels
    var nodes: Nodes
    var closure: Closure

    ghost function Contents(): Scope
      reads this
    {
      Scope(levels, nodes, closure)
    }

    constructor (levels: Levels)
      requires OneTop(levels)
      ensures Contents() == Scope(levels, map[], map[]) && Sound(Contents())
    {
      this.levels, nodes, closure := levels, map[], map[];
    }

    method AddNode(id: Id, row: Node) returns (r: Result<Id, Fault>)
      requires Sound(Contents()) && row.parent != Some(id)
      modifies this`nodes, this`closure
      ensures Sound(Contents())
      ensures match ScopeTree.AddNode(old(Contents()), id, row)
              case Ok(s) => r == Ok(id) && Contents() == s
              case Err(f) => r == Err(f) && Contents() == old(Contents())
    {
      var parentDepth := DepthOf(closure, row.parent);
      if parentDepth.Some? && parentDepth.value + 1 > MAX_DEPTH {
        return Err(TooDeep);
      }
      if id in nodes || !NodesOk(levels, nodes[id := row]) {
        return Err(ConstraintViolation);
      }
      AddKeepsSound(Contents(), id, row);
      nodes, closure := nodes[id := row], closure + LeafRows(closure, row.parent, id);
      return Ok(id);
    }

    method EnsureRoot(tenant: Id, axis: string, id: Id) returns (r: Result<Id, Fault>)
      requires Sound(Contents())
      modifies this`nodes, this`closure
      ensures Sound(Contents())
      ensures match ScopeTree.EnsureRoot(old(Contents()), tenant, axis, id)
              case Ok(p) => r == Ok(p.1) && Contents() == p.0
              case Err(f) => r == Err(f) && Contents() == old(Contents())
      ensures r.Ok? ==> r.value in nodes && IsRootOf(nodes[r.value], tenant, axis)
    {
      ghost var before := Contents();
      if exists x :: x in nodes && IsRootOf(nodes[x], tenant, axis) {
        RootIsOne(nodes, tenant, axis);
        var x :| x in nodes && IsRootOf(nodes[x], tenant, axis);
        RootKeepsSound(before, tenant, axis, id);
        return Ok(x);
      }
      if !(exists t :: t in levels && IsTop(levels, t, tenant, axis)) {
        return Err(NoRootLevel);
      }
      var t :| t in levels && IsTop(levels, t, tenant, axis);
      var row := Node(tenant, axis, None, true, t.1, "_root", levels[t].displayName, None, Active);
      if id in nodes || !NodesOk(levels, nodes[id := row]) {
        return Err(ConstraintViolation);
      }
      nodes := nodes[id := row];
      closure := closure[(id, id) := 0];
      RootKeepsSound(before, tenant, axis, id);
      return Ok(id);
    }

    method MoveNode(node: Id, parent: Option<Id>) returns (r: Result<(), Fault>)
      requires Sound(Contents())
      modifies this`nodes, this`closure
      ensures Sound(Contents())
      ensures match ScopeTree.MoveNode(old(Contents()), node, parent)
              case Ok(s) => r == Ok(()) && Contents() == s
              case Err(f) => r == Err(f) && Contents() == old(Contents())
    {
      if parent.Some? && (node, parent.value) in closure {
        return Err(Cycle);
      }
      var parentDepth, subtreeDepth := DepthOf(closure, parent), HeightOf(closure, node);
      if Coalesce(parentDepth, 0) + Coalesce(subtreeDepth, 0) + 1 > MAX_DEPTH {
        return Err(TooDeep);
      }
      ghost var before := Contents();
      var saved := closure;
      closure := Severed(closure, node);
      var graft := Grafted(closure, node, parent);
      if !(closure.Keys !! graft.Keys) || !NodesOk(levels, Reparented(nodes, node, parent)) {
        closure := saved;
        return Err(ConstraintViolation);
      }
      closure := closure + graft;
      nodes := Reparented(nodes, node, parent);
      MoveKeepsSound(before, node, parent);
      return Ok(());
    }

    method Relabel(id: Id, name: string, status: Status)
      requires Sound(Contents()) && id in nodes
      modifies this`nodes
      ensures Sound(Contents()) && Contents() == ScopeTree.Relabel(old(Contents()), id, name, status)
    {
      RelabelKeepsSound(Contents(), id, name, status);
      nodes := nodes[id := nodes[id].(name := name, status := status)];
    }

    // One feed row, inside its own block: what it raises is caught and leaves no trace.
    method SyncRow(src: Source, root: Option<Id>, row: FeedRow, id: Id, dry: bool, pending: set<string>) returns (o: Outcome)
      requires Sound(Contents())
      modifies this`nodes, this`closure
      ensures Sound(Contents())
      ensures (Contents(), o) == ScopeSync.SyncRow(old(Contents()), src, root, row, id, dry, pending)
    {
      var found := ParentFor(nodes, src, root, row, dry, pending);
      if found.Err? {
        return Failed(found.error);
      }
      var parent := found.value;
      var node := ByRef(nodes, src, row.ref);
      if node.None? {
        if dry {
          return Added;
        }
        if parent == Some(id) {
          return Failed(ConstraintViolation);
        }
        var added := AddNode(id, NewRow(nodes, src, parent, row));
        return if added.Ok? then Added else Failed(added.error);
      }
      var n := node.value;
      if nodes[n].parent != parent {
        if dry {
          return Moved;
        }
        var moved := MoveNode(n, parent);
        return if moved.Ok? then Moved else Failed(moved.error);
      }
      if Some(nodes[n].name) != row.name || nodes[n].status == Archived {
        if !dry {
          if row.name.None? {
            return Failed(ConstraintViolation);
          }
          Relabel(n, row.name.value, Active);
        }
        return Renamed;
      }
      return Unchanged;
    }

    // Rows gone from the source: archive only the nodes that carry a ref.
    method Sweep(src: Source, rows: seq<FeedRow>)
      requires Sound(Contents())
      modifies this`nodes
      ensures Sound(Contents()) && Contents() == Swept(old(Contents()), src, rows)
    {
      SweptKeepsSound(Contents(), src, rows);
      nodes := map id | id in nodes :: if Gone(nodes[id], src, rows) then nodes[id].(status := Archived) else nodes[id];
    }

    method SyncApply(src: Source, rows: seq<FeedRow>, ids: seq<Id>, dry: bool) returns (report: Report)
      requires Sound(Contents()) && |ids| >= |rows|
      modifies this`nodes, this`closure
      ensures Sound(Contents())
      ensures Contents() == Sync(old(Contents()), src, rows, ids, dry).state
      ensures report == ReportOf(rows, Sync(old(Contents()), src, rows, ids, dry))
    {
      var root, pending := RootOf(nodes, src), {};
      report := Report(0, 0, 0, 0, 0, []);
      ghost var outcomes: seq<Outcome> := [];
      for i := 0 to |rows|
        invariant Sound(Contents()) && |outcomes| == i
        invariant (Contents(), outcomes) == SyncRows(old(Contents()), src, rows[..i], ids, dry)
        invariant pending == Pending(rows[..i], outcomes)
        invariant report == RowsReport(rows[..i], outcomes)
      {
        var row := rows[i];
        assert rows[..i + 1][..i] == rows[..i];
        var o := SyncRow(src, root, row, ids[i], dry, pending);
        report := Noted(report, row, o);
        PendingGrows(rows, outcomes, i, o);
        if o == Added && row.ref.Some? { pending := pending + {row.ref.value}; }
        assert (outcomes + [o])[..i] == outcomes;
        outcomes := outcomes + [o];
      }
      assert rows[..|rows|] == rows;
      report := report.(archived := |GoneFrom(nodes, src, rows)|);
      if !dry { Sweep(src, rows); }
    }
  }

  lemma PendingGrows(rows: seq<FeedRow>, outcomes: seq<Outcome>, i: nat, o: Outcome)
    requires i < |rows| && |outcomes| == i
    ensures Pending(rows[..i + 1], outcomes + [o]) ==
            Pending(rows[..i], outcomes) + (if o == Added && rows[i].ref.Some? then {rows[i].ref.value} else {})
  {
    forall ref
      ensures ref in Pending(rows[..i + 1], outcomes + [o]) <==>
              ref in Pending(rows[..i], outcomes) || (o == Added && rows[i].ref == Some(ref))
    {
      if ref in Pending(rows[..i], outcomes) {
        var k :| 0 <= k < i && outcomes[k] == Added && rows[k].ref == Some(ref);
        assert (outcomes + [o])[k] == Added && rows[..i + 1][k].ref == Some(ref);
      }
      if o == Added && rows[i].ref == Some(ref) {
        assert (outcomes + [o])[i] == Added && rows[..i + 1][i].ref == Some(ref);
      }
    }
  }
}
