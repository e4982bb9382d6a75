// scope_sync_apply: reconciling one structure of a tenant with an external feed.
module ScopeSync {
  import opened Prelude
  import opened ScopeTree
  import opened ScopeClosure

  datatype Source = Source(tenant: Id, axis: string)

  // One feed row; any field of it may be null. level is the row's own or the source's default; slug
  // is what the name slugs to and tail the end of the ref, which suffixes the slug where a sibling
  // already has it.
  datatype FeedRow = FeedRow(
    ref: Option<string>, parentRef: Option<string>, name: Option<string>, level: Option<string>, slug: string, tail: string)

  datatype Outcome = Added | Moved | Renamed | Unchanged | Failed(fault: Fault)

  // ---------------------------------------------------------------- lookups

  predicate HasRef(n: Node, src: Source, ref: string) {
    n.tenant == src.tenant && n.axis == src.axis && n.externalRef == Some(ref)
  }

  lemma RefIsOne(nodes: Nodes, src: Source, ref: string)
    requires Uniques(nodes)
    ensures forall x, y :: x in nodes && y in nodes && HasRef(nodes[x], src, ref) && HasRef(nodes[y], src, ref) ==> x == y
  {
    forall x, y | x in nodes && y in nodes && x != y
      ensures !(HasRef(nodes[x], src, ref) && HasRef(nodes[y], src, ref))
    {
      assert Apart(nodes[x], nodes[y]);
    }
  }

  function ByRef(nodes: Nodes, src: Source, ref: Option<string>): (id: Option<Id>)
    requires Uniques(nodes)
    ensures id.Some? ==> ref.Some? && id.value in nodes && HasRef(nodes[id.value], src, ref.value)
    ensures id.None? ==> forall x :: x in nodes && ref.Some? ==> !HasRef(nodes[x], src, ref.value)
    ensures forall x :: x in nodes && ref.Some? && HasRef(nodes[x], src, ref.value) ==> id == Some(x)
  {
    if ref.Some? && exists x :: x in nodes && HasRef(nodes[x], src, ref.value) then
      RefIsOne(nodes, src, ref.value);
      var x :| x in nodes && HasRef(nodes[x], src, ref.value);
      Some(x)
    else None
  }

  function RootOf(nodes: Nodes, src: Source): (id: Option<Id>)
    requires Uniques(nodes)
    ensures id.Some? ==> id.value in nodes && IsRootOf(nodes[id.value], src.tenant, src.axis)
    ensures forall x :: x in nodes && IsRootOf(nodes[x], src.tenant, src.axis) ==> id == Some(x)
  {
    if exists x :: x in nodes && IsRootOf(nodes[x], src.tenant, src.axis) then
      RootIsOne(nodes, src.tenant, src.axis);
      var x :| x in nodes && IsRootOf(nodes[x], src.tenant, src.axis);
      Some(x)
    else None
  }

  // The parent a row asks for: the axis root, the node with that ref, or, in a dry run, the root
  // standing in for a node the run would have created.
  function ParentFor(nodes: Nodes, src: Source, root: Option<Id>, row: FeedRow, dry: bool, pending: set<string>): Result<Option<Id>, Fault>
    requires Uniques(nodes)
  {
    match row.parentRef
    case None => Ok(root)
    case Some(ref) =>
      match ByRef(nodes, src, row.parentRef)
      case Some(p) => Ok(Some(p))
      case None => if dry && ref in pending then Ok(root) else Err(ParentNotFound)
  }

  // None is null, as a null name or the suffix of a null ref makes it.
  function SlugFor(nodes: Nodes, parent: Option<Id>, row: FeedRow): Option<string> {
    if row.name.None? then None
    else if parent.Some? && exists x :: x in nodes && nodes[x].parent == parent && nodes[x].slug == row.slug
    then if row.ref.None? then None else Some(row.slug + "-" + row.tail)
    else Some(row.slug)
  }

  // ---------------------------------------------------------------- one row

  // Where a column would be null the slug is empty: the insert refuses both where it checks the row.
  function NewRow(nodes: Nodes, src: Source, parent: Option<Id>, row: FeedRow): Node {
    var slug := SlugFor(nodes, parent, row);
    if row.name.None? || row.level.None? || slug.None? then NewNode(src.tenant, src.axis, "", parent, "", "", row.ref)
    else NewNode(src.tenant, src.axis, row.level.value, parent, slug.value, row.name.value, row.ref)
  }

  // id is what the insert would draw. A row that raises leaves the tables as they were.
  function SyncRow(s: Scope, src: Source, root: Option<Id>, row: FeedRow, id: Id, dry: bool, pending: set<string>): (Scope, Outcome)
    requires Uniques(s.nodes)
  {
    match ParentFor(s.nodes, src, root, row, dry, pending)
    case Err(f) => (s, Failed(f))
    case Ok(parent) =>
      match ByRef(s.nodes, src, row.ref)
      case None =>
        if dry then (s, Added)
        else if parent == Some(id) then (s, Failed(ConstraintViolation))
        else (match AddNode(s, id, NewRow(s.nodes, src, parent, row))
              case Ok(s') => (s', Added)
              case Err(f) => (s, Failed(f)))
      case Some(n) =>
        if s.nodes[n].parent != parent then
          if dry then (s, Moved)
          else (match MoveNode(s, n, parent)
                case Ok(s') => (s', Moved)
                case Err(f) => (s, Failed(f)))
        else if Some(s.nodes[n].name) != row.name || s.nodes[n].status == Archived then
          if dry then (s, Renamed)
          else if row.name.None? then (s, Failed(ConstraintViolation))
          else (Relabel(s, n, row.name.value, Active), Renamed)
        else (s, Unchanged)
  }

  lemma SyncRowKeepsSound(s: Scope, src: Source, root: Option<Id>, row: FeedRow, id: Id, dry: bool, pending: set<string>)
    requires Sound(s)
    ensures Sound(SyncRow(s, src, root, row, id, dry, pending).0)
    ensures SyncRow(s, src, root, row, id, dry, pending).0.levels == s.levels
  {
    assert Uniques(s.nodes);
    hide NodesOk, Exact, Shallow, OneTop, DepthOf, HeightOf, Severed, Grafted, LeafRows, SlugFor, ParentFor, ByRef, AddNode, MoveNode;
    var parent := ParentFor(s.nodes, src, root, row, dry, pending);
    if parent.Ok? && !dry {
      match ByRef(s.nodes, src, row.ref)
      case None =>
        var leaf := NewRow(s.nodes, src, parent.value, row);
        if parent.value != Some(id) && AddNode(s, id, leaf).Ok? { AddKeepsSound(s, id, leaf); }
      case Some(n) =>
        if MoveNode(s, n, parent.value).Ok? { MoveKeepsSound(s, n, parent.value); }
        if row.name.Some? { RelabelKeepsSound(s, n, row.name.value, Active); }
    }
  }

  // The parent a row gets: the root given when it names none, the one node of the source that has
  // the reference when it names one, and in a rehearsal the root for a node still to come.
  lemma ParentMeans(nodes: Nodes, src: Source, root: Option<Id>, row: FeedRow, dry: bool, pending: set<string>)
    requires Uniques(nodes)
    ensures var asked := ParentFor(nodes, src, root, row, dry, pending);
            && (row.parentRef.None? ==> asked == Ok(root))
            && (row.parentRef.Some? ==>
                  var ref := row.parentRef;
                  && (forall x :: x in nodes && nodes[x].tenant == src.tenant && nodes[x].axis == src.axis && nodes[x].externalRef == ref ==>
                        asked == Ok(Some(x)))
                  && ((forall x :: x in nodes && nodes[x].tenant == src.tenant && nodes[x].axis == src.axis ==> nodes[x].externalRef != ref) ==>
                        asked == if dry && ref.value in pending then Ok(root) else Err(ParentNotFound)))
  {
  }

  // Some node beside the new one already has the slug.
  predicate SiblingHas(nodes: Nodes, parent: Option<Id>, slug: string) {
    parent.Some? && exists x :: x in nodes && nodes[x].parent == parent && nodes[x].slug == slug
  }

  predicate OnlyDiffers(nodes: Nodes, nodes': Nodes, id: Id) {
    nodes'.Keys == nodes.Keys && forall x :: x in nodes && x != id ==> nodes'[x] == nodes[x]
  }

  // What each outcome of a row that is not a rehearsal leaves behind, column by column.
  lemma OutcomesMean(s: Scope, src: Source, root: Option<Id>, row: FeedRow, id: Id, pending: set<string>)
    requires Sound(s)
    ensures var (s', o) := SyncRow(s, src, root, row, id, false, pending);
            var asked := ParentFor(s.nodes, src, root, row, false, pending);
            var own := ByRef(s.nodes, src, row.ref);
            && (o.Failed? || o == Unchanged ==> s' == s)
            && (o == Moved ==>
                  own.Some? && asked.Ok? && OnlyDiffers(s.nodes, s'.nodes, own.value)
                  && var n, m := s.nodes[own.value], s'.nodes[own.value];
                     SameBut(n, m) && n.name == m.name && n.status == m.status && n.parent != asked.value && m.parent == asked.value)
            && (o == Renamed ==>
                  own.Some? && asked.Ok? && OnlyDiffers(s.nodes, s'.nodes, own.value) && s'.closure == s.closure
                  && var n, m := s.nodes[own.value], s'.nodes[own.value];
                     && SameBut(n, m) && n.parent == m.parent == asked.value && row.name == Some(m.name) && m.status == Active
                     && (n.name != m.name || n.status != Active))
            && (o == Unchanged ==>
                  own.Some? && asked == Ok(s.nodes[own.value].parent)
                  && row.name == Some(s.nodes[own.value].name) && s.nodes[own.value].status == Active)
  {
    hide Exact, Shallow, OneTop, DepthOf, HeightOf, Severed, Grafted, LeafRows, NodesOk, ParentFor, NewRow;
  }

  lemma AddedIsNewRow(s: Scope, src: Source, root: Option<Id>, row: FeedRow, id: Id, pending: set<string>)
    requires Sound(s) && SyncRow(s, src, root, row, id, false, pending).1 == Added
    ensures var s' := SyncRow(s, src, root, row, id, false, pending).0;
            var asked := ParentFor(s.nodes, src, root, row, false, pending);
            && ByRef(s.nodes, src, row.ref).None? && id !in s.nodes && asked.Ok? && asked.value != Some(id)
            && AddNode(s, id, NewRow(s.nodes, src, asked.value, row)).Ok?
            && s'.nodes == s.nodes[id := NewRow(s.nodes, src, asked.value, row)]
  {
    assert Uniques(s.nodes);
    hide Exact, Shallow, OneTop, DepthOf, HeightOf, LeafRows, NodesOk, ParentFor, ByRef, NewRow, MoveNode;
  }

  // An added row is as the feed has it; its slug is its own, or, where a sibling has that, ends in
  // the reference's tail.
  lemma AddedMeans(s: Scope, src: Source, root: Option<Id>, row: FeedRow, id: Id, pending: set<string>)
    requires Sound(s) && SyncRow(s, src, root, row, id, false, pending).1 == Added
    ensures var s' := SyncRow(s, src, root, row, id, false, pending).0;
            var asked := ParentFor(s.nodes, src, root, row, false, pending);
            && ByRef(s.nodes, src, row.ref).None? && id !in s.nodes && s'.nodes.Keys == s.nodes.Keys + {id} && asked.Ok?
            && (forall x :: x in s.nodes ==> s'.nodes[x] == s.nodes[x])
            && row.name.Some? && row.level.Some?
            && var n := s'.nodes[id];
               && n.tenant == src.tenant && n.axis == src.axis && n.externalRef == row.ref && !n.isAxisRoot
               && n.parent == asked.value && n.level == row.level.value && n.name == row.name.value && n.status == Active
               && n.slug == (if SiblingHas(s.nodes, asked.value, row.slug) then row.slug + "-" + row.tail else row.slug)
  {
    AddedIsNewRow(s, src, root, row, id, pending);
    var parent := ParentFor(s.nodes, src, root, row, false, pending).value;
    hide Sound, SyncRow, AddNode, ParentFor, ByRef;
    if row.name.None? || row.level.None? || SlugFor(s.nodes, parent, row).None? { NullIsRefused(s, src, row, id, parent); }
  }

  // A null column never gets in.
  lemma NullIsRefused(s: Scope, src: Source, row: FeedRow, id: Id, parent: Option<Id>)
    requires parent != Some(id) && (row.name.None? || row.level.None? || SlugFor(s.nodes, parent, row).None?)
    ensures AddNode(s, id, NewRow(s.nodes, src, parent, row)).Err?
  {
    var nodes' := s.nodes[id := NewRow(s.nodes, src, parent, row)];
    assert !RowOk(s.levels, nodes', id);
  }

  // What a rehearsal says of a row: what the run would try on the tables as they stand.
  lemma RehearsalMeans(s: Scope, src: Source, root: Option<Id>, row: FeedRow, id: Id, pending: set<string>)
    requires Sound(s)
    ensures var (s', o) := SyncRow(s, src, root, row, id, true, pending);
            var asked := ParentFor(s.nodes, src, root, row, true, pending);
            var own := ByRef(s.nodes, src, row.ref);
            && s' == s
            && (o.Failed? <==> asked.Err?)
            && (o == Added <==> asked.Ok? && own.None?)
            && (o == Moved <==> asked.Ok? && own.Some? && s.nodes[own.value].parent != asked.value)
            && (o == Renamed <==>
                  asked.Ok? && own.Some? && s.nodes[own.value].parent == asked.value
                  && (row.name != Some(s.nodes[own.value].name) || s.nodes[own.value].status != Active))
            && (o == Unchanged <==>
                  asked.Ok? && own.Some? && s.nodes[own.value].parent == asked.value
                  && row.name == Some(s.nodes[own.value].name) && s.nodes[own.value].status == Active)
  {
    hide NodesOk, Exact, Shallow, OneTop, DepthOf, HeightOf, Severed, Grafted, LeafRows, SlugFor, ParentFor, AddNode, MoveNode;
  }

  // ---------------------------------------------------------------- the whole run

  // The state and outcomes after the first |rows| rows, drawing ids[i] where row i inserts.
  function SyncRows(s: Scope, src: Source, rows: seq<FeedRow>, ids: seq<Id>, dry: bool): (r: (Scope, seq<Outcome>))
    requires Sound(s) && |ids| >= |rows|
    ensures |r.1| == |rows| && Sound(r.0) && r.0.levels == s.levels
    decreases |rows|
  {
    if rows == [] then (s, [])
    else
      var n := |rows| - 1;
      var (t, outcomes) := SyncRows(s, src, rows[..n], ids, dry);
      SyncRowKeepsSound(t, src, RootOf(s.nodes, src), rows[n], ids[n], dry, Pending(rows[..n], outcomes));
      var (t', o) := SyncRow(t, src, RootOf(s.nodes, src), rows[n], ids[n], dry, Pending(rows[..n], outcomes));
      (t', outcomes + [o])
  }

  // The refs a dry run would have created so far.
  function Pending(rows: seq<FeedRow>, outcomes: seq<Outcome>): set<string>
    requires |rows| == |outcomes|
  {
    set i | 0 <= i < |rows| && outcomes[i] == Added && rows[i].ref.Some? :: rows[i].ref.value
  }

  predicate InFeed(rows: seq<FeedRow>, ref: Option<string>) {
    exists i :: 0 <= i < |rows| && rows[i].ref == ref
  }

  // A node the feed no longer mentions. Only nodes that carry a ref are the feed's to archive.
  predicate Gone(n: Node, src: Source, rows: seq<FeedRow>) {
    n.tenant == src.tenant && n.axis == src.axis && n.externalRef.Some? && n.status == Active && !InFeed(rows, n.externalRef)
  }

  function GoneFrom(nodes: Nodes, src: Source, rows: seq<FeedRow>): set<Id> {
    set id | id in nodes && Gone(nodes[id], src, rows)
  }

  function Swept(s: Scope, src: Source, rows: seq<FeedRow>): Scope {
    s.(nodes := map id | id in s.nodes ::
         if Gone(s.nodes[id], src, rows) then s.nodes[id].(status := Archived) else s.nodes[id])
  }

  // The sweep archives the source's nodes whose reference no row has, and does nothing else.
  lemma SweepMeans(s: Scope, src: Source, rows: seq<FeedRow>, x: Id)
    requires x in s.nodes
    ensures var s', n := Swept(s, src, rows), s.nodes[x];
            var listed := exists i :: 0 <= i < |rows| && rows[i].ref == n.externalRef;
            var owned := n.tenant == src.tenant && n.axis == src.axis && n.externalRef.Some?;
            && s'.nodes.Keys == s.nodes.Keys && s'.closure == s.closure && s'.levels == s.levels
            && var m := s'.nodes[x];
               && SameBut(n, m) && m.name == n.name && m.parent == n.parent
               && m.status == if owned && !listed then Archived else n.status
  {
  }

  datatype Run = Run(state: Scope, outcomes: seq<Outcome>, archived: nat)

  function Sync(s: Scope, src: Source, rows: seq<FeedRow>, ids: seq<Id>, dry: bool): Run
    requires Sound(s) && |ids| >= |rows|
  {
    var (t, outcomes) := SyncRows(s, src, rows, ids, dry);
    Run(if dry then t else Swept(t, src, rows), outcomes, |GoneFrom(t.nodes, src, rows)|)
  }

  predicate ErrorFree(run: Run) {
    forall o :: o in run.outcomes ==> !o.Failed?
  }

  // What the report counts as archived: the nodes the sweep takes out of use.
  lemma ArchivedMeans(s: Scope, src: Source, rows: seq<FeedRow>)
    ensures var taken := set x | x in s.nodes && s.nodes[x].status == Active && Swept(s, src, rows).nodes[x].status == Archived;
            |GoneFrom(s.nodes, src, rows)| == |taken|
  {
    assert GoneFrom(s.nodes, src, rows) == set x | x in s.nodes && s.nodes[x].status == Active && Swept(s, src, rows).nodes[x].status == Archived;
  }

  // ---------------------------------------------------------------- the tree survives

  lemma {:induction false} UpSwept(s: Scope, src: Source, rows: seq<FeedRow>, d: Id, k: nat)
    ensures Up(Swept(s, src, rows).nodes, d, k) == Up(s.nodes, d, k)
    decreases k
  {
    if k > 0 && d in s.nodes && s.nodes[d].parent.Some? { UpSwept(s, src, rows, s.nodes[d].parent.value, k - 1); }
  }

  lemma SweptKeepsSound(s: Scope, src: Source, rows: seq<FeedRow>)
    requires Sound(s)
    ensures Sound(Swept(s, src, rows))
  {
    var nodes' := Swept(s, src, rows).nodes;
    forall a, d, k: nat ensures Row(s.closure, a, d, k) <==> IsUp(nodes', a, d, k) {
      UpSwept(s, src, rows, d, k);
      assert Row(s.closure, a, d, k) <==> IsUp(s.nodes, a, d, k);
    }
    forall x | x in nodes' ensures ParentOk(nodes', x) && RowOk(s.levels, nodes', x) {
      assert ParentOk(s.nodes, x) && RowOk(s.levels, s.nodes, x);
    }
    forall x, y | x in nodes' && y in nodes' && x != y ensures Apart(nodes'[x], nodes'[y]) {
      assert Apart(s.nodes[x], s.nodes[y]);
    }
    MakeSound(s.levels, nodes', s.closure);
  }

  // Whatever the feed says, the tree stays a tree and the closure stays its closure.
  lemma SyncKeepsSound(s: Scope, src: Source, rows: seq<FeedRow>, ids: seq<Id>, dry: bool)
    requires Sound(s) && |ids| >= |rows|
    ensures Sound(Sync(s, src, rows, ids, dry).state)
  {
    SweptKeepsSound(SyncRows(s, src, rows, ids, dry).0, src, rows);
  }

  // A dry run writes nothing.
  lemma {:induction false} DryWritesNothing(s: Scope, src: Source, rows: seq<FeedRow>, ids: seq<Id>)
    requires Sound(s) && |ids| >= |rows|
    ensures SyncRows(s, src, rows, ids, true).0 == s && Sync(s, src, rows, ids, true).state == s
    decreases |rows|
  {
    if rows != [] { DryWritesNothing(s, src, rows[..|rows| - 1], ids); }
  }
}
