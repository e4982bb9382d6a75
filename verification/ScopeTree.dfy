// The scope hierarchy as the database keeps it: scope_nodes with parent pointers, and the
// materialised scope_closure that the SQL routines maintain beside it.
module ScopeTree {
  import opened Prelude

  datatype Status = Active | Archived

  datatype Node = Node(
    tenant: Id, axis: string, parent: Option<Id>, isAxisRoot: bool, level: string,
    slug: string, name: string, externalRef: Option<string>, status: Status)

  // A row of scope_node_types, keyed by (tenant, code).
  datatype Level = Level(axis: string, displayName: string, parents: set<string>)

  type Levels = map<(Id, string), Level>
  type Nodes = map<Id, Node>
  // scope_closure, keyed by its primary key (ancestor, descendant); the value is the depth.
  type Closure = map<(Id, Id), nat>

  datatype Scope = Scope(levels: Levels, nodes: Nodes, closure: Closure)

  const MAX_DEPTH: nat := 32767

  datatype Fault =
    | Cycle
    | TooDeep
    | NoRootLevel
    | ConstraintViolation
    | ParentNotFound

  // ---------------------------------------------------------------- the tree itself

  // The k-th parent of d, when there is one.
  function Up(nodes: Nodes, d: Id, k: nat): Option<Id>
    decreases k
  {
    if d !in nodes then None
    else if k == 0 then Some(d)
    else match nodes[d].parent
      case None => None
      case Some(p) => Up(nodes, p, k - 1)
  }

  predicate IsUp(nodes: Nodes, a: Id, d: Id, k: nat) {
    Up(nodes, d, k) == Some(a)
  }

  predicate Row(closure: Closure, a: Id, d: Id, k: nat) {
    (a, d) in closure && closure[(a, d)] == k
  }

  // scope_closure holds exactly the triples (a, d, k) where a is the k-th parent of d.
  // Because a pair has one depth, a tree that is Exact has no cycle: see NoCycle.
  ghost predicate Exact(nodes: Nodes, closure: Closure) {
    forall a, d, k: nat :: Row(closure, a, d, k) <==> IsUp(nodes, a, d, k)
  }

  // What a smallint holds.
  ghost predicate Shallow(closure: Closure) {
    forall key :: key in closure ==> closure[key] <= 32767
  }

  // ---------------------------------------------------------------- declared constraints

  // The foreign key (parent_id, tenant_id, axis_code).
  predicate ParentOk(nodes: Nodes, id: Id)
    requires id in nodes
  {
    match nodes[id].parent
    case None => true
    case Some(p) => p in nodes && nodes[p].tenant == nodes[id].tenant && nodes[p].axis == nodes[id].axis
  }

  predicate ParentsPresent(nodes: Nodes) {
    forall id {:trigger ParentOk(nodes, id)} :: id in nodes ==> ParentOk(nodes, id)
  }

  // The row's checks, its level's foreign key, and trg_scope_node_type_guard.
  predicate RowOk(levels: Levels, nodes: Nodes, id: Id)
    requires id in nodes
  {
    var n := nodes[id];
    && (n.isAxisRoot <==> n.parent == None)
    && n.slug != ""
    && (n.tenant, n.level) in levels
    && levels[(n.tenant, n.level)].axis == n.axis
    && (n.parent.Some? ==> n.parent.value in nodes && nodes[n.parent.value].level in levels[(n.tenant, n.level)].parents)
  }

  predicate RowChecks(levels: Levels, nodes: Nodes) {
    forall id {:trigger RowOk(levels, nodes, id)} :: id in nodes ==> RowOk(levels, nodes, id)
  }

  // The three unique indexes: one root per structure, sibling slugs, external refs.
  predicate Apart(m: Node, n: Node) {
    && !(m.isAxisRoot && n.isAxisRoot && m.tenant == n.tenant && m.axis == n.axis)
    && !(m.parent.Some? && m.parent == n.parent && m.slug == n.slug)
    && !(m.externalRef.Some? && m.externalRef == n.externalRef && m.tenant == n.tenant && m.axis == n.axis)
  }

  predicate Uniques(nodes: Nodes) {
    forall x, y {:trigger Apart(nodes[x], nodes[y])} :: x in nodes && y in nodes && x != y ==> Apart(nodes[x], nodes[y])
  }

  // Everything scope_nodes declares: checks, foreign keys, unique indexes and the level guard.
  predicate NodesOk(levels: Levels, nodes: Nodes) {
    && ParentsPresent(nodes)
    && RowChecks(levels, nodes)
    && Uniques(nodes)
  }

  // One row against its columns, and two rows against each other.
  predicate RowStands(levels: Levels, nodes: Nodes, id: Id) {
    id in nodes &&
    var n := nodes[id];
    && n.slug != "" && (n.isAxisRoot == n.parent.None?)
    && (n.tenant, n.level) in levels && levels[(n.tenant, n.level)].axis == n.axis
    && (n.parent.Some? ==>
          n.parent.value in nodes
          && var p := nodes[n.parent.value];
             p.tenant == n.tenant && p.axis == n.axis && p.level in levels[(n.tenant, n.level)].parents)
  }

  predicate TwoStand(nodes: Nodes, x: Id, y: Id) {
    x in nodes && y in nodes &&
    var m, n := nodes[x], nodes[y];
    && (m.parent.Some? && m.parent == n.parent ==> m.slug != n.slug)
    && (m.tenant == n.tenant && m.axis == n.axis ==>
          !(m.isAxisRoot && n.isAxisRoot) && (m.externalRef.Some? ==> m.externalRef != n.externalRef))
  }

  // The tables stand when every row does and no two are in each other's way: siblings' slugs differ,
  // an axis has one root and a reference one node.
  lemma NodesOkMeans(levels: Levels, nodes: Nodes)
    ensures NodesOk(levels, nodes) <==>
            (forall id :: id in nodes ==> RowStands(levels, nodes, id)) && forall x, y :: x in nodes && y in nodes && x != y ==> TwoStand(nodes, x, y)
  {
    if NodesOk(levels, nodes) {
      forall id | id in nodes ensures RowStands(levels, nodes, id) { assert ParentOk(nodes, id) && RowOk(levels, nodes, id); }
      forall x, y | x in nodes && y in nodes && x != y ensures TwoStand(nodes, x, y) { assert Apart(nodes[x], nodes[y]); }
    }
    if (forall id :: id in nodes ==> RowStands(levels, nodes, id)) && (forall x, y :: x in nodes && y in nodes && x != y ==> TwoStand(nodes, x, y)) {
      forall id | id in nodes ensures ParentOk(nodes, id) && RowOk(levels, nodes, id) { assert RowStands(levels, nodes, id); }
      forall x, y | x in nodes && y in nodes && x != y ensures Apart(nodes[x], nodes[y]) { assert TwoStand(nodes, x, y); }
    }
  }

  // A structure has at most one level with no parents (scope_node_types_rules).
  predicate OneTop(levels: Levels) {
    forall x, y | x in levels && y in levels && levels[y].parents == {} && IsTop(levels, x, y.0, levels[y].axis)
      :: x == y
  }

  ghost predicate Sound(s: Scope) {
    && OneTop(s.levels)
    && NodesOk(s.levels, s.nodes)
    && Exact(s.nodes, s.closure)
    && Shallow(s.closure)
  }

  // ---------------------------------------------------------------- the routines' queries

  function DepthsTo(closure: Closure, d: Option<Id>): set<int> {
    set key | key in closure && Some(key.1) == d :: closure[key]
  }

  function DepthsFrom(closure: Closure, a: Id): set<int> {
    set key | key in closure && key.0 == a :: closure[key]
  }

  // SELECT max(depth) FROM scope_closure WHERE descendant_id = d
  function DepthOf(closure: Closure, d: Option<Id>): Option<int> {
    if DepthsTo(closure, d) == {} then None else Some(MaxOf(DepthsTo(closure, d)))
  }

  // SELECT max(depth) FROM scope_closure WHERE ancestor_id = a
  function HeightOf(closure: Closure, a: Id): Option<int> {
    if DepthsFrom(closure, a) == {} then None else Some(MaxOf(DepthsFrom(closure, a)))
  }

  function Coalesce(x: Option<int>, y: int): int {
    if x.Some? then x.value else y
  }

  // INSERT INTO scope_closure SELECT ancestor, id, depth + 1 ... UNION ALL SELECT id, id, 0
  function LeafRows(closure: Closure, parent: Option<Id>, id: Id): Closure {
    (map key | key in closure && Some(key.1) == parent :: (key.0, id) := closure[key] + 1)
    + map[(id, id) := 0]
  }

  // The subtree that moves: SELECT descendant_id FROM scope_closure WHERE ancestor_id = node
  function Below(closure: Closure, node: Id): set<Id> {
    set key | key in closure && key.0 == node :: key.1
  }

  // SELECT ancestor_id FROM scope_closure WHERE descendant_id = node AND ancestor_id <> node
  function StrictlyAbove(closure: Closure, node: Id): set<Id> {
    set key | key in closure && key.1 == node && key.0 != node :: key.0
  }

  // DELETE: links from former ancestors into the moving subtree.
  function Severed(closure: Closure, node: Id): Closure {
    map key | key in closure
              && !(key.1 in Below(closure, node) && key.0 in StrictlyAbove(closure, node)) :: closure[key]
  }

  // INSERT: sup CROSS JOIN sub, every ancestor-or-self of the new parent with the moving subtree.
  function Crossed(closure: Closure, node: Id, p: Id): set<(Id, Id)> {
    set sup, sub | sup in closure && sub in closure && sup.1 == p && sub.0 == node :: (sup.0, sub.1)
  }

  lemma CrossedPairs(closure: Closure, node: Id, p: Id, a: Id, d: Id)
    ensures (a, d) in Crossed(closure, node, p) <==> (a, p) in closure && (node, d) in closure
  {
    if (a, p) in closure && (node, d) in closure {
      var sup, sub := (a, p), (node, d);
      assert sup.1 == p && sub.0 == node && (sup.0, sub.1) == (a, d);
    }
    if (a, d) in Crossed(closure, node, p) {
      var sup, sub :| sup in closure && sub in closure && sup.1 == p && sub.0 == node && (sup.0, sub.1) == (a, d);
      assert sup == (a, p) && sub == (node, d);
    }
  }

  function Grafted(closure: Closure, node: Id, parent: Option<Id>): Closure {
    match parent
    case None => map[]
    case Some(p) =>
      map pair | pair in Crossed(closure, node, p) ::
        (CrossedPairs(closure, node, p, pair.0, pair.1); closure[(pair.0, p)] + closure[(node, pair.1)] + 1)
  }

  // ---------------------------------------------------------------- the routines, as functions of the state

  function NewNode(tenant: Id, axis: string, level: string, parent: Option<Id>,
                   slug: string, name: string, externalRef: Option<string>): Node {
    Node(tenant, axis, parent, false, level, slug, name, externalRef, Active)
  }

  // id is the uuid the insert draws, so it is not one the caller already named as the parent; the
  // primary key refuses one that is taken.
  function AddNode(s: Scope, id: Id, row: Node): Result<Scope, Fault>
    requires row.parent != Some(id)
  {
    var depth := DepthOf(s.closure, row.parent);
    if depth.Some? && depth.value + 1 > MAX_DEPTH then Err(TooDeep)
    else if id in s.nodes || !NodesOk(s.levels, s.nodes[id := row]) then Err(ConstraintViolation)
    else Ok(s.(nodes := s.nodes[id := row], closure := s.closure + LeafRows(s.closure, row.parent, id)))
  }

  function Reparented(nodes: Nodes, node: Id, parent: Option<Id>): Nodes {
    if node in nodes then nodes[node := nodes[node].(parent := parent)] else nodes
  }

  function MoveNode(s: Scope, node: Id, parent: Option<Id>): Result<Scope, Fault> {
    if parent.Some? && (node, parent.value) in s.closure then Err(Cycle)
    else if Coalesce(DepthOf(s.closure, parent), 0) + Coalesce(HeightOf(s.closure, node), 0) + 1 > MAX_DEPTH then Err(TooDeep)
    else
      var severed := Severed(s.closure, node);
      var graft := Grafted(severed, node, parent);
      // scope_closure's primary key refuses a pair that is already there
      if severed.Keys !! graft.Keys then
        var nodes := Reparented(s.nodes, node, parent);
        if !NodesOk(s.levels, nodes) then Err(ConstraintViolation)
        else Ok(s.(nodes := nodes, closure := severed + graft))
      else Err(ConstraintViolation)
  }

  predicate IsRootOf(n: Node, tenant: Id, axis: string) {
    n.tenant == tenant && n.axis == axis && n.isAxisRoot
  }

  predicate IsTop(levels: Levels, key: (Id, string), tenant: Id, axis: string) {
    key in levels && key.0 == tenant && levels[key].axis == axis && levels[key].parents == {}
  }

  lemma RootIsOne(nodes: Nodes, tenant: Id, axis: string)
    requires Uniques(nodes)
    ensures forall x, y :: x in nodes && y in nodes && IsRootOf(nodes[x], tenant, axis) && IsRootOf(nodes[y], tenant, axis) ==> x == y
  {
    forall x, y | x in nodes && y in nodes && x != y
      ensures !(IsRootOf(nodes[x], tenant, axis) && IsRootOf(nodes[y], tenant, axis))
    {
      assert Apart(nodes[x], nodes[y]);
    }
  }

  function EnsureRoot(s: Scope, tenant: Id, axis: string, id: Id): Result<(Scope, Id), Fault>
    requires OneTop(s.levels) && Uniques(s.nodes)
  {
    if exists r :: r in s.nodes && IsRootOf(s.nodes[r], tenant, axis) then
      RootIsOne(s.nodes, tenant, axis);
      var r :| r in s.nodes && IsRootOf(s.nodes[r], tenant, axis);
      Ok((s, r))
    else if exists t :: t in s.levels && IsTop(s.levels, t, tenant, axis) then
      var t :| t in s.levels && IsTop(s.levels, t, tenant, axis);
      var row := Node(tenant, axis, None, true, t.1, "_root", s.levels[t].displayName, None, Active);
      if id in s.nodes || !NodesOk(s.levels, s.nodes[id := row]) then Err(ConstraintViolation)
      else Ok((s.(nodes := s.nodes[id := row], closure := s.closure[(id, id) := 0]), id))
    else Err(NoRootLevel)
  }

  // Renaming, archiving and restoring write name and status and nothing else.
  function Relabel(s: Scope, id: Id, name: string, status: Status): Scope {
    if id in s.nodes then s.(nodes := s.nodes[id := s.nodes[id].(name := name, status := status)]) else s
  }
}
