// The two engines never disagree: Evaluate over the snapshot of a database is authorize() over the
// database, although one walks parent pointers and the other joins the closure.
module Parity {
  import opened Prelude
  import opened ScopeTree
  import opened ScopeClosure
  import opened ScopeIndex
  import Catalog
  import Snapshot

  // ---------------------------------------------------------------- what a load delivers

  predicate InTenant(nodes: Nodes, tenant: Id, id: Id) {
    id in nodes && nodes[id].tenant == tenant
  }

  // Every node of the tenant, whatever its status, with its parent pointer.
  ghost predicate TreeLoaded(x: Index, nodes: Nodes, tenant: Id) {
    && Linked(x.parent)
    && (forall id :: id in x.idx <==> InTenant(nodes, tenant, id))
    && (forall id :: id in x.idx ==> 0 <= x.idx[id] < |x.parent|)
    && (forall a, b :: a in x.idx && b in x.idx && x.idx[a] == x.idx[b] ==> a == b)
    && (forall id {:trigger PointerOk(x, nodes, id)} :: id in x.idx ==> PointerOk(x, nodes, id))
  }

  predicate PointerOk(x: Index, nodes: Nodes, id: Id) {
    && id in nodes && id in x.idx && 0 <= x.idx[id] < |x.parent|
    && match nodes[id].parent
       case None => x.parent[x.idx[id]] == -1
       case Some(p) => p in x.idx && x.parent[x.idx[id]] == x.idx[p]
  }

  function ConstraintOf(x: Index, node: Id, p: Catalog.Place): ScopeConstraint {
    Interned(x, ScopeConstraint(node, p.inherit, p.mode == Catalog.Exclude, 0))
  }

  // One grant with its places grouped by axis, each interned.
  ghost predicate GrantLoaded(x: Index, db: Catalog.Db, id: Id, g: Snapshot.Grant) {
    && id in db.grants
    && var row := db.grants[id];
    && g.id == id && g.role == row.role && g.selfScoped == row.selfScoped && g.validFrom == row.validFrom
    && g.validUntil == (if row.validUntil.Some? then row.validUntil.value else 0)
    && (forall axis :: axis in g.scopes <==> Catalog.PlacesOn(db, id, axis) != {})
    && (forall axis {:trigger AxisLoaded(x, db, id, axis, g.scopes[axis])} :: axis in g.scopes ==>
          AxisLoaded(x, db, id, axis, g.scopes[axis]))
  }

  ghost predicate AxisLoaded(x: Index, db: Catalog.Db, id: Id, axis: string, cs: seq<ScopeConstraint>) {
    && (forall key :: key in Catalog.PlacesOn(db, id, axis) ==> ConstraintOf(x, key.2, db.places[key]) in cs)
    && (forall c :: c in cs ==>
          exists key :: key in Catalog.PlacesOn(db, id, axis) && c == ConstraintOf(x, key.2, db.places[key]))
  }

  ghost predicate GrantsLoaded(d: Snapshot.Data, db: Catalog.Db, tenant: Id) {
    && (forall identity, g :: g in Snapshot.GrantsOf(d, identity) ==>
          && GrantLoaded(d.scope, db, g.id, g)
          && !db.grants[g.id].revoked && db.grants[g.id].tenant == tenant && db.grants[g.id].identity == identity)
    && (forall id :: id in db.grants && !db.grants[id].revoked && db.grants[id].tenant == tenant ==>
          exists g :: g in Snapshot.GrantsOf(d, db.grants[id].identity) && g.id == id)
  }

  // A permission row of this tenant that is not retired from the catalog.
  predicate LivePermission(db: Catalog.Db, tenant: Id, p: Id, key: string) {
    p in db.permissions && db.permissions[p].tenant == tenant && db.permissions[p].key == key && !db.permissions[p].deprecated
  }

  ghost predicate PermissionsLoaded(d: Snapshot.Data, db: Catalog.Db, tenant: Id) {
    && (forall role, key :: Snapshot.Confers(d, role, key) <==>
          exists p :: LivePermission(db, tenant, p, key) && (role, p) in db.effective)
    && (forall key :: key in d.permissions ==>
          exists p :: LivePermission(db, tenant, p, key) && d.permissions[key].minAssurance == db.permissions[p].minAssurance)
    && (forall p, key :: LivePermission(db, tenant, p, key) ==> key in d.permissions)
  }

  ghost predicate IdentitiesLoaded(d: Snapshot.Data, db: Catalog.Db, tenant: Id) {
    && (forall id :: id in d.identities <==> id in db.identities && db.identities[id].tenant == tenant)
    && (forall id :: id in d.identities ==>
          && var row := db.identities[id];
          && d.identities[id].blocked == (row.disabled || row.anonymized || !row.active)
          && d.identities[id].assurance == row.assurance)
  }

  predicate SharedLive(db: Catalog.Db, tenant: Id, id: Id, at: int) {
    id in db.shares && db.shares[id].tenant == tenant && !db.shares[id].revoked && db.shares[id].validUntil > at
  }

  ghost predicate SharesLoaded(d: Snapshot.Data, db: Catalog.Db, tenant: Id, at: int) {
    && (forall identity, s :: s in Snapshot.SharesOf(d, identity) ==>
          exists id :: SharedLive(db, tenant, id, at) && db.shares[id].recipient == identity
                       && s == Snapshot.Share(db.shares[id].record, db.shares[id].keys, db.shares[id].validUntil))
    && (forall id :: SharedLive(db, tenant, id, at) ==>
          Snapshot.Share(db.shares[id].record, db.shares[id].keys, db.shares[id].validUntil)
            in Snapshot.SharesOf(d, db.shares[id].recipient))
  }

  // The active axes of the tenant that deny by default.
  predicate DeniesByDefault(db: Catalog.Db, tenant: Id, axis: string) {
    (tenant, axis) in db.axes && db.axes[(tenant, axis)].active && db.axes[(tenant, axis)].deny
  }

  ghost predicate StrictLoaded(d: Snapshot.Data, db: Catalog.Db, tenant: Id) {
    forall axis :: axis in d.strictAxes <==> DeniesByDefault(db, tenant, axis)
  }

  // d is what LoadSnapshot read for the tenant at instant `at`.
  ghost predicate Loaded(d: Snapshot.Data, db: Catalog.Db, tenant: Id, at: int) {
    && StrictLoaded(d, db, tenant)
    && TreeLoaded(d.scope, db.scope.nodes, tenant)
    && GrantsLoaded(d, db, tenant)
    && PermissionsLoaded(d, db, tenant)
    && IdentitiesLoaded(d, db, tenant)
    && SharesLoaded(d, db, tenant, at)
  }

  // ---------------------------------------------------------------- pointers against closure

  // Walking the parent array is taking parents in the table.
  lemma {:induction false} WalkIsUp(x: Index, nodes: Nodes, tenant: Id, d: Id, k: nat)
    requires TreeLoaded(x, nodes, tenant) && d in x.idx
    ensures match Up(nodes, d, k)
            case None => Walk(x.parent, x.idx[d], k) == -1
            case Some(a) => a in x.idx && Walk(x.parent, x.idx[d], k) == x.idx[a]
    decreases k
  {
    assert PointerOk(x, nodes, d);
    if k > 0 && nodes[d].parent.Some? {
      WalkIsUp(x, nodes, tenant, nodes[d].parent.value, k - 1);
    }
  }

  // A node and everything above it belong to one tenant.
  lemma {:induction false} OneTenant(nodes: Nodes, tenant: Id, a: Id, d: Id, k: nat)
    requires ParentsPresent(nodes) && IsUp(nodes, a, d, k)
    ensures InTenant(nodes, tenant, a) <==> InTenant(nodes, tenant, d)
    decreases k
  {
    UpKnown(nodes, d, k);
    assert ParentOk(nodes, d);
    if k > 0 { OneTenant(nodes, tenant, a, nodes[d].parent.value, k - 1); }
  }

  // One place against one known target: the join on scope_closure and the walk agree.
  lemma CoverageAgrees(x: Index, db: Catalog.Db, tenant: Id, key: Catalog.PlaceKey, targets: Catalog.Targets)
    requires Catalog.Valid(db) && TreeLoaded(x, db.scope.nodes, tenant)
    requires key in db.places && db.places[key].tenant == tenant
    requires key.1 in targets && targets[key.1] in x.idx
    ensures Catalog.PlaceCovers(db, key, targets) <==>
            Covers(x.parent, ConstraintOf(x, key.2, db.places[key]), x.idx[targets[key.1]])
  {
    var (g, axis, node) := key;
    assert Catalog.PlaceOk(db, key);
    assert !Catalog.Reserved((tenant, axis).1);
    var t := targets[axis];
    var c := ConstraintOf(x, node, db.places[key]);
    assert c.node == x.idx[node] + 1;
    forall k: nat
      ensures Hit(x.parent, c, x.idx[t], k) <==> IsUp(db.scope.nodes, node, t, k) && (k == 0 || c.inherit)
    {
      WalkIsUp(x, db.scope.nodes, tenant, t, k);
    }
    if Catalog.PlaceCovers(db, key, targets) {
      RowKnown(db.scope.nodes, db.scope.closure, node, t);
      assert Hit(x.parent, c, x.idx[t], db.scope.closure[(node, t)]);
    }
    if k: nat :| Hit(x.parent, c, x.idx[t], k) {
      Related(db.scope.nodes, db.scope.closure, node, t, k);
    }
  }

  // A target the tenant does not have is below none of its nodes.
  lemma UnknownTarget(x: Index, db: Catalog.Db, tenant: Id, key: Catalog.PlaceKey, targets: Catalog.Targets)
    requires Catalog.Valid(db) && TreeLoaded(x, db.scope.nodes, tenant)
    requires key in db.places && db.places[key].tenant == tenant
    requires key.1 in targets ==> targets[key.1] !in x.idx
    ensures !Catalog.PlaceCovers(db, key, targets)
  {
    var (g, axis, node) := key;
    assert Catalog.PlaceOk(db, key);
    if axis in targets && (node, targets[axis]) in db.scope.closure {
      RowKnown(db.scope.nodes, db.scope.closure, node, targets[axis]);
      OneTenant(db.scope.nodes, tenant, node, targets[axis], db.scope.closure[(node, targets[axis])]);
    }
  }

  lemma AxisAgrees(d: Snapshot.Data, db: Catalog.Db, tenant: Id, g: Snapshot.Grant, axis: string, targets: Catalog.Targets)
    requires Catalog.Valid(db) && TreeLoaded(d.scope, db.scope.nodes, tenant)
    requires GrantLoaded(d.scope, db, g.id, g) && db.grants[g.id].tenant == tenant && axis in g.scopes
    ensures Snapshot.AxisSatisfied(d, g, axis, targets) <==> Catalog.AxisSatisfied(db, g.id, axis, targets)
  {
    var rows := Catalog.PlacesOn(db, g.id, axis);
    Catalog.MinCaseMeaning(db, g.id, axis, targets);
    forall key | key in rows ensures db.places[key].tenant == tenant { assert Catalog.PlaceOk(db, key); }
    if axis in targets && targets[axis] in d.scope.idx {
      forall key | key in rows
        ensures Catalog.PlaceCovers(db, key, targets) <==>
                Covers(d.scope.parent, ConstraintOf(d.scope, key.2, db.places[key]), d.scope.idx[targets[axis]])
      {
        CoverageAgrees(d.scope, db, tenant, key, targets);
      }
      assert AxisLoaded(d.scope, db, g.id, axis, g.scopes[axis]);
      AdmitsByRows(d.scope, db, g.id, axis, g.scopes[axis], targets);
    } else {
      forall key | key in rows ensures !Catalog.PlaceCovers(db, key, targets) { UnknownTarget(d.scope, db, tenant, key, targets); }
    }
  }

  ghost predicate SomeRow(db: Catalog.Db, grant: Id, axis: string, targets: Catalog.Targets, mode: Catalog.Mode) {
    exists key :: key in Catalog.PlacesOn(db, grant, axis) && db.places[key].mode == mode && Catalog.PlaceCovers(db, key, targets)
  }

  ghost predicate SomeConstraint(x: Index, cs: seq<ScopeConstraint>, t: int, exclude: bool)
    requires Linked(x.parent)
  {
    exists c :: c in cs && c.exclude == exclude && Covers(x.parent, c, t)
  }

  // The walk and the join agree on every row of one axis of a grant.
  ghost predicate RowsAgree(x: Index, db: Catalog.Db, grant: Id, axis: string, targets: Catalog.Targets)
    requires Linked(x.parent) && axis in targets && targets[axis] in x.idx
  {
    forall key :: key in Catalog.PlacesOn(db, grant, axis) ==>
      (Catalog.PlaceCovers(db, key, targets) <==>
       Covers(x.parent, ConstraintOf(x, key.2, db.places[key]), x.idx[targets[axis]]))
  }

  lemma ConstraintHasRow(x: Index, db: Catalog.Db, grant: Id, axis: string, cs: seq<ScopeConstraint>,
                         targets: Catalog.Targets, c: ScopeConstraint, mode: Catalog.Mode)
    requires Linked(x.parent) && AxisLoaded(x, db, grant, axis, cs)
    requires axis in targets && targets[axis] in x.idx && RowsAgree(x, db, grant, axis, targets)
    requires c in cs && c.exclude == (mode == Catalog.Exclude) && Covers(x.parent, c, x.idx[targets[axis]])
    ensures SomeRow(db, grant, axis, targets, mode)
  {
    var key :| key in Catalog.PlacesOn(db, grant, axis) && c == ConstraintOf(x, key.2, db.places[key]);
    assert db.places[key].mode == mode;
  }

  lemma RowHasConstraint(x: Index, db: Catalog.Db, grant: Id, axis: string, cs: seq<ScopeConstraint>, targets: Catalog.Targets, mode: Catalog.Mode)
    requires Linked(x.parent) && AxisLoaded(x, db, grant, axis, cs)
    requires axis in targets && targets[axis] in x.idx && RowsAgree(x, db, grant, axis, targets)
    requires SomeRow(db, grant, axis, targets, mode)
    ensures SomeConstraint(x, cs, x.idx[targets[axis]], mode == Catalog.Exclude)
  {
    var key :| key in Catalog.PlacesOn(db, grant, axis) && db.places[key].mode == mode && Catalog.PlaceCovers(db, key, targets);
    var c := ConstraintOf(x, key.2, db.places[key]);
    assert c in cs && c.exclude == (mode == Catalog.Exclude);
  }

  lemma SomeAgrees(x: Index, db: Catalog.Db, grant: Id, axis: string, cs: seq<ScopeConstraint>, targets: Catalog.Targets, mode: Catalog.Mode)
    requires Linked(x.parent) && AxisLoaded(x, db, grant, axis, cs)
    requires axis in targets && targets[axis] in x.idx && RowsAgree(x, db, grant, axis, targets)
    ensures SomeConstraint(x, cs, x.idx[targets[axis]], mode == Catalog.Exclude) <==> SomeRow(db, grant, axis, targets, mode)
  {
    if SomeConstraint(x, cs, x.idx[targets[axis]], mode == Catalog.Exclude) {
      var c :| c in cs && c.exclude == (mode == Catalog.Exclude) && Covers(x.parent, c, x.idx[targets[axis]]);
      ConstraintHasRow(x, db, grant, axis, cs, targets, c, mode);
    }
    if SomeRow(db, grant, axis, targets, mode) { RowHasConstraint(x, db, grant, axis, cs, targets, mode); }
  }

  lemma AdmitsByRows(x: Index, db: Catalog.Db, grant: Id, axis: string, cs: seq<ScopeConstraint>, targets: Catalog.Targets)
    requires Linked(x.parent) && AxisLoaded(x, db, grant, axis, cs)
    requires axis in targets && targets[axis] in x.idx && RowsAgree(x, db, grant, axis, targets)
    ensures Admits(x.parent, cs, x.idx[targets[axis]]) <==>
            SomeRow(db, grant, axis, targets, Catalog.Include) && !SomeRow(db, grant, axis, targets, Catalog.Exclude)
  {
    var t := x.idx[targets[axis]];
    SomeAgrees(x, db, grant, axis, cs, targets, Catalog.Include);
    SomeAgrees(x, db, grant, axis, cs, targets, Catalog.Exclude);
    assert Admits(x.parent, cs, t) <==> SomeConstraint(x, cs, t, false) && !SomeConstraint(x, cs, t, true);
  }

  // ---------------------------------------------------------------- one grant, one share, the whole decision

  lemma AxesAgree(d: Snapshot.Data, db: Catalog.Db, tenant: Id, g: Snapshot.Grant, targets: Catalog.Targets)
    requires Catalog.Valid(db) && TreeLoaded(d.scope, db.scope.nodes, tenant)
    requires GrantLoaded(d.scope, db, g.id, g) && db.grants[g.id].tenant == tenant
    ensures Snapshot.GrantScopesSatisfied(d, g, targets) <==> Catalog.AxesOk(db, g.id, targets)
  {
    forall axis | axis in g.scopes
      ensures Snapshot.AxisSatisfied(d, g, axis, targets) <==> Catalog.AxisSatisfied(db, g.id, axis, targets)
    {
      AxisAgrees(d, db, tenant, g, axis, targets);
    }
    forall key | key in db.places && key.0 == g.id
      ensures key.1 in g.scopes
    {
      assert key in Catalog.PlacesOn(db, g.id, key.1);
    }
    forall axis | axis in g.scopes
      ensures exists key :: key in db.places && key.0 == g.id && key.1 == axis
    {
      var key := Member(Catalog.PlacesOn(db, g.id, axis));
    }
  }

  lemma StrictAgrees(d: Snapshot.Data, db: Catalog.Db, tenant: Id, g: Snapshot.Grant)
    requires StrictLoaded(d, db, tenant)
    requires GrantLoaded(d.scope, db, g.id, g)
    ensures Snapshot.StrictAxesAddressed(d, g) <==> Catalog.StrictMissing(db, g.id, tenant) == {}
  {
    var missing := Catalog.StrictMissing(db, g.id, tenant);
    if axis :| axis in d.strictAxes && axis !in g.scopes {
      assert (tenant, axis) in db.axes && (tenant, axis).1 in missing;
    }
    if missing != {} {
      var axis := Member(missing);
      assert axis in d.strictAxes && axis !in g.scopes;
    }
  }

  // The permission row a key names is one row, so the gates on it can be read from either side.
  lemma OneRowPerKey(db: Catalog.Db, p: Id, q: Id)
    requires Catalog.Constraints(db) && p in db.permissions && q in db.permissions
    requires db.permissions[p].tenant == db.permissions[q].tenant && db.permissions[p].key == db.permissions[q].key
    ensures p == q
  {
    assert Catalog.SameKey(db.permissions[p], db.permissions[q]);
  }

  // The live permission row a caller's key names, with the assurance it asks for met.
  predicate Reachable(db: Catalog.Db, tenant: Id, p: Id, key: string, identity: Id)
    requires identity in db.identities
  {
    LivePermission(db, tenant, p, key) && db.permissions[p].minAssurance <= db.identities[identity].assurance
  }

  lemma GatesMeaning(d: Snapshot.Data, db: Catalog.Db, tenant: Id, identity: Id, key: string)
    requires Catalog.Constraints(db) && PermissionsLoaded(d, db, tenant) && IdentitiesLoaded(d, db, tenant)
    ensures Snapshot.Gates(d, identity, key) <==>
            && identity in db.identities && db.identities[identity].tenant == tenant
            && Catalog.IdentityLive(db.identities[identity])
            && exists p :: Reachable(db, tenant, p, key, identity)
  {
    if key in d.permissions {
      var p :| LivePermission(db, tenant, p, key) && d.permissions[key].minAssurance == db.permissions[p].minAssurance;
      forall q | LivePermission(db, tenant, q, key) ensures q == p { OneRowPerKey(db, p, q); }
      if identity in d.identities {
        assert Reachable(db, tenant, p, key, identity) <==> db.permissions[p].minAssurance <= d.identities[identity].assurance;
      }
    }
  }

  lemma GrantAgrees(d: Snapshot.Data, db: Catalog.Db, tenant: Id, at: int, g: Snapshot.Grant,
                    identity: Id, key: string, targets: Catalog.Targets, now: int)
    requires Catalog.Valid(db) && Loaded(d, db, tenant, at) && Snapshot.Gates(d, identity, key)
    requires g in Snapshot.GrantsOf(d, identity)
    ensures Snapshot.GrantAllows(d, g, identity, key, targets, now) <==>
            Catalog.GrantAllows(db, g.id, identity, tenant, key, targets, now)
  {
    GatesMeaning(d, db, tenant, identity, key);
    var p :| Reachable(db, tenant, p, key, identity);
    forall q | q in db.permissions && db.permissions[q].tenant == tenant && db.permissions[q].key == key ensures q == p { OneRowPerKey(db, p, q); }
    assert Snapshot.Confers(d, g.role, key) <==> (g.role, p) in db.effective;
    assert Catalog.GrantOk(db, g.id);
    assert Snapshot.Live(g, now) <==> Catalog.GrantLive(db.grants[g.id], now);
    assert Catalog.Candidate(db, g.id, identity, tenant, key, now) <==> Snapshot.Live(g, now) && Snapshot.Confers(d, g.role, key);
    AxesAgree(d, db, tenant, g, targets);
    StrictAgrees(d, db, tenant, g);
  }

  lemma ShareAgrees(d: Snapshot.Data, db: Catalog.Db, tenant: Id, at: int,
                    identity: Id, key: string, record: string, now: int)
    requires Catalog.Valid(db) && Loaded(d, db, tenant, at) && Snapshot.Gates(d, identity, key) && at <= now
    ensures Snapshot.SharedRecordAllows(d, identity, key, record, now) <==>
            exists id :: id in db.shares && Catalog.ShareAllows(db, id, identity, tenant, key, record, now)
  {
    GatesMeaning(d, db, tenant, identity, key);
    var p :| Reachable(db, tenant, p, key, identity);
    if s :| s in Snapshot.SharesOf(d, identity) && s.record == record && s.validUntil > now && key in s.permissions {
      var id :| SharedLive(db, tenant, id, at) && db.shares[id].recipient == identity
                && s == Snapshot.Share(db.shares[id].record, db.shares[id].keys, db.shares[id].validUntil);
      assert Catalog.ShareAllows(db, id, identity, tenant, key, record, now);
    }
    if id :| id in db.shares && Catalog.ShareAllows(db, id, identity, tenant, key, record, now) {
      assert SharedLive(db, tenant, id, at);
      var s := Snapshot.Share(db.shares[id].record, db.shares[id].keys, db.shares[id].validUntil);
      assert s in Snapshot.SharesOf(d, identity);
    }
  }

  // Where a gate fails, no row of authorize() can allow either.
  lemma GatesOutrank(d: Snapshot.Data, db: Catalog.Db, tenant: Id, at: int,
                     identity: Id, key: string, targets: Catalog.Targets, now: int)
    requires Catalog.Valid(db) && Loaded(d, db, tenant, at) && !Snapshot.Gates(d, identity, key)
    ensures !Catalog.Authorize(db, identity, tenant, key, targets, now)
  {
    hide Catalog.AxesOk, Catalog.StrictMissing, ScopeTree.Sound, TreeLoaded, GrantsLoaded, SharesLoaded;
    GatesMeaning(d, db, tenant, identity, key);
    if identity in db.identities {
      forall p | p in db.permissions && db.permissions[p].tenant == tenant && db.permissions[p].key == key
                 && !db.permissions[p].deprecated && db.permissions[p].minAssurance <= db.identities[identity].assurance
        ensures Reachable(db, tenant, p, key, identity)
      {
      }
    }
  }

  lemma EnginesAgree(d: Snapshot.Data, db: Catalog.Db, tenant: Id, at: int,
                     identity: Id, key: string, targets: Catalog.Targets, now: int)
    requires Catalog.Valid(db) && Loaded(d, db, tenant, at) && at <= now
    ensures Snapshot.Evaluate(d, identity, key, targets, now) <==> Catalog.Authorize(db, identity, tenant, key, targets, now)
  {
    hide Snapshot.GrantAllows, Catalog.AxesOk, Catalog.StrictMissing, Catalog.ShareAllows, Snapshot.Gates, ScopeTree.Sound;
    if !Snapshot.Gates(d, identity, key) {
      GatesOutrank(d, db, tenant, at, identity, key, targets, now);
      return;
    }
    if "_record" in targets { ShareAgrees(d, db, tenant, at, identity, key, targets["_record"], now); }
    if g :| g in Snapshot.GrantsOf(d, identity) && Snapshot.GrantAllows(d, g, identity, key, targets, now) {
      GrantAgrees(d, db, tenant, at, g, identity, key, targets, now);
      assert Catalog.GrantAllows(db, g.id, identity, tenant, key, targets, now);
    }
    if id :| id in db.grants && Catalog.GrantAllows(db, id, identity, tenant, key, targets, now) {
      var g :| g in Snapshot.GrantsOf(d, identity) && g.id == id;
      GrantAgrees(d, db, tenant, at, g, identity, key, targets, now);
    }
  }

  // In every database a history of committed transactions can reach, for every tenant, subject,
  // permission, target set (reserved targets included) and every decision time from the load on.
  lemma EnginesNeverDisagree(states: seq<Catalog.Db>, i: nat, d: Snapshot.Data, tenant: Id, at: int,
                             identity: Id, key: string, targets: Catalog.Targets, now: int)
    requires Catalog.History(states) && i < |states|
    requires Loaded(d, states[i], tenant, at) && at <= now
    ensures Snapshot.Evaluate(d, identity, key, targets, now) <==> Catalog.Authorize(states[i], identity, tenant, key, targets, now)
  {
    Catalog.HistoryValid(states, i);
    EnginesAgree(d, states[i], tenant, at, identity, key, targets, now);
  }
}
