// Loading the gate's frozen state from a database: it always succeeds in delivering what the
// parity of the two engines asks of a snapshot. A query's rows come in any order.
module SnapshotLoad {
  import opened Prelude
  import opened ScopeTree
  import opened ScopeClosure
  import opened ScopeIndex
  import opened Parity
  import Catalog
  import Snapshot

  // ---------------------------------------------------------------- the hierarchy

  function NodeRow(nodes: Nodes, id: Id): ScopeNode
    requires id in nodes
  {
    ScopeNode(id, if nodes[id].parent.Some? then nodes[id].parent.value else "")
  }

  // The rows read so far are those of the nodes done, once each.
  ghost predicate RowsOf(nodes: Nodes, done: set<Id>, rows: seq<ScopeNode>) {
    && (forall id :: id in done <==> exists i :: 0 <= i < |rows| && rows[i].id == id)
    && (forall i :: 0 <= i < |rows| ==> IsRow(nodes, rows[i]))
    && (forall i, j :: 0 <= i < j < |rows| ==> rows[i].id != rows[j].id)
  }

  lemma OneMoreRow(nodes: Nodes, done: set<Id>, rows: seq<ScopeNode>, id: Id)
    requires RowsOf(nodes, done, rows) && id in nodes && id !in done
    ensures RowsOf(nodes, done + {id}, rows + [NodeRow(nodes, id)])
  {
    var rows' := rows + [NodeRow(nodes, id)];
    forall d ensures d in done + {id} <==> exists i :: 0 <= i < |rows'| && rows'[i].id == d {
      if i :| 0 <= i < |rows| && rows[i].id == d { assert rows'[i].id == d; }
      assert rows'[|rows|].id == id;
    }
  }

  method LoadScope(db: Catalog.Db, tenant: Id) returns (x: Index)
    requires Catalog.Valid(db)
    ensures TreeLoaded(x, db.scope.nodes, tenant)
  {
    hide Catalog.Valid, RowsOf, NodeRow, TreeLoaded;
    var all := set id | id in db.scope.nodes && InTenant(db.scope.nodes, tenant, id);
    var todo, rows: seq<ScopeNode> := all, [];
    NoRows(db.scope.nodes);
    assert all - todo == {};
    while todo != {}
      invariant todo <= all && RowsOf(db.scope.nodes, all - todo, rows)
      decreases |todo|
    {
      var id :| id in todo;
      OneMoreRow(db.scope.nodes, all - todo, rows, id);
      assert all - todo + {id} == all - (todo - {id});
      rows := rows + [NodeRow(db.scope.nodes, id)];
      todo := todo - {id};
    }
    assert all - todo == all;
    x := NewScopeIndex(rows);
    IndexIsTree(x, rows, db, tenant, all);
  }

  lemma NoRows(nodes: Nodes)
    ensures RowsOf(nodes, {}, [])
  {
  }

  lemma IndexIsTree(x: Index, rows: seq<ScopeNode>, db: Catalog.Db, tenant: Id, all: set<Id>)
    requires Catalog.Valid(db) && Numbers(x.idx, rows, |rows|) && Linked(x.parent) && |x.parent| == |rows|
    requires forall i :: 0 <= i < |rows| ==> x.parent[i] == ParentIndex(x.idx, rows[i].parent)
    requires forall id :: id in all <==> InTenant(db.scope.nodes, tenant, id)
    requires RowsOf(db.scope.nodes, all, rows)
    ensures TreeLoaded(x, db.scope.nodes, tenant)
  {
    hide Catalog.Valid;
    var nodes := db.scope.nodes;
    IdsAreRows(x, rows, nodes, all);
    forall id | id in x.idx && nodes[id].parent.Some? ensures nodes[id].parent.value != "" && nodes[id].parent.value in x.idx {
      ParentIsLoaded(db, id);
      assert InTenant(nodes, tenant, nodes[id].parent.value);
    }
    hide RowsOf, Numbers;
    forall id | id in x.idx ensures PointerOk(x, nodes, id) { assert rows[x.idx[id]] == NodeRow(nodes, id); }
  }

  lemma IdsAreRows(x: Index, rows: seq<ScopeNode>, nodes: Nodes, all: set<Id>)
    requires Numbers(x.idx, rows, |rows|) && RowsOf(nodes, all, rows)
    ensures forall id :: id in x.idx <==> id in all
    ensures forall id :: id in x.idx ==> 0 <= x.idx[id] < |rows| && id in nodes && rows[x.idx[id]] == NodeRow(nodes, id)
  {
    hide NodeRow;
    forall id | id in x.idx ensures 0 <= x.idx[id] < |rows| && rows[x.idx[id]].id == id {}
  }

  predicate IsRow(nodes: Nodes, row: ScopeNode) {
    row.id in nodes && row == NodeRow(nodes, row.id)
  }

  lemma ParentIsLoaded(db: Catalog.Db, id: Id)
    requires Catalog.Valid(db) && id in db.scope.nodes && db.scope.nodes[id].parent.Some?
    ensures var p := db.scope.nodes[id].parent.value;
            p != "" && p in db.scope.nodes && db.scope.nodes[p].tenant == db.scope.nodes[id].tenant
  {
    assert ParentOk(db.scope.nodes, id);
  }

  // ---------------------------------------------------------------- grants

  type Scopes = map<string, seq<ScopeConstraint>>

  function RawConstraint(db: Catalog.Db, key: Catalog.PlaceKey): ScopeConstraint
    requires key in db.places
  {
    ScopeConstraint(key.2, db.places[key].inherit, db.places[key].mode == Catalog.Exclude, 0)
  }

  // The constraints of one grant are its places among the rows read so far, grouped by axis.
  ghost predicate Gathered(db: Catalog.Db, done: set<Catalog.PlaceKey>, id: Id, scopes: Scopes)
    requires done <= db.places.Keys
  {
    && (forall axis :: axis in scopes <==> exists key :: key in done && key.0 == id && key.1 == axis)
    && (forall key {:trigger RawConstraint(db, key)} :: key in done && key.0 == id ==>
          key.1 in scopes && RawConstraint(db, key) in scopes[key.1])
    && (forall axis, c :: axis in scopes && c in scopes[axis] ==>
          exists key :: key in done && key.0 == id && key.1 == axis && c == RawConstraint(db, key))
  }

  function WithConstraint(scopes: Scopes, axis: string, c: ScopeConstraint): Scopes {
    scopes[axis := (if axis in scopes then scopes[axis] else []) + [c]]
  }

  lemma GatherMore(db: Catalog.Db, done: set<Catalog.PlaceKey>, key: Catalog.PlaceKey, id: Id, scopes: Scopes)
    requires done <= db.places.Keys && key in db.places && Gathered(db, done, id, scopes)
    ensures Gathered(db, done + {key}, id, if key.0 == id then WithConstraint(scopes, key.1, RawConstraint(db, key)) else scopes)
  {
    var scopes' := if key.0 == id then WithConstraint(scopes, key.1, RawConstraint(db, key)) else scopes;
    forall axis, c | axis in scopes' && c in scopes'[axis]
      ensures exists k :: k in done + {key} && k.0 == id && k.1 == axis && c == RawConstraint(db, k)
    {
      if axis in scopes && c in scopes[axis] {
        var k :| k in done && k.0 == id && k.1 == axis && c == RawConstraint(db, k);
        assert k in done + {key};
      } else {
        assert key in done + {key};
      }
    }
    forall axis ensures axis in scopes' <==> exists k :: k in done + {key} && k.0 == id && k.1 == axis {
      if axis in scopes {
        var k :| k in done && k.0 == id && k.1 == axis;
        assert k in done + {key};
      }
      assert key in done + {key};
    }
  }

  method LoadScopes(db: Catalog.Db, ids: set<Id>) returns (byGrant: map<Id, Scopes>)
    ensures byGrant.Keys == ids && forall id :: id in ids ==> Gathered(db, db.places.Keys, id, byGrant[id])
  {
    byGrant := map id | id in ids :: map[];
    var todo := db.places.Keys;
    while todo != {}
      invariant todo <= db.places.Keys && byGrant.Keys == ids
      invariant forall id :: id in ids ==> Gathered(db, db.places.Keys - todo, id, byGrant[id])
      decreases |todo|
    {
      hide Gathered;
      var key :| key in todo;
      ghost var done, was := db.places.Keys - todo, byGrant;
      if key.0 in byGrant {
        byGrant := byGrant[key.0 := WithConstraint(byGrant[key.0], key.1, RawConstraint(db, key))];
      }
      todo := todo - {key};
      assert db.places.Keys - todo == done + {key};
      forall id | id in ids ensures Gathered(db, done + {key}, id, byGrant[id]) { GatherMore(db, done, key, id, was[id]); }
    }
    assert db.places.Keys - todo == db.places.Keys;
  }

  function AllInterned(x: Index, cs: seq<ScopeConstraint>): (r: seq<ScopeConstraint>)
    ensures |r| == |cs| && forall i :: 0 <= i < |cs| ==> r[i] == Interned(x, cs[i])
  {
    seq(|cs|, i requires 0 <= i < |cs| => Interned(x, cs[i]))
  }

  // A grant as it is read, nothing resolved yet.
  function GrantRow(db: Catalog.Db, id: Id, scopes: Scopes): Snapshot.Grant
    requires id in db.grants
  {
    var row := db.grants[id];
    Snapshot.Grant(id, row.role, row.selfScoped, row.validFrom, if row.validUntil.Some? then row.validUntil.value else 0, scopes)
  }

  function InternedScopes(x: Index, scopes: Scopes): Scopes {
    map axis | axis in scopes :: AllInterned(x, scopes[axis])
  }

  function InternedGrant(x: Index, g: Snapshot.Grant): Snapshot.Grant {
    g.(scopes := InternedScopes(x, g.scopes))
  }

  function InternedGrants(x: Index, grants: seq<Snapshot.Grant>): (r: seq<Snapshot.Grant>)
    ensures |r| == |grants| && forall i :: 0 <= i < |grants| ==> r[i] == InternedGrant(x, grants[i])
  {
    seq(|grants|, i requires 0 <= i < |grants| => InternedGrant(x, grants[i]))
  }

  // Each axis's constraints are resolved in place.
  method InternScopes(x: Index, scopes: Scopes) returns (r: Scopes)
    ensures r == InternedScopes(x, scopes)
  {
    r := scopes;
    var todo := scopes.Keys;
    while todo != {}
      invariant todo <= scopes.Keys == r.Keys
      invariant forall axis :: axis in scopes ==> r[axis] == if axis in todo then scopes[axis] else AllInterned(x, scopes[axis])
      decreases |todo|
    {
      var axis :| axis in todo;
      var raw := scopes[axis];
      var cs := new ScopeConstraint[|raw|](i requires 0 <= i < |raw| => raw[i]);
      Intern(x, cs);
      assert cs[..] == AllInterned(x, raw);
      r := r[axis := cs[..]];
      todo := todo - {axis};
    }
  }

  method InternGrantScopes(x: Index, lists: map<Id, seq<Snapshot.Grant>>) returns (r: map<Id, seq<Snapshot.Grant>>)
    ensures r.Keys == lists.Keys && forall identity :: identity in lists ==> r[identity] == InternedGrants(x, lists[identity])
  {
    r := lists;
    var todo := lists.Keys;
    while todo != {}
      invariant todo <= lists.Keys == r.Keys
      invariant forall k :: k in lists ==> r[k] == if k in todo then lists[k] else InternedGrants(x, lists[k])
      decreases |todo|
    {
      hide InternedGrant;
      var identity :| identity in todo;
      var grants := lists[identity];
      for i := 0 to |grants|
        invariant |grants| == |lists[identity]|
        invariant forall j :: 0 <= j < |grants| ==>
                    grants[j] == if j < i then InternedGrant(x, lists[identity][j]) else lists[identity][j]
      {
        var scopes := InternScopes(x, grants[i].scopes);
        InternedIs(x, grants[i]);
        grants := grants[i := grants[i].(scopes := scopes)];
      }
      assert grants == InternedGrants(x, lists[identity]);
      r := r[identity := grants];
      todo := todo - {identity};
    }
  }

  lemma InternedIs(x: Index, g: Snapshot.Grant)
    ensures InternedGrant(x, g) == g.(scopes := InternedScopes(x, g.scopes))
  {
  }

  lemma RowIsLoaded(x: Index, db: Catalog.Db, id: Id, scopes: Scopes)
    requires id in db.grants && Gathered(db, db.places.Keys, id, scopes)
    ensures GrantLoaded(x, db, id, InternedGrant(x, GrantRow(db, id, scopes)))
  {
    var g := InternedGrant(x, GrantRow(db, id, scopes));
    forall axis ensures axis in g.scopes <==> Catalog.PlacesOn(db, id, axis) != {} {
      if axis in scopes {
        var key :| key in db.places.Keys && key.0 == id && key.1 == axis;
        assert key in Catalog.PlacesOn(db, id, axis);
      }
      if Catalog.PlacesOn(db, id, axis) != {} {
        var key :| key in Catalog.PlacesOn(db, id, axis);
      }
    }
    forall axis | axis in g.scopes ensures AxisLoaded(x, db, id, axis, g.scopes[axis]) {
      forall key | key in Catalog.PlacesOn(db, id, axis) ensures ConstraintOf(x, key.2, db.places[key]) in g.scopes[axis] {
        var raw := RawConstraint(db, key);
        var i :| 0 <= i < |scopes[axis]| && scopes[axis][i] == raw;
        assert g.scopes[axis][i] == Interned(x, raw);
      }
      forall c | c in g.scopes[axis]
        ensures exists key :: key in Catalog.PlacesOn(db, id, axis) && c == ConstraintOf(x, key.2, db.places[key])
      {
        var i :| 0 <= i < |g.scopes[axis]| && g.scopes[axis][i] == c;
        assert scopes[axis][i] in scopes[axis];
        var key :| key in db.places.Keys && key.0 == id && key.1 == axis && scopes[axis][i] == RawConstraint(db, key);
        assert key in Catalog.PlacesOn(db, id, axis);
      }
    }
  }

  predicate Held(db: Catalog.Db, tenant: Id, id: Id) {
    id in db.grants && !db.grants[id].revoked && db.grants[id].tenant == tenant
  }

  // Each identity's list holds the grants done so far, and nothing else.
  ghost predicate Filed(db: Catalog.Db, byGrant: map<Id, Scopes>, done: set<Id>, lists: map<Id, seq<Snapshot.Grant>>) {
    && (forall id :: id in done ==> id in db.grants && id in byGrant)
    && (forall id :: id in done ==>
          db.grants[id].identity in lists && GrantRow(db, id, byGrant[id]) in lists[db.grants[id].identity])
    && (forall identity, g :: identity in lists && g in lists[identity] ==>
          g.id in done && db.grants[g.id].identity == identity && g == GrantRow(db, g.id, byGrant[g.id]))
  }

  method LoadGrants(x: Index, db: Catalog.Db, tenant: Id) returns (lists: map<Id, seq<Snapshot.Grant>>)
    ensures forall d: Snapshot.Data :: d.scope == x && d.grantsByIdentity == lists ==> GrantsLoaded(d, db, tenant)
  {
    hide GrantLoaded, Gathered, GrantRow, Filed, GrantsLoaded, InternedGrant;
    var ids := set id | id in db.grants && Held(db, tenant, id);
    var byGrant := LoadScopes(db, ids);
    lists := map[];
    var todo := ids;
    assert ids - todo == {};
    NothingFiled(db, byGrant);
    while todo != {}
      invariant todo <= ids && Filed(db, byGrant, ids - todo, lists)
      decreases |todo|
    {
      var id :| id in todo;
      FileMore(db, byGrant, ids - todo, lists, id);
      assert ids - todo + {id} == ids - (todo - {id});
      var identity := db.grants[id].identity;
      lists := lists[identity := (if identity in lists then lists[identity] else []) + [GrantRow(db, id, byGrant[id])]];
      todo := todo - {id};
    }
    assert ids - todo == ids;
    ghost var read := lists;
    lists := InternGrantScopes(x, lists);
    forall d: Snapshot.Data | d.scope == x && d.grantsByIdentity == lists ensures GrantsLoaded(d, db, tenant) {
      FiledIsLoaded(d, db, tenant, byGrant, ids, read);
    }
  }

  lemma FiledIsLoaded(
      d: Snapshot.Data, db: Catalog.Db, tenant: Id, byGrant: map<Id, Scopes>, ids: set<Id>, read: map<Id, seq<Snapshot.Grant>>)
    requires Filed(db, byGrant, ids, read) && (forall id :: id in ids <==> Held(db, tenant, id))
    requires d.grantsByIdentity.Keys == read.Keys
    requires forall identity :: identity in read ==> d.grantsByIdentity[identity] == InternedGrants(d.scope, read[identity])
    requires forall id :: id in ids ==> Gathered(db, db.places.Keys, id, byGrant[id])
    ensures GrantsLoaded(d, db, tenant)
  {
    hide GrantLoaded, Gathered;
    forall identity, g | g in Snapshot.GrantsOf(d, identity)
      ensures GrantLoaded(d.scope, db, g.id, g) && Held(db, tenant, g.id) && db.grants[g.id].identity == identity
    {
      var i :| 0 <= i < |read[identity]| && d.grantsByIdentity[identity][i] == g;
      assert g == InternedGrant(d.scope, read[identity][i]) && read[identity][i] in read[identity];
      RowIsLoaded(d.scope, db, g.id, byGrant[g.id]);
    }
    forall id | Held(db, tenant, id) ensures exists g :: g in Snapshot.GrantsOf(d, db.grants[id].identity) && g.id == id {
      assert id in ids;
      var identity, row := db.grants[id].identity, GrantRow(db, id, byGrant[id]);
      var i :| 0 <= i < |read[identity]| && read[identity][i] == row;
      assert d.grantsByIdentity[identity][i].id == id;
    }
  }

  lemma NothingFiled(db: Catalog.Db, byGrant: map<Id, Scopes>)
    ensures Filed(db, byGrant, {}, map[])
  {
  }

  lemma FileMore(db: Catalog.Db, byGrant: map<Id, Scopes>, done: set<Id>, lists: map<Id, seq<Snapshot.Grant>>, id: Id)
    requires Filed(db, byGrant, done, lists) && id in db.grants && id in byGrant
    ensures var identity, g := db.grants[id].identity, GrantRow(db, id, byGrant[id]);
            Filed(db, byGrant, done + {id}, lists[identity := (if identity in lists then lists[identity] else []) + [g]])
  {
  }

  // ---------------------------------------------------------------- the rest

  method LoadShares(db: Catalog.Db, tenant: Id, at: int) returns (lists: map<Id, seq<Snapshot.Share>>)
    ensures forall d: Snapshot.Data :: d.sharesByIdentity == lists ==> SharesLoaded(d, db, tenant, at)
  {
    lists := map[];
    var all := set id | id in db.shares && SharedLive(db, tenant, id, at);
    var todo := all;
    while todo != {}
      invariant todo <= all
      invariant forall identity, s :: identity in lists && s in lists[identity] ==>
                  exists id :: id in all && db.shares[id].recipient == identity && s == ShareOfRow(db, id)
      invariant forall id :: id in all && id !in todo ==>
                  db.shares[id].recipient in lists && ShareOfRow(db, id) in lists[db.shares[id].recipient]
      decreases |todo|
    {
      var id :| id in todo;
      var identity := db.shares[id].recipient;
      lists := lists[identity := (if identity in lists then lists[identity] else []) + [ShareOfRow(db, id)]];
      todo := todo - {id};
    }
  }

  function ShareOfRow(db: Catalog.Db, id: Id): Snapshot.Share
    requires id in db.shares
  {
    Snapshot.Share(db.shares[id].record, db.shares[id].keys, db.shares[id].validUntil)
  }

  // The edges to the tenant's live permissions, by role.
  function LoadRolePermissions(db: Catalog.Db, tenant: Id): map<Id, set<string>> {
    var edges := set e | e in db.effective && e.1 in db.permissions && LivePermission(db, tenant, e.1, db.permissions[e.1].key);
    var roles := set e | e in edges :: e.0;
    map role | role in roles :: set e | e in edges && e.0 == role :: db.permissions[e.1].key
  }

  lemma RolesAreLoaded(db: Catalog.Db, tenant: Id, role: Id, key: string)
    ensures var roles := LoadRolePermissions(db, tenant);
            role in roles && key in roles[role] <==> exists p :: LivePermission(db, tenant, p, key) && (role, p) in db.effective
  {
    var roles := LoadRolePermissions(db, tenant);
    if role in roles && key in roles[role] {
      var e :| e in db.effective && e.1 in db.permissions && LivePermission(db, tenant, e.1, db.permissions[e.1].key)
               && e.0 == role && db.permissions[e.1].key == key;
      assert LivePermission(db, tenant, e.1, key) && (role, e.1) in db.effective;
    }
  }

  method LoadPermissions(db: Catalog.Db, tenant: Id) returns (permissions: map<string, Snapshot.Permission>)
    ensures forall key :: key in permissions ==>
              exists p :: LivePermission(db, tenant, p, key) && permissions[key].minAssurance == db.permissions[p].minAssurance
    ensures forall p, key :: LivePermission(db, tenant, p, key) ==> key in permissions
  {
    permissions := map[];
    var all := set p | p in db.permissions && db.permissions[p].tenant == tenant && !db.permissions[p].deprecated;
    var todo := all;
    while todo != {}
      invariant todo <= all
      invariant forall key :: key in permissions ==>
                  exists p :: LivePermission(db, tenant, p, key) && permissions[key].minAssurance == db.permissions[p].minAssurance
      invariant forall p :: p in all && p !in todo ==> db.permissions[p].key in permissions
      decreases |todo|
    {
      var p :| p in todo;
      assert LivePermission(db, tenant, p, db.permissions[p].key);
      permissions := permissions[db.permissions[p].key := Snapshot.Permission(db.permissions[p].minAssurance)];
      todo := todo - {p};
    }
  }

  function LoadIdentities(db: Catalog.Db, tenant: Id, epochs: map<Id, int>): map<Id, Snapshot.Identity> {
    map id | id in db.identities && db.identities[id].tenant == tenant ::
      var row := db.identities[id];
      var blocked := row.disabled || row.anonymized;
      Snapshot.Identity(if id in epochs then epochs[id] else 0, blocked || !row.active, row.assurance)
  }

  // Every sound database can be loaded for every tenant, and what is loaded is a faithful copy.
  method LoadSnapshot(db: Catalog.Db, tenant: Id, at: int, epochs: map<Id, int>, revokedSessions: set<Id>) returns (d: Snapshot.Data)
    requires Catalog.Valid(db)
    ensures Loaded(d, db, tenant, at)
    ensures d.revokedSessions == revokedSessions
    ensures forall id :: id in d.identities ==> d.identities[id].tokenEpoch == if id in epochs then epochs[id] else 0
  {
    hide Catalog.Valid, TreeLoaded, GrantsLoaded, SharesLoaded;
    var strict := set a | a in db.axes && a.0 == tenant && db.axes[a].active && db.axes[a].deny :: a.1;
    forall axis ensures axis in strict <==> DeniesByDefault(db, tenant, axis) {
      if DeniesByDefault(db, tenant, axis) { assert (tenant, axis) in db.axes; }
    }
    var scope := LoadScope(db, tenant);
    var grants := LoadGrants(scope, db, tenant);
    var shares := LoadShares(db, tenant, at);
    var roles := LoadRolePermissions(db, tenant);
    forall role, key
      ensures role in roles && key in roles[role] <==> exists p :: LivePermission(db, tenant, p, key) && (role, p) in db.effective
    {
      RolesAreLoaded(db, tenant, role, key);
    }
    var permissions := LoadPermissions(db, tenant);
    d := Snapshot.Data(strict, scope, grants, shares, roles, permissions, LoadIdentities(db, tenant, epochs), revokedSessions);
  }
}
