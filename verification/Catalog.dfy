// The authorization tables and authorize(), the SQL half of the decision.
module Catalog {
  import opened Prelude
  import opened ScopeTree
  import opened ScopeClosure
  import opened ScopeLevels

  datatype Mode = Include | Exclude

  datatype Identity = Identity(tenant: Id, active: bool, disabled: bool, anonymized: bool, assurance: int)
  datatype Permission = Permission(tenant: Id, key: string, deprecated: bool, minAssurance: int)
  datatype Grant = Grant(
    tenant: Id, identity: Id, role: Id, selfScoped: bool,
    validFrom: int, validUntil: Option<int>, revoked: bool)
  // A grant_scopes row, keyed by (grant, axis, node).
  datatype Place = Place(tenant: Id, inherit: bool, mode: Mode)
  datatype Axis = Axis(deny: bool, active: bool, sortOrder: int)
  datatype Share = Share(
    tenant: Id, recipient: Id, record: string, keys: set<string>, validUntil: int, revoked: bool)

  type PlaceKey = (Id, string, Id)
  type Targets = map<string, string>

  datatype Db = Db(
    scope: Scope,
    axes: map<(Id, string), Axis>,
    identities: map<Id, Identity>,
    permissions: map<Id, Permission>,
    effective: map<(Id, Id), Id>,   // role_permissions_effective: (role, permission) -> via_role
    grants: map<Id, Grant>,
    places: map<PlaceKey, Place>,
    shares: map<Id, Share>)

  // The instant Go's zero time stands for. Every valid_from defaults to now(), which is later.
  const ZERO_TIME := 0

  // ---------------------------------------------------------------- declared constraints

  // key LIKE '\_%'
  predicate Reserved(key: string) {
    |key| > 0 && key[0] == '_'
  }

  predicate GrantOk(db: Db, id: Id)
    requires id in db.grants
  {
    var g := db.grants[id];
    && g.identity in db.identities && db.identities[g.identity].tenant == g.tenant
    && ZERO_TIME < g.validFrom
    && (g.validUntil.Some? ==> g.validFrom < g.validUntil.value)
  }

  // Foreign keys of grant_scopes, and the two guards on it: a self-scoped grant names no place.
  predicate PlaceOk(db: Db, key: PlaceKey)
    requires key in db.places
  {
    var p, (g, axis, node) := db.places[key], key;
    && g in db.grants && db.grants[g].tenant == p.tenant && !db.grants[g].selfScoped
    && (p.tenant, axis) in db.axes
    && node in db.scope.nodes && db.scope.nodes[node].tenant == p.tenant && db.scope.nodes[node].axis == axis
  }

  predicate ShareOk(db: Db, id: Id)
    requires id in db.shares
  {
    var s := db.shares[id];
    s.recipient in db.identities && db.identities[s.recipient].tenant == s.tenant
  }

  predicate SameKey(p: Permission, q: Permission) {
    p.tenant == q.tenant && p.key == q.key
  }

  predicate Constraints(db: Db) {
    && (forall id {:trigger GrantOk(db, id)} :: id in db.grants ==> GrantOk(db, id))
    && (forall key {:trigger PlaceOk(db, key)} :: key in db.places ==> PlaceOk(db, key))
    && (forall id {:trigger ShareOk(db, id)} :: id in db.shares ==> ShareOk(db, id))
    && (forall a {:trigger Reserved(a.1)} :: a in db.axes ==> !Reserved(a.1))
    && (forall x, y {:trigger SameKey(db.permissions[x], db.permissions[y])} ::
          x in db.permissions && y in db.permissions && SameKey(db.permissions[x], db.permissions[y]) ==> x == y)
    && "" !in db.scope.nodes
  }

  ghost predicate Valid(db: Db) {
    Sound(db.scope) && Constraints(db)
  }

  // ---------------------------------------------------------------- authorize()

  // EXISTS over targets JOIN scope_closure: the row's node is above the target named for its axis.
  predicate PlaceCovers(db: Db, key: PlaceKey, targets: Targets)
    requires key in db.places
  {
    var (_, axis, node) := key;
    && axis in targets && !Reserved(axis)
    && (node, targets[axis]) in db.scope.closure
    && (db.places[key].inherit || db.scope.closure[(node, targets[axis])] == 0)
  }

  function Case(db: Db, key: PlaceKey, targets: Targets): int
    requires key in db.places
  {
    if !PlaceCovers(db, key, targets) then 2
    else if db.places[key].mode == Exclude then 0
    else 1
  }

  // The rows of one group of axis_eval.
  function PlacesOn(db: Db, grant: Id, axis: string): set<PlaceKey> {
    set key | key in db.places && key.0 == grant && key.1 == axis
  }

  function CasesOn(db: Db, grant: Id, axis: string, targets: Targets): set<int> {
    set key | key in db.places && key.0 == grant && key.1 == axis :: Case(db, key, targets)
  }

  // A group only exists for an axis the grant names; for any other axis there is nothing to satisfy.
  predicate AxisSatisfied(db: Db, grant: Id, axis: string, targets: Targets) {
    CasesOn(db, grant, axis, targets) != {} ==> MinOf(CasesOn(db, grant, axis, targets)) == 1
  }

  predicate IdentityLive(i: Identity) {
    i.active && !i.disabled && !i.anonymized
  }

  predicate GrantLive(g: Grant, now: int) {
    !g.revoked && g.validFrom <= now && (g.validUntil == None || g.validUntil.value > now)
  }

  // The role confers this permission row, which is the one the caller asked about.
  predicate Confers(db: Db, role: Id, permission: Id, tenant: Id, key: string) {
    && (role, permission) in db.effective
    && permission in db.permissions
    && db.permissions[permission].tenant == tenant && db.permissions[permission].key == key
  }

  predicate Candidate(db: Db, id: Id, identity: Id, tenant: Id, key: string, now: int) {
    id in db.grants &&
    var g := db.grants[id];
    && g.identity == identity && g.tenant == tenant && GrantLive(g, now)
    && identity in db.identities && db.identities[identity].tenant == g.tenant
    && IdentityLive(db.identities[identity])
    && exists p :: p in db.permissions && Confers(db, g.role, p, tenant, key)
                   && !db.permissions[p].deprecated
                   && db.permissions[p].minAssurance <= db.identities[identity].assurance
  }

  predicate SelfOk(g: Grant, identity: Id, targets: Targets) {
    !g.selfScoped || ("_owner" in targets && targets["_owner"] == identity)
  }

  predicate AxesOk(db: Db, id: Id, targets: Targets) {
    forall key :: key in db.places && key.0 == id ==> AxisSatisfied(db, id, key.1, targets)
  }

  predicate Strict(db: Db, tenant: Id, axis: string) {
    (tenant, axis) in db.axes && db.axes[(tenant, axis)].deny && db.axes[(tenant, axis)].active
  }

  function StrictMissing(db: Db, id: Id, tenant: Id): set<string> {
    set a | a in db.axes && a.0 == tenant && Strict(db, tenant, a.1) && PlacesOn(db, id, a.1) == {} :: a.1
  }

  predicate ShareLive(s: Share, identity: Id, tenant: Id, record: string, now: int) {
    s.tenant == tenant && s.recipient == identity && s.record == record && !s.revoked && s.validUntil > now
  }

  predicate ShareAllows(db: Db, id: Id, identity: Id, tenant: Id, key: string, record: string, now: int) {
    id in db.shares &&
    var s := db.shares[id];
    && ShareLive(s, identity, tenant, record, now)
    && identity in db.identities && db.identities[identity].tenant == s.tenant
    && IdentityLive(db.identities[identity])
    && key in s.keys
    && exists p :: p in db.permissions && db.permissions[p].tenant == s.tenant && db.permissions[p].key == key
                   && !db.permissions[p].deprecated
                   && db.permissions[p].minAssurance <= db.identities[identity].assurance
  }

  predicate GrantAllows(db: Db, id: Id, identity: Id, tenant: Id, key: string, targets: Targets, now: int) {
    && Candidate(db, id, identity, tenant, key, now)
    && SelfOk(db.grants[id], identity, targets)
    && AxesOk(db, id, targets)
    && StrictMissing(db, id, tenant) == {}
  }

  predicate Authorize(db: Db, identity: Id, tenant: Id, key: string, targets: Targets, now: int) {
    || (exists id :: id in db.grants && GrantAllows(db, id, identity, tenant, key, targets, now))
    || ("_record" in targets
        && exists id :: id in db.shares && ShareAllows(db, id, identity, tenant, key, targets["_record"], now))
  }

  // ---------------------------------------------------------------- what the aggregate means

  // The min over CASE answers "some include covers the target and no exclude does".
  lemma MinCaseMeaning(db: Db, grant: Id, axis: string, targets: Targets)
    requires PlacesOn(db, grant, axis) != {}
    ensures AxisSatisfied(db, grant, axis, targets) <==>
            && (exists key :: key in PlacesOn(db, grant, axis) && db.places[key].mode == Include && PlaceCovers(db, key, targets))
            && (forall key :: key in PlacesOn(db, grant, axis) && db.places[key].mode == Exclude ==> !PlaceCovers(db, key, targets))
  {
    var cases := CasesOn(db, grant, axis, targets);
    var row := Member(PlacesOn(db, grant, axis));
    assert Case(db, row, targets) in cases;
    var least := MinOf(cases);
    var settled :| settled in db.places && settled.0 == grant && settled.1 == axis && least == Case(db, settled, targets);
    forall key | key in PlacesOn(db, grant, axis)
      ensures least <= Case(db, key, targets)
    {
      assert Case(db, key, targets) in cases;
    }
    assert settled in PlacesOn(db, grant, axis);
  }

  // ---------------------------------------------------------------- every reachable database

  predicate SameElsewhere(db: Db, db': Db) {
    db' == db.(scope := db'.scope)
  }

  // A committed transaction: a scope routine ran or a level was edited, or the other tables were
  // rewritten in any way their declared constraints accept.
  ghost predicate Next(db: Db, db': Db) {
    && Constraints(db')
    && (|| db'.scope == db.scope
        || (SameElsewhere(db, db') && exists c: Change ::
              OneTop(db.scope.levels) && Uniques(db.scope.nodes) && db'.scope == Changed(db.scope, c)))
  }

  ghost predicate Initial(db: Db) {
    && OneTop(db.scope.levels) && Legal(db.scope.levels) && db.scope.nodes == map[] && db.scope.closure == map[]
    && Constraints(db)
  }

  ghost predicate History(states: seq<Db>) {
    && |states| > 0 && Initial(states[0])
    && forall i :: 0 <= i < |states| - 1 ==> Next(states[i], states[i + 1])
  }

  lemma {:induction false} HistoryValid(states: seq<Db>, i: nat)
    requires History(states) && i < |states|
    ensures Valid(states[i]) && Legal(states[i].scope.levels)
  {
    hide Sound, Legal, Constraints;
    if i > 0 {
      HistoryValid(states, i - 1);
      var db, db' := states[i - 1], states[i];
      assert Next(db, db');
      if db'.scope != db.scope {
        var c: Change :| OneTop(db.scope.levels) && Uniques(db.scope.nodes) && db'.scope == Changed(db.scope, c);
        ChangeKeepsSound(db.scope, c);
      }
    } else {
      EmptyIsSound(states[0].scope);
    }
  }

  lemma EmptyIsSound(scope: Scope)
    requires OneTop(scope.levels) && scope.nodes == map[] && scope.closure == map[]
    ensures Sound(scope)
  {
  }
}
