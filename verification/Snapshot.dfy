// The gate's frozen state and the decision it takes from it.
module Snapshot {
  import opened Prelude
  import opened ScopeIndex

  datatype Permission = Permission(minAssurance: int)
  datatype Identity = Identity(tokenEpoch: int, blocked: bool, assurance: int)
  // validUntil 0 is Go's zero time: open-ended.
  datatype Grant = Grant(
    id: Id, role: Id, selfScoped: bool, validFrom: int, validUntil: int,
    scopes: map<string, seq<ScopeConstraint>>)
  datatype Share = Share(record: string, permissions: set<string>, validUntil: int)

  datatype Data = Data(
    strictAxes: set<string>,
    scope: Index,
    grantsByIdentity: map<Id, seq<Grant>>,
    sharesByIdentity: map<Id, seq<Share>>,
    rolePermissions: map<Id, set<string>>,
    permissions: map<string, Permission>,
    identities: map<Id, Identity>,
    revokedSessions: set<Id>)

  type Targets = map<string, string>

  function GrantsOf(d: Data, identity: Id): seq<Grant> {
    if identity in d.grantsByIdentity then d.grantsByIdentity[identity] else []
  }

  function SharesOf(d: Data, identity: Id): seq<Share> {
    if identity in d.sharesByIdentity then d.sharesByIdentity[identity] else []
  }

  predicate Confers(d: Data, role: Id, permission: string) {
    role in d.rolePermissions && permission in d.rolePermissions[role]
  }

  predicate Live(g: Grant, now: int) {
    g.validFrom <= now && (g.validUntil == 0 || g.validUntil > now)
  }

  predicate StrictAxesAddressed(d: Data, g: Grant) {
    forall axis :: axis in d.strictAxes ==> axis in g.scopes
  }

  // One axis of a grant against the target named for it; an unnamed or unknown target fails closed.
  predicate AxisSatisfied(d: Data, g: Grant, axis: string, targets: Targets)
    requires Linked(d.scope.parent) && axis in g.scopes
  {
    && axis in targets
    && Resolve(d.scope, targets[axis]).Some?
    && Admitted(d.scope.parent, g.scopes[axis], Resolve(d.scope, targets[axis]).value)
  }

  predicate GrantScopesSatisfied(d: Data, g: Grant, targets: Targets)
    requires Linked(d.scope.parent)
  {
    forall axis :: axis in g.scopes ==> AxisSatisfied(d, g, axis, targets)
  }

  predicate GrantAllows(d: Data, g: Grant, identity: Id, permission: string, targets: Targets, now: int)
    requires Linked(d.scope.parent)
  {
    && Live(g, now)
    && Confers(d, g.role, permission)
    && (!g.selfScoped || ("_owner" in targets && targets["_owner"] == identity))
    && GrantScopesSatisfied(d, g, targets)
    && StrictAxesAddressed(d, g)
  }

  predicate SharedRecordAllows(d: Data, identity: Id, permission: string, record: string, now: int) {
    exists s :: s in SharesOf(d, identity) && s.record == record && s.validUntil > now && permission in s.permissions
  }

  // The identity and permission gates that outrank every grant.
  predicate Gates(d: Data, identity: Id, permission: string) {
    && identity in d.identities && !d.identities[identity].blocked
    && permission in d.permissions
    && d.permissions[permission].minAssurance <= d.identities[identity].assurance
  }

  predicate Evaluate(d: Data, identity: Id, permission: string, targets: Targets, now: int)
    requires Linked(d.scope.parent)
  {
    && Gates(d, identity, permission)
    && (|| (exists g :: g in GrantsOf(d, identity) && GrantAllows(d, g, identity, permission, targets, now))
        || ("_record" in targets && SharedRecordAllows(d, identity, permission, targets["_record"], now)))
  }
}
