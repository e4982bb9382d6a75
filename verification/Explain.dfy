// authorize_explain(): the same decision taken apart, and why the parts add up to the verdict.
module Explain {
  import opened Prelude
  import opened Catalog

  // ---------------------------------------------------------------- gates

  predicate IdentityFound(db: Db, identity: Id, tenant: Id) {
    identity in db.identities && db.identities[identity].tenant == tenant
  }

  predicate IdentityOk(db: Db, identity: Id, tenant: Id) {
    IdentityFound(db, identity, tenant) &&
    var row := db.identities[identity];
    row.active && !row.disabled && !row.anonymized
  }

  // The rows of the perm CTE; (tenant, key) is unique, so there is at most one.
  predicate PermRow(db: Db, p: Id, tenant: Id, key: string) {
    p in db.permissions && db.permissions[p].tenant == tenant && db.permissions[p].key == key
  }

  predicate PermissionFound(db: Db, tenant: Id, key: string) {
    exists p :: p in db.permissions && PermRow(db, p, tenant, key)
  }

  predicate PermissionLive(db: Db, tenant: Id, key: string) {
    exists p :: p in db.permissions && PermRow(db, p, tenant, key) && !db.permissions[p].deprecated
  }

  predicate AssuranceOk(db: Db, identity: Id, tenant: Id, key: string) {
    IdentityFound(db, identity, tenant) &&
    exists p :: p in db.permissions && PermRow(db, p, tenant, key)
                && db.permissions[p].minAssurance <= db.identities[identity].assurance
  }

  // ---------------------------------------------------------------- one line per grant held

  // A grant of the identity that is in force and whose role confers the permission. Unlike
  // authorize()'s candidates, it is listed whatever state the identity and the permission are in.
  predicate Cand(db: Db, id: Id, identity: Id, tenant: Id, key: string, now: int) {
    id in db.grants &&
    var g := db.grants[id];
    && g.identity == identity && g.tenant == tenant && GrantLive(g, now)
    && exists p :: p in db.permissions && Confers(db, g.role, p, tenant, key)
  }

  // axis_probe joins scope_nodes for the place's name.
  predicate Probed(db: Db, key: PlaceKey, grant: Id, axis: string) {
    key in db.places && key.0 == grant && key.1 == axis && key.2 in db.scope.nodes
  }

  // bool_or(mode = m AND covers) over one group
  predicate BoolOr(db: Db, grant: Id, axis: string, targets: Targets, mode: Mode) {
    exists key :: key in db.places && Probed(db, key, grant, axis) && db.places[key].mode == mode && PlaceCovers(db, key, targets)
  }

  predicate AxisOk(db: Db, grant: Id, axis: string, targets: Targets) {
    BoolOr(db, grant, axis, targets, Include) && !BoolOr(db, grant, axis, targets, Exclude)
  }

  predicate LineAxesOk(db: Db, grant: Id, targets: Targets) {
    forall key :: key in db.places && Probed(db, key, grant, key.1) ==> AxisOk(db, grant, key.1, targets)
  }

  predicate LineAllowed(db: Db, id: Id, identity: Id, tenant: Id, targets: Targets)
    requires id in db.grants
  {
    && SelfOk(db.grants[id], identity, targets)
    && LineAxesOk(db, id, targets)
    && StrictMissing(db, id, tenant) == {}
  }

  predicate SomeLineAllowed(db: Db, identity: Id, tenant: Id, key: string, targets: Targets, now: int) {
    exists id :: id in db.grants && Cand(db, id, identity, tenant, key, now) && LineAllowed(db, id, identity, tenant, targets)
  }

  // A listed share, and the mark on it.
  predicate SomeShareAllowed(db: Db, identity: Id, tenant: Id, key: string, targets: Targets, now: int) {
    "_record" in targets &&
    exists id :: id in db.shares && ShareLive(db.shares[id], identity, tenant, targets["_record"], now) && key in db.shares[id].keys
  }

  // ---------------------------------------------------------------- the parts add up

  // The two ways of folding one axis, min over CASE and a pair of bool_or, agree.
  lemma FoldsAgree(db: Db, grant: Id, axis: string, targets: Targets)
    requires Constraints(db) && PlacesOn(db, grant, axis) != {}
    ensures AxisOk(db, grant, axis, targets) <==> AxisSatisfied(db, grant, axis, targets)
  {
    MinCaseMeaning(db, grant, axis, targets);
    forall key | key in PlacesOn(db, grant, axis) ensures Probed(db, key, grant, axis) { assert PlaceOk(db, key); }
  }

  lemma AxesFoldsAgree(db: Db, grant: Id, targets: Targets)
    requires Constraints(db)
    ensures LineAxesOk(db, grant, targets) <==> AxesOk(db, grant, targets)
  {
    forall key | key in db.places && key.0 == grant
      ensures Probed(db, key, grant, key.1)
      ensures AxisOk(db, grant, key.1, targets) <==> AxisSatisfied(db, grant, key.1, targets)
    {
      assert PlaceOk(db, key);
      assert key in PlacesOn(db, grant, key.1);
      FoldsAgree(db, grant, key.1, targets);
    }
  }

  lemma PermRowIsOne(db: Db, p: Id, q: Id, tenant: Id, key: string)
    requires Constraints(db) && PermRow(db, p, tenant, key) && PermRow(db, q, tenant, key)
    ensures p == q
  {
    assert SameKey(db.permissions[p], db.permissions[q]);
  }

  // authorize()'s candidates are the listed grants once the three gates have passed.
  lemma CandidateSplits(db: Db, id: Id, identity: Id, tenant: Id, key: string, now: int)
    requires Constraints(db)
    ensures Candidate(db, id, identity, tenant, key, now) <==>
            && Cand(db, id, identity, tenant, key, now)
            && IdentityOk(db, identity, tenant) && PermissionLive(db, tenant, key) && AssuranceOk(db, identity, tenant, key)
  {
    if Cand(db, id, identity, tenant, key, now) {
      var p :| p in db.permissions && Confers(db, db.grants[id].role, p, tenant, key);
      assert PermRow(db, p, tenant, key);
      forall q | q in db.permissions && PermRow(db, q, tenant, key) ensures q == p { PermRowIsOne(db, p, q, tenant, key); }
    }
  }

  lemma ShareSplits(db: Db, id: Id, identity: Id, tenant: Id, key: string, record: string, now: int)
    requires Constraints(db)
    ensures ShareAllows(db, id, identity, tenant, key, record, now) <==>
            && id in db.shares && ShareLive(db.shares[id], identity, tenant, record, now) && key in db.shares[id].keys
            && IdentityOk(db, identity, tenant) && PermissionLive(db, tenant, key) && AssuranceOk(db, identity, tenant, key)
  {
    forall p, q | PermRow(db, p, tenant, key) && PermRow(db, q, tenant, key) ensures p == q { PermRowIsOne(db, p, q, tenant, key); }
  }

  // The verdict is the three gates and one allowed line.
  lemma VerdictDecomposes(db: Db, identity: Id, tenant: Id, key: string, targets: Targets, now: int)
    requires Constraints(db)
    ensures Authorize(db, identity, tenant, key, targets, now) <==>
            && IdentityOk(db, identity, tenant) && PermissionLive(db, tenant, key) && AssuranceOk(db, identity, tenant, key)
            && (SomeLineAllowed(db, identity, tenant, key, targets, now) || SomeShareAllowed(db, identity, tenant, key, targets, now))
  {
    forall id | id in db.grants
      ensures GrantAllows(db, id, identity, tenant, key, targets, now) <==>
              && Cand(db, id, identity, tenant, key, now) && LineAllowed(db, id, identity, tenant, targets)
              && IdentityOk(db, identity, tenant) && PermissionLive(db, tenant, key) && AssuranceOk(db, identity, tenant, key)
    {
      CandidateSplits(db, id, identity, tenant, key, now);
      AxesFoldsAgree(db, id, targets);
    }
    if "_record" in targets {
      forall id { ShareSplits(db, id, identity, tenant, key, targets["_record"], now); }
    }
  }

  // ---------------------------------------------------------------- the reason for a denial

  datatype Reason =
    | IdentityNotFound
    | IdentityInactive
    | PermissionUnknown
    | PermissionNotHeld
    | InsufficientAssurance
    | SelfScopeRequired
    | AxisUnresolved
    | ScopeExcluded
    | ScopeMismatch

  predicate SomeCand(db: Db, identity: Id, tenant: Id, key: string, now: int) {
    exists id :: id in db.grants && Cand(db, id, identity, tenant, key, now)
  }

  predicate SelfOkCand(db: Db, id: Id, identity: Id, tenant: Id, key: string, targets: Targets, now: int) {
    Cand(db, id, identity, tenant, key, now) && SelfOk(db.grants[id], identity, targets)
  }

  predicate SomeSelfOk(db: Db, identity: Id, tenant: Id, key: string, targets: Targets, now: int) {
    exists id :: id in db.grants && SelfOkCand(db, id, identity, tenant, key, targets, now)
  }

  predicate SomeSelfFailed(db: Db, identity: Id, tenant: Id, key: string, targets: Targets, now: int) {
    exists id :: id in db.grants && Cand(db, id, identity, tenant, key, now) && !SelfOk(db.grants[id], identity, targets)
  }

  predicate SomeUnresolved(db: Db, identity: Id, tenant: Id, key: string, targets: Targets, now: int) {
    exists id :: id in db.grants && SelfOkCand(db, id, identity, tenant, key, targets, now)
                 && LineAxesOk(db, id, targets) && StrictMissing(db, id, tenant) != {}
  }

  predicate SomeTakenBack(db: Db, identity: Id, tenant: Id, key: string, targets: Targets, now: int) {
    exists row :: row in db.places && Cand(db, row.0, identity, tenant, key, now)
                  && BoolOr(db, row.0, row.1, targets, Include) && BoolOr(db, row.0, row.1, targets, Exclude)
  }

  function ReasonFor(db: Db, identity: Id, tenant: Id, key: string, targets: Targets, now: int): Option<Reason> {
    if Authorize(db, identity, tenant, key, targets, now) then None
    else if !IdentityFound(db, identity, tenant) then Some(IdentityNotFound)
    else if !IdentityOk(db, identity, tenant) then Some(IdentityInactive)
    else if !(PermissionFound(db, tenant, key) && PermissionLive(db, tenant, key)) then Some(PermissionUnknown)
    else if !SomeCand(db, identity, tenant, key, now) then Some(PermissionNotHeld)
    else if !AssuranceOk(db, identity, tenant, key) then Some(InsufficientAssurance)
    else if SomeSelfFailed(db, identity, tenant, key, targets, now) && !SomeSelfOk(db, identity, tenant, key, targets, now)
    then Some(SelfScopeRequired)
    else if SomeUnresolved(db, identity, tenant, key, targets, now) then Some(AxisUnresolved)
    else if SomeTakenBack(db, identity, tenant, key, targets, now) then Some(ScopeExcluded)
    else Some(ScopeMismatch)
  }

  // The axes failing_axis picks the first of.
  function FailingAxes(db: Db, identity: Id, tenant: Id, key: string, targets: Targets, now: int): set<string> {
    set row | row in db.places && Cand(db, row.0, identity, tenant, key, now) && Probed(db, row, row.0, row.1)
              && (tenant, row.1) in db.axes && !AxisOk(db, row.0, row.1, targets) :: row.1
  }

  // A denial put down to places really is about places: the gates passed, some listed grant passes
  // its self test, every grant that does fails an axis it names, and an axis is there to report.
  lemma ScopeReasonsAreAboutPlaces(db: Db, identity: Id, tenant: Id, key: string, targets: Targets, now: int)
    requires Constraints(db)
    requires ReasonFor(db, identity, tenant, key, targets, now) in {Some(ScopeExcluded), Some(ScopeMismatch)}
    ensures IdentityOk(db, identity, tenant) && PermissionLive(db, tenant, key) && AssuranceOk(db, identity, tenant, key)
    ensures SomeSelfOk(db, identity, tenant, key, targets, now)
    ensures forall id :: SelfOkCand(db, id, identity, tenant, key, targets, now) ==> !LineAxesOk(db, id, targets)
    ensures FailingAxes(db, identity, tenant, key, targets, now) != {}
  {
    VerdictDecomposes(db, identity, tenant, key, targets, now);
    var one :| one in db.grants && Cand(db, one, identity, tenant, key, now);
    assert SomeSelfOk(db, identity, tenant, key, targets, now) by {
      if !SelfOk(db.grants[one], identity, targets) {
        assert SomeSelfFailed(db, identity, tenant, key, targets, now);
      } else {
        assert SelfOkCand(db, one, identity, tenant, key, targets, now);
      }
    }
    forall id | SelfOkCand(db, id, identity, tenant, key, targets, now)
      ensures !LineAxesOk(db, id, targets)
    {
      assert id in db.grants;
      assert !LineAllowed(db, id, identity, tenant, targets);
    }
    var held :| held in db.grants && SelfOkCand(db, held, identity, tenant, key, targets, now);
    var row :| row in db.places && Probed(db, row, held, row.1) && !AxisOk(db, held, row.1, targets);
    assert PlaceOk(db, row);
    assert row.1 in FailingAxes(db, identity, tenant, key, targets, now);
  }

  // A plain mismatch is never an exclusion's doing: every grant that passes its self test has a named
  // axis on which no include reaches the target at all.
  lemma MismatchIsNotAnExclusion(db: Db, identity: Id, tenant: Id, key: string, targets: Targets, now: int, id: Id)
    requires Constraints(db)
    requires ReasonFor(db, identity, tenant, key, targets, now) == Some(ScopeMismatch)
    requires SelfOkCand(db, id, identity, tenant, key, targets, now)
    ensures exists row :: row in db.places && row.0 == id && !BoolOr(db, id, row.1, targets, Include)
  {
    ScopeReasonsAreAboutPlaces(db, identity, tenant, key, targets, now);
    var row :| row in db.places && Probed(db, row, id, row.1) && !AxisOk(db, id, row.1, targets);
    assert !SomeTakenBack(db, identity, tenant, key, targets, now);
  }
}
