// The list GrantedNodes gives for an open axis is exactly what Evaluate allows place by place, and
// through the parity of the engines exactly what authorize() allows.
module OpenAxis {
  import opened Prelude
  import opened ScopeIndex
  import opened Snapshot
  import opened GrantedNodes
  import Catalog
  import Parity

  // What a load followed by InternGrantScopes leaves: every constraint resolved, every id a uuid's text.
  ghost predicate Prepared(d: Data) {
    && Linked(d.scope.parent)
    && forall identity, g, axis, c ::
         g in GrantsOf(d, identity) && axis in g.scopes && c in g.scopes[axis] ==> Resolved(d.scope, c)
  }

  predicate Resolved(x: Index, c: ScopeConstraint) {
    c.node == Slot(x, c.nodeId) && Plain(c.nodeId)
  }

  // Only axes are fixed: the two reserved targets are not part of the question.
  predicate NoReserved(targets: Targets) {
    "_owner" !in targets && "_record" !in targets
  }

  ghost predicate ListAllows(d: Data, out: Answer, t: Id)
    requires Linked(d.scope.parent)
  {
    out.everywhere || (t in d.scope.idx && exists n :: n in out.nodes && NodeReaches(d.scope, n, d.scope.idx[t]))
  }

  lemma NamedPlacesArePlain(d: Data, q: Query, g: Grant, n: Node)
    requires Prepared(d) && g in GrantsOf(d, q.identity) && Names(d, q, g, n)
    ensures PlainNode(n)
  {
    var cs := g.scopes[q.axis];
    forall c | c in cs ensures Plain(c.nodeId) { assert Resolved(d.scope, c); }
    IncludesMeaning(cs, Sorted(ReachKey, Excepts(cs)), n);
    SortedMembers(ReachKey, Excepts(cs));
    forall e | e in n.except ensures Plain(e.nodeId) { ExceptsMeaning(cs, e); }
  }

  // De-duplication by key loses nothing: a place some grant names is itself listed.
  lemma ListedExactly(d: Data, q: Query, out: Answer, g: Grant, n: Node)
    requires Prepared(d) && IsAnswer(d, q, out) && !out.everywhere
    requires g in GrantsOf(d, q.identity) && Names(d, q, g, n)
    ensures n in out.nodes
  {
    assert HasKey(out.nodes, NodeKey(n));
    var m :| m in out.nodes && NodeKey(m) == NodeKey(n);
    var h :| h in GrantsOf(d, q.identity) && Names(d, q, h, m);
    NamedPlacesArePlain(d, q, g, n);
    NamedPlacesArePlain(d, q, h, m);
    NodeKeyInjective(m, n);
  }

  // The verdict on one grant, axis by axis: the fixed ones and the open one.
  lemma OneGrant(d: Data, q: Query, g: Grant, t: Id)
    requires Prepared(d) && g in GrantsOf(d, q.identity) && NoReserved(q.fixed[q.axis := t])
    ensures GrantAllows(d, g, q.identity, q.permission, q.fixed[q.axis := t], q.now) <==>
            || Unlimited(d, q, g)
            || (t in d.scope.idx && exists n :: Names(d, q, g, n) && NodeReaches(d.scope, n, d.scope.idx[t]))
  {
    var targets := q.fixed[q.axis := t];
    forall axis | axis in g.scopes && axis != q.axis
      ensures AxisSatisfied(d, g, axis, targets) <==> AxisSatisfied(d, g, axis, q.fixed)
    {
    }
    assert GrantScopesSatisfied(d, g, targets) <==>
           OtherAxesSatisfied(d, g, q.axis, q.fixed) && (q.axis in g.scopes ==> AxisSatisfied(d, g, q.axis, targets));
    if q.axis in g.scopes && t in d.scope.idx {
      forall c | c in g.scopes[q.axis] ensures c.node == Slot(d.scope, c.nodeId) { assert Resolved(d.scope, c); }
      PlacesAreTheConstraints(d.scope, g.scopes[q.axis], d.scope.idx[t]);
    }
  }

  // For every place, known or not: Evaluate allows it exactly when the list says everywhere or names
  // a place that reaches it.
  lemma ListIsEvaluate(d: Data, q: Query, out: Answer, t: Id)
    requires Prepared(d) && NoReserved(q.fixed[q.axis := t])
    requires if Gates(d, q.identity, q.permission) then IsAnswer(d, q, out) else out == Answer(false, false, [])
    ensures Evaluate(d, q.identity, q.permission, q.fixed[q.axis := t], q.now) <==> ListAllows(d, out, t)
  {
    if !Gates(d, q.identity, q.permission) { return; }
    var gs, targets := GrantsOf(d, q.identity), q.fixed[q.axis := t];
    if Evaluate(d, q.identity, q.permission, targets, q.now) {
      var g :| g in gs && GrantAllows(d, g, q.identity, q.permission, targets, q.now);
      OneGrant(d, q, g, t);
      if !out.everywhere {
        var n :| Names(d, q, g, n) && NodeReaches(d.scope, n, d.scope.idx[t]);
        ListedExactly(d, q, out, g, n);
      }
    }
    if ListAllows(d, out, t) {
      if out.everywhere {
        var g :| g in gs && Unlimited(d, q, g);
        OneGrant(d, q, g, t);
      } else {
        var n :| n in out.nodes && NodeReaches(d.scope, n, d.scope.idx[t]);
        var g :| g in gs && Names(d, q, g, n);
        OneGrant(d, q, g, t);
      }
    }
  }

  // For records of the subject's own: a grant that allows it and is not among the list's is
  // self-scoped, and the list says so.
  lemma OwnClosesTheGap(d: Data, q: Query, out: Answer, t: Id)
    requires Prepared(d) && NoReserved(q.fixed[q.axis := t])
    requires forall g :: g in GrantsOf(d, q.identity) ==> "_owner" !in g.scopes
    requires if Gates(d, q.identity, q.permission) then IsAnswer(d, q, out) else out == Answer(false, false, [])
    requires Evaluate(d, q.identity, q.permission, q.fixed[q.axis := t]["_owner" := q.identity], q.now)
    ensures ListAllows(d, out, t) || out.ownRecords
  {
    var gs, plain := GrantsOf(d, q.identity), q.fixed[q.axis := t];
    var targets := plain["_owner" := q.identity];
    ListIsEvaluate(d, q, out, t);
    var g :| g in gs && GrantAllows(d, g, q.identity, q.permission, targets, q.now);
    if g.selfScoped {
      assert SomeOwn(d, q, gs);
    } else {
      forall axis | axis in g.scopes ensures AxisSatisfied(d, g, axis, plain) { assert AxisSatisfied(d, g, axis, targets); }
      assert GrantAllows(d, g, q.identity, q.permission, plain, q.now);
    }
  }

  // No answer is listed twice: two listed places differ in node, reach or exceptions.
  lemma ListedOnce(d: Data, q: Query, out: Answer, i: nat, j: nat)
    requires Linked(d.scope.parent) && IsAnswer(d, q, out) && i < j < |out.nodes|
    ensures out.nodes[i] != out.nodes[j]
  {
    assert NodeKey(out.nodes[i]) != NodeKey(out.nodes[j]);
  }

  // Exceptions are compared as a set of rows: the order they were loaded in does not split one
  // answer into two.
  lemma SameExceptionsSameKey(cs: seq<ScopeConstraint>, cs': seq<ScopeConstraint>)
    requires multiset(Excepts(cs)) == multiset(Excepts(cs'))
    requires (forall c :: c in cs ==> Plain(c.nodeId)) && (forall c :: c in cs' ==> Plain(c.nodeId))
    ensures Sorted(ReachKey, Excepts(cs)) == Sorted(ReachKey, Excepts(cs'))
  {
    var s, t := Sorted(ReachKey, Excepts(cs)), Sorted(ReachKey, Excepts(cs'));
    SortedMembers(ReachKey, Excepts(cs));
    forall x, y | x in s && y in s && ReachKey(x) == ReachKey(y)
      ensures x == y
    {
      ExceptsMeaning(cs, x);
      ExceptsMeaning(cs, y);
      assert ReachKey(x) + "" == ReachKey(y) + "";
      ReachPrefix(x, "", y, "");
    }
    OneOrder(ReachKey, s, t);
  }

  // ---------------------------------------------------------------- Reaches

  // Any live grant, whatever its role, that puts the subject at the place.
  predicate Reaches(d: Data, identity: Id, axis: string, nodeId: Id, now: int)
    requires Linked(d.scope.parent)
  {
    && identity in d.identities && !d.identities[identity].blocked
    && Resolve(d.scope, nodeId).Some?
    && exists g :: g in GrantsOf(d, identity) && PinnedBy(d, g, axis, Resolve(d.scope, nodeId).value, now)
  }

  predicate PinnedBy(d: Data, g: Grant, axis: string, target: int, now: int)
    requires Linked(d.scope.parent)
  {
    && Live(g, now) && !g.selfScoped && StrictAxesAddressed(d, g)
    && (axis !in g.scopes || Admitted(d.scope.parent, g.scopes[axis], target))
  }

  // Every known place some permission is allowed at is a place a session may be pinned to.
  lemma AllowedIsReached(d: Data, q: Query, t: Id)
    requires Linked(d.scope.parent) && NoReserved(q.fixed[q.axis := t]) && t in d.scope.idx
    requires Evaluate(d, q.identity, q.permission, q.fixed[q.axis := t], q.now)
    ensures Reaches(d, q.identity, q.axis, t, q.now)
  {
    var targets := q.fixed[q.axis := t];
    var g :| g in GrantsOf(d, q.identity) && GrantAllows(d, g, q.identity, q.permission, targets, q.now);
    if q.axis in g.scopes { assert AxisSatisfied(d, g, q.axis, targets); }
  }

  // ---------------------------------------------------------------- against the database

  ghost predicate PlainIds(db: Catalog.Db) {
    forall key :: key in db.places ==> Plain(key.2)
  }

  lemma LoadedIsPrepared(d: Data, db: Catalog.Db, tenant: Id, at: int)
    requires Parity.Loaded(d, db, tenant, at) && PlainIds(db)
    ensures Prepared(d)
  {
    forall identity, g, axis, c | g in GrantsOf(d, identity) && axis in g.scopes && c in g.scopes[axis]
      ensures Resolved(d.scope, c)
    {
      assert Parity.GrantLoaded(d.scope, db, g.id, g);
      assert Parity.AxisLoaded(d.scope, db, g.id, axis, g.scopes[axis]);
      var key :| key in Catalog.PlacesOn(db, g.id, axis) && c == Parity.ConstraintOf(d.scope, key.2, db.places[key]);
    }
  }

  // The list served from memory is what the SQL engine would allow, place by place.
  lemma ListIsAuthorize(states: seq<Catalog.Db>, i: nat, d: Data, tenant: Id, at: int, q: Query, out: Answer, t: Id)
    requires Catalog.History(states) && i < |states| && Parity.Loaded(d, states[i], tenant, at) && at <= q.now
    requires PlainIds(states[i]) && NoReserved(q.fixed[q.axis := t])
    requires Linked(d.scope.parent)
    requires if Gates(d, q.identity, q.permission) then IsAnswer(d, q, out) else out == Answer(false, false, [])
    ensures ListAllows(d, out, t) <==>
            Catalog.Authorize(states[i], q.identity, tenant, q.permission, q.fixed[q.axis := t], q.now)
  {
    LoadedIsPrepared(d, states[i], tenant, at);
    ListIsEvaluate(d, q, out, t);
    Parity.EnginesNeverDisagree(states, i, d, tenant, at, q.identity, q.permission, q.fixed[q.axis := t], q.now);
  }

  // Whatever authorize() allows at a place for a record of one's own, the list covers.
  lemma OwnIsCovered(states: seq<Catalog.Db>, i: nat, d: Data, tenant: Id, at: int, q: Query, out: Answer, t: Id)
    requires Catalog.History(states) && i < |states| && Parity.Loaded(d, states[i], tenant, at) && at <= q.now
    requires PlainIds(states[i]) && NoReserved(q.fixed[q.axis := t])
    requires Linked(d.scope.parent)
    requires if Gates(d, q.identity, q.permission) then IsAnswer(d, q, out) else out == Answer(false, false, [])
    requires Catalog.Authorize(states[i], q.identity, tenant, q.permission, q.fixed[q.axis := t]["_owner" := q.identity], q.now)
    ensures ListAllows(d, out, t) || out.ownRecords
  {
    LoadedIsPrepared(d, states[i], tenant, at);
    Parity.EnginesNeverDisagree(states, i, d, tenant, at, q.identity, q.permission, q.fixed[q.axis := t]["_owner" := q.identity], q.now);
    Catalog.HistoryValid(states, i);
    forall g | g in GrantsOf(d, q.identity) ensures "_owner" !in g.scopes { NoOwnerAxis(d, states[i], tenant, at, q.identity, g); }
    hide Catalog.Authorize, Parity.Loaded, Prepared, IsAnswer, Catalog.History, Evaluate, ListAllows;
    OwnClosesTheGap(d, q, out, t);
  }

  lemma NoOwnerAxis(d: Data, db: Catalog.Db, tenant: Id, at: int, identity: Id, g: Grant)
    requires Catalog.Valid(db) && Parity.Loaded(d, db, tenant, at) && g in GrantsOf(d, identity)
    ensures "_owner" !in g.scopes
  {
    if "_owner" in g.scopes {
      assert Parity.GrantLoaded(d.scope, db, g.id, g);
      var key := Member(Catalog.PlacesOn(db, g.id, "_owner"));
      assert Catalog.PlaceOk(db, key);
      assert Catalog.Reserved((db.places[key].tenant, key.1).1);
    }
  }
}
