// What a membership is for: a person is let in through it exactly when one of their current
// assignments and one of its live entries call for it, said of the columns and the tree.
module MembershipDecision {
  import opened Prelude
  import opened ScopeTree
  import opened Catalog
  import opened Decision
  import M = Membership
  import MembershipRuns

  // The rows of `grants` and `grant_scopes` that one derived grant stands for.
  predicate IsRowOf(db: Db, id: Id, g: M.Fanned, tenant: Id, now: int) {
    && id in db.grants
    && var row := db.grants[id];
       row.tenant == tenant && row.identity == g.identity && row.role == g.role && !row.selfScoped
       && row.validFrom <= now && row.validUntil == g.validUntil && row.revoked == g.revoked
  }

  predicate ArePlacesOf(db: Db, id: Id, places: M.Places) {
    && (forall p :: p in places ==> (id, p.0, p.1) in db.places)
    && (forall key :: key in db.places && key.0 == id ==>
          (key.1, key.2) in places
          && db.places[key].inherit == places[(key.1, key.2)].inherit && db.places[key].mode == places[(key.1, key.2)].mode)
  }

  // The catalog holds the organisation's derived grants, under these ids.
  ghost predicate Carries(db: Db, o: M.Org, ids: map<nat, Id>, tenant: Id, now: int) {
    forall g {:trigger o.grants[g]} :: g in o.grants ==>
      g in ids && IsRowOf(db, ids[g], o.grants[g], tenant, now) && ArePlacesOf(db, ids[g], o.grants[g].places)
  }

  // ---------------------------------------------------------------- what is called for

  // The node is the target named for its axis, or above it and handed down.
  ghost predicate NodeOver(db: Db, axis: string, node: Id, inherit: bool, targets: Targets) {
    axis in targets && exists k: nat :: IsUp(db.scope.nodes, node, targets[axis], k) && (k == 0 || inherit)
  }

  predicate Mentions(entry: M.Entry, axis: string) {
    exists p :: p in entry.places && p.0 == axis
  }

  // On every axis the entry names, an include of it is over the target and no exclude is.
  ghost predicate EntryReachesOn(db: Db, entry: M.Entry, axis: string, targets: Targets) {
    && (exists p :: p in entry.places && p.0 == axis && entry.places[p].mode == Include
                    && NodeOver(db, axis, p.1, entry.places[p].inherit, targets))
    && (forall p :: p in entry.places && p.0 == axis && entry.places[p].mode == Exclude ==>
          !NodeOver(db, axis, p.1, entry.places[p].inherit, targets))
  }

  ghost predicate EntryReaches(db: Db, entry: M.Entry, targets: Targets) {
    forall axis {:trigger Mentions(entry, axis)} :: Mentions(entry, axis) ==> EntryReachesOn(db, entry, axis, targets)
  }

  // An assignment at a place reaches that place, and what is below it when it is handed down.
  ghost predicate OwnReaches(db: Db, member: M.Member, targets: Targets) {
    member.place.Some? ==> NodeOver(db, member.place.value.0, member.place.value.1, member.inherit, targets)
  }

  ghost predicate StrictCovered(db: Db, tenant: Id, member: M.Member, entry: M.Entry) {
    forall axis {:trigger Mentions(entry, axis)} ::
      (tenant, axis) in db.axes && db.axes[(tenant, axis)].deny && db.axes[(tenant, axis)].active ==>
        Mentions(entry, axis) || (member.place.Some? && member.place.value.0 == axis)
  }

  // The role confers the permission, in use and at the person's assurance.
  predicate RoleOpens(db: Db, identity: Id, role: Id, tenant: Id, key: string) {
    Person(db, tenant, identity)
    && exists p :: p in db.permissions && InUse(db, tenant, p, key) && Assured(db, p, identity) && (role, p) in db.effective
  }

  // An assignment of the person and an entry that call for it.
  ghost predicate Calls(
      o: M.Org, db: Db, tenant: Id, ms: Id, m: nat, e: Id, identity: Id, key: string, targets: Targets, now: int) {
    && m in o.members && e in o.entries
    && var member, entry := o.members[m], o.entries[e];
       && member.membership == ms && entry.membership == ms && member.identity == identity
       && !member.removed && (member.validUntil.Some? ==> now < member.validUntil.value) && !entry.retired
       && RoleOpens(db, identity, entry.role, tenant, key)
       && EntryReaches(db, entry, targets) && OwnReaches(db, member, targets) && StrictCovered(db, tenant, member, entry)
  }

  // ---------------------------------------------------------------- one grant

  predicate Made(o: M.Org, g: M.Fanned, m: nat, e: Id) {
    && m in o.members && e in o.entries && M.MemberOk(o, m) && M.EntryOk(o, e)
    && o.members[m].membership == o.entries[e].membership
    && g.(revoked := false, revokeReason := None) == M.GrantFor(o.members[m], m, o.entries[e], e)
  }

  // The own place stands alone on its axis, as an include.
  lemma OwnAxis(o: M.Org, g: M.Fanned, m: nat, e: Id)
    requires Made(o, g, m, e)
    ensures var member, entry := o.members[m], o.entries[e];
            && (forall p :: p in g.places <==> p in entry.places || member.place == Some(p))
            && (forall p :: p in entry.places ==> g.places[p] == entry.places[p])
            && (member.place.Some? ==>
                  && !Mentions(entry, member.place.value.0)
                  && g.places[member.place.value].mode == Include && g.places[member.place.value].inherit == member.inherit)
  {
  }

  lemma GrantAxis(db: Db, id: Id, o: M.Org, g: M.Fanned, m: nat, e: Id, axis: string, targets: Targets)
    requires Made(o, g, m, e) && ArePlacesOf(db, id, g.places)
    ensures NamesAxis(db, id, axis) <==> Mentions(o.entries[e], axis) || (o.members[m].place.Some? && o.members[m].place.value.0 == axis)
    ensures Mentions(o.entries[e], axis) ==> (LetsThrough(db, id, axis, targets) <==> EntryReachesOn(db, o.entries[e], axis, targets))
    ensures o.members[m].place.Some? && o.members[m].place.value.0 == axis ==>
              (LetsThrough(db, id, axis, targets) <==> OwnReaches(db, o.members[m], targets))
  {
    OwnAxis(o, g, m, e);
    var member, entry := o.members[m], o.entries[e];
    hide Made;
    forall key | key in db.places && key.0 == id && key.1 == axis
      ensures (axis, key.2) in g.places && db.places[key].mode == g.places[(axis, key.2)].mode
      ensures Over(db, key, targets) <==> NodeOver(db, axis, key.2, g.places[(axis, key.2)].inherit, targets)
    {
      assert (key.1, key.2) == (axis, key.2);
    }
    forall p | p in g.places && p.0 == axis ensures (id, axis, p.1) in db.places && p == (axis, p.1) {
      assert (id, p.0, p.1) == (id, axis, p.1);
    }
    hide ArePlacesOf, Over, NodeOver;
    if NamesAxis(db, id, axis) {
      var key :| key in db.places && key.0 == id && key.1 == axis;
      assert (axis, key.2) in g.places;
    }
    if Mentions(entry, axis) {
      EntryAxis(db, id, o, g, m, e, axis, targets);
    } else if member.place.Some? && member.place.value.0 == axis {
      OnlyAxis(db, id, member, g, axis, targets);
    }
  }

  // The rows of one axis of a derived grant are its places on it.
  ghost predicate RowsArePlaces(db: Db, id: Id, places: M.Places, axis: string, targets: Targets) {
    && (forall key :: key in db.places && key.0 == id && key.1 == axis ==>
          && (axis, key.2) in places && db.places[key].mode == places[(axis, key.2)].mode
          && (Over(db, key, targets) <==> NodeOver(db, axis, key.2, places[(axis, key.2)].inherit, targets)))
    && (forall p :: p in places && p.0 == axis ==> (id, axis, p.1) in db.places && p == (axis, p.1))
  }

  lemma EntryAxis(db: Db, id: Id, o: M.Org, g: M.Fanned, m: nat, e: Id, axis: string, targets: Targets)
    requires m in o.members && e in o.entries && RowsArePlaces(db, id, g.places, axis, targets) && Mentions(o.entries[e], axis)
    requires forall p :: p in g.places && p.0 == axis <==> p in o.entries[e].places && p.0 == axis
    requires forall p :: p in o.entries[e].places ==> p in g.places && g.places[p] == o.entries[e].places[p]
    ensures LetsThrough(db, id, axis, targets) <==> EntryReachesOn(db, o.entries[e], axis, targets)
  {
    hide Over, NodeOver;
    var entry := o.entries[e];
    if key :| OfAxis(db, key, id, axis, Include) && Over(db, key, targets) {
      var p := (axis, key.2);
      assert p in entry.places && entry.places[p].mode == Include && NodeOver(db, axis, p.1, entry.places[p].inherit, targets);
    }
    if p :| p in entry.places && p.0 == axis && entry.places[p].mode == Include && NodeOver(db, axis, p.1, entry.places[p].inherit, targets) {
      assert OfAxis(db, (id, axis, p.1), id, axis, Include) && Over(db, (id, axis, p.1), targets);
    }
    forall key | OfAxis(db, key, id, axis, Exclude) ensures (axis, key.2) in entry.places && entry.places[(axis, key.2)].mode == Exclude {}
    forall p | p in entry.places && p.0 == axis && entry.places[p].mode == Exclude ensures OfAxis(db, (id, axis, p.1), id, axis, Exclude) {}
  }

  lemma OnlyAxis(db: Db, id: Id, member: M.Member, g: M.Fanned, axis: string, targets: Targets)
    requires RowsArePlaces(db, id, g.places, axis, targets) && member.place.Some? && member.place.value.0 == axis
    requires forall p :: p in g.places && p.0 == axis <==> member.place == Some(p)
    requires member.place.value in g.places
    requires g.places[member.place.value].mode == Include && g.places[member.place.value].inherit == member.inherit
    ensures LetsThrough(db, id, axis, targets) <==> OwnReaches(db, member, targets)
  {
    hide Over, NodeOver;
    var row := (id, axis, member.place.value.1);
    assert OfAxis(db, row, id, axis, Include);
    forall key, mode | OfAxis(db, key, id, axis, mode) ensures key == row && mode == Include { assert (axis, key.2) in g.places; }
  }

  lemma GrantReaches(db: Db, id: Id, o: M.Org, g: M.Fanned, m: nat, e: Id, tenant: Id, targets: Targets)
    requires Made(o, g, m, e) && ArePlacesOf(db, id, g.places)
    ensures EveryAxisLetsThrough(db, id, targets) <==> EntryReaches(db, o.entries[e], targets) && OwnReaches(db, o.members[m], targets)
    ensures StrictAxesNamed(db, tenant, id) <==> StrictCovered(db, tenant, o.members[m], o.entries[e])
  {
    var member, entry := o.members[m], o.entries[e];
    forall axis
      ensures NamesAxis(db, id, axis) <==> Mentions(entry, axis) || (member.place.Some? && member.place.value.0 == axis)
      ensures Mentions(entry, axis) ==> (LetsThrough(db, id, axis, targets) <==> EntryReachesOn(db, entry, axis, targets))
      ensures member.place.Some? && member.place.value.0 == axis ==>
                (LetsThrough(db, id, axis, targets) <==> OwnReaches(db, member, targets))
    {
      GrantAxis(db, id, o, g, m, e, axis, targets);
    }
    hide Made, ArePlacesOf, NamesAxis, Mentions, LetsThrough, EntryReachesOn;
    if member.place.None? {
      assert OwnReaches(db, member, targets);
    } else {
      hide OwnReaches;
      var had := NamesAxis(db, id, member.place.value.0);
    }
  }

  // What one derived grant lets in.
  lemma GrantIsItsPlaces(
      db: Db, id: Id, o: M.Org, g: M.Fanned, m: nat, e: Id, identity: Id, tenant: Id, key: string, targets: Targets, now: int)
    requires Valid(db) && Made(o, g, m, e) && IsRowOf(db, id, g, tenant, now) && ArePlacesOf(db, id, g.places)
    ensures GrantAllows(db, id, identity, tenant, key, targets, now) <==>
            && o.members[m].identity == identity && !g.revoked
            && (o.members[m].validUntil.Some? ==> now < o.members[m].validUntil.value)
            && RoleOpens(db, identity, o.entries[e].role, tenant, key)
            && EntryReaches(db, o.entries[e], targets) && OwnReaches(db, o.members[m], targets)
            && StrictCovered(db, tenant, o.members[m], o.entries[e])
  {
    GrantMeaning(db, tenant, identity, id, key, targets, now);
    GrantReaches(db, id, o, g, m, e, tenant, targets);
    hide Valid, GrantAllows, ArePlacesOf, EveryAxisLetsThrough, StrictAxesNamed, EntryReaches, OwnReaches, StrictCovered, Person, InUse, Assured;
  }

  // ---------------------------------------------------------------- the membership

  // A grant of the membership's fan-out that lets the person in.
  predicate LetsIn(
      o: M.Org, db: Db, ids: map<nat, Id>, tenant: Id, ms: Id, g: nat, identity: Id, key: string, targets: Targets, now: int) {
    && g in o.grants && g in ids && o.grants[g].membership == Some(ms) && o.grants[g].member.Some?
    && GrantAllows(db, ids[g], identity, tenant, key, targets, now)
  }

  lemma GrantAuthorizes(db: Db, id: Id, identity: Id, tenant: Id, key: string, targets: Targets, now: int)
    requires GrantAllows(db, id, identity, tenant, key, targets, now)
    ensures Authorize(db, identity, tenant, key, targets, now)
  {
  }

  lemma IsMade(o: M.Org, now: int, g: nat)
    requires M.Sound(o, now) && g in o.grants && o.grants[g].member.Some?
    ensures o.grants[g].entry.Some? && Made(o, o.grants[g], o.grants[g].member.value, o.grants[g].entry.value)
  {
    assert M.Faithful(o, g);
    assert M.MemberOk(o, o.grants[g].member.value) && M.EntryOk(o, o.grants[g].entry.value);
  }

  // Once a membership is settled, its fan-out lets a person in at a target exactly when a current
  // assignment of theirs and a live entry call for it; authorize() then allows.
  lemma MembershipDecides(
      o: M.Org, db: Db, ids: map<nat, Id>, tenant: Id, ms: Id, identity: Id, key: string, targets: Targets, now: int)
    requires Valid(db) && M.Sound(o, now) && M.Settled(o, ms, now) && Carries(db, o, ids, tenant, now)
    ensures (exists g: nat :: LetsIn(o, db, ids, tenant, ms, g, identity, key, targets, now)) <==>
            (exists m: nat, e: Id :: Calls(o, db, tenant, ms, m, e, identity, key, targets, now))
    ensures (exists m: nat, e: Id :: Calls(o, db, tenant, ms, m, e, identity, key, targets, now)) ==>
            Authorize(db, identity, tenant, key, targets, now)
  {
    hide Valid, LetsIn, Calls, M.Sound, M.Settled, Carries, Authorize;
    if m: nat, e: Id :| Calls(o, db, tenant, ms, m, e, identity, key, targets, now) {
      CalledIsLetIn(o, db, ids, tenant, ms, m, e, identity, key, targets, now);
    }
    if g: nat :| LetsIn(o, db, ids, tenant, ms, g, identity, key, targets, now) {
      LetInIsCalled(o, db, ids, tenant, ms, g, identity, key, targets, now);
    }
  }

  lemma CalledIsLetIn(
      o: M.Org, db: Db, ids: map<nat, Id>, tenant: Id, ms: Id, m: nat, e: Id, identity: Id, key: string, targets: Targets, now: int)
    requires Valid(db) && M.Sound(o, now) && M.Settled(o, ms, now) && Carries(db, o, ids, tenant, now)
    requires Calls(o, db, tenant, ms, m, e, identity, key, targets, now)
    ensures exists g: nat :: LetsIn(o, db, ids, tenant, ms, g, identity, key, targets, now)
    ensures Authorize(db, identity, tenant, key, targets, now)
  {
    assert M.Current(o, m, ms, now) && M.LiveEntry(o, e, ms);
    assert M.HasGrant(o, m, e);
    var g :| g in o.grants && M.Gives(o.grants[g], m, e);
    hide Valid, GrantAllows, RoleOpens, EntryReaches, OwnReaches, StrictCovered, IsRowOf, ArePlacesOf, Authorize;
    IsMade(o, now, g);
    GrantIsItsPlaces(db, ids[g], o, o.grants[g], m, e, identity, tenant, key, targets, now);
    GrantAuthorizes(db, ids[g], identity, tenant, key, targets, now);
    assert LetsIn(o, db, ids, tenant, ms, g, identity, key, targets, now);
  }

  lemma LetInIsCalled(
      o: M.Org, db: Db, ids: map<nat, Id>, tenant: Id, ms: Id, g: nat, identity: Id, key: string, targets: Targets, now: int)
    requires Valid(db) && M.Sound(o, now) && M.Settled(o, ms, now) && Carries(db, o, ids, tenant, now)
    requires LetsIn(o, db, ids, tenant, ms, g, identity, key, targets, now)
    ensures exists m: nat, e: Id :: Calls(o, db, tenant, ms, m, e, identity, key, targets, now)
  {
    IsMade(o, now, g);
    var m, e := o.grants[g].member.value, o.grants[g].entry.value;
    GrantIsItsPlaces(db, ids[g], o, o.grants[g], m, e, identity, tenant, key, targets, now);
    MembershipRuns.InForceMeansAssigned(o, now, g);
    assert !M.FromRetired(o, g, ms);
    hide Valid, GrantAllows, RoleOpens, EntryReaches, OwnReaches, StrictCovered, IsRowOf, ArePlacesOf;
    assert Calls(o, db, tenant, ms, m, e, identity, key, targets, now);
  }

  lemma OwnReachesAt(db: Db, member: M.Member, targets: Targets, target: Id)
    requires member.place.Some?
    ensures var (axis, node) := member.place.value;
            OwnReaches(db, member, targets[axis := target]) <==>
            exists k: nat :: IsUp(db.scope.nodes, node, target, k) && (k == 0 || member.inherit)
  {
    var (axis, node) := member.place.value;
    var there := targets[axis := target];
    if OwnReaches(db, member, there) {
      var k: nat :| IsUp(db.scope.nodes, node, there[axis], k) && (k == 0 || member.inherit);
      assert IsUp(db.scope.nodes, node, target, k);
    }
    if k: nat :| IsUp(db.scope.nodes, node, target, k) && (k == 0 || member.inherit) {
      assert IsUp(db.scope.nodes, node, there[axis], k);
    }
  }

  // A person assigned at a place is let in through an entry there and, exactly when the assignment
  // is handed down, below it, and nowhere else on that axis: where the role, the entry's own axes and
  // the strict axes pass, the answer is where the target stands.
  lemma AssignedPlaceDecides(
      o: M.Org, db: Db, ids: map<nat, Id>, tenant: Id, ms: Id, m: nat, e: Id, key: string, targets: Targets, target: Id, now: int)
    requires Valid(db) && M.Sound(o, now) && M.Settled(o, ms, now) && Carries(db, o, ids, tenant, now)
    requires M.Current(o, m, ms, now) && M.LiveEntry(o, e, ms) && o.members[m].place.Some?
    requires RoleOpens(db, o.members[m].identity, o.entries[e].role, tenant, key)
    requires EntryReaches(db, o.entries[e], targets[o.members[m].place.value.0 := target])
    requires StrictCovered(db, tenant, o.members[m], o.entries[e])
    ensures var (axis, node) := o.members[m].place.value;
            (exists g: nat ::
               && g in o.grants && o.grants[g].member == Some(m) && o.grants[g].entry == Some(e)
               && LetsIn(o, db, ids, tenant, ms, g, o.members[m].identity, key, targets[axis := target], now))
            <==> exists k: nat :: IsUp(db.scope.nodes, node, target, k) && (k == 0 || o.members[m].inherit)
  {
    var (axis, node) := o.members[m].place.value;
    var there := targets[axis := target];
    OwnReachesAt(db, o.members[m], targets, target);
    assert M.HasGrant(o, m, e);
    var held :| held in o.grants && M.Gives(o.grants[held], m, e);
    hide Valid, GrantAllows, RoleOpens, EntryReaches, OwnReaches, StrictCovered, IsRowOf, ArePlacesOf;
    forall g: nat | g in o.grants && o.grants[g].member == Some(m) && o.grants[g].entry == Some(e)
      ensures g in ids && o.grants[g].membership == Some(ms)
      ensures GrantAllows(db, ids[g], o.members[m].identity, tenant, key, there, now) <==>
              !o.grants[g].revoked && OwnReaches(db, o.members[m], there)
    {
      IsMade(o, now, g);
      GrantIsItsPlaces(db, ids[g], o, o.grants[g], m, e, o.members[m].identity, tenant, key, there, now);
    }
    if OwnReaches(db, o.members[m], there) {
      assert LetsIn(o, db, ids, tenant, ms, held, o.members[m].identity, key, there, now);
    }
  }
}
