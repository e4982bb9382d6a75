// What is decided, said of the columns and the tree alone: who is allowed what, what a denial is put
// down to, and where a session may be pinned. None of it mentions how the engines compute it.
module Decision {
  import opened Prelude
  import opened ScopeTree
  import opened ScopeClosure
  import opened Catalog
  import opened ScopeIndex
  import Explain
  import GrantedNodes
  import OpenAxis
  import Parity
  import Snapshot

  // ---------------------------------------------------------------- over the columns

  predicate Person(db: Db, tenant: Id, identity: Id) {
    identity in db.identities &&
    var i := db.identities[identity];
    i.tenant == tenant && i.active && !i.disabled && !i.anonymized
  }

  // The permission row the key names, in use, with the assurance it asks for met.
  predicate InUse(db: Db, tenant: Id, p: Id, key: string) {
    p in db.permissions && db.permissions[p].tenant == tenant && db.permissions[p].key == key && !db.permissions[p].deprecated
  }

  predicate Assured(db: Db, p: Id, identity: Id) {
    p in db.permissions && identity in db.identities && db.permissions[p].minAssurance <= db.identities[identity].assurance
  }

  // The person's own grant, standing, and begun but not over.
  predicate HoldsNow(db: Db, tenant: Id, identity: Id, g: Id, now: int) {
    g in db.grants &&
    var row := db.grants[g];
    && row.tenant == tenant && row.identity == identity && !row.revoked
    && row.validFrom <= now && (row.validUntil.Some? ==> now < row.validUntil.value)
  }

  predicate SelfTest(db: Db, g: Id, identity: Id, targets: Targets) {
    g in db.grants && (db.grants[g].selfScoped ==> "_owner" in targets && targets["_owner"] == identity)
  }

  // The place is the target named for its axis, or above it and handed down.
  ghost predicate Over(db: Db, key: PlaceKey, targets: Targets)
    requires key in db.places
  {
    key.1 in targets
    && exists k: nat :: IsUp(db.scope.nodes, key.2, targets[key.1], k) && (k == 0 || db.places[key].inherit)
  }

  predicate OfAxis(db: Db, key: PlaceKey, g: Id, axis: string, mode: Mode) {
    key in db.places && key.0 == g && key.1 == axis && db.places[key].mode == mode
  }

  // On an axis: an include is over the target and no exclude is.
  ghost predicate LetsThrough(db: Db, g: Id, axis: string, targets: Targets) {
    && (exists key :: OfAxis(db, key, g, axis, Include) && Over(db, key, targets))
    && (forall key :: OfAxis(db, key, g, axis, Exclude) ==> !Over(db, key, targets))
  }

  predicate NamesAxis(db: Db, g: Id, axis: string) {
    exists key :: key in db.places && key.0 == g && key.1 == axis
  }

  ghost predicate EveryAxisLetsThrough(db: Db, g: Id, targets: Targets) {
    forall axis {:trigger NamesAxis(db, g, axis)} :: NamesAxis(db, g, axis) ==> LetsThrough(db, g, axis, targets)
  }

  // Axes that deny by default are named.
  ghost predicate StrictAxesNamed(db: Db, tenant: Id, g: Id) {
    forall axis {:trigger NamesAxis(db, g, axis)} ::
      (tenant, axis) in db.axes && db.axes[(tenant, axis)].deny && db.axes[(tenant, axis)].active ==> NamesAxis(db, g, axis)
  }

  ghost predicate ByGrant(db: Db, tenant: Id, identity: Id, p: Id, targets: Targets, now: int) {
    exists g ::
      && HoldsNow(db, tenant, identity, g, now) && (db.grants[g].role, p) in db.effective
      && SelfTest(db, g, identity, targets) && EveryAxisLetsThrough(db, g, targets) && StrictAxesNamed(db, tenant, g)
  }

  // A share of the record named, made to the person, standing and not over, for this permission.
  predicate ByShare(db: Db, tenant: Id, identity: Id, key: string, targets: Targets, now: int) {
    "_record" in targets &&
    exists s ::
      && s in db.shares && db.shares[s].tenant == tenant && db.shares[s].recipient == identity
      && db.shares[s].record == targets["_record"] && !db.shares[s].revoked && now < db.shares[s].validUntil
      && key in db.shares[s].keys
  }

  ghost predicate Allowed(db: Db, tenant: Id, identity: Id, key: string, targets: Targets, now: int) {
    && Person(db, tenant, identity)
    && exists p ::
         && InUse(db, tenant, p, key) && Assured(db, p, identity)
         && (ByGrant(db, tenant, identity, p, targets, now) || ByShare(db, tenant, identity, key, targets, now))
  }

  // ---------------------------------------------------------------- the closure says what the tree says

  lemma OverIsCovers(db: Db, key: PlaceKey, targets: Targets)
    requires Valid(db) && key in db.places
    ensures PlaceCovers(db, key, targets) <==> Over(db, key, targets)
  {
    assert PlaceOk(db, key);
    assert !Reserved((db.places[key].tenant, key.1).1);
    if PlaceCovers(db, key, targets) {
      RowKnown(db.scope.nodes, db.scope.closure, key.2, targets[key.1]);
    }
    if Over(db, key, targets) {
      var k: nat :| IsUp(db.scope.nodes, key.2, targets[key.1], k) && (k == 0 || db.places[key].inherit);
      Related(db.scope.nodes, db.scope.closure, key.2, targets[key.1], k);
    }
  }

  lemma AxisMeaning(db: Db, g: Id, axis: string, targets: Targets)
    requires Valid(db) && NamesAxis(db, g, axis)
    ensures AxisSatisfied(db, g, axis, targets) <==> LetsThrough(db, g, axis, targets)
  {
    var some :| some in db.places && some.0 == g && some.1 == axis;
    var rows := PlacesOn(db, g, axis);
    assert some in rows;
    MinCaseMeaning(db, g, axis, targets);
    forall key | key in db.places ensures PlaceCovers(db, key, targets) <==> Over(db, key, targets) { OverIsCovers(db, key, targets); }
    hide Over, PlaceCovers, AxisSatisfied, Valid;
    forall key, mode | OfAxis(db, key, g, axis, mode) ensures key in rows {}
    forall key | key in rows ensures OfAxis(db, key, g, axis, db.places[key].mode) {}
  }

  lemma AxesMeaning(db: Db, g: Id, targets: Targets)
    requires Valid(db)
    ensures AxesOk(db, g, targets) <==> EveryAxisLetsThrough(db, g, targets)
  {
    hide Valid, AxisSatisfied, LetsThrough;
    forall axis | NamesAxis(db, g, axis) ensures AxisSatisfied(db, g, axis, targets) <==> LetsThrough(db, g, axis, targets) {
      AxisMeaning(db, g, axis, targets);
    }
    forall key | key in db.places && key.0 == g ensures NamesAxis(db, g, key.1) {}
  }

  lemma StrictMeaning(db: Db, tenant: Id, g: Id)
    ensures StrictMissing(db, g, tenant) == {} <==> StrictAxesNamed(db, tenant, g)
  {
    forall axis ensures PlacesOn(db, g, axis) != {} <==> NamesAxis(db, g, axis) {
      if key :| key in PlacesOn(db, g, axis) { assert NamesAxis(db, g, axis); }
      if NamesAxis(db, g, axis) {
        var key :| key in db.places && key.0 == g && key.1 == axis;
        assert key in PlacesOn(db, g, axis);
      }
    }
    forall axis | (tenant, axis) in db.axes && db.axes[(tenant, axis)].deny && db.axes[(tenant, axis)].active
      ensures axis in StrictMissing(db, g, tenant) <==> !NamesAxis(db, g, axis)
    {
      assert (tenant, axis).1 == axis;
    }
  }

  // One grant, and one permission row it may be for.
  lemma GrantMeaning(db: Db, tenant: Id, identity: Id, g: Id, key: string, targets: Targets, now: int)
    requires Valid(db)
    ensures GrantAllows(db, g, identity, tenant, key, targets, now) <==>
            && Person(db, tenant, identity) && HoldsNow(db, tenant, identity, g, now)
            && (exists p :: InUse(db, tenant, p, key) && Assured(db, p, identity) && (db.grants[g].role, p) in db.effective)
            && SelfTest(db, g, identity, targets) && EveryAxisLetsThrough(db, g, targets) && StrictAxesNamed(db, tenant, g)
  {
    AxesMeaning(db, g, targets);
    StrictMeaning(db, tenant, g);
    hide Valid, AxesOk, StrictMissing, EveryAxisLetsThrough, StrictAxesNamed;
  }

  lemma ShareMeaning(db: Db, tenant: Id, identity: Id, key: string, targets: Targets, now: int)
    ensures ("_record" in targets
             && exists s :: s in db.shares && ShareAllows(db, s, identity, tenant, key, targets["_record"], now)) <==>
            && Person(db, tenant, identity) && (exists p :: InUse(db, tenant, p, key) && Assured(db, p, identity))
            && ByShare(db, tenant, identity, key, targets, now)
  {
    if "_record" in targets {
      if s :| s in db.shares && ShareAllows(db, s, identity, tenant, key, targets["_record"], now) {
        var p :| p in db.permissions && db.permissions[p].tenant == tenant && db.permissions[p].key == key
                 && !db.permissions[p].deprecated && db.permissions[p].minAssurance <= db.identities[identity].assurance;
        assert InUse(db, tenant, p, key) && Assured(db, p, identity);
      }
      if p :| Person(db, tenant, identity) && InUse(db, tenant, p, key) && Assured(db, p, identity) {
        forall s | s in db.shares && db.shares[s].tenant == tenant && db.shares[s].recipient == identity
                   && db.shares[s].record == targets["_record"] && !db.shares[s].revoked && now < db.shares[s].validUntil
                   && key in db.shares[s].keys
          ensures ShareAllows(db, s, identity, tenant, key, targets["_record"], now)
        {
        }
      }
    }
  }

  // authorize() allows exactly what the tables mean.
  lemma AuthorizeMeans(db: Db, tenant: Id, identity: Id, key: string, targets: Targets, now: int)
    requires Valid(db)
    ensures Authorize(db, identity, tenant, key, targets, now) <==> Allowed(db, tenant, identity, key, targets, now)
  {
    forall g ensures GrantAllows(db, g, identity, tenant, key, targets, now) <==>
                     && Person(db, tenant, identity) && HoldsNow(db, tenant, identity, g, now)
                     && (exists p :: InUse(db, tenant, p, key) && Assured(db, p, identity) && (db.grants[g].role, p) in db.effective)
                     && SelfTest(db, g, identity, targets) && EveryAxisLetsThrough(db, g, targets) && StrictAxesNamed(db, tenant, g)
    {
      GrantMeaning(db, tenant, identity, g, key, targets, now);
    }
    ShareMeaning(db, tenant, identity, key, targets, now);
    hide Valid, GrantAllows, ShareAllows, Person, InUse, Assured, EveryAxisLetsThrough, StrictAxesNamed, SelfTest, ByShare;
  }

  // Evaluate allows the same, on the snapshot of any database a history reaches.
  lemma EvaluateMeans(states: seq<Db>, i: nat, d: Snapshot.Data, tenant: Id, at: int,
                      identity: Id, key: string, targets: Targets, now: int)
    requires History(states) && i < |states| && Parity.Loaded(d, states[i], tenant, at) && at <= now
    ensures Snapshot.Evaluate(d, identity, key, targets, now) <==> Allowed(states[i], tenant, identity, key, targets, now)
  {
    HistoryValid(states, i);
    AuthorizeMeans(states[i], tenant, identity, key, targets, now);
    Parity.EnginesNeverDisagree(states, i, d, tenant, at, identity, key, targets, now);
  }

  // ---------------------------------------------------------------- what a denial is put down to

  predicate Confers(db: Db, tenant: Id, g: Id, key: string) {
    g in db.grants
    && exists p :: p in db.permissions && db.permissions[p].tenant == tenant && db.permissions[p].key == key
                   && (db.grants[g].role, p) in db.effective
  }

  // Held, for this permission, whatever state the person and the permission are in.
  predicate Listed(db: Db, tenant: Id, identity: Id, g: Id, key: string, now: int) {
    HoldsNow(db, tenant, identity, g, now) && Confers(db, tenant, g, key)
  }

  predicate SomeInUse(db: Db, tenant: Id, key: string) {
    exists p :: p in db.permissions && InUse(db, tenant, p, key)
  }

  predicate SomeAssured(db: Db, tenant: Id, identity: Id, key: string) {
    exists p :: p in db.permissions && InUse(db, tenant, p, key) && Assured(db, p, identity)
  }

  predicate SomeListed(db: Db, tenant: Id, identity: Id, key: string, now: int) {
    exists g :: g in db.grants && Listed(db, tenant, identity, g, key, now)
  }

  predicate SomePassesSelf(db: Db, tenant: Id, identity: Id, key: string, targets: Targets, now: int) {
    exists g :: g in db.grants && Listed(db, tenant, identity, g, key, now) && SelfTest(db, g, identity, targets)
  }

  // ... and all its axes let through.
  ghost predicate SomePassesAxes(db: Db, tenant: Id, identity: Id, key: string, targets: Targets, now: int) {
    exists g ::
      && g in db.grants && Listed(db, tenant, identity, g, key, now) && SelfTest(db, g, identity, targets)
      && EveryAxisLetsThrough(db, g, targets)
  }

  lemma ListedIsCand(db: Db, tenant: Id, identity: Id, g: Id, key: string, now: int)
    ensures Listed(db, tenant, identity, g, key, now) <==> Explain.Cand(db, g, identity, tenant, key, now)
  {
  }

  lemma GatesMean(db: Db, tenant: Id, identity: Id, key: string)
    requires Valid(db)
    ensures Explain.IdentityFound(db, identity, tenant) <==> identity in db.identities && db.identities[identity].tenant == tenant
    ensures Explain.IdentityOk(db, identity, tenant) <==> Person(db, tenant, identity)
    ensures Explain.PermissionFound(db, tenant, key) && Explain.PermissionLive(db, tenant, key) <==> SomeInUse(db, tenant, key)
    ensures SomeInUse(db, tenant, key) && Person(db, tenant, identity) ==>
              (Explain.AssuranceOk(db, identity, tenant, key) <==> SomeAssured(db, tenant, identity, key))
    ensures SomeAssured(db, tenant, identity, key) ==> SomeInUse(db, tenant, key)
  {
    forall p, q | Explain.PermRow(db, p, tenant, key) && Explain.PermRow(db, q, tenant, key) ensures p == q {
      Explain.PermRowIsOne(db, p, q, tenant, key);
    }
    forall p ensures InUse(db, tenant, p, key) <==> Explain.PermRow(db, p, tenant, key) && !db.permissions[p].deprecated {}
  }

  lemma SelfMeans(db: Db, tenant: Id, identity: Id, key: string, targets: Targets, now: int)
    ensures Explain.SomeCand(db, identity, tenant, key, now) <==> SomeListed(db, tenant, identity, key, now)
    ensures Explain.SomeSelfOk(db, identity, tenant, key, targets, now) <==> SomePassesSelf(db, tenant, identity, key, targets, now)
    ensures SomeListed(db, tenant, identity, key, now) && !SomePassesSelf(db, tenant, identity, key, targets, now) ==>
              Explain.SomeSelfFailed(db, identity, tenant, key, targets, now)
    ensures SomePassesSelf(db, tenant, identity, key, targets, now) ==> SomeListed(db, tenant, identity, key, now)
    ensures SomePassesAxes(db, tenant, identity, key, targets, now) ==> SomePassesSelf(db, tenant, identity, key, targets, now)
  {
    forall g ensures Listed(db, tenant, identity, g, key, now) <==> Explain.Cand(db, g, identity, tenant, key, now) {
      ListedIsCand(db, tenant, identity, g, key, now);
    }
    forall g | g in db.grants ensures SelfTest(db, g, identity, targets) <==> SelfOk(db.grants[g], identity, targets) {}
    hide Explain.Cand, Listed, SelfTest, SelfOk, EveryAxisLetsThrough;
  }

  // Where the gates are passed and nothing allows, a listed grant that passes its self test and
  // whose axes all let through can only miss an axis that denies by default.
  lemma UnresolvedMeans(db: Db, tenant: Id, identity: Id, key: string, targets: Targets, now: int)
    requires Valid(db) && !Allowed(db, tenant, identity, key, targets, now)
    requires Person(db, tenant, identity) && SomeAssured(db, tenant, identity, key)
    ensures Explain.SomeUnresolved(db, identity, tenant, key, targets, now) <==>
            SomePassesAxes(db, tenant, identity, key, targets, now)
  {
    forall g | g in db.grants
      ensures Explain.LineAxesOk(db, g, targets) <==> EveryAxisLetsThrough(db, g, targets)
      ensures StrictMissing(db, g, tenant) == {} <==> StrictAxesNamed(db, tenant, g)
      ensures SelfTest(db, g, identity, targets) <==> SelfOk(db.grants[g], identity, targets)
      ensures Listed(db, tenant, identity, g, key, now) <==> Explain.Cand(db, g, identity, tenant, key, now)
    {
      Explain.AxesFoldsAgree(db, g, targets);
      AxesMeaning(db, g, targets);
      StrictMeaning(db, tenant, g);
      ListedIsCand(db, tenant, identity, g, key, now);
    }
    forall g | Listed(db, tenant, identity, g, key, now) && SelfTest(db, g, identity, targets) && EveryAxisLetsThrough(db, g, targets)
      ensures !StrictAxesNamed(db, tenant, g)
    {
      NothingElseIsMissing(db, tenant, identity, g, key, targets, now);
    }
    hide Valid, Listed, Explain.Cand, SelfTest, SelfOk, EveryAxisLetsThrough, StrictAxesNamed, Explain.LineAxesOk, StrictMissing, Allowed, Person;
  }

  lemma NothingElseIsMissing(db: Db, tenant: Id, identity: Id, g: Id, key: string, targets: Targets, now: int)
    requires Valid(db) && !Allowed(db, tenant, identity, key, targets, now)
    requires Person(db, tenant, identity) && SomeAssured(db, tenant, identity, key)
    requires Listed(db, tenant, identity, g, key, now) && SelfTest(db, g, identity, targets) && EveryAxisLetsThrough(db, g, targets)
    ensures !StrictAxesNamed(db, tenant, g)
  {
    hide EveryAxisLetsThrough, StrictAxesNamed, SelfTest, Person;
    var p :| InUse(db, tenant, p, key) && Assured(db, p, identity);
    var q :| q in db.permissions && db.permissions[q].tenant == tenant && db.permissions[q].key == key && (db.grants[g].role, q) in db.effective;
    assert SameKey(db.permissions[p], db.permissions[q]);
    assert ByGrant(db, tenant, identity, p, targets, now) || !StrictAxesNamed(db, tenant, g);
  }

  // On some axis of a listed grant an include is over the target and an exclude takes it back.
  ghost predicate TakenBack(db: Db, tenant: Id, identity: Id, key: string, targets: Targets, now: int) {
    exists inc: PlaceKey, exc: PlaceKey ::
      && Listed(db, tenant, identity, inc.0, key, now)
      && OfAxis(db, inc, inc.0, inc.1, Include) && OfAxis(db, exc, inc.0, inc.1, Exclude)
      && Over(db, inc, targets) && Over(db, exc, targets)
  }

  lemma TakenBackMeans(db: Db, tenant: Id, identity: Id, key: string, targets: Targets, now: int)
    requires Valid(db)
    ensures Explain.SomeTakenBack(db, identity, tenant, key, targets, now) <==> TakenBack(db, tenant, identity, key, targets, now)
  {
    forall g ensures Listed(db, tenant, identity, g, key, now) <==> Explain.Cand(db, g, identity, tenant, key, now) {
      ListedIsCand(db, tenant, identity, g, key, now);
    }
    forall place | place in db.places
      ensures PlaceCovers(db, place, targets) <==> Over(db, place, targets)
      ensures place.2 in db.scope.nodes
    {
      OverIsCovers(db, place, targets);
      assert PlaceOk(db, place);
    }
    hide Valid, Listed, Explain.Cand, Over, PlaceCovers;
    if TakenBack(db, tenant, identity, key, targets, now) {
      var inc: PlaceKey, exc: PlaceKey :| Listed(db, tenant, identity, inc.0, key, now)
        && OfAxis(db, inc, inc.0, inc.1, Include) && OfAxis(db, exc, inc.0, inc.1, Exclude)
        && Over(db, inc, targets) && Over(db, exc, targets);
      assert Explain.Probed(db, inc, inc.0, inc.1) && Explain.Probed(db, exc, inc.0, inc.1);
      assert Explain.BoolOr(db, inc.0, inc.1, targets, Include) && Explain.BoolOr(db, inc.0, inc.1, targets, Exclude);
    }
    if Explain.SomeTakenBack(db, identity, tenant, key, targets, now) {
      var row :| row in db.places && Explain.Cand(db, row.0, identity, tenant, key, now)
        && Explain.BoolOr(db, row.0, row.1, targets, Include) && Explain.BoolOr(db, row.0, row.1, targets, Exclude);
      var inc :| inc in db.places && Explain.Probed(db, inc, row.0, row.1) && db.places[inc].mode == Include && PlaceCovers(db, inc, targets);
      var exc :| exc in db.places && Explain.Probed(db, exc, row.0, row.1) && db.places[exc].mode == Exclude && PlaceCovers(db, exc, targets);
      assert OfAxis(db, inc, inc.0, inc.1, Include) && OfAxis(db, exc, inc.0, inc.1, Exclude);
    }
  }

  // The reasons, in the order they are looked for; what none of them explains is a plain mismatch.
  lemma ReasonsMean(db: Db, tenant: Id, identity: Id, key: string, targets: Targets, now: int)
    requires Valid(db)
    ensures var why := Explain.ReasonFor(db, identity, tenant, key, targets, now);
            var known := identity in db.identities && db.identities[identity].tenant == tenant;
            var person := Person(db, tenant, identity);
            var used, assured := SomeInUse(db, tenant, key), SomeAssured(db, tenant, identity, key);
            var held, self := SomeListed(db, tenant, identity, key, now), SomePassesSelf(db, tenant, identity, key, targets, now);
            && (why == None <==> Allowed(db, tenant, identity, key, targets, now))
            && (why == Some(Explain.IdentityNotFound) <==> !known)
            && (why == Some(Explain.IdentityInactive) <==> known && !person)
            && (why == Some(Explain.PermissionUnknown) <==> person && !used)
            && (why == Some(Explain.PermissionNotHeld) <==> why.Some? && person && used && !held)
            && (why == Some(Explain.InsufficientAssurance) <==> person && used && held && !assured)
            && (why == Some(Explain.SelfScopeRequired) <==> why.Some? && person && held && assured && !self)
            && (why == Some(Explain.AxisUnresolved) <==> why.Some? && person && assured && SomePassesAxes(db, tenant, identity, key, targets, now))
            && (why == Some(Explain.ScopeExcluded) <==>
                  why.Some? && person && assured && self && !SomePassesAxes(db, tenant, identity, key, targets, now)
                  && TakenBack(db, tenant, identity, key, targets, now))
  {
    hide Valid, Person, SomeInUse, SomeAssured, SomeListed, SomePassesSelf, SomePassesAxes, Allowed, Authorize, TakenBack;
    hide Explain.IdentityFound, Explain.IdentityOk, Explain.PermissionFound, Explain.PermissionLive, Explain.SomeCand,
      Explain.AssuranceOk, Explain.SomeSelfOk, Explain.SomeSelfFailed, Explain.SomeUnresolved, Explain.SomeTakenBack;
    PersonIsKnown(db, tenant, identity);
    TakenBackMeans(db, tenant, identity, key, targets, now);
    AuthorizeMeans(db, tenant, identity, key, targets, now);
    GatesMean(db, tenant, identity, key);
    SelfMeans(db, tenant, identity, key, targets, now);
    if Allowed(db, tenant, identity, key, targets, now) {
      AllowedNeedsGates(db, tenant, identity, key, targets, now);
    } else if Person(db, tenant, identity) && SomeAssured(db, tenant, identity, key) {
      UnresolvedMeans(db, tenant, identity, key, targets, now);
    }
  }

  lemma PersonIsKnown(db: Db, tenant: Id, identity: Id)
    ensures Person(db, tenant, identity) ==> identity in db.identities && db.identities[identity].tenant == tenant
  {
  }

  lemma AllowedNeedsGates(db: Db, tenant: Id, identity: Id, key: string, targets: Targets, now: int)
    requires Allowed(db, tenant, identity, key, targets, now)
    ensures Person(db, tenant, identity) && SomeAssured(db, tenant, identity, key)
  {
  }

  // ---------------------------------------------------------------- where a session may be pinned

  // A grant that puts the person at a place of an axis: in force, of whatever role, not self-scoped,
  // naming every strict axis, and unlimited on this one or letting the place through.
  ghost predicate PutsAt(db: Db, tenant: Id, identity: Id, g: Id, axis: string, place: Id, now: int) {
    && HoldsNow(db, tenant, identity, g, now) && !db.grants[g].selfScoped && StrictAxesNamed(db, tenant, g)
    && (NamesAxis(db, g, axis) ==> LetsThrough(db, g, axis, map[axis := place]))
  }

  lemma PinMeans(d: Snapshot.Data, db: Db, tenant: Id, at: int, identity: Id, axis: string, place: Id, now: int)
    requires Valid(db) && Parity.Loaded(d, db, tenant, at)
    ensures OpenAxis.Reaches(d, identity, axis, place, now) <==>
            && Person(db, tenant, identity) && place in db.scope.nodes && db.scope.nodes[place].tenant == tenant
            && exists g :: PutsAt(db, tenant, identity, g, axis, place, now)
  {
    assert identity in d.identities && !d.identities[identity].blocked <==> Person(db, tenant, identity);
    if place in d.scope.idx {
      forall g | g in Snapshot.GrantsOf(d, identity)
        ensures PutsAt(db, tenant, identity, g.id, axis, place, now) <==> OpenAxis.PinnedBy(d, g, axis, d.scope.idx[place], now)
      {
        PinAgrees(d, db, tenant, at, identity, g, axis, place, now);
      }
      forall g | PutsAt(db, tenant, identity, g, axis, place, now)
        ensures exists held :: held in Snapshot.GrantsOf(d, identity) && held.id == g {}
    }
    hide PutsAt, OpenAxis.PinnedBy, Valid, Person, Parity.GrantsLoaded, Parity.SharesLoaded, Parity.PermissionsLoaded;
  }

  lemma SameAxes(x: Snapshot.Grant, db: Db, axis: string)
    requires axis in x.scopes <==> PlacesOn(db, x.id, axis) != {}
    ensures axis in x.scopes <==> NamesAxis(db, x.id, axis)
  {
    if axis in x.scopes { var key := Member(PlacesOn(db, x.id, axis)); }
    if NamesAxis(db, x.id, axis) {
      var key :| key in db.places && key.0 == x.id && key.1 == axis;
      assert key in PlacesOn(db, x.id, axis);
    }
  }

  lemma PinAgrees(d: Snapshot.Data, db: Db, tenant: Id, at: int, identity: Id, g: Snapshot.Grant, axis: string, place: Id, now: int)
    requires Valid(db) && Parity.Loaded(d, db, tenant, at) && g in Snapshot.GrantsOf(d, identity) && place in d.scope.idx
    ensures PutsAt(db, tenant, identity, g.id, axis, place, now) <==> OpenAxis.PinnedBy(d, g, axis, d.scope.idx[place], now)
  {
    hide Valid, StrictAxesNamed, LetsThrough;
    PinHolds(d, db, tenant, at, identity, g, now);
    PinStrict(d, db, tenant, at, identity, g);
    PinAxis(d, db, tenant, at, identity, g, axis, place);
  }

  lemma PinHolds(d: Snapshot.Data, db: Db, tenant: Id, at: int, identity: Id, g: Snapshot.Grant, now: int)
    requires Valid(db) && Parity.Loaded(d, db, tenant, at) && g in Snapshot.GrantsOf(d, identity)
    ensures g.id in db.grants && db.grants[g.id].selfScoped == g.selfScoped
    ensures HoldsNow(db, tenant, identity, g.id, now) <==> Snapshot.Live(g, now)
  {
    hide Parity.TreeLoaded, Parity.SharesLoaded, Parity.PermissionsLoaded, Parity.IdentitiesLoaded, Parity.AxisLoaded;
    assert Parity.GrantLoaded(d.scope, db, g.id, g) && GrantOk(db, g.id);
  }

  lemma PinStrict(d: Snapshot.Data, db: Db, tenant: Id, at: int, identity: Id, g: Snapshot.Grant)
    requires Valid(db) && Parity.Loaded(d, db, tenant, at) && g in Snapshot.GrantsOf(d, identity)
    ensures StrictAxesNamed(db, tenant, g.id) <==> Snapshot.StrictAxesAddressed(d, g)
  {
    hide Valid, StrictAxesNamed, StrictMissing, Parity.GrantLoaded, Snapshot.StrictAxesAddressed, Parity.StrictLoaded;
    Parity.StrictAgrees(d, db, tenant, g);
    StrictMeaning(db, tenant, g.id);
  }

  lemma PinAxis(d: Snapshot.Data, db: Db, tenant: Id, at: int, identity: Id, g: Snapshot.Grant, axis: string, place: Id)
    requires Valid(db) && Parity.Loaded(d, db, tenant, at) && g in Snapshot.GrantsOf(d, identity) && place in d.scope.idx
    ensures axis in g.scopes <==> NamesAxis(db, g.id, axis)
    ensures axis in g.scopes ==>
              (Admitted(d.scope.parent, g.scopes[axis], d.scope.idx[place]) <==> LetsThrough(db, g.id, axis, map[axis := place]))
  {
    hide Parity.SharesLoaded, Parity.PermissionsLoaded, Parity.IdentitiesLoaded, Parity.AxisLoaded, LetsThrough, Admitted;
    assert Parity.GrantLoaded(d.scope, db, g.id, g);
    SameAxes(g, db, axis);
    if axis in g.scopes {
      Parity.AxisAgrees(d, db, tenant, g, axis, map[axis := place]);
      AxisMeaning(db, g.id, axis, map[axis := place]);
    }
  }

  // ---------------------------------------------------------------- one's own records

  // A grant for the permission that is good for records of one's own.
  ghost predicate ForOwn(db: Db, tenant: Id, identity: Id, g: Id, key: string, now: int) {
    && HoldsNow(db, tenant, identity, g, now) && db.grants[g].selfScoped && StrictAxesNamed(db, tenant, g)
    && exists p :: InUse(db, tenant, p, key) && (db.grants[g].role, p) in db.effective
  }

  // The list says "own records" exactly when the person may use the permission and holds such a grant.
  lemma OwnMeans(d: Snapshot.Data, db: Db, tenant: Id, at: int, q: GrantedNodes.Query, out: GrantedNodes.Answer)
    requires Valid(db) && Parity.Loaded(d, db, tenant, at)
    requires if Snapshot.Gates(d, q.identity, q.permission) then GrantedNodes.IsAnswer(d, q, out) else out == GrantedNodes.Answer(false, false, [])
    ensures out.ownRecords <==>
            && Person(db, tenant, q.identity) && SomeAssured(db, tenant, q.identity, q.permission)
            && exists g :: ForOwn(db, tenant, q.identity, g, q.permission, q.now)
  {
    GatesAreColumns(d, db, tenant, at, q.identity, q.permission);
    var gs := Snapshot.GrantsOf(d, q.identity);
    forall g | g in gs
      ensures ForOwn(db, tenant, q.identity, g.id, q.permission, q.now) <==>
              GrantedNodes.GrantQualifies(d, g, q.permission, q.now) && g.selfScoped
    {
      PinHolds(d, db, tenant, at, q.identity, g, q.now);
      PinStrict(d, db, tenant, at, q.identity, g);
      OwnConfers(d, db, tenant, at, q.identity, g, q.permission);
    }
    forall g | ForOwn(db, tenant, q.identity, g, q.permission, q.now) ensures exists held :: held in gs && held.id == g {
      HeldIsLoaded(d, db, tenant, at, q.identity, g, q.now);
    }
    hide ForOwn, GrantedNodes.GrantQualifies, Valid, Person, SomeAssured, Parity.Loaded, GrantedNodes.DistinctKeys, GrantedNodes.Lists, GrantedNodes.Ordered;
    assert Snapshot.Gates(d, q.identity, q.permission) ==> (out.ownRecords <==> GrantedNodes.SomeOwn(d, q, gs));
  }

  lemma GatesAreColumns(d: Snapshot.Data, db: Db, tenant: Id, at: int, identity: Id, key: string)
    requires Valid(db) && Parity.Loaded(d, db, tenant, at)
    ensures Snapshot.Gates(d, identity, key) <==> Person(db, tenant, identity) && SomeAssured(db, tenant, identity, key)
  {
    hide Parity.TreeLoaded, Parity.GrantsLoaded, Parity.SharesLoaded, Parity.StrictLoaded;
    Parity.GatesMeaning(d, db, tenant, identity, key);
    if identity in db.identities {
      forall p ensures Parity.Reachable(db, tenant, p, key, identity) <==> p in db.permissions && InUse(db, tenant, p, key) && Assured(db, p, identity) {}
    }
  }

  lemma OwnConfers(d: Snapshot.Data, db: Db, tenant: Id, at: int, identity: Id, g: Snapshot.Grant, key: string)
    requires Valid(db) && Parity.Loaded(d, db, tenant, at) && g in Snapshot.GrantsOf(d, identity)
    ensures g.id in db.grants && db.grants[g.id].identity == identity && db.grants[g.id].role == g.role
    ensures Snapshot.Confers(d, g.role, key) <==> exists p :: InUse(db, tenant, p, key) && (db.grants[g.id].role, p) in db.effective
  {
    hide Parity.TreeLoaded, Parity.SharesLoaded, Parity.IdentitiesLoaded, Parity.AxisLoaded, Parity.StrictLoaded, Valid;
    assert Parity.GrantLoaded(d.scope, db, g.id, g);
  }

  lemma HeldIsLoaded(d: Snapshot.Data, db: Db, tenant: Id, at: int, identity: Id, g: Id, now: int)
    requires Parity.Loaded(d, db, tenant, at) && HoldsNow(db, tenant, identity, g, now)
    ensures exists held :: held in Snapshot.GrantsOf(d, identity) && held.id == g
  {
  }
}
