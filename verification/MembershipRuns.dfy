// What assigning, leaving and resyncing keep, and what every run of them leaves true.
module MembershipRuns {
  import opened Prelude
  import opened Catalog
  import opened Membership

  // ---------------------------------------------------------------- each routine keeps the tables sound

  lemma AssignKeepsSound(o: Org, now: int, a: Asked, o': Org, r: Result<Option<nat>, Fault>)
    requires Sound(o, now) && AssignStep(o, now, a, o', r)
    ensures Sound(o', now)
  {
    if Objection(o, a, now).None? {
      var gone := LapsedSeats(o, a, now);
      var closed, place := Without(o, gone), PlaceOf(o, a);
      forall g | g in o.grants && InForce(o.grants[g], now) && o.grants[g].member.Some? ensures o.grants[g].member.value !in gone {
        assert Faithful(o, g);
      }
      WithdrawKeepsSound(o, closed, now, {}, gone);
      if r.Ok? && r.value.Some? {
        var joined := Joined(closed, a, place);
        JoinedIsSound(closed, a, place, now);
        forall p | p in LivePairs(o, o.next, a.membership) ensures !HasGrant(joined, p.0, p.1) { NobodysGrant(closed, a, place, p.1, now); }
        FanoutKeepsSound(joined, o', LivePairs(o, o.next, a.membership), now);
      }
    }
  }

  lemma NextIsFree(o: Org, now: int)
    requires Sound(o, now)
    ensures o.next !in o.members && o.next !in o.grants
  {
    forall m | m in o.members ensures m < o.next { assert MemberOk(o, m); }
    forall g | g in o.grants ensures g < o.next { assert Faithful(o, g); }
  }

  lemma JoinedIsSound(o: Org, a: Asked, place: Option<(string, Id)>, now: int)
    requires Sound(o, now) && Objection(o, a, now).None? && place == PlaceOf(o, a) && !Seated(o, a)
    requires a.identity in o.people && (place.Some? ==> place.value in o.nodes)
    ensures Sound(Joined(o, a, place), now)
  {
    var o' := Joined(o, a, place);
    NextIsFree(o, now);
    forall m | m in o'.members ensures MemberOk(o', m) { if m in o.members { assert MemberOk(o, m); } }
    forall e | e in o'.entries ensures EntryOk(o', e) { assert EntryOk(o, e); }
    forall b, c | b in o'.members && c in o'.members && SameSeat(o'.members[b], o'.members[c]) ensures b == c {
      if b in o.members && c in o.members {
        assert SameSeat(o.members[b], o.members[c]);
      } else if b in o.members {
        assert InSeat(o.members[b], a);
      } else if c in o.members {
        assert InSeat(o.members[c], a);
      }
    }
    forall g | g in o'.grants ensures Faithful(o', g) { assert Faithful(o, g); }
    forall g | g in o'.grants ensures !Stray(o', g, now) { assert !Stray(o, g, now) && Faithful(o, g); }
  }

  lemma NobodysGrant(o: Org, a: Asked, place: Option<(string, Id)>, e: Id, now: int)
    requires Sound(o, now)
    ensures !HasGrant(Joined(o, a, place), o.next, e)
  {
    NextIsFree(o, now);
    forall g | g in o.grants ensures !Gives(o.grants[g], o.next, e) { assert Faithful(o, g); }
  }

  lemma ResyncKeepsSound(o: Org, now: int, ms: Id, o': Org, r: Result<nat, Fault>)
    requires Sound(o, now) && ResyncStep(o, now, ms, o', r)
    ensures Sound(o', now)
  {
    if r.Ok? {
      var cleared := RevokeAll(o, Retired(o, ms), NO_LONGER);
      WithdrawKeepsSound(o, cleared, now, Retired(o, ms), {});
      FanoutKeepsSound(cleared, o', Missing(cleared, ms, now), now);
    }
  }

  lemma LeaveKeepsSound(o: Org, now: int, m: nat, why: string)
    requires Sound(o, now)
    ensures Sound(Leave(o, m, why), now)
  {
    WithdrawKeepsSound(o, Leave(o, m, why), now, GrantsOf(o, m), {m});
  }

  lemma UnassignKeepsSound(o: Org, now: int, identity: Id, ms: Id, why: string)
    requires Sound(o, now)
    ensures Sound(Unassign(o, identity, ms, why), now)
  {
    forall g | g in o.grants && InForce(o.grants[g], now) && o.grants[g].member.Some? && o.grants[g].member.value in SeatsOf(o, identity, ms)
      ensures g in HeldThrough(o, identity, ms)
    {
      assert Faithful(o, g);
    }
    WithdrawKeepsSound(o, Unassign(o, identity, ms, why), now, HeldThrough(o, identity, ms), SeatsOf(o, identity, ms));
  }

  // ---------------------------------------------------------------- resync

  // Nothing from a retired entry is left and nobody is missing one ...
  lemma ResyncSettles(o: Org, now: int, ms: Id, o': Org, r: Result<nat, Fault>)
    requires Sound(o, now) && ResyncStep(o, now, ms, o', r) && r.Ok?
    ensures Settled(o', ms, now)
  {
    var cleared := RevokeAll(o, Retired(o, ms), NO_LONGER);
    var pairs := Missing(cleared, ms, now);
    forall m: nat, e | Current(o', m, ms, now) && LiveEntry(o', e, ms) ensures HasGrant(o', m, e) {
      if HasGrant(cleared, m, e) {
        var g :| g in cleared.grants && Gives(cleared.grants[g], m, e);
        assert Gives(o'.grants[g], m, e);
      } else {
        assert Current(cleared, m, ms, now) && LiveEntry(cleared, e, ms);
        assert (m, e) in pairs;
        Promised(cleared, o', pairs, (m, e));
      }
    }
    forall g | g in o'.grants ensures !FromRetired(o', g, ms) {
      if g in o.grants { assert g in cleared.grants; } else { assert IsNew(cleared, o', g); }
    }
  }

  lemma Promised(o: Org, o': Org, pairs: set<(nat, Id)>, p: (nat, Id))
    requires Fanout(o, o', pairs) && p in pairs
    ensures HasGrant(o', p.0, p.1)
  {
    var had := HasGrant(o', p.0, p.1);
    var g: nat :| IsNew(o, o', g) && Gives(o'.grants[g], p.0, p.1);
  }

  // ... so each current assignment has exactly one grant for each live entry, with the entry's
  // places, the assignment's own and its end date.
  lemma ExactlyOneEach(o: Org, ms: Id, now: int, m: nat, e: Id)
    requires Sound(o, now) && Settled(o, ms, now) && Current(o, m, ms, now) && LiveEntry(o, e, ms)
    ensures exists g ::
              && g in o.grants && Gives(o.grants[g], m, e)
              && (forall h :: h in o.grants && Gives(o.grants[h], m, e) ==> h == g)
              && o.grants[g].validUntil == o.members[m].validUntil && o.grants[g].identity == o.members[m].identity
              && o.grants[g].places.Keys == o.entries[e].places.Keys + (if o.members[m].place.Some? then {o.members[m].place.value} else {})
              && (forall p :: p in o.entries[e].places ==> o.grants[g].places[p] == o.entries[e].places[p])
              && (o.members[m].place.Some? ==>
                    var own := o.grants[g].places[o.members[m].place.value]; own.mode == Include && own.inherit == o.members[m].inherit)
              && o.grants[g].role == o.entries[e].role && o.grants[g].reason == o.members[m].reason
              && o.grants[g].membership == Some(ms) && !o.grants[g].revoked
  {
    assert HasGrant(o, m, e);
    var g :| g in o.grants && Gives(o.grants[g], m, e);
    assert Faithful(o, g);
    forall h | h in o.grants && Gives(o.grants[h], m, e) ensures h == g { assert SamePair(o.grants[h], o.grants[g]); }
    assert MemberOk(o, m) && EntryOk(o, e);
  }

  // A resync right after another does nothing.
  lemma ResyncAgainIsNothing(o: Org, now: int, ms: Id, o': Org, r: Result<nat, Fault>)
    requires Settled(o, ms, now) && ResyncStep(o, now, ms, o', r)
    ensures r == Ok(0) && o'.grants == o.grants && o'.members == o.members
  {
    var cleared := RevokeAll(o, Retired(o, ms), NO_LONGER);
    forall g | g in o.grants ensures g !in Retired(o, ms) { assert !FromRetired(o, g, ms); }
    assert Retired(o, ms) == {};
    assert cleared.grants == o.grants;
    assert cleared == o;
    assert Missing(o, ms, now) == {};
    if r.Ok? {
      forall g | g in o'.grants ensures g in o.grants {
        var added := IsNew(o, o', g);
      }
      assert o'.grants == o.grants;
    }
  }

  // ---------------------------------------------------------------- what stays settled

  lemma AssignStaysSettled(o: Org, now: int, a: Asked, o': Org, r: Result<Option<nat>, Fault>, ms: Id)
    requires Sound(o, now) && AssignStep(o, now, a, o', r) && Settled(o, ms, now)
    ensures Settled(o', ms, now)
  {
    if Objection(o, a, now).None? && r.Ok? {
      var closed := Without(o, LapsedSeats(o, a, now));
      NextIsFree(o, now);
      forall m: nat, e | Current(o', m, ms, now) && LiveEntry(o', e, ms) ensures HasGrant(o', m, e) {
        assert LiveEntry(o, e, ms);
        if m in o.members {
          assert Current(o, m, ms, now);
          assert HasGrant(o, m, e);
          var g :| g in o.grants && Gives(o.grants[g], m, e);
          assert g in closed.grants;
          assert Gives(o'.grants[g], m, e);
        } else {
          assert (m, e) in LivePairs(o, o.next, a.membership);
          Promised(Joined(closed, a, PlaceOf(o, a)), o', LivePairs(o, o.next, a.membership), (m, e));
        }
      }
      forall g | g in o'.grants ensures !FromRetired(o', g, ms) {
        if g in o.grants {
          assert !FromRetired(o, g, ms);
        } else {
          assert IsNew(Joined(closed, a, PlaceOf(o, a)), o', g);
        }
      }
    }
  }

  // Taking grants from assignments that are removed as well leaves the rest as settled as it was.
  lemma WithdrawStaysSettled(o: Org, o': Org, now: int, which: set<nat>, gone: set<nat>, ms: Id)
    requires Settled(o, ms, now) && o' == o.(grants := o'.grants, members := o'.members)
    requires o'.grants.Keys == o.grants.Keys && o'.members.Keys == o.members.Keys
    requires forall g :: g in o.grants ==>
               o'.grants[g] == if g in which then o.grants[g].(revoked := true, revokeReason := o'.grants[g].revokeReason) else o.grants[g]
    requires forall m :: m in o.members ==> o'.members[m] == if m in gone then o.members[m].(removed := true) else o.members[m]
    requires forall g :: g in o.grants && g in which && o.grants[g].member.Some? && o.grants[g].member.value in o.members ==>
               o.grants[g].member.value in gone || o.members[o.grants[g].member.value].removed
    ensures Settled(o', ms, now)
  {
    forall m: nat, e | Current(o', m, ms, now) && LiveEntry(o', e, ms) ensures HasGrant(o', m, e) {
      assert Current(o, m, ms, now) && LiveEntry(o, e, ms);
      assert HasGrant(o, m, e);
      var g :| g in o.grants && Gives(o.grants[g], m, e);
      assert Gives(o'.grants[g], m, e);
    }
    forall g | g in o'.grants ensures !FromRetired(o', g, ms) { assert !FromRetired(o, g, ms); }
  }

  lemma LeaveStaysSettled(o: Org, now: int, m: nat, why: string, ms: Id)
    requires Settled(o, ms, now)
    ensures Settled(Leave(o, m, why), ms, now)
  {
    WithdrawStaysSettled(o, Leave(o, m, why), now, GrantsOf(o, m), {m}, ms);
  }

  lemma UnassignStaysSettled(o: Org, now: int, identity: Id, other: Id, why: string, ms: Id)
    requires Sound(o, now) && Settled(o, ms, now)
    ensures Settled(Unassign(o, identity, other, why), ms, now)
  {
    forall g | g in HeldThrough(o, identity, other) && o.grants[g].member.Some? && o.grants[g].member.value in o.members
      ensures o.grants[g].member.value in SeatsOf(o, identity, other) || o.members[o.grants[g].member.value].removed
    {
      assert Faithful(o, g);
    }
    WithdrawStaysSettled(o, Unassign(o, identity, other, why), now, HeldThrough(o, identity, other), SeatsOf(o, identity, other), ms);
  }

  // ---------------------------------------------------------------- frames

  predicate SameGrantBut(g: Fanned, h: Fanned) {
    && g.identity == h.identity && g.role == h.role && g.validUntil == h.validUntil && g.reason == h.reason
    && g.membership == h.membership && g.entry == h.entry && g.member == h.member && g.places == h.places
  }

  predicate Past(validUntil: Option<int>, now: int) {
    validUntil.Some? && validUntil.value <= now
  }

  // A standing assignment of what is asked for: same membership, same person, same place.
  predicate Sits(o: Org, m: nat, a: Asked) {
    && m in o.members && o.members[m].membership == a.membership && o.members[m].identity == a.identity && !o.members[m].removed
    && (match a.node
        case None => o.members[m].place.None?
        case Some(node) => o.members[m].place.Some? && o.members[m].place.value.1 == node)
  }

  // What assigning answers: the four refusals in their order, and nothing to do when the seat is taken.
  lemma AssignAnswers(o: Org, now: int, a: Asked, o': Org, r: Result<Option<nat>, Fault>)
    requires Sound(o, now) && AssignStep(o, now, a, o', r)
    ensures var known := a.membership in o.anchors;
            var placed := known && (o.anchors[a.membership].Some? <==> a.node.Some?);
            && (r.Err? ==> o' == o)
            && (r == Err(UnknownMembership) <==> !known)
            && (r == Err(PlaceNotOurs) <==> known && o.anchors[a.membership].None? && a.node.Some?)
            && (r == Err(PlaceMissing) <==> known && o.anchors[a.membership].Some? && a.node.None?)
            && (r == Err(EndsBeforeStart) <==> placed && Past(a.validUntil, now))
            && (r == Ok(None) <==> placed && !Past(a.validUntil, now) && exists m :: Sits(o, m, a) && !Past(o.members[m].validUntil, now))
  {
    SeatedMeans(o, a, now);
    hide Sound, Fanout, Refuses, Seated, LapsedSeats, LivePairs, PlaceOf;
  }

  // What it writes: a lapsed assignment in the seat is closed, and the new one is as it was asked for.
  lemma AssignWrites(o: Org, now: int, a: Asked, o': Org, r: Result<Option<nat>, Fault>)
    requires Sound(o, now) && AssignStep(o, now, a, o', r)
    ensures r.Ok? ==>
              forall m :: m in o.members ==>
                m in o'.members && o'.members[m] == if Sits(o, m, a) && Past(o.members[m].validUntil, now)
                                                    then o.members[m].(removed := true) else o.members[m]
    ensures r.Ok? && r.value.Some? ==>
              var m := r.value.value;
              && m !in o.members && o'.members.Keys == o.members.Keys + {m}
              && var member := o'.members[m];
                 && member.membership == a.membership && member.identity == a.identity && !member.removed
                 && member.inherit == (a.inherit.None? || a.inherit.value)
                 && member.validUntil == a.validUntil && member.reason == a.reason
                 && (match a.node
                     case None => member.place.None?
                     case Some(node) => member.place.Some? && member.place.value.1 == node && o.anchors[a.membership] == Some(member.place.value.0))
    ensures r.Ok? && r.value.None? ==> o'.members.Keys == o.members.Keys && o'.grants == o.grants
  {
    NextIsFree(o, now);
    forall m: nat ensures Sits(o, m, a) <==> m in o.members && InSeat(o.members[m], a) {}
    hide Sound, Fanout, Refuses, Seated;
    if Objection(o, a, now).None? && r.Ok? && r.value.Some? {
      FanoutKeepsMembers(Joined(Without(o, LapsedSeats(o, a, now)), a, PlaceOf(o, a)), o', LivePairs(o, o.next, a.membership));
    }
  }

  lemma SeatedMeans(o: Org, a: Asked, now: int)
    ensures Seated(Without(o, LapsedSeats(o, a, now)), a) <==> exists m :: Sits(o, m, a) && !Past(o.members[m].validUntil, now)
  {
    var closed := Without(o, LapsedSeats(o, a, now));
    if m :| m in closed.members && InSeat(closed.members[m], a) { assert Sits(o, m, a) && !Past(o.members[m].validUntil, now); }
    if m :| Sits(o, m, a) && !Past(o.members[m].validUntil, now) { assert m in closed.members && InSeat(closed.members[m], a); }
  }

  lemma FanoutKeepsMembers(o: Org, o': Org, pairs: set<(nat, Id)>)
    requires Fanout(o, o', pairs)
    ensures o'.members == o.members
  {
  }

  // An assignment of the membership neither removed nor over, and a live entry of it.
  predicate Stands(o: Org, m: nat, ms: Id, now: int) {
    m in o.members && o.members[m].membership == ms && !o.members[m].removed && !Past(o.members[m].validUntil, now)
  }

  predicate Lives(o: Org, e: Id, ms: Id) {
    e in o.entries && o.entries[e].membership == ms && !o.entries[e].retired
  }

  // A grant of the pair, not revoked.
  predicate Holds(g: Fanned, m: nat, e: Id) {
    g.member == Some(m) && g.entry == Some(e) && !g.revoked
  }

  predicate IsServed(o: Org, m: nat, e: Id) {
    exists g :: g in o.grants && Holds(o.grants[g], m, e)
  }

  predicate Added(o: Org, o': Org, g: nat) {
    g in o'.grants && g !in o.grants
  }

  // Assigning adds a grant for each live entry of the membership and none for anything else.
  lemma AssignGives(o: Org, now: int, a: Asked, o': Org, r: Result<Option<nat>, Fault>)
    requires Sound(o, now) && AssignStep(o, now, a, o', r) && r.Ok? && r.value.Some?
    ensures var m := r.value.value;
            && (forall e :: Lives(o, e, a.membership) ==> IsServed(o', m, e))
            && (forall g :: Added(o, o', g) ==>
                  var entry := o'.grants[g].entry; entry.Some? && Lives(o, entry.value, a.membership) && Holds(o'.grants[g], m, entry.value))
            && (forall g :: g in o.grants ==> g in o'.grants && o'.grants[g] == o.grants[g])
  {
    var m := r.value.value;
    var joined := Joined(Without(o, LapsedSeats(o, a, now)), a, PlaceOf(o, a));
    var pairs := LivePairs(o, o.next, a.membership);
    forall e | Lives(o, e, a.membership) ensures IsServed(o', m, e) {
      assert (m, e) in pairs;
      Promised(joined, o', pairs, (m, e));
      var g :| g in o'.grants && Gives(o'.grants[g], m, e);
      assert Holds(o'.grants[g], m, e);
    }
    forall g | Added(o, o', g)
      ensures var entry := o'.grants[g].entry; entry.Some? && Lives(o, entry.value, a.membership) && Holds(o'.grants[g], m, entry.value)
    {
      assert IsNew(joined, o', g);
    }
  }

  // A refused assignment: nobody of that id, no such place, or a role the grants' own rules refuse.
  lemma AssignRefuses(o: Org, now: int, a: Asked, o': Org, r: Result<Option<nat>, Fault>)
    requires Sound(o, now) && AssignStep(o, now, a, o', r)
    ensures var asked := a.membership in o.anchors && (o.anchors[a.membership].Some? <==> a.node.Some?) && !Past(a.validUntil, now)
                         && !exists m :: Sits(o, m, a) && !Past(o.members[m].validUntil, now);
            var known := asked && a.identity in o.people && (a.node.Some? ==> (o.anchors[a.membership].value, a.node.value) in o.nodes);
            && (r == Err(BadReference) <==> asked && !known)
            && (r == Err(GrantRefused) <==> known && exists e :: Lives(o, e, a.membership) && (a.identity, o.entries[e].role) in o.refused)
  {
    SeatedMeans(o, a, now);
    if Objection(o, a, now).None? {
      var joined := Joined(Without(o, LapsedSeats(o, a, now)), a, PlaceOf(o, a));
      RefusedEntry(o, joined, a);
      hide Sound, Fanout, Refuses, Seated, LapsedSeats, LivePairs;
    }
  }

  lemma RefusedEntry(o: Org, joined: Org, a: Asked)
    requires joined.entries == o.entries && joined.refused == o.refused && o.next in joined.members && joined.members[o.next].identity == a.identity
    ensures Refuses(joined, LivePairs(o, o.next, a.membership)) <==>
            exists e :: Lives(o, e, a.membership) && (a.identity, o.entries[e].role) in o.refused
  {
    if e :| Lives(o, e, a.membership) && (a.identity, o.entries[e].role) in o.refused {
      assert (o.next, e) in LivePairs(o, o.next, a.membership);
    }
  }

  // A resync adds a grant for each standing assignment and live entry that had none.
  lemma ResyncGives(o: Org, now: int, ms: Id, o': Org, r: Result<nat, Fault>)
    requires ResyncStep(o, now, ms, o', r) && r.Ok?
    ensures forall m: nat, e :: Stands(o, m, ms, now) && Lives(o, e, ms) ==> IsServed(o', m, e)
    ensures forall g :: Added(o, o', g) ==>
              var grant := o'.grants[g];
              && grant.member.Some? && grant.entry.Some? && Holds(grant, grant.member.value, grant.entry.value)
              && Stands(o, grant.member.value, ms, now) && Lives(o, grant.entry.value, ms) && !IsServed(o, grant.member.value, grant.entry.value)
  {
    var cleared := RevokeAll(o, Retired(o, ms), NO_LONGER);
    var pairs := Missing(cleared, ms, now);
    forall m: nat, e | Stands(o, m, ms, now) && Lives(o, e, ms) ensures IsServed(o', m, e) {
      if HasGrant(cleared, m, e) {
        var g :| g in cleared.grants && Gives(cleared.grants[g], m, e);
        assert Holds(o'.grants[g], m, e);
      } else {
        assert Current(cleared, m, ms, now) && LiveEntry(cleared, e, ms);
        assert (m, e) in pairs;
        Promised(cleared, o', pairs, (m, e));
        var g :| g in o'.grants && Gives(o'.grants[g], m, e);
        assert Holds(o'.grants[g], m, e);
      }
    }
    forall g | Added(o, o', g)
      ensures var grant := o'.grants[g];
              && grant.member.Some? && grant.entry.Some? && Holds(grant, grant.member.value, grant.entry.value)
              && Stands(o, grant.member.value, ms, now) && Lives(o, grant.entry.value, ms) && !IsServed(o, grant.member.value, grant.entry.value)
    {
      assert IsNew(cleared, o', g);
      var m, e := o'.grants[g].member.value, o'.grants[g].entry.value;
      assert !HasGrant(cleared, m, e);
      forall h | h in o.grants ensures !Holds(o.grants[h], m, e) {
        assert h in cleared.grants && !Gives(cleared.grants[h], m, e);
        assert !FromRetired(o, h, ms) || o.grants[h].entry != Some(e);
      }
    }
  }

  // What a resync takes back: the unrevoked grants of the membership's retired entries, keeping a
  // reason already there.
  lemma ResyncTakesBack(o: Org, now: int, ms: Id, o': Org, r: Result<nat, Fault>, g: nat)
    requires ResyncStep(o, now, ms, o', r) && r.Ok? && g in o.grants
    ensures var was := o.grants[g];
            var stale := was.membership == Some(ms) && !was.revoked && was.entry.Some? && was.entry.value in o.entries && o.entries[was.entry.value].retired;
            && g in o'.grants
            && (stale ==>
                  o'.grants[g].revoked && SameGrantBut(was, o'.grants[g])
                  && o'.grants[g].revokeReason ==
                     if was.revokeReason.Some? then was.revokeReason else Some("the membership no longer gives this role"))
            && (!stale ==> o'.grants[g] == was)
  {
    var cleared := RevokeAll(o, Retired(o, ms), NO_LONGER);
    assert g in cleared.grants;
    assert g in Retired(o, ms) <==> FromRetired(o, g, ms);
  }

  // Leaving one place touches no other assignment and no other assignment's grants.
  lemma LeaveTouchesOneAssignment(o: Org, m: nat, why: string)
    ensures var o' := Leave(o, m, why);
            && (forall k :: k in o.members && k != m ==> k in o'.members && o'.members[k] == o.members[k])
            && (forall g :: g in o.grants && o.grants[g].member != Some(m) ==> g in o'.grants && o'.grants[g] == o.grants[g])
            && (forall g :: g in o'.grants && o'.grants[g].member == Some(m) ==> o'.grants[g].revoked)
            && (m in o.members ==> o'.members[m].removed)
            && (forall g :: g in o.grants && o.grants[g].member == Some(m) ==>
                  var was, is' := o.grants[g], o'.grants[g];
                  is'.revokeReason == (if was.revoked then was.revokeReason else Some(why)) && SameGrantBut(was, is'))
  {
    var o' := Leave(o, m, why);
    assert o'.members.Keys == o.members.Keys && o'.grants.Keys == o.grants.Keys;
  }

  // Out at every place: nothing of the membership is left to the person, the grants from before
  // assignments had ids included, and nothing of anybody else's or of another membership changes.
  lemma UnassignTakesAll(o: Org, identity: Id, ms: Id, why: string)
    ensures var o' := Unassign(o, identity, ms, why);
            && (forall g :: g in o'.grants && o'.grants[g].identity == identity && o'.grants[g].membership == Some(ms) ==> o'.grants[g].revoked)
            && (forall m :: m in o'.members && o'.members[m].identity == identity && o'.members[m].membership == ms ==> o'.members[m].removed)
            && (forall g :: g in o.grants && (o.grants[g].identity != identity || o.grants[g].membership != Some(ms)) ==>
                  g in o'.grants && o'.grants[g] == o.grants[g])
            && (forall m :: m in o.members && (o.members[m].identity != identity || o.members[m].membership != ms) ==>
                  m in o'.members && o'.members[m] == o.members[m])
            && o' == o.(grants := o'.grants, members := o'.members)
            && (forall g :: g in o.grants && o.grants[g].identity == identity && o.grants[g].membership == Some(ms) ==>
                  var was, is' := o.grants[g], o'.grants[g];
                  is'.revokeReason == (if was.revoked then was.revokeReason else Some(why)) && SameGrantBut(was, is'))
  {
    var o' := Unassign(o, identity, ms, why);
    assert o'.members.Keys == o.members.Keys && o'.grants.Keys == o.grants.Keys;
  }

  // ---------------------------------------------------------------- runs

  datatype Act =
    | Assigning(asked: Asked)
    | Resyncing(ms: Id)
    | Leaving(m: nat, why: string)
    | Unassigning(identity: Id, ms: Id, why: string)
    | Creating(ms: Id, anchor: Option<string>)
    | Adding(e: Id, entry: Entry)
    | Retiring(ms: Id, es: set<Id>)
    | Rewriting(people: set<Id>, nodes: set<(string, Id)>, refused: set<(Id, Id)>)

  function Create(o: Org, ms: Id, anchor: Option<string>): Org {
    if ms in o.anchors then o else o.(anchors := o.anchors[ms := anchor])
  }

  // A new entry of a known membership, its places off the anchor axis, as the guard demands.
  function Add(o: Org, e: Id, entry: Entry): Org {
    var o' := o.(entries := o.entries[e := entry.(retired := false)]);
    if e in o.entries || !EntryOk(o', e) then o else o'
  }

  function Retire(o: Org, ms: Id, es: set<Id>): Org {
    o.(entries := map e | e in o.entries ::
         if e in es && o.entries[e].membership == ms then o.entries[e].(retired := true) else o.entries[e])
  }

  // The tables memberships refer to are rewritten, within their foreign keys.
  function Rewrite(o: Org, people: set<Id>, nodes: set<(string, Id)>, refused: set<(Id, Id)>): Org {
    var o' := o.(people := people, nodes := nodes, refused := refused);
    if forall m :: m in o.members ==> MemberOk(o', m) then o' else o
  }

  ghost predicate Step(o: Org, now: int, act: Act, o': Org) {
    match act
    case Assigning(a) => exists r :: AssignStep(o, now, a, o', r)
    case Resyncing(ms) => exists r :: ResyncStep(o, now, ms, o', r)
    case Leaving(m, why) => o' == Leave(o, m, why)
    case Unassigning(identity, ms, why) => o' == Unassign(o, identity, ms, why)
    case Creating(ms, anchor) => o' == Create(o, ms, anchor)
    case Adding(e, entry) => o' == Add(o, e, entry)
    case Retiring(ms, es) => o' == Retire(o, ms, es)
    case Rewriting(people, nodes, refused) => o' == Rewrite(o, people, nodes, refused)
  }

  lemma StepKeepsSound(o: Org, now: int, act: Act, o': Org)
    requires Sound(o, now) && Step(o, now, act, o')
    ensures Sound(o', now)
  {
    match act
    case Assigning(a) =>
      var r :| AssignStep(o, now, a, o', r);
      AssignKeepsSound(o, now, a, o', r);
    case Resyncing(ms) =>
      var r :| ResyncStep(o, now, ms, o', r);
      ResyncKeepsSound(o, now, ms, o', r);
    case Leaving(m, why) => LeaveKeepsSound(o, now, m, why);
    case Unassigning(identity, ms, why) => UnassignKeepsSound(o, now, identity, ms, why);
    case Rewriting(_, _, _) => RewriteKeepsSound(o, now, act.people, act.nodes, act.refused);
    case _ => EditKeepsSound(o, now, act, o');
  }

  lemma RewriteKeepsSound(o: Org, now: int, people: set<Id>, nodes: set<(string, Id)>, refused: set<(Id, Id)>)
    requires Sound(o, now)
    ensures Sound(Rewrite(o, people, nodes, refused), now)
  {
    var o' := Rewrite(o, people, nodes, refused);
    forall m | m in o'.members ensures MemberOk(o', m) { assert MemberOk(o, m); }
    forall e | e in o'.entries ensures EntryOk(o', e) { assert EntryOk(o, e); }
    forall g | g in o'.grants ensures Faithful(o', g) { assert Faithful(o, g); }
    forall g | g in o'.grants ensures !Stray(o', g, now) { assert !Stray(o, g, now); }
  }

  predicate IsEdit(act: Act) {
    act.Creating? || act.Adding? || act.Retiring?
  }

  lemma EditKeepsSound(o: Org, now: int, act: Act, o': Org)
    requires Sound(o, now) && IsEdit(act) && Step(o, now, act, o')
    ensures Sound(o', now)
  {
    forall m | m in o'.members ensures MemberOk(o', m) { assert MemberOk(o, m); }
    forall e | e in o'.entries ensures EntryOk(o', e) { if e in o.entries { assert EntryOk(o, e); } }
    forall g | g in o'.grants ensures Faithful(o', g) { assert Faithful(o, g); }
    forall g | g in o'.grants ensures !Stray(o', g, now) { assert !Stray(o, g, now); }
  }

  // Acts in order of time, each on what the last one left.
  ghost predicate IsRun(states: seq<Org>, times: seq<int>, acts: seq<Act>) {
    && |states| == |acts| + 1 && |times| == |acts|
    && (forall i, j :: 0 <= i <= j < |times| ==> times[i] <= times[j])
    && forall i {:trigger acts[i]} :: 0 <= i < |acts| ==> Step(states[i], times[i], acts[i], states[i + 1])
  }

  lemma {:induction false} EveryRunIsSound(states: seq<Org>, times: seq<int>, acts: seq<Act>, now: int)
    requires IsRun(states, times, acts) && (forall i :: 0 <= i < |times| ==> times[i] <= now)
    requires Sound(states[0], if |times| > 0 then times[0] else now)
    ensures Sound(states[|acts|], now)
    decreases |acts|
  {
    if acts != [] {
      var n := |acts| - 1;
      assert forall i :: 0 <= i < n ==> acts[..n][i] == acts[i];
      EveryRunIsSound(states[..n + 1], times[..n], acts[..n], times[n]);
      assert acts[n] == acts[n] && Step(states[n], times[n], acts[n], states[n + 1]);
      StepKeepsSound(states[n], times[n], acts[n], states[n + 1]);
      LaterIsSound(states[n + 1], times[n], now);
    }
  }

  // Whatever was done, a derived grant in force hangs on an assignment neither removed nor lapsed,
  // gives that person the role of an entry of that membership, and ends when the assignment does.
  lemma InForceMeansAssigned(o: Org, now: int, g: nat)
    requires Sound(o, now) && g in o.grants && InForce(o.grants[g], now) && o.grants[g].member.Some?
    ensures var grant, m := o.grants[g], o.grants[g].member.value;
            && m in o.members && Current(o, m, o.members[m].membership, now)
            && grant.identity == o.members[m].identity && grant.validUntil == o.members[m].validUntil
            && grant.entry.Some? && grant.entry.value in o.entries
            && o.entries[grant.entry.value].membership == o.members[m].membership && grant.role == o.entries[grant.entry.value].role
  {
    assert Faithful(o, g) && !Stray(o, g, now);
  }

  // A settled membership stays settled until its entries change, however long that takes.
  lemma {:induction false} StaysSettled(states: seq<Org>, times: seq<int>, acts: seq<Act>, start: int, now: int, ms: Id)
    requires IsRun(states, times, acts) && (forall i :: 0 <= i < |times| ==> start <= times[i] <= now) && start <= now
    requires Sound(states[0], start) && Settled(states[0], ms, start)
    requires forall i :: 0 <= i < |acts| ==> !acts[i].Adding? && !acts[i].Retiring?
    ensures Sound(states[|acts|], now) && Settled(states[|acts|], ms, now)
    decreases |acts|
  {
    if acts == [] {
      LaterIsSettled(states[0], ms, start, now);
      LaterIsSound(states[0], start, now);
    } else {
      var n := |acts| - 1;
      assert forall i :: 0 <= i < n ==> acts[..n][i] == acts[i];
      StaysSettled(states[..n + 1], times[..n], acts[..n], start, times[n], ms);
      assert acts[n] == acts[n] && Step(states[n], times[n], acts[n], states[n + 1]);
      StepKeepsSound(states[n], times[n], acts[n], states[n + 1]);
      StepStaysSettled(states[n], times[n], acts[n], states[n + 1], ms);
      LaterIsSettled(states[n + 1], ms, times[n], now);
      LaterIsSound(states[n + 1], times[n], now);
    }
  }

  lemma LaterIsSettled(o: Org, ms: Id, now: int, now': int)
    requires Settled(o, ms, now) && now <= now'
    ensures Settled(o, ms, now')
  {
    forall m: nat, e | Current(o, m, ms, now') && LiveEntry(o, e, ms) ensures HasGrant(o, m, e) { assert Current(o, m, ms, now); }
  }

  lemma StepStaysSettled(o: Org, now: int, act: Act, o': Org, ms: Id)
    requires Sound(o, now) && Settled(o, ms, now) && Step(o, now, act, o') && !act.Adding? && !act.Retiring?
    ensures Settled(o', ms, now)
  {
    match act
    case Assigning(a) =>
      var r :| AssignStep(o, now, a, o', r);
      AssignStaysSettled(o, now, a, o', r, ms);
    case Resyncing(other) =>
      var r :| ResyncStep(o, now, other, o', r);
      ResyncStaysSettled(o, now, other, o', r, ms);
    case Leaving(m, why) => LeaveStaysSettled(o, now, m, why, ms);
    case Unassigning(identity, other, why) => UnassignStaysSettled(o, now, identity, other, why, ms);
    case Creating(other, anchor) => SameTablesSettled(o, now, o', ms);
    case Rewriting(people, nodes, refused) => SameTablesSettled(o, now, o', ms);
  }

  lemma SameTablesSettled(o: Org, now: int, o': Org, ms: Id)
    requires Settled(o, ms, now) && o'.entries == o.entries && o'.members == o.members && o'.grants == o.grants
    ensures Settled(o', ms, now)
  {
    forall m: nat, e | Current(o', m, ms, now) && LiveEntry(o', e, ms) ensures HasGrant(o', m, e) {
      assert Current(o, m, ms, now) && LiveEntry(o, e, ms) && HasGrant(o, m, e);
    }
    forall g | g in o'.grants ensures !FromRetired(o', g, ms) { assert !FromRetired(o, g, ms); }
  }

  // Resyncing one membership leaves another as settled as it was.
  lemma ResyncStaysSettled(o: Org, now: int, other: Id, o': Org, r: Result<nat, Fault>, ms: Id)
    requires Sound(o, now) && Settled(o, ms, now) && ResyncStep(o, now, other, o', r)
    ensures Settled(o', ms, now)
  {
    if r.Ok? {
      var cleared := RevokeAll(o, Retired(o, other), NO_LONGER);
      var pairs := Missing(cleared, other, now);
      forall m: nat, e | Current(o', m, ms, now) && LiveEntry(o', e, ms) ensures HasGrant(o', m, e) {
        assert Current(o, m, ms, now) && LiveEntry(o, e, ms) && HasGrant(o, m, e);
        var g :| g in o.grants && Gives(o.grants[g], m, e);
        assert g in cleared.grants;
        assert Gives(o'.grants[g], m, e);
      }
      forall g | g in o'.grants ensures !FromRetired(o', g, ms) {
        if g in o.grants {
          assert g in cleared.grants && !FromRetired(o, g, ms);
        } else {
          assert IsNew(cleared, o', g);
        }
      }
    }
  }
}
