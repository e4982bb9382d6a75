// The membership tables as a store, each routine statement by statement; one that raises leaves
// everything as it was.
module MembershipStore {
  import opened Prelude
  import opened Catalog
  import opened Membership
  import opened MembershipRuns

  lemma NothingFanned(o: Org)
    ensures Fanout(o, o, {})
  {
  }

  lemma SameTables(o: Org, o': Org, pairs: set<(nat, Id)>)
    requires Fanout(o, o', pairs)
    ensures o' == o.(grants := o'.grants, next := o'.next)
  {
  }

  // One more grant in a fan-out under way.
  lemma FanoutGrows(o: Org, o1: Org, done: set<(nat, Id)>, m: nat, e: Id)
    requires Fanout(o, o1, done) && (m, e) !in done && m in o.members && e in o.entries
    requires forall g :: g in o1.grants ==> g < o1.next
    ensures Fanout(o, Granted(o1, m, e), done + {(m, e)})
  {
    var o2 := Granted(o1, m, e);
    forall p | p in done + {(m, e)} ensures exists g: nat :: IsNew(o, o2, g) && Gives(o2.grants[g], p.0, p.1) {
      if p == (m, e) {
        assert IsNew(o, o2, o1.next);
      } else {
        var had := HasGrant(o1, p.0, p.1);
        var g: nat :| IsNew(o, o1, g) && Gives(o1.grants[g], p.0, p.1);
        assert IsNew(o, o2, g);
      }
    }
    forall g: nat | IsNew(o, o2, g) ensures g < o2.next && NewIsFor(o, o2.grants[g], done + {(m, e)}) {
      if g != o1.next { assert IsNew(o, o1, g); }
    }
    forall g: nat, h: nat | IsNew(o, o2, g) && IsNew(o, o2, h) && SamePair(o2.grants[g], o2.grants[h]) ensures g == h {
      if g != o1.next { assert IsNew(o, o1, g); }
      if h != o1.next { assert IsNew(o, o1, h); }
    }
  }

  function Granted(o: Org, m: nat, e: Id): Org
    requires m in o.members && e in o.entries
  {
    o.(grants := o.grants[o.next := GrantFor(o.members[m], m, o.entries[e], e)], next := o.next + 1)
  }

  function Pairs(m: nat, es: set<Id>): set<(nat, Id)> {
    set e | e in es :: (m, e)
  }

  lemma PairsMore(m: nat, es: set<Id>, e: Id)
    ensures Pairs(m, es + {e}) == Pairs(m, es) + {(m, e)} && ((m, e) in Pairs(m, es) <==> e in es)
  {
  }

  lemma RefusesEither(o: Org, a: set<(nat, Id)>, b: set<(nat, Id)>)
    ensures !Refuses(o, {}) && (Refuses(o, a + b) <==> Refuses(o, a) || Refuses(o, b))
  {
  }

  lemma RefusesOne(o: Org, m: nat, e: Id)
    requires m in o.members && e in o.entries
    ensures Refuses(o, {(m, e)}) <==> (o.members[m].identity, o.entries[e].role) in o.refused
  {
    assert (m, e) in {(m, e)};
  }

  // The pairs some of the assignments are missing.
  function MissingFor(o: Org, ms: Id, now: int, who: set<nat>): set<(nat, Id)> {
    set p | p in Missing(o, ms, now) && p.0 in who
  }

  // The next assignment's missing entries, whatever has been given to those before it.
  lemma MissingMore(o: Org, o': Org, ms: Id, now: int, who: set<nat>, m: nat, es: set<Id>)
    requires Fanout(o, o', MissingFor(o, ms, now, who)) && m !in who && m in o.members && Current(o, m, ms, now)
    requires forall e :: e in es <==> e in o'.entries && LiveEntry(o', e, ms) && !HasGrant(o', m, e)
    ensures MissingFor(o, ms, now, who + {m}) == MissingFor(o, ms, now, who) + Pairs(m, es)
    ensures MissingFor(o, ms, now, who) !! Pairs(m, es) && Pairs(m, es) <= Missing(o, ms, now)
  {
    hide Current, LiveEntry, HasGrant, Fanout;
    StillMissing(o, o', MissingFor(o, ms, now, who), m, ms, now);
    SameTables(o, o', MissingFor(o, ms, now, who));
    forall p | p in Pairs(m, es) ensures p in Missing(o, ms, now) {}
    forall p | p in MissingFor(o, ms, now, who + {m}) ensures p in MissingFor(o, ms, now, who) + Pairs(m, es) {
      if p.0 == m { assert p.1 in es; }
    }
  }

  lemma MissingOfAll(o: Org, ms: Id, now: int, who: set<nat>)
    requires forall m :: m in who <==> m in o.members && Current(o, m, ms, now)
    ensures MissingFor(o, ms, now, who) == Missing(o, ms, now) && MissingFor(o, ms, now, {}) == {}
  {
  }

  lemma StepSeated(o: Org, now: int, a: Asked)
    requires Objection(o, a, now).None? && Seated(Without(o, LapsedSeats(o, a, now)), a)
    ensures AssignStep(o, now, a, Without(o, LapsedSeats(o, a, now)), Ok(None))
  {
  }

  lemma StepJoined(o: Org, now: int, a: Asked, o': Org)
    requires Objection(o, a, now).None? && !Seated(Without(o, LapsedSeats(o, a, now)), a) && a.identity in o.people
    requires PlaceOf(o, a).Some? ==> PlaceOf(o, a).value in o.nodes
    ensures var joined, pairs := Joined(Without(o, LapsedSeats(o, a, now)), a, PlaceOf(o, a)), LivePairs(o, o.next, a.membership);
            && (Refuses(joined, pairs) ==> AssignStep(o, now, a, o, Err(GrantRefused)))
            && (!Refuses(joined, pairs) && Fanout(joined, o', pairs) ==> AssignStep(o, now, a, o', Ok(Some(o.next))))
  {
    hide Refuses, Fanout, Seated, Objection;
  }

  // What holds between two turns of the materialising loop, es - todo given.
  ghost predicate Materialized(o: Org, o1: Org, done: set<(nat, Id)>, m: nat, es: set<Id>, todo: set<Id>) {
    && Fanout(o, o1, done + Pairs(m, es - todo)) && !Refuses(o, Pairs(m, es - todo))
    && m in o.members && (forall e :: e in es ==> e in o.entries)
    && done !! Pairs(m, es) && !Refuses(o, done) && forall g :: g in o1.grants ==> g < o1.next
  }

  lemma NothingMaterialized(o: Org, o1: Org, done: set<(nat, Id)>, m: nat, es: set<Id>)
    requires Fanout(o, o1, done) && m in o1.members && (forall e :: e in es ==> e in o1.entries)
    requires done !! Pairs(m, es) && !Refuses(o, done) && forall g :: g in o1.grants ==> g < o1.next
    ensures Materialized(o, o1, done, m, es, es)
  {
    hide Fanout, Refuses, Pairs;
    NoPairs(m);
    SameTables(o, o1, done);
    RefusesEither(o, done, {});
    assert es - es == {} && done + {} == done;
  }

  lemma OneMaterialized(o: Org, o1: Org, done: set<(nat, Id)>, m: nat, es: set<Id>, todo: set<Id>, e: Id)
    requires Materialized(o, o1, done, m, es, todo) && todo <= es && e in todo
    ensures o1.members == o.members && o1.entries == o.entries && o1.refused == o.refused
    ensures m in o.members && e in o.entries && o1.next !in o1.grants && forall g :: g in o1.grants ==> g < o1.next
    ensures if (o.members[m].identity, o.entries[e].role) in o.refused then Refuses(o, Pairs(m, es))
            else Materialized(o, Granted(o1, m, e), done, m, es, todo - {e})
  {
    hide Fanout, Refuses, Pairs, GrantFor;
    var given := es - todo;
    PairsMore(m, given, e);
    PairsMore(m, es - {e}, e);
    assert es - {e} + {e} == es && given + {e} == es - (todo - {e});
    SameTables(o, o1, done + Pairs(m, given));
    RefusesOne(o, m, e);
    RefusesEither(o, Pairs(m, given), {(m, e)});
    RefusesEither(o, Pairs(m, es - {e}), {(m, e)});
    FanoutGrows(o, o1, done + Pairs(m, given), m, e);
    assert done + Pairs(m, given) + {(m, e)} == done + Pairs(m, given + {e});
  }

  lemma AllMaterialized(o: Org, o1: Org, done: set<(nat, Id)>, m: nat, es: set<Id>)
    requires Materialized(o, o1, done, m, es, {})
    ensures Fanout(o, o1, done + Pairs(m, es)) && !Refuses(o, Pairs(m, es)) && !Refuses(o, done + Pairs(m, es))
    ensures forall g :: g in o1.grants ==> g < o1.next
  {
    hide Fanout, Refuses, Pairs;
    assert es - {} == es;
    RefusesEither(o, done, Pairs(m, es));
  }

  // What holds between two turns of the resync loop, everyone - todo served and n grants touched.
  ghost predicate Served(o: Org, o1: Org, ms: Id, now: int, everyone: set<nat>, todo: set<nat>, given: nat) {
    var done := MissingFor(o, ms, now, everyone - todo);
    Fanout(o, o1, done) && !Refuses(o, done) && given == |done| && forall g :: g in o1.grants ==> g < o1.next
  }

  lemma NobodyServed(o: Org, ms: Id, now: int, everyone: set<nat>)
    requires forall g :: g in o.grants ==> g < o.next
    ensures Served(o, o, ms, now, everyone, everyone, 0)
  {
    hide Fanout, Refuses;
    assert MissingFor(o, ms, now, everyone - everyone) == {};
    NothingFanned(o);
    RefusesEither(o, {}, {});
  }

  lemma OneToServe(o: Org, o1: Org, ms: Id, now: int, everyone: set<nat>, todo: set<nat>, given: nat, m: nat, es: set<Id>)
    requires Served(o, o1, ms, now, everyone, todo, given) && todo <= everyone && m in todo
    requires m in o.members && Current(o, m, ms, now)
    requires forall e :: e in es <==> e in o1.entries && LiveEntry(o1, e, ms) && !HasGrant(o1, m, e)
    ensures var done := MissingFor(o, ms, now, everyone - todo);
            && Fanout(o, o1, done) && !Refuses(o, done) && done !! Pairs(m, es) && m in o1.members && forall g :: g in o1.grants ==> g < o1.next
    ensures Refuses(o, Pairs(m, es)) ==> Refuses(o, Missing(o, ms, now))
    ensures forall o2 ::
              (&& Fanout(o, o2, MissingFor(o, ms, now, everyone - todo) + Pairs(m, es)) && !Refuses(o, Pairs(m, es))
               && (forall g :: g in o2.grants ==> g < o2.next))
              ==> Served(o, o2, ms, now, everyone, todo - {m}, given + |es|)
  {
    hide Fanout, Refuses, Current, LiveEntry, HasGrant, Pairs, MissingFor, Missing;
    var done := MissingFor(o, ms, now, everyone - todo);
    assert everyone - todo + {m} == everyone - (todo - {m});
    SameTables(o, o1, done);
    MissingMore(o, o1, ms, now, everyone - todo, m, es);
    AsManyPairs(m, es);
    RefusesEither(o, done, Pairs(m, es));
    RefusesEither(o, Pairs(m, es), Missing(o, ms, now));
    assert Pairs(m, es) + Missing(o, ms, now) == Missing(o, ms, now);
  }

  lemma AllServed(o: Org, o1: Org, ms: Id, now: int, everyone: set<nat>, given: nat)
    requires Served(o, o1, ms, now, everyone, {}, given)
    requires forall m :: m in everyone <==> m in o.members && Current(o, m, ms, now)
    ensures Fanout(o, o1, Missing(o, ms, now)) && !Refuses(o, Missing(o, ms, now)) && given == |Missing(o, ms, now)|
  {
    hide Fanout, Refuses, Current;
    assert everyone - {} == everyone;
    MissingOfAll(o, ms, now, everyone);
  }

  class Store {
    const people: set<Id>
    const nodes: set<(string, Id)>
    const refused: set<(Id, Id)>
    var anchors: map<Id, Option<string>>
    var entries: map<Id, Entry>
    var members: map<nat, Member>
    var grants: map<nat, Fanned>
    var next: nat

    function Contents(): Org
      reads this
    {
      Org(anchors, people, nodes, refused, entries, members, grants, next)
    }

    constructor (people: set<Id>, nodes: set<(string, Id)>, refused: set<(Id, Id)>)
      ensures Contents() == Org(map[], people, nodes, refused, map[], map[], map[], 0)
      ensures forall now :: Sound(Contents(), now)
    {
      this.people, this.nodes, this.refused := people, nodes, refused;
      anchors, entries, members, grants, next := map[], map[], map[], map[], 0;
    }

    // The grant, then its places; none when a guard on grants turns the pair away.
    method Materialize(m: nat, e: Id) returns (r: Result<nat, Fault>)
      requires m in members && e in entries && next !in grants
      modifies this`grants, this`next
      ensures if (members[m].identity, entries[e].role) in refused then r == Err(GrantRefused) && Contents() == old(Contents())
              else r == Ok(old(next)) && Contents() == Granted(old(Contents()), m, e)
    {
      var member, entry := members[m], entries[e];
      if (member.identity, entry.role) in refused {
        return Err(GrantRefused);
      }
      var g := next;
      var row := Fanned(member.identity, entry.role, member.validUntil, member.reason,
                        Some(member.membership), Some(e), Some(m), map[], false, None);
      next := next + 1;
      row := row.(places := entry.places);
      if member.place.Some? {
        row := row.(places := row.places[member.place.value := Terms(member.inherit, Include)]);
      }
      grants := grants[g := row];
      r := Ok(g);
    }

    // Materialize for one assignment and some entries, in whatever order the query returns them.
    method MaterializeAll(m: nat, es: set<Id>, ghost o: Org, ghost done: set<(nat, Id)>) returns (ok: bool)
      requires Fanout(o, Contents(), done) && m in members && (forall e :: e in es ==> e in entries)
      requires done !! Pairs(m, es) && !Refuses(o, done)
      requires forall g :: g in grants ==> g < next
      modifies this`grants, this`next
      ensures forall g :: g in grants ==> g < next
      ensures ok == !Refuses(o, Pairs(m, es))
      ensures ok ==> Fanout(o, Contents(), done + Pairs(m, es)) && !Refuses(o, done + Pairs(m, es))
    {
      hide Fanout, GrantFor, Refuses, Pairs, Granted, Materialized;
      var todo := es;
      NothingMaterialized(o, Contents(), done, m, es);
      while todo != {}
        invariant todo <= es && Materialized(o, Contents(), done, m, es, todo)
        decreases |todo|
      {
        var e :| e in todo;
        OneMaterialized(o, Contents(), done, m, es, todo, e);
        var r := Materialize(m, e);
        if r.Err? {
          return false;
        }
        todo := todo - {e};
      }
      AllMaterialized(o, Contents(), done, m, es);
      ok := true;
    }

    method Assign(a: Asked, now: int) returns (r: Result<Option<nat>, Fault>)
      requires Sound(Contents(), now)
      modifies this`members, this`grants, this`next
      ensures Sound(Contents(), now) && AssignStep(old(Contents()), now, a, Contents(), r)
    {
      hide Sound, Fanout, InSeat, Refuses, Pairs, LiveEntry, Joined;
      ghost var before := Contents();
      var objection := Objection(Contents(), a, now);
      if objection.Some? {
        return Err(objection.value);
      }
      var place := PlaceOf(Contents(), a);
      var oldMembers, oldGrants, oldNext := members, grants, next;
      members := map m | m in members ::
        if InSeat(members[m], a) && Lapsed(members[m].validUntil, now) then members[m].(removed := true) else members[m];
      assert Contents() == Without(before, LapsedSeats(before, a, now));
      if exists m :: m in members && InSeat(members[m], a) {
        StepSeated(before, now, a);
        AssignKeepsSound(before, now, a, Contents(), Ok(None));
        return Ok(None);
      }
      if a.identity !in people || (place.Some? && place.value !in nodes) {
        members := oldMembers;
        return Err(BadReference);
      }
      var m, ok := Join(a, place, now, before);
      if !ok {
        members, grants, next := oldMembers, oldGrants, oldNext;
        return Err(GrantRefused);
      }
      r := Ok(Some(m));
      AssignKeepsSound(before, now, a, Contents(), r);
    }

    // The new assignment and its grants.
    method Join(a: Asked, place: Option<(string, Id)>, now: int, ghost before: Org) returns (m: nat, ok: bool)
      requires Sound(before, now) && Objection(before, a, now).None? && place == PlaceOf(before, a) && a.identity in people
      requires Contents() == Without(before, LapsedSeats(before, a, now)) && !Seated(Contents(), a)
      requires place.Some? ==> place.value in nodes
      modifies this`members, this`grants, this`next
      ensures if ok then m == before.next && AssignStep(before, now, a, Contents(), Ok(Some(m)))
              else AssignStep(before, now, a, before, Err(GrantRefused))
    {
      hide Sound, Fanout, InSeat, Refuses, Pairs, LiveEntry, AssignStep, Objection, Seated, LapsedSeats;
      NextIsFree(before, now);
      m := next;
      members := members[m := Member(a.membership, a.identity, place,
                                     if a.inherit.None? then true else a.inherit.value, a.validUntil, a.reason, false)];
      next := next + 1;
      ghost var joined := Contents();
      NothingFanned(joined);
      GrantsBelowNext(before, now);
      RefusesEither(joined, {}, {});
      var es := set e | e in entries && LiveEntry(Contents(), e, a.membership);
      SamePairs(before, joined, m, es, a.membership);
      ok := MaterializeAll(m, es, joined, {});
      assert {} + Pairs(m, es) == Pairs(m, es);
      StepJoined(before, now, a, Contents());
    }

    // How many grants it revoked and gave.
    method Resync(ms: Id, now: int) returns (r: Result<nat, Fault>)
      requires Sound(Contents(), now)
      modifies this`grants, this`next
      ensures Sound(Contents(), now) && ResyncStep(old(Contents()), now, ms, Contents(), r)
      ensures r.Ok? ==> Settled(Contents(), ms, now)
    {
      hide Sound, Fanout, Refuses, Settled, FromRetired, Missing;
      ghost var before := Contents();
      var oldGrants, oldNext := grants, next;
      var dead := set g | g in grants && FromRetired(Contents(), g, ms);
      grants := map g | g in grants :: if g in dead then Revoke(grants[g], NO_LONGER) else grants[g];
      assert dead == Retired(before, ms) && Contents() == RevokeAll(before, dead, NO_LONGER);
      GrantsBelowNext(before, now);
      var n, ok := GiveMissing(ms, now);
      if !ok {
        grants, next := oldGrants, oldNext;
        return Err(GrantRefused);
      }
      r := Ok(|dead| + n);
      ResyncKeepsSound(before, now, ms, Contents(), r);
      ResyncSettles(before, now, ms, Contents(), r);
    }

    // Every current assignment's missing entries, one assignment at a time.
    method GiveMissing(ms: Id, now: int) returns (n: nat, ok: bool)
      requires forall g :: g in grants ==> g < next
      modifies this`grants, this`next
      ensures ok == !Refuses(old(Contents()), Missing(old(Contents()), ms, now))
      ensures ok ==> n == |Missing(old(Contents()), ms, now)| && Fanout(old(Contents()), Contents(), Missing(old(Contents()), ms, now))
    {
      hide Fanout, Refuses, Current, LiveEntry, HasGrant, Pairs, MissingFor, Missing, Served;
      ghost var o := Contents();
      var todo := set m | m in members && Current(Contents(), m, ms, now);
      ghost var everyone := todo;
      n := 0;
      NobodyServed(o, ms, now, everyone);
      while todo != {}
        invariant todo <= everyone && Served(o, Contents(), ms, now, everyone, todo, n)
        decreases |todo|
      {
        var m :| m in todo;
        var es := set e | e in entries && LiveEntry(Contents(), e, ms) && !HasGrant(Contents(), m, e);
        OneToServe(o, Contents(), ms, now, everyone, todo, n, m, es);
        ok := MaterializeAll(m, es, o, MissingFor(o, ms, now, everyone - todo));
        if !ok {
          return;
        }
        n := n + |es|;
        todo := todo - {m};
      }
      AllServed(o, Contents(), ms, now, everyone, n);
      ok := true;
    }

    // How many grants it revoked.
    method Leave(m: nat, now: int, why: string) returns (n: nat)
      requires Sound(Contents(), now)
      modifies this`grants, this`members
      ensures Sound(Contents(), now) && Contents() == Membership.Leave(old(Contents()), m, why) && n == |GrantsOf(old(Contents()), m)|
    {
      hide Sound;
      ghost var before := Contents();
      var held := set g | g in grants && grants[g].member == Some(m) && !grants[g].revoked;
      grants := map g | g in grants :: if g in held then grants[g].(revoked := true, revokeReason := Some(why)) else grants[g];
      n := |held|;
      if m in members {
        members := members[m := members[m].(removed := true)];
      }
      assert held == GrantsOf(before, m) && grants == RevokeFor(before, held, why).grants;
      assert members == Without(before, {m}).members;
      LeaveKeepsSound(before, now, m, why);
    }

    method Unassign(identity: Id, ms: Id, now: int, why: string) returns (n: nat)
      requires Sound(Contents(), now)
      modifies this`grants, this`members
      ensures Sound(Contents(), now) && Contents() == Membership.Unassign(old(Contents()), identity, ms, why)
      ensures n == |HeldThrough(old(Contents()), identity, ms)|
    {
      hide Sound;
      ghost var before := Contents();
      var held := set g | g in grants && grants[g].identity == identity && grants[g].membership == Some(ms) && !grants[g].revoked;
      grants := map g | g in grants :: if g in held then grants[g].(revoked := true, revokeReason := Some(why)) else grants[g];
      n := |held|;
      members := map m | m in members ::
        if members[m].membership == ms && members[m].identity == identity && !members[m].removed then members[m].(removed := true) else members[m];
      assert held == HeldThrough(before, identity, ms) && grants == RevokeFor(before, held, why).grants;
      assert members == Without(before, SeatsOf(before, identity, ms)).members;
      UnassignKeepsSound(before, now, identity, ms, why);
    }
  }

  lemma NoPairs(m: nat)
    ensures Pairs(m, {}) == {}
  {
  }

  lemma SamePairs(o: Org, joined: Org, m: nat, es: set<Id>, ms: Id)
    requires joined.entries == o.entries && (forall e :: e in es <==> e in joined.entries && LiveEntry(joined, e, ms))
    ensures Pairs(m, es) == LivePairs(o, m, ms)
  {
  }

  // What a fan-out to other assignments gave does not count as this one's.
  lemma StillMissing(o: Org, o': Org, done: set<(nat, Id)>, m: nat, ms: Id, now: int)
    requires Fanout(o, o', done) && (forall p :: p in done ==> p.0 != m)
    ensures forall e :: HasGrant(o', m, e) <==> HasGrant(o, m, e)
    ensures forall e :: LiveEntry(o', e, ms) <==> LiveEntry(o, e, ms)
  {
    forall e ensures HasGrant(o', m, e) <==> HasGrant(o, m, e) {
      forall g | g in o.grants && Gives(o.grants[g], m, e) ensures HasGrant(o', m, e) { assert Gives(o'.grants[g], m, e); }
      forall g | g in o'.grants && Gives(o'.grants[g], m, e) ensures HasGrant(o, m, e) {
        if g !in o.grants { assert IsNew(o, o', g); } else { assert Gives(o.grants[g], m, e); }
      }
    }
  }

  lemma {:induction false} AsManyPairs(m: nat, es: set<Id>)
    ensures |Pairs(m, es)| == |es|
    decreases |es|
  {
    if es != {} {
      var e :| e in es;
      AsManyPairs(m, es - {e});
      PairsMore(m, es - {e}, e);
      assert es - {e} + {e} == es;
    } else {
      NoPairs(m);
    }
  }

  lemma GrantsBelowNext(o: Org, now: int)
    requires Sound(o, now)
    ensures forall g :: g in o.grants ==> g < o.next
  {
    forall g | g in o.grants ensures g < o.next { assert Faithful(o, g); }
  }
}
