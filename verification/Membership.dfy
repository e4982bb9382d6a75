// Memberships: named bundles of roles whose assignments are fanned out into grants. What the
// routines do to the tables, as relations, and what every run of them keeps.
module Membership {
  import opened Prelude
  import opened Catalog

  datatype Terms = Terms(inherit: bool, mode: Mode)
  // Scope rows by (axis, node), kept with the entry or grant they belong to.
  type Places = map<(string, Id), Terms>

  // A role inside a membership. Retired, never deleted.
  datatype Entry = Entry(membership: Id, role: Id, places: Places, retired: bool)

  // One assignment of a person, at a place when the membership applies where assigned.
  datatype Member = Member(
    membership: Id, identity: Id, place: Option<(string, Id)>, inherit: bool,
    validUntil: Option<int>, reason: Option<string>, removed: bool)

  // Derived grants name the membership, entry and assignment they came from.
  datatype Fanned = Fanned(
    identity: Id, role: Id, validUntil: Option<int>, reason: Option<string>,
    membership: Option<Id>, entry: Option<Id>, member: Option<nat>,
    places: Places, revoked: bool, revokeReason: Option<string>)

  // anchors: the axis each membership applies on, none for one that is the same for everyone.
  // people and nodes: what assignments and their places refer to. refused: the identity and role
  // pairs the guards on grants turn away. next: the ids not yet given out.
  datatype Org = Org(
    anchors: map<Id, Option<string>>, people: set<Id>, nodes: set<(string, Id)>, refused: set<(Id, Id)>,
    entries: map<Id, Entry>, members: map<nat, Member>, grants: map<nat, Fanned>, next: nat)

  datatype Fault = UnknownMembership | PlaceNotOurs | PlaceMissing | EndsBeforeStart | BadReference | GrantRefused

  // ---------------------------------------------------------------- reading the tables

  predicate Lapsed(validUntil: Option<int>, now: int) {
    validUntil.Some? && validUntil.value <= now
  }

  predicate Current(o: Org, m: nat, ms: Id, now: int) {
    m in o.members && o.members[m].membership == ms && !o.members[m].removed && !Lapsed(o.members[m].validUntil, now)
  }

  predicate LiveEntry(o: Org, e: Id, ms: Id) {
    e in o.entries && o.entries[e].membership == ms && !o.entries[e].retired
  }

  // An unrevoked grant of this pair.
  predicate Gives(g: Fanned, m: nat, e: Id) {
    !g.revoked && g.member == Some(m) && g.entry == Some(e)
  }

  predicate HasGrant(o: Org, m: nat, e: Id) {
    exists g :: g in o.grants && Gives(o.grants[g], m, e)
  }

  predicate InForce(g: Fanned, now: int) {
    !g.revoked && !Lapsed(g.validUntil, now)
  }

  // The entry's places, and the assignment's own as one more include.
  function WantedPlaces(member: Member, entry: Entry): Places {
    if member.place.Some? then entry.places[member.place.value := Terms(member.inherit, Include)] else entry.places
  }

  // What membership_materialize inserts for an assignment and an entry.
  function GrantFor(member: Member, m: nat, entry: Entry, e: Id): Fanned {
    Fanned(member.identity, entry.role, member.validUntil, member.reason,
           Some(member.membership), Some(e), Some(m), WantedPlaces(member, entry), false, None)
  }

  // ---------------------------------------------------------------- invariants

  // A derived grant is what its assignment and entry call for, revoked or not.
  predicate Faithful(o: Org, g: nat)
    requires g in o.grants
  {
    var grant := o.grants[g];
    g < o.next
    && (grant.member.Some? ==>
      && grant.member.value in o.members && grant.entry.Some? && grant.entry.value in o.entries
      && var member, entry := o.members[grant.member.value], o.entries[grant.entry.value];
         && member.membership == entry.membership
         && grant.(revoked := false, revokeReason := None) == GrantFor(member, grant.member.value, entry, grant.entry.value))
  }

  predicate SamePair(g: Fanned, h: Fanned) {
    g.member.Some? && !g.revoked && !h.revoked && g.member == h.member && g.entry == h.entry
  }

  predicate SameSeat(a: Member, b: Member) {
    !a.removed && !b.removed && a.membership == b.membership && a.identity == b.identity && a.place == b.place
  }

  predicate MemberOk(o: Org, m: nat)
    requires m in o.members
  {
    var member := o.members[m];
    && m < o.next && member.membership in o.anchors && member.identity in o.people
    && (match o.anchors[member.membership]
        case None => member.place == None
        case Some(axis) => member.place.Some? && member.place.value.0 == axis && member.place.value in o.nodes)
  }

  predicate EntryOk(o: Org, e: Id)
    requires e in o.entries
  {
    && o.entries[e].membership in o.anchors
    && forall p :: p in o.entries[e].places ==> Some(p.0) != o.anchors[o.entries[e].membership]
  }

  // The constraints, and what the routines keep beyond them.
  ghost predicate Sound(o: Org, now: int) {
    && NobodyOut(o, now)
    && (forall m {:trigger MemberOk(o, m)} :: m in o.members ==> MemberOk(o, m))
    && (forall e {:trigger EntryOk(o, e)} :: e in o.entries ==> EntryOk(o, e))
    && (forall a, b {:trigger SameSeat(o.members[a], o.members[b])} ::
          a in o.members && b in o.members && SameSeat(o.members[a], o.members[b]) ==> a == b)
    && (forall g {:trigger Faithful(o, g)} :: g in o.grants ==> Faithful(o, g))
    && (forall g, h {:trigger SamePair(o.grants[g], o.grants[h])} ::
          g in o.grants && h in o.grants && SamePair(o.grants[g], o.grants[h]) ==> g == h)
  }

  // No grant in force hangs on a removed assignment.
  ghost predicate NobodyOut(o: Org, now: int) {
    forall g {:trigger Stray(o, g, now)} :: g in o.grants ==> !Stray(o, g, now)
  }

  predicate Stray(o: Org, g: nat, now: int)
    requires g in o.grants
  {
    && InForce(o.grants[g], now) && o.grants[g].member.Some?
    && o.grants[g].member.value in o.members && o.members[o.grants[g].member.value].removed
  }

  // Everything the membership should give is given and nothing it no longer gives is.
  ghost predicate Settled(o: Org, ms: Id, now: int) {
    && (forall m, e {:trigger HasGrant(o, m, e)} :: Current(o, m, ms, now) && LiveEntry(o, e, ms) ==> HasGrant(o, m, e))
    && (forall g {:trigger FromRetired(o, g, ms)} :: g in o.grants ==> !FromRetired(o, g, ms))
  }

  predicate FromRetired(o: Org, g: nat, ms: Id)
    requires g in o.grants
  {
    var grant := o.grants[g];
    && grant.membership == Some(ms) && !grant.revoked
    && grant.entry.Some? && grant.entry.value in o.entries && o.entries[grant.entry.value].retired
  }

  // ---------------------------------------------------------------- what the routines do

  function Revoke(g: Fanned, why: string): Fanned {
    g.(revoked := true, revokeReason := if g.revokeReason.Some? then g.revokeReason else Some(why))
  }

  // UPDATE grants SET revoked_at = now() over some unrevoked grants.
  function RevokeAll(o: Org, which: set<nat>, why: string): Org {
    o.(grants := map g | g in o.grants :: if g in which then Revoke(o.grants[g], why) else o.grants[g])
  }

  function Without(o: Org, gone: set<nat>): Org {
    o.(members := map m | m in o.members :: if m in gone then o.members[m].(removed := true) else o.members[m])
  }

  // One new grant for each of the pairs and nothing else changed.
  ghost predicate Fanout(o: Org, o': Org, pairs: set<(nat, Id)>) {
    && o' == o.(grants := o'.grants, next := o'.next) && o.next <= o'.next
    && (forall g :: g in o.grants ==> g in o'.grants && o'.grants[g] == o.grants[g])
    && (forall g: nat {:trigger IsNew(o, o', g)} :: IsNew(o, o', g) ==> g < o'.next && NewIsFor(o, o'.grants[g], pairs))
    && (forall p {:trigger HasGrant(o', p.0, p.1)} :: p in pairs ==> exists g: nat :: IsNew(o, o', g) && Gives(o'.grants[g], p.0, p.1))
    && (forall g: nat, h: nat {:trigger IsNew(o, o', g), IsNew(o, o', h)} ::
          IsNew(o, o', g) && IsNew(o, o', h) && SamePair(o'.grants[g], o'.grants[h]) ==> g == h)
  }

  predicate IsNew(o: Org, o': Org, g: nat) {
    g in o'.grants && g !in o.grants
  }

  predicate NewIsFor(o: Org, grant: Fanned, pairs: set<(nat, Id)>) {
    && grant.member.Some? && grant.entry.Some? && (grant.member.value, grant.entry.value) in pairs
    && grant.member.value in o.members && grant.entry.value in o.entries
    && grant == GrantFor(o.members[grant.member.value], grant.member.value, o.entries[grant.entry.value], grant.entry.value)
  }

  predicate Refuses(o: Org, pairs: set<(nat, Id)>) {
    exists p :: p in pairs && p.0 in o.members && p.1 in o.entries && (o.members[p.0].identity, o.entries[p.1].role) in o.refused
  }

  // ---------------------------------------------------------------- membership_assign

  datatype Asked = Asked(
    identity: Id, membership: Id, node: Option<Id>, inherit: Option<bool>, validUntil: Option<int>, reason: Option<string>)

  function Objection(o: Org, a: Asked, now: int): Option<Fault> {
    if a.membership !in o.anchors then Some(UnknownMembership)
    else if o.anchors[a.membership].None? && a.node.Some? then Some(PlaceNotOurs)
    else if o.anchors[a.membership].Some? && a.node.None? then Some(PlaceMissing)
    else if Lapsed(a.validUntil, now) then Some(EndsBeforeStart)
    else None
  }

  function PlaceOf(o: Org, a: Asked): Option<(string, Id)>
    requires a.membership in o.anchors && (o.anchors[a.membership].Some? <==> a.node.Some?)
  {
    if a.node.None? then None else Some((o.anchors[a.membership].value, a.node.value))
  }

  function NodeOf(member: Member): Option<Id> {
    if member.place.None? then None else Some(member.place.value.1)
  }

  predicate InSeat(member: Member, a: Asked) {
    member.membership == a.membership && member.identity == a.identity && !member.removed && NodeOf(member) == a.node
  }

  function LapsedSeats(o: Org, a: Asked, now: int): set<nat> {
    set m | m in o.members && InSeat(o.members[m], a) && Lapsed(o.members[m].validUntil, now)
  }

  predicate Seated(o: Org, a: Asked) {
    exists m :: m in o.members && InSeat(o.members[m], a)
  }

  // The assignment row, under the next id.
  function Joined(o: Org, a: Asked, place: Option<(string, Id)>): Org {
    var inherit := if a.inherit.None? then true else a.inherit.value;
    o.(members := o.members[o.next := Member(a.membership, a.identity, place, inherit, a.validUntil, a.reason, false)], next := o.next + 1)
  }

  function LivePairs(o: Org, m: nat, ms: Id): set<(nat, Id)> {
    set e | e in o.entries && LiveEntry(o, e, ms) :: (m, e)
  }

  // A lapsed assignment in the seat is closed; a live one answers with nothing done; otherwise a
  // new one gets a grant for every live entry, or the whole call is undone.
  ghost predicate AssignStep(o: Org, now: int, a: Asked, o': Org, r: Result<Option<nat>, Fault>) {
    match Objection(o, a, now)
    case Some(f) => r == Err(f) && o' == o
    case None =>
      var closed, place := Without(o, LapsedSeats(o, a, now)), PlaceOf(o, a);
      if Seated(closed, a) then r == Ok(None) && o' == closed
      else if a.identity !in o.people || (place.Some? && place.value !in o.nodes) then r == Err(BadReference) && o' == o
      else
        var joined, pairs := Joined(closed, a, place), LivePairs(o, o.next, a.membership);
        if Refuses(joined, pairs) then r == Err(GrantRefused) && o' == o
        else r == Ok(Some(o.next)) && Fanout(joined, o', pairs)
  }

  // ---------------------------------------------------------------- the other routines

  function Retired(o: Org, ms: Id): set<nat> {
    set g | g in o.grants && FromRetired(o, g, ms)
  }

  // The pairs a resync finds without a grant.
  function Missing(o: Org, ms: Id, now: int): set<(nat, Id)> {
    set m, e | m in o.members && e in o.entries && Current(o, m, ms, now) && LiveEntry(o, e, ms) && !HasGrant(o, m, e) :: (m, e)
  }

  const NO_LONGER := "the membership no longer gives this role"

  ghost predicate ResyncStep(o: Org, now: int, ms: Id, o': Org, r: Result<nat, Fault>) {
    var cleared := RevokeAll(o, Retired(o, ms), NO_LONGER);
    var pairs := Missing(cleared, ms, now);
    if Refuses(cleared, pairs) then r == Err(GrantRefused) && o' == o
    else r == Ok(|Retired(o, ms)| + |pairs|) && Fanout(cleared, o', pairs)
  }

  function GrantsOf(o: Org, m: nat): set<nat> {
    set g | g in o.grants && o.grants[g].member == Some(m) && !o.grants[g].revoked
  }

  // What leaving does whatever reason was left before: the reason given here stands.
  function RevokeFor(o: Org, which: set<nat>, why: string): Org {
    o.(grants := map g | g in o.grants :: if g in which then o.grants[g].(revoked := true, revokeReason := Some(why)) else o.grants[g])
  }

  function Leave(o: Org, m: nat, why: string): Org {
    Without(RevokeFor(o, GrantsOf(o, m), why), {m})
  }

  function HeldThrough(o: Org, identity: Id, ms: Id): set<nat> {
    set g | g in o.grants && o.grants[g].identity == identity && o.grants[g].membership == Some(ms) && !o.grants[g].revoked
  }

  function SeatsOf(o: Org, identity: Id, ms: Id): set<nat> {
    set m | m in o.members && o.members[m].membership == ms && o.members[m].identity == identity && !o.members[m].removed
  }

  function Unassign(o: Org, identity: Id, ms: Id, why: string): Org {
    Without(RevokeFor(o, HeldThrough(o, identity, ms), why), SeatsOf(o, identity, ms))
  }

  // ---------------------------------------------------------------- each keeps the tables sound

  lemma LaterIsSound(o: Org, now: int, now': int)
    requires Sound(o, now) && now <= now'
    ensures Sound(o, now')
  {
    forall g | g in o.grants ensures !Stray(o, g, now') { assert !Stray(o, g, now); }
  }

  lemma {:induction false} FanoutKeepsSound(o: Org, o': Org, pairs: set<(nat, Id)>, now: int)
    requires Sound(o, now) && Fanout(o, o', pairs)
    requires forall p :: p in pairs ==>
               && p.0 in o.members && p.1 in o.entries && o.members[p.0].membership == o.entries[p.1].membership
               && !o.members[p.0].removed && !HasGrant(o, p.0, p.1)
    ensures Sound(o', now)
  {
    forall m | m in o'.members ensures MemberOk(o', m) { assert MemberOk(o, m); }
    forall e | e in o'.entries ensures EntryOk(o', e) { assert EntryOk(o, e); }
    forall g | g in o'.grants ensures Faithful(o', g) {
      if g in o.grants { assert Faithful(o, g); } else { assert IsNew(o, o', g); }
    }
    forall g, h | g in o'.grants && h in o'.grants && SamePair(o'.grants[g], o'.grants[h]) ensures g == h {
      if g in o.grants && h in o.grants {
        assert SamePair(o.grants[g], o.grants[h]);
      } else {
        OldAndNewDiffer(o, o', pairs, g, h);
        assert IsNew(o, o', g) && IsNew(o, o', h);
      }
    }
    forall g | g in o'.grants ensures !Stray(o', g, now) {
      if g in o.grants { assert !Stray(o, g, now) && Faithful(o, g); } else { assert IsNew(o, o', g); }
    }
  }

  lemma OldAndNewDiffer(o: Org, o': Org, pairs: set<(nat, Id)>, g: nat, h: nat)
    requires Fanout(o, o', pairs) && g in o'.grants && h in o'.grants && SamePair(o'.grants[g], o'.grants[h])
    requires forall g | g in o.grants :: Faithful(o, g)
    requires forall p :: p in pairs ==> !HasGrant(o, p.0, p.1)
    ensures g in o.grants <==> h in o.grants
  {
    var a, b := if g in o.grants then g else h, if g in o.grants then h else g;
    if a in o.grants && b !in o.grants {
      assert IsNew(o, o', b);
      var p := (o'.grants[b].member.value, o'.grants[b].entry.value);
      assert p in pairs && Gives(o.grants[a], p.0, p.1);
    }
  }

  // Revoking grants and removing assignments whose grants in force are among those revoked.
  lemma WithdrawKeepsSound(o: Org, o': Org, now: int, which: set<nat>, gone: set<nat>)
    requires Sound(o, now) && o' == o.(grants := o'.grants, members := o'.members)
    requires o'.grants.Keys == o.grants.Keys && o'.members.Keys == o.members.Keys
    requires forall g :: g in o.grants ==>
               o'.grants[g] == if g in which then o.grants[g].(revoked := true, revokeReason := o'.grants[g].revokeReason) else o.grants[g]
    requires forall m :: m in o.members ==> o'.members[m] == if m in gone then o.members[m].(removed := true) else o.members[m]
    requires forall g :: g in o.grants && InForce(o.grants[g], now) && o.grants[g].member.Some? && o.grants[g].member.value in gone ==> g in which
    ensures Sound(o', now)
  {
    forall m | m in o'.members ensures MemberOk(o', m) { assert MemberOk(o, m); }
    forall e | e in o'.entries ensures EntryOk(o', e) { assert EntryOk(o, e); }
    forall a, b | a in o'.members && b in o'.members && SameSeat(o'.members[a], o'.members[b]) ensures a == b {
      assert SameSeat(o.members[a], o.members[b]);
    }
    forall g | g in o'.grants ensures Faithful(o', g) { assert Faithful(o, g); }
    forall g, h | g in o'.grants && h in o'.grants && SamePair(o'.grants[g], o'.grants[h]) ensures g == h {
      assert SamePair(o.grants[g], o.grants[h]);
    }
    forall g | g in o'.grants ensures !Stray(o', g, now) {
      assert !Stray(o, g, now) && Faithful(o, g);
    }
  }
}
