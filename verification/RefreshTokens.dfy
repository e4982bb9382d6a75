// Operator refresh tokens: sign-in, rotation, reuse and logout as steps of calls that interleave
// freely over one table. Secrets are opaque distinct values, known here by their hash.
module RefreshTokens {
  import opened Prelude

  datatype Row = Row(owner: Id, family: nat, hash: nat, expires: int, used: bool, revoked: bool)

  predicate Spent(r: Row) {
    r.used || r.revoked
  }

  // Where a call stands: about to read the token's row, holding what it read and about to consume
  // it, having consumed it and about to write the successor, about to revoke a family, or over.
  datatype Call =
    | Refreshing(hash: nat)
    | LoggingOut(hash: nat)
    | Consuming(id: nat, rec: Row, start: int)
    | Minting(rec: Row, start: int)
    | Revoking(family: nat)
    | Over

  datatype Rotation = Rotation(family: nat, start: int)

  // expiry and rotations are history: when each family ends, and which refreshes succeeded.
  datatype State = State(
    rows: map<nat, Row>, calls: map<nat, Call>, next: nat, now: int,
    expiry: map<nat, int>, rotations: seq<Rotation>)

  datatype Act =
    | Tick(to: int)
    | SignIn(owner: Id)
    | Present(c: nat, hash: nat)
    | Leave(c: nat, hash: nat)
    | LookUp(c: nat)
    | Consume(c: nat)
    | Append(c: nat)
    | Revoke(c: nat)
    | Deny(c: nat)
    | Fail(c: nat)
    | Sweep

  const FAMILY_TTL := 12 * 60 * 60
  const DAY := 24 * 60 * 60

  function CallOf(s: State, c: nat): Call {
    if c in s.calls then s.calls[c] else Over
  }

  // The row a presented token resolves to.
  ghost function ByHash(rows: map<nat, Row>, hash: nat): (r: Option<nat>)
    ensures r.Some? ==> r.value in rows && rows[r.value].hash == hash
  {
    if exists id :: id in rows && rows[id].hash == hash then
      var id :| id in rows && rows[id].hash == hash; Some(id)
    else None
  }

  function RevokeFamily(rows: map<nat, Row>, family: nat): map<nat, Row> {
    map id | id in rows :: if rows[id].family == family then rows[id].(revoked := true) else rows[id]
  }

  // What a refresh makes of what it read.
  ghost function AfterLookup(s: State, hash: nat): Call {
    match ByHash(s.rows, hash)
    case None => Over
    case Some(id) =>
      var rec := s.rows[id];
      if s.now > rec.expires then Over
      else if Spent(rec) then Revoking(rec.family)
      else Consuming(id, rec, s.now)
  }

  // One step; an act that does not apply changes nothing.
  ghost function Do(s: State, act: Act): State {
    match act
    case Tick(to) => if to > s.now then s.(now := to) else s
    case SignIn(owner) =>
      var expires := s.now + FAMILY_TTL;
      s.(rows := s.rows[s.next := Row(owner, s.next, s.next, expires, false, false)],
         expiry := s.expiry[s.next := expires], next := s.next + 1)
    case Present(c, hash) => if c in s.calls then s else s.(calls := s.calls[c := Refreshing(hash)])
    case Leave(c, hash) => if c in s.calls then s else s.(calls := s.calls[c := LoggingOut(hash)])
    case LookUp(c) =>
      (match CallOf(s, c)
       case Refreshing(hash) => s.(calls := s.calls[c := AfterLookup(s, hash)])
       case LoggingOut(hash) =>
         var id := ByHash(s.rows, hash);
         s.(calls := s.calls[c := if id.None? then Over else Revoking(s.rows[id.value].family)])
       case _ => s)
    case Consume(c) =>
      (match CallOf(s, c)
       case Consuming(id, rec, start) =>
         if id in s.rows && !Spent(s.rows[id]) then
           s.(rows := s.rows[id := s.rows[id].(used := true)], calls := s.calls[c := Minting(rec, start)])
         else s.(calls := s.calls[c := Revoking(rec.family)])
       case _ => s)
    case Append(c) =>
      (match CallOf(s, c)
       case Minting(rec, start) =>
         s.(rows := s.rows[s.next := Row(rec.owner, rec.family, s.next, rec.expires, false, false)],
            calls := s.calls[c := Over], next := s.next + 1, rotations := s.rotations + [Rotation(rec.family, start)])
       case _ => s)
    case Revoke(c) =>
      (match CallOf(s, c)
       case Revoking(family) => s.(rows := RevokeFamily(s.rows, family), calls := s.calls[c := Over])
       case _ => s)
    // A disabled operator, or one with no role left: nothing is minted.
    case Deny(c) => if CallOf(s, c).Minting? then s.(calls := s.calls[c := Over]) else s
    // A store error: the call ends where it stands.
    case Fail(c) => if c in s.calls then s.(calls := s.calls[c := Over]) else s
    case Sweep => s.(rows := map id | id in s.rows && s.rows[id].expires >= s.now - DAY :: s.rows[id])
  }

  ghost function Run(s: State, acts: seq<Act>): State {
    if acts == [] then s else Do(Run(s, acts[..|acts| - 1]), acts[|acts| - 1])
  }

  const EMPTY := State(map[], map[], 0, 0, map[], [])

  // ---------------------------------------------------------------- what every interleaving keeps

  // Links carry their family's expiry; ids and secrets are never given out twice.
  predicate RowOk(s: State, id: nat)
    requires id in s.rows
  {
    var r := s.rows[id];
    id < s.next && r.hash == id && r.family in s.expiry && r.expires == s.expiry[r.family]
  }

  predicate CallOk(s: State, c: nat)
    requires c in s.calls
  {
    match s.calls[c]
    case Consuming(id, rec, start) =>
      && id < s.next && rec.family in s.expiry && rec.expires == s.expiry[rec.family] && start <= rec.expires
      && (id in s.rows ==> s.rows[id].family == rec.family)
    case Minting(rec, start) => rec.family in s.expiry && rec.expires == s.expiry[rec.family] && start <= rec.expires
    case _ => true
  }

  predicate IsMinting(s: State, c: nat, family: nat) {
    c in s.calls && s.calls[c].Minting? && s.calls[c].rec.family == family
  }

  predicate IsLive(s: State, id: nat, family: nat) {
    id in s.rows && !Spent(s.rows[id]) && s.rows[id].family == family
  }

  // At most one unspent token to a family; a call that has consumed it and not yet written its
  // successor holds its place.
  ghost predicate OneHolder(s: State) {
    && (forall i: nat, j: nat, f: nat {:trigger IsLive(s, i, f), IsLive(s, j, f)} :: IsLive(s, i, f) && IsLive(s, j, f) ==> i == j)
    && (forall c: nat, d: nat, f: nat {:trigger IsMinting(s, c, f), IsMinting(s, d, f)} :: IsMinting(s, c, f) && IsMinting(s, d, f) ==> c == d)
    && (forall i: nat, c: nat, f: nat {:trigger IsLive(s, i, f), IsMinting(s, c, f)} :: !(IsLive(s, i, f) && IsMinting(s, c, f)))
  }

  ghost predicate Inv(s: State) {
    && OneHolder(s)
    && (forall id {:trigger RowOk(s, id)} :: id in s.rows ==> RowOk(s, id))
    && (forall c {:trigger CallOk(s, c)} :: c in s.calls ==> CallOk(s, c))
    && (forall f :: f in s.expiry ==> f < s.next)
    && (forall k {:trigger s.rotations[k]} :: 0 <= k < |s.rotations| ==>
          s.rotations[k].family in s.expiry && s.rotations[k].start <= s.expiry[s.rotations[k].family])
  }

  // The token's place passes from its row to the call.
  lemma ConsumeKeepsHolder(s: State, c: nat, id: nat, rec: Row)
    requires Inv(s) && c in s.calls && s.calls[c].Consuming? && s.calls[c].id == id && s.calls[c].rec == rec
    ensures OneHolder(Do(s, Consume(c)))
  {
    var s', family := Do(s, Consume(c)), rec.family;
    assert CallOk(s, c);
    var passed := IsLive(s, id, family);
    forall d: nat, f: nat | IsMinting(s', d, f)
      ensures if d == c then f == family && passed else IsMinting(s, d, f) && !(f == family && passed)
    {
      HeldOnce(s, id, id, d, family);
    }
    forall i: nat, f: nat | IsLive(s', i, f) ensures IsLive(s, i, f) && !(f == family && passed) { HeldOnce(s, i, id, c, family); }
  }

  lemma HeldOnce(s: State, i: nat, j: nat, c: nat, f: nat)
    requires Inv(s)
    ensures IsLive(s, i, f) && IsLive(s, j, f) ==> i == j
    ensures IsLive(s, i, f) ==> !IsMinting(s, c, f)
  {
  }

  lemma StepKeepsHolder(s: State, act: Act)
    requires Inv(s)
    ensures OneHolder(Do(s, act))
  {
    var s' := Do(s, act);
    forall i: nat, f: nat | IsLive(s', i, f) ensures act.SignIn? || act.Append? || IsLive(s, i, f) {}
    forall c: nat, f: nat | IsMinting(s', c, f) ensures act.Consume? || IsMinting(s, c, f) {}
    match act
    case SignIn(owner) =>
      forall i: nat, f: nat | IsLive(s', i, f) ensures if i == s.next then f == s.next else IsLive(s, i, f) {}
      forall i: nat, f: nat | IsLive(s, i, f) ensures f < s.next { assert RowOk(s, i); }
      forall c: nat, f: nat | IsMinting(s, c, f) ensures f < s.next { assert CallOk(s, c); }
    case Consume(c) =>
      if CallOf(s, c).Consuming? { ConsumeKeepsHolder(s, c, s.calls[c].id, s.calls[c].rec); }
    case Append(c) =>
      if CallOf(s, c).Minting? {
        var rec := s.calls[c].rec;
        assert IsMinting(s, c, rec.family);
        forall i: nat, f: nat | IsLive(s', i, f) ensures if i == s.next then f == rec.family else IsLive(s, i, f) {}
        forall d: nat, f: nat | IsMinting(s', d, f) ensures d != c && IsMinting(s, d, f) {}
      }
    case _ =>
  }

  lemma StepKeepsRows(s: State, act: Act)
    requires Inv(s)
    ensures forall id :: id in Do(s, act).rows ==> RowOk(Do(s, act), id)
  {
    hide OneHolder, AfterLookup;
    var s' := Do(s, act);
    if c :| act == Append(c) && CallOf(s, c).Minting? { assert CallOk(s, c); }
    forall id | id in s'.rows ensures RowOk(s', id) { if id in s.rows { assert RowOk(s, id); } }
  }

  lemma StepKeepsCalls(s: State, act: Act)
    requires Inv(s)
    ensures forall c :: c in Do(s, act).calls ==> CallOk(Do(s, act), c)
  {
    hide OneHolder;
    var s' := Do(s, act);
    if c :| act == LookUp(c) && CallOf(s, c).Refreshing? {
      var id := ByHash(s.rows, s.calls[c].hash);
      if id.Some? { assert RowOk(s, id.value); }
    }
    forall c | c in s'.calls ensures CallOk(s', c) { if c in s.calls { assert CallOk(s, c); } }
  }

  lemma StepKeepsInv(s: State, act: Act)
    requires Inv(s)
    ensures Inv(Do(s, act))
  {
    StepKeepsHolder(s, act);
    StepKeepsRows(s, act);
    StepKeepsCalls(s, act);
    hide OneHolder, RowOk;
    if c :| act == Append(c) && CallOf(s, c).Minting? { assert CallOk(s, c); }
  }

  // Every interleaving of sign-ins, refreshes and logouts: one unspent token to a family at most,
  // one expiry to a family, and no refresh that started past it.
  lemma {:induction false} EveryRunKeepsInv(s: State, acts: seq<Act>)
    requires Inv(s)
    ensures Inv(Run(s, acts))
    decreases |acts|
  {
    if acts != [] {
      EveryRunKeepsInv(s, acts[..|acts| - 1]);
      StepKeepsInv(Run(s, acts[..|acts| - 1]), acts[|acts| - 1]);
    }
  }

  lemma FamilyFacts(acts: seq<Act>, i: nat, j: nat)
    requires var s := Run(EMPTY, acts); i in s.rows && j in s.rows && s.rows[i].family == s.rows[j].family
    ensures var s := Run(EMPTY, acts); s.rows[i].expires == s.rows[j].expires && (!Spent(s.rows[i]) && !Spent(s.rows[j]) ==> i == j)
  {
    EveryRunKeepsInv(EMPTY, acts);
    var s := Run(EMPTY, acts);
    assert RowOk(s, i) && RowOk(s, j);
    if !Spent(s.rows[i]) && !Spent(s.rows[j]) { assert IsLive(s, i, s.rows[i].family) && IsLive(s, j, s.rows[i].family); }
  }

  // ---------------------------------------------------------------- reuse kills the family

  // No unspent link and none on its way.
  ghost predicate Dead(s: State, family: nat) {
    && family < s.next
    && (forall i: nat {:trigger IsLive(s, i, family)} :: !IsLive(s, i, family))
    && (forall c: nat {:trigger IsMinting(s, c, family)} :: !IsMinting(s, c, family))
  }

  lemma StaysDead(s: State, act: Act, family: nat)
    requires Inv(s) && Dead(s, family)
    ensures Dead(Do(s, act), family)
    ensures var s' := Do(s, act);
            || s'.rotations == s.rotations
            || (&& |s'.rotations| == |s.rotations| + 1 && s'.rotations[..|s.rotations|] == s.rotations
                && s'.rotations[|s.rotations|].family != family)
  {
    var s' := Do(s, act);
    if c :| act == Append(c) && CallOf(s, c).Minting? { assert !IsMinting(s, c, family); }
    if c :| act == Consume(c) && CallOf(s, c).Consuming? {
      assert CallOk(s, c);
      assert !IsLive(s, s.calls[c].id, family);
    }
    forall i: nat ensures !IsLive(s', i, family) { assert !IsLive(s, i, family); }
    forall c: nat ensures !IsMinting(s', c, family) { assert !IsMinting(s, c, family); }
  }

  // How often a refresh in the family has succeeded.
  function Rotated(rotations: seq<Rotation>, family: nat): nat {
    if rotations == [] then 0
    else Rotated(rotations[..|rotations| - 1], family) + (if rotations[|rotations| - 1].family == family then 1 else 0)
  }

  lemma {:induction false} DeadForGood(s: State, acts: seq<Act>, family: nat)
    requires Inv(s) && Dead(s, family)
    ensures var s' := Run(s, acts); Inv(s') && Dead(s', family) && Rotated(s'.rotations, family) == Rotated(s.rotations, family)
    decreases |acts|
  {
    if acts != [] {
      var n := |acts| - 1;
      DeadForGood(s, acts[..n], family);
      StaysDead(Run(s, acts[..n]), acts[n], family);
      StepKeepsInv(Run(s, acts[..n]), acts[n]);
    }
  }

  // After a revocation no refresh in the family ever succeeds again -- exactly when no other call
  // stood between consuming the family's token and writing its successor.
  lemma RevocationIsFinalIff(s: State, c: nat, family: nat)
    requires Inv(s) && CallOf(s, c) == Revoking(family) && family in s.expiry
    ensures var s' := Do(s, Revoke(c));
            (forall acts :: Rotated(Run(s', acts).rotations, family) == Rotated(s'.rotations, family))
            <==> !exists d: nat :: IsMinting(s, d, family)
  {
    var s' := Do(s, Revoke(c));
    StepKeepsInv(s, Revoke(c));
    if d: nat :| IsMinting(s, d, family) {
      var acts := [Append(d)];
      assert acts[..0] == [] && IsMinting(s', d, family);
      assert Run(s', acts) == Do(s', Append(d));
      assert Run(s', acts).rotations[..|s'.rotations|] == s'.rotations;
      assert Rotated(Run(s', acts).rotations, family) == Rotated(s'.rotations, family) + 1;
      assert exists more :: Rotated(Run(s', more).rotations, family) != Rotated(s'.rotations, family);
    } else {
      forall i: nat ensures !IsLive(s', i, family) {}
      forall d: nat ensures !IsMinting(s', d, family) { assert !IsMinting(s, d, family); }
      forall acts ensures Rotated(Run(s', acts).rotations, family) == Rotated(s'.rotations, family) { DeadForGood(s', acts, family); }
    }
  }

  // Two refreshes present one token; the second finds it consumed and is about to revoke the family
  // while the first has still to write its successor.
  function Racing(owner: Id): seq<Act> {
    [SignIn(owner)] + [Present(0, 0)] + [Present(1, 0)] + [LookUp(0)] + [LookUp(1)] + [Consume(0)] + [Consume(1)]
  }

  // From an empty table the race is reached, and when it is over the revoked family has an unspent
  // token.
  lemma RevocationCanLose(owner: Id)
    ensures var s := Run(EMPTY, Racing(owner));
            && CallOf(s, 1) == Revoking(0) && IsMinting(s, 0, 0)
            && var s' := Run(EMPTY, Racing(owner) + [Revoke(1)] + [Append(0)]);
               CallOf(s', 1) == Over && 0 in s'.rows && s'.rows[0].revoked && IsLive(s', 1, 0)
  {
    var s := RacingEnds(owner);
    RunAppend(EMPTY, Racing(owner) + [Revoke(1)], Append(0));
    RunAppend(EMPTY, Racing(owner), Revoke(1));
  }

  lemma RacingEnds(owner: Id) returns (s: State)
    ensures s == Run(EMPTY, Racing(owner))
    ensures var row := Row(owner, 0, 0, FAMILY_TTL, false, false);
            s == State(map[0 := row.(used := true)], map[0 := Minting(row, 0), 1 := Revoking(0)], 1, 0, map[0 := FAMILY_TTL], [])
  {
    var s5 := BothHoldIt(owner);
    s := Do(Do(s5, Consume(0)), Consume(1));
    RunRacing(owner);
  }

  lemma BothHoldIt(owner: Id) returns (s: State)
    ensures s == Do(Do(Do(Do(Do(EMPTY, SignIn(owner)), Present(0, 0)), Present(1, 0)), LookUp(0)), LookUp(1))
    ensures var row := Row(owner, 0, 0, FAMILY_TTL, false, false);
            s == State(map[0 := row], map[0 := Consuming(0, row, 0), 1 := Consuming(0, row, 0)], 1, 0, map[0 := FAMILY_TTL], [])
  {
    hide Inv;
    var s1 := Do(EMPTY, SignIn(owner));
    NothingIsSound();
    StepKeepsInv(EMPTY, SignIn(owner));
    HashesAreIds(s1, 0);
    var s3 := Do(Do(s1, Present(0, 0)), Present(1, 0));
    s := Do(Do(s3, LookUp(0)), LookUp(1));
  }

  lemma NothingIsSound()
    ensures Inv(EMPTY)
  {
  }

  lemma RunRacing(owner: Id)
    ensures Run(EMPTY, Racing(owner)) ==
            Do(Do(Do(Do(Do(Do(Do(EMPTY, SignIn(owner)), Present(0, 0)), Present(1, 0)), LookUp(0)), LookUp(1)), Consume(0)), Consume(1))
  {
    hide Do;
    var a := [SignIn(owner)];
    RunAppend(EMPTY, [], SignIn(owner));
    assert [] + a == a;
    RunAppend(EMPTY, a, Present(0, 0));
    RunAppend(EMPTY, a + [Present(0, 0)], Present(1, 0));
    RunAppend(EMPTY, a + [Present(0, 0)] + [Present(1, 0)], LookUp(0));
    RunAppend(EMPTY, a + [Present(0, 0)] + [Present(1, 0)] + [LookUp(0)], LookUp(1));
    RunAppend(EMPTY, a + [Present(0, 0)] + [Present(1, 0)] + [LookUp(0)] + [LookUp(1)], Consume(0));
    RunAppend(EMPTY, a + [Present(0, 0)] + [Present(1, 0)] + [LookUp(0)] + [LookUp(1)] + [Consume(0)], Consume(1));
  }

  // ---------------------------------------------------------------- one call at a time

  // Nobody is in the middle of a call.
  predicate Quiet(s: State) {
    forall c :: c in s.calls ==> s.calls[c].Over?
  }

  // A call run from its start to its end with nothing in between.
  function Alone(c: nat, hash: nat, admitted: bool): seq<Act> {
    [Present(c, hash), LookUp(c), Consume(c), if admitted then Append(c) else Deny(c), Revoke(c)]
  }

  lemma {:induction false} RunAppend(s: State, acts: seq<Act>, act: Act)
    ensures Run(s, acts + [act]) == Do(Run(s, acts), act)
  {
    assert (acts + [act])[..|acts|] == acts;
  }

  lemma RunAlone(s: State, c: nat, hash: nat, admitted: bool)
    ensures Run(s, Alone(c, hash, admitted)) ==
            Do(Do(Do(Do(Do(s, Present(c, hash)), LookUp(c)), Consume(c)), if admitted then Append(c) else Deny(c)), Revoke(c))
  {
    hide Do;
    var mint := if admitted then Append(c) else Deny(c);
    assert Alone(c, hash, admitted) == [] + [Present(c, hash)] + [LookUp(c)] + [Consume(c)] + [mint] + [Revoke(c)];
    RunAppend(s, [] + [Present(c, hash)] + [LookUp(c)] + [Consume(c)] + [mint], Revoke(c));
    RunAppend(s, [] + [Present(c, hash)] + [LookUp(c)] + [Consume(c)], mint);
    RunAppend(s, [] + [Present(c, hash)] + [LookUp(c)], Consume(c));
    RunAppend(s, [] + [Present(c, hash)], LookUp(c));
    RunAppend(s, [], Present(c, hash));
  }

  // With calls taken one at a time, presenting a spent token that has not expired ends its family
  // for good: whatever happens afterwards, no refresh in it succeeds.
  lemma ReuseEndsTheFamily(s: State, c: nat, id: nat, admitted: bool, acts: seq<Act>)
    requires Inv(s) && Quiet(s) && c !in s.calls && id in s.rows && Spent(s.rows[id]) && s.now <= s.rows[id].expires
    ensures var s' := Run(s, Alone(c, s.rows[id].hash, admitted));
            Rotated(Run(s', acts).rotations, s.rows[id].family) == Rotated(s.rotations, s.rows[id].family)
  {
    var hash, family := s.rows[id].hash, s.rows[id].family;
    RunAlone(s, c, hash, admitted);
    assert RowOk(s, id);
    HashesAreIds(s, id);
    var s1 := Do(s, Present(c, hash));
    var s2 := Do(s1, LookUp(c));
    assert s2.calls[c] == Revoking(family);
    StepKeepsInv(s, Present(c, hash));
    StepKeepsInv(s1, LookUp(c));
    assert Do(s2, Consume(c)) == s2 && Do(s2, if admitted then Append(c) else Deny(c)) == s2;
    forall d: nat ensures !IsMinting(s2, d, family) {}
    RevocationIsFinalIff(s2, c, family);
  }

  lemma HashesAreIds(s: State, id: nat)
    requires Inv(s) && id in s.rows
    ensures ByHash(s.rows, s.rows[id].hash) == Some(id)
  {
    forall j | j in s.rows && s.rows[j].hash == s.rows[id].hash ensures j == id { assert RowOk(s, j) && RowOk(s, id); }
  }

  // ---------------------------------------------------------------- the calls as they are written

  datatype Outcome = Invalid | Reused | Denied | Renewed(token: nat)

  // What a refresh alone comes to.
  ghost function Verdict(s: State, hash: nat, admitted: bool): Outcome {
    var id := ByHash(s.rows, hash);
    if id.None? || s.now > s.rows[id.value].expires then Invalid
    else if Spent(s.rows[id.value]) then Reused
    else if !admitted then Denied
    else Renewed(s.next)
  }

  ghost function Ended(s: State): State {
    s.(calls := map[])
  }

  class Sessions {
    var rows: map<nat, Row>
    var next: nat
    var now: int
    ghost var expiry: map<nat, int>
    ghost var rotations: seq<Rotation>

    ghost function Contents(): State
      reads this
    {
      State(rows, map[], next, now, expiry, rotations)
    }

    constructor ()
      ensures Contents() == EMPTY && Inv(Contents())
    {
      rows, next, now, expiry, rotations := map[], 0, 0, map[], [];
    }

    method BeginSession(owner: Id) returns (token: nat)
      requires Inv(Contents())
      modifies this
      ensures Inv(Contents()) && Contents() == Do(old(Contents()), SignIn(owner)) && token == old(next)
    {
      StepKeepsInv(Contents(), SignIn(owner));
      token := next;
      var expires := now + FAMILY_TTL;
      rows := rows[token := Row(owner, token, token, expires, false, false)];
      expiry := expiry[token := expires];
      next := next + 1;
    }

    method RefreshByHash(hash: nat) returns (id: Option<nat>)
      requires Inv(Contents())
      ensures id == ByHash(rows, hash) && (id.Some? ==> id.value in rows)
    {
      if k :| k in rows && rows[k].hash == hash {
        HashesAreIds(Contents(), k);
        id := Some(k);
      } else {
        id := None;
      }
    }

    method ConsumeRefresh(id: nat) returns (ok: bool)
      modifies this`rows
      ensures ok <==> id in old(rows) && !Spent(old(rows)[id])
      ensures rows == if ok then old(rows)[id := old(rows)[id].(used := true)] else old(rows)
    {
      ok := id in rows && !Spent(rows[id]);
      if ok {
        rows := rows[id := rows[id].(used := true)];
      }
    }

    method RevokeRefreshFamily(family: nat)
      modifies this`rows
      ensures rows == RevokeFamily(old(rows), family)
    {
      rows := map id | id in rows :: if rows[id].family == family then rows[id].(revoked := true) else rows[id];
    }

    // admitted: the operator is active and holds a role.
    method Refresh(hash: nat, admitted: bool) returns (r: Outcome)
      requires Inv(Contents())
      modifies this
      ensures Inv(Contents()) && Contents() == Ended(Run(old(Contents()), Alone(0, hash, admitted)))
      ensures r == Verdict(old(Contents()), hash, admitted)
    {
      ghost var was := Contents();
      RefreshAlone(was, hash, admitted);
      var found := RefreshByHash(hash);
      if found.None? || now > rows[found.value].expires {
        return Invalid;
      }
      var id, rec := found.value, rows[found.value];
      if Spent(rec) {
        RevokeRefreshFamily(rec.family);
        return Reused;
      }
      // Only a call in between could have taken the row; the interleaved machine has that branch.
      var ok := ConsumeRefresh(id);
      assert ok;
      if !admitted {
        return Denied;
      }
      var token := next;
      next := next + 1;
      rows := rows[token := Row(rec.owner, rec.family, token, rec.expires, false, false)];
      rotations := rotations + [Rotation(rec.family, now)];
      r := Renewed(token);
    }

    method Logout(hash: nat)
      requires Inv(Contents())
      modifies this`rows
      ensures Inv(Contents())
      ensures var id := ByHash(old(rows), hash);
              rows == if id.None? then old(rows) else RevokeFamily(old(rows), old(rows)[id.value].family)
    {
      ghost var was := Contents();
      var found := RefreshByHash(hash);
      if found.Some? {
        RevokeRefreshFamily(rows[found.value].family);
      }
      LogoutAlone(was, hash);
    }
  }

  // The table a refresh alone leaves.
  ghost function Refreshed(s: State, hash: nat, admitted: bool): State {
    match Verdict(s, hash, admitted)
    case Invalid => s
    case Reused => s.(rows := RevokeFamily(s.rows, s.rows[ByHash(s.rows, hash).value].family))
    case Denied => var id := ByHash(s.rows, hash).value; s.(rows := s.rows[id := s.rows[id].(used := true)])
    case Renewed(token) =>
      var id := ByHash(s.rows, hash).value;
      var rec := s.rows[id];
      s.(rows := s.rows[id := rec.(used := true)][token := Row(rec.owner, rec.family, token, rec.expires, false, false)],
         next := s.next + 1, rotations := s.rotations + [Rotation(rec.family, s.now)])
  }

  // The last three steps, from the call the look-up left.
  ghost function Tail(s: State, call: Call, admitted: bool): State {
    Do(Do(Do(s.(calls := map[0 := call]), Consume(0)), if admitted then Append(0) else Deny(0)), Revoke(0))
  }

  lemma TailOver(s: State, admitted: bool)
    ensures Tail(s, Over, admitted) == s.(calls := map[0 := Over])
  {
  }

  lemma TailRevoking(s: State, family: nat, admitted: bool)
    ensures Tail(s, Revoking(family), admitted) == s.(rows := RevokeFamily(s.rows, family), calls := map[0 := Over])
  {
    hide RevokeFamily;
    var s2 := s.(calls := map[0 := Revoking(family)]);
    assert Do(s2, Consume(0)) == s2 && Do(s2, if admitted then Append(0) else Deny(0)) == s2;
  }

  lemma TailConsuming(s: State, id: nat, admitted: bool)
    requires id in s.rows && !Spent(s.rows[id])
    ensures var rec, used := s.rows[id], s.rows[id := s.rows[id].(used := true)];
            Tail(s, Consuming(id, rec, s.now), admitted) ==
            if admitted then
              s.(rows := used[s.next := Row(rec.owner, rec.family, s.next, rec.expires, false, false)], calls := map[0 := Over],
                 next := s.next + 1, rotations := s.rotations + [Rotation(rec.family, s.now)])
            else s.(rows := used, calls := map[0 := Over])
  {
    var rec, used := s.rows[id], s.rows[id := s.rows[id].(used := true)];
    var s3 := Do(s.(calls := map[0 := Consuming(id, rec, s.now)]), Consume(0));
    assert s3 == s.(rows := used, calls := map[0 := Minting(rec, s.now)]);
  }

  lemma LookUpAlone(s: State, hash: nat)
    requires s.calls == map[]
    ensures Do(Do(s, Present(0, hash)), LookUp(0)) == s.(calls := map[0 := AfterLookup(s, hash)])
  {
    assert Do(s, Present(0, hash)) == s.(calls := map[0 := Refreshing(hash)]);
  }

  // The steps of a refresh with nothing between them, by what the first of them reads.
  lemma RefreshAlone(s: State, hash: nat, admitted: bool)
    requires Inv(s) && s.calls == map[]
    ensures Ended(Run(s, Alone(0, hash, admitted))) == Refreshed(s, hash, admitted) && Inv(Refreshed(s, hash, admitted))
  {
    hide Inv, Do, Run, RevokeFamily, ByHash, Alone;
    EveryRunKeepsInv(s, Alone(0, hash, admitted));
    EndedIsSound(Run(s, Alone(0, hash, admitted)));
    RunAlone(s, 0, hash, admitted);
    LookUpAlone(s, hash);
    TailOver(s, admitted);
    match AfterLookup(s, hash)
    case Over =>
    case Revoking(family) => TailRevoking(s, family, admitted);
    case Consuming(id, rec, start) => TailConsuming(s, id, admitted);
  }

  // ---------------------------------------------------------------- what is written, in the columns

  // Twelve hours from the moment of signing in, in a family of its own.
  lemma SignInMeans(s: State, owner: Id)
    requires Inv(s)
    ensures var s' := Do(s, SignIn(owner));
            exists id :: NewRow(s, s', id) && s'.rows[id].owner == owner && s'.rows[id].expires == s.now + 43200
                         && forall j :: j in s.rows ==> s.rows[j].family != s'.rows[id].family
    ensures s.now == Do(s, SignIn(owner)).now && s.calls == Do(s, SignIn(owner)).calls
  {
    forall j | j in s.rows ensures j < s.next && s.rows[j].hash < s.next && s.rows[j].family < s.next { assert RowOk(s, j); }
    assert NewRow(s, Do(s, SignIn(owner)), s.next);
  }

  // One unspent row more, with a secret nobody had, and the others as they were.
  ghost predicate NewRow(s: State, s': State, id: nat) {
    && id !in s.rows && s'.rows.Keys == s.rows.Keys + {id} && !s'.rows[id].used && !s'.rows[id].revoked
    && forall j :: j in s.rows ==> s'.rows[j] == s.rows[j] && s.rows[j].hash != s'.rows[id].hash
  }

  ghost predicate Held(s: State, id: nat, hash: nat) {
    id in s.rows && s.rows[id].hash == hash && s.now <= s.rows[id].expires
  }

  // A refresh alone, by the row whose secret is presented: unknown or expired, spent, or good.
  lemma VerdictMeans(s: State, hash: nat, admitted: bool)
    requires Inv(s)
    ensures var s', v := Refreshed(s, hash, admitted), Verdict(s, hash, admitted);
            && s'.now == s.now && s'.calls == s.calls
            && (v == Invalid <==> !exists id: nat :: Held(s, id, hash)) && (v == Invalid ==> s' == s)
            && forall id: nat :: Held(s, id, hash) ==> Becomes(s, s', id, v, admitted)
  {
    forall id: nat | Held(s, id, hash) ensures Becomes(s, Refreshed(s, hash, admitted), id, Verdict(s, hash, admitted), admitted) {
      HeldBecomes(s, id, hash, admitted);
    }
    var id := ByHash(s.rows, hash);
    assert Verdict(s, hash, admitted) != Invalid ==> Held(s, id.value, hash);
  }

  ghost predicate Becomes(s: State, s': State, id: nat, v: Outcome, admitted: bool)
    requires id in s.rows
  {
    var r := s.rows[id];
    && !v.Invalid?
    && (v == Reused <==> r.used || r.revoked)
    && (v == Reused ==> s'.rows.Keys == s.rows.Keys && forall j :: j in s.rows ==> RevokedIn(s, s', j, r.family))
    && (v == Denied <==> !r.used && !r.revoked && !admitted)
    && (v == Denied ==> s'.rows == s.rows[id := r.(used := true)])
    && (v.Renewed? <==> !r.used && !r.revoked && admitted)
    && (v.Renewed? ==> Succeeds(s, s', id, v.token))
  }

  ghost predicate RevokedIn(s: State, s': State, j: nat, family: nat)
    requires j in s.rows
  {
    j in s'.rows && s'.rows[j] == if s.rows[j].family == family then s.rows[j].(revoked := true) else s.rows[j]
  }

  lemma HeldBecomes(s: State, id: nat, hash: nat, admitted: bool)
    requires Inv(s) && Held(s, id, hash)
    ensures Becomes(s, Refreshed(s, hash, admitted), id, Verdict(s, hash, admitted), admitted)
  {
    HashesAreIds(s, id);
    forall j | j in s.rows ensures j < s.next && s.rows[j].hash < s.next { assert RowOk(s, j); }
    hide Inv, ByHash;
    if Verdict(s, hash, admitted).Renewed? {
      var mid, s' := s.(rows := s.rows[id := s.rows[id].(used := true)]), Refreshed(s, hash, admitted);
      assert NewRow(mid, s', s.next) && Carries(s'.rows[s.next], s.rows[id]);
    }
  }

  // The row presented is used up, and a new one stands in for it with its owner, family and expiry.
  ghost predicate Succeeds(s: State, s': State, id: nat, token: nat)
    requires id in s.rows
  {
    exists n :: NewRow(s.(rows := s.rows[id := s.rows[id].(used := true)]), s', n) && Carries(s'.rows[n], s.rows[id]) && s'.rows[n].hash == token
  }

  predicate Carries(r: Row, was: Row) {
    r.owner == was.owner && r.family == was.family && r.expires == was.expires
  }

  // The sweep takes what expired more than a day ago.
  lemma SweepMeans(s: State)
    ensures var s' := Do(s, Sweep);
            && (forall id :: id in s'.rows <==> id in s.rows && s.rows[id].expires >= s.now - 86400)
            && (forall id :: id in s'.rows ==> s'.rows[id] == s.rows[id])
            && s' == s.(rows := s'.rows)
  {
    var s' := Do(s, Sweep);
    forall id | id in s'.rows ensures id in s.rows && s.rows[id].expires >= s.now - 86400 && s'.rows[id] == s.rows[id] {}
  }

  lemma LogoutAlone(s: State, hash: nat)
    requires Inv(s) && s.calls == map[]
    ensures var id := ByHash(s.rows, hash);
            Inv(s.(rows := if id.None? then s.rows else RevokeFamily(s.rows, s.rows[id.value].family)))
  {
    var s1 := Do(s, Leave(0, hash));
    var s2 := Do(s1, LookUp(0));
    StepKeepsInv(s, Leave(0, hash));
    StepKeepsInv(s1, LookUp(0));
    StepKeepsInv(s2, Revoke(0));
    EndedIsSound(Do(s2, Revoke(0)));
    EndedIsSound(s2);
  }

  lemma EndedIsSound(s: State)
    requires Inv(s)
    ensures Inv(Ended(s))
  {
    forall id | id in s.rows ensures RowOk(Ended(s), id) { assert RowOk(s, id); }
    forall i: nat, f: nat | IsLive(Ended(s), i, f) ensures IsLive(s, i, f) {}
  }
}
