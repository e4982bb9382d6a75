// The snapshot manager: when a tenant's snapshot is rebuilt, when it is only re-stamped, and how
// old what it serves can be. One loop does all the loading; readers look at any moment.
module Freshness {
  import opened Prelude

  // Everything a snapshot holds of the database, told apart by number.
  type Content = nat

  // The database over time: a tenant's content and its catalog version at every instant.
  datatype World = World(content: (string, int) -> Content, version: (string, int) -> int)

  datatype Snap = Snap(content: Content, version: int, loadedAt: int, builtAt: int)

  // The clock readings of one load: when the age was checked, when the version was read and the
  // snapshot stamped (the probe may fail), when a rebuild stamped its data, read the database and
  // swapped it in (it may fail too).
  datatype Visit = Visit(
    checked: int, probed: int, probeOk: bool, stamped: int,
    began: int, read: int, readOk: bool, swapped: int)

  // A version probe, and stamping after it, take no longer than D.
  predicate InOrder(v: Visit, D: nat) {
    v.checked <= v.probed <= v.stamped <= v.checked + D && v.stamped <= v.began <= v.read <= v.swapped
  }

  class Manager {
    const maxAge: int
    const rebuildEvery: int
    var data: map<string, Snap>

    ghost predicate Valid()
      reads this
    {
      maxAge > 0 && rebuildEvery == maxAge
    }

    constructor (maxAge: int)
      ensures Valid() && data == map[] && this.maxAge == if maxAge <= 0 then 300 else maxAge
    {
      this.maxAge := if maxAge <= 0 then 300 else maxAge;
      rebuildEvery := if maxAge <= 0 then 300 else maxAge;
      data := map[];
    }

    method Get(slug: string, now: int) returns (d: Option<Snap>, isFresh: bool)
      ensures d == if slug in data then Some(data[slug]) else None
      ensures isFresh <==> slug in data && now - data[slug].loadedAt <= maxAge
    {
      if slug !in data {
        return None, false;
      }
      d := Some(data[slug]);
      isFresh := now - data[slug].loadedAt <= maxAge;
    }

    // The same data under a new stamp, if it is still what is being served.
    method Touch(slug: string, cur: Snap, now: int)
      modifies this`data
      ensures data == if slug in old(data) && old(data)[slug] == cur then old(data)[slug := cur.(loadedAt := now)] else old(data)
    {
      if slug in data && data[slug] == cur {
        data := data[slug := cur.(loadedAt := now)];
      }
    }

    method Load(slug: string, w: World, v: Visit)
      requires Valid()
      modifies this`data
      ensures Valid() && data == Loaded(old(data), slug, w, v, maxAge)
    {
      var cur, _ := Get(slug, v.checked);
      if cur.Some? {
        if v.checked - cur.value.builtAt >= rebuildEvery {
          // Proof from scratch, whatever the version says.
        } else if v.probeOk && w.version(slug, v.probed) == cur.value.version {
          Touch(slug, cur.value, v.stamped);
          return;
        }
      }
      if !v.readOk {
        return;
      }
      data := data[slug := Snap(w.content(slug, v.read), w.version(slug, v.read), v.began, v.began)];
    }
  }

  // ---------------------------------------------------------------- one load

  predicate Unchanged(d: Snap, slug: string, w: World, v: Visit, maxAge: int) {
    v.checked - d.builtAt < maxAge && v.probeOk && w.version(slug, v.probed) == d.version
  }

  function Loaded(data: map<string, Snap>, slug: string, w: World, v: Visit, maxAge: int): map<string, Snap> {
    if slug in data && Unchanged(data[slug], slug, w, v, maxAge) then data[slug := data[slug].(loadedAt := v.stamped)]
    else if !v.readOk then data
    else data[slug := Snap(w.content(slug, v.read), w.version(slug, v.read), v.began, v.began)]
  }

  // The instant the one effect of a load falls on.
  function Ended(data: map<string, Snap>, slug: string, w: World, v: Visit, maxAge: int): int {
    if slug in data && Unchanged(data[slug], slug, w, v, maxAge) then v.stamped else v.swapped
  }

  // What one load does, case by case: an unchanged version on a young snapshot only moves its load
  // stamp; a rebuild that fails leaves what is served as it was; one that succeeds serves what the
  // database held when it was read, under one new stamp; and no other tenant is touched.
  lemma LoadMeans(data: map<string, Snap>, slug: string, w: World, v: Visit, maxAge: int)
    ensures var data' := Loaded(data, slug, w, v, maxAge);
            var young := slug in data && v.checked - data[slug].builtAt < maxAge;
            var same := young && v.probeOk && w.version(slug, v.probed) == data[slug].version;
            && (forall s :: s != slug ==> (s in data' <==> s in data) && (s in data ==> data'[s] == data[s]))
            && (same ==>
                  slug in data' &&
                  var d, d' := data[slug], data'[slug];
                  d'.content == d.content && d'.version == d.version && d'.builtAt == d.builtAt && d'.loadedAt == v.stamped)
            && (!same && !v.readOk ==> data' == data)
            && (!same && v.readOk ==>
                  slug in data' &&
                  var d' := data'[slug];
                  d'.content == w.content(slug, v.read) && d'.version == w.version(slug, v.read) && d'.builtAt == d'.loadedAt == v.began)
  {
  }

  // However many rebuilds of a tenant fail in a row, it goes on being served what it was, stamps and all.
  lemma {:induction false} FailureIsStatic(w: World, maxAge: int, loads: seq<(string, Visit)>, more: seq<(string, Visit)>, slug: string)
    requires slug in Served(w, maxAge, loads)
    requires forall i :: 0 <= i < |more| ==> more[i].0 != slug || (!more[i].1.probeOk && !more[i].1.readOk)
    ensures slug in Served(w, maxAge, loads + more) && Served(w, maxAge, loads + more)[slug] == Served(w, maxAge, loads)[slug]
    decreases |more|
  {
    if more == [] {
      assert loads + more == loads;
    } else {
      var n := |more| - 1;
      FailureIsStatic(w, maxAge, loads, more[..n], slug);
      assert (loads + more)[..|loads| + n] == loads + more[..n];
      LoadMeans(Served(w, maxAge, loads + more[..n]), more[n].0, w, more[n].1, maxAge);
    }
  }

  // ---------------------------------------------------------------- what is served

  predicate SameAt(d: Snap, slug: string, w: World, p: int) {
    w.content(slug, p) == d.content && w.version(slug, p) == d.version
  }

  // Built from the database no earlier than its build stamp; its version seen no more than D
  // before its load stamp; and the two stamps apart by less than an age and a probe.
  ghost predicate Honest(d: Snap, slug: string, w: World, maxAge: int, D: nat, now: int) {
    && d.builtAt <= d.loadedAt <= now && d.loadedAt < d.builtAt + maxAge + D
    && (exists q :: d.builtAt <= q <= now && SameAt(d, slug, w, q))
    && (exists p :: d.loadedAt - D <= p <= now && w.version(slug, p) == d.version)
  }

  ghost predicate AllHonest(data: map<string, Snap>, w: World, maxAge: int, D: nat, now: int) {
    forall slug :: slug in data ==> Honest(data[slug], slug, w, maxAge, D, now)
  }

  lemma LaterIsHonest(data: map<string, Snap>, w: World, maxAge: int, D: nat, now: int, now': int)
    requires AllHonest(data, w, maxAge, D, now) && now <= now'
    ensures AllHonest(data, w, maxAge, D, now')
  {
    forall slug | slug in data ensures Honest(data[slug], slug, w, maxAge, D, now') {
      var d := data[slug];
      var q :| d.builtAt <= q <= now && SameAt(d, slug, w, q);
      var p :| d.loadedAt - D <= p <= now && w.version(slug, p) == d.version;
    }
  }

  lemma LoadIsHonest(data: map<string, Snap>, slug: string, w: World, v: Visit, maxAge: int, D: nat, now: int)
    requires AllHonest(data, w, maxAge, D, now) && InOrder(v, D) && now <= v.checked && maxAge > 0
    ensures AllHonest(Loaded(data, slug, w, v, maxAge), w, maxAge, D, Ended(data, slug, w, v, maxAge))
  {
    var end, data' := Ended(data, slug, w, v, maxAge), Loaded(data, slug, w, v, maxAge);
    LaterIsHonest(data, w, maxAge, D, now, end);
    if slug in data && Unchanged(data[slug], slug, w, v, maxAge) {
      assert Honest(data[slug], slug, w, maxAge, D, end);
      var d := data[slug];
      var q :| d.builtAt <= q <= end && SameAt(d, slug, w, q);
      assert SameAt(data'[slug], slug, w, q);
      assert v.stamped - D <= v.probed <= end && w.version(slug, v.probed) == d.version;
    } else if v.readOk {
      assert SameAt(data'[slug], slug, w, v.read);
      assert v.began - D <= v.read && w.version(slug, v.read) == data'[slug].version;
    }
    forall s | s in data' ensures Honest(data'[s], s, w, maxAge, D, end) { if s != slug { assert s in data && data'[s] == data[s]; } }
  }

  // Loads one after another, each begun after the effect of the last.
  ghost function Served(w: World, maxAge: int, loads: seq<(string, Visit)>): map<string, Snap> {
    if loads == [] then map[]
    else
      var n := |loads| - 1;
      Loaded(Served(w, maxAge, loads[..n]), loads[n].0, w, loads[n].1, maxAge)
  }

  ghost predicate InTurn(w: World, maxAge: int, D: nat, loads: seq<(string, Visit)>, now: int) {
    if loads == [] then true
    else
      var n := |loads| - 1;
      var (slug, v) := loads[n];
      && InOrder(v, D) && InTurn(w, maxAge, D, loads[..n], v.checked)
      && Ended(Served(w, maxAge, loads[..n]), slug, w, v, maxAge) <= now
  }

  lemma {:induction false} EveryRunIsHonest(w: World, maxAge: int, D: nat, loads: seq<(string, Visit)>, now: int)
    requires maxAge > 0 && InTurn(w, maxAge, D, loads, now)
    ensures AllHonest(Served(w, maxAge, loads), w, maxAge, D, now)
    decreases |loads|
  {
    if loads != [] {
      var n := |loads| - 1;
      var (slug, v) := loads[n];
      var before := Served(w, maxAge, loads[..n]);
      EveryRunIsHonest(w, maxAge, D, loads[..n], v.checked);
      LoadIsHonest(before, slug, w, v, maxAge, D, v.checked);
      LaterIsHonest(Served(w, maxAge, loads), w, maxAge, D, Ended(before, slug, w, v, maxAge), now);
    }
  }

  // Every change of content moves the version, which never goes back.
  ghost predicate Bumps(w: World, slug: string) {
    && (forall s, t :: s <= t ==> w.version(slug, s) <= w.version(slug, t))
    && (forall s, t :: s <= t && w.version(slug, s) == w.version(slug, t) ==> w.content(slug, s) == w.content(slug, t))
  }

  // If every change bumps the version, what is served as fresh at T is what the database held at
  // some moment no further back than the maximum age and one probe.
  lemma FreshIsRecent(w: World, maxAge: int, D: nat, loads: seq<(string, Visit)>, slug: string, T: int)
    requires maxAge > 0 && InTurn(w, maxAge, D, loads, T) && slug in Served(w, maxAge, loads)
    requires T - Served(w, maxAge, loads)[slug].loadedAt <= maxAge && Bumps(w, slug)
    ensures exists p :: T - maxAge - D <= p <= T && w.content(slug, p) == Served(w, maxAge, loads)[slug].content
  {
    EveryRunIsHonest(w, maxAge, D, loads, T);
    var d := Served(w, maxAge, loads)[slug];
    assert Honest(d, slug, w, maxAge, D, T);
    var q :| d.builtAt <= q <= T && SameAt(d, slug, w, q);
    var p :| d.loadedAt - D <= p <= T && w.version(slug, p) == d.version;
    assert w.version(slug, q) == w.version(slug, p);
    assert w.content(slug, p) == d.content;
  }

  // Whatever the triggers forget, what is served as fresh was built less than two ages and a probe
  // ago, from what the database held since then.
  lemma FreshIsBounded(w: World, maxAge: int, D: nat, loads: seq<(string, Visit)>, slug: string, T: int)
    requires maxAge > 0 && InTurn(w, maxAge, D, loads, T) && slug in Served(w, maxAge, loads)
    requires T - Served(w, maxAge, loads)[slug].loadedAt <= maxAge
    ensures var d := Served(w, maxAge, loads)[slug];
            T - d.builtAt < 2 * maxAge + D && exists q :: d.builtAt <= q <= T && w.content(slug, q) == d.content
  {
    EveryRunIsHonest(w, maxAge, D, loads, T);
    var d := Served(w, maxAge, loads)[slug];
    assert Honest(d, slug, w, maxAge, D, T);
    var q :| d.builtAt <= q <= T && SameAt(d, slug, w, q);
  }

  // The bound is met: a re-stamp just short of the maximum age lets a snapshot be served when
  // it was built almost two ages ago.
  lemma BoundIsMet(maxAge: int, slug: string)
    requires maxAge > 1
    ensures var w := World((s: string, t: int) => if t <= 0 then 0 else 1, (s: string, t: int) => 0);
            var built := Visit(0, 0, true, 0, 0, 0, true, 0);
            var touched := Visit(maxAge - 1, maxAge - 1, true, maxAge - 1, maxAge - 1, maxAge - 1, true, maxAge - 1);
            var loads, T := [(slug, built), (slug, touched)], 2 * maxAge - 1;
            && InTurn(w, maxAge, 0, loads, T) && slug in Served(w, maxAge, loads)
            && var d := Served(w, maxAge, loads)[slug];
               T - d.loadedAt <= maxAge && T - d.builtAt == 2 * maxAge - 1
               && forall p :: T - maxAge <= p <= T ==> w.content(slug, p) != d.content
  {
    var w := World((s: string, t: int) => if t <= 0 then 0 else 1, (s: string, t: int) => 0);
    var built := Visit(0, 0, true, 0, 0, 0, true, 0);
    var touched := Visit(maxAge - 1, maxAge - 1, true, maxAge - 1, maxAge - 1, maxAge - 1, true, maxAge - 1);
    var loads := [(slug, built), (slug, touched)];
    assert loads[..1] == [(slug, built)] && [(slug, built)][..0] == [];
    assert Served(w, maxAge, [(slug, built)]) == map[slug := Snap(0, 0, 0, 0)];
  }

  // Through all of the time d is served as fresh it was built within the maximum age.
  ghost predicate BuiltWithinAge(d: Snap, maxAge: int) {
    forall T :: FreshAt(d, maxAge, T) ==> T - d.builtAt <= maxAge
  }

  predicate FreshAt(d: Snap, maxAge: int, T: int) {
    d.loadedAt <= T && T - d.loadedAt <= maxAge
  }

  // The promise is kept of a snapshot exactly when its two stamps are one.
  lemma KeptIffOneStamp(d: Snap, maxAge: int)
    requires maxAge > 0 && d.builtAt <= d.loadedAt
    ensures BuiltWithinAge(d, maxAge) <==> d.loadedAt == d.builtAt
  {
    assert FreshAt(d, maxAge, d.loadedAt + maxAge);
  }

  // The last load of the slug that took effect was a rebuild, or stamped anew in the very instant
  // the snapshot was built.
  ghost predicate RebuiltLast(w: World, maxAge: int, loads: seq<(string, Visit)>, slug: string) {
    loads != []
    && var n := |loads| - 1;
       var before, (s, v) := Served(w, maxAge, loads[..n]), loads[n];
       if s != slug then RebuiltLast(w, maxAge, loads[..n], slug)
       else if s in before && Unchanged(before[s], s, w, v, maxAge) then v.stamped == before[s].builtAt
       else v.readOk || RebuiltLast(w, maxAge, loads[..n], slug)
  }

  lemma {:induction false} OneStampIffRebuilt(w: World, maxAge: int, loads: seq<(string, Visit)>, slug: string)
    requires slug in Served(w, maxAge, loads)
    ensures var d := Served(w, maxAge, loads)[slug]; d.loadedAt == d.builtAt <==> RebuiltLast(w, maxAge, loads, slug)
    decreases |loads|
  {
    var n := |loads| - 1;
    if slug in Served(w, maxAge, loads[..n]) {
      OneStampIffRebuilt(w, maxAge, loads[..n], slug);
    }
  }

  // Over every run, tenant by tenant: nothing is served as fresh past the maximum age of its build
  // exactly when the last load that took effect rebuilt it.
  lemma PromiseKeptIff(w: World, maxAge: int, D: nat, loads: seq<(string, Visit)>, slug: string, now: int)
    requires maxAge > 0 && InTurn(w, maxAge, D, loads, now) && slug in Served(w, maxAge, loads)
    ensures BuiltWithinAge(Served(w, maxAge, loads)[slug], maxAge) <==> RebuiltLast(w, maxAge, loads, slug)
  {
    EveryRunIsHonest(w, maxAge, D, loads, now);
    var d := Served(w, maxAge, loads)[slug];
    assert Honest(d, slug, w, maxAge, D, now);
    KeptIffOneStamp(d, maxAge);
    OneStampIffRebuilt(w, maxAge, loads, slug);
  }

  // ---------------------------------------------------------------- coalescing bumps

  const COALESCE_QUIET := 250
  const COALESCE_MAX := 2000

  // The tenants bumped, when the first of them must be served by, and when the timer is set for.
  datatype Loop = Loop(pending: set<Id>, deadline: int, timer: Option<int>)

  datatype Event = Bumped(tenant: Id) | Polled | Fired(listed: bool)

  function Waited(deadline: int, now: int): int {
    var wait := if deadline - now < COALESCE_QUIET then deadline - now else COALESCE_QUIET;
    if wait < 0 then 0 else wait
  }

  function React(l: Loop, e: Event, now: int): Loop {
    match e
    case Bumped(tenant) =>
      var deadline := if l.pending == {} then now + COALESCE_MAX else l.deadline;
      Loop(l.pending + {tenant}, deadline, Some(now + Waited(deadline, now)))
    case Polled => l
    case Fired(listed) => Loop(if listed then {} else l.pending, l.deadline, None)
  }

  function Reacted(l: Loop, events: seq<Event>, times: seq<int>): Loop
    requires |events| == |times|
  {
    if events == [] then l
    else var n := |events| - 1; React(Reacted(l, events[..n], times[..n]), events[n], times[n])
  }

  function Tenants(events: seq<Event>): set<Id> {
    set i | 0 <= i < |events| && events[i].Bumped? :: events[i].tenant
  }

  // Bumps and polls in order of time, each before the timer goes off, the first of them a bump.
  predicate Stream(l: Loop, events: seq<Event>, times: seq<int>)
    requires |events| == |times|
  {
    |events| > 0
    && var n := |events| - 1;
       !events[n].Fired? && times[0] <= times[n]
       && if n == 0 then events[0].Bumped?
          else
            var before := Reacted(l, events[..n], times[..n]);
            Stream(l, events[..n], times[..n]) && before.timer.Some? && times[n] <= before.timer.value
  }

  // No stream of bumps puts the reload off: however many follow the first and whenever the poll
  // runs, the timer stands no later than the deadline that first bump fixed, and every bumped
  // tenant is waiting for it.
  lemma {:induction false} BumpsDoNotPutItOff(l: Loop, events: seq<Event>, times: seq<int>)
    requires |events| == |times| && l.pending == {} && Stream(l, events, times)
    ensures var l' := Reacted(l, events, times);
            && l'.timer.Some? && l'.timer.value <= l'.deadline == times[0] + 2000
            && l'.pending == Tenants(events) && l'.pending != {}
    decreases |events|
  {
    var n := |events| - 1;
    TenantsGrow(events);
    if n == 0 {
      assert Reacted(l, events[..0], times[..0]) == l;
    } else {
      hide Tenants;
      BumpsDoNotPutItOff(l, events[..n], times[..n]);
      assert times[..n][0] == times[0];
    }
  }

  // A bump waits for a quarter of a second of quiet, but never past the deadline of the first.
  lemma QuietFires(l: Loop, tenant: Id, now: int)
    ensures var l' := React(l, Bumped(tenant), now);
            var deadline := if l.pending == {} then now + 2000 else l.deadline;
            && l'.pending == l.pending + {tenant} && l'.deadline == deadline && l'.timer.Some?
            && (now + 250 <= deadline ==> l'.timer.value == now + 250)
            && (now <= deadline < now + 250 ==> l'.timer.value == deadline)
            && (deadline < now ==> l'.timer.value == now)
  {
  }

  // When the timer goes off the waiting tenants are reloaded; if they cannot be listed they go on
  // waiting, and the next bump, past the deadline by then, is served at once.
  lemma FiredMeans(l: Loop, tenant: Id, now: int, next: int)
    requires l.pending != {} && l.deadline <= now <= next
    ensures React(l, Fired(true), now).pending == {} && React(l, Fired(true), now).timer == None
    ensures var l' := React(l, Fired(false), now);
            && l'.pending == l.pending && l'.deadline == l.deadline && l'.timer == None
            && React(l', Bumped(tenant), next) == Loop(l.pending + {tenant}, l.deadline, Some(next))
    ensures React(l, Polled, now) == l
  {
  }

  lemma TenantsGrow(events: seq<Event>)
    requires events != []
    ensures var n := |events| - 1; Tenants(events) == Tenants(events[..n]) + (if events[n].Bumped? then {events[n].tenant} else {})
  {
  }
}
