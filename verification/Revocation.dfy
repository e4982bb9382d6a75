// The revocation stream: the broker's subscribers and their buffers as steps that interleave
// freely, and what the difference of two snapshots announces.
module Revocation {
  import opened Prelude

  datatype Event =
    | SessionRevoked(tenant: string, session: Id)
    | EpochRaised(tenant: string, identity: Id, epoch: int)

  const SUB_BUFFER: nat := 64

  // One subscriber and its channel. listed: the broker still holds the channel. isOpen: it has not
  // been closed. log: what was published to the tenant while it was listed, and whether it was
  // taken or dropped; from and upTo: where that stands in everything published.
  datatype Sub = Sub(
    tenant: string, listed: bool, isOpen: bool, buffer: seq<Event>, received: seq<Event>,
    log: seq<(Event, bool)>, from: nat, upTo: nat)

  // published and history in the subscribers are there to speak of; the broker keeps the rest.
  datatype State = State(subs: map<nat, Sub>, next: nat, dropped: nat, published: seq<Event>)

  datatype Act =
    | Subscribe(tenant: string)
    | Publish(ev: Event)
    | Unlist(id: nat)      // the cancel function, under the lock
    | Close(id: nat)       // and after it
    | Receive(id: nat)

  const EMPTY := State(map[], 0, 0, [])

  predicate Hears(s: Sub, ev: Event) {
    s.listed && s.tenant == ev.tenant
  }

  // The send that never blocks.
  function Offered(s: Sub, ev: Event): Sub {
    var taken := |s.buffer| < SUB_BUFFER;
    s.(buffer := if taken then s.buffer + [ev] else s.buffer, log := s.log + [(ev, taken)])
  }

  // Every listed subscriber has the new event behind it, whether it was theirs or not.
  function Seen(s: Sub, ev: Event): Sub {
    if Hears(s, ev) then Offered(s, ev).(upTo := s.upTo + 1)
    else if s.listed then s.(upTo := s.upTo + 1)
    else s
  }

  function Losers(subs: map<nat, Sub>, ev: Event): set<nat> {
    set id | id in subs && Hears(subs[id], ev) && |subs[id].buffer| >= SUB_BUFFER
  }

  function Do(s: State, act: Act): State {
    match act
    case Subscribe(tenant) =>
      s.(subs := s.subs[s.next := Sub(tenant, true, true, [], [], [], |s.published|, |s.published|)], next := s.next + 1)
    case Publish(ev) =>
      State(map id | id in s.subs :: Seen(s.subs[id], ev), s.next, s.dropped + |Losers(s.subs, ev)|, s.published + [ev])
    case Unlist(id) => if id in s.subs then s.(subs := s.subs[id := s.subs[id].(listed := false)]) else s
    case Close(id) =>
      if id in s.subs && !s.subs[id].listed then s.(subs := s.subs[id := s.subs[id].(isOpen := false)]) else s
    case Receive(id) =>
      if id in s.subs && s.subs[id].buffer != [] then
        var sub := s.subs[id];
        s.(subs := s.subs[id := sub.(buffer := sub.buffer[1..], received := sub.received + [sub.buffer[0]])])
      else s
  }

  function Run(s: State, acts: seq<Act>): State {
    if acts == [] then s else Do(Run(s, acts[..|acts| - 1]), acts[|acts| - 1])
  }

  // ---------------------------------------------------------------- what every interleaving keeps

  function Taken(log: seq<(Event, bool)>): seq<Event> {
    if log == [] then []
    else Taken(log[..|log| - 1]) + (if log[|log| - 1].1 then [log[|log| - 1].0] else [])
  }

  function Lost(log: seq<(Event, bool)>): nat {
    if log == [] then 0 else Lost(log[..|log| - 1]) + (if log[|log| - 1].1 then 0 else 1)
  }

  function Events(log: seq<(Event, bool)>): seq<Event> {
    if log == [] then [] else Events(log[..|log| - 1]) + [log[|log| - 1].0]
  }

  // A tenant's events among those published.
  function Of(published: seq<Event>, tenant: string): seq<Event> {
    if published == [] then []
    else
      var n := |published| - 1;
      Of(published[..n], tenant) + (if published[n].tenant == tenant then [published[n]] else [])
  }

  // A listed channel is open; what was received and what is buffered is, in order, what was
  // published to the tenant while it was listed less what was dropped.
  predicate SubOk(s: State, id: nat)
    requires id in s.subs
  {
    var sub := s.subs[id];
    && id < s.next && (sub.listed ==> sub.isOpen) && |sub.buffer| <= SUB_BUFFER
    && sub.from <= sub.upTo <= |s.published| && (sub.listed ==> sub.upTo == |s.published|)
    && Events(sub.log) == Of(s.published[sub.from..sub.upTo], sub.tenant)
    && sub.received + sub.buffer == Taken(sub.log)
  }

  // What the subscribers numbered below n have lost between them.
  function LostBelow(subs: map<nat, Sub>, n: nat): nat {
    if n == 0 then 0 else LostBelow(subs, n - 1) + (if n - 1 in subs then Lost(subs[n - 1].log) else 0)
  }

  ghost predicate Inv(s: State) {
    && (forall id {:trigger SubOk(s, id)} :: id in s.subs ==> SubOk(s, id))
    && s.dropped == LostBelow(s.subs, s.next)
  }

  lemma LogStep(log: seq<(Event, bool)>, ev: Event, taken: bool)
    ensures Taken(log + [(ev, taken)]) == Taken(log) + (if taken then [ev] else [])
    ensures Lost(log + [(ev, taken)]) == Lost(log) + (if taken then 0 else 1)
    ensures Events(log + [(ev, taken)]) == Events(log) + [ev]
  {
    assert (log + [(ev, taken)])[..|log|] == log;
  }

  lemma OfStep(published: seq<Event>, from: nat, ev: Event, tenant: string)
    requires from <= |published|
    ensures Of((published + [ev])[from..], tenant) == Of(published[from..], tenant) + (if ev.tenant == tenant then [ev] else [])
  {
    var a := (published + [ev])[from..];
    assert a == published[from..] + [ev];
    assert a[..|a| - 1] == published[from..];
  }

  lemma SeenIsOk(s: State, ev: Event, id: nat)
    requires id in s.subs && SubOk(s, id)
    ensures SubOk(Do(s, Publish(ev)), id)
  {
    hide Taken, Events, Of;
    var sub, s' := s.subs[id], Do(s, Publish(ev));
    if sub.listed {
      OfStep(s.published, sub.from, ev, sub.tenant);
      assert s'.published[sub.from..sub.upTo + 1] == s'.published[sub.from..];
      assert s.published[sub.from..sub.upTo] == s.published[sub.from..];
      LogStep(sub.log, ev, |sub.buffer| < SUB_BUFFER);
    } else {
      assert s'.published[sub.from..sub.upTo] == s.published[sub.from..sub.upTo];
    }
  }

  function LosersBelow(subs: map<nat, Sub>, ev: Event, n: nat): set<nat> {
    set id | id in Losers(subs, ev) && id < n
  }

  lemma {:induction false} LostAfter(s: State, ev: Event, n: nat)
    ensures LostBelow(Do(s, Publish(ev)).subs, n) == LostBelow(s.subs, n) + |LosersBelow(s.subs, ev, n)|
  {
    hide Lost;
    if n == 0 {
      assert LosersBelow(s.subs, ev, 0) == {};
    } else {
      var id := n - 1;
      LostAfter(s, ev, id);
      if id in s.subs { LogStep(s.subs[id].log, ev, |s.subs[id].buffer| < SUB_BUFFER); }
      assert LosersBelow(s.subs, ev, n) == LosersBelow(s.subs, ev, id) + (if id in Losers(s.subs, ev) then {id} else {});
    }
  }

  // Nothing but the logs counts.
  lemma {:induction false} SameLost(subs: map<nat, Sub>, subs': map<nat, Sub>, n: nat)
    requires forall id: nat :: id < n ==> (id in subs <==> id in subs') && (id in subs ==> subs[id].log == subs'[id].log)
    ensures LostBelow(subs, n) == LostBelow(subs', n)
  {
    if n > 0 { SameLost(subs, subs', n - 1); }
  }

  lemma SubscribeKeepsInv(s: State, tenant: string)
    requires Inv(s)
    ensures Inv(Do(s, Subscribe(tenant)))
  {
    hide Of;
    var s' := Do(s, Subscribe(tenant));
    forall id | id in s.subs ensures id < s.next { assert SubOk(s, id); }
    forall id | id in s'.subs ensures SubOk(s', id) {
      if id in s.subs {
        assert SubOk(s, id);
      } else {
        NothingOf(tenant);
        assert s.published[|s.published|..|s.published|] == [];
      }
    }
    SameLost(s.subs, s'.subs, s.next);
  }

  lemma NothingOf(tenant: string)
    ensures Of([], tenant) == []
  {
  }

  lemma PublishKeepsInv(s: State, ev: Event)
    requires Inv(s)
    ensures Inv(Do(s, Publish(ev)))
  {
    hide SubOk;
    var s' := Do(s, Publish(ev));
    forall id | id in s'.subs ensures SubOk(s', id) { SeenIsOk(s, ev, id); }
    LostAfter(s, ev, s.next);
    forall id | id in s.subs ensures id < s.next { IdIsGiven(s, id); }
    assert LosersBelow(s.subs, ev, s.next) == Losers(s.subs, ev);
  }

  lemma IdIsGiven(s: State, id: nat)
    requires id in s.subs && SubOk(s, id)
    ensures id < s.next
  {
  }

  lemma OtherStepIsOk(s: State, act: Act, id: nat)
    requires !act.Subscribe? && !act.Publish? && id in s.subs && SubOk(s, id)
    ensures SubOk(Do(s, act), id)
  {
    hide Of, Taken, Events;
  }

  lemma StepKeepsInv(s: State, act: Act)
    requires Inv(s)
    ensures Inv(Do(s, act))
  {
    if act.Subscribe? {
      SubscribeKeepsInv(s, act.tenant);
    } else if act.Publish? {
      PublishKeepsInv(s, act.ev);
    } else {
      hide SubOk, Lost;
      var s' := Do(s, act);
      forall id | id in s'.subs ensures SubOk(s', id) { OtherStepIsOk(s, act, id); }
      SameLost(s.subs, s'.subs, s.next);
    }
  }

  // Publishing, stream by stream: a listed one of the tenant takes the event behind what it has
  // waiting, unless 64 are, and then it is lost and counted; no other stream changes what it holds.
  lemma PublishMeans(s: State, ev: Event, id: nat)
    requires id in s.subs
    ensures var sub, sub' := s.subs[id], Do(s, Publish(ev)).subs[id];
            var theirs := sub.listed && sub.tenant == ev.tenant;
            && sub'.received == sub.received && sub'.listed == sub.listed && sub'.isOpen == sub.isOpen
            && (theirs && |sub.buffer| < 64 ==> sub'.buffer == sub.buffer + [ev] && Lost(sub'.log) == Lost(sub.log))
            && (theirs && |sub.buffer| >= 64 ==> sub'.buffer == sub.buffer && Lost(sub'.log) == Lost(sub.log) + 1)
            && (!theirs ==> sub'.buffer == sub.buffer && sub'.log == sub.log)
  {
    if Hears(s.subs[id], ev) { LogStep(s.subs[id].log, ev, |s.subs[id].buffer| < SUB_BUFFER); }
  }

  // In every interleaving: no event is ever sent on a closed channel, each subscriber's received
  // and buffered events are the published ones in order less its drops, and the drops are counted.
  lemma {:induction false} EveryRunKeepsInv(acts: seq<Act>)
    ensures Inv(Run(EMPTY, acts))
    decreases |acts|
  {
    if acts != [] {
      EveryRunKeepsInv(acts[..|acts| - 1]);
      StepKeepsInv(Run(EMPTY, acts[..|acts| - 1]), acts[|acts| - 1]);
    }
  }

  lemma NoSendOnClosed(acts: seq<Act>, ev: Event, id: nat)
    requires var s := Run(EMPTY, acts); id in s.subs && Hears(s.subs[id], ev)
    ensures Run(EMPTY, acts).subs[id].isOpen
  {
    EveryRunKeepsInv(acts);
    assert SubOk(Run(EMPTY, acts), id);
  }

  lemma {:induction false} LogAddsUp(log: seq<(Event, bool)>)
    ensures |Taken(log)| + Lost(log) == |log| == |Events(log)|
    ensures Lost(log) == 0 ==> Taken(log) == Events(log)
    decreases |log|
  {
    if log != [] { LogAddsUp(log[..|log| - 1]); }
  }

  // A subscriber that drops nothing has, received or waiting, exactly what was published to its
  // tenant since it subscribed.
  lemma NothingLostNothingMissed(s: State, id: nat)
    requires Inv(s) && id in s.subs && Lost(s.subs[id].log) == 0
    ensures var sub := s.subs[id];
            sub.from <= sub.upTo <= |s.published| && sub.received + sub.buffer == Of(s.published[sub.from..sub.upTo], sub.tenant)
  {
    assert SubOk(s, id);
    LogAddsUp(s.subs[id].log);
  }

  // ---------------------------------------------------------------- what the snapshots announce

  datatype Snap = Snap(revoked: set<Id>, epochs: map<Id, int>)

  // What is announced of a swap, in whatever order the maps are walked.
  function Delta(tenant: string, prev: Snap, next: Snap): set<Event> {
    (set sid | sid in next.revoked && sid !in prev.revoked :: SessionRevoked(tenant, sid))
    + (set id | id in next.epochs && id in prev.epochs && next.epochs[id] > prev.epochs[id] :: EpochRaised(tenant, id, next.epochs[id]))
  }

  ghost predicate Heard(stream: seq<Event>, tenant: string, snaps: seq<Snap>) {
    forall j, ev {:trigger InDelta(tenant, snaps, j, ev)} :: InDelta(tenant, snaps, j, ev) ==> ev in stream
  }

  predicate InDelta(tenant: string, snaps: seq<Snap>, j: int, ev: Event) {
    0 <= j < |snaps| - 1 && ev in Delta(tenant, snaps[j], snaps[j + 1])
  }

  // Every session newly revoked since the starting snapshot is heard of, even one that has since
  // left the window.
  lemma {:induction false} LearnsSessions(stream: seq<Event>, tenant: string, snaps: seq<Snap>, k: nat, sid: Id)
    requires Heard(stream, tenant, snaps) && k < |snaps| && sid in snaps[k].revoked && sid !in snaps[0].revoked
    ensures SessionRevoked(tenant, sid) in stream
    decreases k
  {
    if sid in snaps[k - 1].revoked {
      LearnsSessions(stream, tenant, snaps, k - 1, sid);
    } else {
      assert InDelta(tenant, snaps, k - 1, SessionRevoked(tenant, sid));
    }
  }

  // An identity there throughout whose epoch stands higher than at the start has been announced
  // with an epoch at least that high, though replicas that lag make it seem to fall between.
  lemma {:induction false} LearnsEpochs(stream: seq<Event>, tenant: string, snaps: seq<Snap>, k: nat, id: Id, least: int)
    requires Heard(stream, tenant, snaps) && k < |snaps| && forall j :: 0 <= j <= k ==> id in snaps[j].epochs
    requires snaps[0].epochs[id] < least <= snaps[k].epochs[id]
    ensures exists e :: e >= least && EpochRaised(tenant, id, e) in stream
    decreases k
  {
    if snaps[k - 1].epochs[id] >= least {
      LearnsEpochs(stream, tenant, snaps, k - 1, id, least);
    } else {
      assert InDelta(tenant, snaps, k - 1, EpochRaised(tenant, id, snaps[k].epochs[id]));
    }
  }

  lemma {:induction false} OfHolds(published: seq<Event>, tenant: string, ev: Event)
    ensures ev in Of(published, tenant) <==> ev in published && ev.tenant == tenant
    decreases |published|
  {
    if published != [] {
      var n := |published| - 1;
      OfHolds(published[..n], tenant, ev);
      assert published == published[..n] + [published[n]];
    }
  }

  // Published while the subscriber was listed.
  ghost predicate InWindow(sub: Sub, published: seq<Event>, ev: Event) {
    exists p :: sub.from <= p < sub.upTo && p < |published| && published[p] == ev
  }

  // A subscriber that dropped nothing has heard of every delta published while it was listed.
  lemma HearsEveryDelta(s: State, id: nat, snaps: seq<Snap>)
    requires Inv(s) && id in s.subs && Lost(s.subs[id].log) == 0
    requires forall j, ev {:trigger InDelta(s.subs[id].tenant, snaps, j, ev)} ::
               InDelta(s.subs[id].tenant, snaps, j, ev) ==> InWindow(s.subs[id], s.published, ev)
    ensures Heard(s.subs[id].received + s.subs[id].buffer, s.subs[id].tenant, snaps)
  {
    var sub := s.subs[id];
    NothingLostNothingMissed(s, id);
    forall j, ev | InDelta(sub.tenant, snaps, j, ev) ensures ev in sub.received + sub.buffer {
      assert InWindow(sub, s.published, ev);
      var p :| sub.from <= p < sub.upTo && p < |s.published| && s.published[p] == ev;
      assert s.published[sub.from..sub.upTo][p - sub.from] == ev;
      OfHolds(s.published[sub.from..sub.upTo], sub.tenant, ev);
    }
  }

  // ---------------------------------------------------------------- the broker as it is written

  function Listening(subs: map<nat, Sub>, tenant: string): set<nat> {
    set id | id in subs && subs[id].listed && subs[id].tenant == tenant
  }

  function Offers(subs: map<nat, Sub>, ev: Event, done: set<nat>): map<nat, Sub> {
    map id | id in subs :: if id in done then Offered(subs[id], ev) else subs[id]
  }

  lemma OfferMore(subs: map<nat, Sub>, ev: Event, done: set<nat>, id: nat)
    requires id in Listening(subs, ev.tenant) && id !in done
    ensures id in Offers(subs, ev, done) && Offers(subs, ev, done)[id] == subs[id]
    ensures Offers(subs, ev, done + {id}) == Offers(subs, ev, done)[id := Offered(subs[id], ev)]
    ensures |Losers(subs, ev) * (done + {id})| == |Losers(subs, ev) * done| + (if |subs[id].buffer| >= SUB_BUFFER then 1 else 0)
  {
    var losers := Losers(subs, ev);
    assert losers * (done + {id}) == (losers * done) + (if id in losers then {id} else {});
  }

  lemma OfferOne(subs: map<nat, Sub>, ev: Event, all: set<nat>, todo: set<nat>, id: nat)
    requires all == Listening(subs, ev.tenant) && todo <= all && id in todo
    ensures var done, done' := all - todo, all - (todo - {id});
            && id in subs && id in Offers(subs, ev, done) && Offers(subs, ev, done)[id] == subs[id]
            && Offers(subs, ev, done') == Offers(subs, ev, done)[id := Offered(subs[id], ev)]
            && |Losers(subs, ev) * done'| == |Losers(subs, ev) * done| + (if |subs[id].buffer| >= SUB_BUFFER then 1 else 0)
  {
    assert id in subs;
    OfferMore(subs, ev, all - todo, id);
    hide Offers, Losers, Offered, Listening;
    assert all - (todo - {id}) == (all - todo) + {id};
  }

  lemma NoneOffered(subs: map<nat, Sub>, ev: Event, all: set<nat>)
    ensures Offers(subs, ev, all - all) == subs && Losers(subs, ev) * (all - all) == {}
  {
  }

  // The event is behind every listed subscriber.
  function Advanced(subs: map<nat, Sub>): map<nat, Sub> {
    map id | id in subs :: if subs[id].listed then subs[id].(upTo := subs[id].upTo + 1) else subs[id]
  }

  lemma OffersAreSeen(s: State, ev: Event)
    ensures var subs := Offers(s.subs, ev, Listening(s.subs, ev.tenant));
            Do(s, Act.Publish(ev)) == State(Advanced(subs), s.next, s.dropped + |Losers(s.subs, ev)|, s.published + [ev])
    ensures Losers(s.subs, ev) * Listening(s.subs, ev.tenant) == Losers(s.subs, ev)
  {
  }

  lemma AllOffered(s: State, subs: map<nat, Sub>, dropped: nat, ev: Event)
    requires Inv(s) && subs == Offers(s.subs, ev, Listening(s.subs, ev.tenant))
    requires dropped == s.dropped + |Losers(s.subs, ev) * Listening(s.subs, ev.tenant)|
    ensures State(Advanced(subs), s.next, dropped, s.published + [ev]) == Do(s, Act.Publish(ev))
    ensures Inv(Do(s, Act.Publish(ev)))
  {
    hide Inv, Do, Listening, Offers, Losers, Advanced;
    OffersAreSeen(s, ev);
    StepKeepsInv(s, Act.Publish(ev));
  }

  class Broker {
    var subs: map<nat, Sub>
    var next: nat
    var dropped: nat
    var published: seq<Event>

    ghost function Contents(): State
      reads this
    {
      State(subs, next, dropped, published)
    }

    constructor ()
      ensures Contents() == EMPTY && Inv(Contents())
    {
      subs, next, dropped, published := map[], 0, 0, [];
    }

    method Subscribe(tenant: string) returns (id: nat)
      requires Inv(Contents())
      modifies this
      ensures Inv(Contents()) && Contents() == Do(old(Contents()), Act.Subscribe(tenant)) && id == old(next)
    {
      StepKeepsInv(Contents(), Act.Subscribe(tenant));
      id := next;
      subs := subs[id := Sub(tenant, true, true, [], [], [], |published|, |published|)];
      next := next + 1;
    }

    method SubscribersFor(tenant: string) returns (n: nat)
      ensures n == |Listening(subs, tenant)|
    {
      n := |Listening(subs, tenant)|;
    }

    // To each of the tenant's subscribers in whatever order; a full buffer costs its owner the event.
    method Publish(ev: Event)
      requires Inv(Contents())
      modifies this
      ensures Inv(Contents()) && Contents() == Do(old(Contents()), Act.Publish(ev))
    {
      hide Inv, Do, Listening, Offers, Offered, Losers, Advanced;
      ghost var was := Contents();
      ghost var all := Listening(subs, ev.tenant);
      var todo := Listening(subs, ev.tenant);
      NoneOffered(subs, ev, all);
      while todo != {}
        invariant todo <= all && next == was.next && published == was.published
        invariant subs == Offers(was.subs, ev, all - todo)
        invariant dropped == was.dropped + |Losers(was.subs, ev) * (all - todo)|
        decreases |todo|
      {
        var id :| id in todo;
        OfferOne(was.subs, ev, all, todo, id);
        if |subs[id].buffer| >= SUB_BUFFER {
          dropped := dropped + 1;
        }
        subs := subs[id := Offered(subs[id], ev)];
        todo := todo - {id};
      }
      assert all - todo == all;
      AllOffered(was, subs, dropped, ev);
      subs := Advanced(subs);
      published := published + [ev];
    }

    // The delta of one swap, if anybody listens and there was a snapshot before.
    method PublishRevocations(tenant: string, prev: Option<Snap>, next': Snap)
      requires Inv(Contents())
      modifies this
      ensures Inv(Contents())
      ensures exists sent: seq<Event> ::
                && Contents() == Run(old(Contents()), Publishing(sent))
                && (forall ev :: ev in sent ==> prev.Some? && ev in Delta(tenant, prev.value, next'))
                && (prev.Some? && Listening(old(subs), tenant) != {} ==>
                      forall ev :: ev in Delta(tenant, prev.value, next') ==> ev in sent)
                && forall i, j :: 0 <= i < j < |sent| ==> sent[i] != sent[j]
    {
      ghost var was := Contents();
      ghost var sent: seq<Event> := [];
      assert Run(was, Publishing(sent)) == was;
      if prev.None? {
        return;
      }
      var listening := SubscribersFor(tenant);
      if listening == 0 {
        assert Listening(subs, tenant) == {};
        return;
      }
      var todo := Delta(tenant, prev.value, next');
      while todo != {}
        invariant Inv(Contents()) && Contents() == Run(was, Publishing(sent))
        invariant todo <= Delta(tenant, prev.value, next')
        invariant forall ev :: ev in sent ==> ev in Delta(tenant, prev.value, next') && ev !in todo
        invariant forall i, j :: 0 <= i < j < |sent| ==> sent[i] != sent[j]
        invariant forall ev :: ev in Delta(tenant, prev.value, next') && ev !in todo ==> ev in sent
        decreases |todo|
      {
        var ev :| ev in todo;
        Publish(ev);
        PublishingStep(was, sent, ev);
        sent := sent + [ev];
        todo := todo - {ev};
      }
    }
  }

  function Publishing(sent: seq<Event>): (acts: seq<Act>)
    ensures |acts| == |sent|
  {
    seq(|sent|, i requires 0 <= i < |sent| => Act.Publish(sent[i]))
  }

  lemma PublishingStep(s: State, sent: seq<Event>, ev: Event)
    ensures Run(s, Publishing(sent + [ev])) == Do(Run(s, Publishing(sent)), Act.Publish(ev))
  {
    var acts := Publishing(sent + [ev]);
    assert acts[..|acts| - 1] == Publishing(sent);
  }
}
