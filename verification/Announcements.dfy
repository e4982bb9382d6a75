// What a listener learns of the snapshots: the manager's loop swaps a rebuilt snapshot in, asks
// whether anybody listens and announces the delta one event at a time, while streams open, drain
// and close between any two of its steps.
module Announcements {
  import opened Prelude
  import opened Revocation

  // Where the one loop stands in publishing a swap.
  datatype Task =
    | Idle
    | Swapped(tenant: string, prev: Option<Snap>, next: Snap)   // swapped in, nothing asked yet
    | Announcing(tenant: string, todo: set<Event>)              // events of the delta still to publish

  // history, every snapshot a tenant was served, oldest first, and starts, how many there were when
  // a stream opened, are there to speak of.
  datatype System = System(
    broker: State, served: map<string, Snap>, task: Task, history: map<string, seq<Snap>>, starts: map<nat, nat>)

  datatype Move =
    | Client(act: Act)                     // a stream opens, takes an event or closes
    | Swap(tenant: string, snap: Snap)
    | Test
    | Announce(ev: Event)

  const BOOT := System(EMPTY, map[], Idle, map[], map[])

  function History(w: System, tenant: string): seq<Snap> {
    if tenant in w.history then w.history[tenant] else []
  }

  function Left(tenant: string, todo: set<Event>): Task {
    if todo == {} then Idle else Announcing(tenant, todo)
  }

  function Tested(w: System): Task
    requires w.task.Swapped?
  {
    var Swapped(tenant, prev, next) := w.task;
    if prev.None? || Listening(w.broker.subs, tenant) == {} then Idle
    else Left(tenant, Delta(tenant, prev.value, next))
  }

  // A client never publishes, and the loop takes up no load before it is done with the last.
  function Step(w: System, m: Move): System {
    match m
    case Client(act) =>
      if act.Publish? then w
      else
        w.(broker := Do(w.broker, act),
           starts := if act.Subscribe? then w.starts[w.broker.next := |History(w, act.tenant)|] else w.starts)
    case Swap(tenant, snap) =>
      if w.task.Idle? then
        System(w.broker, w.served[tenant := snap],
               Swapped(tenant, if tenant in w.served then Some(w.served[tenant]) else None, snap),
               w.history[tenant := History(w, tenant) + [snap]], w.starts)
      else w
    case Test => if w.task.Swapped? then w.(task := Tested(w)) else w
    case Announce(ev) =>
      if w.task.Announcing? && ev in w.task.todo then
        w.(broker := Do(w.broker, Act.Publish(ev)), task := Left(w.task.tenant, w.task.todo - {ev}))
      else w
  }

  function Ran(w: System, moves: seq<Move>): System {
    if moves == [] then w else Step(Ran(w, moves[..|moves| - 1]), moves[|moves| - 1])
  }

  // ---------------------------------------------------------------- what every interleaving keeps

  // The snapshot a stream found served when it opened, or the first one served after.
  function Base(w: System, id: nat): nat
    requires id in w.starts
  {
    if w.starts[id] == 0 then 0 else w.starts[id] - 1
  }

  // Not announced yet: of the last swap only.
  predicate Pending(task: Task, tenant: string, n: nat, j: int, ev: Event) {
    !task.Idle? && task.tenant == tenant && j == n - 2 && (task.Announcing? ==> ev in task.todo)
  }

  ghost predicate Dated(w: System, id: nat) {
    id in w.broker.subs ==> id in w.starts && w.starts[id] <= |History(w, w.broker.subs[id].tenant)|
  }

  // Every event of every delta since a listed stream's base is among what was published while it
  // was listed, or still pending.
  ghost predicate CaughtUp(w: System, id: nat)
    requires id in w.broker.subs && id in w.starts
  {
    var sub := w.broker.subs[id];
    var h := History(w, sub.tenant);
    forall j, ev {:trigger InDelta(sub.tenant, h, j, ev)} :: InDelta(sub.tenant, h, j, ev) && Base(w, id) <= j ==>
      InWindow(sub, w.broker.published, ev) || Pending(w.task, sub.tenant, |h|, j, ev)
  }

  predicate ServedIsLast(w: System, tenant: string) {
    && (tenant in w.served <==> tenant in w.history)
    && (tenant in w.history ==>
          w.history[tenant] != [] && w.served[tenant] == w.history[tenant][|w.history[tenant]| - 1])
  }

  predicate TaskOk(w: System) {
    match w.task
    case Idle => true
    case Swapped(tenant, prev, next) =>
      var h := History(w, tenant);
      h != [] && next == h[|h| - 1] && prev == if |h| > 1 then Some(h[|h| - 2]) else None
    case Announcing(tenant, todo) =>
      var h := History(w, tenant);
      |h| > 1 && todo <= Delta(tenant, h[|h| - 2], h[|h| - 1])
  }

  // A published event is in the delta of two snapshots that have both been served.
  ghost predicate Announced(w: System, ev: Event) {
    exists j :: InDelta(ev.tenant, History(w, ev.tenant), j, ev)
  }

  ghost predicate Sound(w: System) {
    && Inv(w.broker) && TaskOk(w)
    && (forall tenant {:trigger ServedIsLast(w, tenant)} :: ServedIsLast(w, tenant))
    && (forall id {:trigger Dated(w, id)} :: Dated(w, id))
    && (forall id {:trigger CaughtUp(w, id)} :: id in w.broker.subs && id in w.starts && w.broker.subs[id].listed ==> CaughtUp(w, id))
    && (forall ev {:trigger Announced(w, ev)} :: ev in w.broker.published ==> Announced(w, ev))
  }

  // Deltas of a longer history are deltas of the shorter one, or of the last swap.
  lemma DeltaOfLonger(tenant: string, h: seq<Snap>, snap: Snap, j: int, ev: Event)
    ensures InDelta(tenant, h, j, ev) ==> InDelta(tenant, h + [snap], j, ev)
    ensures InDelta(tenant, h + [snap], j, ev) ==> InDelta(tenant, h, j, ev) || j == |h| - 1
  {
  }

  lemma AnnouncedStays(w: System, w': System, ev: Event)
    requires Announced(w, ev) && w'.history == w.history
    ensures Announced(w', ev)
  {
    hide InDelta;
    var j :| InDelta(ev.tenant, History(w, ev.tenant), j, ev);
    assert InDelta(ev.tenant, History(w', ev.tenant), j, ev);
  }

  lemma ClientKeepsSound(w: System, act: Act)
    requires Sound(w) && !act.Publish?
    ensures Sound(Step(w, Client(act)))
  {
    hide Inv, InDelta, Delta, InWindow;
    var w' := Step(w, Client(act));
    StepKeepsInv(w.broker, act);
    forall id ensures Dated(w', id) { assert Dated(w, id); }
    forall tenant ensures ServedIsLast(w', tenant) { assert ServedIsLast(w, tenant); }
    forall ev | ev in w'.broker.published ensures Announced(w', ev) { AnnouncedStays(w, w', ev); }
    forall id | id in w'.broker.subs && id in w'.starts && w'.broker.subs[id].listed ensures CaughtUp(w', id) {
      ClientKeepsCaughtUp(w, act, id);
    }
  }

  lemma ClientKeepsCaughtUp(w: System, act: Act, id: nat)
    requires Sound(w) && !act.Publish?
    requires var w' := Step(w, Client(act)); id in w'.broker.subs && id in w'.starts && w'.broker.subs[id].listed
    ensures CaughtUp(Step(w, Client(act)), id)
  {
    hide Delta, Inv;
    var w' := Step(w, Client(act));
    if id in w.broker.subs && !(act.Subscribe? && id == w.broker.next) {
      assert Dated(w, id);
      assert CaughtUp(w, id);
      var sub, sub' := w.broker.subs[id], w'.broker.subs[id];
      forall j, ev | InDelta(sub.tenant, History(w, sub.tenant), j, ev) && Base(w, id) <= j
        ensures InWindow(sub', w'.broker.published, ev) || Pending(w'.task, sub.tenant, |History(w, sub.tenant)|, j, ev) {
        if InWindow(sub, w.broker.published, ev) {
          var p :| sub.from <= p < sub.upTo && p < |w.broker.published| && w.broker.published[p] == ev;
          assert sub'.from <= p < sub'.upTo;
        }
      }
    }
  }

  lemma SwapKeepsSound(w: System, tenant: string, snap: Snap)
    requires Sound(w) && w.task.Idle?
    ensures Sound(Step(w, Swap(tenant, snap)))
  {
    hide Inv, Delta, InWindow;
    var w' := Step(w, Swap(tenant, snap));
    assert ServedIsLast(w, tenant);
    forall id ensures Dated(w', id) { assert Dated(w, id); }
    forall t ensures ServedIsLast(w', t) { assert ServedIsLast(w, t); }
    forall ev | ev in w'.broker.published ensures Announced(w', ev) {
      assert Announced(w, ev);
      var j :| InDelta(ev.tenant, History(w, ev.tenant), j, ev);
      DeltaOfLonger(ev.tenant, History(w, ev.tenant), snap, j, ev);
      assert InDelta(ev.tenant, History(w', ev.tenant), j, ev);
    }
    forall id | id in w'.broker.subs && id in w'.starts && w'.broker.subs[id].listed ensures CaughtUp(w', id) {
      assert CaughtUp(w, id);
      var sub := w.broker.subs[id];
      forall j, ev | InDelta(sub.tenant, History(w', sub.tenant), j, ev) && Base(w', id) <= j
        ensures InWindow(sub, w'.broker.published, ev) || Pending(w'.task, sub.tenant, |History(w', sub.tenant)|, j, ev) {
        DeltaOfLonger(sub.tenant, History(w, sub.tenant), snap, j, ev);
      }
    }
  }

  // Where the loop skips the announcement nobody is listed to miss it, or there is no delta.
  lemma TestKeepsSound(w: System)
    requires Sound(w) && w.task.Swapped?
    ensures Sound(Step(w, Test))
  {
    hide Inv, InWindow;
    var w' := Step(w, Test);
    var tenant := w.task.tenant;
    forall id ensures Dated(w', id) { assert Dated(w, id); }
    forall t ensures ServedIsLast(w', t) { assert ServedIsLast(w, t); }
    forall ev | ev in w'.broker.published ensures Announced(w', ev) { AnnouncedStays(w, w', ev); }
    forall id | id in w'.broker.subs && id in w'.starts && w'.broker.subs[id].listed ensures CaughtUp(w', id) {
      assert CaughtUp(w, id);
      var sub := w.broker.subs[id];
      forall j, ev | InDelta(sub.tenant, History(w, sub.tenant), j, ev) && Base(w, id) <= j
        ensures InWindow(sub, w.broker.published, ev) || Pending(w'.task, sub.tenant, |History(w, sub.tenant)|, j, ev) {
        if sub.tenant == tenant && j == |History(w, tenant)| - 2 {
          assert id in Listening(w.broker.subs, tenant);
          assert ev in Delta(tenant, w.task.prev.value, w.task.next);
        }
      }
    }
  }

  lemma AnnounceKeepsSound(w: System, ev: Event)
    requires Sound(w) && w.task.Announcing? && ev in w.task.todo
    ensures Sound(Step(w, Announce(ev)))
  {
    hide Inv;
    var w' := Step(w, Announce(ev));
    var tenant := w.task.tenant;
    var h := History(w, tenant);
    StepKeepsInv(w.broker, Act.Publish(ev));
    forall id ensures Dated(w', id) { assert Dated(w, id); }
    forall t ensures ServedIsLast(w', t) { assert ServedIsLast(w, t); }
    assert InDelta(tenant, h, |h| - 2, ev) && ev.tenant == tenant;
    forall e | e in w'.broker.published ensures Announced(w', e) {
      if e == ev {
        assert InDelta(ev.tenant, History(w', ev.tenant), |h| - 2, ev);
      } else {
        AnnouncedStays(w, w', e);
      }
    }
    forall id | id in w'.broker.subs && id in w'.starts && w'.broker.subs[id].listed ensures CaughtUp(w', id) {
      AnnounceKeepsCaughtUp(w, ev, id);
    }
  }

  lemma AnnounceKeepsCaughtUp(w: System, ev: Event, id: nat)
    requires Sound(w) && w.task.Announcing? && ev in w.task.todo
    requires id in w.broker.subs && id in w.starts && w.broker.subs[id].listed
    ensures CaughtUp(Step(w, Announce(ev)), id)
  {
    hide Delta;
    var w' := Step(w, Announce(ev));
    var sub, sub' := w.broker.subs[id], w'.broker.subs[id];
    assert CaughtUp(w, id);
    assert SubOk(w.broker, id);
    forall j, e | InDelta(sub.tenant, History(w, sub.tenant), j, e) && Base(w, id) <= j
      ensures InWindow(sub', w'.broker.published, e) || Pending(w'.task, sub.tenant, |History(w, sub.tenant)|, j, e) {
      if InWindow(sub, w.broker.published, e) {
        var p :| sub.from <= p < sub.upTo && p < |w.broker.published| && w.broker.published[p] == e;
        assert w'.broker.published[p] == e;
      } else if e == ev {
        assert w'.broker.published[|w.broker.published|] == e;
      }
    }
  }

  lemma {:induction false} EveryRunIsSound(moves: seq<Move>)
    ensures Sound(Ran(BOOT, moves))
    decreases |moves|
  {
    if moves != [] {
      var m := moves[|moves| - 1];
      var w := Ran(BOOT, moves[..|moves| - 1]);
      EveryRunIsSound(moves[..|moves| - 1]);
      hide Sound;
      match m
      case Client(act) => if !act.Publish? { ClientKeepsSound(w, act); }
      case Swap(tenant, snap) => if w.task.Idle? { SwapKeepsSound(w, tenant, snap); }
      case Test => if w.task.Swapped? { TestKeepsSound(w); }
      case Announce(ev) => if w.task.Announcing? && ev in w.task.todo { AnnounceKeepsSound(w, ev); }
    }
  }

  // ---------------------------------------------------------------- what a listener has learnt

  // Still listed, nothing lost, and the loop is not in the middle of the tenant's announcements.
  predicate Informed(w: System, id: nat) {
    && id in w.broker.subs && id in w.starts && w.broker.subs[id].listed
    && Lost(w.broker.subs[id].log) == 0
    && (w.task.Idle? || w.task.tenant != w.broker.subs[id].tenant)
  }

  function Stream(w: System, id: nat): seq<Event>
    requires id in w.broker.subs
  {
    w.broker.subs[id].received + w.broker.subs[id].buffer
  }

  function Since(w: System, id: nat): seq<Snap>
    requires id in w.broker.subs && id in w.starts
  {
    var h := History(w, w.broker.subs[id].tenant);
    if Base(w, id) <= |h| then h[Base(w, id)..] else []
  }

  lemma InformedHears(w: System, id: nat)
    requires Sound(w) && Informed(w, id)
    ensures Heard(Stream(w, id), w.broker.subs[id].tenant, Since(w, id))
  {
    hide Inv, Delta;
    var sub := w.broker.subs[id];
    var h, base := History(w, sub.tenant), Base(w, id);
    assert CaughtUp(w, id) && Dated(w, id);
    forall j, ev | InDelta(sub.tenant, Since(w, id), j, ev) ensures InWindow(sub, w.broker.published, ev) {
      assert InDelta(sub.tenant, h, base + j, ev);
    }
    HearsEveryDelta(w.broker, id, Since(w, id));
  }

  // A session revoked in the snapshot now served and not in the one served when the stream opened
  // has reached the stream, whatever was swapped in between.
  lemma ListenerLearnsSessions(moves: seq<Move>, id: nat, sid: Id)
    requires var w := Ran(BOOT, moves);
             && Informed(w, id) && w.broker.subs[id].tenant in w.served && Since(w, id) != []
             && sid in w.served[w.broker.subs[id].tenant].revoked && sid !in Since(w, id)[0].revoked
    ensures SessionRevoked(Ran(BOOT, moves).broker.subs[id].tenant, sid) in Stream(Ran(BOOT, moves), id)
  {
    var w := Ran(BOOT, moves);
    var sub, snaps := w.broker.subs[id], Since(w, id);
    EveryRunIsSound(moves);
    InformedHears(w, id);
    assert ServedIsLast(w, sub.tenant);
    LearnsSessions(Stream(w, id), sub.tenant, snaps, |snaps| - 1, sid);
  }

  // An identity in every snapshot served since, whose epoch stands higher than it did then, has
  // been announced to the stream with an epoch at least that high.
  lemma ListenerLearnsEpochs(moves: seq<Move>, id: nat, identity: Id)
    requires var w := Ran(BOOT, moves);
             && Informed(w, id) && w.broker.subs[id].tenant in w.served && Since(w, id) != []
             && (forall j :: 0 <= j < |Since(w, id)| ==> identity in Since(w, id)[j].epochs)
             && identity in w.served[w.broker.subs[id].tenant].epochs
             && w.served[w.broker.subs[id].tenant].epochs[identity] > Since(w, id)[0].epochs[identity]
    ensures var w := Ran(BOOT, moves);
            exists e :: e >= w.served[w.broker.subs[id].tenant].epochs[identity]
                        && EpochRaised(w.broker.subs[id].tenant, identity, e) in Stream(w, id)
  {
    var w := Ran(BOOT, moves);
    var sub, snaps := w.broker.subs[id], Since(w, id);
    EveryRunIsSound(moves);
    InformedHears(w, id);
    assert ServedIsLast(w, sub.tenant);
    LearnsEpochs(Stream(w, id), sub.tenant, snaps, |snaps| - 1, identity, w.served[sub.tenant].epochs[identity]);
  }

  // What Since starts with is what was served when the stream opened, or the first snapshot after.
  lemma SinceStartsThere(moves: seq<Move>, id: nat)
    requires id in Ran(BOOT, moves).broker.subs && Ran(BOOT, moves).broker.subs[id].tenant in Ran(BOOT, moves).served
    ensures var w := Ran(BOOT, moves);
            var h := History(w, w.broker.subs[id].tenant);
            && id in w.starts && Since(w, id) != [] && w.starts[id] <= |h|
            && Since(w, id)[0] == h[if w.starts[id] == 0 then 0 else w.starts[id] - 1]
            && Since(w, id)[|Since(w, id)| - 1] == w.served[w.broker.subs[id].tenant]
  {
    var w := Ran(BOOT, moves);
    EveryRunIsSound(moves);
    assert Dated(w, id) && ServedIsLast(w, w.broker.subs[id].tenant);
  }

  // The event is news of the second snapshot: a session it has revoked and the first had not, or an
  // identity of both with its epoch, which was lower.
  predicate Tells(ev: Event, before: Snap, after: Snap) {
    match ev
    case SessionRevoked(_, sid) => sid in after.revoked && sid !in before.revoked
    case EpochRaised(_, id, epoch) =>
      id in before.epochs && id in after.epochs && epoch == after.epochs[id] && before.epochs[id] < epoch
  }

  // The other way: a stream is told only what two snapshots already served differ in, and nothing
  // of another tenant, so a listener that asks the gate finds what it was told of in force.
  lemma ToldOnlyWhatIsServed(moves: seq<Move>, id: nat, ev: Event)
    requires id in Ran(BOOT, moves).broker.subs && ev in Stream(Ran(BOOT, moves), id)
    ensures var w := Ran(BOOT, moves);
            var h := History(w, w.broker.subs[id].tenant);
            && ev.tenant == w.broker.subs[id].tenant
            && exists j :: 0 <= j < |h| - 1 && Tells(ev, h[j], h[j + 1])
  {
    var w := Ran(BOOT, moves);
    EveryRunIsSound(moves);
    var sub := w.broker.subs[id];
    assert SubOk(w.broker, id);
    TakenAreEvents(sub.log, ev);
    OfHolds(w.broker.published[sub.from..sub.upTo], sub.tenant, ev);
    assert ev in w.broker.published && Announced(w, ev);
    var j :| InDelta(ev.tenant, History(w, ev.tenant), j, ev);
    var h := History(w, ev.tenant);
    assert Tells(ev, h[j], h[j + 1]);
  }

  lemma {:induction false} TakenAreEvents(log: seq<(Event, bool)>, ev: Event)
    requires ev in Taken(log)
    ensures ev in Events(log)
    decreases |log|
  {
    var n := |log| - 1;
    if ev in Taken(log[..n]) {
      TakenAreEvents(log[..n], ev);
    }
  }

  // ---------------------------------------------------------------- the publisher on its own

  function Announces(sent: seq<Event>): (moves: seq<Move>)
    ensures |moves| == |sent|
  {
    seq(|sent|, i requires 0 <= i < |sent| => Announce(sent[i]))
  }

  function Members(sent: seq<Event>): set<Event> {
    set ev | ev in sent
  }

  lemma OneMore(todo: set<Event>, sent: seq<Event>)
    requires sent != []
    ensures var n := |sent| - 1; todo - Members(sent) == todo - Members(sent[..n]) - {sent[n]}
  {
    var n := |sent| - 1;
    assert sent == sent[..n] + [sent[n]];
  }

  lemma AnnounceOne(w: System, tenant: string, todo: set<Event>, ev: Event)
    requires w.task == Left(tenant, todo) && ev in todo
    ensures Step(w, Announce(ev)) == w.(broker := Do(w.broker, Act.Publish(ev)), task := Left(tenant, todo - {ev}))
  {
    hide Do;
  }

  // What PublishRevocations does when nothing steps in between is a run of the loop's own steps.
  lemma {:induction false} PublishingIsARun(w: System, tenant: string, todo: set<Event>, sent: seq<Event>)
    requires w.task == Left(tenant, todo) && (forall ev :: ev in sent ==> ev in todo)
    requires forall i, j :: 0 <= i < j < |sent| ==> sent[i] != sent[j]
    ensures Ran(w, Announces(sent)) ==
            w.(broker := Run(w.broker, Publishing(sent)), task := Left(tenant, todo - Members(sent)))
    decreases |sent|
  {
    hide Left, Do;
    if sent == [] {
      assert todo - Members(sent) == todo;
    } else {
      hide Step, Run;
      var n := |sent| - 1;
      PublishingIsARun(w, tenant, todo, sent[..n]);
      assert Announces(sent)[..n] == Announces(sent[..n]);
      AnnounceOne(Ran(w, Announces(sent[..n])), tenant, todo - Members(sent[..n]), sent[n]);
      PublishingStep(w.broker, sent[..n], sent[n]);
      assert sent[..n] + [sent[n]] == sent;
      OneMore(todo, sent);
    }
  }
}
