/** Workers running progress tracking: each has a tracker, an inbox and local changes. */
module Worlds {
  import opened Basics
  import opened Updates
  import opened ChangeBatches
  import opened Orders
  import opened Sums
  import opened Timestamps
  import opened Graphs
  import opened Acyclic
  import opened Propagation
  import opened Ports
  import opened Outputs
  import opened Worklists
  import opened Trackers
  import opened Justify
  import opened Broadcast
  import opened Delivery
  import opened Soundness
  import opened Progcasters
  import opened Subgraphs
  import opened Surfacing
  import opened EndToEnd

  /** What a worker knows: its tracker's view, the messages that have arrived, the number of messages it
      has sent, and the changes that it has yet to send. */
  datatype Worker<T> = Worker(view: View<T>, inbox: seq<Message<Point<T>>>, counter: nat, local: Batch<Point<T>>)

  /** All workers, the messages on their way between each two of them, and the truth: the capabilities that
      each holds, and the messages nobody has consumed. */
  datatype World<T> = World(workers: seq<Worker<T>>, wires: Wires<Point<T>>, held: seq<Batch<Point<T>>>,
                            messages: Batch<Point<T>>)

  datatype Event<T> =
    | Reports(worker: nat, consumed: Batch<Point<T>>, internal: Batch<Point<T>>, produced: Batch<Point<T>>)
    | Transmits(worker: nat, sent: Batch<Point<T>>)
    | Withholds(worker: nat)
    | Arrives(worker: nat, to: nat)
    | TakesIn(worker: nat)

  /** A worker's state once it has sent a batch. */
  function Relieved<T(==)>(a: Worker<T>, sent: Batch<Point<T>>): Worker<T> {
    a.(counter := if sent == [] then a.counter else a.counter + 1, local := [])
  }

  /** A worker has emptied its inbox and committed `changes`. */
  ghost predicate TookIn<T(!new), S(!new)>(d: Domain<T, S>, g: Graph<S>, changes: Batch<Point<T>>, a: Worker<T>,
                                           a': Worker<T>) {
    && a' == a.(view := a'.view, inbox := [])
    && Settled(d, g, a'.view) && PointCountsPlus(a'.view, a.view, changes)
  }

  predicate Sized<T>(a: World<T>, n: nat) {
    |a.workers| == |a.held| == n && Square(a.wires, n)
  }

  /** What may happen: just what the contracts of extracting, sending, receiving and committing say; and any
      wire may deliver its oldest message at any time. */
  ghost predicate Happens<T(!new), S(!new)>(d: Domain<T, S>, g: Graph<S>, a: World<T>, event: Event<T>, b: World<T>)
    requires Sized(a, |a.workers|)
  {
    var w := event.worker;
    && w < |a.workers| && Sized(b, |a.workers|)
    && match event
       case Reports(_, consumed, internal, produced) =>
         && Legal(PointsOf(d, g), a.held[w], a.messages, consumed, internal, produced)
         && b == World(a.workers[w := a.workers[w].(local := b.workers[w].local)], a.wires,
                       a.held[w := a.held[w] + internal], a.messages + Negated(consumed) + produced)
         && Gained(b.workers[w].local, a.workers[w].local, Changes(consumed, internal, produced))
       case Transmits(_, sent) =>
         && SameTally(sent, a.workers[w].local)
         && b == a.(workers := a.workers[w := Relieved(a.workers[w], sent)], wires := a.wires[w := b.wires[w]])
         && forall v :: 0 <= v < |a.workers| ==>
              b.wires[w][v] == a.wires[w][v] + News(w, a.workers[w].counter, sent)
       case Withholds(_) =>
         && b == a.(workers := a.workers[w := a.workers[w].(local := b.workers[w].local)])
         && SameTally(b.workers[w].local, a.workers[w].local)
       case Arrives(_, v) =>
         && v < |a.workers| && a.wires[w][v] != []
         && b == a.(workers := a.workers[v := a.workers[v].(inbox := a.workers[v].inbox + [a.wires[w][v][0]])],
                    wires := a.wires[w := a.wires[w][v := a.wires[w][v][1..]]])
       case TakesIn(_) =>
         && b == a.(workers := a.workers[w := b.workers[w]])
         && TookIn(d, g, AllChanges(a.workers[w].inbox), a.workers[w], b.workers[w])
  }

  /** Each of `n` workers holds the initial capabilities, and has committed that all do. */
  ghost predicate Begins<T(!new), S(!new)>(d: Domain<T, S>, g: Graph<S>, n: nat, init: Batch<Point<T>>, a: World<T>) {
    && Sized(a, n) && a.messages == []
    && (forall w :: 0 <= w < n ==> a.held[w] == init && BeginsOne(d, g, Copies(init, n), a.workers[w]))
    && (forall w, v :: 0 <= w < n && 0 <= v < n ==> a.wires[w][v] == [])
  }

  ghost predicate BeginsOne<T(!new), S(!new)>(d: Domain<T, S>, g: Graph<S>, all: Batch<Point<T>>, a: Worker<T>) {
    Tracks(d, g, a.view, all) && a.inbox == [] && a.counter == 0 && a.local == []
  }

  ghost predicate History<T(!new), S(!new)>(d: Domain<T, S>, g: Graph<S>, n: nat, init: Batch<Point<T>>,
                                            events: seq<Event<T>>, worlds: seq<World<T>>) {
    && |worlds| == |events| + 1 && Begins(d, g, n, init, worlds[0])
    && (forall i :: 0 <= i < |worlds| ==> Sized(worlds[i], n))
    && (forall i :: 0 <= i < |events| ==> Happens(d, g, worlds[i], events[i], worlds[i + 1]))
  }

  // ---- a worker's part in it ----

  /** A worker's share of a scope: its tracker, the changes that it has yet to send and to commit, and its
      means to exchange them. */
  class Scope<T(==,!new), S(==,!new)> {
    const tracker: Tracker<T, S>
    const local: ChangeBatch<Point<T>>
    const pending: ChangeBatch<Point<T>>
    const progcaster: Progcaster<Point<T>>

    /** Its parts are different objects. */
    ghost predicate Separate() {
      && progcaster.Valid() && progcaster.puller !in progcaster.pushers
      && local != pending && (local as object) !in tracker.Repr() && (pending as object) !in tracker.Repr()
      && (progcaster as object) !in tracker.Repr() && (progcaster.puller as object) !in tracker.Repr()
      && (forall i :: 0 <= i < |progcaster.pushers| ==> (progcaster.pushers[i] as object) !in tracker.Repr())
    }

    /** Nothing is left over between its steps. */
    ghost predicate Valid()
      reads tracker.Repr(), tracker.outputChanges, local, pending
    {
      && Separate() && tracker.Valid() && local.Valid() && pending.Valid()
      && pending.updates == tracker.targetChanges.updates == tracker.sourceChanges.updates == []
    }

    ghost function State(): Worker<T>
      reads Footprint(tracker.ports), progcaster, progcaster.puller, local
    {
      Worker(tracker.View(), progcaster.puller.queue, progcaster.counter, local.updates)
    }

    /** What it has sent off to each worker, and is still on its way. */
    ghost function Wires(): (wires: seq<seq<Message<Point<T>>>>)
      reads progcaster.pushers
      ensures |wires| == |progcaster.pushers|
    {
      seq(|progcaster.pushers|, v requires 0 <= v < |progcaster.pushers| reads progcaster.pushers =>
        progcaster.pushers[v].queue)
    }

    /** All objects that it consists of. */
    ghost function Parts(): set<object> {
      tracker.Repr() + {local, pending, progcaster, progcaster.puller} + set c | c in progcaster.pushers
    }

    constructor (tracker: Tracker<T, S>, local: ChangeBatch<Point<T>>, pending: ChangeBatch<Point<T>>,
                 progcaster: Progcaster<Point<T>>)
      requires tracker.Valid() && local.Valid() && pending.Valid() && progcaster.Valid()
      requires local != pending && (local as object) !in tracker.Repr() && (pending as object) !in tracker.Repr()
      requires (progcaster as object) !in tracker.Repr() && (progcaster.puller as object) !in tracker.Repr()
      requires forall i :: 0 <= i < |progcaster.pushers| ==> (progcaster.pushers[i] as object) !in tracker.Repr()
      requires progcaster.puller !in progcaster.pushers
      requires pending.updates == tracker.targetChanges.updates == tracker.sourceChanges.updates == []
      ensures Valid() && this.tracker == tracker && this.local == local && this.pending == pending &&
              this.progcaster == progcaster
    {
      hide Tracker.Valid;
      hide ChangeBatch.Valid;
      hide Progcaster.Valid;
      hide Tracker.Repr;
      hide ViewOf;
      TrackerOwns(tracker);
      this.tracker, this.local, this.pending, this.progcaster := tracker, local, pending, progcaster;
    }

    /** Batches that are not part of this. */
    ghost predicate Apart<O(!new)>(batches: seq<ChangeBatch<O>>) {
      (local as object) !in batches && (pending as object) !in batches && forall x :: x in tracker.Repr() ==>
          x !in batches
    }

    /** Takes in all messages that have arrived, and commits them. The parent scope is told what they say
        about child zero. */
    method TakeIn<O(==,!new)>(outer: T -> O, shared: SharedProgress<O>)
      requires Valid() && shared.Valid()
      requires Apart(shared.consumeds) && Apart(shared.internals) && Apart(shared.produceds)
      requires forall q :: q in Keys(AllChanges(progcaster.puller.queue)) ==>
                 Placeable(tracker.g, q, |shared.consumeds|, |shared.produceds|)
      modifies tracker.Repr(), pending, progcaster.puller, shared.consumeds, shared.produceds
      ensures Valid() && shared.Valid() && Wires() == old(Wires())
      ensures TookIn(tracker.d, tracker.g, InnerOf(AllChanges(old(State()).inbox)), old(State()), State())
      ensures Told(outer, AllChanges(old(State()).inbox), old(Contents(shared.consumeds)), Contents(shared.consumeds),
                   old(Contents(shared.produceds)), Contents(shared.produceds))
    {
      hide Tracker.Valid;
      hide ChangeBatch.Valid;
      hide Progcaster.Valid;
      hide Tracker.Repr;
      hide ViewOf;
      hide Settled;
      hide PointCountsPlus;
      hide SameTally;
      hide SharedProgress.Valid;
      hide Placeable;
      hide Told;
      hide InnerOf;
      TrackerOwns(tracker);
      NotBatches(progcaster, shared.consumeds);
      NotBatches(progcaster, shared.internals);
      NotBatches(progcaster, shared.produceds);
      ghost var view, inbox := tracker.View(), progcaster.puller.queue;
      ghost var consumeds, produceds := Contents(shared.consumeds), Contents(shared.produceds);
      label before:
      progcaster.Recv(pending);
      ghost var changes := pending.updates;
      assert unchanged@before(shared.consumeds) && unchanged@before(shared.internals);
      assert unchanged@before(shared.produceds);
      assert shared.Valid() && Contents(shared.consumeds) == consumeds && Contents(shared.produceds) == produceds;
      assert tracker.Valid() && tracker.View() == view;
      CommitPointstamps(tracker, pending, outer, shared);
      Committed(tracker.View(), view, changes, AllChanges(inbox));
      ToldAll(outer, changes, AllChanges(inbox), consumeds, Contents(shared.consumeds), produceds,
              Contents(shared.produceds));
    }

    /** Takes over what an operator has shared. */
    method Report(node: nat, edges: seq<seq<Target>>, shared: SharedProgress<T>, active: seq<nat>)
      returns (active': seq<nat>)
      requires Valid() && shared.Valid() && |shared.produceds| == |edges|
      requires Apart(shared.consumeds) && Apart(shared.internals) && Apart(shared.produceds)
      modifies local, shared.consumeds, shared.internals, shared.produceds
      ensures Valid() && shared.Valid() && State() == old(State()).(local := local.updates) && Wires() == old(Wires())
      ensures Gained(State().local, old(State()).local,
                     Changes(AtInputs(node, old(Contents(shared.consumeds))),
                             AtOutputs(node, old(Contents(shared.internals))),
                             AlongEdges(edges, old(Contents(shared.produceds)))))
      ensures forall n :: n in active' <==> n in active || Awaits(edges, old(Contents(shared.produceds)), n)
    {
      hide Tracker.Valid;
      hide ChangeBatch.Valid;
      hide Progcaster.Valid;
      hide Tracker.Repr;
      hide ViewOf;
      hide SharedProgress.Valid;
      hide Awaits;
      hide Gained;
      TrackerOwns(tracker);
      NotBatches(progcaster, shared.consumeds);
      NotBatches(progcaster, shared.internals);
      NotBatches(progcaster, shared.produceds);
      ghost var view := tracker.View();
      label before:
      active' := ExtractProgress(node, edges, shared, local, active);
      assert unchanged@before(tracker.Repr()) && unchanged@before(pending);
      assert tracker.View() == view;
    }

    /** Sends its changes off to all workers, itself included, or withholds them. */
    method Transmit(eager: bool) returns (mustSend: bool, ghost sent: Batch<Point<T>>)
      requires Valid() && forall q :: q in Keys(local.updates) ==> q.0 in tracker.ports
      modifies local, progcaster, progcaster.pushers
      ensures Valid() && (eager ==> mustSend)
      ensures mustSend ==>
                && SameTally(sent, old(State()).local) && State() == Relieved(old(State()), sent)
                && forall v :: 0 <= v < |Wires()| ==>
                     Wires()[v] == old(Wires())[v] + News(progcaster.source, old(State()).counter, sent)
      ensures !mustSend ==>
                && State() == old(State()).(local := local.updates) && SameTally(State().local, old(State()).local)
                && Wires() == old(Wires())
                && forall q: Point<T> ::
                     Tally(old(State()).local, q) < 0 ==> !UrgentAt(tracker.d.order, State().view, q)
    {
      hide Tracker.Valid;
      hide ChangeBatch.Valid;
      hide Progcaster.Valid;
      hide Tracker.Repr;
      hide ViewOf;
      hide SameTally;
      hide UrgentAt;
      TrackerOwns(tracker);
      ghost var view := tracker.View();
      mustSend, sent := SendProgress(eager, tracker, local, progcaster);
      assert tracker.View() == view;
    }

    /** A message arrives. */
    method Accept(m: Message<Point<T>>)
      requires Valid()
      modifies progcaster.puller
      ensures Valid() && State() == old(State()).(inbox := old(State()).inbox + [m]) && Wires() == old(Wires())
    {
      hide Tracker.Valid;
      hide ChangeBatch.Valid;
      hide Tracker.Repr;
      hide ViewOf;
      TrackerOwns(tracker);
      ghost var view := tracker.View();
      progcaster.puller.queue := progcaster.puller.queue + [m];
      assert tracker.View() == view;
    }

    /** The oldest message to `v` leaves its wire. */
    method Deliver(v: nat) returns (m: Message<Point<T>>)
      requires Valid() && v < |Wires()| && Wires()[v] != []
      modifies progcaster.pushers[v]
      ensures Valid() && State() == old(State())
      ensures m == old(Wires())[v][0] && Wires() == old(Wires())[v := old(Wires())[v][1..]]
    {
      hide Tracker.Valid;
      hide ChangeBatch.Valid;
      hide Tracker.Repr;
      hide ViewOf;
      TrackerOwns(tracker);
      ghost var view := tracker.View();
      var wire := progcaster.pushers[v];
      m := wire.queue[0];
      wire.queue := wire.queue[1..];
      assert tracker.View() == view;
    }
  }

  lemma Committed<T(!new)>(v': View<T>, v: View<T>, us: Batch<Point<T>>, changes: Batch<Point<T>>)
    requires PointCountsPlus(v', v, [] + [] + InnerOf(us)) && SameTally(us, [] + changes)
    ensures PointCountsPlus(v', v, InnerOf(changes))
  {
    assert [] + [] + InnerOf(us) == InnerOf(us) && [] + changes == changes;
    InnerSame(us, changes);
  }

  lemma ToldAll<T(!new), O(!new)>(outer: T -> O, us: Batch<Point<T>>, changes: Batch<Point<T>>,
                                  consumeds: seq<seq<Update<O>>>, consumeds': seq<seq<Update<O>>>,
                                  produceds: seq<seq<Update<O>>>, produceds': seq<seq<Update<O>>>)
    requires Told(outer, us, consumeds, consumeds', produceds, produceds') && SameTally(us, [] + changes)
    ensures Told(outer, changes, consumeds, consumeds', produceds, produceds')
  {
    hide Told;
    assert [] + changes == changes && us[..|us|] == us;
    ToldSame(outer, us, changes, consumeds, consumeds', produceds, produceds');
  }

  lemma NotBatches<T(!new), O(!new)>(progcaster: Progcaster<Point<T>>, batches: seq<ChangeBatch<O>>)
    ensures (progcaster as object) !in batches && (progcaster.puller as object) !in batches
  {
  }

  // ---- worlds and states of the protocol ----

  /** A worker is where the state of the protocol says: its view counts what it has received, its inbox and
      the wires to it merge what is under way to it, and its local changes are those not sent. */
  ghost predicate MatchesOne<T(!new), S(!new)>(d: Domain<T, S>, g: Graph<S>, a: Worker<T>, wires: Wires<Point<T>>,
                                               s: System<Point<T>>, v: nat)
    requires Shaped(s) && v < |s.held| && Square(wires, |s.held|)
  {
    Tracks(d, g, a.view, s.received[v]) && Merges(s, v, a.inbox, wires) && SameTally(a.local, s.local[v])
  }

  ghost predicate Matches<T(!new), S(!new)>(d: Domain<T, S>, g: Graph<S>, a: World<T>, s: System<Point<T>>) {
    && Shaped(s) && Sized(a, |s.held|) && a.held == s.held && a.messages == s.messages
    && forall v :: 0 <= v < |a.workers| ==> MatchesOne(d, g, a.workers[v], a.wires, s, v)
  }

  lemma BeginsMatches<T(!new), S(!new)>(d: Domain<T, S>, g: Graph<S>, n: nat, init: Batch<Point<T>>, a: World<T>)
    requires Begins(d, g, n, init, a)
    ensures Matches(d, g, a, Initial(n, init))
  {
    hide Tracks;
    hide SameTally;
    var s := Initial(n, init);
    forall v | 0 <= v < n ensures MatchesOne(d, g, a.workers[v], a.wires, s, v) {
      assert BeginsOne(d, g, Copies(init, n), a.workers[v]);
      SameTallySelf<Point<T>>([]);
    }
  }

  lemma ReportsMatches<T(!new), S(!new)>(d: Domain<T, S>, g: Graph<S>, a: World<T>, event: Event<T>, b: World<T>,
                                         s: System<Point<T>>)
    returns (steps: seq<Step<Point<T>>>, states: seq<System<Point<T>>>, s': System<Point<T>>)
    requires Sized(a, |a.workers|) && Matches(d, g, a, s) && event.Reports? && Happens(d, g, a, event, b)
    ensures Follow(PointsOf(d, g), s, steps, states, s') && Matches(d, g, b, s')
  {
    hide Tracks;
    hide Legal;
    var w, consumed, internal, produced := event.worker, event.consumed, event.internal, event.produced;
    var changes := Changes(consumed, internal, produced);
    s' := s.(held := s.held[w := s.held[w] + internal], messages := s.messages + Negated(consumed) + produced,
             local := s.local[w := s.local[w] + changes]);
    steps, states := [Operate(w, consumed, internal, produced)], [s, s'];
    forall v | 0 <= v < |b.workers| ensures MatchesOne(d, g, b.workers[v], b.wires, s', v) {
      assert MatchesOne(d, g, a.workers[v], a.wires, s, v);
      SameMerges(s, s', v, a.workers[v].inbox, a.wires);
      if v == w {
        TallyAppendAll(s.local[w], changes);
      }
    }
  }

  lemma SameMerges<P(!new)>(s: System<P>, s': System<P>, v: nat, inbox: seq<Message<P>>, wires: Wires<P>)
    requires Shaped(s) && Shaped(s') && v < |s.held| == |s'.held| && Square(wires, |s.held|)
    requires s'.queues == s.queues && Merges(s, v, inbox, wires)
    ensures Merges(s', v, inbox, wires)
  {
    forall x: nat | x < |s.held| ensures MergesFrom(s', v, inbox, wires[x][v], x) {
      assert MergesFrom(s, v, inbox, wires[x][v], x);
    }
  }

  lemma TransmitsMatches<T(!new), S(!new)>(d: Domain<T, S>, g: Graph<S>, a: World<T>, event: Event<T>, b: World<T>,
                                           s: System<Point<T>>)
    returns (steps: seq<Step<Point<T>>>, states: seq<System<Point<T>>>, s': System<Point<T>>)
    requires Sized(a, |a.workers|) && Matches(d, g, a, s) && event.Transmits? && Happens(d, g, a, event, b)
    ensures Follow(PointsOf(d, g), s, steps, states, s') && Matches(d, g, b, s')
  {
    hide Tracks;
    hide Merges;
    var w, sent := event.worker, event.sent;
    s' := s.(local := s.local[w := []], queues := s.queues[w := PushAll(s.queues[w], sent)]);
    steps, states := [Send(w, sent)], [s, s'];
    assert MatchesOne(d, g, a.workers[w], a.wires, s, w);
    forall v | 0 <= v < |b.workers| ensures MatchesOne(d, g, b.workers[v], b.wires, s', v) {
      assert MatchesOne(d, g, a.workers[v], a.wires, s, v);
      SendMerges(s, s', v, a.workers[v].inbox, a.wires, w, a.workers[w].counter, sent, b.wires);
    }
  }

  lemma WithholdsMatches<T(!new), S(!new)>(d: Domain<T, S>, g: Graph<S>, a: World<T>, event: Event<T>, b: World<T>,
                                           s: System<Point<T>>)
    requires Sized(a, |a.workers|) && Matches(d, g, a, s) && event.Withholds? && Happens(d, g, a, event, b)
    ensures Matches(d, g, b, s)
  {
    hide Tracks;
    hide Merges;
    forall v | 0 <= v < |b.workers| ensures MatchesOne(d, g, b.workers[v], b.wires, s, v) {
      assert MatchesOne(d, g, a.workers[v], a.wires, s, v);
    }
  }

  /** A message that arrives changes nothing in the state of the protocol: it is still under way. */
  lemma ArrivesMatches<T(!new), S(!new)>(d: Domain<T, S>, g: Graph<S>, a: World<T>, event: Event<T>, b: World<T>,
                                         s: System<Point<T>>)
    requires Sized(a, |a.workers|) && Matches(d, g, a, s) && event.Arrives? && Happens(d, g, a, event, b)
    ensures Matches(d, g, b, s)
  {
    hide Tracks;
    hide SameTally;
    hide MergesFrom;
    var w, to := event.worker, event.to;
    forall v | 0 <= v < |b.workers| ensures MatchesOne(d, g, b.workers[v], b.wires, s, v) {
      assert MatchesOne(d, g, a.workers[v], a.wires, s, v);
      if v == to {
        ArriveMerges(s, v, a.workers[v].inbox, a.wires, w, b.wires);
      } else {
        assert forall x :: 0 <= x < |a.workers| ==> b.wires[x][v] == a.wires[x][v];
      }
    }
  }

  lemma TakesInMatches<T(!new), S(!new)>(d: Domain<T, S>, g: Graph<S>, a: World<T>, event: Event<T>, b: World<T>,
                                         s: System<Point<T>>)
    returns (steps: seq<Step<Point<T>>>, states: seq<System<Point<T>>>, s': System<Point<T>>)
    requires Sized(a, |a.workers|) && Matches(d, g, a, s) && event.TakesIn? && Happens(d, g, a, event, b)
    ensures Follow(PointsOf(d, g), s, steps, states, s') && Matches(d, g, b, s')
  {
    hide Follow;
    hide Tracks;
    hide SameTally;
    var w := event.worker;
    var inbox := a.workers[w].inbox;
    assert MatchesOne(d, g, a.workers[w], a.wires, s, w);
    steps, states, s' := InboxDrains(PointsOf(d, g), s, w, inbox, a.wires);
    forall v | 0 <= v < |b.workers| ensures MatchesOne(d, g, b.workers[v], b.wires, s', v) {
      assert MatchesOne(d, g, a.workers[v], a.wires, s, v);
      DrainedMerges(s, s', w, v, AllChanges(inbox), a.workers[v].inbox, a.wires);
      if v == w {
        CommitTracks(d, g, a.workers[w].view, b.workers[w].view, s.received[w], AllChanges(inbox));
      }
    }
  }

  lemma DrainedMerges<P(!new)>(s: System<P>, s': System<P>, w: nat, v: nat, changes: Batch<P>, inbox: seq<Message<P>>,
                               wires: Wires<P>)
    requires Shaped(s) && w < |s.held| && v < |s.held| && Square(wires, |s.held|)
    requires Drained(s, w, changes, wires, s') && Merges(s, v, inbox, wires)
    ensures Merges(s', v, if v == w then [] else inbox, wires)
  {
    var left := if v == w then [] else inbox;
    forall x: nat | x < |s.held| ensures MergesFrom(s', v, left, wires[x][v], x) {
      assert MergesFrom(s, v, inbox, wires[x][v], x) && LeftFrom(s.queues[x], w, wires, x, s'.queues[x]);
      assert FromSource<P>([], x) + FromSource(wires[x][v], x) == FromSource(wires[x][v], x);
    }
  }

  /** Whatever happens is a run of the protocol, of any number of steps. */
  lemma EventMatches<T(!new), S(!new)>(d: Domain<T, S>, g: Graph<S>, a: World<T>, event: Event<T>, b: World<T>,
                                       s: System<Point<T>>)
    returns (steps: seq<Step<Point<T>>>, states: seq<System<Point<T>>>, s': System<Point<T>>)
    requires Sized(a, |a.workers|) && Matches(d, g, a, s) && Happens(d, g, a, event, b)
    ensures Follow(PointsOf(d, g), s, steps, states, s') && Matches(d, g, b, s')
  {
    hide Matches;
    hide Happens;
    steps, states, s' := [], [s], s;
    MatchesShaped(d, g, a, s);
    match event
    case Reports(_, _, _, _) => steps, states, s' := ReportsMatches(d, g, a, event, b, s);
    case Transmits(_, _) => steps, states, s' := TransmitsMatches(d, g, a, event, b, s);
    case Withholds(_) => WithholdsMatches(d, g, a, event, b, s);
    case Arrives(_, _) => ArrivesMatches(d, g, a, event, b, s);
    case TakesIn(_) => steps, states, s' := TakesInMatches(d, g, a, event, b, s);
  }

  lemma MatchesShaped<T(!new), S(!new)>(d: Domain<T, S>, g: Graph<S>, a: World<T>, s: System<Point<T>>)
    requires Matches(d, g, a, s)
    ensures Shaped(s)
  {
  }

  lemma RunOn<P(!new)>(o: Points<P>, n: nat, init: Batch<P>, steps: seq<Step<P>>, states: seq<System<P>>,
                       more: seq<Step<P>>, through: seq<System<P>>, s': System<P>)
    requires Run(o, n, init, steps, states) && Follow(o, states[|steps|], more, through, s')
    ensures Run(o, n, init, steps + more, states + through[1..]) && (states + through[1..])[|steps + more|] == s'
  {
    hide Next;
    var all, every := steps + more, states + through[1..];
    forall i | |steps| <= i < |every| ensures every[i] == through[i - |steps|] {}
    forall i | 0 <= i < |all| ensures Next(o, every[i], all[i], every[i + 1]) {
      if i < |steps| {
        assert Next(o, states[i], steps[i], states[i + 1]);
      } else {
        assert Next(o, through[i - |steps|], more[i - |steps|], through[i - |steps| + 1]);
      }
    }
  }

  /** Simulation: every history of workers follows a run of the protocol, and at each of its worlds every
      worker's tracker counts exactly what the worker has received by then. */
  lemma {:induction false} Simulated<T(!new), S(!new)>(d: Domain<T, S>, g: Graph<S>, n: nat, init: Batch<Point<T>>,
                                                      events: seq<Event<T>>, worlds: seq<World<T>>)
    returns (steps: seq<Step<Point<T>>>, states: seq<System<Point<T>>>, at: seq<nat>)
    requires History(d, g, n, init, events, worlds)
    ensures Run(PointsOf(d, g), n, init, steps, states)
    ensures |at| == |worlds| && at[|events|] == |steps| && forall i, j :: 0 <= i <= j < |at| ==>
              at[i] <= at[j] <= |steps|
    ensures forall i :: 0 <= i < |worlds| ==> Matches(d, g, worlds[i], states[at[i]])
    decreases |events|
  {
    hide Matches;
    hide Happens;
    hide Follow;
    var o := PointsOf(d, g);
    if events == [] {
      steps, states, at := [], [Initial(n, init)], [0];
      BeginsMatches(d, g, n, init, worlds[0]);
    } else {
      var last := |events| - 1;
      var steps0, states0, at0 := Simulated(d, g, n, init, events[..last], worlds[..last + 1]);
      var more, through, s' := EventMatches(d, g, worlds[last], events[last], worlds[last + 1], states0[at0[last]]);
      RunOn(o, n, init, steps0, states0, more, through, s');
      FollowSize(o, states0[|steps0|], more, through, s');
      steps, states, at := steps0 + more, states0 + through[1..], at0 + [|steps0| + |more|];
      forall i | 0 <= i < |worlds| ensures Matches(d, g, worlds[i], states[at[i]]) {
        if i <= last {
          assert Matches(d, g, worlds[..last + 1][i], states0[at0[i]]);
        }
      }
    }
  }

  lemma FollowSize<P(!new)>(o: Points<P>, s: System<P>, steps: seq<Step<P>>, states: seq<System<P>>, s': System<P>)
    requires Follow(o, s, steps, states, s')
    ensures |states| == |steps| + 1
  {
  }

  // ---- what holds of every history ----

  /** The truth about a pointstamp: how many capabilities for it are held, and how many messages nobody
      has consumed. */
  ghost function Existing<T(!new)>(a: World<T>, p: Point<T>): int {
    Outstanding(System(a.held, a.messages, [], [], []), p)
  }

  lemma ExistingIs<T(!new), S(!new)>(d: Domain<T, S>, g: Graph<S>, a: World<T>, s: System<Point<T>>, p: Point<T>)
    requires Matches(d, g, a, s)
    ensures Outstanding(s, p) == Existing(a, p)
  {
    SumSame(Workers(|s.held|), HeldBy(s, p), HeldBy(System(a.held, a.messages, [], [], []), p));
  }

  /** Safety of the whole system: in any history, as long as some worker holds a capability, or some
      message has not been consumed, no worker's frontier excludes a time that could come of it. */
  lemma WorldSafe<T(!new), S(!new)>(d: Domain<T, S>, g: Graph<S>, n: nat, init: Batch<Point<T>>, events: seq<Event<T>>,
                                    worlds: seq<World<T>>, i: nat, v: nat, p: Point<T>, path: seq<Hop<S>>, to: Location)
    requires LawfulTimes(d) && WellFormed(g) && !HasDefaultCycle(g, d.zero) && Capabilities(PointsOf(d, g), init)
    requires History(d, g, n, init, events, worlds) && i < |worlds| && v < n
    requires Existing(worlds[i], p) > 0 && IsPath(g, p.0, path, to) && Along(d, path, p.1).Some?
    ensures Admits(d.order, worlds[i].workers[v].view, to, Along(d, path, p.1).value)
  {
    hide Run;
    hide Existing;
    hide Outstanding;
    hide Tracks;
    hide LawfulTimes;
    hide WellFormed;
    hide Capabilities;
    hide Happens;
    hide Begins;
    var rank := RankExists(g, d.zero);
    var steps, states, at := Simulated(d, g, n, init, events, worlds);
    RunSize(PointsOf(d, g), n, init, steps, states);
    var a, s := worlds[i], states[at[i]];
    assert Matches(d, g, a, s) && MatchesOne(d, g, a.workers[v], a.wires, s, v);
    ExistingIs(d, g, a, s, p);
    FrontiersSafe(d, g, rank, n, init, steps, states, at[i], v, a.workers[v].view, p, path, to);
  }

  /** Frontiers of the whole system only advance: a time that a worker's frontier excludes at some point
      of a history, it excludes ever after. */
  lemma WorldAdvances<T(!new), S(!new)>(d: Domain<T, S>, g: Graph<S>, n: nat, init: Batch<Point<T>>,
                                        events: seq<Event<T>>, worlds: seq<World<T>>, i: nat, j: nat, v: nat,
                                        to: Location, u: T)
    requires LawfulTimes(d) && WellFormed(g) && !HasDefaultCycle(g, d.zero) && Capabilities(PointsOf(d, g), init)
    requires History(d, g, n, init, events, worlds) && i <= j < |worlds| && v < n
    requires Admits(d.order, worlds[j].workers[v].view, to, u)
    ensures Admits(d.order, worlds[i].workers[v].view, to, u)
  {
    hide Run;
    hide Admits;
    hide Tracks;
    hide LawfulTimes;
    hide WellFormed;
    hide Capabilities;
    hide Happens;
    hide Begins;
    var rank := RankExists(g, d.zero);
    var steps, states, at := Simulated(d, g, n, init, events, worlds);
    RunSize(PointsOf(d, g), n, init, steps, states);
    assert Matches(d, g, worlds[i], states[at[i]]) &&
           MatchesOne(d, g, worlds[i].workers[v], worlds[i].wires, states[at[i]], v);
    assert Matches(d, g, worlds[j], states[at[j]]) &&
           MatchesOne(d, g, worlds[j].workers[v], worlds[j].wires, states[at[j]], v);
    FrontiersAdvance(d, g, rank, n, init, steps, states, at[i], at[j], v, worlds[i].workers[v].view,
                     worlds[j].workers[v].view, to, u);
  }

  /** Completion of the whole system is noticed: once nothing exists any more, nothing is left to send and
      all messages have been taken in, all frontiers of all workers are empty. */
  lemma WorldDrains<T(!new), S(!new)>(d: Domain<T, S>, g: Graph<S>, n: nat, init: Batch<Point<T>>,
                                      events: seq<Event<T>>, worlds: seq<World<T>>, i: nat, v: nat)
    requires LawfulTimes(d) && WellFormed(g) && !HasDefaultCycle(g, d.zero) && Capabilities(PointsOf(d, g), init)
    requires History(d, g, n, init, events, worlds) && i < |worlds| && v < n
    requires worlds[i].workers[v].inbox == []
    requires forall w :: 0 <= w < n ==> AllZero(worlds[i].workers[w].local) && worlds[i].wires[w][v] == []
    requires forall p :: Existing(worlds[i], p) == 0
    ensures forall l :: l in worlds[i].workers[v].view ==> worlds[i].workers[v].view[l].frontier == []
  {
    hide Run;
    hide Existing;
    hide Outstanding;
    hide Tracks;
    hide LawfulTimes;
    hide WellFormed;
    hide Capabilities;
    hide Happens;
    hide Begins;
    var rank := RankExists(g, d.zero);
    var steps, states, at := Simulated(d, g, n, init, events, worlds);
    RunSize(PointsOf(d, g), n, init, steps, states);
    var a, s := worlds[i], states[at[i]];
    assert Matches(d, g, a, s) && MatchesOne(d, g, a.workers[v], a.wires, s, v);
    forall w: nat | w < n ensures s.queues[w][v] == [] && AllZero(s.local[w]) {
      assert MatchesOne(d, g, a.workers[w], a.wires, s, w);
      assert MergesFrom(s, v, a.workers[v].inbox, a.wires[w][v], w);
    }
    forall p ensures Outstanding(s, p) == 0 { ExistingIs(d, g, a, s, p); }
    FrontiersDrain(d, g, rank, n, init, steps, states, at[i], v, a.workers[v].view);
  }

  lemma RunSize<P(!new)>(o: Points<P>, n: nat, init: Batch<P>, steps: seq<Step<P>>, states: seq<System<P>>)
    requires Run(o, n, init, steps, states)
    ensures |states| == |steps| + 1
  {
  }

  predicate AllFrom<P>(wire: seq<Message<P>>, x: nat) {
    forall k :: 0 <= k < |wire| ==> wire[k].source == x
  }

  /** The messages from `w` to `v`, arrived or on their way, carry consecutive numbers up to the counter of
      `w`; and what is on a wire to `v` comes from its sender. */
  ghost predicate Numbered<T>(a: World<T>, v: nat, w: nat)
    requires Sized(a, |a.workers|) && v < |a.workers| && w < |a.workers|
  {
    && (forall x :: 0 <= x < |a.workers| ==> AllFrom(a.wires[x][v], x))
    && InSequence(a.workers[v].inbox + a.wires[w][v], w, a.workers[w].counter)
  }

  /** Messages of each sender are numbered consecutively, in whatever order those of different senders arrive. */
  lemma {:induction false} WorldInSequence<T(!new), S(!new)>(d: Domain<T, S>, g: Graph<S>, n: nat,
                                                             init: Batch<Point<T>>, events: seq<Event<T>>,
                                                             worlds: seq<World<T>>, v: nat, w: nat)
    requires History(d, g, n, init, events, worlds) && v < n && w < n
    ensures Numbered(worlds[|events|], v, w)
    decreases |events|
  {
    hide Legal;
    hide TookIn;
    if events == [] {
      assert BeginsOne(d, g, Copies(init, n), worlds[0].workers[v]) &&
             BeginsOne(d, g, Copies(init, n), worlds[0].workers[w]);
      assert worlds[0].workers[v].inbox + worlds[0].wires[w][v] == [];
    } else {
      hide Numbered;
      hide Happens;
      var last := |events| - 1;
      WorldInSequence(d, g, n, init, events[..last], worlds[..last + 1], v, w);
      SequenceStep(d, g, worlds[last], events[last], worlds[last + 1], v, w);
    }
  }

  lemma SequenceStep<T(!new), S(!new)>(d: Domain<T, S>, g: Graph<S>, a: World<T>, event: Event<T>, b: World<T>, v: nat,
                                       w: nat)
    requires Sized(a, |a.workers|) && Happens(d, g, a, event, b) && v < |a.workers| && w < |a.workers|
    requires Numbered(a, v, w)
    ensures Sized(b, |a.workers|) && Numbered(b, v, w)
  {
    hide Legal;
    hide InSequence;
    hide SameTally;
    hide TookIn;
    hide Gained;
    match event
    case Transmits(_, _) => TransmitsNumbered(d, g, a, event, b, v, w);
    case Arrives(_, _) => ArrivesNumbered(d, g, a, event, b, v, w);
    case TakesIn(_) => TakesInNumbered(d, g, a, event, b, v, w);
    case Reports(_, _, _, _) =>
    case Withholds(_) =>
  }

  lemma TransmitsNumbered<T(!new), S(!new)>(d: Domain<T, S>, g: Graph<S>, a: World<T>, event: Event<T>, b: World<T>,
                                            v: nat, w: nat)
    requires Sized(a, |a.workers|) && Happens(d, g, a, event, b) && v < |a.workers| && w < |a.workers|
    requires event.Transmits? && Numbered(a, v, w)
    ensures Numbered(b, v, w)
  {
    hide InSequence;
    hide SameTally;
    var x, inbox, wire := event.worker, a.workers[v].inbox, a.wires[w][v];
    var m := Message(x, a.workers[x].counter, event.sent);
    assert wire + [] == wire && AllFrom(a.wires[x][v], x);
    if x == w && event.sent != [] {
      Associative(inbox, wire, [m]);
      SendInSequence(inbox + wire, w, a.workers[w].counter, m);
    }
    assert b.workers[v].inbox == inbox;
    forall y | 0 <= y < |a.workers| ensures AllFrom(b.wires[y][v], y) { assert AllFrom(a.wires[y][v], y); }
  }

  lemma ArrivesNumbered<T(!new), S(!new)>(d: Domain<T, S>, g: Graph<S>, a: World<T>, event: Event<T>, b: World<T>,
                                          v: nat, w: nat)
    requires Sized(a, |a.workers|) && Happens(d, g, a, event, b) && v < |a.workers| && w < |a.workers|
    requires event.Arrives? && Numbered(a, v, w)
    ensures Numbered(b, v, w)
  {
    hide InSequence;
    var x, inbox, wire := event.worker, a.workers[v].inbox, a.wires[w][v];
    forall y | 0 <= y < |a.workers| ensures AllFrom(b.wires[y][v], y) { assert AllFrom(a.wires[y][v], y); }
    if event.to == v {
      var m := a.wires[x][v][0];
      if x == w {
        assert inbox + [m] + wire[1..] == inbox + wire;
      } else {
        assert AllFrom(a.wires[x][v], x);
        ElsewhereInSequence(inbox, m, wire, w, a.workers[w].counter);
      }
    }
  }

  lemma TakesInNumbered<T(!new), S(!new)>(d: Domain<T, S>, g: Graph<S>, a: World<T>, event: Event<T>, b: World<T>,
                                          v: nat, w: nat)
    requires Sized(a, |a.workers|) && Happens(d, g, a, event, b) && v < |a.workers| && w < |a.workers|
    requires event.TakesIn? && Numbered(a, v, w)
    ensures Numbered(b, v, w)
  {
    hide InSequence;
    hide Settled;
    hide PointCountsPlus;
    RestInSequence(a.workers[v].inbox, a.wires[w][v], w, a.workers[w].counter);
    assert [] + a.wires[w][v] == a.wires[w][v];
  }
}
