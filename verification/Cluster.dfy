/** Workers together: whatever one of them does is one of the things that may happen. */
module Clusters {
  import opened Updates
  import opened ChangeBatches
  import opened Orders
  import opened Timestamps
  import opened Graphs
  import opened Propagation
  import opened Ports
  import opened Outputs
  import opened Worklists
  import opened Trackers
  import opened Broadcast
  import opened Progcasters
  import opened Subgraphs
  import opened Surfacing
  import opened EndToEnd
  import opened Worlds
  import opened Chains

  /** The shares that workers have of one scope have the same graph, one wire to each worker, and nothing
      in common. */
  ghost predicate Wired<T(!new), S(!new)>(d: Domain<T, S>, g: Graph<S>, scopes: seq<Scope<T, S>>) {
    && (forall w :: 0 <= w < |scopes| ==> WiredOne(d, g, scopes[w], w, |scopes|))
    && (forall w, v :: 0 <= w < v < |scopes| ==> scopes[w].Parts() !! scopes[v].Parts())
  }

  ghost predicate WiredOne<T(!new), S(!new)>(d: Domain<T, S>, g: Graph<S>, scope: Scope<T, S>, w: nat, n: nat) {
    && scope.tracker.d == d && scope.tracker.g == g && scope.Separate()
    && |scope.progcaster.pushers| == n && scope.progcaster.source == w
  }

  ghost function AllParts<T(!new), S(!new)>(scopes: seq<Scope<T, S>>): set<object> {
    set w, o | 0 <= w < |scopes| && o in scopes[w].Parts() :: o
  }

  /** All workers, and the truth. */
  class Cluster<T(==,!new), S(==,!new)> {
    const d: Domain<T, S>
    const g: Graph<S>
    const scopes: seq<Scope<T, S>>
    ghost var held: seq<Batch<Point<T>>>
    ghost var messages: Batch<Point<T>>
    ghost const init: Batch<Point<T>>
    ghost var events: seq<Event<T>>    // all that has happened
    ghost var worlds: seq<World<T>>    // how it was before, between and after

    /** What has happened is a history that has led here. */
    ghost predicate Valid()
      reads this, AllParts(scopes)
    {
      Sound() && History(d, g, |scopes|, init, events, worlds) && worlds[|events|] == World()
    }

    ghost predicate Sound()
      reads `held, AllParts(scopes)
    {
      && Wired(d, g, scopes) && this !in AllParts(scopes) && |held| == |scopes|
      && forall w :: 0 <= w < |scopes| ==> ValidOne(w)
    }

    ghost predicate ValidOne(w: nat)
      requires w < |scopes|
      reads AllParts(scopes)
    {
      Owns(scopes, w);
      scopes[w].Valid()
    }

    ghost function StateOf(w: nat): Worker<T>
      requires w < |scopes|
      reads AllParts(scopes)
    {
      Owns(scopes, w);
      scopes[w].State()
    }

    ghost function WiresOf(w: nat): seq<seq<Message<Point<T>>>>
      requires w < |scopes|
      reads AllParts(scopes)
    {
      Owns(scopes, w);
      scopes[w].Wires()
    }

    /** What the workers' states amount to. */
    ghost function World(): (a: World<T>)
      reads `held, `messages, AllParts(scopes)
      ensures |a.workers| == |a.wires| == |scopes| && a.held == held && a.messages == messages
      ensures forall w :: 0 <= w < |scopes| ==> a.workers[w] == StateOf(w) && a.wires[w] == WiresOf(w)
    {
      Worlds.World(
        seq(|scopes|, w requires 0 <= w < |scopes| reads AllParts(scopes) => StateOf(w)),
        seq(|scopes|, w requires 0 <= w < |scopes| reads AllParts(scopes) => WiresOf(w)),
        held, messages)
    }

    constructor (d: Domain<T, S>, g: Graph<S>, scopes: seq<Scope<T, S>>, ghost init: Batch<Point<T>>)
      requires Wired(d, g, scopes) && forall w :: 0 <= w < |scopes| ==> scopes[w].Valid()
      requires forall w :: 0 <= w < |scopes| ==>
                 Starts(d, g, Copies(init, |scopes|), scopes[w].State(), scopes[w].Wires())
      ensures Valid() && this.d == d && this.g == g && this.scopes == scopes && this.init == init && events == []
    {
      hide *;
      forall w | 0 <= w < |scopes| { OwnsParts(scopes[w]); }
      AllAllocated(scopes);
      this.d, this.g, this.scopes, this.init := d, g, scopes, init;
      held, messages := seq(|scopes|, w => init), [];
      events, worlds := [], [];
      new;
      Closed();
      Opened();
      worlds := [World()];
      ItBegins(d, g, |scopes|, init, World());
      Joined();
    }

    lemma Split()
      requires Valid()
      ensures Sound() && History(d, g, |scopes|, init, events, worlds) && worlds[|events|] == World()
    {
    }

    lemma Joined()
      requires Sound() && History(d, g, |scopes|, init, events, worlds) && worlds[|events|] == World()
      ensures Valid()
    {
    }

    /** Takes down what has happened. */
    ghost method Note(event: Event<T>)
      requires Sound() && History(d, g, |scopes|, init, events, worlds) && Sized(World(), |scopes|)
      requires Sized(worlds[|events|], |scopes|) && Happens(d, g, worlds[|events|], event, World())
      modifies `events, `worlds
      ensures Valid() && events == old(events) + [event] && worlds == old(worlds) + [World()]
    {
      hide *;
      Opened();
      HistoryOn(d, g, |scopes|, init, events, worlds, event, World());
      events, worlds := events + [event], worlds + [World()];
      Joined();
    }

    lemma Opened()
      requires Sound()
      ensures Wired(d, g, scopes) && |held| == |scopes| && Sized(World(), |scopes|)
      ensures forall w :: 0 <= w < |scopes| ==> scopes[w].Valid()
      ensures forall w :: 0 <= w < |scopes| ==>
                World().workers[w] == scopes[w].State() && World().wires[w] == scopes[w].Wires()
      ensures World().held == held && World().messages == messages
      ensures this !in AllParts(scopes)
    {
      hide Scope.Valid;
      hide Scope.Parts;
      hide Scope.State;
      forall w | 0 <= w < |scopes| ensures scopes[w].Valid() && |scopes[w].Wires()| == |scopes| {
        assert ValidOne(w) && WiredOne(d, g, scopes[w], w, |scopes|);
      }
    }

    lemma Closed()
      requires Wired(d, g, scopes) && |held| == |scopes| && this !in AllParts(scopes)
      requires forall w :: 0 <= w < |scopes| ==> scopes[w].Valid()
      ensures Sound()
    {
      hide Scope.Valid;
      hide Scope.Parts;
      forall w | 0 <= w < |scopes| ensures ValidOne(w) {
      }
    }

    /** Worker `w` takes in what has arrived, of which nothing concerns a parent scope. */
    method TakeIn<O(==,!new)>(w: nat, outer: T -> O, shared: SharedProgress<O>)
      requires Valid() && w < |scopes| && shared.Valid() && AllApart(scopes, shared)
      requires forall q :: q in Keys(AllChanges(World().workers[w].inbox)) ==> Has(g, q.0) && q.0.node != 0
      modifies `events, `worlds, scopes[w].Parts(), shared.consumeds, shared.produceds
      ensures Valid() && events == old(events) + [TakesIn(w)] && worlds == old(worlds) + [World()]
    {
      hide *;
      Split();
      Opened();
      WiredAll(d, g, scopes, w);
      AllApartFrom(scopes, shared);
      BatchesIs(shared);
      ghost var a := World();
      StateIs(scopes[w]);
      InnerAll(g, AllChanges(a.workers[w].inbox), |shared.consumeds|, |shared.produceds|);
      forall v | 0 <= v < |scopes| { OwnsParts(scopes[v]); }
      label before:
      scopes[w].TakeIn(outer, shared);
      forall v | 0 <= v < |scopes| && v != w
        ensures scopes[v].Valid() && scopes[v].State() == old(scopes[v].State()) &&
                scopes[v].Wires() == old(scopes[v].Wires())
      {
        assert unchanged@before(scopes[v].Parts());
      }
      Closed();
      Opened();
      ItTakesIn(d, g, a, World(), w);
      Note(TakesIn(w));
    }

    /** Worker `w` sends off what it has yet to send, or keeps it. */
    method Transmit(w: nat, eager: bool) returns (ghost event: Event<T>)
      requires Valid() && w < |scopes|
      requires forall q :: q in Keys(World().workers[w].local) ==> q.0 in scopes[w].tracker.ports
      modifies `events, `worlds, scopes[w].Parts()
      ensures Valid() && events == old(events) + [event] && worlds == old(worlds) + [World()]
      ensures event.worker == w && (event.Transmits? || event.Withholds?) && (eager ==> event.Transmits?)
    {
      hide *;
      Split();
      Opened();
      WiredAll(d, g, scopes, w);
      ghost var a := World();
      StateIs(scopes[w]);
      forall v | 0 <= v < |scopes| { OwnsParts(scopes[v]); }
      var mustSend;
      ghost var sent;
      label before:
      mustSend, sent := scopes[w].Transmit(eager);
      forall v | 0 <= v < |scopes| && v != w
        ensures scopes[v].Valid() && scopes[v].State() == old(scopes[v].State())
        ensures scopes[v].Wires() == old(scopes[v].Wires())
      {
        assert unchanged@before(scopes[v].Parts());
      }
      Closed();
      Opened();
      if mustSend {
        event := Transmits(w, sent);
        ItTransmits(d, g, a, World(), w, sent);
      } else {
        event := Withholds(w);
        ItWithholds(d, g, a, World(), w);
      }
      Note(event);
    }

    /** Worker `w` takes over what an operator has shared: the others do not notice. */
    method TakeOver(w: nat, node: nat, edges: seq<seq<Target>>, shared: SharedProgress<T>, active: seq<nat>)
      returns (active': seq<nat>)
      requires Sound() && w < |scopes| && shared.Valid() && |shared.produceds| == |edges|
      requires AllApart(scopes, shared)
      modifies scopes[w].Parts(), shared.consumeds, shared.internals, shared.produceds
      ensures forall v :: 0 <= v < |scopes| ==> scopes[v].Valid() && scopes[v].Wires() == old(scopes[v].Wires())
      ensures forall v :: 0 <= v < |scopes| && v != w ==> scopes[v].State() == old(scopes[v].State())
      ensures scopes[w].State() == old(scopes[w].State()).(local := scopes[w].State().local)
      ensures Gained(scopes[w].State().local, old(scopes[w].State()).local,
                     Changes(AtInputs(node, old(Contents(shared.consumeds))),
                             AtOutputs(node, old(Contents(shared.internals))),
                             AlongEdges(edges, old(Contents(shared.produceds)))))
      ensures forall n :: n in active' <==> n in active || Awaits(edges, old(Contents(shared.produceds)), n)
    {
      hide *;
      ContentsSize(shared.produceds);
      AllApartFrom(scopes, shared);
      BatchesIs(shared);
      Opened();
      WiredAll(d, g, scopes, w);
      forall v | 0 <= v < |scopes| { OwnsParts(scopes[v]); }
      label before:
      active' := scopes[w].Report(node, edges, shared, active);
      forall v | 0 <= v < |scopes| && v != w
        ensures scopes[v].Valid() && scopes[v].State() == old(scopes[v].State())
        ensures scopes[v].Wires() == old(scopes[v].Wires())
      {
        assert unchanged@before(scopes[v].Parts());
      }
    }

    /** An operator acts at worker `w`, which takes over what it has shared. */
    method Report(w: nat, node: nat, edges: seq<seq<Target>>, shared: SharedProgress<T>, active: seq<nat>)
      returns (ghost event: Event<T>, active': seq<nat>)
      requires Valid() && w < |scopes| && shared.Valid() && |shared.produceds| == |edges|
      requires AllApart(scopes, shared)
      requires Legal(PointsOf(d, g), held[w], messages, AtInputs(node, Contents(shared.consumeds)),
                     AtOutputs(node, Contents(shared.internals)), AlongEdges(edges, Contents(shared.produceds)))
      modifies this, scopes[w].Parts(), shared.consumeds, shared.internals, shared.produceds
      ensures Valid() && events == old(events) + [event] && worlds == old(worlds) + [World()]
      ensures event == Reports(w, AtInputs(node, old(Contents(shared.consumeds))),
                               AtOutputs(node, old(Contents(shared.internals))),
                               AlongEdges(edges, old(Contents(shared.produceds))))
      ensures forall n :: n in active' <==> n in active || Awaits(edges, old(Contents(shared.produceds)), n)
    {
      hide *;
      ContentsSize(shared.produceds);
      Split();
      Opened();
      WiredAll(d, g, scopes, w);
      ghost var a := World();
      event := Reports(w, AtInputs(node, Contents(shared.consumeds)), AtOutputs(node, Contents(shared.internals)),
                       AlongEdges(edges, Contents(shared.produceds)));
      active' := TakeOver(w, node, edges, shared, active);
      forall v | 0 <= v < |scopes| { OwnsParts(scopes[v]); }
      label between:
      held, messages := held[w := held[w] + event.internal], messages + Negated(event.consumed) + event.produced;
      forall v | 0 <= v < |scopes|
        ensures scopes[v].Valid() && scopes[v].State() == old@between(scopes[v].State())
        ensures scopes[v].Wires() == old@between(scopes[v].Wires())
      {
        assert unchanged@between(scopes[v].Parts());
      }
      Closed();
      Opened();
      ItReports(d, g, a, World(), event);
      Note(event);
    }

    /** The oldest message on the wire from `w` to `to` arrives. */
    method Arrive(w: nat, to: nat)
      requires Valid() && w < |scopes| && to < |scopes|
      requires Sized(World(), |scopes|) && World().wires[w][to] != []
      modifies `events, `worlds, scopes[w].Parts(), scopes[to].Parts()
      ensures Valid() && events == old(events) + [Arrives(w, to)] && worlds == old(worlds) + [World()]
    {
      hide *;
      Split();
      Opened();
      WiredAll(d, g, scopes, w);
      WiredAll(d, g, scopes, to);
      ghost var a := World();
      forall v | 0 <= v < |scopes| { OwnsParts(scopes[v]); }
      var m := scopes[w].Deliver(to);
      forall v | 0 <= v < |scopes| && v != w
        ensures scopes[v].Valid() && scopes[v].State() == old(scopes[v].State())
        ensures scopes[v].Wires() == old(scopes[v].Wires())
      {
      }
      label between:
      scopes[to].Accept(m);
      forall v | 0 <= v < |scopes| && v != to
        ensures scopes[v].Valid() && scopes[v].State() == old@between(scopes[v].State())
        ensures scopes[v].Wires() == old@between(scopes[v].Wires())
      {
      }
      Closed();
      Opened();
      ItArrives(d, g, a, World(), w, to);
      Note(Arrives(w, to));
    }

    // ---- what workers can rely on ----

    /** While a capability is held or a message not consumed anywhere, no worker's frontier excludes a time
        that a chain of steps, along edges and across operators, leads to from it. */
    lemma Safe(v: nat, p: Point<T>, q: Point<T>, ps: seq<Point<T>>)
      requires Valid() && v < |scopes| && LawfulTimes(d) && WellFormed(g) && !HasDefaultCycle(g, d.zero)
      requires Capabilities(PointsOf(d, g), init)
      requires Existing(World(), p) > 0 && ChainFrom(d, g, p, q, ps)
      ensures q.0 in scopes[v].tracker.View()
      ensures exists f :: f in scopes[v].tracker.View()[q.0].frontier && d.order.le(f, q.1)
    {
      hide *;
      Split();
      Opened();
      StateIs(scopes[v]);
      HistorySize(d, g, |scopes|, init, events, worlds);
      var path := PathOfChain(d, g, p, q, ps);
      LeadingIs(d, g, p, q, path);
      WorldSafe(d, g, |scopes|, init, events, worlds, |events|, v, p, path, q.0);
      AdmitsMeans(d.order, scopes[v].tracker.View(), q.0, q.1);
    }

    /** A time that a worker's frontier excluded before, it excludes now. */
    lemma Advances(i: nat, v: nat, to: Location, u: T)
      requires Valid() && v < |scopes| && LawfulTimes(d) && WellFormed(g) && !HasDefaultCycle(g, d.zero)
      requires Capabilities(PointsOf(d, g), init) && i < |worlds| && Sized(worlds[i], |scopes|)
      requires Admits(d.order, scopes[v].tracker.View(), to, u)
      ensures Admits(d.order, worlds[i].workers[v].view, to, u)
    {
      hide *;
      Split();
      Opened();
      StateIs(scopes[v]);
      HistorySize(d, g, |scopes|, init, events, worlds);
      WorldAdvances(d, g, |scopes|, init, events, worlds, i, |events|, v, to, u);
    }
  }

  lemma AdmitsMeans<T(!new)>(o: Order<T>, view: View<T>, to: Location, u: T)
    requires Admits(o, view, to, u)
    ensures to in view && exists f :: f in view[to].frontier && o.le(f, u)
  {
    var i :| 0 <= i < |view[to].frontier| && o.le(view[to].frontier[i], u);
    assert view[to].frontier[i] in view[to].frontier;
  }

  lemma LeadingIs<T(!new), S(!new)>(d: Domain<T, S>, g: Graph<S>, p: Point<T>, q: Point<T>, path: seq<Hop<S>>)
    requires Leading(d, g, p, q, path)
    ensures IsPath(g, p.0, path, q.0) && Along(d, path, p.1) == Some(q.1)
  {
  }

  lemma ItTransmits<T(!new), S(!new)>(d: Domain<T, S>, g: Graph<S>, a: World<T>, b: World<T>, w: nat,
                                      sent: Batch<Point<T>>)
    requires Sized(a, |a.workers|) && Sized(b, |a.workers|) && w < |a.workers|
    requires b.held == a.held && b.messages == a.messages
    requires SameTally(sent, a.workers[w].local) && b.workers[w] == Relieved(a.workers[w], sent)
    requires forall v :: 0 <= v < |a.workers| ==> b.wires[w][v] == a.wires[w][v] + News(w, a.workers[w].counter, sent)
    requires forall v :: 0 <= v < |a.workers| && v != w ==> b.wires[v] == a.wires[v] && b.workers[v] == a.workers[v]
    ensures Happens(d, g, a, Transmits(w, sent), b)
  {
    hide SameTally;
    assert b.wires == a.wires[w := b.wires[w]] && b.workers == a.workers[w := b.workers[w]];
  }

  lemma ItWithholds<T(!new), S(!new)>(d: Domain<T, S>, g: Graph<S>, a: World<T>, b: World<T>, w: nat)
    requires Sized(a, |a.workers|) && Sized(b, |a.workers|) && w < |a.workers|
    requires b.held == a.held && b.messages == a.messages && SameTally(b.workers[w].local, a.workers[w].local)
    requires b.workers[w] == a.workers[w].(local := b.workers[w].local)
    requires forall v :: 0 <= v < |a.workers| ==> b.wires[v] == a.wires[v] && (v != w ==> b.workers[v] == a.workers[v])
    ensures Happens(d, g, a, Withholds(w), b)
  {
    hide SameTally;
    assert b.wires == a.wires && b.workers == a.workers[w := b.workers[w]];
  }

  lemma ItReports<T(!new), S(!new)>(d: Domain<T, S>, g: Graph<S>, a: World<T>, b: World<T>, event: Event<T>)
    requires Sized(a, |a.workers|) && Sized(b, |a.workers|) && event.Reports? && event.worker < |a.workers|
    requires Legal(PointsOf(d, g), a.held[event.worker], a.messages, event.consumed, event.internal, event.produced)
    requires b.held == a.held[event.worker := a.held[event.worker] + event.internal]
    requires b.messages == a.messages + Negated(event.consumed) + event.produced
    requires b.workers[event.worker] == a.workers[event.worker].(local := b.workers[event.worker].local)
    requires Gained(b.workers[event.worker].local, a.workers[event.worker].local,
                    Changes(event.consumed, event.internal, event.produced))
    requires forall v :: 0 <= v < |a.workers| ==>
               b.wires[v] == a.wires[v] && (v != event.worker ==> b.workers[v] == a.workers[v])
    ensures Happens(d, g, a, event, b)
  {
    hide Legal;
    hide Gained;
    assert b.wires == a.wires && b.workers == a.workers[event.worker := b.workers[event.worker]];
  }

  lemma ItArrives<T(!new), S(!new)>(d: Domain<T, S>, g: Graph<S>, a: World<T>, b: World<T>, w: nat, to: nat)
    requires Sized(a, |a.workers|) && Sized(b, |a.workers|) && w < |a.workers| && to < |a.workers|
    requires b.held == a.held && b.messages == a.messages && a.wires[w][to] != []
    requires b.workers[to] == a.workers[to].(inbox := a.workers[to].inbox + [a.wires[w][to][0]])
    requires b.wires[w] == a.wires[w][to := a.wires[w][to][1..]]
    requires forall v :: 0 <= v < |a.workers| && v != w ==> b.wires[v] == a.wires[v]
    requires forall v :: 0 <= v < |a.workers| && v != to ==> b.workers[v] == a.workers[v]
    ensures Happens(d, g, a, Arrives(w, to), b)
  {
    assert b.wires == a.wires[w := b.wires[w]] && b.workers == a.workers[to := b.workers[to]];
  }

  lemma InnerAll<T(!new), S(!new)>(g: Graph<S>, us: Batch<Point<T>>, inputs: nat, outputs: nat)
    requires forall q :: q in Keys(us) ==> Has(g, q.0) && q.0.node != 0
    ensures InnerOf(us) == us && forall q :: q in Keys(us) ==> Placeable(g, q, inputs, outputs)
  {
    if us != [] {
      var last := |us| - 1;
      assert us == us[..last] + [us[last]] && us[last].0 in Keys(us);
      assert forall q :: q in Keys(us[..last]) ==> q in Keys(us);
      InnerAll(g, us[..last], inputs, outputs);
    }
  }

  lemma HistorySize<T(!new), S(!new)>(d: Domain<T, S>, g: Graph<S>, n: nat, init: Batch<Point<T>>,
                                      events: seq<Event<T>>, worlds: seq<World<T>>)
    requires History(d, g, n, init, events, worlds)
    ensures |worlds| == |events| + 1
  {
  }

  lemma ContentsSize<T(!new)>(batches: seq<ChangeBatch<T>>)
    ensures |Contents(batches)| == |batches|
  {
  }

  /** What an operator shares is not part of any worker. */
  ghost predicate AllApart<T(!new), S(!new), O(!new)>(scopes: seq<Scope<T, S>>, shared: SharedProgress<O>) {
    forall v :: 0 <= v < |scopes| ==>
      scopes[v].Apart(shared.consumeds) && scopes[v].Apart(shared.internals) && scopes[v].Apart(shared.produceds)
  }

  lemma AllApartFrom<T(!new), S(!new), O(!new)>(scopes: seq<Scope<T, S>>, shared: SharedProgress<O>)
    requires AllApart(scopes, shared)
    ensures forall v :: 0 <= v < |scopes| ==>
              scopes[v].Apart(shared.consumeds) && scopes[v].Apart(shared.internals) &&
              scopes[v].Apart(shared.produceds)
    ensures forall v :: 0 <= v < |scopes| ==> scopes[v].Parts() !! Batches(shared)
  {
    forall v | 0 <= v < |scopes| ensures scopes[v].Parts() !! Batches(shared) {
      NotBatches(scopes[v].progcaster, shared.consumeds);
      NotBatches(scopes[v].progcaster, shared.internals);
      NotBatches(scopes[v].progcaster, shared.produceds);
    }
  }

  ghost function Batches<T(!new)>(shared: SharedProgress<T>): set<object> {
    (set b | b in shared.consumeds) + (set b | b in shared.internals) + (set b | b in shared.produceds)
  }

  lemma BatchesIs<T(!new)>(shared: SharedProgress<T>)
    ensures forall x: object :: x in shared.consumeds || x in shared.internals || x in shared.produceds ==>
              x in Batches(shared)
  {
  }

  /** How a worker starts: all initial capabilities counted, and nothing arrived, sent or to be sent. */
  ghost predicate Starts<T(!new), S(!new)>(d: Domain<T, S>, g: Graph<S>, all: Batch<Point<T>>, a: Worker<T>,
                                           wires: seq<seq<Message<Point<T>>>>) {
    BeginsOne(d, g, all, a) && forall v :: 0 <= v < |wires| ==> wires[v] == []
  }

  lemma ItBegins<T(!new), S(!new)>(d: Domain<T, S>, g: Graph<S>, n: nat, init: Batch<Point<T>>, a: World<T>)
    requires Sized(a, n) && a.held == seq(n, w => init) && a.messages == []
    requires forall w :: 0 <= w < n ==> Starts(d, g, Copies(init, n), a.workers[w], a.wires[w])
    ensures History(d, g, n, init, [], [a])
  {
    hide BeginsOne;
  }

  lemma HistoryOn<T(!new), S(!new)>(d: Domain<T, S>, g: Graph<S>, n: nat, init: Batch<Point<T>>, events: seq<Event<T>>,
                                    worlds: seq<World<T>>, event: Event<T>, b: World<T>)
    requires History(d, g, n, init, events, worlds) && Sized(b, n) && Happens(d, g, worlds[|events|], event, b)
    ensures History(d, g, n, init, events + [event], worlds + [b]) && |worlds| == |events| + 1
  {
    hide Happens;
    hide Begins;
    var all, every := events + [event], worlds + [b];
    forall i | 0 <= i < |all| ensures Happens(d, g, every[i], all[i], every[i + 1]) {
      if i < |events| {
        assert Happens(d, g, worlds[i], events[i], worlds[i + 1]);
      }
    }
  }

  lemma ItTakesIn<T(!new), S(!new)>(d: Domain<T, S>, g: Graph<S>, a: World<T>, b: World<T>, w: nat)
    requires Sized(a, |a.workers|) && Sized(b, |a.workers|) && w < |a.workers|
    requires b.held == a.held && b.messages == a.messages &&
             TookIn(d, g, AllChanges(a.workers[w].inbox), a.workers[w], b.workers[w])
    requires forall v :: 0 <= v < |a.workers| ==> b.wires[v] == a.wires[v] && (v != w ==> b.workers[v] == a.workers[v])
    ensures Happens(d, g, a, TakesIn(w), b)
  {
    hide TookIn;
    assert b.wires == a.wires && b.workers == a.workers[w := b.workers[w]];
  }

  lemma Owns<T(!new), S(!new)>(scopes: seq<Scope<T, S>>, w: nat)
    requires w < |scopes|
    ensures scopes[w].Parts() <= AllParts(scopes)
    ensures Footprint(scopes[w].tracker.ports) <= AllParts(scopes)
    ensures forall b :: b in scopes[w].tracker.outputChanges ==> b in AllParts(scopes)
    ensures forall c :: c in scopes[w].progcaster.pushers ==> c in AllParts(scopes)
  {
    TrackerOwns(scopes[w].tracker);
    assert forall x :: x in scopes[w].Parts() ==> x in AllParts(scopes);
  }

  /** What being wired means for a worker. */
  lemma WiredAll<T(!new), S(!new)>(d: Domain<T, S>, g: Graph<S>, scopes: seq<Scope<T, S>>, w: nat)
    requires Wired(d, g, scopes) && w < |scopes|
    ensures scopes[w].tracker.d == d && scopes[w].tracker.g == g && scopes[w].progcaster.source == w
    ensures forall v :: 0 <= v < |scopes| ==> |scopes[v].progcaster.pushers| == |scopes|
    ensures forall v :: 0 <= v < |scopes| && v != w ==> scopes[w].Parts() !! scopes[v].Parts()
    ensures forall v :: 0 <= v < |scopes| ==> scopes[v].Parts() <= AllParts(scopes)
  {
    hide Scope.Parts;
    assert forall v :: 0 <= v < |scopes| ==> WiredOne(d, g, scopes[v], v, |scopes|);
  }

  lemma StateIs<T(!new), S(!new)>(scope: Scope<T, S>)
    ensures scope.State().inbox == scope.progcaster.puller.queue && scope.State().local == scope.local.updates
    ensures scope.State().counter == scope.progcaster.counter && scope.State().view == scope.tracker.View()
  {
  }

  lemma OwnsParts<T(!new), S(!new)>(scope: Scope<T, S>)
    ensures scope.tracker.Repr() <= scope.Parts() && scope.local in scope.Parts() && scope.pending in scope.Parts()
    ensures scope.progcaster in scope.Parts() && scope.progcaster.puller in scope.Parts()
    ensures forall o: object :: o in scope.progcaster.pushers ==> o in scope.Parts()
    ensures Footprint(scope.tracker.ports) <= scope.Parts()
    ensures forall b :: b in scope.tracker.outputChanges ==> b in scope.Parts()
    ensures forall x :: x in scope.Parts() ==> allocated(x)
  {
    TrackerOwns(scope.tracker);
  }

  lemma AllAllocated<T(!new), S(!new)>(scopes: seq<Scope<T, S>>)
    ensures forall x :: x in AllParts(scopes) ==> allocated(x)
  {
    forall w | 0 <= w < |scopes| ensures forall x :: x in scopes[w].Parts() ==> allocated(x) {
      TrackerOwns(scopes[w].tracker);
    }
  }
}
