/** Progress tracking end to end: broadcast, and then propagation. */
module EndToEnd {
  import opened Updates
  import opened Orders
  import opened Sums
  import opened Timestamps
  import opened Graphs
  import opened Digraphs
  import opened Propagation
  import opened Locality
  import opened Justify
  import opened Broadcast
  import opened Delivery
  import opened Soundness

  /** Pointstamps of a dataflow graph: messages are at inputs of operators, capabilities at outputs. */
  ghost function PointsOf<T(!new), S(!new)>(d: Domain<T, S>, g: Graph<S>): Points<Point<T>> {
    Points((q: Point<T>, p: Point<T>) => CouldResultIn(d, g, q, p), (p: Point<T>) => p.0.port.TargetPort?)
  }

  /** A path that leaves a time as it is has default hops only. */
  lemma {:induction false} UnchangedDefault<T(!new), S(!new)>(d: Domain<T, S>, path: seq<Hop<S>>, t: T)
    requires LawfulTimes(d) && Along(d, path, t) == Some(t)
    ensures AllDefault(d.zero, path)
  {
    if path != [] {
      ActInflates(d, path[0], t);
      AlongInflates(d, path[1..], Act(d, path[0], t).value);
      UnchangedDefault(d, path[1..], t);
    }
  }

  /** Points that could result in each other are the same. */
  lemma LeadsBack<T(!new), S(!new)>(d: Domain<T, S>, g: Graph<S>, rank: map<Location, nat>, q: Point<T>, p: Point<T>,
                                    one: seq<Hop<S>>, two: seq<Hop<S>>)
    requires LawfulTimes(d) && WellFormed(g) && Ranked(g, d.zero, rank)
    requires Leads(d, g, q, p, one) && Leads(d, g, p, q, two)
    ensures q == p
  {
    AlongInflates(d, one, q.1);
    AlongInflates(d, two, p.1);
    assert q.1 == p.1;
    UnchangedDefault(d, one, q.1);
    UnchangedDefault(d, two, p.1);
    if one != [] {
      assert one[0] in Hops(g, q.0);
      DefaultPathClimbs(g, d.zero, rank, q.0, one, p.0);
      DefaultPathClimbs(g, d.zero, rank, p.0, two, q.0);
    }
  }

  /** Without cycles of default hops, could-result-in is a partial order. */
  lemma CouldResultInPartial<T(!new), S(!new)>(d: Domain<T, S>, g: Graph<S>, rank: map<Location, nat>)
    requires LawfulTimes(d) && WellFormed(g) && Ranked(g, d.zero, rank)
    ensures PartialOrder(PointsOf(d, g).le)
  {
    hide LawfulTimes;
    hide WellFormed;
    hide Ranked;
    hide Leads;
    forall p: Point<T> ensures CouldResultIn(d, g, p, p) {
      LeadsNowhere(d, g, p);
    }
    forall p, q | CouldResultIn(d, g, q, p) && CouldResultIn(d, g, p, q) ensures q == p {
      var one :| Leads(d, g, q, p, one);
      var two :| Leads(d, g, p, q, two);
      LeadsBack(d, g, rank, q, p, one, two);
    }
    forall p, q, r | CouldResultIn(d, g, q, p) && CouldResultIn(d, g, p, r) ensures CouldResultIn(d, g, q, r) {
      var one :| Leads(d, g, q, p, one);
      var two :| Leads(d, g, p, r, two);
      LeadsOn(d, g, q, p, r, one, two);
    }
  }

  // ---- what operators do is legal ----

  /** A path of at least one hop leads to another point. */
  lemma PathLeaves<T(!new), S(!new)>(d: Domain<T, S>, g: Graph<S>, rank: map<Location, nat>, q: Point<T>, p: Point<T>,
                                     path: seq<Hop<S>>)
    requires LawfulTimes(d) && WellFormed(g) && Ranked(g, d.zero, rank) && Leads(d, g, q, p, path) && path != []
    ensures q != p
  {
    if q == p {
      AlongInflates(d, path, q.1);
      UnchangedDefault(d, path, q.1);
      assert path[0] in Hops(g, q.0);
      DefaultPathClimbs(g, d.zero, rank, q.0, path, p.0);
    }
  }

  /** A consumed message, or a held capability, accounts for whatever a path leads to from it. */
  lemma PathGrounds<T(!new), S(!new)>(d: Domain<T, S>, g: Graph<S>, rank: map<Location, nat>, held: Batch<Point<T>>,
                                      consumed: Batch<Point<T>>, q: Point<T>, p: Point<T>, path: seq<Hop<S>>)
    requires LawfulTimes(d) && WellFormed(g) && Ranked(g, d.zero, rank) && Leads(d, g, q, p, path)
    requires if q.0.port.TargetPort? then path != [] && Tally(consumed, q) > 0 else Tally(held, q) > 0
    ensures Grounded(PointsOf(d, g), held, consumed, p)
  {
    if path != [] {
      PathLeaves(d, g, rank, q, p, path);
    }
    assert Grounds(PointsOf(d, g), held, consumed, p, q);
  }

  /** An operator may hold a capability at an output for what its summary makes of a consumed message,
      and may send messages from there along an edge. */
  lemma ArrivalGrounds<T(!new), S(!new)>(d: Domain<T, S>, g: Graph<S>, rank: map<Location, nat>, held: Batch<Point<T>>,
                                         consumed: Batch<Point<T>>, node: nat, input: nat, output: nat, s: S, t: T,
                                         u: T, edge: nat)
    requires LawfulTimes(d) && WellFormed(g) && Ranked(g, d.zero, rank)
    requires HasTarget(g, node, input) && output < |g.nodes[node][input]| && s in g.nodes[node][input][output]
    requires Tally(consumed, (Location(node, TargetPort(input)), t)) > 0
    requires d.results(s, t).Some? && d.order.le(d.results(s, t).value, u)
    ensures Grounded(PointsOf(d, g), held, consumed, (Location(node, SourcePort(output)), u))
    ensures output < |g.edges[node]| && edge < |g.edges[node][output]| ==>
              Grounded(PointsOf(d, g), held, consumed, (FromTarget(g.edges[node][output][edge]), u))
  {
    var q := (Location(node, TargetPort(input)), t);
    var across := Hop(Location(node, SourcePort(output)), Some(s));
    NodeHopsLead(node, g.nodes[node][input], |g.nodes[node][input]|, across);
    assert across in Hops(g, q.0);
    LeadsOne(d, g, q, across, u);
    PathGrounds(d, g, rank, held, consumed, q, (across.to, u), [across]);
    if output < |g.edges[node]| && edge < |g.edges[node][output]| {
      var along: Hop<S> := Hop(FromTarget(g.edges[node][output][edge]), None);
      assert EdgeHops<S>(g.edges[node][output])[edge] == along;
      assert along in Hops(g, across.to);
      assert d.order.le(u, u);
      LeadsOne(d, g, (across.to, u), along, u);
      LeadsOn(d, g, q, (across.to, u), (along.to, u), [across], [along]);
      PathGrounds(d, g, rank, held, consumed, q, (along.to, u), [across] + [along]);
    }
  }

  /** From a held capability, an operator may send messages along an edge, and derive later capabilities. */
  lemma HeldGrounds<T(!new), S(!new)>(d: Domain<T, S>, g: Graph<S>, rank: map<Location, nat>, held: Batch<Point<T>>,
                                      consumed: Batch<Point<T>>, node: nat, output: nat, t: T, u: T, edge: nat)
    requires LawfulTimes(d) && WellFormed(g) && Ranked(g, d.zero, rank)
    requires Tally(held, (Location(node, SourcePort(output)), t)) > 0 && d.order.le(t, u)
    ensures Grounded(PointsOf(d, g), held, consumed, (Location(node, SourcePort(output)), u))
    ensures HasSource(g, node, output) && edge < |g.edges[node][output]| ==>
              Grounded(PointsOf(d, g), held, consumed, (FromTarget(g.edges[node][output][edge]), u))
  {
    var q := (Location(node, SourcePort(output)), t);
    assert Leads(d, g, q, (q.0, u), []);
    PathGrounds(d, g, rank, held, consumed, q, (q.0, u), []);
    if HasSource(g, node, output) && edge < |g.edges[node][output]| {
      var along: Hop<S> := Hop(FromTarget(g.edges[node][output][edge]), None);
      assert EdgeHops<S>(g.edges[node][output])[edge] == along;
      assert along in Hops(g, q.0);
      LeadsOne(d, g, q, along, u);
      PathGrounds(d, g, rank, held, consumed, q, (along.to, u), [along]);
    }
  }

  // ---- the end-to-end theorems ----

  /** A worker's tracker has taken in exactly what the worker received, and has settled. */
  ghost predicate Tracks<T(!new), S(!new)>(d: Domain<T, S>, g: Graph<S>, view: View<T>, received: Batch<Point<T>>) {
    Settled(d, g, view) && forall q: Point<T> :: PointCount(view, q) == Tally(received, q)
  }

  /** The frontier at `to` still admits time `u`. */
  ghost predicate Admits<T(!new)>(o: Order<T>, view: View<T>, to: Location, u: T) {
    to in view && AnyLessEqual(o.le, view[to].frontier, u)
  }

  /** A settled frontier admits exactly what a positive received count could result in. */
  lemma AdmitsCovered<T(!new), S(!new)>(d: Domain<T, S>, g: Graph<S>, rank: map<Location, nat>, view: View<T>,
                                        received: Batch<Point<T>>, to: Location, u: T)
    requires LawfulTimes(d) && WellFormed(g) && Ranked(g, d.zero, rank) && Tracks(d, g, view, received)
    ensures Admits(d.order, view, to, u) <==> Covers(PointsOf(d, g), TallyOf(received), (to, u))
  {
    if Admits(d.order, view, to, u) {
      AdmittedIsCovered(d, g, rank, view, received, to, u);
    }
    if Covers(PointsOf(d, g), TallyOf(received), (to, u)) {
      CoveredIsAdmitted(d, g, view, received, to, u);
    }
  }

  lemma AdmittedIsCovered<T(!new), S(!new)>(d: Domain<T, S>, g: Graph<S>, rank: map<Location, nat>, view: View<T>,
                                            received: Batch<Point<T>>, to: Location, u: T)
    requires LawfulTimes(d) && Ranked(g, d.zero, rank) && Tracks(d, g, view, received)
    requires Admits(d.order, view, to, u)
    ensures Covers(PointsOf(d, g), TallyOf(received), (to, u))
  {
    var i :| 0 <= i < |view[to].frontier| && d.order.le(view[to].frontier[i], u);
    var f := view[to].frontier[i];
    assert (to, f) in Implied(view);
    Exactness(d, g, rank, view, (to, f));
    var l, t, path :| ReachedBy(d, g, view, to, f, l, t, path);
    HeldPositive(d.order, view, (l, t));
    assert Leads(d, g, (l, t), (to, u), path);
    assert CoveredBy(PointsOf(d, g), TallyOf(received), (to, u), (l, t));
  }

  lemma CoveredIsAdmitted<T(!new), S(!new)>(d: Domain<T, S>, g: Graph<S>, view: View<T>, received: Batch<Point<T>>,
                                            to: Location, u: T)
    requires LawfulTimes(d) && WellFormed(g) && Tracks(d, g, view, received)
    requires Covers(PointsOf(d, g), TallyOf(received), (to, u))
    ensures Admits(d.order, view, to, u)
  {
    var q :| CoveredBy(PointsOf(d, g), TallyOf(received), (to, u), q);
    var path :| Leads(d, g, q, (to, u), path);
    assert q == (q.0, q.1);
    Safety(d, g, view, q.0, q.1, path, to);
    LessEqualTrans(d.order.le, view[to].frontier, Along(d, path, q.1).value, u);
  }

  /** End to end safety: as long as a capability or a message is outstanding at any worker, no worker's
      frontier anywhere excludes a time that it could still give rise to. */
  lemma FrontiersSafe<T(!new), S(!new)>(d: Domain<T, S>, g: Graph<S>, rank: map<Location, nat>, n: nat,
                                        init: Batch<Point<T>>, steps: seq<Step<Point<T>>>,
                                        states: seq<System<Point<T>>>, i: nat, v: nat, view: View<T>, p: Point<T>,
                                        path: seq<Hop<S>>, to: Location)
    requires LawfulTimes(d) && WellFormed(g) && Ranked(g, d.zero, rank) && Capabilities(PointsOf(d, g), init)
    requires Run(PointsOf(d, g), n, init, steps, states) && i < |states| && v < n == |states[i].received|
    requires Tracks(d, g, view, states[i].received[v])
    requires Outstanding(states[i], p) > 0 && IsPath(g, p.0, path, to) && Along(d, path, p.1).Some?
    ensures Admits(d.order, view, to, Along(d, path, p.1).value)
  {
    hide Run;
    hide Ranked;
    hide WellFormed;
    hide Tracks;
    hide Covers;
    hide Outstanding;
    hide IsPath;
    hide Capabilities;
    CouldResultInPartial(d, g, rank);
    BroadcastSafety(PointsOf(d, g), n, init, steps, states, i, v, p);
    var r := (to, Along(d, path, p.1).value);
    assert Leads(d, g, p, r, path);
    CoversAbove(PointsOf(d, g), TallyOf(states[i].received[v]), p, r);
    CoveredIsAdmitted(d, g, view, states[i].received[v], to, r.1);
  }

  /** End to end progress is one way: a time that a worker's frontier excludes, it excludes for good. */
  lemma FrontiersAdvance<T(!new), S(!new)>(d: Domain<T, S>, g: Graph<S>, rank: map<Location, nat>, n: nat,
                                           init: Batch<Point<T>>, steps: seq<Step<Point<T>>>,
                                           states: seq<System<Point<T>>>, i: nat, j: nat, v: nat, before: View<T>,
                                           after: View<T>, to: Location, u: T)
    requires LawfulTimes(d) && WellFormed(g) && Ranked(g, d.zero, rank) && Capabilities(PointsOf(d, g), init)
    requires Run(PointsOf(d, g), n, init, steps, states) && i <= j < |states| &&
             v < n == |states[i].received| == |states[j].received|
    requires Tracks(d, g, before, states[i].received[v]) && Tracks(d, g, after, states[j].received[v])
    requires Admits(d.order, after, to, u)
    ensures Admits(d.order, before, to, u)
  {
    hide Run;
    hide Ranked;
    hide WellFormed;
    hide Tracks;
    hide Covers;
    hide Admits;
    hide Capabilities;
    CouldResultInPartial(d, g, rank);
    AdmitsCovered(d, g, rank, after, states[j].received[v], to, u);
    NeverRegresses(PointsOf(d, g), n, init, steps, states, i, j, v, (to, u));
    AdmitsCovered(d, g, rank, before, states[i].received[v], to, u);
  }

  /** Completion is noticed: once nothing is outstanding and all changes have arrived, all of a
      worker's frontiers are empty. */
  lemma FrontiersDrain<T(!new), S(!new)>(d: Domain<T, S>, g: Graph<S>, rank: map<Location, nat>, n: nat,
                                         init: Batch<Point<T>>, steps: seq<Step<Point<T>>>,
                                         states: seq<System<Point<T>>>, i: nat, v: nat, view: View<T>)
    requires LawfulTimes(d) && WellFormed(g) && Ranked(g, d.zero, rank) && Capabilities(PointsOf(d, g), init)
    requires Run(PointsOf(d, g), n, init, steps, states) && i < |states| && Shaped(states[i]) &&
             v < n == |states[i].held|
    requires Tracks(d, g, view, states[i].received[v])
    requires forall w: nat :: w < n ==> states[i].queues[w][v] == [] && AllZero(states[i].local[w])
    requires forall p :: Outstanding(states[i], p) == 0
    ensures forall l :: l in view ==> view[l].frontier == []
  {
    hide Run;
    hide Ranked;
    hide WellFormed;
    hide Outstanding;
    hide Invariant;
    hide Capabilities;
    hide Settled;
    CouldResultInPartial(d, g, rank);
    RunKeepsInvariant(PointsOf(d, g), n, init, steps, states, i);
    forall q: Point<T> ensures PointCount(view, q) <= 0 {
      QuietIsExact(PointsOf(d, g), states[i], v, q);
    }
    AllDrained(d, g, rank, view);
  }
}
