/** What paths are, step by step, in terms of edges and summaries. */
module Chains {
  import opened Orders
  import opened Timestamps
  import opened Graphs
  import opened Propagation
  import opened Phantoms

  /** A time follows an edge, unchanged. */
  ghost predicate AlongEdge<T(!new), S(!new)>(g: Graph<S>, p: Point<T>, q: Point<T>, k: nat) {
    && p.0.port.SourcePort? && p.0.node < |g.edges| && p.0.port.index < |g.edges[p.0.node]|
    && k < |g.edges[p.0.node][p.0.port.index]|
    && q.0.port.TargetPort? && g.edges[p.0.node][p.0.port.index][k] == Target(q.0.node, q.0.port.index)
    && q.1 == p.1
  }

  /** A time crosses an operator, by one of its summaries. */
  ghost predicate AcrossNode<T(!new), S(!new)>(d: Domain<T, S>, g: Graph<S>, p: Point<T>, q: Point<T>, k: nat) {
    && p.0.port.TargetPort? && p.0.node < |g.nodes| && p.0.port.index < |g.nodes[p.0.node]|
    && q.0.port.SourcePort? && q.0.node == p.0.node && q.0.port.index < |g.nodes[p.0.node][p.0.port.index]|
    && k < |g.nodes[p.0.node][p.0.port.index][q.0.port.index]|
    && d.results(g.nodes[p.0.node][p.0.port.index][q.0.port.index][k], p.1) == Some(q.1)
  }

  ghost predicate Step<T(!new), S(!new)>(d: Domain<T, S>, g: Graph<S>, p: Point<T>, q: Point<T>) {
    exists k :: AlongEdge(g, p, q, k) || AcrossNode(d, g, p, q, k)
  }

  /** Points each of which is one step from the one before. */
  ghost predicate Chain<T(!new), S(!new)>(d: Domain<T, S>, g: Graph<S>, ps: seq<Point<T>>) {
    ps != [] && forall i :: 0 <= i < |ps| - 1 ==> Step(d, g, ps[i], ps[i + 1])
  }

  ghost predicate ChainFrom<T(!new), S(!new)>(d: Domain<T, S>, g: Graph<S>, p: Point<T>, q: Point<T>,
                                              ps: seq<Point<T>>) {
    Chain(d, g, ps) && ps[0] == p && ps[|ps| - 1] == q
  }

  ghost predicate Leading<T(!new), S(!new)>(d: Domain<T, S>, g: Graph<S>, p: Point<T>, q: Point<T>, path: seq<Hop<S>>) {
    IsPath(g, p.0, path, q.0) && Along(d, path, p.1) == Some(q.1)
  }

  /** One hop is one step. */
  lemma HopStep<T(!new), S(!new)>(d: Domain<T, S>, g: Graph<S>, p: Point<T>, q: Point<T>)
    requires WellFormed(g)
    ensures Step(d, g, p, q) <==> exists h :: h in Hops(g, p.0) && h.to == q.0 && Act(d, h, p.1) == Some(q.1)
  {
    if h :| h in Hops(g, p.0) && h.to == q.0 && Act(d, h, p.1) == Some(q.1) {
      StepOfHop(d, g, p, q, h);
    }
    if k :| AlongEdge(g, p, q, k) || AcrossNode(d, g, p, q, k) {
      var h := HopOfStep(d, g, p, q, k);
    }
  }

  lemma StepOfHop<T(!new), S(!new)>(d: Domain<T, S>, g: Graph<S>, p: Point<T>, q: Point<T>, h: Hop<S>)
    requires WellFormed(g) && h in Hops(g, p.0) && h.to == q.0 && Act(d, h, p.1) == Some(q.1)
    ensures Step(d, g, p, q)
  {
    match p.0.port
    case SourcePort(o) =>
      var targets := g.edges[p.0.node][o];
      var k :| 0 <= k < |targets| && EdgeHops<S>(targets)[k] == h;
      assert AlongEdge(g, p, q, k);
    case TargetPort(i) =>
      var outputs := g.nodes[p.0.node][i];
      NodeHopsLead(p.0.node, outputs, |outputs|, h);
      var k :| 0 <= k < |outputs[q.0.port.index]| && outputs[q.0.port.index][k] == h.via.value;
      assert AcrossNode(d, g, p, q, k);
  }

  lemma HopOfStep<T(!new), S(!new)>(d: Domain<T, S>, g: Graph<S>, p: Point<T>, q: Point<T>, k: nat) returns (h: Hop<S>)
    requires WellFormed(g) && (AlongEdge(g, p, q, k) || AcrossNode(d, g, p, q, k))
    ensures h in Hops(g, p.0) && h.to == q.0 && Act(d, h, p.1) == Some(q.1)
  {
    match p.0.port
    case SourcePort(o) =>
      h := EdgeHops<S>(g.edges[p.0.node][o])[k];
    case TargetPort(i) =>
      var outputs := g.nodes[p.0.node][i];
      h := Hop(q.0, Some(outputs[q.0.port.index][k]));
      NodeHopsLead(p.0.node, outputs, |outputs|, h);
  }

  lemma {:induction false} ChainOfPath<T(!new), S(!new)>(d: Domain<T, S>, g: Graph<S>, p: Point<T>, q: Point<T>,
                                                         path: seq<Hop<S>>) returns (ps: seq<Point<T>>)
    requires WellFormed(g) && Leading(d, g, p, q, path)
    ensures ChainFrom(d, g, p, q, ps) && |ps| == |path| + 1
    decreases |path|
  {
    if path == [] {
      ps := [p];
      assert p == (p.0, p.1) && q == (q.0, q.1);
    } else {
      var r := (path[0].to, Act(d, path[0], p.1).value);
      HopStep(d, g, p, r);
      var rest := ChainOfPath(d, g, r, q, path[1..]);
      ps := [p] + rest;
      forall i | 0 <= i < |ps| - 1 ensures Step(d, g, ps[i], ps[i + 1]) {
        if i > 0 {
          assert ps[i] == rest[i - 1] && ps[i + 1] == rest[i];
        }
      }
    }
  }

  lemma {:induction false} PathOfChain<T(!new), S(!new)>(d: Domain<T, S>, g: Graph<S>, p: Point<T>, q: Point<T>,
                                                         ps: seq<Point<T>>) returns (path: seq<Hop<S>>)
    requires WellFormed(g) && ChainFrom(d, g, p, q, ps)
    ensures Leading(d, g, p, q, path) && |path| == |ps| - 1
    decreases |ps|
  {
    if |ps| == 1 {
      path := [];
    } else {
      assert Step(d, g, ps[0], ps[1]);
      HopStep(d, g, p, ps[1]);
      var h :| h in Hops(g, p.0) && h.to == ps[1].0 && Act(d, h, p.1) == Some(ps[1].1);
      forall i | 0 <= i < |ps[1..]| - 1 ensures Step(d, g, ps[1..][i], ps[1..][i + 1]) {
        assert Step(d, g, ps[i + 1], ps[i + 2]);
      }
      var rest := PathOfChain(d, g, ps[1], q, ps[1..]);
      path := [h] + rest;
      assert path[1..] == rest;
    }
  }

  /** A time is the result of a path from a held pointstamp exactly if a chain of steps along edges and
      across operators leads there from one. */
  lemma ReachedExactly<T(!new), S(!new)>(d: Domain<T, S>, g: Graph<S>, v: View<T>, to: Location, t: T)
    requires WellFormed(g)
    ensures Reached(d, g, v, to, t) <==> exists p, ps :: p in Held(v) && ChainFrom(d, g, p, (to, t), ps)
  {
    hide Step;
    if Reached(d, g, v, to, t) {
      var l, u, path :| ReachedBy(d, g, v, to, t, l, u, path);
      var ps := ChainOfPath(d, g, (l, u), (to, t), path);
    }
    if p, ps :| p in Held(v) && ChainFrom(d, g, p, (to, t), ps) {
      var path := PathOfChain(d, g, p, (to, t), ps);
      assert p == (p.0, p.1) && ReachedBy(d, g, v, to, t, p.0, p.1, path);
    }
  }

  /** Some chain leads to `t` at `to` from an active pointstamp. */
  ghost predicate Comes<T(!new), S(!new)>(d: Domain<T, S>, g: Graph<S>, v: View<T>, to: Location, t: T) {
    exists p, ps :: PointCount(v, p) > 0 && ChainFrom(d, g, p, (to, t), ps)
  }

  lemma ReachedComes<T(!new), S(!new)>(d: Domain<T, S>, g: Graph<S>, v: View<T>, to: Location, t: T)
    requires WellFormed(g) && Consistent(d.order, v) && Reached(d, g, v, to, t)
    ensures Comes(d, g, v, to, t)
  {
    hide ChainFrom;
    ReachedExactly(d, g, v, to, t);
    var p, ps :| p in Held(v) && ChainFrom(d, g, p, (to, t), ps);
    HeldPositive(d.order, v, p);
  }

  /** What comes of any active pointstamp, something no later comes of a minimal one. */
  lemma ComesReached<T(!new), S(!new)>(d: Domain<T, S>, g: Graph<S>, v: View<T>, to: Location, t: T) returns (u: T)
    requires LawfulTimes(d) && WellFormed(g) && Consistent(d.order, v) && Comes(d, g, v, to, t)
    ensures Reached(d, g, v, to, u) && d.order.le(u, t)
  {
    hide ChainFrom;
    var p, ps :| PointCount(v, p) > 0 && ChainFrom(d, g, p, (to, t), ps);
    var path := PathOfChain(d, g, p, (to, t), ps);
    var m := MinimalExists(d.order, v[p.0].pointCounts, p.1);
    assert m in v[p.0].points && (p.0, m) in Held(v);
    AlongMonotone(d, path, m, p.1);
    u := Along(d, path, m).value;
    assert ReachedBy(d, g, v, to, u, p.0, m, path);
  }

  /** Without default cycles, a frontier lists exactly the minimal times that chains of steps along edges and
      across operators lead to from active pointstamps. */
  lemma FrontierChains<T(!new), S(!new)>(d: Domain<T, S>, g: Graph<S>, rank: map<Location, nat>, v: View<T>,
                                         to: Location, t: T)
    requires LawfulTimes(d) && WellFormed(g) && Ranked(g, d.zero, rank) && Settled(d, g, v) && to in v
    ensures t in v[to].frontier <==>
              Comes(d, g, v, to, t) && forall u :: Comes(d, g, v, to, u) && d.order.le(u, t) ==> u == t
  {
    hide Comes;
    hide Reached;
    hide Settled;
    FrontierExact(d, g, rank, v, to, t);
    assert Consistent(d.order, v) by { SettledConsistent(d, g, v); }
    if MinimalReached(d, g, v, to, t) {
      ReachedComes(d, g, v, to, t);
      forall u | Comes(d, g, v, to, u) && d.order.le(u, t) ensures u == t {
        var w := ComesReached(d, g, v, to, u);
        assert d.order.le(w, t) && w == t;
      }
    }
    if Comes(d, g, v, to, t) && forall u :: Comes(d, g, v, to, u) && d.order.le(u, t) ==> u == t {
      var w := ComesReached(d, g, v, to, t);
      forall u | Reached(d, g, v, to, u) ensures Comes(d, g, v, to, u) { ReachedComes(d, g, v, to, u); }
      assert w == t;
    }
  }

  lemma SettledConsistent<T(!new), S(!new)>(d: Domain<T, S>, g: Graph<S>, v: View<T>)
    requires Settled(d, g, v)
    ensures Consistent(d.order, v)
  {
  }

  /** A graph has a cycle of default hops exactly if some chain takes a time back to where it was, unchanged. */
  lemma DefaultCycleExactly<T(!new), S(!new)>(d: Domain<T, S>, g: Graph<S>, t: T)
    requires LawfulTimes(d) && WellFormed(g)
    ensures HasDefaultCycle(g, d.zero) <==> exists p, ps :: |ps| > 1 && ChainFrom(d, g, p, p, ps)
  {
    hide LawfulTimes;
    hide Step;
    if HasDefaultCycle(g, d.zero) {
      var l, path :| path != [] && AllDefault(d.zero, path) && IsPath(g, l, path, l);
      DefaultAlong(d, path, t);
      var ps := ChainOfPath(d, g, (l, t), (l, t), path);
    }
    if p, ps :| |ps| > 1 && ChainFrom(d, g, p, p, ps) {
      var path := PathOfChain(d, g, p, p, ps);
      StayingDefault(d, path, p.1);
      assert AllDefault(d.zero, path) && IsPath(g, p.0, path, p.0);
    }
  }

  /** Only default hops leave a time as it is. */
  lemma {:induction false} StayingDefault<T(!new), S(!new)>(d: Domain<T, S>, path: seq<Hop<S>>, t: T)
    requires LawfulTimes(d) && Along(d, path, t) == Some(t)
    ensures AllDefault(d.zero, path)
  {
    if path != [] {
      var u := Act(d, path[0], t).value;
      ActInflates(d, path[0], t);
      AlongInflates(d, path[1..], u);
      assert d.order.le(t, u) && d.order.le(u, t);
      assert u == t;
      StayingDefault(d, path[1..], t);
      assert path == [path[0]] + path[1..];
    }
  }
}
