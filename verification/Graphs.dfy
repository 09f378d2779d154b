/** Dataflow graphs: operators with ports, internal summaries, and edges between ports. */
module Graphs {
  import opened Updates
  import opened Orders
  import opened Sums
  import opened Timestamps

  datatype Port = TargetPort(index: nat) | SourcePort(index: nat)

  datatype Location = Location(node: nat, port: Port)

  datatype Target = Target(node: nat, port: nat)

  function FromTarget(t: Target): Location {
    Location(t.node, TargetPort(t.port))
  }

  /** The derived order on ports: targets before sources, then by index. */
  predicate PortLess(p: Port, q: Port) {
    (p.TargetPort? && q.SourcePort?) || (p.TargetPort? == q.TargetPort? && p.index < q.index)
  }

  /** The derived order on locations: by node, then by port. */
  predicate LocationLess(l: Location, k: Location) {
    l.node < k.node || (l.node == k.node && PortLess(l.port, k.port))
  }

  /** Operators in order; of one operator its inputs in order, and then its outputs. */
  lemma LocationOrder(m: nat, n: nat, i: nat, j: nat, p: Port, q: Port)
    ensures m < n ==> LocationLess(Location(m, p), Location(n, q))
    ensures LocationLess(Location(m, TargetPort(i)), Location(m, SourcePort(j)))
    ensures i < j <==> LocationLess(Location(m, TargetPort(i)), Location(m, TargetPort(j)))
    ensures i < j <==> LocationLess(Location(m, SourcePort(i)), Location(m, SourcePort(j)))
  {
  }

  /** `nodes` is indexed by operator, input and output; `edges` by operator and output. */
  datatype Graph<S> = Graph(nodes: seq<seq<seq<seq<S>>>>, edges: seq<seq<seq<Target>>>)

  predicate HasTarget<S>(g: Graph<S>, node: nat, port: nat) {
    node < |g.nodes| && port < |g.nodes[node]|
  }

  predicate HasSource<S>(g: Graph<S>, node: nat, port: nat) {
    node < |g.edges| && port < |g.edges[node]|
  }

  predicate Has<S>(g: Graph<S>, l: Location) {
    match l.port
    case TargetPort(i) => HasTarget(g, l.node, i)
    case SourcePort(o) => HasSource(g, l.node, o)
  }

  /** Summaries match the numbers of ports, and edges lead to existing inputs. */
  ghost predicate WellFormed<S>(g: Graph<S>) {
    && |g.nodes| == |g.edges|
    && (forall n, i :: 0 <= n < |g.nodes| && 0 <= i < |g.nodes[n]| ==> |g.nodes[n][i]| == |g.edges[n]|)
    && (forall n, o, k :: 0 <= n < |g.edges| && 0 <= o < |g.edges[n]| && 0 <= k < |g.edges[n][o]| ==>
          HasTarget(g, g.edges[n][o][k].node, g.edges[n][o][k].port))
  }

  /** All locations of the graph. */
  function Locations<S>(g: Graph<S>): (ls: set<Location>) {
    (set n: nat, i: nat | n < |g.nodes| && i < |g.nodes[n]| :: Location(n, TargetPort(i)))
    + (set n: nat, o: nat | n < |g.edges| && o < |g.edges[n]| :: Location(n, SourcePort(o)))
  }

  lemma LocationsAll<S>(g: Graph<S>)
    ensures forall l :: l in Locations(g) <==> Has(g, l)
  {
    forall l ensures l in Locations(g) <==> Has(g, l) {
      match l.port
      case TargetPort(i) =>
        if Has(g, l) { assert l == Location(l.node, TargetPort(i)); }
      case SourcePort(o) =>
        if Has(g, l) { assert l == Location(l.node, SourcePort(o)); }
    }
  }

  /** One step a time can take: along an edge, or across an operator under a summary. */
  datatype Hop<S> = Hop(to: Location, via: Option<S>)

  function EdgeHops<S>(targets: seq<Target>): (hs: seq<Hop<S>>)
    ensures |hs| == |targets|
    ensures forall k :: 0 <= k < |hs| ==> hs[k] == Hop(FromTarget(targets[k]), None)
  {
    seq(|targets|, k requires 0 <= k < |targets| => Hop(FromTarget(targets[k]), None))
  }

  function SummaryHops<S>(node: nat, output: nat, summaries: seq<S>): (hs: seq<Hop<S>>)
    ensures |hs| == |summaries|
    ensures forall k :: 0 <= k < |hs| ==> hs[k] == Hop(Location(node, SourcePort(output)), Some(summaries[k]))
  {
    seq(|summaries|, k requires 0 <= k < |summaries| => Hop(Location(node, SourcePort(output)), Some(summaries[k])))
  }

  /** The hops across an operator, for its outputs below `n`. */
  function NodeHops<S>(node: nat, outputs: seq<seq<S>>, n: nat): seq<Hop<S>>
    requires n <= |outputs|
  {
    if n == 0 then [] else NodeHops(node, outputs, n - 1) + SummaryHops(node, n - 1, outputs[n - 1])
  }

  lemma {:induction false} NodeHopsLead<S>(node: nat, outputs: seq<seq<S>>, n: nat, h: Hop<S>)
    requires n <= |outputs|
    ensures h in NodeHops(node, outputs, n) <==>
      h.to.node == node && h.to.port.SourcePort? && h.to.port.index < n && h.via.Some? &&
      h.via.value in outputs[h.to.port.index]
  {
    if n > 0 {
      NodeHopsLead(node, outputs, n - 1, h);
      var last := SummaryHops(node, n - 1, outputs[n - 1]);
      if h.to == Location(node, SourcePort(n - 1)) && h.via.Some? && h.via.value in outputs[n - 1] {
        var k :| 0 <= k < |outputs[n - 1]| && outputs[n - 1][k] == h.via.value;
        assert last[k] == h;
      }
    }
  }

  /** All hops leaving a location. */
  function Hops<S>(g: Graph<S>, l: Location): seq<Hop<S>> {
    if !Has(g, l) then []
    else match l.port
      case TargetPort(i) => NodeHops(l.node, g.nodes[l.node][i], |g.nodes[l.node][i]|)
      case SourcePort(o) => EdgeHops(g.edges[l.node][o])
  }

  lemma HopsLead<S>(g: Graph<S>, l: Location)
    requires WellFormed(g)
    ensures forall h :: h in Hops(g, l) ==> Has(g, h.to)
  {
    if Has(g, l) {
      match l.port
      case TargetPort(i) =>
        assert |g.nodes[l.node][i]| == |g.edges[l.node]|;
        forall h | h in Hops(g, l) ensures Has(g, h.to) {
          NodeHopsLead(l.node, g.nodes[l.node][i], |g.nodes[l.node][i]|, h);
        }
      case SourcePort(o) =>
    }
  }

  /** What becomes of a time on a hop. */
  function Act<T, S>(d: Domain<T, S>, h: Hop<S>, t: T): Option<T> {
    if h.via.None? then Some(t) else d.results(h.via.value, t)
  }

  predicate IsDefault<S(==)>(zero: S, h: Hop<S>) {
    h.via.None? || h.via.value == zero
  }

  /** A time never gets smaller on a hop, and gets strictly larger on all but default ones. */
  lemma ActInflates<T(!new), S(!new)>(d: Domain<T, S>, h: Hop<S>, t: T)
    requires LawfulTimes(d)
    ensures IsDefault(d.zero, h) ==> Act(d, h, t) == Some(t)
    ensures Act(d, h, t).Some? ==> d.order.le(t, Act(d, h, t).value)
    ensures Act(d, h, t).Some? && !IsDefault(d.zero, h) ==> d.order.lt(t, Act(d, h, t).value)
  {
    assert d.order.le(t, t);
  }

  lemma ActMonotone<T(!new), S(!new)>(d: Domain<T, S>, h: Hop<S>, t: T, u: T)
    requires LawfulTimes(d) && d.order.le(t, u)
    ensures NoLater(d.order.le, Act(d, h, t), Act(d, h, u))
  {
  }

  // ---- paths ----

  /** The hops of `path` follow each other from `from` to `to`. */
  predicate IsPath<S(==)>(g: Graph<S>, from: Location, path: seq<Hop<S>>, to: Location)
    decreases path
  {
    if path == [] then from == to
    else path[0] in Hops(g, from) && IsPath(g, path[0].to, path[1..], to)
  }

  /** What becomes of a time along a path. */
  function Along<T, S>(d: Domain<T, S>, path: seq<Hop<S>>, t: T): Option<T> {
    if path == [] then Some(t)
    else
      var u := Act(d, path[0], t);
      if u.None? then None else Along(d, path[1..], u.value)
  }

  lemma {:induction false} PathAppend<S>(g: Graph<S>, from: Location, p: seq<Hop<S>>, mid: Location, q: seq<Hop<S>>,
                                         to: Location)
    requires IsPath(g, from, p, mid) && IsPath(g, mid, q, to)
    ensures IsPath(g, from, p + q, to)
    decreases p
  {
    hide Hops;
    if p == [] {
      assert p + q == q;
    } else {
      PathAppend(g, p[0].to, p[1..], mid, q, to);
      assert (p + q)[1..] == p[1..] + q;
    }
  }

  lemma {:induction false} AlongAppend<T, S>(d: Domain<T, S>, p: seq<Hop<S>>, q: seq<Hop<S>>, t: T)
    ensures Along(d, p + q, t) == (if Along(d, p, t).Some? then Along(d, q, Along(d, p, t).value) else None)
  {
    if p == [] {
      assert p + q == q;
    } else {
      assert (p + q)[1..] == p[1..] + q;
      var u := Act(d, p[0], t);
      if u.Some? {
        AlongAppend(d, p[1..], q, u.value);
      }
    }
  }

  lemma {:induction false} AlongMonotone<T(!new), S(!new)>(d: Domain<T, S>, p: seq<Hop<S>>, t: T, u: T)
    requires LawfulTimes(d) && d.order.le(t, u)
    ensures NoLater(d.order.le, Along(d, p, t), Along(d, p, u))
  {
    if p != [] {
      ActMonotone(d, p[0], t, u);
      if Act(d, p[0], u).Some? {
        AlongMonotone(d, p[1..], Act(d, p[0], t).value, Act(d, p[0], u).value);
      }
    }
  }

  lemma {:induction false} AlongInflates<T(!new), S(!new)>(d: Domain<T, S>, p: seq<Hop<S>>, t: T)
    requires LawfulTimes(d)
    ensures Along(d, p, t).Some? ==> d.order.le(t, Along(d, p, t).value)
  {
    if p == [] {
      assert d.order.le(t, t);
    } else {
      ActInflates(d, p[0], t);
      if Act(d, p[0], t).Some? {
        AlongInflates(d, p[1..], Act(d, p[0], t).value);
      }
    }
  }

  lemma {:induction false} PathStays<S>(g: Graph<S>, from: Location, p: seq<Hop<S>>, to: Location)
    requires WellFormed(g) && IsPath(g, from, p, to) && Has(g, from)
    ensures Has(g, to)
    decreases p
  {
    if p != [] {
      HopsLead(g, from);
      PathStays(g, p[0].to, p[1..], to);
    }
  }

  // ---- cycles of default hops, and ranks that exclude them ----

  /** Every hop of `path` is a default one. */
  predicate AllDefault<S(==)>(zero: S, path: seq<Hop<S>>) {
    forall h :: h in path ==> IsDefault(zero, h)
  }

  /** Some time can return to where it was unchanged. */
  ghost predicate HasDefaultCycle<S(!new)>(g: Graph<S>, zero: S) {
    exists l, path :: path != [] && AllDefault(zero, path) && IsPath(g, l, path, l)
  }

  /** Default hops lead strictly upwards in `rank`. */
  ghost predicate Ranked<S(!new)>(g: Graph<S>, zero: S, rank: map<Location, nat>) {
    && Locations(g) <= rank.Keys
    && forall l, h :: l in Locations(g) && h in Hops(g, l) && IsDefault(zero, h) ==>
        h.to in rank && rank[l] < rank[h.to]
  }

  lemma {:induction false} DefaultPathClimbs<S(!new)>(g: Graph<S>, zero: S, rank: map<Location, nat>, from: Location,
                                                      path: seq<Hop<S>>, to: Location)
    requires WellFormed(g) && Ranked(g, zero, rank) && IsPath(g, from, path, to) && AllDefault(zero, path) &&
             Has(g, from)
    ensures Has(g, to) && from in rank && to in rank && rank[from] + |path| <= rank[to]
    decreases path
  {
    LocationsAll(g);
    if path != [] {
      HopsLead(g, from);
      assert forall h :: h in path[1..] ==> h in path;
      DefaultPathClimbs(g, zero, rank, path[0].to, path[1..], to);
      assert path[0] in path;
    }
  }

  lemma RankedNoCycle<S(!new)>(g: Graph<S>, zero: S, rank: map<Location, nat>)
    requires WellFormed(g) && Ranked(g, zero, rank)
    ensures !HasDefaultCycle(g, zero)
  {
    if HasDefaultCycle(g, zero) {
      var l, path :| path != [] && AllDefault(zero, path) && IsPath(g, l, path, l);
      assert path[0] in Hops(g, l);
      DefaultPathClimbs(g, zero, rank, l, path, l);
    }
  }
}
