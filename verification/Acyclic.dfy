/** Building a graph, and testing it for cycles along which times do not advance. */
module Acyclic {
  import opened Basics
  import opened Updates
  import opened Orders
  import opened Sums
  import opened Timestamps
  import opened Graphs
  import opened Digraphs

  /** How many default hops of `hops` lead to `l`. */
  ghost function ArcCount<S>(zero: S, hops: seq<Hop<S>>, l: Location): nat {
    if hops == [] then 0
    else (if IsDefault(zero, hops[0]) && hops[0].to == l then 1 else 0) + ArcCount(zero, hops[1..], l)
  }

  lemma {:induction false} ArcCountAppend<S>(zero: S, hs: seq<Hop<S>>, h: Hop<S>, l: Location)
    ensures ArcCount(zero, hs + [h], l) == ArcCount(zero, hs, l) + if IsDefault(zero, h) && h.to == l then 1 else 0
  {
    if hs == [] {
      assert hs + [h] == [h];
    } else {
      assert (hs + [h])[1..] == hs[1..] + [h];
      ArcCountAppend(zero, hs[1..], h, l);
    }
  }

  lemma {:induction false} ArcCounted<S>(zero: S, hs: seq<Hop<S>>, h: Hop<S>)
    requires h in hs && IsDefault(zero, h)
    ensures ArcCount(zero, hs, h.to) > 0
  {
    if hs[0] != h {
      assert hs == [hs[0]] + hs[1..];
      ArcCounted(zero, hs[1..], h);
    }
  }

  lemma {:induction false} ArcFound<S>(zero: S, hs: seq<Hop<S>>, l: Location) returns (h: Hop<S>)
    requires ArcCount(zero, hs, l) > 0
    ensures h in hs && IsDefault(zero, h) && h.to == l
  {
    if IsDefault(zero, hs[0]) && hs[0].to == l {
      h := hs[0];
    } else {
      h := ArcFound(zero, hs[1..], l);
    }
  }

  /** The default hops of a graph as a digraph on its locations. */
  ghost function DefaultArcs<S>(g: Graph<S>, zero: S): Arcs<Location> {
    (x, y) => ArcCount(zero, Hops(g, x), y)
  }

  lemma DefaultArcsAt<S(!new)>(g: Graph<S>, zero: S, l: Location)
    ensures forall y :: DefaultArcs(g, zero)(l, y) == ArcCount(zero, Hops(g, l), y)
  {
  }

  /** The default hops among `hops`, by where they lead. */
  ghost function Pending<S>(zero: S, hops: seq<Hop<S>>): Location -> int {
    y => ArcCount(zero, hops, y)
  }

  function GetOr0(m: map<Location, int>, l: Location): int {
    if l in m then m[l] else 0
  }

  /** A ranking of all locations along default arcs is a ranking of the graph. */
  lemma ArcsRanked<S(!new)>(g: Graph<S>, zero: S, rank: map<Location, nat>)
    requires WellFormed(g) && RankedAmong(DefaultArcs(g, zero), Locations(g), rank)
    ensures Ranked(g, zero, rank)
  {
    LocationsAll(g);
    var arcs := DefaultArcs(g, zero);
    forall l, h | l in Locations(g) && h in Hops(g, l) && IsDefault(zero, h)
      ensures h.to in rank && rank[l] < rank[h.to] {
      HopsLead(g, l);
      ArcCounted(zero, Hops(g, l), h);
      assert arcs(l, h.to) > 0;
    }
  }

  /** A walk along default arcs, read forwards, is a path of default hops. */
  lemma {:induction false} WalkPath<S(!new)>(g: Graph<S>, zero: S, walk: seq<Location>) returns (path: seq<Hop<S>>)
    requires |walk| > 0 && Backwards(DefaultArcs(g, zero), walk)
    ensures |path| == |walk| - 1 && AllDefault(zero, path) && IsPath(g, walk[|walk| - 1], path, walk[0])
    decreases |walk|
  {
    var n := |walk| - 1;
    if n == 0 {
      path := [];
    } else {
      var arcs := DefaultArcs(g, zero);
      assert arcs(walk[n], walk[n - 1]) > 0;
      var h := ArcFound(zero, Hops(g, walk[n]), walk[n - 1]);
      var rest := WalkPath(g, zero, walk[..n]);
      path := [h] + rest;
      assert path[1..] == rest && path[0] == h;
    }
  }

  /** If peeling leaves locations over, they hold a cycle. */
  lemma LeftoverCycle<S(!new)>(g: Graph<S>, zero: S, left: set<Location>)
    requires left != {} && NoStart(DefaultArcs(g, zero), left)
    ensures HasDefaultCycle(g, zero)
  {
    var walk := ClosedWalk(DefaultArcs(g, zero), left);
    var path := WalkPath(g, zero, walk);
    assert path != [];
  }

  /** Without a cycle there is a rank: some location is always left that no location left leads to. */
  lemma RankExists<S(!new)>(g: Graph<S>, zero: S) returns (rank: map<Location, nat>)
    requires WellFormed(g) && !HasDefaultCycle(g, zero)
    ensures Ranked(g, zero, rank)
  {
    hide DefaultArcs;
    hide Locations;
    hide HasDefaultCycle;
    var arcs, all := DefaultArcs(g, zero), Locations(g);
    var done: set<Location> := {};
    rank := map[];
    while done != all
      invariant done <= all && RankedAmong(arcs, done, rank)
      invariant forall x, y :: x in all - done && y in done ==> arcs(x, y) <= 0
      decreases all - done
    {
      var left := all - done;
      if NoStart(arcs, left) {
        LeftoverCycle(g, zero, left);
      }
      var y :| y in left && !HasArcFrom(arcs, left, y);
      ArcsNonNegative(g, zero);
      RankExtend(arcs, done, rank, y);
      done, rank := done + {y}, rank[y := |done|];
    }
    ArcsRanked(g, zero, rank);
  }

  lemma ArcsNonNegative<S>(g: Graph<S>, zero: S)
    ensures forall x, y :: DefaultArcs(g, zero)(x, y) >= 0
  {
  }

  /** A topology builder. */
  class Builder<S(==,!new)> {
    const zero: S                                // the default summary
    var nodes: seq<seq<seq<seq<S>>>>
    var edges: seq<seq<seq<Target>>>
    var shape: seq<(nat, nat)>

    /** The dimensions of the three tables agree. */
    ghost predicate Valid()
      reads this
    {
      && |nodes| == |edges| == |shape|
      && (forall n :: 0 <= n < |nodes| ==> |nodes[n]| == shape[n].0 && |edges[n]| == shape[n].1)
      && (forall n, i :: 0 <= n < |nodes| && 0 <= i < |nodes[n]| ==> |nodes[n][i]| == shape[n].1)
    }

    function Topology(): Graph<S>
      reads this
    {
      Graph(nodes, edges)
    }

    constructor (zero: S)
      ensures Valid() && this.zero == zero && Topology() == Graph([], [])
    {
      this.zero := zero;
      nodes, edges, shape := [], [], [];
    }

    /** Adds or overwrites the operator `index`; its edges survive if the number of outputs does. */
    method AddNode(index: nat, inputs: nat, outputs: nat, summary: seq<seq<seq<S>>>)
      requires Valid()
      requires |summary| == inputs && forall i :: 0 <= i < inputs ==> |summary[i]| == outputs
      modifies this
      ensures Valid()
      ensures |nodes| == if index < |old(nodes)| then |old(nodes)| else index + 1
      ensures nodes[index] == summary && shape[index] == (inputs, outputs)
      ensures index < |old(edges)| && |old(edges)[index]| == outputs ==> edges[index] == old(edges)[index]
      ensures !(index < |old(edges)| && |old(edges)[index]| == outputs) ==> edges[index] == seq(outputs, _ => [])
      ensures forall n :: 0 <= n < |old(nodes)| && n != index ==> nodes[n] == old(nodes)[n] && edges[n] == old(edges)[n]
      ensures forall n :: |old(nodes)| <= n < index ==> nodes[n] == [] && edges[n] == []
    {
      while |nodes| <= index
        invariant Valid()
        invariant |old(nodes)| <= |nodes|
        invariant |old(nodes)| <= index ==> |nodes| <= index + 1
        invariant index < |old(nodes)| ==> |nodes| == |old(nodes)|
        invariant forall n :: 0 <= n < |old(nodes)| ==> nodes[n] == old(nodes)[n] && edges[n] == old(edges)[n]
        invariant forall n :: |old(nodes)| <= n < |nodes| ==> nodes[n] == [] && edges[n] == []
      {
        nodes := nodes + [[]];
        edges := edges + [[]];
        shape := shape + [(0, 0)];
      }
      nodes := nodes[index := summary];
      if |edges[index]| != outputs {
        edges := edges[index := seq(outputs, _ => [])];
      }
      shape := shape[index := (inputs, outputs)];
    }

    /** Adds an edge between existing ports. */
    method AddEdge(node: nat, port: nat, target: Target)
      requires Valid()
      requires node < |shape| && port < shape[node].1
      requires target.node < |shape| && target.port < shape[target.node].0
      modifies this`edges
      ensures Valid()
      ensures edges == old(edges)[node := old(edges)[node][port := old(edges)[node][port] + [target]]]
      ensures old(WellFormed(Topology())) ==> WellFormed(Topology())
    {
      edges := edges[node := edges[node][port := edges[node][port] + [target]]];
    }

    /** `inDegree` counts the default hops from the locations `done`. */
    ghost predicate Loaded(all: set<Location>, arcs: Arcs<Location>, inDegree: map<Location, int>, done: set<Location>)
    {
      && done <= inDegree.Keys <= all
      && forall l :: GetOr0(inDegree, l) == InDegree(arcs, done, l)
    }

    /** Adds the default hops leaving `l` to the counts. */
    method LoadRow(hops: seq<Hop<S>>, inDegree: map<Location, int>, l: Location,
                   ghost all: set<Location>, ghost arcs: Arcs<Location>, ghost done: set<Location>)
      returns (inDegree': map<Location, int>)
      requires Loaded(all, arcs, inDegree, done) && l in all && l !in done
      requires forall h :: h in hops ==> h.to in all
      requires forall y :: arcs(l, y) == ArcCount(zero, hops, y)
      ensures Loaded(all, arcs, inDegree', done + {l})
    {
      inDegree' := inDegree[l := GetOr0(inDegree, l)];
      for k := 0 to |hops|
        invariant done + {l} <= inDegree'.Keys <= all
        invariant forall y :: GetOr0(inDegree', y) == InDegree(arcs, done, y) + ArcCount(zero, hops[..k], y)
      {
        assert hops[..k + 1] == hops[..k] + [hops[k]];
        forall y ensures ArcCount(zero, hops[..k + 1], y) ==
          ArcCount(zero, hops[..k], y) + (if IsDefault(zero, hops[k]) && hops[k].to == y then 1 else 0)
        {
          ArcCountAppend(zero, hops[..k], hops[k], y);
        }
        if IsDefault(zero, hops[k]) {
          inDegree' := inDegree'[hops[k].to := GetOr0(inDegree', hops[k].to) + 1];
        }
      }
      assert hops[..|hops|] == hops;
      forall y ensures InDegree(arcs, done + {l}, y) == InDegree(arcs, done, y) + ArcCount(zero, hops, y) {
        SumAdd(done, Into(arcs, y), l);
      }
    }

    /** Counts the default hops leaving the ports of one operator: its outputs, or its inputs. */
    method LoadOperator(n: nat, outputs: bool, inDegree: map<Location, int>,
                        ghost all: set<Location>, ghost arcs: Arcs<Location>, ghost done: set<Location>)
      returns (inDegree': map<Location, int>, ghost done': set<Location>)
      requires Valid() && WellFormed(Topology()) && n < |nodes|
      requires all == Locations(Topology()) && arcs == DefaultArcs(Topology(), zero)
      requires Loaded(all, arcs, inDegree, done)
      requires forall l :: l in done ==> l.node != n || l.port.SourcePort? != outputs
      ensures Loaded(all, arcs, inDegree', done')
      ensures forall l :: l in done' <==> l in done || (l in all && l.node == n && l.port.SourcePort? == outputs)
    {
      hide Loaded;
      hide Locations;
      hide DefaultArcs;
      var g := Topology();
      LocationsAll(g);
      inDegree', done' := inDegree, done;
      for i := 0 to if outputs then |edges[n]| else |nodes[n]|
        invariant Loaded(all, arcs, inDegree', done')
        invariant forall l :: l in done' <==>
                  l in done || (l in all && l.node == n && l.port.SourcePort? == outputs && l.port.index < i)
      {
        var l := Location(n, if outputs then SourcePort(i) else TargetPort(i));
        assert Has(g, l);
        HopsLead(g, l);
        DefaultArcsAt(g, zero, l);
        inDegree' := LoadRow(Hops(g, l), inDegree', l, all, arcs, done');
        done' := done' + {l};
      }
    }

    /** Counts default hops into each location: first those along edges, then those across operators. */
    method LoadInDegrees(ghost all: set<Location>, ghost arcs: Arcs<Location>) returns (inDegree: map<Location, int>)
      requires Valid() && WellFormed(Topology())
      requires all == Locations(Topology()) && arcs == DefaultArcs(Topology(), zero)
      ensures Loaded(all, arcs, inDegree, all)
    {
      inDegree := map[];
      ghost var done: set<Location> := {};
      assert forall l :: l in all ==> l.node < |nodes| by { LocationsAll(Topology()); }
      for n := 0 to |edges|
        invariant Loaded(all, arcs, inDegree, done)
        invariant forall l :: l in done <==> l in all && l.port.SourcePort? && l.node < n
      {
        inDegree, done := LoadOperator(n, true, inDegree, all, arcs, done);
      }
      for n := 0 to |nodes|
        invariant Loaded(all, arcs, inDegree, done)
        invariant forall l :: l in done <==> l in all && (l.port.SourcePort? || l.node < n)
      {
        inDegree, done := LoadOperator(n, false, inDegree, all, arcs, done);
      }
      assert done == all;
    }

    /** Moves the locations without incoming default hops to a worklist. */
    method Starts(inDegree: map<Location, int>, ghost all: set<Location>, ghost arcs: Arcs<Location>)
      returns (inDegree': map<Location, int>, worklist: seq<Location>)
      requires ArcCounts(arcs) && Loaded(all, arcs, inDegree, all)
      ensures Peeling(all, arcs, inDegree', worklist, {}, Pending(zero, []))
    {
      worklist := [];
      var remaining := inDegree.Keys;
      while remaining != {}
        invariant remaining <= inDegree.Keys && Distinct(worklist)
        invariant forall l :: l in worklist <==> l in inDegree && l !in remaining && inDegree[l] == 0
        decreases remaining
      {
        var key :| key in remaining;
        if inDegree[key] == 0 {
          worklist := worklist + [key];
        }
        remaining := remaining - {key};
      }
      inDegree' := map l | l in inDegree && inDegree[l] != 0 :: inDegree[l];
      assert all - {} == all;
      forall l ensures InDegree(arcs, all, l) == GetOr0(inDegree, l) >= 0 && (l in inDegree ==> inDegree[l] >= 0) {
        InDegreeBounds(arcs, all, l);
      }
    }

    /** Resolves the default hops leaving the location popped last. Looking up a target never fails. */
    method ResolveRow(hops: seq<Hop<S>>, inDegree: map<Location, int>, worklist: seq<Location>,
                      ghost all: set<Location>, ghost arcs: Arcs<Location>, ghost done: set<Location>)
      returns (inDegree': map<Location, int>, worklist': seq<Location>)
      requires ArcCounts(arcs) && forall h :: h in hops ==> h.to in all
      requires Peeling(all, arcs, inDegree, worklist, done, Pending(zero, hops))
      ensures Peeling(all, arcs, inDegree', worklist', done, Pending(zero, []))
    {
      hide Peeling;
      inDegree', worklist' := inDegree, worklist;
      for k := 0 to |hops|
        invariant Peeling(all, arcs, inDegree', worklist', done, Pending(zero, hops[k..]))
      {
        ghost var m, w := inDegree', worklist';
        var hop := hops[k];
        assert hops[k..][1..] == hops[k + 1..];
        if IsDefault(zero, hop) {
          ArcCounted(zero, hops[k..], hop);
          PeelPresent(all, arcs, m, w, done, Pending(zero, hops[k..]), hop.to);
          inDegree' := inDegree'[hop.to := inDegree'[hop.to] - 1];
          if inDegree'[hop.to] == 0 {
            inDegree' := inDegree' - {hop.to};
            worklist' := worklist' + [hop.to];
          }
          PeelArc(all, arcs, m, w, done, Pending(zero, hops[k..]), hop.to, inDegree', worklist',
                  Pending(zero, hops[k + 1..]));
        } else {
          SamePending(all, arcs, m, w, done, Pending(zero, hops[k..]), Pending(zero, hops[k + 1..]));
        }
      }
      assert hops[|hops|..] == [];
    }

    /** True exactly when no cycle consists of edges and default summaries only. */
    method IsAcyclic() returns (acyclic: bool)
      requires Valid() && WellFormed(Topology())
      ensures acyclic <==> !HasDefaultCycle(Topology(), zero)
      ensures acyclic ==> exists rank :: Ranked(Topology(), zero, rank)
    {
      var g := Topology();
      ghost var all, arcs := Locations(g), DefaultArcs(g, zero);
      LocationsAll(g);
      var inDegree := LoadInDegrees(all, arcs);
      var worklist;
      inDegree, worklist := Starts(inDegree, all, arcs);
      ghost var done: set<Location> := {};
      ghost var rank: map<Location, nat> := map[];
      while worklist != []
        invariant Peeling(all, arcs, inDegree, worklist, done, Pending(zero, [])) && RankedAmong(arcs, done, rank)
        decreases |all - done|
      {
        var x := worklist[|worklist| - 1];
        assert x in worklist;
        PeelRank(all, arcs, inDegree, worklist, done, Pending(zero, []), rank, x);
        PeelPop(all, arcs, inDegree, worklist, done, Pending(zero, []), x, Pending(zero, Hops(g, x)));
        SmallerSet(all - (done + {x}), all - done);
        rank, done := rank[x := |done|], done + {x};
        HopsLead(g, x);
        inDegree, worklist := ResolveRow(Hops(g, x), inDegree, worklist[..|worklist| - 1], all, arcs, done);
      }
      PeelLeft(all, arcs, inDegree, done, Pending(zero, []));
      acyclic := inDegree == map[];
      if acyclic {
        assert all - done == {} && done == all;
        ArcsRanked(g, zero, rank);
        RankedNoCycle(g, zero, rank);
      } else {
        LeftoverCycle(g, zero, inDegree.Keys);
      }
    }
  }

  lemma SamePending(all: set<Location>, arcs: Arcs<Location>, inDegree: map<Location, int>, worklist: seq<Location>,
                    done: set<Location>, rest: Location -> int, rest': Location -> int)
    requires Peeling(all, arcs, inDegree, worklist, done, rest) && forall y :: rest(y) == rest'(y)
    ensures Peeling(all, arcs, inDegree, worklist, done, rest')
  {
  }
}
