/** Incremental union-find by rank, over a stream of edges: pairs are emitted for edges that join
    components, and connect what the edges connect. */
module UnionFinds {
  import opened Basics
  import opened Orders
  import opened Timestamps

  type Edge = (nat, nat)

  // ---- connectivity ----

  ghost predicate Linked(edges: seq<Edge>, a: nat, b: nat) {
    (a, b) in edges || (b, a) in edges
  }

  ghost predicate IsWalk(edges: seq<Edge>, walk: seq<nat>) {
    walk != [] && forall i :: 0 <= i < |walk| - 1 ==> Linked(edges, walk[i], walk[i + 1])
  }

  /** Some walk along edges, in either direction, leads from one to the other. */
  ghost predicate Connected(edges: seq<Edge>, a: nat, b: nat) {
    exists walk :: IsWalk(edges, walk) && walk[0] == a && walk[|walk| - 1] == b
  }

  lemma WalkStep(edges: seq<Edge>, walk: seq<nat>, i: nat)
    requires IsWalk(edges, walk) && i + 1 < |walk|
    ensures Linked(edges, walk[i], walk[i + 1])
  {
  }

  lemma ConnectedSelf(edges: seq<Edge>, a: nat)
    ensures Connected(edges, a, a)
  {
    assert IsWalk(edges, [a]) && [a][0] == a;
  }

  lemma ConnectedEdge(edges: seq<Edge>, a: nat, b: nat)
    requires Linked(edges, a, b)
    ensures Connected(edges, a, b)
  {
    assert IsWalk(edges, [a, b]) && [a, b][0] == a;
  }

  lemma ConnectedTrans(edges: seq<Edge>, a: nat, b: nat, c: nat)
    requires Connected(edges, a, b) && Connected(edges, b, c)
    ensures Connected(edges, a, c)
  {
    var p :| IsWalk(edges, p) && p[0] == a && p[|p| - 1] == b;
    var q :| IsWalk(edges, q) && q[0] == b && q[|q| - 1] == c;
    var walk := p + q[1..];
    forall i | 0 <= i < |walk| - 1 ensures Linked(edges, walk[i], walk[i + 1]) {
      if i >= |p| - 1 {
        assert walk[i] == q[i - (|p| - 1)] && walk[i + 1] == q[i + 1 - (|p| - 1)];
      }
    }
    assert IsWalk(edges, walk) && walk[0] == a && walk[|walk| - 1] == c;
  }

  lemma ConnectedSym(edges: seq<Edge>, a: nat, b: nat)
    requires Connected(edges, a, b)
    ensures Connected(edges, b, a)
  {
    var p :| IsWalk(edges, p) && p[0] == a && p[|p| - 1] == b;
    var q := seq(|p|, i requires 0 <= i < |p| => p[|p| - 1 - i]);
    forall i | 0 <= i < |q| - 1 ensures Linked(edges, q[i], q[i + 1]) {
      assert Linked(edges, p[|p| - 2 - i], p[|p| - 2 - i + 1]);
    }
    assert IsWalk(edges, q) && q[0] == b && q[|q| - 1] == a;
  }

  lemma ConnectedMore(edges: seq<Edge>, edge: Edge, a: nat, b: nat)
    requires Connected(edges, a, b)
    ensures Connected(edges + [edge], a, b)
  {
    var p :| IsWalk(edges, p) && p[0] == a && p[|p| - 1] == b;
    assert IsWalk(edges + [edge], p);
  }

  // ---- forests ----

  /** Links lead to elements of higher rank, and end at roots. */
  ghost predicate Forest(roots: seq<nat>, ranks: seq<nat>) {
    && |roots| == |ranks|
    && (forall i :: 0 <= i < |roots| ==> roots[i] < |roots|)
    && (forall i :: 0 <= i < |roots| && roots[i] != i ==> ranks[i] < ranks[roots[i]])
  }

  /** The elements of higher rank. */
  ghost function Higher(ranks: seq<nat>, x: nat): set<nat>
    requires x < |ranks|
  {
    set k: nat | k < |ranks| && ranks[k] > ranks[x] :: k
  }

  /** Following a link leaves fewer elements of higher rank. */
  lemma HigherFewer(roots: seq<nat>, ranks: seq<nat>, x: nat)
    requires Forest(roots, ranks) && x < |roots| && roots[x] != x
    ensures |Higher(ranks, roots[x])| < |Higher(ranks, x)|
  {
    assert roots[x] in Higher(ranks, x) && roots[x] !in Higher(ranks, roots[x]);
    SmallerSet(Higher(ranks, roots[x]), Higher(ranks, x));
  }

  /** The root an element belongs to. */
  ghost function RootOf(roots: seq<nat>, ranks: seq<nat>, x: nat): (r: nat)
    requires Forest(roots, ranks) && x < |roots|
    ensures r < |roots| && roots[r] == r
    ensures ranks[x] <= ranks[r]
    decreases |Higher(ranks, x)|
  {
    if roots[x] == x then x
    else
      HigherFewer(roots, ranks, x);
      RootOf(roots, ranks, roots[x])
  }

  /** The elements that belong to a root. */
  ghost function Component(roots: seq<nat>, ranks: seq<nat>, r: nat): set<nat>
    requires Forest(roots, ranks)
  {
    set k: nat | k < |roots| && RootOf(roots, ranks, k) == r :: k
  }

  /** A root of rank `k` has at least `2^k` elements. */
  ghost predicate Balanced(roots: seq<nat>, ranks: seq<nat>) {
    Forest(roots, ranks) && forall r :: 0 <= r < |roots| && roots[r] == r ==>
        Pow2(ranks[r]) <= |Component(roots, ranks, r)|
  }

  /** Elements have the same root exactly when the edges connect them, and edges are between elements. */
  ghost predicate Represents(roots: seq<nat>, ranks: seq<nat>, edges: seq<Edge>) {
    && Forest(roots, ranks)
    && (forall e :: e in edges ==> e.0 < |roots| && e.1 < |roots|)
    && (forall x, y :: 0 <= x < |roots| && 0 <= y < |roots| ==>
          (RootOf(roots, ranks, x) == RootOf(roots, ranks, y) <==> Connected(edges, x, y)))
  }

  // ---- adding isolated elements ----

  lemma {:induction false} GrowRoot(roots: seq<nat>, ranks: seq<nat>, x: nat)
    requires Forest(roots, ranks) && x < |roots|
    ensures Forest(roots + [|roots|], ranks + [0])
    ensures RootOf(roots + [|roots|], ranks + [0], x) == RootOf(roots, ranks, x)
    decreases |Higher(ranks, x)|
  {
    if roots[x] != x {
      HigherFewer(roots, ranks, x);
      GrowRoot(roots, ranks, roots[x]);
    }
  }

  lemma BalancedForest(roots: seq<nat>, ranks: seq<nat>)
    requires Balanced(roots, ranks)
    ensures Forest(roots, ranks) && |ranks| == |roots|
  {
  }

  lemma GrowForest(roots: seq<nat>, ranks: seq<nat>)
    requires Forest(roots, ranks)
    ensures Forest(roots + [|roots|], ranks + [0])
    ensures RootOf(roots + [|roots|], ranks + [0], |roots|) == |roots|
    ensures forall x :: 0 <= x < |roots| ==> RootOf(roots + [|roots|], ranks + [0], x) == RootOf(roots, ranks, x)
  {
    assert Forest(roots + [|roots|], ranks + [0]);
    forall x | 0 <= x < |roots| ensures RootOf(roots + [|roots|], ranks + [0], x) == RootOf(roots, ranks, x) {
      GrowRoot(roots, ranks, x);
    }
  }

  /** An element without edges is connected to itself only. */
  lemma IsolatedAlone(edges: seq<Edge>, n: nat, a: nat, b: nat)
    requires (forall e :: e in edges ==> e.0 < n && e.1 < n) && a >= n && Connected(edges, a, b)
    ensures a == b
  {
    var p :| IsWalk(edges, p) && p[0] == a && p[|p| - 1] == b;
    if |p| > 1 {
      WalkStep(edges, p, 0);
    }
  }

  lemma GrowRepresents(roots: seq<nat>, ranks: seq<nat>, edges: seq<Edge>)
    requires Represents(roots, ranks, edges)
    ensures Represents(roots + [|roots|], ranks + [0], edges)
  {
    var n := |roots|;
    var roots', ranks' := roots + [n], ranks + [0];
    GrowForest(roots, ranks);
    forall x, y | 0 <= x <= n && 0 <= y <= n
      ensures RootOf(roots', ranks', x) == RootOf(roots', ranks', y) <==> Connected(edges, x, y)
    {
      if x == n || y == n {
        if Connected(edges, x, y) {
          ConnectedSym(edges, x, y);
          if x == n { IsolatedAlone(edges, n, x, y); } else { IsolatedAlone(edges, n, y, x); }
        }
        if x == y {
          ConnectedSelf(edges, x);
        }
      }
    }
  }

  lemma GrowBalanced(roots: seq<nat>, ranks: seq<nat>)
    requires Balanced(roots, ranks)
    ensures Balanced(roots + [|roots|], ranks + [0])
  {
    var n := |roots|;
    var roots', ranks' := roots + [n], ranks + [0];
    GrowForest(roots, ranks);
    forall r | 0 <= r <= n && roots'[r] == r ensures Pow2(ranks'[r]) <= |Component(roots', ranks', r)| {
      if r < n {
        assert Component(roots', ranks', r) == Component(roots, ranks, r);
      } else {
        assert Component(roots', ranks', n) == {n};
      }
    }
  }

  // ---- joining two roots ----

  /** `roots'` and `ranks'` link root `a` to root `b`, whose rank may rise by one. */
  ghost predicate LinkedTo(roots: seq<nat>, ranks: seq<nat>, a: nat, b: nat, roots': seq<nat>, ranks': seq<nat>) {
    && Forest(roots, ranks)
    && a < |roots| && b < |roots| && a != b && roots[a] == a && roots[b] == b
    && roots' == roots[a := b]
    && ranks' == ranks[b := if ranks[a] < ranks[b] then ranks[b] else ranks[b] + 1]
    && ranks[a] <= ranks[b]
  }

  lemma LinkForest(roots: seq<nat>, ranks: seq<nat>, a: nat, b: nat, roots': seq<nat>, ranks': seq<nat>)
    requires LinkedTo(roots, ranks, a, b, roots', ranks')
    ensures Forest(roots', ranks')
  {
  }

  lemma {:induction false} LinkRoot(roots: seq<nat>, ranks: seq<nat>, a: nat, b: nat, roots': seq<nat>,
                                    ranks': seq<nat>, x: nat)
    requires LinkedTo(roots, ranks, a, b, roots', ranks') && Forest(roots', ranks') && x < |roots|
    ensures RootOf(roots', ranks', x) == if RootOf(roots, ranks, x) == a then b else RootOf(roots, ranks, x)
    decreases |Higher(ranks, x)|
  {
    if roots[x] != x {
      HigherFewer(roots, ranks, x);
      LinkRoot(roots, ranks, a, b, roots', ranks', roots[x]);
    } else if x == a {
      assert RootOf(roots', ranks', b) == b;
    }
  }

  /** Linked elements have the same root, so connected ones do. */
  lemma {:induction false} WalkSameRoot(roots: seq<nat>, ranks: seq<nat>, edges: seq<Edge>, walk: seq<nat>)
    requires Forest(roots, ranks) && IsWalk(edges, walk) && walk[0] < |roots|
    requires forall e :: e in edges ==> e.0 < |roots| && e.1 < |roots|
    requires forall e :: e in edges ==> RootOf(roots, ranks, e.0) == RootOf(roots, ranks, e.1)
    ensures walk[|walk| - 1] < |roots| && RootOf(roots, ranks, walk[0]) == RootOf(roots, ranks, walk[|walk| - 1])
    decreases |walk|
  {
    if |walk| > 1 {
      assert Linked(edges, walk[0], walk[1]);
      forall i | 0 <= i < |walk[1..]| - 1 ensures Linked(edges, walk[1..][i], walk[1..][i + 1]) {
        assert Linked(edges, walk[i + 1], walk[i + 1 + 1]);
      }
      assert (walk[0], walk[1]) in edges || (walk[1], walk[0]) in edges;
      WalkSameRoot(roots, ranks, edges, walk[1..]);
    }
  }

  /** Linking the roots of the ends of an edge represents the edges including it. */
  lemma LinkRepresents(roots: seq<nat>, ranks: seq<nat>, a: nat, b: nat, roots': seq<nat>, ranks': seq<nat>,
                       edges: seq<Edge>, edge: Edge)
    requires LinkedTo(roots, ranks, a, b, roots', ranks') && Represents(roots, ranks, edges)
    requires edge.0 < |roots| && edge.1 < |roots|
    requires {RootOf(roots, ranks, edge.0), RootOf(roots, ranks, edge.1)} == {a, b}
    ensures Represents(roots', ranks', edges + [edge])
  {
    LinkForest(roots, ranks, a, b, roots', ranks');
    forall x | 0 <= x < |roots|
      ensures RootOf(roots', ranks', x) == if RootOf(roots, ranks, x) == a then b else RootOf(roots, ranks, x)
    {
      LinkRoot(roots, ranks, a, b, roots', ranks', x);
    }
    var more := edges + [edge];
    forall e | e in more ensures RootOf(roots', ranks', e.0) == RootOf(roots', ranks', e.1) {
      if e in edges {
        assert Linked(edges, e.0, e.1);
        ConnectedEdge(edges, e.0, e.1);
      }
    }
    forall x, y | 0 <= x < |roots| && 0 <= y < |roots|
      ensures RootOf(roots', ranks', x) == RootOf(roots', ranks', y) <==> Connected(more, x, y)
    {
      if Connected(more, x, y) {
        var walk :| IsWalk(more, walk) && walk[0] == x && walk[|walk| - 1] == y;
        WalkSameRoot(roots', ranks', more, walk);
      }
      if RootOf(roots', ranks', x) == RootOf(roots', ranks', y) {
        JoinedConnected(roots, ranks, edges, edge, x, y);
      }
    }
  }

  /** Elements on the two sides of a new edge, or on the same side, are connected with it. */
  lemma JoinedConnected(roots: seq<nat>, ranks: seq<nat>, edges: seq<Edge>, edge: Edge, x: nat, y: nat)
    requires Represents(roots, ranks, edges) && x < |roots| && y < |roots| && edge.0 < |roots| && edge.1 < |roots|
    requires
      || RootOf(roots, ranks, x) == RootOf(roots, ranks, y)
      || (RootOf(roots, ranks, x) == RootOf(roots, ranks, edge.0) &&
          RootOf(roots, ranks, y) == RootOf(roots, ranks, edge.1))
      || (RootOf(roots, ranks, x) == RootOf(roots, ranks, edge.1) &&
          RootOf(roots, ranks, y) == RootOf(roots, ranks, edge.0))
    ensures Connected(edges + [edge], x, y)
  {
    hide Connected;
    var more := edges + [edge];
    assert edge in more && edge == (edge.0, edge.1);
    ConnectedEdge(more, edge.0, edge.1);
    ConnectedEdge(more, edge.1, edge.0);
    if RootOf(roots, ranks, x) == RootOf(roots, ranks, y) {
      ConnectedMore(edges, edge, x, y);
    } else if RootOf(roots, ranks, x) == RootOf(roots, ranks, edge.0) {
      ConnectedMore(edges, edge, x, edge.0);
      ConnectedMore(edges, edge, edge.1, y);
      ConnectedTrans(more, x, edge.0, edge.1);
      ConnectedTrans(more, x, edge.1, y);
    } else {
      ConnectedMore(edges, edge, x, edge.1);
      ConnectedMore(edges, edge, edge.0, y);
      ConnectedTrans(more, x, edge.1, edge.0);
      ConnectedTrans(more, x, edge.0, y);
    }
  }

  lemma LinkComponents(roots: seq<nat>, ranks: seq<nat>, a: nat, b: nat, roots': seq<nat>, ranks': seq<nat>)
    requires LinkedTo(roots, ranks, a, b, roots', ranks') && Forest(roots', ranks')
    ensures Component(roots', ranks', b) == Component(roots, ranks, a) + Component(roots, ranks, b)
    ensures Component(roots, ranks, a) !! Component(roots, ranks, b)
    ensures forall r :: 0 <= r < |roots| && r != a && r != b ==>
              Component(roots', ranks', r) == Component(roots, ranks, r)
  {
    hide RootOf;
    forall x | 0 <= x < |roots|
      ensures RootOf(roots', ranks', x) == if RootOf(roots, ranks, x) == a then b else RootOf(roots, ranks, x)
    {
      LinkRoot(roots, ranks, a, b, roots', ranks', x);
    }
  }

  lemma LinkBalanced(roots: seq<nat>, ranks: seq<nat>, a: nat, b: nat, roots': seq<nat>, ranks': seq<nat>)
    requires LinkedTo(roots, ranks, a, b, roots', ranks') && Balanced(roots, ranks)
    ensures Balanced(roots', ranks')
  {
    hide RootOf;
    hide Component;
    LinkForest(roots, ranks, a, b, roots', ranks');
    LinkComponents(roots, ranks, a, b, roots', ranks');
    forall r | 0 <= r < |roots'| && roots'[r] == r ensures Pow2(ranks'[r]) <= |Component(roots', ranks', r)| {
      if r == b {
        BothSizes(ranks[a], ranks[b], Component(roots, ranks, a), Component(roots, ranks, b));
      }
    }
  }

  /** Two components together are large enough for the rank their root gets. */
  lemma BothSizes(i: nat, j: nat, c: set<nat>, e: set<nat>)
    requires i <= j && c !! e && Pow2(i) <= |c| && Pow2(j) <= |e|
    ensures Pow2(if i < j then j else j + 1) <= |c + e|
  {
    assert |c + e| == |c| + |e|;
    assert Pow2(j + 1) == 2 * Pow2(j);
  }

  /** Ranks are at most logarithmic in the number of elements. */
  lemma RankBound(roots: seq<nat>, ranks: seq<nat>, x: nat)
    requires Balanced(roots, ranks) && x < |roots|
    ensures Pow2(ranks[x]) <= |Component(roots, ranks, RootOf(roots, ranks, x))| <= |roots|
  {
    var r := RootOf(roots, ranks, x);
    Pow2Monotone(ranks[x], ranks[r]);
    FewerThan(Component(roots, ranks, r), |roots|);
  }

  lemma {:induction false} FewerThan(s: set<nat>, n: nat)
    requires forall k :: k in s ==> k < n
    ensures |s| <= n
  {
    if n > 0 {
      FewerThan(s - {n - 1}, n - 1);
    }
  }

  /** What is needed to process an edge between existing elements. */
  lemma ValidParts(roots: seq<nat>, ranks: seq<nat>, edges: seq<Edge>, forest: seq<Edge>, edge: Edge)
    requires Balanced(roots, ranks) && Represents(roots, ranks, edges) && Represents(roots, ranks, forest)
    requires edge.0 < |roots| && edge.1 < |roots|
    ensures Forest(roots, ranks) && |ranks| == |roots|
    ensures RootOf(roots, ranks, edge.0) == RootOf(roots, ranks, edge.1) <==> Connected(edges, edge.0, edge.1)
  {
  }

  lemma RootConnected(roots: seq<nat>, ranks: seq<nat>, edges: seq<Edge>, x: nat)
    requires Represents(roots, ranks, edges) && x < |roots|
    ensures Connected(edges, x, RootOf(roots, ranks, x))
  {
    assert RootOf(roots, ranks, RootOf(roots, ranks, x)) == RootOf(roots, ranks, x);
  }

  lemma JoinLinked(roots: seq<nat>, ranks: seq<nat>, a: nat, b: nat, roots': seq<nat>, ranks': seq<nat>, edge: Edge,
                   pair: Edge)
    requires Balanced(roots, ranks) && edge.0 < |roots| && edge.1 < |roots| && a != b
    requires pair == (RootOf(roots, ranks, edge.0), RootOf(roots, ranks, edge.1)) && (pair == (a, b) || pair == (b, a))
    requires ranks[a] <= ranks[b] && roots' == roots[a := b]
    requires ranks' == ranks[b := if ranks[a] < ranks[b] then ranks[b] else ranks[b] + 1]
    ensures LinkedTo(roots, ranks, a, b, roots', ranks') && pair.0 < |roots| && pair.1 < |roots|
    ensures {RootOf(roots, ranks, edge.0), RootOf(roots, ranks, edge.1)} == {a, b}
    ensures {RootOf(roots, ranks, pair.0), RootOf(roots, ranks, pair.1)} == {a, b}
  {
    assert RootOf(roots, ranks, a) == a && RootOf(roots, ranks, b) == b;
  }

  /** Linking two roots by rank keeps everything, for the edges and for the pairs emitted. */
  lemma LinkKeeps(roots: seq<nat>, ranks: seq<nat>, a: nat, b: nat, roots': seq<nat>, ranks': seq<nat>,
                  edges: seq<Edge>, forest: seq<Edge>, edge: Edge, pair: Edge)
    requires Balanced(roots, ranks) && Represents(roots, ranks, edges) && Represents(roots, ranks, forest)
    requires edge.0 < |roots| && edge.1 < |roots| && a != b
    requires pair == (RootOf(roots, ranks, edge.0), RootOf(roots, ranks, edge.1)) && (pair == (a, b) || pair == (b, a))
    requires ranks[a] <= ranks[b] && roots' == roots[a := b]
    requires ranks' == ranks[b := if ranks[a] < ranks[b] then ranks[b] else ranks[b] + 1]
    ensures Balanced(roots', ranks') && Represents(roots', ranks', edges + [edge]) &&
            Represents(roots', ranks', forest + [pair])
  {
    hide *;
    JoinLinked(roots, ranks, a, b, roots', ranks', edge, pair);
    LinkRepresents(roots, ranks, a, b, roots', ranks', edges, edge);
    LinkRepresents(roots, ranks, a, b, roots', ranks', forest, pair);
    LinkBalanced(roots, ranks, a, b, roots', ranks');
  }

  // ---- the operator ----

  /** The root of an element that may not have been seen yet. */
  ghost function RootIn(roots: seq<nat>, ranks: seq<nat>, x: nat): nat
    requires Forest(roots, ranks)
  {
    if x < |roots| then RootOf(roots, ranks, x) else x
  }

  class UnionFind {
    var roots: seq<nat>
    var ranks: seq<nat>
    ghost var edges: seq<Edge>         // all edges seen
    ghost var forest: seq<Edge>        // all pairs emitted

    ghost predicate Valid()
      reads this
    {
      Balanced(roots, ranks) && Represents(roots, ranks, edges) && Represents(roots, ranks, forest)
    }

    constructor ()
      ensures Valid() && edges == [] && forest == []
    {
      roots, ranks, edges, forest := [], [], [], [];
    }

    /** Grows the arrays to include `m`: new elements are their own roots. */
    method Grow(m: nat)
      requires Valid()
      modifies this`roots, this`ranks
      ensures Valid() && |roots| == if m < |old(roots)| then |old(roots)| else m + 1
      ensures forall x :: 0 <= x < |roots| ==> RootOf(roots, ranks, x) == old(RootIn(roots, ranks, x))
    {
      hide Balanced;
      hide Represents;
      hide RootOf;
      hide Forest;
      BalancedForest(roots, ranks);
      while |roots| < m + 1
        invariant Valid() && Forest(roots, ranks) && |ranks| == |roots|
        invariant |old(roots)| <= |roots| && (|roots| > m + 1 ==> roots == old(roots))
        invariant forall x :: 0 <= x < |roots| ==> RootOf(roots, ranks, x) == old(RootIn(roots, ranks, x))
        decreases m - |roots|
      {
        GrowForest(roots, ranks);
        GrowRepresents(roots, ranks, edges);
        GrowRepresents(roots, ranks, forest);
        GrowBalanced(roots, ranks);
        roots, ranks := roots + [|roots|], ranks + [0];
      }
    }

    /** Looks up the root of `x`: ranks strictly rise on the way. */
    method Find(x: nat) returns (r: nat)
      requires Valid() && x < |roots|
      ensures r < |roots| && r == RootOf(roots, ranks, x)
    {
      r := x;
      while r != roots[r]
        invariant r < |roots| && RootOf(roots, ranks, r) == RootOf(roots, ranks, x)
        decreases |Higher(ranks, r)|
      {
        HigherFewer(roots, ranks, r);
        r := roots[r];
      }
    }

    /** Processes one edge: a pair is emitted exactly when it joins two components. */
    method Union(edge: Edge) returns (emitted: Option<Edge>)
      requires Valid()
      modifies this
      ensures Valid() && edges == old(edges) + [edge]
      ensures emitted.None? <==> Connected(old(edges), edge.0, edge.1)
      ensures emitted.Some? ==> emitted.value == old((RootIn(roots, ranks, edge.0), RootIn(roots, ranks, edge.1)))
      ensures emitted.Some? ==>
                Connected(old(edges), edge.0, emitted.value.0) && Connected(old(edges), edge.1, emitted.value.1)
      ensures forest == old(forest) + if emitted.Some? then [emitted.value] else []
    {
      hide Balanced;
      hide Represents;
      hide RootOf;
      hide Connected;
      hide RootIn;
      BalancedForest(roots, ranks);
      Grow(if edge.0 > edge.1 then edge.0 else edge.1);
      ValidParts(roots, ranks, edges, forest, edge);
      var x := Find(edge.0);
      var y := Find(edge.1);
      if x != y {
        emitted := Some((x, y));
        RootConnected(roots, ranks, edges, edge.0);
        RootConnected(roots, ranks, edges, edge.1);
        ghost var roots0, ranks0 := roots, ranks;
        ghost var a, b := if ranks[x] < ranks[y] then x else y, if ranks[x] < ranks[y] then y else x;
        if ranks[x] < ranks[y] {
          roots := roots[x := y];
        } else if ranks[x] > ranks[y] {
          roots := roots[y := x];
        } else {
          roots := roots[y := x];
          ranks := ranks[x := ranks[x] + 1];
        }
        assert ranks == ranks0[b := if ranks0[a] < ranks0[b] then ranks0[b] else ranks0[b] + 1];
        LinkKeeps(roots0, ranks0, a, b, roots, ranks, edges, forest, edge, (x, y));
        forest := forest + [(x, y)];
      } else {
        emitted := None;
        SameComponent(roots, ranks, edges, edge);
      }
      edges := edges + [edge];
    }

    /** Processes a batch of edges. */
    method Process(data: seq<Edge>) returns (emitted: seq<Edge>)
      requires Valid()
      modifies this
      ensures Valid() && edges == old(edges) + data && forest == old(forest) + emitted
      ensures forall a: nat, b: nat :: Connected(forest, a, b) <==> Connected(old(edges) + data, a, b)
    {
      hide Balanced;
      hide Represents;
      hide RootIn;
      hide Connected;
      emitted := [];
      for k := 0 to |data|
        invariant Valid() && edges == old(edges) + data[..k] && forest == old(forest) + emitted
      {
        var pair := Union(data[k]);
        if pair.Some? {
          emitted := emitted + [pair.value];
        }
      }
      assert data[..|data|] == data;
      SameConnectivity(roots, ranks, edges, forest);
    }
  }

  /** An edge within a component changes nothing. */
  lemma SameComponent(roots: seq<nat>, ranks: seq<nat>, edges: seq<Edge>, edge: Edge)
    requires Represents(roots, ranks, edges) && edge.0 < |roots| && edge.1 < |roots|
    requires RootOf(roots, ranks, edge.0) == RootOf(roots, ranks, edge.1)
    ensures Represents(roots, ranks, edges + [edge])
  {
    var more := edges + [edge];
    forall e | e in more ensures RootOf(roots, ranks, e.0) == RootOf(roots, ranks, e.1) {
      if e in edges {
        assert Linked(edges, e.0, e.1);
        ConnectedEdge(edges, e.0, e.1);
      }
    }
    forall x, y | 0 <= x < |roots| && 0 <= y < |roots|
      ensures RootOf(roots, ranks, x) == RootOf(roots, ranks, y) <==> Connected(more, x, y)
    {
      if Connected(more, x, y) {
        var walk :| IsWalk(more, walk) && walk[0] == x && walk[|walk| - 1] == y;
        WalkSameRoot(roots, ranks, more, walk);
      }
      if RootOf(roots, ranks, x) == RootOf(roots, ranks, y) {
        ConnectedMore(edges, edge, x, y);
      }
    }
  }

  /** Two edge sets represented by one forest connect the same. */
  lemma SameConnectivity(roots: seq<nat>, ranks: seq<nat>, edges: seq<Edge>, forest: seq<Edge>)
    requires Represents(roots, ranks, edges) && Represents(roots, ranks, forest)
    ensures forall a: nat, b: nat :: Connected(forest, a, b) <==> Connected(edges, a, b)
  {
    forall a: nat, b: nat ensures Connected(forest, a, b) <==> Connected(edges, a, b) {
      if a >= |roots| || b >= |roots| {
        OutsideAlone(edges, |roots|, a, b);
        OutsideAlone(forest, |roots|, a, b);
      }
    }
  }

  lemma OutsideAlone(edges: seq<Edge>, n: nat, a: nat, b: nat)
    requires (forall e :: e in edges ==> e.0 < n && e.1 < n) && (a >= n || b >= n)
    ensures Connected(edges, a, b) <==> a == b
  {
    if Connected(edges, a, b) {
      ConnectedSym(edges, a, b);
      if a >= n { IsolatedAlone(edges, n, a, b); } else { IsolatedAlone(edges, n, b, a); }
    }
    if a == b {
      ConnectedSelf(edges, a);
    }
  }
}
