/** Finite directed multigraphs given by arc counts, and peeling off what no cycle reaches. */
module Digraphs {
  import opened Orders
  import opened Sums

  /** `arcs(x, y)` counts the arcs from `x` to `y`. */
  type Arcs<!K> = (K, K) -> int

  ghost predicate ArcCounts<K(!new)>(arcs: Arcs<K>) {
    forall x, y :: arcs(x, y) >= 0
  }

  ghost function Into<K>(arcs: Arcs<K>, y: K): K -> int {
    x => arcs(x, y)
  }

  /** The number of arcs from members of `from` into `y`. */
  ghost function InDegree<K(!new)>(arcs: Arcs<K>, from: set<K>, y: K): int {
    Sum(from, Into(arcs, y))
  }

  lemma InDegreeBounds<K(!new)>(arcs: Arcs<K>, from: set<K>, y: K)
    requires ArcCounts(arcs)
    ensures InDegree(arcs, from, y) >= 0
    ensures forall x :: x in from ==> arcs(x, y) <= InDegree(arcs, from, y)
  {
    var f := Into(arcs, y);
    assert forall x :: f(x) == arcs(x, y);
    SumBounds(from, f);
  }

  /** An ordering of `done` in which every arc leads upwards. */
  ghost predicate RankedAmong<K(!new)>(arcs: Arcs<K>, done: set<K>, rank: map<K, nat>) {
    && rank.Keys == done
    && (forall x :: x in done ==> rank[x] < |done|)
    && (forall x, y :: x in done && y in done && arcs(x, y) > 0 ==> rank[x] < rank[y])
  }

  /** `inDegree` counts the arcs into a vertex from those not done yet and the arcs `rest` still pending;
      the vertices without any are the ones done or on the worklist. */
  ghost predicate Peeling<K(!new)>(all: set<K>, arcs: Arcs<K>, inDegree: map<K, int>, worklist: seq<K>, done: set<K>,
                                   rest: K -> int) {
    && done <= all
    && Distinct(worklist)
    && (forall w :: w in worklist ==> w in all && w !in done && w !in inDegree)
    && (forall y :: y in all ==> y in inDegree || y in done || y in worklist)
    && (forall y :: y in inDegree ==> y in all && y !in done && inDegree[y] > 0)
    && (forall y :: y in inDegree ==> inDegree[y] == InDegree(arcs, all - done, y) + rest(y))
    && (forall y :: y in all && y !in inDegree ==> InDegree(arcs, all - done, y) + rest(y) == 0)
    && (forall y :: rest(y) >= 0)
  }

  /** Marking `x` done turns its arcs from counted ones into pending ones. */
  lemma PeelPop<K(!new)>(all: set<K>, arcs: Arcs<K>, inDegree: map<K, int>, worklist: seq<K>, done: set<K>,
                         none: K -> int, x: K, rest: K -> int)
    requires ArcCounts(arcs) && worklist != [] && x == worklist[|worklist| - 1]
    requires Peeling(all, arcs, inDegree, worklist, done, none) && forall y :: none(y) == 0
    requires forall y :: rest(y) == arcs(x, y)
    ensures Peeling(all, arcs, inDegree, worklist[..|worklist| - 1], done + {x}, rest)
  {
    assert worklist == worklist[..|worklist| - 1] + [x];
    assert x in worklist;
    forall y ensures InDegree(arcs, all - done, y) == InDegree(arcs, all - (done + {x}), y) + rest(y) {
      var f := Into(arcs, y);
      SumRemove(all - done, f, x);
      assert all - done - {x} == all - (done + {x});
    }
  }

  lemma RankExtend<K(!new)>(arcs: Arcs<K>, done: set<K>, rank: map<K, nat>, x: K)
    requires RankedAmong(arcs, done, rank) && x !in done
    requires forall y :: y in done + {x} ==> arcs(x, y) == 0
    ensures RankedAmong(arcs, done + {x}, rank[x := |done|])
  {
    assert |done + {x}| == |done| + 1;
  }

  /** Arcs into a popped vertex come from vertices popped before, and none of its own lead back to those. */
  lemma PeelRank<K(!new)>(all: set<K>, arcs: Arcs<K>, inDegree: map<K, int>, worklist: seq<K>, done: set<K>,
                          none: K -> int, rank: map<K, nat>, x: K)
    requires ArcCounts(arcs) && x in worklist
    requires Peeling(all, arcs, inDegree, worklist, done, none) && RankedAmong(arcs, done, rank)
    ensures RankedAmong(arcs, done + {x}, rank[x := |done|])
  {
    forall y | y in done + {x} ensures arcs(x, y) == 0 {
      InDegreeBounds(arcs, all - done, y);
    }
    RankExtend(arcs, done, rank, x);
  }

  /** The target of a pending arc cannot be absent. */
  lemma PeelPresent<K(!new)>(all: set<K>, arcs: Arcs<K>, inDegree: map<K, int>, worklist: seq<K>, done: set<K>,
                             rest: K -> int, y: K)
    requires ArcCounts(arcs) && Peeling(all, arcs, inDegree, worklist, done, rest)
    requires y in all && rest(y) > 0
    ensures y in inDegree
  {
    InDegreeBounds(arcs, all - done, y);
  }

  /** Resolving one pending arc into `y`. */
  lemma PeelArc<K(!new)>(all: set<K>, arcs: Arcs<K>, inDegree: map<K, int>, worklist: seq<K>, done: set<K>,
                         rest: K -> int, y: K, inDegree': map<K, int>, worklist': seq<K>, rest': K -> int)
    requires Peeling(all, arcs, inDegree, worklist, done, rest) && y in inDegree
    requires forall z :: rest(z) == rest'(z) + (if z == y then 1 else 0)
    requires rest'(y) >= 0
    requires if inDegree[y] == 1 then inDegree' == inDegree - {y} && worklist' == worklist + [y]
             else inDegree' == inDegree[y := inDegree[y] - 1] && worklist' == worklist
    ensures Peeling(all, arcs, inDegree', worklist', done, rest')
  {
    assert forall w :: w in worklist' <==> w in worklist || (inDegree[y] == 1 && w == y);
  }

  ghost predicate HasArcFrom<K(!new)>(arcs: Arcs<K>, left: set<K>, y: K) {
    exists x :: x in left && arcs(x, y) > 0
  }

  /** Each vertex in `left` has an arc from one in `left`. */
  ghost predicate NoStart<K(!new)>(arcs: Arcs<K>, left: set<K>) {
    forall y {:trigger HasArcFrom(arcs, left, y)} :: y in left ==> HasArcFrom(arcs, left, y)
  }

  lemma PeelLeft<K(!new)>(all: set<K>, arcs: Arcs<K>, inDegree: map<K, int>, done: set<K>, none: K -> int)
    requires Peeling(all, arcs, inDegree, [], done, none) && forall y :: none(y) == 0
    ensures inDegree.Keys == all - done && NoStart(arcs, inDegree.Keys)
  {
    assert inDegree.Keys == all - done;
    forall y | y in inDegree ensures HasArcFrom(arcs, inDegree.Keys, y) {
      var f := Into(arcs, y);
      var x := SumPositive(all - done, f);
      assert x in inDegree.Keys && arcs(x, y) > 0;
    }
  }

  /** Consecutive vertices of `walk` are joined by arcs, backwards. */
  ghost predicate Backwards<K(!new)>(arcs: Arcs<K>, walk: seq<K>) {
    forall i :: 0 < i < |walk| ==> arcs(walk[i], walk[i - 1]) > 0
  }

  lemma {:induction false} WalkBack<K(!new)>(arcs: Arcs<K>, left: set<K>, start: K, n: nat) returns (walk: seq<K>)
    requires start in left && NoStart(arcs, left)
    ensures |walk| == n + 1 && Backwards(arcs, walk) && forall i :: 0 <= i <= n ==> walk[i] in left
  {
    if n == 0 {
      walk := [start];
    } else {
      var w := WalkBack(arcs, left, start, n - 1);
      assert HasArcFrom(arcs, left, w[n - 1]);
      var x :| x in left && arcs(x, w[n - 1]) > 0;
      walk := w + [x];
    }
  }

  /** A sequence longer than the set its elements come from repeats one. */
  lemma {:induction false} Repeated<E>(s: seq<E>, from: set<E>) returns (i: nat, j: nat)
    requires |s| > |from|
    requires forall k :: 0 <= k < |s| ==> s[k] in from
    ensures i < j < |s| && s[i] == s[j]
  {
    assert s[0] in from;
    if k :| 0 < k < |s| && s[k] == s[0] {
      i, j := 0, k;
    } else {
      i, j := Repeated(s[1..], from - {s[0]});
      i, j := i + 1, j + 1;
    }
  }

  /** So a nonempty set without a start holds a closed walk. */
  lemma ClosedWalk<K(!new)>(arcs: Arcs<K>, left: set<K>) returns (walk: seq<K>)
    requires left != {} && NoStart(arcs, left)
    ensures |walk| > 1 && Backwards(arcs, walk) && walk[0] == walk[|walk| - 1]
  {
    var start :| start in left;
    var w := WalkBack(arcs, left, start, |left|);
    var i, j := Repeated(w, left);
    walk := w[i..j + 1];
    forall k | 0 < k < |walk| ensures arcs(walk[k], walk[k - 1]) > 0 {
      assert walk[k] == w[i + k] && walk[k - 1] == w[i + k - 1];
    }
  }
}
