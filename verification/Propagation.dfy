/** What the propagated frontiers of a graph mean, and that local balance implies it. */
module Propagation {
  import opened Basics
  import opened Updates
  import opened Orders
  import opened Sums
  import opened Timestamps
  import opened Graphs
  import opened Digraphs

  /** A time at a location. */
  type Point<T> = (Location, T)

  /** How many of `hops` take time `t` to the point `q`. */
  ghost function HopCount<T, S>(d: Domain<T, S>, hops: seq<Hop<S>>, t: T, q: Point<T>): nat {
    if hops == [] then 0
    else (if hops[0].to == q.0 && Act(d, hops[0], t) == Some(q.1) then 1 else 0) + HopCount(d, hops[1..], t, q)
  }

  lemma {:induction false} HopCountAppend<T, S>(d: Domain<T, S>, hs: seq<Hop<S>>, h: Hop<S>, t: T, q: Point<T>)
    ensures HopCount(d, hs + [h], t, q) ==
              HopCount(d, hs, t, q) + (if h.to == q.0 && Act(d, h, t) == Some(q.1) then 1 else 0)
  {
    if hs == [] {
      assert hs + [h] == [h];
    } else {
      assert (hs + [h])[1..] == hs[1..] + [h];
      HopCountAppend(d, hs[1..], h, t, q);
    }
  }

  lemma {:induction false} HopCounted<T, S>(d: Domain<T, S>, hs: seq<Hop<S>>, h: Hop<S>, t: T)
    requires h in hs && Act(d, h, t).Some?
    ensures HopCount(d, hs, t, (h.to, Act(d, h, t).value)) > 0
  {
    if hs[0] != h {
      assert hs == [hs[0]] + hs[1..];
      HopCounted(d, hs[1..], h, t);
    }
  }

  lemma {:induction false} HopFound<T, S>(d: Domain<T, S>, hs: seq<Hop<S>>, t: T, q: Point<T>) returns (h: Hop<S>)
    requires HopCount(d, hs, t, q) > 0
    ensures h in hs && h.to == q.0 && Act(d, h, t) == Some(q.1)
  {
    if hs[0].to == q.0 && Act(d, hs[0], t) == Some(q.1) {
      h := hs[0];
    } else {
      h := HopFound(d, hs[1..], t, q);
    }
  }

  /** The hops of a graph, as arcs between points. */
  ghost function Ways<T, S>(d: Domain<T, S>, g: Graph<S>): Arcs<Point<T>> {
    (p: Point<T>, q: Point<T>) => HopCount(d, Hops(g, p.0), p.1, q)
  }

  /** What a tracker records at a port: counts of active pointstamps and their frontier, and counts of
      implications and their frontier. */
  datatype PortView<T> = PortView(pointCounts: seq<Update<T>>, points: seq<T>, counts: seq<Update<T>>, frontier: seq<T>)

  type View<T> = map<Location, PortView<T>>

  /** The points in pointstamp frontiers. */
  ghost function Held<T>(v: View<T>): set<Point<T>> {
    set l, t | l in v && t in v[l].points :: (l, t)
  }

  /** The points in implication frontiers. */
  ghost function Implied<T>(v: View<T>): set<Point<T>> {
    set l, t | l in v && t in v[l].frontier :: (l, t)
  }

  ghost function PointCount<T>(v: View<T>, q: Point<T>): int {
    if q.0 in v then Tally(v[q.0].pointCounts, q.1) else 0
  }

  ghost function ImplicationCount<T>(v: View<T>, q: Point<T>): int {
    if q.0 in v then Tally(v[q.0].counts, q.1) else 0
  }

  /** Recorded frontiers are the frontiers of the recorded counts. */
  ghost predicate Consistent<T(!new)>(o: Order<T>, v: View<T>) {
    forall l :: l in v ==>
      IsFrontier(o, v[l].pointCounts, v[l].points) && IsFrontier(o, v[l].counts, v[l].frontier)
  }

  /** Implication counts, and the changes still pending, are what pointstamp frontiers and one-hop
      consequences of implication frontiers add up to. */
  ghost predicate Balanced<T(!new)>(ways: Arcs<Point<T>>, v: View<T>, sent: set<Point<T>>, pending: Point<T> -> int) {
    forall q :: ImplicationCount(v, q) + pending(q) == (if q in Held(v) then 1 else 0) + InDegree(ways, sent, q)
  }

  ghost function Nothing<T>(): Point<T> -> int {
    q => 0
  }

  /** Nothing remains to be propagated. */
  ghost predicate Settled<T(!new), S(!new)>(d: Domain<T, S>, g: Graph<S>, v: View<T>) {
    && v.Keys == Locations(g)
    && Consistent(d.order, v)
    && Balanced(Ways(d, g), v, Implied(v), Nothing())
  }

  lemma WaysCounts<T(!new), S(!new)>(d: Domain<T, S>, g: Graph<S>)
    ensures ArcCounts(Ways(d, g))
  {
  }

  // ---- safety ----

  /** A positive implication count is covered by the implication frontier. */
  lemma CountCovered<T(!new)>(o: Order<T>, v: View<T>, q: Point<T>)
    requires Lawful(o) && Consistent(o, v) && ImplicationCount(v, q) > 0
    ensures q.0 in v && AnyLessEqual(o.le, v[q.0].frontier, q.1)
  {
    FrontierCovers(o, v[q.0].counts, v[q.0].frontier, q.1);
  }

  /** A settled view covers its pointstamps where they are. */
  lemma PointCovered<T(!new), S(!new)>(d: Domain<T, S>, g: Graph<S>, v: View<T>, l: Location, t: T)
    requires Lawful(d.order) && Settled(d, g, v) && PointCount(v, (l, t)) > 0
    ensures AnyLessEqual(d.order.le, v[l].frontier, t)
  {
    var m := MinimalExists(d.order, v[l].pointCounts, t);
    assert m in v[l].points;
    assert (l, m) in Held(v);
    WaysCounts(d, g);
    InDegreeBounds(Ways(d, g), Implied(v), (l, m));
    assert Nothing<T>()((l, m)) == 0;
    CountCovered(d.order, v, (l, m));
    LessEqualTrans(d.order.le, v[l].frontier, m, t);
  }

  lemma LessEqualTrans<T(!new)>(le: (T, T) -> bool, f: seq<T>, t: T, u: T)
    requires PartialOrder(le) && AnyLessEqual(le, f, t) && le(t, u)
    ensures AnyLessEqual(le, f, u)
  {
    var i :| 0 <= i < |f| && le(f[i], t);
    assert le(f[i], u);
  }

  /** What a settled view covers, it covers after one more hop. */
  lemma HopCovered<T(!new), S(!new)>(d: Domain<T, S>, g: Graph<S>, v: View<T>, l: Location, t: T, h: Hop<S>)
    requires LawfulTimes(d) && WellFormed(g) && Settled(d, g, v)
    requires l in v && AnyLessEqual(d.order.le, v[l].frontier, t)
    requires h in Hops(g, l) && Act(d, h, t).Some?
    ensures h.to in v && AnyLessEqual(d.order.le, v[h.to].frontier, Act(d, h, t).value)
  {
    var i :| 0 <= i < |v[l].frontier| && d.order.le(v[l].frontier[i], t);
    var u := v[l].frontier[i];
    ActMonotone(d, h, u, t);
    var q := (h.to, Act(d, h, u).value);
    assert (l, u) in Implied(v);
    HopCounted(d, Hops(g, l), h, u);
    var ways := Ways(d, g);
    assert ways((l, u), q) > 0;
    WaysCounts(d, g);
    InDegreeBounds(ways, Implied(v), q);
    assert Nothing<T>()(q) == 0;
    CountCovered(d.order, v, q);
    LessEqualTrans(d.order.le, v[h.to].frontier, q.1, Act(d, h, t).value);
  }

  lemma {:induction false} PathCovered<T(!new), S(!new)>(d: Domain<T, S>, g: Graph<S>, v: View<T>, l: Location, t: T,
                                                         path: seq<Hop<S>>, to: Location)
    requires LawfulTimes(d) && WellFormed(g) && Settled(d, g, v)
    requires l in v && AnyLessEqual(d.order.le, v[l].frontier, t)
    requires IsPath(g, l, path, to) && Along(d, path, t).Some?
    ensures to in v && AnyLessEqual(d.order.le, v[to].frontier, Along(d, path, t).value)
    decreases path
  {
    if path != [] {
      HopCovered(d, g, v, l, t, path[0]);
      PathCovered(d, g, v, path[0].to, Act(d, path[0], t).value, path[1..], to);
    }
  }

  /** Safety: whatever an active pointstamp can result in, along any path however long and through
      any cycle, some element of the destination's frontier is less than or equal to it. */
  lemma Safety<T(!new), S(!new)>(d: Domain<T, S>, g: Graph<S>, v: View<T>, l: Location, t: T, path: seq<Hop<S>>,
                                 to: Location)
    requires LawfulTimes(d) && WellFormed(g) && Settled(d, g, v)
    requires PointCount(v, (l, t)) > 0
    requires IsPath(g, l, path, to) && Along(d, path, t).Some?
    ensures to in v && AnyLessEqual(d.order.le, v[to].frontier, Along(d, path, t).value)
  {
    PointCovered(d, g, v, l, t);
    PathCovered(d, g, v, l, t, path, to);
  }

  // ---- exactness ----

  /** `q` comes strictly after `p`: at a later time, or at the same time and a higher rank. */
  ghost predicate Later<T(!new)>(lt: (T, T) -> bool, rank: map<Location, nat>, p: Point<T>, q: Point<T>) {
    lt(p.1, q.1) || (p.1 == q.1 && p.0 in rank && q.0 in rank && rank[p.0] < rank[q.0])
  }

  lemma LaterTrans<T(!new)>(lt: (T, T) -> bool, rank: map<Location, nat>, p: Point<T>, q: Point<T>, r: Point<T>)
    requires StrictTotal(lt) && Later(lt, rank, p, q) && Later(lt, rank, q, r)
    ensures Later(lt, rank, p, r) && !Later(lt, rank, q, p)
  {
  }

  /** A hop leads to a later point. */
  lemma HopLater<T(!new), S(!new)>(d: Domain<T, S>, g: Graph<S>, rank: map<Location, nat>, l: Location, t: T, h: Hop<S>)
    requires LawfulTimes(d) && Ranked(g, d.zero, rank) && l in Locations(g)
    requires h in Hops(g, l) && Act(d, h, t).Some?
    ensures Later(d.order.lt, rank, (l, t), (h.to, Act(d, h, t).value))
  {
    ActInflates(d, h, t);
  }

  /** `t` is what becomes, at `to`, of a pointstamp in a pointstamp frontier. */
  ghost predicate Reached<T(!new), S(!new)>(d: Domain<T, S>, g: Graph<S>, v: View<T>, to: Location, t: T) {
    exists l, u, path :: ReachedBy(d, g, v, to, t, l, u, path)
  }

  ghost predicate ReachedBy<T(!new), S(!new)>(d: Domain<T, S>, g: Graph<S>, v: View<T>, to: Location, t: T,
                                              l: Location, u: T, path: seq<Hop<S>>) {
    (l, u) in Held(v) && IsPath(g, l, path, to) && Along(d, path, u) == Some(t)
  }

  /** An implied point is held itself, or one hop from an earlier implied point. */
  lemma ImpliedOrigin<T(!new), S(!new)>(d: Domain<T, S>, g: Graph<S>, v: View<T>, q: Point<T>)
    returns (held: bool, p: Point<T>, h: Hop<S>)
    requires Settled(d, g, v) && q in Implied(v)
    ensures held ==> q in Held(v)
    ensures !held ==> p in Implied(v) && h in Hops(g, p.0) && h.to == q.0 && Act(d, h, p.1) == Some(q.1)
  {
    assert IsFrontier(d.order, v[q.0].counts, v[q.0].frontier);
    assert q.1 in v[q.0].frontier;
    assert MinimalPositive(d.order, v[q.0].counts, q.1);
    assert ImplicationCount(v, q) > 0;
    assert Nothing<T>()(q) == 0;
    held := q in Held(v);
    p := q;
    h := Hop(q.0, None);
    if !held {
      var ways := Ways(d, g);
      assert InDegree(ways, Implied(v), q) > 0;
      var into := Into(ways, q);
      p := SumPositive(Implied(v), into);
      assert ways(p, q) > 0;
      h := HopFound(d, Hops(g, p.0), p.1, q);
    }
  }

  /** Exactness: without cycles of default hops, every frontier element is the result of some path
      from a held pointstamp. */
  lemma {:induction false} Exactness<T(!new), S(!new)>(d: Domain<T, S>, g: Graph<S>, rank: map<Location, nat>,
                                                       v: View<T>, q: Point<T>)
    requires LawfulTimes(d) && Ranked(g, d.zero, rank) && Settled(d, g, v)
    requires q in Implied(v)
    ensures Reached(d, g, v, q.0, q.1)
    decreases |set p | p in Implied(v) && Later(d.order.lt, rank, p, q)|
  {
    var held, p, h := ImpliedOrigin(d, g, v, q);
    if held {
      assert ReachedBy(d, g, v, q.0, q.1, q.0, q.1, []);
    } else {
      HopLater(d, g, rank, p.0, p.1, h);
      EarlierFewer(d.order.lt, rank, Implied(v), p, q);
      Exactness(d, g, rank, v, p);
      ReachedHop(d, g, v, p, h, q);
    }
  }

  lemma ReachedHop<T(!new), S(!new)>(d: Domain<T, S>, g: Graph<S>, v: View<T>, p: Point<T>, h: Hop<S>, q: Point<T>)
    requires Reached(d, g, v, p.0, p.1)
    requires h in Hops(g, p.0) && h.to == q.0 && Act(d, h, p.1) == Some(q.1)
    ensures Reached(d, g, v, q.0, q.1)
  {
    var l, u, path :| ReachedBy(d, g, v, p.0, p.1, l, u, path);
    assert IsPath(g, p.0, [h], q.0);
    PathAppend(g, l, path, p.0, [h], q.0);
    AlongAppend(d, path, [h], u);
    assert Along(d, [h], p.1) == Some(q.1);
    assert ReachedBy(d, g, v, q.0, q.1, l, u, path + [h]);
  }

  /** Fewer points precede an earlier point. */
  lemma EarlierFewer<T(!new)>(lt: (T, T) -> bool, rank: map<Location, nat>, all: set<Point<T>>, p: Point<T>,
                              q: Point<T>)
    requires StrictTotal(lt) && p in all && Later(lt, rank, p, q)
    ensures |set x | x in all && Later(lt, rank, x, p)| < |set x | x in all && Later(lt, rank, x, q)|
  {
    var a, b := (set x | x in all && Later(lt, rank, x, p)), (set x | x in all && Later(lt, rank, x, q));
    forall x | x in a ensures x in b {
      LaterTrans(lt, rank, x, p, q);
    }
    assert p in b && p !in a;
    SmallerSet(a, b);
  }

  /** `t` is a minimal result at `to`. */
  ghost predicate MinimalReached<T(!new), S(!new)>(d: Domain<T, S>, g: Graph<S>, v: View<T>, to: Location, t: T) {
    Reached(d, g, v, to, t) && forall u :: Reached(d, g, v, to, u) && d.order.le(u, t) ==> u == t
  }

  lemma ReachedCovered<T(!new), S(!new)>(d: Domain<T, S>, g: Graph<S>, v: View<T>, to: Location, t: T)
    requires LawfulTimes(d) && WellFormed(g) && Settled(d, g, v) && Reached(d, g, v, to, t)
    ensures to in v && AnyLessEqual(d.order.le, v[to].frontier, t)
  {
    var l, u, path :| ReachedBy(d, g, v, to, t, l, u, path);
    assert u in v[l].points;
    assert MinimalPositive(d.order, v[l].pointCounts, u);
    Safety(d, g, v, l, u, path, to);
  }

  /** Without cycles of default hops, each frontier lists exactly the minimal results of paths. */
  lemma FrontierExact<T(!new), S(!new)>(d: Domain<T, S>, g: Graph<S>, rank: map<Location, nat>, v: View<T>,
                                        to: Location, t: T)
    requires LawfulTimes(d) && WellFormed(g) && Ranked(g, d.zero, rank) && Settled(d, g, v) && to in v
    ensures t in v[to].frontier <==> MinimalReached(d, g, v, to, t)
  {
    if t in v[to].frontier {
      assert (to, t) in Implied(v);
      Exactness(d, g, rank, v, (to, t));
      forall u | Reached(d, g, v, to, u) && d.order.le(u, t) ensures u == t {
        ReachedCovered(d, g, v, to, u);
        FrontierMinimal(d.order, v[to].counts, v[to].frontier, u, t);
      }
    }
    if MinimalReached(d, g, v, to, t) {
      ReachedCovered(d, g, v, to, t);
      var i :| 0 <= i < |v[to].frontier| && d.order.le(v[to].frontier[i], t);
      assert (to, v[to].frontier[i]) in Implied(v);
      Exactness(d, g, rank, v, (to, v[to].frontier[i]));
    }
  }

  /** Nothing covered by a frontier is strictly below one of its elements. */
  lemma FrontierMinimal<T(!new)>(o: Order<T>, us: seq<Update<T>>, f: seq<T>, u: T, t: T)
    requires Lawful(o) && IsFrontier(o, us, f) && AnyLessEqual(o.le, f, u) && o.le(u, t) && t in f
    ensures u == t
  {
    var i :| 0 <= i < |f| && o.le(f[i], u);
    assert f[i] in f && MinimalPositive(o, us, f[i]) && MinimalPositive(o, us, t);
    assert o.le(f[i], t);
  }

  /** Incremental maintenance agrees with any other way of settling: the pointstamp counts alone
      determine the frontiers. */
  lemma SettledUnique<T(!new), S(!new)>(d: Domain<T, S>, g: Graph<S>, rank: map<Location, nat>, v: View<T>, w: View<T>,
                                        to: Location, t: T)
    requires LawfulTimes(d) && WellFormed(g) && Ranked(g, d.zero, rank) && Settled(d, g, v) && Settled(d, g, w)
    requires forall q: Point<T> :: PointCount(v, q) == PointCount(w, q)
    requires to in v
    ensures t in v[to].frontier <==> t in w[to].frontier
  {
    SameHeld(d.order, v, w);
    forall u ensures Reached(d, g, v, to, u) <==> Reached(d, g, w, to, u) {
      SameReached(d, g, v, w, to, u);
      SameReached(d, g, w, v, to, u);
    }
    FrontierExact(d, g, rank, v, to, t);
    FrontierExact(d, g, rank, w, to, t);
  }

  lemma SameReached<T(!new), S(!new)>(d: Domain<T, S>, g: Graph<S>, v: View<T>, w: View<T>, to: Location, t: T)
    requires Held(v) == Held(w)
    ensures Reached(d, g, v, to, t) ==> Reached(d, g, w, to, t)
  {
    if Reached(d, g, v, to, t) {
      var l, u, path :| ReachedBy(d, g, v, to, t, l, u, path);
      assert ReachedBy(d, g, w, to, t, l, u, path);
    }
  }

  lemma SameHeld<T(!new)>(o: Order<T>, v: View<T>, w: View<T>)
    requires Consistent(o, v) && Consistent(o, w) && v.Keys == w.Keys
    requires forall q: Point<T> :: PointCount(v, q) == PointCount(w, q)
    ensures Held(v) == Held(w)
  {
    forall l | l in v ensures forall t :: t in v[l].points <==> t in w[l].points {
      forall t ensures Tally(v[l].pointCounts, t) == Tally(w[l].pointCounts, t) {
        assert PointCount(v, (l, t)) == PointCount(w, (l, t));
      }
      FrontierUnique(o, v[l].pointCounts, w[l].pointCounts, v[l].points, w[l].points);
    }
    assert forall p :: p in Held(v) <==> p in Held(w);
  }

  lemma HeldPositive<T(!new)>(o: Order<T>, v: View<T>, p: Point<T>)
    requires Consistent(o, v) && p in Held(v)
    ensures PointCount(v, p) > 0
  {
    assert p.1 in v[p.0].points;
  }

  /** Without cycles of default hops, frontiers are all empty once no pointstamp is active. */
  lemma AllDrained<T(!new), S(!new)>(d: Domain<T, S>, g: Graph<S>, rank: map<Location, nat>, v: View<T>)
    requires LawfulTimes(d) && Ranked(g, d.zero, rank) && Settled(d, g, v)
    requires forall q: Point<T> :: PointCount(v, q) <= 0
    ensures forall l :: l in v ==> v[l].frontier == []
  {
    forall p ensures p !in Held(v) {
      if p in Held(v) {
        HeldPositive(d.order, v, p);
      }
    }
    forall l | l in v ensures v[l].frontier == [] {
      if v[l].frontier != [] {
        assert (l, v[l].frontier[0]) in Implied(v);
        Exactness(d, g, rank, v, (l, v[l].frontier[0]));
      }
    }
  }

  // ---- steps that keep the balance ----

  /** The deltas pending in a worklist. */
  ghost function PendingIn<T>(worklist: seq<Update<Point<T>>>): Point<T> -> int {
    q => Tally(worklist, q)
  }

  /** A view in which the changes pending in `worklist` are all that keeps it from being settled. */
  ghost predicate InBalance<T(!new), S(!new)>(d: Domain<T, S>, g: Graph<S>, v: View<T>,
                                              worklist: seq<Update<Point<T>>>) {
    Balanced(Ways(d, g), v, Implied(v), PendingIn(worklist))
  }

  /** A change of a pointstamp frontier is balanced by pending the same change. */
  lemma BalancedPoints<T(!new)>(ways: Arcs<Point<T>>, v: View<T>, v': View<T>, l: Location, cs: seq<Update<T>>,
                                pending: Point<T> -> int, pending': Point<T> -> int)
    requires Balanced(ways, v, Implied(v), pending) && l in v
    requires v'.Keys == v.Keys && v' == v[l := v[l].(pointCounts := v'[l].pointCounts, points := v'[l].points)]
    requires forall t :: Tally(cs, t) == (if t in v'[l].points then 1 else 0) - (if t in v[l].points then 1 else 0)
    requires forall q :: pending'(q) == pending(q) + (if q.0 == l then Tally(cs, q.1) else 0)
    ensures Balanced(ways, v', Implied(v'), pending')
  {
    forall p ensures p in Implied(v') <==> p in Implied(v) {}
    assert Implied(v') == Implied(v);
    forall q ensures ImplicationCount(v', q) == ImplicationCount(v, q) {}
    forall q ensures (if q in Held(v') then 1 else 0) ==
        (if q in Held(v) then 1 else 0) + (if q.0 == l then Tally(cs, q.1) else 0) {
      if q.0 == l {
        assert q == (l, q.1);
        assert q in Held(v) <==> q.1 in v[l].points;
        assert q in Held(v') <==> q.1 in v'[l].points;
      } else {
        assert q in Held(v) <==> q in Held(v');
      }
    }
  }

  /** Moving a pending delta into the implication counts. */
  lemma BalancedPop<T(!new)>(ways: Arcs<Point<T>>, v: View<T>, v': View<T>, q: Point<T>, delta: int,
                             sent: set<Point<T>>, pending: Point<T> -> int, pending': Point<T> -> int)
    requires Balanced(ways, v, sent, pending) && q.0 in v
    requires v'.Keys == v.Keys && v' == v[q.0 := v[q.0].(counts := v'[q.0].counts, frontier := v'[q.0].frontier)]
    requires forall t :: Tally(v'[q.0].counts, t) == Tally(v[q.0].counts, t) + (if t == q.1 then delta else 0)
    requires forall p :: pending'(p) == pending(p) - (if p == q then delta else 0)
    ensures Balanced(ways, v', sent, pending')
  {
    forall p ensures p in Held(v') <==> p in Held(v) {}
    forall p ensures ImplicationCount(v', p) == ImplicationCount(v, p) + (if p == q then delta else 0) {
      if p.0 == q.0 {
        assert p == (q.0, p.1);
      }
    }
  }

  /** Sending one change of an implication frontier along all its ways. */
  lemma BalancedSend<T(!new)>(ways: Arcs<Point<T>>, v: View<T>, p: Point<T>, delta: int, sent: set<Point<T>>,
                              sent': set<Point<T>>, pending: Point<T> -> int, pending': Point<T> -> int)
    requires Balanced(ways, v, sent, pending)
    requires (delta == 1 && p !in sent && sent' == sent + {p}) || (delta == -1 && p in sent && sent' == sent - {p})
    requires forall q :: pending'(q) == pending(q) + delta * ways(p, q)
    ensures Balanced(ways, v, sent', pending')
  {
    forall q ensures InDegree(ways, sent', q) == InDegree(ways, sent, q) + delta * ways(p, q) {
      if delta == 1 {
        SumAdd(sent, Into(ways, q), p);
      } else {
        SumRemove(sent, Into(ways, q), p);
      }
    }
  }

  /** Only pending functions' values matter. */
  lemma BalancedSame<T(!new)>(ways: Arcs<Point<T>>, v: View<T>, sent: set<Point<T>>, pending: Point<T> -> int,
                              pending': Point<T> -> int)
    requires Balanced(ways, v, sent, pending) && forall q :: pending(q) == pending'(q)
    ensures Balanced(ways, v, sent, pending')
  {
  }

  /** When the count of `t` alone changes, only elements at or above `t` enter or leave the frontier. */
  lemma ChangesAbove<T(!new)>(o: Order<T>, us: seq<Update<T>>, vs: seq<Update<T>>, t: T, delta: int, f: seq<T>,
                              f': seq<T>, u: T)
    requires Lawful(o) && IsFrontier(o, us, f) && IsFrontier(o, vs, f')
    requires forall x :: Tally(vs, x) == Tally(us, x) + (if x == t then delta else 0)
    requires u in f <==> u !in f'
    ensures o.le(t, u)
  {
    assert o.le(t, t);
    if u != t {
      if u in f {
        assert MinimalPositive(o, us, u) && !MinimalPositive(o, vs, u);
      } else {
        assert MinimalPositive(o, vs, u) && !MinimalPositive(o, us, u);
      }
    }
  }
}
