/** Cycles of default hops: exactly where frontiers can sustain themselves. */
module Phantoms {
  import opened Updates
  import opened Orders
  import opened Sums
  import opened Basics
  import opened Timestamps
  import opened Graphs
  import opened Digraphs
  import opened Propagation
  import opened Convergence
  import opened Acyclic

  // ---- listing finite sets ----

  /** An update for each time, by what `f` says of it. */
  ghost function CountsOf<T>(f: T -> int, ts: set<T>): seq<Update<T>> {
    if ts == {} then []
    else
      var t :| t in ts;
      [(t, f(t))] + CountsOf(f, ts - {t})
  }

  lemma {:induction false} CountsOfTally<T(!new)>(f: T -> int, ts: set<T>, t: T)
    ensures Tally(CountsOf(f, ts), t) == if t in ts then f(t) else 0
  {
    if ts != {} {
      var x :| x in ts && CountsOf(f, ts) == [(x, f(x))] + CountsOf(f, ts - {x});
      CountsOfTally(f, ts - {x}, t);
      assert CountsOf(f, ts)[1..] == CountsOf(f, ts - {x});
    }
  }

  ghost function Listing<T>(ts: set<T>): seq<T> {
    if ts == {} then []
    else
      var t :| t in ts;
      [t] + Listing(ts - {t})
  }

  lemma {:induction false} ListingAll<T(!new)>(ts: set<T>)
    ensures Distinct(Listing(ts)) && forall t :: t in Listing(ts) <==> t in ts
  {
    if ts != {} {
      var x :| x in ts && Listing(ts) == [x] + Listing(ts - {x});
      ListingAll(ts - {x});
      assert forall i :: 0 < i < |Listing(ts)| ==> Listing(ts)[i] == Listing(ts - {x})[i - 1];
    }
  }

  // ---- all that a point leads to ----

  ghost predicate TakenBy<T, S(!new)>(d: Domain<T, S>, g: Graph<S>, p: Point<T>, q: Point<T>, path: seq<Hop<S>>) {
    IsPath(g, p.0, path, q.0) && Along(d, path, p.1) == Some(q.1)
  }

  /** Some path takes `p` to `q`. */
  ghost predicate ComesFrom<T, S(!new)>(d: Domain<T, S>, g: Graph<S>, p: Point<T>, q: Point<T>) {
    exists path :: TakenBy(d, g, p, q, path)
  }

  /** No earlier time comes from `p` at the location of `q`. */
  ghost predicate FirstFrom<T(!new), S(!new)>(d: Domain<T, S>, g: Graph<S>, p: Point<T>, q: Point<T>) {
    ComesFrom(d, g, p, q) && forall x :: ComesFrom(d, g, p, (q.0, x)) && d.order.le(x, q.1) ==> x == q.1
  }

  /** The first points that come from `p`. */
  ghost function Echo<T(!new), S(!new)>(d: Domain<T, S>, g: Graph<S>, p: Point<T>): set<Point<T>> {
    set q | q in AllPoints(d, g) && FirstFrom(d, g, p, q)
  }

  lemma ComesFurther<T(!new), S(!new)>(d: Domain<T, S>, g: Graph<S>, p: Point<T>, q: Point<T>, h: Hop<S>)
    requires ComesFrom(d, g, p, q) && h in Hops(g, q.0) && Act(d, h, q.1).Some?
    ensures ComesFrom(d, g, p, (h.to, Act(d, h, q.1).value))
  {
    var path :| TakenBy(d, g, p, q, path);
    var last := [h];
    assert last[1..] == [] && IsPath(g, h.to, [], h.to);
    assert IsPath(g, q.0, last, h.to);
    PathAppend(g, p.0, path, q.0, last, h.to);
    AlongAppend(d, path, last, p.1);
    assert Along(d, last, q.1) == Act(d, h, q.1);
    assert TakenBy(d, g, p, (h.to, Act(d, h, q.1).value), path + last);
  }

  /** Nothing that comes from a point is earlier. */
  lemma ComesLater<T(!new), S(!new)>(d: Domain<T, S>, g: Graph<S>, p: Point<T>, q: Point<T>)
    requires LawfulTimes(d) && ComesFrom(d, g, p, q)
    ensures d.order.le(p.1, q.1)
  {
    var path :| TakenBy(d, g, p, q, path);
    AlongInflates(d, path, p.1);
  }

  lemma {:induction false} FirstBelow<T(!new), S(!new)>(d: Domain<T, S>, g: Graph<S>, p: Point<T>, l: Location, w: T)
    returns (x: T)
    requires LawfulTimes(d) && ComesFrom(d, g, p, (l, w))
    ensures FirstFrom(d, g, p, (l, x)) && d.order.le(x, w)
    decreases |set u | u in d.times && d.order.lt(u, w)|
  {
    if y :| ComesFrom(d, g, p, (l, y)) && d.order.le(y, w) && y != w {
      var a, b := (set u | u in d.times && d.order.lt(u, y)), (set u | u in d.times && d.order.lt(u, w));
      assert a <= b && y in b && y !in a;
      SmallerSet(a, b);
      x := FirstBelow(d, g, p, l, y);
    } else {
      x := w;
    }
  }

  lemma {:induction false} DefaultAlong<T(!new), S(!new)>(d: Domain<T, S>, path: seq<Hop<S>>, t: T)
    requires LawfulTimes(d) && AllDefault(d.zero, path)
    ensures Along(d, path, t) == Some(t)
  {
    if path != [] {
      assert path[0] in path && forall h :: h in path[1..] ==> h in path;
      ActInflates(d, path[0], t);
      DefaultAlong(d, path[1..], t);
    }
  }

  /** The last hop of a path. */
  lemma {:induction false} LastHop<S(!new)>(g: Graph<S>, from: Location, path: seq<Hop<S>>, to: Location)
    returns (k: Location)
    requires IsPath(g, from, path, to) && path != []
    ensures IsPath(g, from, path[..|path| - 1], k) && path[|path| - 1] in Hops(g, k) && path[|path| - 1].to == to
    decreases path
  {
    if |path| == 1 {
      k := from;
      assert path[..0] == [] && path[1..] == [];
    } else {
      k := LastHop(g, path[0].to, path[1..], to);
      assert path[..|path| - 1][1..] == path[1..][..|path| - 2];
      assert path[..|path| - 1][0] == path[0];
    }
  }

  /** A first point that a path of at least one hop leads to is one hop from a first point. */
  lemma HasPredecessor<T(!new), S(!new)>(d: Domain<T, S>, g: Graph<S>, p: Point<T>, q: Point<T>, path: seq<Hop<S>>)
    returns (x: Point<T>, h: Hop<S>)
    requires LawfulTimes(d) && path != [] && TakenBy(d, g, p, q, path) && FirstFrom(d, g, p, q)
    ensures FirstFrom(d, g, p, x) && h in Hops(g, x.0) && h.to == q.0 && Act(d, h, x.1) == Some(q.1)
  {
    var k := LastHop(g, p.0, path, q.0);
    var init, last := path[..|path| - 1], [path[|path| - 1]];
    h := path[|path| - 1];
    assert path == init + last;
    AlongAppend(d, init, last, p.1);
    var w := Along(d, init, p.1).value;
    assert Along(d, last, w) == Act(d, h, w) by { assert last[1..] == []; }
    assert TakenBy(d, g, p, (k, w), init);
    var w' := FirstBelow(d, g, p, k, w);
    x := (k, w');
    ActMonotone(d, h, w', w);
    ComesFurther(d, g, p, x, h);
  }

  // ---- the view that echoes a point on a cycle ----

  ghost function EchoDegree<T(!new), S(!new)>(d: Domain<T, S>, g: Graph<S>, p: Point<T>, l: Location): T -> int {
    t => InDegree(Ways(d, g), Echo(d, g, p), (l, t))
  }

  ghost function EchoView<T(!new), S(!new)>(d: Domain<T, S>, g: Graph<S>, p: Point<T>): View<T> {
    map l | l in Locations(g) ::
      PortView([], [], CountsOf(EchoDegree(d, g, p, l), d.times),
               Listing(set t | t in d.times && (l, t) in Echo(d, g, p)))
  }

  /** What one hop from the echo leads to comes from `p`. */
  lemma DegreeComes<T(!new), S(!new)>(d: Domain<T, S>, g: Graph<S>, p: Point<T>, q: Point<T>)
    requires WellFormed(g) && InDegree(Ways(d, g), Echo(d, g, p), q) > 0
    ensures ComesFrom(d, g, p, q) && q.0 in Locations(g)
  {
    var ways := Ways(d, g);
    var x := SumPositive(Echo(d, g, p), Into(ways, q));
    var h := HopFound(d, Hops(g, x.0), x.1, q);
    ComesFurther(d, g, p, x, h);
    assert q == (q.0, q.1);
    HopsLead(g, x.0);
    LocationsAll(g);
  }

  /** On a cycle of default hops, every first point is one hop from another. */
  lemma EchoReturns<T(!new), S(!new)>(d: Domain<T, S>, g: Graph<S>, p: Point<T>, round: seq<Hop<S>>, q: Point<T>)
    requires LawfulTimes(d) && WellFormed(g) && round != [] && AllDefault(d.zero, round) && IsPath(g, p.0, round, p.0)
    requires q in Echo(d, g, p)
    ensures InDegree(Ways(d, g), Echo(d, g, p), q) > 0
  {
    var path :| TakenBy(d, g, p, q, path);
    if path == [] {
      assert q == p by { assert p == (p.0, p.1) && q == (q.0, q.1); }
      DefaultAlong(d, round, p.1);
      path := round;
    }
    var x, h := HasPredecessor(d, g, p, q, path);
    assert x in Echo(d, g, p) by {
      LocationsAll(g);
      assert Has(g, x.0) && x == (x.0, x.1);
    }
    HopCounted(d, Hops(g, x.0), h, x.1);
    assert q == (h.to, Act(d, h, x.1).value);
    WaysCounts(d, g);
    InDegreeBounds(Ways(d, g), Echo(d, g, p), q);
  }

  /** So at each location the first times are the minimal ones of positive count. */
  lemma EchoMinimal<T(!new), S(!new)>(d: Domain<T, S>, g: Graph<S>, p: Point<T>, round: seq<Hop<S>>, l: Location,
                                      us: seq<Update<T>>, t: T)
    requires LawfulTimes(d) && WellFormed(g) && round != [] && AllDefault(d.zero, round) && IsPath(g, p.0, round, p.0)
    requires l in Locations(g) && forall u :: Tally(us, u) == EchoDegree(d, g, p, l)(u)
    ensures (l, t) in Echo(d, g, p) <==> MinimalPositive(d.order, us, t)
  {
    hide ComesFrom;
    hide InDegree;
    hide Locations;
    if (l, t) in Echo(d, g, p) {
      EchoReturns(d, g, p, round, (l, t));
      forall x | Tally(us, x) > 0 && d.order.le(x, t) ensures x == t {
        DegreeComes(d, g, p, (l, x));
      }
    }
    if MinimalPositive(d.order, us, t) {
      DegreeComes(d, g, p, (l, t));
      forall x | ComesFrom(d, g, p, (l, x)) && d.order.le(x, t) ensures x == t {
        var y := FirstBelow(d, g, p, l, x);
        assert (l, y) in Echo(d, g, p);
        EchoReturns(d, g, p, round, (l, y));
        assert d.order.le(y, t);
      }
      assert (l, t) in AllPoints(d, g);
    }
  }

  lemma EchoSets<T(!new), S(!new)>(d: Domain<T, S>, g: Graph<S>, p: Point<T>)
    requires LawfulTimes(d)
    ensures Held(EchoView(d, g, p)) == {} && Implied(EchoView(d, g, p)) == Echo(d, g, p)
  {
    var v := EchoView(d, g, p);
    forall q ensures q in Implied(v) <==> q in Echo(d, g, p) {
      assert q == (q.0, q.1);
      if q.0 in Locations(g) {
        ListingAll(set t | t in d.times && (q.0, t) in Echo(d, g, p));
      }
    }
  }

  /** The view is settled, with no pointstamp anywhere. */
  lemma EchoSettled<T(!new), S(!new)>(d: Domain<T, S>, g: Graph<S>, p: Point<T>, round: seq<Hop<S>>)
    requires LawfulTimes(d) && WellFormed(g) && round != [] && AllDefault(d.zero, round) && IsPath(g, p.0, round, p.0)
    ensures Settled(d, g, EchoView(d, g, p))
    ensures forall q :: PointCount(EchoView(d, g, p), q) == 0
  {
    hide InDegree;
    hide Echo;
    hide Locations;
    var v := EchoView(d, g, p);
    EchoSets(d, g, p);
    forall l | l in v
      ensures IsFrontier(d.order, v[l].pointCounts, v[l].points) && IsFrontier(d.order, v[l].counts, v[l].frontier)
      ensures forall t :: Tally(v[l].counts, t) == EchoDegree(d, g, p, l)(t)
    {
      forall t ensures Tally(v[l].counts, t) == EchoDegree(d, g, p, l)(t) {
        CountsOfTally(EchoDegree(d, g, p, l), d.times, t);
      }
      ListingAll(set t | t in d.times && (l, t) in Echo(d, g, p));
      forall t ensures t in v[l].frontier <==> MinimalPositive(d.order, v[l].counts, t) {
        EchoMinimal(d, g, p, round, l, v[l].counts, t);
      }
    }
    forall q ensures ImplicationCount(v, q) + Nothing<T>()(q) ==
        (if q in Held(v) then 1 else 0) + InDegree(Ways(d, g), Implied(v), q) {
      WaysCounts(d, g);
      InDegreeBounds(Ways(d, g), Echo(d, g, p), q);
      if q.0 in v {
        assert Tally(v[q.0].counts, q.1) == EchoDegree(d, g, p, q.0)(q.1);
        assert q == (q.0, q.1);
      } else if InDegree(Ways(d, g), Echo(d, g, p), q) > 0 {
        DegreeComes(d, g, p, q);
      }
    }
  }

  /** The point itself is first on a cycle of default hops. */
  lemma EchoesItself<T(!new), S(!new)>(d: Domain<T, S>, g: Graph<S>, p: Point<T>, round: seq<Hop<S>>)
    requires LawfulTimes(d) && WellFormed(g) && round != [] && AllDefault(d.zero, round) && IsPath(g, p.0, round, p.0)
    ensures p in Echo(d, g, p) && p.0 in Locations(g)
  {
    LocationsAll(g);
    assert round[0] in Hops(g, p.0) && p == (p.0, p.1);
    assert TakenBy(d, g, p, p, []);
    forall x | ComesFrom(d, g, p, (p.0, x)) && d.order.le(x, p.1) ensures x == p.1 {
      ComesLater(d, g, p, (p.0, x));
    }
  }

  /** On every graph with a cycle of default hops, and for every time, some view is settled in which that
      time is in the frontier somewhere on the cycle, although no pointstamp is active anywhere. */
  lemma PhantomFrontier<T(!new), S(!new)>(d: Domain<T, S>, g: Graph<S>, t: T)
    returns (l: Location, round: seq<Hop<S>>, v: View<T>)
    requires LawfulTimes(d) && WellFormed(g) && HasDefaultCycle(g, d.zero)
    ensures round != [] && AllDefault(d.zero, round) && IsPath(g, l, round, l)
    ensures Settled(d, g, v) && forall q :: PointCount(v, q) == 0
    ensures l in v && t in v[l].frontier && !Reached(d, g, v, l, t)
  {
    hide Settled;
    hide LawfulTimes;
    hide WellFormed;
    hide Echo;
    hide Held;
    l, round :| round != [] && AllDefault(d.zero, round) && IsPath(g, l, round, l);
    var p := (l, t);
    v := EchoView(d, g, p);
    EchoSettled(d, g, p, round);
    EchoSets(d, g, p);
    EchoesItself(d, g, p, round);
    assert p in Implied(v);
  }

  // ---- exactly when frontiers are exact ----

  /** Each frontier lists exactly the minimal results of paths from active pointstamps. */
  ghost predicate Exact<T(!new), S(!new)>(d: Domain<T, S>, g: Graph<S>, v: View<T>) {
    forall to, t :: to in v ==> (t in v[to].frontier <==> MinimalReached(d, g, v, to, t))
  }

  /** Settled frontiers are exact on a graph exactly if it has no cycle of default hops. */
  lemma ExactExactly<T(!new), S(!new)>(d: Domain<T, S>, g: Graph<S>, t: T)
    requires LawfulTimes(d) && WellFormed(g)
    ensures (forall v :: Settled(d, g, v) ==> Exact(d, g, v)) <==> !HasDefaultCycle(g, d.zero)
  {
    hide Settled;
    hide LawfulTimes;
    hide WellFormed;
    if HasDefaultCycle(g, d.zero) {
      var l, _, v := PhantomFrontier(d, g, t);
      assert !MinimalReached(d, g, v, l, t);
    } else {
      var rank := RankExists(g, d.zero);
      forall v: View<T>, to: Location, u: T | Settled(d, g, v) && to in v
        ensures u in v[to].frontier <==> MinimalReached(d, g, v, to, u) {
        FrontierExact(d, g, rank, v, to, u);
      }
    }
  }
}
