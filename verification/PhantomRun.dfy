/** How trackers get to frontiers that nothing active accounts for. */
module PhantomRuns {
  import opened Updates
  import opened Orders
  import opened Sums
  import opened Timestamps
  import opened Graphs
  import opened Digraphs
  import opened Propagation
  import opened Ports
  import opened Worklists
  import opened Convergence
  import opened Locality
  import opened Outputs
  import opened Phantoms
  import opened Trackers

  /** A pointstamp that is all there ever was, at a location of a cycle of default hops. */
  ghost predicate Alone<T(!new), S(!new)>(d: Domain<T, S>, g: Graph<S>, v: View<T>, p: Point<T>) {
    && Settled(d, g, v) && (forall q :: PointCount(v, q) == if q == p then 1 else 0)
    && Local(d, g, {p}, {}, Implied(v))
  }

  ghost predicate Round<S(!new)>(g: Graph<S>, zero: S, l: Location, round: seq<Hop<S>>) {
    round != [] && AllDefault(zero, round) && IsPath(g, l, round, l)
  }

  /** Its time is in the frontier wherever default hops lead from it. */
  lemma AloneLeads<T(!new), S(!new)>(d: Domain<T, S>, g: Graph<S>, v: View<T>, p: Point<T>, path: seq<Hop<S>>,
                                     k: Location)
    requires LawfulTimes(d) && WellFormed(g) && Alone(d, g, v, p)
    requires AllDefault(d.zero, path) && IsPath(g, p.0, path, k)
    ensures (k, p.1) in Implied(v)
  {
    DefaultAlong(d, path, p.1);
    assert p == (p.0, p.1);
    Safety(d, g, v, p.0, p.1, path, k);
    var i :| 0 <= i < |v[k].frontier| && d.order.le(v[k].frontier[i], p.1);
    var q := (k, v[k].frontier[i]);
    assert q in Implied(v);
    var c :| c in {p} && CouldResultIn(d, g, c, q);
    var other :| Leads(d, g, p, q, other);
    AlongInflates(d, other, p.1);
    assert q.1 == p.1;
  }

  /** Round a cycle, the pointstamp accounts for itself. */
  lemma AloneReturns<T(!new), S(!new)>(d: Domain<T, S>, g: Graph<S>, v: View<T>, p: Point<T>, round: seq<Hop<S>>)
    requires LawfulTimes(d) && WellFormed(g) && Alone(d, g, v, p) && Round(g, d.zero, p.0, round)
    ensures InDegree(Ways(d, g), Implied(v), p) > 0
  {
    var k := LastHop(g, p.0, round, p.0);
    var h := round[|round| - 1];
    assert h in round && forall x :: x in round[..|round| - 1] ==> x in round;
    AloneLeads(d, g, v, p, round[..|round| - 1], k);
    ActInflates(d, h, p.1);
    HopCounted(d, Hops(g, k), h, p.1);
    assert p == (h.to, p.1) && Act(d, h, p.1) == Some(p.1);
    WaysCounts(d, g);
    InDegreeBounds(Ways(d, g), Implied(v), p);
  }

  /** So the frontiers are right without it, too. */
  lemma RightWithout<T(!new), S(!new)>(d: Domain<T, S>, g: Graph<S>, v: View<T>, p: Point<T>, round: seq<Hop<S>>)
    requires LawfulTimes(d) && WellFormed(g) && Alone(d, g, v, p) && Round(g, d.zero, p.0, round)
    ensures Right(d, g, Implied(v), {})
  {
    AloneReturns(d, g, v, p, round);
    SettledRight(d, g, v);
    HeldAlone(d, g, v, p);
    WaysCounts(d, g);
    forall l | l in Locations(g) ensures RightAt(d, g, Implied(v), {}, l) {
      assert RightAt(d, g, Implied(v), Held(v), l);
      forall t ensures Due(d, g, Implied(v), {})((l, t)) > 0 <==> Due(d, g, Implied(v), Held(v))((l, t)) > 0 {
        InDegreeBounds(Ways(d, g), Implied(v), (l, t));
      }
    }
  }

  lemma HeldAlone<T(!new), S(!new)>(d: Domain<T, S>, g: Graph<S>, v: View<T>, p: Point<T>)
    requires Alone(d, g, v, p)
    ensures Held(v) <= {p}
  {
    forall q | q in Held(v) ensures q == p {
      HeldPositive(d.order, v, q);
    }
  }

  /** An empty tracker counts nothing and has empty frontiers. */
  lemma EmptyMeans<T(!new), S(!new)>(tracker: Tracker<T, S>)
    requires AllEmpty(tracker.ports) && tracker.targetChanges.updates == tracker.sourceChanges.updates == []
    ensures Implied(tracker.View()) == {} && forall q :: PointCount(tracker.View(), q) == 0
    ensures Keys(tracker.targetChanges.updates) + Keys(tracker.sourceChanges.updates) == {}
  {
    hide PortInformation.View;
    assert forall l :: l in tracker.ports ==> tracker.View()[l] == PortView([], [], [], []);
  }

  lemma OwnBuffers<T(!new), S(!new)>(tracker: Tracker<T, S>)
    ensures {tracker.targetChanges, tracker.sourceChanges} <= tracker.Repr()
  {
    hide Footprint;
  }

  /** One buffered change, wherever it is buffered. */
  lemma OneBuffered<T(!new)>(targets: seq<Update<Point<T>>>, sources: seq<Update<Point<T>>>, l: Location, t: T,
                             value: int)
    requires SameTally(targets, [] + if l.port.TargetPort? then [((l, t), value)] else [])
    requires SameTally(sources, [] + if l.port.SourcePort? then [((l, t), value)] else [])
    ensures forall q :: Tally(targets + sources, q) == if q == (l, t) then value else 0
  {
    forall q ensures Tally(targets + sources, q) == if q == (l, t) then value else 0 {
      TallyAppend(targets, sources, q);
      TallyOne<Point<T>>([], (l, t), value);
    }
  }

  lemma AloneNow<T(!new), S(!new)>(d: Domain<T, S>, g: Graph<S>, v0: View<T>, v: View<T>, us: seq<Update<Point<T>>>,
                                   keys: set<Point<T>>, p: Point<T>)
    requires Settled(d, g, v) && PointCountsPlus(v, v0, us) && forall q :: PointCount(v0, q) == 0
    requires forall q :: Tally(us, q) == if q == p then 1 else 0
    requires Local(d, g, keys, {}, Implied(v)) && keys <= {p}
    ensures Alone(d, g, v, p)
  {
    hide Settled;
    forall q | !(q in {} <==> q in Implied(v)) ensures Stems(d, g, {p}, q) {
      StemsMore(d, g, keys, {p}, q);
    }
  }

  lemma NoneLeft<T(!new), S(!new)>(d: Domain<T, S>, g: Graph<S>, v: View<T>, v': View<T>, us: seq<Update<Point<T>>>,
                                   p: Point<T>)
    requires Alone(d, g, v, p) && Settled(d, g, v') && PointCountsPlus(v', v, us)
    requires forall q :: Tally(us, q) == if q == p then -1 else 0
    ensures Held(v') == {} && forall q :: PointCount(v', q) == 0
  {
    forall q | q in Held(v') ensures false {
      HeldPositive(d.order, v', q);
    }
  }

  /** Round any cycle of default hops of any graph, the frontiers keep a pointstamp that came and went:
      a tracker that is told of it, propagates, is told that it is gone and propagates again ends
      with that time in the frontier wherever default hops lead from there, and nothing active. */
  method PhantomRun<T(==,!new), S(==,!new)>(d: Domain<T, S>, g: Graph<S>, outputSummaries: Summaries<S>,
                                            scopeOutputs: nat, l: Location, ghost round: seq<Hop<S>>, t: T)
    returns (tracker: Tracker<T, S>)
    requires LawfulTimes(d) && WellFormed(g) && Round(g, d.zero, l, round)
    requires forall k :: k in outputSummaries ==> |outputSummaries[k]| <= scopeOutputs
    ensures tracker.Valid() && fresh(tracker.Repr()) && tracker.d == d && tracker.g == g
    ensures tracker.targetChanges.updates == tracker.sourceChanges.updates == []
    ensures Settled(d, g, tracker.View()) && forall q :: PointCount(tracker.View(), q) == 0
    ensures (l, t) in Implied(tracker.View())
    ensures forall path, k :: AllDefault(d.zero, path) && IsPath(g, l, path, k) ==> (k, t) in Implied(tracker.View())
  {
    hide *;
    ghost var p := (l, t);
    RoundHas(d, g, p, round);
    tracker := Allocate(d, g, outputSummaries, scopeOutputs);
    EmptyMeans(tracker);
    OwnBuffers(tracker);
    ghost var v0 := tracker.View();
    tracker.Update(l, t, 1);
    OneBuffered(tracker.targetChanges.updates, tracker.sourceChanges.updates, l, t, 1);
    ghost var us, keys := tracker.targetChanges.updates + tracker.sourceChanges.updates,
      Keys(tracker.targetChanges.updates) + Keys(tracker.sourceChanges.updates);
    tracker.PropagateAll();
    ghost var v := tracker.View();
    AloneNow(d, g, v0, v, us, keys, p);
    RightWithout(d, g, v, p, round);
    LeadsAll(d, g, v, p, round);
    tracker.Update(l, t, -1);
    OneBuffered(tracker.targetChanges.updates, tracker.sourceChanges.updates, l, t, -1);
    us := tracker.targetChanges.updates + tracker.sourceChanges.updates;
    tracker.PropagateAll();
    NoneLeft(d, g, v, tracker.View(), us, p);
  }

  lemma RoundHas<T(!new), S(!new)>(d: Domain<T, S>, g: Graph<S>, p: Point<T>, round: seq<Hop<S>>)
    requires LawfulTimes(d) && WellFormed(g) && Round(g, d.zero, p.0, round)
    ensures Has(g, p.0)
  {
    EchoesItself(d, g, p, round);
    LocationsAll(g);
  }

  lemma LeadsAll<T(!new), S(!new)>(d: Domain<T, S>, g: Graph<S>, v: View<T>, p: Point<T>, round: seq<Hop<S>>)
    requires LawfulTimes(d) && WellFormed(g) && Alone(d, g, v, p) && Round(g, d.zero, p.0, round)
    ensures p in Implied(v)
    ensures forall path, k :: AllDefault(d.zero, path) && IsPath(g, p.0, path, k) ==> (k, p.1) in Implied(v)
  {
    hide Alone;
    forall path, k | AllDefault(d.zero, path) && IsPath(g, p.0, path, k) ensures (k, p.1) in Implied(v) {
      AloneLeads(d, g, v, p, path, k);
    }
    assert p == (p.0, p.1) && IsPath(g, p.0, [], p.0);
  }
}
