/** The tracker: incremental propagation of pointstamp changes through a graph. */
module Trackers {
  import opened Updates
  import opened ChangeBatches
  import opened Orders
  import opened Timestamps
  import opened Graphs
  import opened Digraphs
  import opened Propagation
  import opened Trading
  import opened Ports
  import opened Worklists
  import opened Outputs
  import opened Convergence
  import opened Locality

  /** A pointstamp change keeps the balance if the frontier's changes are put on the worklist. */
  lemma PointsInBalance<T(!new), S(!new)>(d: Domain<T, S>, g: Graph<S>, v: View<T>, v': View<T>, l: Location, t: T,
                                          delta: int, cs: seq<Update<T>>, worklist: seq<Entry<T>>,
                                          worklist': seq<Entry<T>>)
    requires InBalance(d, g, v, worklist) && PointsChanged(v, v', l, t, delta, cs)
    requires forall q :: Tally(worklist', q) == Tally(worklist, q) + (if q.0 == l then Tally(cs, q.1) else 0)
    ensures InBalance(d, g, v', worklist')
  {
    BalancedPoints(Ways(d, g), v, v', l, cs, PendingIn(worklist), PendingIn(worklist'));
  }

  /** An empty worklist in balance means a settled view. */
  lemma BalanceSettles<T(!new), S(!new)>(d: Domain<T, S>, g: Graph<S>, v: View<T>)
    requires v.Keys == Locations(g) && Consistent(d.order, v) && InBalance(d, g, v, [])
    ensures Settled(d, g, v)
  {
    BalancedSame(Ways(d, g), v, Implied(v), PendingIn([]), Nothing());
  }

  lemma EmptyInBalance<T(!new), S(!new)>(d: Domain<T, S>, g: Graph<S>, v: View<T>)
    requires forall l :: l in v ==> v[l] == PortView([], [], [], [])
    ensures InBalance(d, g, v, []) && Held(v) == {}
  {
    assert Held(v) == {} && Implied(v) == {};
  }

  lemma FootprintAdd<T(!new)>(ports: PortMap<T>, l: Location, port: PortInformation<T>)
    requires l !in ports && Separate(ports) && Footprint(ports) !! port.Repr()
    ensures Separate(ports[l := port]) && Footprint(ports[l := port]) == Footprint(ports) + port.Repr()
  {
    forall k | k in ports ensures ports[k].Repr() !! port.Repr() {
      assert forall o :: o in ports[k].Repr() ==> o in Footprint(ports);
    }
    var ports' := ports[l := port];
    forall o | o in Footprint(ports') ensures o in Footprint(ports) + port.Repr() {
      var k :| k in ports' && o in ports'[k].Repr();
    }
    forall o | o in Footprint(ports) + port.Repr() ensures o in Footprint(ports') {
      if o in port.Repr() {
        assert o in ports'[l].Repr();
      } else {
        var k :| k in ports && o in ports[k].Repr();
        assert o in ports'[k].Repr();
      }
    }
  }

  ghost predicate AllEmpty<T(!new)>(ports: PortMap<T>)
    reads Footprint(ports)
  {
    forall l :: l in ports ==> ports[l].View() == PortView([], [], [], [])
  }

  method AllocatePort<T(==,!new)>(order: Order<T>, ports: PortMap<T>, l: Location) returns (ports': PortMap<T>)
    requires Lawful(order) && l !in ports && Separate(ports) && PortsValid(order, ports) && AllEmpty(ports)
    ensures ports'.Keys == ports.Keys + {l} && Separate(ports') && PortsValid(order, ports') && AllEmpty(ports')
    ensures fresh(Footprint(ports') - Footprint(ports))
  {
    hide *;
    FootprintAllocated(ports);
    var port := new PortInformation<T>(order);
    assert PortsValid(order, ports) && AllEmpty(ports);
    FootprintAdd(ports, l, port);
    PortsAdd(order, ports, l, port);
    ports' := ports[l := port];
  }

  lemma PortsAdd<T(!new)>(order: Order<T>, ports: PortMap<T>, l: Location, port: PortInformation<T>)
    requires PortsValid(order, ports) && AllEmpty(ports) && l !in ports
    requires port.Valid() && port.order == order && port.View() == PortView([], [], [], [])
    ensures PortsValid(order, ports[l := port]) && AllEmpty(ports[l := port])
  {
    hide PortInformation.Valid;
    hide PortInformation.View;
  }

  lemma NoPorts<T(!new)>(order: Order<T>, ports: PortMap<T>)
    requires ports == map[]
    ensures Separate(ports) && PortsValid(order, ports) && AllEmpty(ports) && Footprint(ports) == {}
  {
  }

  method AllocatePorts<T(==,!new)>(order: Order<T>, locations: set<Location>) returns (ports: PortMap<T>)
    requires Lawful(order)
    ensures ports.Keys == locations && Separate(ports) && PortsValid(order, ports) && AllEmpty(ports) &&
            fresh(Footprint(ports))
  {
    hide *;
    ports := map[];
    NoPorts(order, ports);
    var remaining := locations;
    while remaining != {}
      invariant ports.Keys == locations - remaining && remaining <= locations
      invariant Separate(ports) && PortsValid(order, ports) && AllEmpty(ports) && fresh(Footprint(ports))
      decreases remaining
    {
      var l :| l in remaining;
      ports := AllocatePort(order, ports, l);
      remaining := remaining - {l};
    }
  }

  method AllocateOutputs<T(==,!new)>(order: Order<T>, n: nat) returns (outputs: seq<ChangeBatch<T>>)
    requires Lawful(order)
    ensures |outputs| == n && BatchesValid(outputs)
    ensures forall o :: 0 <= o < n ==> fresh(outputs[o]) && outputs[o].updates == []
  {
    outputs := [];
    for o := 0 to n
      invariant |outputs| == o && BatchesValid(outputs)
      invariant forall k :: 0 <= k < o ==> fresh(outputs[k]) && outputs[k].updates == []
    {
      var batch := new ChangeBatch<T>(order.lt);
      assert batch !in outputs;
      outputs := outputs + [batch];
    }
  }

  ghost function ObjectsOf<T(!new)>(outputs: seq<ChangeBatch<T>>): set<object> {
    set o | o in outputs
  }

  /** The parts of a tracker share no objects. */
  ghost predicate PartsSeparate<T(!new)>(ports: PortMap<T>, targetChanges: ChangeBatch<Point<T>>,
                                         sourceChanges: ChangeBatch<Point<T>>, pushedChanges: ChangeBatch<Point<T>>,
                                         outputs: seq<ChangeBatch<T>>) {
    && Separate(ports)
    && targetChanges != sourceChanges && targetChanges != pushedChanges && sourceChanges != pushedChanges
    && Footprint(ports) !! {targetChanges, sourceChanges, pushedChanges} + ObjectsOf(outputs)
    && ObjectsOf(outputs) !! {targetChanges, sourceChanges, pushedChanges}
  }

  /** The parts of a tracker are valid and do not overlap, and their view is settled. */
  ghost predicate Resting<T(!new), S(!new)>(d: Domain<T, S>, g: Graph<S>, ports: PortMap<T>,
                                            targetChanges: ChangeBatch<Point<T>>, sourceChanges: ChangeBatch<Point<T>>,
                                            pushedChanges: ChangeBatch<Point<T>>, outputs: seq<ChangeBatch<T>>,
                                            summaries: Summaries<S>, totalCounts: int)
    reads Footprint(ports), targetChanges, sourceChanges, pushedChanges, outputs
  {
    && LawfulTimes(d) && WellFormed(g)
    && ports.Keys == Locations(g) && PortsValid(d.order, ports)
    && PartsSeparate(ports, targetChanges, sourceChanges, pushedChanges, outputs)
    && targetChanges.Valid() && sourceChanges.Valid() && pushedChanges.Valid() && BatchesValid(outputs)
    && (forall l :: l in summaries ==> |summaries[l]| <= |outputs|)
    && (forall q :: q in Keys(targetChanges.updates) ==> q.0 in ports)
    && (forall q :: q in Keys(sourceChanges.updates) ==> q.0 in ports)
    && InBalance(d, g, ViewOf(ports), [])
    && totalCounts == |Held(ViewOf(ports))|
  }

  class Tracker<T(==,!new), S(==,!new)> {
    const d: Domain<T, S>
    const g: Graph<S>
    const ports: PortMap<T>                        // per-operator information, by port
    const outputSummaries: Summaries<S>
    const targetChanges: ChangeBatch<Point<T>>     // buffered changes
    const sourceChanges: ChangeBatch<Point<T>>
    const pushedChanges: ChangeBatch<Point<T>>     // consequent changes
    const outputChanges: seq<ChangeBatch<T>>
    var totalCounts: int

    constructor (d: Domain<T, S>, g: Graph<S>, ports: PortMap<T>, outputSummaries: Summaries<S>,
                 targetChanges: ChangeBatch<Point<T>>, sourceChanges: ChangeBatch<Point<T>>,
                 pushedChanges: ChangeBatch<Point<T>>, outputChanges: seq<ChangeBatch<T>>)
      requires LawfulTimes(d) && WellFormed(g)
      requires ports.Keys == Locations(g) && PortsValid(d.order, ports)
      requires PartsSeparate(ports, targetChanges, sourceChanges, pushedChanges, outputChanges)
      requires targetChanges.Valid() && sourceChanges.Valid() && pushedChanges.Valid() && BatchesValid(outputChanges)
      requires AllEmpty(ports)
      requires targetChanges.updates == sourceChanges.updates == []
      requires forall l :: l in outputSummaries ==> |outputSummaries[l]| <= |outputChanges|
      ensures Valid() && AllEmpty(ports)
      ensures this.d == d && this.g == g && this.ports == ports && this.outputSummaries == outputSummaries
      ensures this.targetChanges == targetChanges && this.sourceChanges == sourceChanges &&
              this.pushedChanges == pushedChanges
      ensures this.outputChanges == outputChanges
    {
      hide PortInformation.Valid;
      hide ChangeBatch.Valid;
      hide LawfulTimes;
      hide WellFormed;
      hide Locations;
      hide InBalance;
      this.d, this.g, this.ports, this.outputSummaries := d, g, ports, outputSummaries;
      this.targetChanges, this.sourceChanges, this.pushedChanges := targetChanges, sourceChanges, pushedChanges;
      this.outputChanges := outputChanges;
      totalCounts := 0;
      new;
      EmptyInBalance(d, g, View());
    }

    ghost function Batches(): set<object> {
      {targetChanges, sourceChanges, pushedChanges} + ObjectsOf(outputChanges)
    }

    ghost function Repr(): set<object> {
      {this} + Footprint(ports) + Batches()
    }

    lemma ReprIs()
      ensures forall x :: x in Repr() ==>
                x == this || x in Footprint(ports) || x in {targetChanges, sourceChanges, pushedChanges} ||
                x in outputChanges
    {
      hide Footprint;
    }

    ghost function View(): View<T>
      reads Footprint(ports)
    {
      ViewOf(ports)
    }

    /** At rest: nothing is left to propagate but the buffered changes. */
    ghost predicate Valid()
      reads Repr(), outputChanges
    {
      && this !in Footprint(ports) && this !in Batches()
      && Resting(d, g, ports, targetChanges, sourceChanges, pushedChanges, outputChanges, outputSummaries, totalCounts)
    }

    /** Buffers a change of the count of `time` at a target. */
    method UpdateTarget(target: Target, time: T, value: int)
      requires Valid() && HasTarget(g, target.node, target.port)
      modifies targetChanges
      ensures Valid() && View() == old(View())
      ensures SameTally(targetChanges.updates, old(targetChanges.updates) + [((FromTarget(target), time), value)])
      ensures Keys(targetChanges.updates) <= old(Keys(targetChanges.updates)) + {(FromTarget(target), time)}
    {
      hide Resting;
      hide ViewOf;
      LocationsAll(g);
      BufferChange(d, g, ports, targetChanges, sourceChanges, pushedChanges, outputChanges, outputSummaries,
                   totalCounts,
                   targetChanges, (FromTarget(target), time), value);
    }

    /** Buffers a change of the count of `time` at a source. */
    method UpdateSource(node: nat, port: nat, time: T, value: int)
      requires Valid() && HasSource(g, node, port)
      modifies sourceChanges
      ensures Valid() && View() == old(View())
      ensures SameTally(sourceChanges.updates,
                        old(sourceChanges.updates) + [((Location(node, SourcePort(port)), time), value)])
      ensures Keys(sourceChanges.updates) <= old(Keys(sourceChanges.updates)) +
                {(Location(node, SourcePort(port)), time)}
    {
      hide Resting;
      hide ViewOf;
      LocationsAll(g);
      BufferChange(d, g, ports, targetChanges, sourceChanges, pushedChanges, outputChanges, outputSummaries,
                   totalCounts,
                   sourceChanges, (Location(node, SourcePort(port)), time), value);
    }

    /** Buffers a change of the count of a pointstamp. */
    method Update(l: Location, time: T, value: int)
      requires Valid() && Has(g, l)
      modifies targetChanges, sourceChanges
      ensures Valid() && View() == old(View())
      ensures SameTally(targetChanges.updates,
                        old(targetChanges.updates) + if l.port.TargetPort? then [((l, time), value)] else [])
      ensures SameTally(sourceChanges.updates,
                        old(sourceChanges.updates) + if l.port.SourcePort? then [((l, time), value)] else [])
      ensures Keys(targetChanges.updates) + Keys(sourceChanges.updates) <=
              old(Keys(targetChanges.updates) + Keys(sourceChanges.updates)) + {(l, time)}
    {
      assert targetChanges != sourceChanges;
      hide Resting;
      hide ViewOf;
      assert targetChanges.updates + [] == targetChanges.updates && sourceChanges.updates + [] == sourceChanges.updates;
      match l.port
      case TargetPort(i) =>
        UpdateTarget(Target(l.node, i), time, value);
      case SourcePort(o) =>
        UpdateSource(l.node, o, time, value);
    }

    /** Indicates if any pointstamp has a positive count, or any change is buffered. */
    method TrackingAnything() returns (tracking: bool)
      requires Valid()
      modifies targetChanges, sourceChanges
      ensures Valid() && View() == old(View())
      ensures SameTally(targetChanges.updates, old(targetChanges.updates)) &&
              SameTally(sourceChanges.updates, old(sourceChanges.updates))
      ensures tracking <==> Buffered(old(sourceChanges.updates)) || Buffered(old(targetChanges.updates))
                            || exists q :: PointCount(View(), q) > 0
    {
      hide Resting;
      hide Buffered;
      hide PointCount;
      hide ViewOf;
      tracking := AnythingTracked(d, g, ports, targetChanges, sourceChanges, pushedChanges, outputChanges,
                                  outputSummaries, totalCounts);
    }

    /** Indicates if a pointstamp is in the scope-wide frontier. */
    predicate IsGlobal(l: Location, t: T)
      requires l in ports
      reads ports[l].implications
    {
      ports[l].IsGlobal(t)
    }

    /** Propagates all pending changes: afterwards the view is settled for the changed pointstamps.
        `pushedChanges` has recorded what entered and left implication frontiers, and `outputChanges`
        what that of pointstamp frontiers means for the outputs. */
    method PropagateAll()
      requires Valid()
      modifies Repr()
      ensures Valid()
      ensures Settled(d, g, View())
      ensures targetChanges.updates == sourceChanges.updates == []
      ensures PointCountsPlus(View(), old(View()), old(targetChanges.updates) + old(sourceChanges.updates))
      ensures Local(d, g, old(Keys(targetChanges.updates) + Keys(sourceChanges.updates)), old(Implied(View())),
                    Implied(View()))
      ensures Right(d, g, old(Implied(View())), Held(View())) ==> Implied(View()) == old(Implied(View()))
      ensures Recorded(pushedChanges.updates, old(pushedChanges.updates), Implied(View()), old(Implied(View())))
      ensures Reprojected(d, outputSummaries, old(Contents(outputChanges)), Contents(outputChanges), old(Held(View())),
                          Held(View()))
    {
      hide Resting;
      hide Settled;
      hide Local;
      hide Right;
      hide Keys;
      hide PointCountsPlus;
      hide Recorded;
      hide Reprojected;
      hide Contents;
      hide Implied;
      hide Held;
      hide ViewOf;
      totalCounts := PropagateBuffered(d, g, ports, targetChanges, sourceChanges, pushedChanges, outputChanges,
                                       outputSummaries, totalCounts);
    }
  }

  lemma KeysListed<K(!new)>(us: seq<Update<K>>)
    ensures forall i :: 0 <= i < |us| ==> us[i].0 in Keys(us)
  {
    forall i | 0 <= i < |us| ensures us[i].0 in Keys(us) {
      assert us[i] in us;
    }
  }

  ghost predicate NotAmong<T(!new)>(x: object, outputs: seq<ChangeBatch<T>>) {
    forall k :: 0 <= k < |outputs| ==> outputs[k] as object != x
  }

  lemma PartsApart<T(!new)>(ports: PortMap<T>, targetChanges: ChangeBatch<Point<T>>,
                            sourceChanges: ChangeBatch<Point<T>>, pushedChanges: ChangeBatch<Point<T>>,
                            outputs: seq<ChangeBatch<T>>)
    requires PartsSeparate(ports, targetChanges, sourceChanges, pushedChanges, outputs)
    ensures Separate(ports) && OutputsApart(ports, outputs)
    ensures NotAmong(targetChanges, outputs) && NotAmong(sourceChanges, outputs) && NotAmong(pushedChanges, outputs)
    ensures forall k :: 0 <= k < |outputs| ==> outputs[k] !in Footprint(ports)
    ensures targetChanges !in Footprint(ports) && sourceChanges !in Footprint(ports) &&
            pushedChanges !in Footprint(ports)
  {
    forall k | 0 <= k < |outputs| ensures outputs[k] in ObjectsOf(outputs) {}
    forall k, o | k in ports && o in ports[k].Repr() ensures o in Footprint(ports) {}
  }

  /** Ports and outputs share no objects. */
  ghost predicate OutputsApart<T(!new)>(ports: PortMap<T>, outputs: seq<ChangeBatch<T>>) {
    && Separate(ports)
    && forall k :: 0 <= k < |outputs| ==> outputs[k] !in Footprint(ports)
  }

  /** Applies one change to the pointstamps of a port, queues what it does to their frontier, and
      projects that onto the outputs. */
  method ApplyChange<T(==,!new), S(!new)>(d: Domain<T, S>, ghost g: Graph<S>, ports: PortMap<T>,
                                          outputs: seq<ChangeBatch<T>>, summaries: Summaries<S>, l: Location, time: T,
                                          delta: int, worklist: seq<Entry<T>>, total: int)
    returns (worklist': seq<Entry<T>>, total': int)
    requires OutputsApart(ports, outputs) && PortsValid(d.order, ports) && BatchesValid(outputs)
    requires l in ports && (l in summaries ==> |summaries[l]| <= |outputs|)
    requires InBalance(d, g, ViewOf(ports), worklist) && total == |Held(ViewOf(ports))|
    modifies Footprint(ports), outputs
    ensures PortsValid(d.order, ports) && BatchesValid(outputs)
    ensures InBalance(d, g, ViewOf(ports), worklist') && total' == |Held(ViewOf(ports))|
    ensures PointCountPlus(ViewOf(ports), old(ViewOf(ports)), (l, time), delta)
    ensures Implied(ViewOf(ports)) == old(Implied(ViewOf(ports)))
    ensures SameImplications(old(ViewOf(ports)), ViewOf(ports))
    ensures forall q :: q in Keys(worklist') ==> q in Keys(worklist) || (q.0 == l && d.order.le(time, q.1))
    ensures Reprojected(d, summaries, old(Contents(outputs)), Contents(outputs), old(Held(ViewOf(ports))),
                        Held(ViewOf(ports)))
  {
    hide PortInformation.Valid;
    hide ChangeBatch.Valid;
    hide InBalance;
    hide Reprojected;
    hide Consistent;
    hide Partly;
    hide PointsChanged;
    hide PointCountPlus;
    hide SameImplications;
    hide FrontierChange;
    hide PortsValid;
    hide BatchesValid;
    hide Contents;
    hide ViewOf;
    hide Held;
    hide Implied;
    hide Separate;
    assert ports[l].Repr() <= Footprint(ports);
    assert forall o :: o in Footprint(ports) ==> allocated(o);
    hide Footprint;
    ghost var v, outs := ViewOf(ports), Contents(outputs);
    PortsConsistent(d.order, ports);
    PortsLawful(d.order, ports, l);
    var cs := UpdatePointstampsAt(d.order, ports, l, time, delta);
    ghost var v' := ViewOf(ports);
    PortsConsistent(d.order, ports);
    PointsAbove(d.order, v, v', l, time, delta, cs);
    assert BatchesValid(outputs) && Contents(outputs) == outs;
    HeldChanged(v, v', l, time, delta, cs);
    PointCountChanged(v, v', l, time, delta, cs);
    ghost var held;
    worklist', total', held := QueueChanges(d, outputs, summaries, l, cs, worklist, total, v[l].points, v'[l].points,
                                            Held(v));
    assert PortsValid(d.order, ports) && ViewOf(ports) == v';
    PartlyDone(Held(v), l, cs, held, v[l].points, v'[l].points, Held(v'));
    PointsInBalance(d, g, v, v', l, time, delta, cs, worklist, worklist');
  }

  /** A pointstamp frontier changes only at times no earlier than the one whose count does. */
  lemma PointsAbove<T(!new)>(o: Order<T>, v: View<T>, v': View<T>, l: Location, t: T, delta: int, cs: seq<Update<T>>)
    requires Lawful(o) && Consistent(o, v) && Consistent(o, v') && PointsChanged(v, v', l, t, delta, cs)
    ensures forall u :: u in Keys(cs) ==> o.le(t, u)
  {
    ChangesAllAbove(o, v[l].pointCounts, v'[l].pointCounts, t, delta, v[l].points, v'[l].points, cs);
  }

  lemma PortsLawful<T(!new)>(order: Order<T>, ports: PortMap<T>, l: Location)
    requires PortsValid(order, ports) && l in ports
    ensures Lawful(order)
  {
  }

  /** `v'` counts the pointstamps `v` does, and `delta` more of `p`. */
  ghost predicate PointCountPlus<T(!new)>(v': View<T>, v: View<T>, p: Point<T>, delta: int) {
    forall q :: PointCount(v', q) == PointCount(v, q) + (if q == p then delta else 0)
  }

  ghost predicate SameImplications<T(!new)>(v: View<T>, v': View<T>) {
    forall q :: ImplicationCount(v', q) == ImplicationCount(v, q)
  }

  lemma PointCountChanged<T(!new)>(v: View<T>, v': View<T>, l: Location, t: T, delta: int, cs: seq<Update<T>>)
    requires PointsChanged(v, v', l, t, delta, cs)
    ensures PointCountPlus(v', v, (l, t), delta) && SameImplications(v, v')
    ensures l in v && l in v' && FrontierChange(cs, v[l].points, v'[l].points)
  {
    forall q ensures PointCount(v', q) == PointCount(v, q) + (if q == (l, t) then delta else 0) {
      assert q == (q.0, q.1);
    }
  }

  lemma QueueOne<T(!new)>(worklist: seq<Entry<T>>, start: seq<Entry<T>>, l: Location, cs: seq<Update<T>>, i: nat)
    requires i < |cs|
    requires forall q :: Tally(worklist, q) == Tally(start, q) + (if q.0 == l then Tally(cs[..i], q.1) else 0)
    ensures forall q :: Tally(worklist + [((l, cs[i].0), cs[i].1)], q) ==
              Tally(start, q) + (if q.0 == l then Tally(cs[..i + 1], q.1) else 0)
  {
    assert cs[..i + 1] == cs[..i] + [cs[i]];
    TallyOne(cs[..i], cs[i].0, cs[i].1);
    TallyOne(worklist, (l, cs[i].0), cs[i].1);
    forall q ensures Tally(worklist + [((l, cs[i].0), cs[i].1)], q) ==
        Tally(start, q) + (if q.0 == l then Tally(cs[..i + 1], q.1) else 0) {
      assert q == (q.0, q.1);
    }
  }

  /** Queues the changes `cs` of the pointstamp frontier at `l`, and projects them onto the outputs. */
  method QueueChanges<T(==,!new), S(!new)>(d: Domain<T, S>, outputs: seq<ChangeBatch<T>>, summaries: Summaries<S>,
                                           l: Location, cs: seq<Update<T>>, worklist: seq<Entry<T>>, total: int,
                                           ghost before: seq<T>, ghost after: seq<T>, ghost held: set<Point<T>>)
    returns (worklist': seq<Entry<T>>, total': int, ghost held': set<Point<T>>)
    requires BatchesValid(outputs) && (l in summaries ==> |summaries[l]| <= |outputs|)
    requires FrontierChange(cs, before, after) && forall t :: (l, t) in held <==> t in before
    modifies outputs
    ensures BatchesValid(outputs)
    ensures Partly(held, l, cs, |cs|, held')
    ensures total' - |held'| == total - |held|
    ensures forall q :: Tally(worklist', q) == Tally(worklist, q) + (if q.0 == l then Tally(cs, q.1) else 0)
    ensures forall q :: q in Keys(worklist') ==> q in Keys(worklist) || (q.0 == l && q.1 in Keys(cs))
    ensures Reprojected(d, summaries, old(Contents(outputs)), Contents(outputs), held, held')
  {
    hide ChangeBatch.Valid;
    hide Partly;
    hide FrontierChange;
    hide Reprojected;
    hide ProjectedOne;
    hide Contents;
    worklist', total', held' := worklist, total, held;
    PartlyStart(held, l, cs);
    assert cs[..0] == [];
    ReprojectedRefl(d, summaries, Contents(outputs), held);
    for i := 0 to |cs|
      invariant BatchesValid(outputs)
      invariant Partly(held, l, cs, i, held')
      invariant total' - |held'| == total - |held|
      invariant forall q :: Tally(worklist', q) == Tally(worklist, q) + (if q.0 == l then Tally(cs[..i], q.1) else 0)
      invariant forall q :: q in Keys(worklist') ==> q in Keys(worklist) || (q.0 == l && q.1 in Keys(cs))
      invariant Reprojected(d, summaries, old(Contents(outputs)), Contents(outputs), held, held')
    {
      var u, diff := cs[i].0, cs[i].1;
      assert diff == 1 || diff == -1 by { SmallChange(cs, before, after, i); }
      PartlyStep(held, l, cs, i, held', before, after);
      ghost var outs := Contents(outputs);
      Project(d, outputs, if l in summaries then summaries[l] else [], u, diff);
      ReprojectedStep(d, summaries, old(Contents(outputs)), outs, Contents(outputs), held, held', (l, u), diff);
      QueueOne(worklist', worklist, l, cs, i);
      KeysAppend(worklist', (l, u), diff);
      assert cs[i] in cs;
      total' := total' + diff;
      worklist' := worklist' + [((l, u), diff)];
      held' := Changed(held', (l, u), diff);
    }
    assert cs[..|cs|] == cs;
  }

  lemma SmallChange<T(!new)>(cs: seq<Update<T>>, before: seq<T>, after: seq<T>, i: nat)
    requires i < |cs| && FrontierChange(cs, before, after)
    ensures cs[i].1 == 1 || cs[i].1 == -1
  {
  }

  lemma ReprojectedRefl<T(!new), S(!new)>(d: Domain<T, S>, summaries: Summaries<S>, outs: seq<seq<Update<T>>>,
                                          held: set<Point<T>>)
    ensures Reprojected(d, summaries, outs, outs, held, held)
  {
  }

  lemma TimesLawful<T(!new), S(!new)>(d: Domain<T, S>)
    requires LawfulTimes(d)
    ensures Lawful(d.order) && StrictTotal(d.order.lt)
  {
  }

  lemma SeparateParts<T(!new)>(ports: PortMap<T>, targetChanges: ChangeBatch<Point<T>>,
                               sourceChanges: ChangeBatch<Point<T>>, pushedChanges: ChangeBatch<Point<T>>,
                               outputs: seq<ChangeBatch<T>>)
    requires Separate(ports)
    requires targetChanges != sourceChanges && targetChanges != pushedChanges && sourceChanges != pushedChanges
    requires targetChanges !in Footprint(ports) && sourceChanges !in Footprint(ports) &&
             pushedChanges !in Footprint(ports)
    requires forall k :: 0 <= k < |outputs| ==>
               && outputs[k] !in Footprint(ports) && outputs[k] as object != targetChanges
               && outputs[k] as object != sourceChanges && outputs[k] as object != pushedChanges
    ensures PartsSeparate(ports, targetChanges, sourceChanges, pushedChanges, outputs)
  {
    hide Separate;
    hide Footprint;
  }

  /** Allocates an empty tracker. */
  method Allocate<T(==,!new), S(==,!new)>(d: Domain<T, S>, g: Graph<S>, outputSummaries: Summaries<S>,
                                          scopeOutputs: nat)
    returns (tracker: Tracker<T, S>)
    requires LawfulTimes(d) && WellFormed(g)
    requires forall l :: l in outputSummaries ==> |outputSummaries[l]| <= scopeOutputs
    ensures tracker.Valid() && fresh(tracker.Repr()) && AllEmpty(tracker.ports)
    ensures tracker.d == d && tracker.g == g && tracker.outputSummaries == outputSummaries
    ensures |tracker.outputChanges| == scopeOutputs
    ensures tracker.targetChanges.updates == tracker.sourceChanges.updates == []
  {
    hide *;
    TimesLawful(d);
    PointLessTotal(d.order.lt);
    var targetChanges := new ChangeBatch<Point<T>>(PointLess(d.order.lt));
    var sourceChanges := new ChangeBatch<Point<T>>(PointLess(d.order.lt));
    var pushedChanges := new ChangeBatch<Point<T>>(PointLess(d.order.lt));
    var outputs := AllocateOutputs(d.order, scopeOutputs);
    var ports := AllocatePorts(d.order, Locations(g));
    SeparateParts(ports, targetChanges, sourceChanges, pushedChanges, outputs);
    tracker := new Tracker(d, g, ports, outputSummaries, targetChanges, sourceChanges, pushedChanges, outputs);
    tracker.ReprIs();
  }

  /** The implication count of one point, changed. */
  lemma ImplicationCountChanged<T(!new)>(v: View<T>, v': View<T>, l: Location, t: T, delta: int, cs: seq<Update<T>>)
    requires ImplicationsChanged(v, v', l, t, delta, cs)
    ensures l in v && l in v' && FrontierChange(cs, v[l].frontier, v'[l].frontier)
    ensures v'.Keys == v.Keys && v' == v[l := v[l].(counts := v'[l].counts, frontier := v'[l].frontier)]
    ensures CountsPlus(v'[l].counts, v[l].counts, t, delta)
    ensures forall q :: PointCount(v', q) == PointCount(v, q)
  {
  }

  /** All changes of a frontier caused by a change of the count of `t` are at or above `t`. */
  lemma ChangesAllAbove<T(!new)>(o: Order<T>, us: seq<Update<T>>, vs: seq<Update<T>>, t: T, delta: int, f: seq<T>,
                                 f': seq<T>, cs: seq<Update<T>>)
    requires Lawful(o) && IsFrontier(o, us, f) && IsFrontier(o, vs, f')
    requires CountsPlus(vs, us, t, delta) && FrontierChange(cs, f, f')
    ensures forall i :: 0 <= i < |cs| ==> o.le(t, cs[i].0)
  {
    forall i | 0 <= i < |cs| ensures o.le(t, cs[i].0) {
      TallyDistinct(cs, i);
      assert Tally(cs, cs[i].0) == (if cs[i].0 in f' then 1 else 0) - (if cs[i].0 in f then 1 else 0);
      ChangesAbove(o, us, vs, t, delta, f, f', cs[i].0);
    }
  }

  /** The balance while the changes of one location's frontier are forwarded. */
  ghost predicate Forwarding<T(!new)>(ways: Arcs<Point<T>>, v: View<T>, sent: set<Point<T>>, worklist: seq<Entry<T>>) {
    Balanced(ways, v, sent, PendingIn(worklist))
  }

  lemma ForwardOne<T(!new)>(ways: Arcs<Point<T>>, v: View<T>, sent: set<Point<T>>, worklist: seq<Entry<T>>,
                            worklist': seq<Entry<T>>, p: Point<T>, delta: int)
    requires Forwarding(ways, v, sent, worklist)
    requires (delta == 1 && p !in sent) || (delta == -1 && p in sent)
    requires forall q :: Tally(worklist', q) == Tally(worklist, q) + delta * ways(p, q)
    ensures Forwarding(ways, v, Changed(sent, p, delta), worklist')
  {
    BalancedSend(ways, v, p, delta, sent, Changed(sent, p, delta), PendingIn(worklist), PendingIn(worklist'));
  }

  /** The entry `e` passes on one of the changes `cs`. */
  ghost predicate FromChange<T(!new), S(!new)>(d: Domain<T, S>, hops: seq<Hop<S>>, cs: seq<Update<T>>, e: Entry<T>) {
    exists i :: 0 <= i < |cs| && e.1 == cs[i].1 && OneHop(d, hops, cs[i].0, e.0)
  }

  lemma FromChangePasses<T(!new), S(!new)>(d: Domain<T, S>, g: Graph<S>, v: View<T>, v': View<T>, key: Point<T>,
                                           delta: int, cs: seq<Update<T>>, e: Entry<T>)
    requires ImplicationsChanged(v, v', key.0, key.1, delta, cs) && FromChange(d, Hops(g, key.0), cs, e)
    ensures PassesOn(d, g, Implied(v), Implied(v'), key.0, e)
  {
    hide CountsPlus;
    hide OneHop;
    hide Hops;
    var i :| 0 <= i < |cs| && e.1 == cs[i].1 && OneHop(d, Hops(g, key.0), cs[i].0, e.0);
    var p := (key.0, cs[i].0);
    TallyDistinct(cs, i);
    AtLocation(v, key.0, cs[i].0);
    AtLocation(v', key.0, cs[i].0);
    assert PassesOnFrom(d, g, Implied(v), Implied(v'), p, e);
  }

  lemma NoChange<T(!new)>(v: View<T>, v': View<T>, l: Location, t: T, delta: int, cs: seq<Update<T>>)
    requires ImplicationsChanged(v, v', l, t, delta, cs) && Implied(v) == Implied(v')
    ensures cs == []
  {
    hide CountsPlus;
    if cs != [] {
      AtLocation(v, l, cs[0].0);
      AtLocation(v', l, cs[0].0);
      TallyDistinct(cs, 0);
    }
  }

  lemma AtLocation<T>(v: View<T>, l: Location, t: T)
    requires l in v
    ensures (l, t) in Implied(v) <==> t in v[l].frontier
  {
  }

  /** Forwards the changes `cs` of the implication frontier at `l` along all hops from there. */
  method ForwardChanges<T(==,!new), S(!new)>(d: Domain<T, S>, hops: seq<Hop<S>>, l: Location, cs: seq<Update<T>>,
                                             worklist: seq<Entry<T>>, pushed: ChangeBatch<Point<T>>,
                                             ghost ways: Arcs<Point<T>>, ghost v: View<T>, ghost sent: set<Point<T>>,
                                             ghost before: seq<T>, ghost after: seq<T>)
    returns (worklist': seq<Entry<T>>, ghost sent': set<Point<T>>)
    requires pushed.Valid()
    requires forall u, q :: ways((l, u), q) == HopCount(d, hops, u, q)
    requires Forwarding(ways, v, sent, worklist)
    requires FrontierChange(cs, before, after) && forall t :: (l, t) in sent <==> t in before
    modifies pushed
    ensures pushed.Valid()
    ensures Forwarding(ways, v, sent', worklist') && Partly(sent, l, cs, |cs|, sent')
    ensures forall e :: e in worklist' ==> e in worklist || FromChange(d, hops, cs, e)
    ensures cs == [] ==> worklist' == worklist
    ensures forall q :: Tally(pushed.updates, q) ==
              Tally(old(pushed.updates), q) + (if q.0 == l then Tally(cs, q.1) else 0)
  {
    hide ChangeBatch.Valid;
    hide Partly;
    hide FrontierChange;
    hide Forwarding;
    hide HopCount;
    hide OneHop;
    worklist', sent' := worklist, sent;
    PartlyStart(sent, l, cs);
    assert cs[..0] == [];
    for i := 0 to |cs|
      invariant pushed.Valid()
      invariant Forwarding(ways, v, sent', worklist') && Partly(sent, l, cs, i, sent')
      invariant forall e :: e in worklist' ==> e in worklist || FromChange(d, hops, cs, e)
      invariant i == 0 ==> worklist' == worklist
      invariant forall q ::
                  Tally(pushed.updates, q) == Tally(old(pushed.updates), q) + if q.0 ==
                      l then Tally(cs[..i], q.1) else 0
    {
      var u, diff := cs[i].0, cs[i].1;
      assert diff == 1 || diff == -1 by { SmallChange(cs, before, after, i); }
      PartlyStep(sent, l, cs, i, sent', before, after);
      ghost var w := worklist';
      worklist' := Forward(d, hops, u, diff, worklist');
      ForwardOne(ways, v, sent', w, worklist', (l, u), diff);
      sent' := Changed(sent', (l, u), diff);
      QueueOne(pushed.updates, old(pushed.updates), l, cs, i);
      pushed.Update((l, u), diff);
    }
    assert cs[..|cs|] == cs;
  }

  /** Implication frontiers have changed from `before` to `after`, and `pushed` has recorded that. */
  ghost predicate Recorded<T(!new)>(pushed: seq<Update<Point<T>>>, pushed0: seq<Update<Point<T>>>, after: set<Point<T>>,
                                    before: set<Point<T>>) {
    forall q :: Tally(pushed, q) - Tally(pushed0, q) == (if q in after then 1 else 0) - (if q in before then 1 else 0)
  }

  /** Popping a key without a net change keeps the balance. */
  lemma PopNothing<T(!new), S(!new)>(d: Domain<T, S>, g: Graph<S>, v: View<T>, worklist: seq<Entry<T>>,
                                     rest: seq<Entry<T>>)
    requires InBalance(d, g, v, worklist) && forall q :: Tally(rest, q) == Tally(worklist, q)
    ensures InBalance(d, g, v, rest)
  {
    BalancedSame(Ways(d, g), v, Implied(v), PendingIn(worklist), PendingIn(rest));
  }

  /** Popping a key and applying its net change leaves the frontier's changes to be forwarded. */
  lemma PopApply<T(!new), S(!new)>(d: Domain<T, S>, g: Graph<S>, v: View<T>, v': View<T>, key: Point<T>, delta: int,
                                   cs: seq<Update<T>>, worklist: seq<Entry<T>>, rest: seq<Entry<T>>)
    requires InBalance(d, g, v, worklist) && ImplicationsChanged(v, v', key.0, key.1, delta, cs)
    requires forall q :: Tally(rest, q) == Tally(worklist, q) - (if q == key then delta else 0)
    ensures Forwarding(Ways(d, g), v', Implied(v), rest)
  {
    ImplicationCountChanged(v, v', key.0, key.1, delta, cs);
    BalancedPop(Ways(d, g), v, v', key, delta, Implied(v), PendingIn(worklist), PendingIn(rest));
  }

  lemma ForwardedInBalance<T(!new), S(!new)>(d: Domain<T, S>, g: Graph<S>, v: View<T>, v': View<T>, key: Point<T>,
                                             delta: int, cs: seq<Update<T>>, sent: set<Point<T>>,
                                             worklist: seq<Entry<T>>, pushed: seq<Update<Point<T>>>,
                                             pushed': seq<Update<Point<T>>>)
    requires ImplicationsChanged(v, v', key.0, key.1, delta, cs)
    requires Forwarding(Ways(d, g), v', sent, worklist) && Partly(Implied(v), key.0, cs, |cs|, sent)
    requires forall q :: Tally(pushed', q) == Tally(pushed, q) + (if q.0 == key.0 then Tally(cs, q.1) else 0)
    ensures InBalance(d, g, v', worklist)
    ensures Recorded(pushed', pushed, Implied(v'), Implied(v))
    ensures SamePoints(v, v')
  {
    ImpliedChanged(v, v', key.0, key.1, delta, cs);
    ImplicationCountChanged(v, v', key.0, key.1, delta, cs);
    PartlyDone(Implied(v), key.0, cs, sent, v[key.0].frontier, v'[key.0].frontier, Implied(v'));
    assert cs[..|cs|] == cs;
  }

  lemma RecordedTrans<T(!new)>(a: seq<Update<Point<T>>>, b: seq<Update<Point<T>>>, c: seq<Update<Point<T>>>,
                               x: set<Point<T>>, y: set<Point<T>>, z: set<Point<T>>)
    requires Recorded(b, a, y, x) && Recorded(c, b, z, y)
    ensures Recorded(c, a, z, x)
  {
  }

  /** What a step keeps: the pointstamps, and the ports other than where it happens. */
  ghost predicate SamePoints<T(!new)>(v: View<T>, v': View<T>) {
    && v'.Keys == v.Keys
    && Held(v') == Held(v)
    && forall q :: PointCount(v', q) == PointCount(v, q)
  }

  lemma AllPassOn<T(!new), S(!new)>(d: Domain<T, S>, g: Graph<S>, v: View<T>, v': View<T>, key: Point<T>, delta: int,
                                    cs: seq<Update<T>>, rest: seq<Entry<T>>, worklist: seq<Entry<T>>)
    requires ImplicationsChanged(v, v', key.0, key.1, delta, cs)
    requires forall e :: e in worklist ==> e in rest || FromChange(d, Hops(g, key.0), cs, e)
    ensures forall e :: e in worklist ==> e in rest || PassesOn(d, g, Implied(v), Implied(v'), key.0, e)
    ensures Implied(v) == Implied(v') ==> cs == []
  {
    hide *;
    forall e | e in worklist ensures e in rest || PassesOn(d, g, Implied(v), Implied(v'), key.0, e) {
      if e !in rest {
        FromChangePasses(d, g, v, v', key, delta, cs, e);
      }
    }
    if Implied(v) == Implied(v') {
      NoChange(v, v', key.0, key.1, delta, cs);
    }
  }

  /** Applies a net change popped from the worklist, and forwards what it does to the frontier. */
  method ApplyAndForward<T(==,!new), S(==,!new)>(d: Domain<T, S>, g: Graph<S>, ports: PortMap<T>,
                                                 pushed: ChangeBatch<Point<T>>, key: Point<T>, delta: int,
                                                 rest: seq<Entry<T>>, ghost worklist: seq<Entry<T>>)
    returns (worklist': seq<Entry<T>>)
    requires LawfulTimes(d) && Separate(ports) && PortsValid(d.order, ports)
    requires pushed.Valid() && pushed !in Footprint(ports) && key.0 in ports
    requires InBalance(d, g, ViewOf(ports), worklist)
    requires forall q :: Tally(rest, q) == Tally(worklist, q) - (if q == key then delta else 0)
    modifies Footprint(ports), pushed
    ensures PortsValid(d.order, ports) && pushed.Valid()
    ensures InBalance(d, g, ViewOf(ports), worklist') && SamePoints(old(ViewOf(ports)), ViewOf(ports))
    ensures Recorded(pushed.updates, old(pushed.updates), Implied(ViewOf(ports)), old(Implied(ViewOf(ports))))
    ensures Applied(old(ViewOf(ports)), ViewOf(ports), key, delta)
    ensures forall e :: e in worklist' ==>
              e in rest || PassesOn(d, g, old(Implied(ViewOf(ports))), Implied(ViewOf(ports)), key.0, e)
    ensures old(Implied(ViewOf(ports))) == Implied(ViewOf(ports)) ==> worklist' == rest
  {
    hide PortInformation.Valid;
    hide ChangeBatch.Valid;
    hide InBalance;
    hide Partly;
    hide FrontierChange;
    hide Forwarding;
    hide FromChange;
    hide PassesOn;
    hide Applied;
    hide ImplicationsChanged;
    hide Recorded;
    hide SamePoints;
    hide ViewOf;
    hide PortsValid;
    hide Separate;
    hide Implied;
    hide Keys;
    assert forall o :: o in Footprint(ports) ==> allocated(o);
    hide Footprint;
    ghost var v := ViewOf(ports);
    var cs := ApplyImplication(d, ports, pushed, key, delta);
    ghost var v', before, sent := ViewOf(ports), pushed.updates, Implied(v);
    PopApply(d, g, v, v', key, delta, cs, worklist, rest);
    ImpliedChanged(v, v', key.0, key.1, delta, cs);
    ImplicationCountChanged(v, v', key.0, key.1, delta, cs);
    worklist', sent := ForwardChanges(d, Hops(g, key.0), key.0, cs, rest, pushed, Ways(d, g), v', Implied(v),
                                      v[key.0].frontier, v'[key.0].frontier);
    assert ViewOf(ports) == v' && PortsValid(d.order, ports);
    ForwardedInBalance(d, g, v, v', key, delta, cs, sent, worklist', before, pushed.updates);
    ChangeApplied(v, v', key, delta, cs);
    AllPassOn(d, g, v, v', key, delta, cs, rest, worklist');
  }

  lemma ChangeApplied<T(!new)>(v: View<T>, v': View<T>, key: Point<T>, delta: int, cs: seq<Update<T>>)
    requires ImplicationsChanged(v, v', key.0, key.1, delta, cs)
    ensures Applied(v, v', key, delta)
  {
  }

  lemma NothingApplied<T(!new)>(v: View<T>, key: Point<T>)
    requires key.0 in v
    ensures Applied(v, v, key, 0)
  {
  }

  /** One iteration of propagation: pops all entries at the least location and time, and, if they
      make a net change, applies it there and forwards what it does to the frontier.
      It keeps the balance whatever the graph. */
  method ProcessNext<T(==,!new), S(==,!new)>(d: Domain<T, S>, g: Graph<S>, ports: PortMap<T>,
                                             pushed: ChangeBatch<Point<T>>, worklist: seq<Entry<T>>)
    returns (worklist': seq<Entry<T>>, ghost key: Point<T>)
    requires LawfulTimes(d) && Separate(ports) && PortsValid(d.order, ports)
    requires pushed.Valid() && pushed !in Footprint(ports)
    requires InBalance(d, g, ViewOf(ports), worklist)
    requires worklist != [] && forall q :: q in Keys(worklist) ==> q.0 in ports
    modifies Footprint(ports), pushed
    ensures PortsValid(d.order, ports) && pushed.Valid()
    ensures InBalance(d, g, ViewOf(ports), worklist') && SamePoints(old(ViewOf(ports)), ViewOf(ports))
    ensures Recorded(pushed.updates, old(pushed.updates), Implied(ViewOf(ports)), old(Implied(ViewOf(ports))))
    ensures Stepped(d, g, old(ViewOf(ports)), ViewOf(ports), worklist, worklist', key)
  {
    hide PortInformation.Valid;
    hide ChangeBatch.Valid;
    hide InBalance;
    hide Recorded;
    hide SamePoints;
    hide PortsValid;
    hide Separate;
    hide ViewOf;
    hide Implied;
    hide PassesOn;
    hide Applied;
    hide KeyLess;
    hide Keys;
    ghost var v := ViewOf(ports);
    var least, delta, rest := PopKey(d.order.lt, worklist);
    key := least;
    assert ViewOf(ports) == v && PortsValid(d.order, ports);
    if delta != 0 {
      worklist' := ApplyAndForward(d, g, ports, pushed, least, delta, rest, worklist);
    } else {
      worklist' := rest;
      PopNothing(d, g, v, worklist, rest);
      ViewKeys(ports);
      NothingApplied(v, least);
      RecordedRefl(pushed.updates, v);
    }
  }

  lemma ViewKeys<T(!new)>(ports: PortMap<T>)
    ensures ViewOf(ports).Keys == ports.Keys
  {
  }

  lemma RecordedRefl<T(!new)>(pushed: seq<Update<Point<T>>>, v: View<T>)
    ensures Recorded(pushed, pushed, Implied(v), Implied(v)) && SamePoints(v, v)
  {
  }

  method ApplyImplication<T(==,!new), S(!new)>(d: Domain<T, S>, ports: PortMap<T>, ghost pushed: ChangeBatch<Point<T>>,
                                               key: Point<T>, delta: int) returns (cs: seq<Update<T>>)
    requires LawfulTimes(d) && Separate(ports) && PortsValid(d.order, ports) && key.0 in ports
    requires pushed.Valid() && pushed !in Footprint(ports)
    modifies Footprint(ports)
    ensures PortsValid(d.order, ports) && unchanged(pushed) && pushed.Valid()
    ensures ImplicationsChanged(old(ViewOf(ports)), ViewOf(ports), key.0, key.1, delta, cs)
    ensures forall i :: 0 <= i < |cs| ==> d.order.le(key.1, cs[i].0)
  {
    hide PortInformation.Valid;
    hide FrontierChange;
    hide CountsPlus;
    ghost var v := ViewOf(ports);
    PortsConsistent(d.order, ports);
    assert ports[key.0].Repr() <= Footprint(ports);
    cs := UpdateImplicationsAt(d.order, ports, key.0, key.1, delta);
    ghost var v' := ViewOf(ports);
    PortsConsistent(d.order, ports);
    ChangesAllAbove(d.order, v[key.0].counts, v'[key.0].counts, key.1, delta, v[key.0].frontier, v'[key.0].frontier,
                    cs);
  }

  /** `v'` counts the pointstamps `v` does, and those of `changes`. */
  ghost predicate PointCountsPlus<T(!new)>(v': View<T>, v: View<T>, changes: seq<Update<Point<T>>>) {
    v'.Keys == v.Keys && forall q :: PointCount(v', q) == PointCount(v, q) + Tally(changes, q)
  }

  lemma PointCountsStep<T(!new)>(v: View<T>, v': View<T>, v'': View<T>, changes: seq<Update<Point<T>>>, i: nat)
    requires i < |changes| && PointCountsPlus(v', v, changes[..i])
    requires v''.Keys == v'.Keys && PointCountPlus(v'', v', changes[i].0, changes[i].1)
    ensures PointCountsPlus(v'', v, changes[..i + 1])
  {
    assert changes[..i + 1] == changes[..i] + [changes[i]];
    TallyOne(changes[..i], changes[i].0, changes[i].1);
  }

  lemma PointCountsStart<T(!new)>(v: View<T>)
    ensures PointCountsPlus(v, v, [])
  {
  }

  lemma ReprojectedTrans<T(!new), S(!new)>(d: Domain<T, S>, summaries: Summaries<S>,
                                           a: seq<seq<Update<T>>>, b: seq<seq<Update<T>>>, c: seq<seq<Update<T>>>,
                                           x: set<Point<T>>, y: set<Point<T>>, z: set<Point<T>>)
    requires Reprojected(d, summaries, a, b, x, y) && Reprojected(d, summaries, b, c, y, z)
    ensures Reprojected(d, summaries, a, c, x, z)
  {
  }

  /** What one change queues stems from it. */
  lemma ChangeQueued<T(!new), S(!new)>(d: Domain<T, S>, g: Graph<S>, changes: seq<Update<Point<T>>>, i: nat,
                                       worklist: seq<Entry<T>>, queue: seq<Entry<T>>, queue': seq<Entry<T>>)
    requires LawfulTimes(d) && i < |changes|
    requires forall q :: q in Keys(queue) ==> q in Keys(worklist) || Stems(d, g, Keys(changes), q)
    requires forall q :: q in Keys(queue') ==>
              q in Keys(queue) || (q.0 == changes[i].0.0 && d.order.le(changes[i].0.1, q.1))
    ensures forall q :: q in Keys(queue') ==> q in Keys(worklist) || Stems(d, g, Keys(changes), q)
  {
    hide Stems;
    hide LawfulTimes;
    forall q | q in Keys(queue') ensures q in Keys(worklist) || Stems(d, g, Keys(changes), q) {
      if q !in Keys(queue) {
        assert changes[i] in changes && q == (changes[i].0.0, q.1);
        StemsItself(d, g, Keys(changes), changes[i].0);
        StemsLater(d, g, Keys(changes), changes[i].0, q.1);
      }
    }
  }

  /** Applies drained changes to the pointstamps, one after the other. */
  method ApplyChanges<T(==,!new), S(!new)>(d: Domain<T, S>, ghost g: Graph<S>, ports: PortMap<T>,
                                           outputs: seq<ChangeBatch<T>>, summaries: Summaries<S>,
                                           changes: seq<Update<Point<T>>>, worklist: seq<Entry<T>>, total: int)
    returns (worklist': seq<Entry<T>>, total': int)
    requires LawfulTimes(d) && OutputsApart(ports, outputs) && PortsValid(d.order, ports) && BatchesValid(outputs)
    requires forall l :: l in summaries ==> |summaries[l]| <= |outputs|
    requires forall i :: 0 <= i < |changes| ==> changes[i].0.0 in ports
    requires forall q :: q in Keys(worklist) ==> q.0 in ports
    requires InBalance(d, g, ViewOf(ports), worklist) && total == |Held(ViewOf(ports))|
    modifies Footprint(ports), outputs
    ensures PortsValid(d.order, ports) && BatchesValid(outputs)
    ensures InBalance(d, g, ViewOf(ports), worklist') && total' == |Held(ViewOf(ports))|
    ensures forall q :: q in Keys(worklist') ==> q.0 in ports
    ensures forall q :: q in Keys(worklist') ==> q in Keys(worklist) || Stems(d, g, Keys(changes), q)
    ensures PointCountsPlus(ViewOf(ports), old(ViewOf(ports)), changes)
    ensures Implied(ViewOf(ports)) == old(Implied(ViewOf(ports)))
    ensures Reprojected(d, summaries, old(Contents(outputs)), Contents(outputs), old(Held(ViewOf(ports))),
                        Held(ViewOf(ports)))
  {
    hide PortInformation.Valid;
    hide ChangeBatch.Valid;
    hide InBalance;
    hide Reprojected;
    hide PointCountPlus;
    hide PointCountsPlus;
    hide PortsValid;
    hide BatchesValid;
    hide Held;
    hide Implied;
    hide Keys;
    hide Stems;
    hide LawfulTimes;
    hide Contents;
    worklist', total' := worklist, total;
    ghost var v, outs := ViewOf(ports), Contents(outputs);
    ReprojectedRefl(d, summaries, outs, Held(v));
    PointCountsStart(v);
    assert changes[..0] == [];
    for i := 0 to |changes|
      invariant PortsValid(d.order, ports) && BatchesValid(outputs)
      invariant InBalance(d, g, ViewOf(ports), worklist') && total' == |Held(ViewOf(ports))|
      invariant forall q :: q in Keys(worklist') ==> q.0 in ports
      invariant forall q :: q in Keys(worklist') ==> q in Keys(worklist) || Stems(d, g, Keys(changes), q)
      invariant PointCountsPlus(ViewOf(ports), v, changes[..i])
      invariant Implied(ViewOf(ports)) == Implied(v)
      invariant Reprojected(d, summaries, outs, Contents(outputs), Held(v), Held(ViewOf(ports)))
    {
      ghost var v1, outs1, queue := ViewOf(ports), Contents(outputs), worklist';
      worklist', total' := ApplyChange(d, g, ports, outputs, summaries, changes[i].0.0, changes[i].0.1, changes[i].1,
                                       worklist', total');
      assert changes[i].0 == (changes[i].0.0, changes[i].0.1);
      ChangeQueued(d, g, changes, i, worklist, queue, worklist');
      PointCountsStep(v, v1, ViewOf(ports), changes, i);
      ReprojectedTrans(d, summaries, outs, outs1, Contents(outputs), Held(v), Held(v1), Held(ViewOf(ports)));
    }
    assert changes[..|changes|] == changes;
  }

  /** Pops from the worklist until it is empty, which it becomes on every graph. */
  method Circulate<T(==,!new), S(==,!new)>(d: Domain<T, S>, g: Graph<S>, ports: PortMap<T>,
                                           pushed: ChangeBatch<Point<T>>, worklist: seq<Entry<T>>)
    requires LawfulTimes(d) && WellFormed(g)
    requires ports.Keys == Locations(g) && Separate(ports) && PortsValid(d.order, ports)
    requires pushed.Valid() && pushed !in Footprint(ports)
    requires InBalance(d, g, ViewOf(ports), worklist)
    requires forall q :: q in Keys(worklist) ==> q.0 in ports
    modifies Footprint(ports), pushed
    ensures PortsValid(d.order, ports) && pushed.Valid()
    ensures InBalance(d, g, ViewOf(ports), []) && SamePoints(old(ViewOf(ports)), ViewOf(ports))
    ensures Recorded(pushed.updates, old(pushed.updates), Implied(ViewOf(ports)), old(Implied(ViewOf(ports))))
    ensures Local(d, g, Keys(worklist), old(Implied(ViewOf(ports))), Implied(ViewOf(ports)))
    ensures Right(d, g, old(Implied(ViewOf(ports))), old(Held(ViewOf(ports)))) ==>
              Implied(ViewOf(ports)) == old(Implied(ViewOf(ports)))
  {
    hide *;
    ghost var v, pushed0 := ViewOf(ports), pushed.updates;
    RecordedRefl(pushed0, v);
    var queue: seq<Entry<T>> := worklist;
    ghost var spent: set<Point<T>> := {};
    NothingSpent(Implied(v), queue);
    ghost var right := Right(d, g, Implied(v), Held(v));
    ghost var due := Due(d, g, Implied(v), Held(v));
    StartsLocal(d, g, worklist, v, due);
    PortsConsistent(d.order, ports);
    ViewKeys(ports);
    while queue != []
      invariant PortsValid(d.order, ports) && pushed.Valid()
      invariant forall q: Point<T> :: q in Keys(queue) ==> q.0 in ports
      invariant InBalance(d, g, ViewOf(ports), queue) && SamePoints(v, ViewOf(ports))
      invariant Recorded(pushed.updates, pushed0, Implied(ViewOf(ports)), Implied(v))
      invariant AllStem(d, g, Keys(worklist), queue) && Local(d, g, Keys(worklist), Implied(v), Implied(ViewOf(ports)))
      invariant right ==> Implied(ViewOf(ports)) == Implied(v) && Halfway(v, ViewOf(ports), due)
      invariant Coherent(Implied(ViewOf(ports)), queue, spent)
      decreases Potential(d, g, spent), |queue|
    {
      ghost var v1, pushed1, queue1 := ViewOf(ports), pushed.updates, queue;
      ghost var key;
      PortsConsistent(d.order, ports);
      ViewKeys(ports);
      queue, key := ProcessNext(d, g, ports, pushed, queue);
      PortsConsistent(d.order, ports);
      spent := StepConverges(d, g, v1, ViewOf(ports), queue1, queue, key, spent);
      StepLocal(d, g, Keys(worklist), v1, ViewOf(ports), queue1, queue, key);
      LocalTrans(d, g, Keys(worklist), Implied(v), Implied(v1), Implied(ViewOf(ports)));
      if right {
        StepRight(d, g, v, v1, ViewOf(ports), queue1, queue, key);
      }
      KeysStay(d, g, v1, ViewOf(ports), queue1, queue, key);
      RecordedTrans(pushed0, pushed1, pushed.updates, Implied(v), Implied(v1), Implied(ViewOf(ports)));
      SamePointsTrans(v, v1, ViewOf(ports));
    }
  }

  lemma StartsLocal<T(!new), S(!new)>(d: Domain<T, S>, g: Graph<S>, worklist: seq<Entry<T>>, v: View<T>,
                                      due: Point<T> -> int)
    requires LawfulTimes(d)
    ensures AllStem(d, g, Keys(worklist), worklist) && Local(d, g, Keys(worklist), Implied(v), Implied(v))
    ensures Halfway(v, v, due)
  {
    hide Stems;
    forall q | q in Keys(worklist) ensures Stems(d, g, Keys(worklist), q) {
      StemsItself(d, g, Keys(worklist), q);
    }
  }

  lemma StepRight<T(!new), S(!new)>(d: Domain<T, S>, g: Graph<S>, v0: View<T>, v: View<T>, v': View<T>,
                                    worklist: seq<Entry<T>>, worklist': seq<Entry<T>>, key: Point<T>)
    requires LawfulTimes(d) && Consistent(d.order, v0) && Consistent(d.order, v) && Consistent(d.order, v')
    requires v0.Keys == Locations(g) && SamePoints(v0, v) && Right(d, g, Implied(v0), Held(v0))
    requires Implied(v) == Implied(v0) && InBalance(d, g, v, worklist)
    requires Halfway(v0, v, Due(d, g, Implied(v0), Held(v0))) && Stepped(d, g, v, v', worklist, worklist', key)
    ensures Implied(v') == Implied(v0) && Halfway(v0, v', Due(d, g, Implied(v0), Held(v0)))
  {
    hide Right;
    hide Stepped;
    hide Halfway;
    hide InBalance;
    hide Consistent;
    hide LawfulTimes;
    StepStays(d, g, v0, v, v', worklist, worklist', key);
  }

  lemma AllStemMore<T(!new), S(!new)>(d: Domain<T, S>, g: Graph<S>, starts: set<Point<T>>, more: set<Point<T>>)
    requires starts <= more
    ensures forall q :: Stems(d, g, starts, q) ==> Stems(d, g, more, q)
  {
  }

  lemma NothingSpent<T(!new)>(implied: set<Point<T>>, worklist: seq<Entry<T>>)
    ensures Coherent(implied, worklist, {})
  {
  }

  /** Only locations of the graph are queued. */
  lemma KeysStay<T(!new), S(!new)>(d: Domain<T, S>, g: Graph<S>, v: View<T>, v': View<T>, worklist: seq<Entry<T>>,
                                   worklist': seq<Entry<T>>, key: Point<T>)
    requires WellFormed(g) && Stepped(d, g, v, v', worklist, worklist', key)
    requires forall q :: q in Keys(worklist) ==> q.0 in Locations(g)
    ensures forall q :: q in Keys(worklist') ==> q.0 in Locations(g)
  {
    hide Applied;
    hide Locations;
    hide WellFormed;
    hide Hops;
    LocationsAll(g);
    HopsLead(g, key.0);
    forall q | q in Keys(worklist') ensures q.0 in Locations(g) {
      var e :| e in worklist' && e.0 == q;
      if !(e in worklist && e.0 != key) {
        var u :| PassesOnFrom(d, g, Implied(v), Implied(v'), (key.0, u), e);
      } else {
        assert q in Keys(worklist);
      }
    }
  }

  lemma SamePointsTrans<T(!new)>(v: View<T>, v': View<T>, v'': View<T>)
    requires SamePoints(v, v') && SamePoints(v', v'')
    ensures SamePoints(v, v'')
  {
  }

  lemma PointCountsTrans<T(!new)>(v: View<T>, v': View<T>, v'': View<T>, us: seq<Update<Point<T>>>,
                                  ws: seq<Update<Point<T>>>)
    requires PointCountsPlus(v', v, us) && PointCountsPlus(v'', v', ws)
    ensures PointCountsPlus(v'', v, us + ws)
  {
    TallyAppendAll(us, ws);
  }

  lemma PointCountsSame<T(!new)>(v: View<T>, v': View<T>, v'': View<T>, us: seq<Update<Point<T>>>,
                                 ws: seq<Update<Point<T>>>)
    requires PointCountsPlus(v', v, us) && SamePoints(v', v'') && SameTally(us, ws)
    ensures PointCountsPlus(v'', v, ws)
  {
  }

  lemma SameSelf<T(!new)>(v: View<T>)
    ensures SamePoints(v, v)
  {
  }

  /** Drains a buffer of changes and applies them. */
  method ApplyBuffered<T(==,!new), S(!new)>(d: Domain<T, S>, ghost g: Graph<S>, ports: PortMap<T>,
                                            outputs: seq<ChangeBatch<T>>, summaries: Summaries<S>,
                                            buffer: ChangeBatch<Point<T>>, worklist: seq<Entry<T>>, total: int)
    returns (worklist': seq<Entry<T>>, total': int)
    requires LawfulTimes(d) && OutputsApart(ports, outputs) && PortsValid(d.order, ports) && BatchesValid(outputs)
    requires forall l :: l in summaries ==> |summaries[l]| <= |outputs|
    requires buffer.Valid() && buffer !in Footprint(ports)
    requires forall k :: 0 <= k < |outputs| ==> outputs[k] !in Footprint(ports) && outputs[k] as object != buffer
    requires forall q :: q in Keys(buffer.updates) ==> q.0 in ports
    requires forall q :: q in Keys(worklist) ==> q.0 in ports
    requires InBalance(d, g, ViewOf(ports), worklist) && total == |Held(ViewOf(ports))|
    modifies Footprint(ports), outputs, buffer
    ensures PortsValid(d.order, ports) && BatchesValid(outputs)
    ensures buffer.Valid() && buffer.updates == []
    ensures InBalance(d, g, ViewOf(ports), worklist') && total' == |Held(ViewOf(ports))|
    ensures forall q :: q in Keys(worklist') ==> q.0 in ports
    ensures forall q :: q in Keys(worklist') ==> q in Keys(worklist) || Stems(d, g, old(Keys(buffer.updates)), q)
    ensures PointCountsPlus(ViewOf(ports), old(ViewOf(ports)), old(buffer.updates))
    ensures Implied(ViewOf(ports)) == old(Implied(ViewOf(ports)))
    ensures Reprojected(d, summaries, old(Contents(outputs)), Contents(outputs), old(Held(ViewOf(ports))),
                        Held(ViewOf(ports)))
  {
    hide *;
    FootprintAllocated(ports);
    ghost var v := ViewOf(ports);
    var changes := buffer.Drain();
    KeysListed(changes);
    worklist', total' := ApplyChanges(d, g, ports, outputs, summaries, changes, worklist, total);
    AllStemMore(d, g, Keys(changes), old(Keys(buffer.updates)));
    SameSelf(ViewOf(ports));
    PointCountsSame(v, ViewOf(ports), ViewOf(ports), changes, old(buffer.updates));
  }

  lemma FootprintAllocated<T(!new)>(ports: PortMap<T>)
    ensures forall o :: o in Footprint(ports) ==> allocated(o)
  {
  }

  /** What resting gives. */
  lemma RestingParts<T(!new), S(!new)>(d: Domain<T, S>, g: Graph<S>, ports: PortMap<T>,
                                       targetChanges: ChangeBatch<Point<T>>, sourceChanges: ChangeBatch<Point<T>>,
                                       pushedChanges: ChangeBatch<Point<T>>, outputs: seq<ChangeBatch<T>>,
                                       summaries: Summaries<S>, total: int)
    requires Resting(d, g, ports, targetChanges, sourceChanges, pushedChanges, outputs, summaries, total)
    ensures LawfulTimes(d) && Lawful(d.order) && WellFormed(g) && ports.Keys == Locations(g) &&
            PortsValid(d.order, ports)
    ensures PartsSeparate(ports, targetChanges, sourceChanges, pushedChanges, outputs)
    ensures Separate(ports) && OutputsApart(ports, outputs)
    ensures targetChanges != sourceChanges && targetChanges != pushedChanges && sourceChanges != pushedChanges
    ensures forall k :: 0 <= k < |outputs| ==> outputs[k] !in Footprint(ports) && outputs[k] as object != targetChanges
    ensures forall k :: 0 <= k < |outputs| ==>
              outputs[k] as object != sourceChanges && outputs[k] as object != pushedChanges
    ensures targetChanges !in Footprint(ports) && sourceChanges !in Footprint(ports) &&
            pushedChanges !in Footprint(ports)
    ensures targetChanges.Valid() && sourceChanges.Valid() && pushedChanges.Valid() && BatchesValid(outputs)
    ensures forall l :: l in summaries ==> |summaries[l]| <= |outputs|
    ensures forall q :: q in Keys(targetChanges.updates) ==> q.0 in ports
    ensures forall q :: q in Keys(sourceChanges.updates) ==> q.0 in ports
    ensures InBalance(d, g, ViewOf(ports), []) && total == |Held(ViewOf(ports))|
    ensures forall q: Point<T> :: q in Keys<Point<T>>([]) ==> q.0 in ports
  {
    hide PortInformation.Valid;
    hide ChangeBatch.Valid;
    hide InBalance;
    PartsApart(ports, targetChanges, sourceChanges, pushedChanges, outputs);
  }

  lemma BufferedMeans<T(!new)>(changes: seq<Update<Point<T>>>)
    ensures Buffered(changes) <==> !(AllZero(changes) && !LoneZero(changes))
  {
  }

  /** What resting needs. */
  lemma RestingAgain<T(!new), S(!new)>(d: Domain<T, S>, g: Graph<S>, ports: PortMap<T>,
                                       targetChanges: ChangeBatch<Point<T>>, sourceChanges: ChangeBatch<Point<T>>,
                                       pushedChanges: ChangeBatch<Point<T>>, outputs: seq<ChangeBatch<T>>,
                                       summaries: Summaries<S>, total: int)
    requires LawfulTimes(d) && WellFormed(g) && ports.Keys == Locations(g) && PortsValid(d.order, ports)
    requires PartsSeparate(ports, targetChanges, sourceChanges, pushedChanges, outputs)
    requires targetChanges.Valid() && sourceChanges.Valid() && pushedChanges.Valid() && BatchesValid(outputs)
    requires forall l :: l in summaries ==> |summaries[l]| <= |outputs|
    requires forall q :: q in Keys(targetChanges.updates) ==> q.0 in ports
    requires forall q :: q in Keys(sourceChanges.updates) ==> q.0 in ports
    requires InBalance(d, g, ViewOf(ports), []) && total == |Held(ViewOf(ports))|
    ensures Resting(d, g, ports, targetChanges, sourceChanges, pushedChanges, outputs, summaries, total)
  {
    hide PortInformation.Valid;
    hide ChangeBatch.Valid;
    hide InBalance;
    hide PartsSeparate;
    hide PortsValid;
    hide BatchesValid;
    hide Locations;
    hide ViewOf;
    hide Held;
  }

  /** Adds a change to one of the two buffers. */
  method BufferChange<T(==,!new), S(==,!new)>(ghost d: Domain<T, S>, ghost g: Graph<S>, ghost ports: PortMap<T>,
                                              ghost targetChanges: ChangeBatch<Point<T>>,
                                              ghost sourceChanges: ChangeBatch<Point<T>>,
                                              ghost pushedChanges: ChangeBatch<Point<T>>,
                                              ghost outputs: seq<ChangeBatch<T>>, ghost summaries: Summaries<S>,
                                              ghost total: int, buffer: ChangeBatch<Point<T>>, key: Point<T>,
                                              value: int)
    requires Resting(d, g, ports, targetChanges, sourceChanges, pushedChanges, outputs, summaries, total)
    requires (buffer == targetChanges || buffer == sourceChanges) && key.0 in Locations(g)
    modifies buffer
    ensures Resting(d, g, ports, targetChanges, sourceChanges, pushedChanges, outputs, summaries, total)
    ensures ViewOf(ports) == old(ViewOf(ports))
    ensures buffer != targetChanges ==> unchanged(targetChanges)
    ensures buffer != sourceChanges ==> unchanged(sourceChanges)
    ensures SameTally(buffer.updates, old(buffer.updates) + [(key, value)])
    ensures Keys(buffer.updates) <= old(Keys(buffer.updates)) + {key}
  {
    hide *;
    RestingParts(d, g, ports, targetChanges, sourceChanges, pushedChanges, outputs, summaries, total);
    FootprintAllocated(ports);
    buffer.Update(key, value);
    assert PortsValid(d.order, ports) && ViewOf(ports) == old(ViewOf(ports)) && BatchesValid(outputs);
    RestingAgain(d, g, ports, targetChanges, sourceChanges, pushedChanges, outputs, summaries, total);
  }

  lemma HeldExists<T(!new), S>(d: Domain<T, S>, ports: PortMap<T>)
    requires Lawful(d.order) && PortsValid(d.order, ports)
    ensures |Held(ViewOf(ports))| > 0 <==> exists q :: PointCount(ViewOf(ports), q) > 0
  {
    hide PortInformation.Valid;
    PortsConsistent(d.order, ports);
    var v := ViewOf(ports);
    if Held(v) != {} {
      var p :| p in Held(v);
      HeldPositive(d.order, v, p);
    }
    if q :| PointCount(v, q) > 0 {
      var m := MinimalExists(d.order, v[q.0].pointCounts, q.1);
      assert m in v[q.0].points;
      assert (q.0, m) in Held(v);
    }
  }

  method BufferIsEmpty<T(==,!new), S(==,!new)>(ghost d: Domain<T, S>, ghost g: Graph<S>, ghost ports: PortMap<T>,
                                               ghost targetChanges: ChangeBatch<Point<T>>,
                                               ghost sourceChanges: ChangeBatch<Point<T>>,
                                               ghost pushedChanges: ChangeBatch<Point<T>>,
                                               ghost outputs: seq<ChangeBatch<T>>, ghost summaries: Summaries<S>,
                                               ghost total: int, buffer: ChangeBatch<Point<T>>) returns (empty: bool)
    requires Resting(d, g, ports, targetChanges, sourceChanges, pushedChanges, outputs, summaries, total)
    requires buffer == targetChanges || buffer == sourceChanges
    modifies buffer
    ensures Resting(d, g, ports, targetChanges, sourceChanges, pushedChanges, outputs, summaries, total)
    ensures ViewOf(ports) == old(ViewOf(ports))
    ensures buffer != targetChanges ==> unchanged(targetChanges)
    ensures buffer != sourceChanges ==> unchanged(sourceChanges)
    ensures SameTally(buffer.updates, old(buffer.updates))
    ensures empty <==> !Buffered(old(buffer.updates))
  {
    hide *;
    RestingParts(d, g, ports, targetChanges, sourceChanges, pushedChanges, outputs, summaries, total);
    FootprintAllocated(ports);
    empty := buffer.IsEmpty();
    assert PortsValid(d.order, ports) && ViewOf(ports) == old(ViewOf(ports)) && BatchesValid(outputs);
    RestingAgain(d, g, ports, targetChanges, sourceChanges, pushedChanges, outputs, summaries, total);
    BufferedMeans(old(buffer.updates));
  }

  method AnythingTracked<T(==,!new), S(==,!new)>(ghost d: Domain<T, S>, ghost g: Graph<S>, ghost ports: PortMap<T>,
                                                 targetChanges: ChangeBatch<Point<T>>,
                                                 sourceChanges: ChangeBatch<Point<T>>,
                                                 ghost pushedChanges: ChangeBatch<Point<T>>,
                                                 ghost outputs: seq<ChangeBatch<T>>, ghost summaries: Summaries<S>,
                                                 total: int) returns (tracking: bool)
    requires Resting(d, g, ports, targetChanges, sourceChanges, pushedChanges, outputs, summaries, total)
    modifies targetChanges, sourceChanges
    ensures Resting(d, g, ports, targetChanges, sourceChanges, pushedChanges, outputs, summaries, total)
    ensures ViewOf(ports) == old(ViewOf(ports))
    ensures SameTally(targetChanges.updates, old(targetChanges.updates)) &&
            SameTally(sourceChanges.updates, old(sourceChanges.updates))
    ensures tracking <==> Buffered(old(sourceChanges.updates)) || Buffered(old(targetChanges.updates))
                          || exists q :: PointCount(ViewOf(ports), q) > 0
  {
    hide *;
    RestingParts(d, g, ports, targetChanges, sourceChanges, pushedChanges, outputs, summaries, total);
    HeldExists(d, ports);
    SameTallySelf(targetChanges.updates);
    var empty := BufferIsEmpty(d, g, ports, targetChanges, sourceChanges, pushedChanges, outputs, summaries, total,
                               sourceChanges);
    tracking := !empty;
    if !tracking {
      empty := BufferIsEmpty(d, g, ports, targetChanges, sourceChanges, pushedChanges, outputs, summaries, total,
                             targetChanges);
      tracking := !empty;
    }
    tracking := tracking || total > 0;
  }

  lemma SameTallySelf<K(!new)>(us: seq<Update<K>>)
    ensures SameTally(us, us)
  {
  }

  /** Propagates buffered changes: step 1 applies them to the pointstamps, step 2 circulates what that implies. */
  method PropagateBuffered<T(==,!new), S(==,!new)>(d: Domain<T, S>, g: Graph<S>, ports: PortMap<T>,
                                                   targetChanges: ChangeBatch<Point<T>>,
                                                   sourceChanges: ChangeBatch<Point<T>>,
                                                   pushedChanges: ChangeBatch<Point<T>>, outputs: seq<ChangeBatch<T>>,
                                                   summaries: Summaries<S>, total: int)
    returns (total': int)
    requires Resting(d, g, ports, targetChanges, sourceChanges, pushedChanges, outputs, summaries, total)
    modifies Footprint(ports), targetChanges, sourceChanges, pushedChanges, outputs
    ensures Resting(d, g, ports, targetChanges, sourceChanges, pushedChanges, outputs, summaries, total')
    ensures Settled(d, g, ViewOf(ports))
    ensures targetChanges.updates == sourceChanges.updates == []
    ensures PointCountsPlus(ViewOf(ports), old(ViewOf(ports)), old(targetChanges.updates) + old(sourceChanges.updates))
    ensures Recorded(pushedChanges.updates, old(pushedChanges.updates), Implied(ViewOf(ports)),
                     old(Implied(ViewOf(ports))))
    ensures Reprojected(d, summaries, old(Contents(outputs)), Contents(outputs), old(Held(ViewOf(ports))),
                        Held(ViewOf(ports)))
    ensures Local(d, g, old(Keys(targetChanges.updates) + Keys(sourceChanges.updates)), old(Implied(ViewOf(ports))),
                  Implied(ViewOf(ports)))
    ensures Right(d, g, old(Implied(ViewOf(ports))), Held(ViewOf(ports))) ==>
              Implied(ViewOf(ports)) == old(Implied(ViewOf(ports)))
  {
    hide *;
    RestingParts(d, g, ports, targetChanges, sourceChanges, pushedChanges, outputs, summaries, total);
    FootprintAllocated(ports);
    ghost var v0, outs0 := ViewOf(ports), Contents(outputs);
    var queue;
    NoneQueued<T>();
    queue, total' := ApplyBuffered(d, g, ports, outputs, summaries, targetChanges, [], total);
    ghost var v1, outs1 := ViewOf(ports), Contents(outputs);
    queue, total' := ApplyBuffered(d, g, ports, outputs, summaries, sourceChanges, queue, total');
    ghost var v2, outs2 := ViewOf(ports), Contents(outputs);
    ghost var starts := old(Keys(targetChanges.updates) + Keys(sourceChanges.updates));
    BothStem(d, g, old(Keys(targetChanges.updates)), old(Keys(sourceChanges.updates)), queue);
    PointCountsTrans(v0, v1, v2, old(targetChanges.updates), old(sourceChanges.updates));
    ReprojectedTrans(d, summaries, outs0, outs1, outs2, Held(v0), Held(v1), Held(v2));
    Circulate(d, g, ports, pushedChanges, queue);
    LocalStems(d, g, Keys(queue), starts, Implied(v2), Implied(ViewOf(ports)));
    assert BatchesValid(outputs) && Contents(outputs) == outs2;
    PropagatedSettled(d, g, v0, v2, ports, old(targetChanges.updates) + old(sourceChanges.updates));
    NoKeys(targetChanges.updates, ports);
    NoKeys(sourceChanges.updates, ports);
    RestingAgain(d, g, ports, targetChanges, sourceChanges, pushedChanges, outputs, summaries, total');
  }

  lemma NoneQueued<T(!new)>()
    ensures forall q: Point<T> :: q !in Keys<Point<T>>([])
  {
  }

  lemma BothStem<T(!new), S(!new)>(d: Domain<T, S>, g: Graph<S>, a: set<Point<T>>, b: set<Point<T>>,
                                   queue: seq<Entry<T>>)
    requires forall q :: q in Keys(queue) ==> Stems(d, g, a, q) || Stems(d, g, b, q)
    ensures AllStem(d, g, a + b, queue)
  {
    AllStemMore(d, g, a, a + b);
    AllStemMore(d, g, b, a + b);
  }

  /** What stems from something that stems from a change stems from the change. */
  lemma LocalStems<T(!new), S(!new)>(d: Domain<T, S>, g: Graph<S>, keys: set<Point<T>>, starts: set<Point<T>>,
                                     before: set<Point<T>>, after: set<Point<T>>)
    requires LawfulTimes(d) && Local(d, g, keys, before, after) && forall k :: k in keys ==> Stems(d, g, starts, k)
    ensures Local(d, g, starts, before, after)
  {
    forall q | !(q in before <==> q in after) ensures Stems(d, g, starts, q) {
      var k :| k in keys && CouldResultIn(d, g, k, q);
      var c :| c in starts && CouldResultIn(d, g, c, k);
      var one :| Leads(d, g, c, k, one);
      var two :| Leads(d, g, k, q, two);
      LeadsOn(d, g, c, k, q, one, two);
      assert CouldResultIn(d, g, c, q);
    }
  }

  lemma NoKeys<T(!new)>(us: seq<Update<Point<T>>>, ports: PortMap<T>)
    requires us == []
    ensures forall q :: q in Keys(us) ==> q.0 in ports
  {
  }

  lemma PropagatedSettled<T(!new), S(!new)>(d: Domain<T, S>, g: Graph<S>, v0: View<T>, v2: View<T>, ports: PortMap<T>,
                                            us: seq<Update<Point<T>>>)
    requires PortsValid(d.order, ports) && ports.Keys == Locations(g)
    requires InBalance(d, g, ViewOf(ports), []) && SamePoints(v2, ViewOf(ports)) && PointCountsPlus(v2, v0, us)
    ensures Settled(d, g, ViewOf(ports)) && PointCountsPlus(ViewOf(ports), v0, us)
    ensures Held(ViewOf(ports)) == Held(v2)
  {
    hide PortInformation.Valid;
    PortsConsistent(d.order, ports);
    BalanceSettles(d, g, ViewOf(ports));
    PointCountsSame(v0, v2, ViewOf(ports), us, us);
  }
}
