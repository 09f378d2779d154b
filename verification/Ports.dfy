/** Per-port progress information. */
module Ports {
  import opened Updates
  import opened ChangeBatches
  import opened Orders
  import opened Frontiers
  import opened Graphs
  import opened Propagation

  /** `cs` lists exactly what entered and left a frontier, once each. */
  ghost predicate FrontierChange<T(!new)>(cs: seq<Update<T>>, before: seq<T>, after: seq<T>) {
    && (forall t :: Tally(cs, t) == Mem(after, t) - Mem(before, t))
    && (forall a, b :: 0 <= a < b < |cs| ==> cs[a].0 != cs[b].0)
    && (forall a :: 0 <= a < |cs| ==> cs[a].1 == 1 || cs[a].1 == -1)
  }

  class PortInformation<T(==,!new)> {
    const order: Order<T>
    const pointstamps: MutableAntichain<T>     // current counts of active pointstamps
    const implications: MutableAntichain<T>    // current implications of active pointstamps

    /** The objects this port consists of. */
    ghost function Repr(): set<object> {
      {pointstamps, pointstamps.changes, implications, implications.changes}
    }

    ghost predicate Valid()
      reads Repr()
    {
      && pointstamps != implications && pointstamps.changes != implications.changes
      && pointstamps.order == order && implications.order == order
      && pointstamps.Valid() && pointstamps.dirty == 0
      && implications.Valid() && implications.dirty == 0
      && IsFrontier(order, pointstamps.updates, pointstamps.frontier)
      && IsFrontier(order, implications.updates, implications.frontier)
    }

    ghost function View(): PortView<T>
      reads Repr()
    {
      PortView(pointstamps.updates, pointstamps.frontier, implications.updates, implications.frontier)
    }

    constructor (order: Order<T>)
      requires Lawful(order)
      ensures Valid() && fresh(Repr()) && this.order == order
      ensures View() == PortView([], [], [], [])
    {
      this.order := order;
      pointstamps := new MutableAntichain<T>(order);
      implications := new MutableAntichain<T>(order);
    }

    method UpdatePointstamps(t: T, delta: int) returns (cs: seq<Update<T>>)
      requires Valid()
      modifies pointstamps, pointstamps.changes
      ensures Valid()
      ensures View() == old(View()).(pointCounts := View().pointCounts, points := View().points)
      ensures CountsPlus(View().pointCounts, old(View()).pointCounts, t, delta)
      ensures FrontierChange(cs, old(View()).points, View().points)
    {
      TallyOne(pointstamps.updates, t, delta);
      cs := pointstamps.UpdateIter([(t, delta)]);
    }

    method UpdateImplications(t: T, delta: int) returns (cs: seq<Update<T>>)
      requires Valid()
      modifies implications, implications.changes
      ensures Valid()
      ensures View() == old(View()).(counts := View().counts, frontier := View().frontier)
      ensures CountsPlus(View().counts, old(View()).counts, t, delta)
      ensures FrontierChange(cs, old(View()).frontier, View().frontier)
    {
      TallyOne(implications.updates, t, delta);
      cs := implications.UpdateIter([(t, delta)]);
    }

    /** True if updates at this pointstamp uniquely block progress. */
    predicate IsGlobal(t: T)
      reads implications
    {
      !AnyLessThan(order.le, implications.frontier, t) && implications.CountFor(t) <= 1
    }
  }

  /** One instance less of `t` would change what is minimal. */
  ghost predicate Blocking<T(!new)>(o: Order<T>, us: seq<Update<T>>, t: T) {
    exists x :: MinimalPositive(o, us, x) != MinimalPositive(o, us + [(t, -1)], x)
  }

  /** Removing `t` could matter: it would change what is minimal, or `t` has no instance yet but would be
      minimal if it had one. */
  ghost predicate Urgent<T(!new)>(o: Order<T>, us: seq<Update<T>>, t: T) {
    if Tally(us, t) > 0 then Blocking(o, us, t) else MinimalPositive(o, us + [(t, 1 - Tally(us, t))], t)
  }

  /** The test holds of a time that has instances exactly when one instance less would change the frontier. */
  lemma GlobalBlocks<T(!new)>(p: PortInformation<T>, t: T, f': seq<T>)
    requires p.Valid() && Tally(p.implications.updates, t) > 0
    requires IsFrontier(p.order, p.implications.updates + [(t, -1)], f')
    ensures p.IsGlobal(t) <==> !(forall x :: x in p.implications.frontier <==> x in f')
  {
    TestBlocks(p.order, p.implications.updates, p.implications.frontier, t);
    if Blocking(p.order, p.implications.updates, t) {
      var x :| MinimalPositive(p.order, p.implications.updates, x) !=
          MinimalPositive(p.order, p.implications.updates + [(t, -1)], x);
      assert x in p.implications.frontier <==> x !in f';
    }
  }

  /** The test holds exactly of those times whose removal could matter. */
  lemma GlobalExactly<T(!new)>(p: PortInformation<T>, t: T)
    requires p.Valid()
    ensures p.IsGlobal(t) <==> Urgent(p.order, p.View().counts, t)
  {
    var us, f := p.implications.updates, p.implications.frontier;
    if Tally(us, t) > 0 {
      TestBlocks(p.order, us, f, t);
    } else {
      var us' := us + [(t, 1 - Tally(us, t))];
      TallyOne(us, t, 1 - Tally(us, t));
      if x :| Tally(us, x) > 0 && p.order.le(x, t) {
        var m := MinimalExists(p.order, us, x);
        assert m in f && LessThan(p.order.le, m, t);
        assert Tally(us', x) > 0 && x != t;
      }
      if AnyLessThan(p.order.le, f, t) {
        var i :| 0 <= i < |f| && LessThan(p.order.le, f[i], t);
        assert f[i] in f && Tally(us', f[i]) > 0;
      }
    }
  }

  /** The test holds of a time that has no instance, where nothing is before it. */
  lemma AbsentGlobal<T(!new)>(p: PortInformation<T>, t: T)
    requires p.Valid() && p.View() == PortView([], [], [], [])
    ensures p.IsGlobal(t) && Tally(p.View().counts, t) == 0
    ensures forall x :: !MinimalPositive(p.order, p.View().counts, x)
  {
  }

  lemma TestBlocks<T(!new)>(o: Order<T>, us: seq<Update<T>>, f: seq<T>, t: T)
    requires Lawful(o) && IsFrontier(o, us, f) && Tally(us, t) > 0
    ensures (!AnyLessThan(o.le, f, t) && Tally(us, t) <= 1) <==> Blocking(o, us, t)
  {
    TallyOne(us, t, -1);
    var us' := us + [(t, -1)];
    if AnyLessThan(o.le, f, t) || Tally(us, t) > 1 {
      forall x ensures MinimalPositive(o, us, x) <==> MinimalPositive(o, us', x) {
        StillMinimal(o, us, us', f, t, x);
      }
    } else {
      var m := MinimalExists(o, us, t);
      assert m in f && m == t;
      assert !MinimalPositive(o, us', t);
    }
  }

  lemma StillMinimal<T(!new)>(o: Order<T>, us: seq<Update<T>>, us': seq<Update<T>>, f: seq<T>, t: T, x: T)
    requires Lawful(o) && IsFrontier(o, us, f) && CountsPlus(us', us, t, -1) && Tally(us, t) > 0
    requires AnyLessThan(o.le, f, t) || Tally(us, t) > 1
    ensures MinimalPositive(o, us, x) <==> MinimalPositive(o, us', x)
  {
    if Tally(us, t) <= 1 {
      var i :| 0 <= i < |f| && LessThan(o.le, f[i], t);
      assert f[i] in f && Tally(us', f[i]) > 0;
      if o.le(t, x) {
        assert o.le(f[i], x);
      }
    }
  }

  type PortMap<T(!new)> = map<Location, PortInformation<T>>

  ghost function Footprint<T(!new)>(ports: PortMap<T>): set<object> {
    set l, o | l in ports && o in ports[l].Repr() :: o
  }

  /** No two ports share an object. */
  ghost predicate Separate<T(!new)>(ports: PortMap<T>) {
    forall l, k :: l in ports && k in ports && l != k ==> ports[l].Repr() !! ports[k].Repr()
  }

  ghost predicate PortsValid<T(!new)>(order: Order<T>, ports: PortMap<T>)
    reads Footprint(ports)
  {
    forall l :: l in ports ==> ports[l].Valid() && ports[l].order == order
  }

  ghost function ViewOf<T(!new)>(ports: PortMap<T>): View<T>
    reads Footprint(ports)
  {
    map l | l in ports :: ports[l].View()
  }

  lemma PortsConsistent<T(!new)>(order: Order<T>, ports: PortMap<T>)
    requires PortsValid(order, ports)
    ensures Consistent(order, ViewOf(ports))
  {
  }

  /** `v'` is `v` with a pointstamp count changed by `delta`, and `cs` the frontier's changes. */
  ghost predicate PointsChanged<T(!new)>(v: View<T>, v': View<T>, l: Location, t: T, delta: int, cs: seq<Update<T>>) {
    && l in v && v'.Keys == v.Keys
    && v' == v[l := v[l].(pointCounts := v'[l].pointCounts, points := v'[l].points)]
    && CountsPlus(v'[l].pointCounts, v[l].pointCounts, t, delta)
    && FrontierChange(cs, v[l].points, v'[l].points)
  }

  /** `v'` is `v` with an implication count changed by `delta`, and `cs` the frontier's changes. */
  ghost predicate ImplicationsChanged<T(!new)>(v: View<T>, v': View<T>, l: Location, t: T, delta: int,
                                               cs: seq<Update<T>>) {
    && l in v && v'.Keys == v.Keys
    && v' == v[l := v[l].(counts := v'[l].counts, frontier := v'[l].frontier)]
    && CountsPlus(v'[l].counts, v[l].counts, t, delta)
    && FrontierChange(cs, v[l].frontier, v'[l].frontier)
  }

  lemma ChangedAt<T(!new)>(v: View<T>, v': View<T>, l: Location)
    requires l in v && v'.Keys == v.Keys
    requires forall k :: k in v && k != l ==> v'[k] == v[k]
    ensures v' == v[l := v'[l]]
  {
  }

  method UpdatePointstampsAt<T(!new)>(order: Order<T>, ports: PortMap<T>, l: Location, t: T, delta: int)
    returns (cs: seq<Update<T>>)
    requires Separate(ports) && PortsValid(order, ports) && l in ports
    modifies ports[l].Repr()
    ensures PortsValid(order, ports)
    ensures PointsChanged(old(ViewOf(ports)), ViewOf(ports), l, t, delta, cs)
  {
    hide PortInformation.Valid;
    hide CountsPlus;
    hide FrontierChange;
    ghost var v := ViewOf(ports);
    cs := ports[l].UpdatePointstamps(t, delta);
    forall k | k in ports && k != l ensures ports[k].Valid() && ports[k].View() == old(ports[k].View()) {
      assert ports[k].Repr() !! ports[l].Repr();
    }
    ChangedAt(v, ViewOf(ports), l);
  }

  method UpdateImplicationsAt<T(!new)>(order: Order<T>, ports: PortMap<T>, l: Location, t: T, delta: int)
    returns (cs: seq<Update<T>>)
    requires Separate(ports) && PortsValid(order, ports) && l in ports
    modifies ports[l].Repr()
    ensures PortsValid(order, ports)
    ensures ImplicationsChanged(old(ViewOf(ports)), ViewOf(ports), l, t, delta, cs)
  {
    hide PortInformation.Valid;
    hide CountsPlus;
    hide FrontierChange;
    ghost var v := ViewOf(ports);
    cs := ports[l].UpdateImplications(t, delta);
    forall k | k in ports && k != l ensures ports[k].Valid() && ports[k].View() == old(ports[k].View()) {
      assert ports[k].Repr() !! ports[l].Repr();
    }
    ChangedAt(v, ViewOf(ports), l);
  }
}
