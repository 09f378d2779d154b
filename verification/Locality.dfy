/** What propagation does not touch: it changes no more than it must. */
module Locality {
  import opened Updates
  import opened Orders
  import opened Timestamps
  import opened Graphs
  import opened Digraphs
  import opened Propagation
  import opened Worklists
  import opened Convergence

  /** What happens at `q` can have an effect at `p`: along some path, no later. */
  ghost predicate CouldResultIn<T(!new), S(!new)>(d: Domain<T, S>, g: Graph<S>, q: Point<T>, p: Point<T>) {
    exists path :: Leads(d, g, q, p, path)
  }

  ghost predicate Leads<T(!new), S(!new)>(d: Domain<T, S>, g: Graph<S>, q: Point<T>, p: Point<T>, path: seq<Hop<S>>) {
    IsPath(g, q.0, path, p.0) && Along(d, path, q.1).Some? && d.order.le(Along(d, path, q.1).value, p.1)
  }

  lemma LeadsOn<T(!new), S(!new)>(d: Domain<T, S>, g: Graph<S>, q: Point<T>, p: Point<T>, r: Point<T>, one: seq<Hop<S>>,
                                  two: seq<Hop<S>>)
    requires LawfulTimes(d) && Leads(d, g, q, p, one) && Leads(d, g, p, r, two)
    ensures Leads(d, g, q, r, one + two)
  {
    PathAppend(g, q.0, one, p.0, two, r.0);
    AlongAppend(d, one, two, q.1);
    AlongMonotone(d, two, Along(d, one, q.1).value, p.1);
  }

  lemma LeadsNowhere<T(!new), S(!new)>(d: Domain<T, S>, g: Graph<S>, p: Point<T>)
    requires LawfulTimes(d)
    ensures Leads(d, g, p, p, [])
  {
  }

  lemma LeadsOne<T(!new), S(!new)>(d: Domain<T, S>, g: Graph<S>, q: Point<T>, h: Hop<S>, u: T)
    requires h in Hops(g, q.0) && Act(d, h, q.1).Some? && d.order.le(Act(d, h, q.1).value, u)
    ensures Leads(d, g, q, (h.to, u), [h])
  {
    assert Along(d, [h], q.1) == Act(d, h, q.1);
    assert IsPath(g, h.to, [], h.to);
  }

  // ---- changes stem from changes ----

  /** Something that happens at one of the points could result in `q`. */
  ghost predicate Stems<T(!new), S(!new)>(d: Domain<T, S>, g: Graph<S>, starts: set<Point<T>>, q: Point<T>) {
    exists c :: c in starts && CouldResultIn(d, g, c, q)
  }

  /** Frontiers have changed only where one of the points could result in it. */
  ghost predicate Local<T(!new), S(!new)>(d: Domain<T, S>, g: Graph<S>, starts: set<Point<T>>, before: set<Point<T>>,
                                          after: set<Point<T>>) {
    forall q :: (q in before <==> q in after) || Stems(d, g, starts, q)
  }

  ghost predicate AllStem<T(!new), S(!new)>(d: Domain<T, S>, g: Graph<S>, starts: set<Point<T>>,
                                            worklist: seq<Entry<T>>) {
    forall q :: q in Keys(worklist) ==> Stems(d, g, starts, q)
  }

  lemma StemsItself<T(!new), S(!new)>(d: Domain<T, S>, g: Graph<S>, starts: set<Point<T>>, q: Point<T>)
    requires LawfulTimes(d) && q in starts
    ensures Stems(d, g, starts, q)
  {
    LeadsNowhere(d, g, q);
    assert CouldResultIn(d, g, q, q);
  }

  /** So does whatever comes later at the same location. */
  lemma StemsLater<T(!new), S(!new)>(d: Domain<T, S>, g: Graph<S>, starts: set<Point<T>>, q: Point<T>, t: T)
    requires LawfulTimes(d) && Stems(d, g, starts, q) && d.order.le(q.1, t)
    ensures Stems(d, g, starts, (q.0, t))
  {
    var c :| c in starts && CouldResultIn(d, g, c, q);
    var path :| Leads(d, g, c, q, path);
    assert Leads(d, g, c, (q.0, t), path);
    assert CouldResultIn(d, g, c, (q.0, t));
  }

  /** And whatever a hop leads to. */
  lemma StemsHop<T(!new), S(!new)>(d: Domain<T, S>, g: Graph<S>, starts: set<Point<T>>, p: Point<T>, q: Point<T>)
    requires LawfulTimes(d) && Stems(d, g, starts, p) && OneHop(d, Hops(g, p.0), p.1, q)
    ensures Stems(d, g, starts, q)
  {
    var c :| c in starts && CouldResultIn(d, g, c, p);
    var path :| Leads(d, g, c, p, path);
    var h :| h in Hops(g, p.0) && h.to == q.0 && Act(d, h, p.1) == Some(q.1);
    assert d.order.le(q.1, q.1) && q == (h.to, q.1);
    LeadsOne(d, g, p, h, q.1);
    LeadsOn(d, g, c, p, q, path, [h]);
    assert CouldResultIn(d, g, c, q);
  }

  lemma StemsMore<T(!new), S(!new)>(d: Domain<T, S>, g: Graph<S>, starts: set<Point<T>>, more: set<Point<T>>,
                                    q: Point<T>)
    requires Stems(d, g, starts, q) && starts <= more
    ensures Stems(d, g, more, q)
  {
  }

  /** An iteration that works on entries that stem from some points changes only what does. */
  lemma StepLocal<T(!new), S(!new)>(d: Domain<T, S>, g: Graph<S>, starts: set<Point<T>>, v: View<T>, v': View<T>,
                                    worklist: seq<Entry<T>>, worklist': seq<Entry<T>>, key: Point<T>)
    requires LawfulTimes(d) && Consistent(d.order, v) && Consistent(d.order, v')
    requires Stepped(d, g, v, v', worklist, worklist', key) && AllStem(d, g, starts, worklist)
    ensures Local(d, g, starts, Implied(v), Implied(v')) && AllStem(d, g, starts, worklist')
  {
    hide LawfulTimes;
    hide Stems;
    forall q | !(q in Implied(v) <==> q in Implied(v')) ensures Stems(d, g, starts, q) {
      ChangeStems(d, g, starts, v, v', worklist, key, q);
    }
    forall q | q in Keys(worklist') ensures Stems(d, g, starts, q) {
      var e :| e in worklist' && e.0 == q;
      if !(e in worklist && e.0 != key) {
        var u :| PassesOnFrom(d, g, Implied(v), Implied(v'), (key.0, u), e);
        StemsHop(d, g, starts, (key.0, u), q);
      }
    }
  }

  lemma ChangeStems<T(!new), S(!new)>(d: Domain<T, S>, g: Graph<S>, starts: set<Point<T>>, v: View<T>, v': View<T>,
                                      worklist: seq<Entry<T>>, key: Point<T>, q: Point<T>)
    requires LawfulTimes(d) && Consistent(d.order, v) && Consistent(d.order, v')
    requires Applied(v, v', key, Tally(worklist, key)) && key in Keys(worklist) && AllStem(d, g, starts, worklist)
    requires !(q in Implied(v) <==> q in Implied(v'))
    ensures Stems(d, g, starts, q)
  {
    hide Stems;
    ImpliedElsewhere(v, v', key, Tally(worklist, key), q);
    ChangesAbove(d.order, v[key.0].counts, v'[key.0].counts, key.1, Tally(worklist, key), v[key.0].frontier,
                 v'[key.0].frontier, q.1);
    StemsLater(d, g, starts, key, q.1);
    assert q == (q.0, q.1);
  }

  lemma LocalTrans<T(!new), S(!new)>(d: Domain<T, S>, g: Graph<S>, starts: set<Point<T>>, a: set<Point<T>>,
                                     b: set<Point<T>>, c: set<Point<T>>)
    requires Local(d, g, starts, a, b) && Local(d, g, starts, b, c)
    ensures Local(d, g, starts, a, c)
  {
    hide Stems;
  }

  // ---- what is right already stays ----

  /** The implication count that a point should have. */
  ghost function Due<T(!new), S(!new)>(d: Domain<T, S>, g: Graph<S>, implied: set<Point<T>>,
                                       held: set<Point<T>>): Point<T> -> int {
    q => (if q in held then 1 else 0) + InDegree(Ways(d, g), implied, q)
  }

  /** The implied points are what is minimal among the points of positive count, at each location. */
  ghost predicate Right<T(!new), S(!new)>(d: Domain<T, S>, g: Graph<S>, implied: set<Point<T>>, held: set<Point<T>>) {
    forall l :: l in Locations(g) ==> RightAt(d, g, implied, held, l)
  }

  ghost predicate RightAt<T(!new), S(!new)>(d: Domain<T, S>, g: Graph<S>, implied: set<Point<T>>, held: set<Point<T>>,
                                            l: Location) {
    && (forall t :: (l, t) in implied ==> Due(d, g, implied, held)((l, t)) > 0)
    && (forall t :: Due(d, g, implied, held)((l, t)) > 0 ==> exists x :: (l, x) in implied && d.order.le(x, t))
    && (forall x, t :: (l, x) in implied && (l, t) in implied && d.order.le(x, t) ==> x == t)
  }

  /** Each count is what it was, or what it should be. */
  ghost predicate Halfway<T(!new)>(v0: View<T>, v: View<T>, due: Point<T> -> int) {
    forall q :: ImplicationCount(v, q) == ImplicationCount(v0, q) || ImplicationCount(v, q) == due(q)
  }

  /** Counts each of which is one of two, both with the frontier `f`, have the frontier `f`. */
  lemma MixedFrontier<T(!new)>(o: Order<T>, us: seq<Update<T>>, due: T -> int, ms: seq<Update<T>>, f: seq<T>, t: T)
    requires Lawful(o) && IsFrontier(o, us, f)
    requires forall x :: x in f ==> due(x) > 0
    requires forall x :: due(x) > 0 ==> exists y :: y in f && o.le(y, x)
    requires forall x :: Tally(ms, x) == Tally(us, x) || Tally(ms, x) == due(x)
    ensures t in f <==> MinimalPositive(o, ms, t)
  {
    if t in f {
      forall x | Tally(ms, x) > 0 && o.le(x, t) ensures x == t {
        var y := BelowMixed(o, us, due, ms, f, x);
        assert o.le(y, t) && MinimalPositive(o, us, t) && Tally(us, y) > 0;
      }
    }
    if MinimalPositive(o, ms, t) {
      var y := BelowMixed(o, us, due, ms, f, t);
    }
  }

  lemma BelowMixed<T(!new)>(o: Order<T>, us: seq<Update<T>>, due: T -> int, ms: seq<Update<T>>, f: seq<T>, x: T)
    returns (y: T)
    requires Lawful(o) && IsFrontier(o, us, f) && Tally(ms, x) > 0
    requires forall z :: z in f ==> due(z) > 0
    requires forall z :: due(z) > 0 ==> exists y :: y in f && o.le(y, z)
    requires forall z :: Tally(ms, z) == Tally(us, z) || Tally(ms, z) == due(z)
    ensures y in f && o.le(y, x) && Tally(ms, y) > 0
  {
    if Tally(us, x) > 0 {
      y := MinimalExists(o, us, x);
    } else {
      y :| y in f && o.le(y, x);
    }
    assert MinimalPositive(o, us, y);
  }

  /** An iteration from frontiers that are right for the pointstamps leaves them as they are. */
  lemma StepStays<T(!new), S(!new)>(d: Domain<T, S>, g: Graph<S>, v0: View<T>, v: View<T>, v': View<T>,
                                    worklist: seq<Entry<T>>, worklist': seq<Entry<T>>, key: Point<T>)
    requires LawfulTimes(d) && Consistent(d.order, v0) && Consistent(d.order, v) && Consistent(d.order, v')
    requires v0.Keys == v.Keys == Locations(g) && Right(d, g, Implied(v0), Held(v0))
    requires Implied(v) == Implied(v0) && Held(v) == Held(v0) && InBalance(d, g, v, worklist)
    requires Halfway(v0, v, Due(d, g, Implied(v0), Held(v0))) && Stepped(d, g, v, v', worklist, worklist', key)
    ensures Implied(v') == Implied(v0) && Halfway(v0, v', Due(d, g, Implied(v0), Held(v0)))
  {
    hide Implied;
    hide Held;
    hide LawfulTimes;
    hide Requeued;
    hide Right;
    hide Due;
    hide Halfway;
    hide Consistent;
    hide InBalance;
    PopHalfway(d, g, v0, v, v', worklist, key);
    KeyStays(d, g, v0, v, v', key, Tally(worklist, key));
    NothingImplied(d, v, v', key, Tally(worklist, key));
  }

  /** The count at the point popped becomes what it should be. */
  lemma PopHalfway<T(!new), S(!new)>(d: Domain<T, S>, g: Graph<S>, v0: View<T>, v: View<T>, v': View<T>,
                                     worklist: seq<Entry<T>>, key: Point<T>)
    requires Implied(v) == Implied(v0) && Held(v) == Held(v0) && InBalance(d, g, v, worklist)
    requires Halfway(v0, v, Due(d, g, Implied(v0), Held(v0))) && Applied(v, v', key, Tally(worklist, key))
    ensures Halfway(v0, v', Due(d, g, Implied(v0), Held(v0)))
  {
    hide Implied;
    hide Held;
    var due := Due(d, g, Implied(v0), Held(v0));
    forall q ensures ImplicationCount(v', q) == ImplicationCount(v0, q) || ImplicationCount(v', q) == due(q) {
      assert q == (q.0, q.1) && PendingIn(worklist)(q) == Tally(worklist, q);
      assert ImplicationCount(v, q) + Tally(worklist, q) == due(q);
    }
  }

  lemma KeyStays<T(!new), S(!new)>(d: Domain<T, S>, g: Graph<S>, v0: View<T>, v: View<T>, v': View<T>, key: Point<T>,
                                   delta: int)
    requires LawfulTimes(d) && Consistent(d.order, v0) && Consistent(d.order, v')
    requires v0.Keys == v.Keys == Locations(g) && Right(d, g, Implied(v0), Held(v0)) && Implied(v) == Implied(v0)
    requires Halfway(v0, v', Due(d, g, Implied(v0), Held(v0))) && Applied(v, v', key, delta)
    ensures key in Implied(v) <==> key in Implied(v')
  {
    hide LawfulTimes;
    hide Due;
    hide Held;
    var l, due := key.0, Due(d, g, Implied(v0), Held(v0));
    assert RightAt(d, g, Implied(v0), Held(v0), l);
    forall t ensures (l, t) in Implied(v0) <==> t in v0[l].frontier {}
    forall t ensures Tally(v'[l].counts, t) == Tally(v0[l].counts, t) || Tally(v'[l].counts, t) == due((l, t)) {
      assert ImplicationCount(v', (l, t)) == Tally(v'[l].counts, t) &&
             ImplicationCount(v0, (l, t)) == Tally(v0[l].counts, t);
    }
    LawfulOrder(d);
    MixedFrontier(d.order, v0[l].counts, (t: T) => due((l, t)), v'[l].counts, v0[l].frontier, key.1);
    assert key == (l, key.1);
  }

  lemma LawfulOrder<T(!new), S(!new)>(d: Domain<T, S>)
    requires LawfulTimes(d)
    ensures Lawful(d.order)
  {
  }

  /** Settled frontiers are right. */
  lemma SettledRight<T(!new), S(!new)>(d: Domain<T, S>, g: Graph<S>, v: View<T>)
    requires LawfulTimes(d) && Settled(d, g, v)
    ensures Right(d, g, Implied(v), Held(v))
  {
    forall l | l in Locations(g) ensures RightAt(d, g, Implied(v), Held(v), l) {
      forall t ensures Due(d, g, Implied(v), Held(v))((l, t)) == Tally(v[l].counts, t) {
        assert Nothing<T>()((l, t)) == 0;
      }
      forall t | Tally(v[l].counts, t) > 0 ensures exists x :: (l, x) in Implied(v) && d.order.le(x, t) {
        var x := MinimalExists(d.order, v[l].counts, t);
        assert (l, x) in Implied(v);
      }
    }
  }
}
