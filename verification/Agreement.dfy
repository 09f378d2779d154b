/** Projection by compiled summaries agrees with propagation. */
module Agreement {
  import opened Updates
  import opened Orders
  import opened Sums
  import opened Timestamps
  import opened Graphs
  import opened Propagation
  import opened Outputs
  import opened Summarize

  /** Summaries are kept for operators; those of the scope's own ports serve to summarize the scope. */
  function ForOperators<S>(results: Summaries<S>): Summaries<S> {
    map l | l in results && l.node != 0 :: results[l]
  }

  lemma {:induction false} ResultCounted<T, S>(d: Domain<T, S>, ss: seq<S>, s: S, u: T, t: T)
    requires s in ss && d.results(s, u) == Some(t)
    ensures ResultCount(d, ss, u, t) > 0
  {
    var last := |ss| - 1;
    if ss[last] != s {
      assert ss == ss[..last] + [ss[last]];
      ResultCounted(d, ss[..last], s, u, t);
    }
  }

  lemma {:induction false} ResultFound<T, S>(d: Domain<T, S>, ss: seq<S>, u: T, t: T) returns (s: S)
    requires ResultCount(d, ss, u, t) > 0
    ensures s in ss && d.results(s, u) == Some(t)
  {
    var last := |ss| - 1;
    if d.results(ss[last], u) == Some(t) {
      s := ss[last];
    } else {
      s := ResultFound(d, ss[..last], u, t);
    }
  }

  /** No pointstamp is held at the scope's own ports. */
  ghost predicate AllInside<T>(held: set<Point<T>>) {
    forall p :: p in held ==> p.0.node != 0
  }

  /** A projected time is the result of a path. */
  lemma ProjectionSound<T(!new), S(!new)>(d: Domain<T, S>, g: Graph<S>, results: Summaries<S>, v: View<T>, output: nat,
                                          t: T)
    requires LawfulTimes(d) && Compatible(d) && Compiled(d, g, results)
    requires Projected(d, ForOperators(results), output, Held(v), t) > 0
    ensures Reached(d, g, v, ScopeOutput(output), t)
  {
    hide Compiled;
    hide Compatible;
    hide LawfulTimes;
    hide Held;
    var f := ProjectionOf(d, ForOperators(results), output, t);
    var p := SumPositive(Held(v), f);
    var s := ResultFound(d, SummariesTo(ForOperators(results), p.0, output), p.1, t);
    CompiledSound(d, g, results, p.0, output, s);
    var path :| SummarizedBy(d, g, p.0, output, s, path);
    ComposedActs(d, path, p.1);
    assert p == (p.0, p.1);
    assert ReachedBy(d, g, v, ScopeOutput(output), t, p.0, p.1, path);
  }

  /** The result of any path from a held pointstamp is covered by a projected time. */
  lemma ProjectionCovers<T(!new), S(!new)>(d: Domain<T, S>, g: Graph<S>, results: Summaries<S>, v: View<T>, output: nat,
                                           t: T)
    returns (u: T)
    requires LawfulTimes(d) && LawfulSummaries(d) && Compatible(d)
    requires WellFormed(g) && SingleSources(g) && Compiled(d, g, results)
    requires AllInside(Held(v)) && Reached(d, g, v, ScopeOutput(output), t)
    ensures Projected(d, ForOperators(results), output, Held(v), u) > 0 && d.order.le(u, t)
  {
    hide Compiled;
    hide Compatible;
    hide LawfulSummaries;
    hide LawfulTimes;
    hide WellFormed;
    hide SingleSources;
    hide Held;
    var l, w, path :| ReachedBy(d, g, v, ScopeOutput(output), t, l, w, path);
    assert (l, w) in Held(v) && l.node != 0;
    assert path != [];
    ComposedActs(d, path, w);
    var whole := Composed(d, path).value;
    CompiledExact(d, g, results, l, output, path);
    var ss := SummariesTo(results, l, output);
    var i :| 0 <= i < |ss| && d.below(ss[i], whole);
    u := SmallerResult(d, ss[i], whole, w, t);
    assert SummariesTo(ForOperators(results), l, output) == ss;
    ResultCounted(d, ss, ss[i], w, u);
    var f := ProjectionOf(d, ForOperators(results), output, u);
    assert f((l, w)) > 0;
    SumBounds(Held(v), f);
  }

  lemma SmallerResult<T(!new), S(!new)>(d: Domain<T, S>, a: S, b: S, w: T, t: T) returns (u: T)
    requires Compatible(d) && d.below(a, b) && d.results(b, w) == Some(t)
    ensures d.results(a, w) == Some(u) && d.order.le(u, t)
  {
    u := d.results(a, w).value;
  }

  /** The minimal projected times are the frontier that propagation computes at the output: two
      independent ways to determine what may still leave the scope agree. */
  lemma ProjectionAgrees<T(!new), S(!new)>(d: Domain<T, S>, g: Graph<S>, rank: map<Location, nat>,
                                           results: Summaries<S>, v: View<T>, output: nat, us: seq<Update<T>>)
    requires LawfulTimes(d) && LawfulSummaries(d) && Compatible(d)
    requires WellFormed(g) && SingleSources(g) && Ranked(g, d.zero, rank) && Compiled(d, g, results)
    requires Settled(d, g, v) && AllInside(Held(v)) && ScopeOutput(output) in v
    requires forall t :: Tally(us, t) == Projected(d, ForOperators(results), output, Held(v), t)
    ensures IsFrontier(d.order, us, v[ScopeOutput(output)].frontier)
  {
    hide Compiled;
    hide Compatible;
    hide LawfulSummaries;
    hide Reached;
    hide Projected;
    hide Held;
    var to := ScopeOutput(output);
    var f := v[to].frontier;
    assert Distinct(f) && Lawful(d.order);
    forall t ensures t in f <==> MinimalPositive(d.order, us, t) {
      FrontierExact(d, g, rank, v, to, t);
      if MinimalReached(d, g, v, to, t) {
        var u := ProjectionCovers(d, g, results, v, output, t);
        ProjectionSound(d, g, results, v, output, u);
        forall x | Tally(us, x) > 0 && d.order.le(x, t) ensures x == t {
          ProjectionSound(d, g, results, v, output, x);
        }
      }
      if MinimalPositive(d.order, us, t) {
        ProjectionSound(d, g, results, v, output, t);
        forall x | Reached(d, g, v, to, x) && d.order.le(x, t) ensures x == t {
          var u := ProjectionCovers(d, g, results, v, output, x);
          LeTrans(d.order, u, x, t);
        }
      }
    }
  }

  lemma LeTrans<T(!new)>(o: Order<T>, u: T, x: T, t: T)
    requires Lawful(o) && o.le(u, x) && o.le(x, t)
    ensures o.le(u, t) && (u == t ==> x == t)
  {
  }
}
