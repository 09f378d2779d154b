/** Turning a described graph into a tracker for it. */
module Allocation {
  import opened Updates
  import opened ChangeBatches
  import opened Orders
  import opened Timestamps
  import opened Graphs
  import opened Propagation
  import opened Outputs
  import opened Summarize
  import opened Agreement
  import opened Trackers

  /** The summaries from an input of the scope, which is an output of its node zero. */
  function FromInput<S>(results: Summaries<S>, port: nat): seq<seq<S>> {
    var l := Location(0, SourcePort(port));
    if l in results then results[l] else []
  }

  /** Allocates a tracker for the graph, with compiled summaries, and summarizes the scope itself. */
  method AllocateFrom<T(==,!new), S(==,!new)>(d: Domain<T, S>, g: Graph<S>)
    returns (tracker: Tracker<T, S>, scopeSummary: seq<seq<seq<S>>>, ghost results: Summaries<S>)
    requires LawfulTimes(d) && LawfulSummaries(d) && WellFormed(g) && |g.nodes| > 0
    ensures Compiled(d, g, results)
    ensures tracker.Valid() && fresh(tracker.Repr())
    ensures tracker.d == d && tracker.g == g && tracker.outputSummaries == ForOperators(results)
    ensures |tracker.outputChanges| == |g.nodes[0]|
    ensures |scopeSummary| == |g.edges[0]|
    ensures forall port :: 0 <= port < |scopeSummary| ==> scopeSummary[port] == FromInput(results, port)
  {
    hide LawfulTimes;
    hide LawfulSummaries;
    hide Compiled;
    hide Locations;
    var compiled := SummarizeOutputs(d, g);
    results := compiled;
    assert |g.edges| == |g.nodes|;
    scopeSummary := seq(|g.edges[0]|, port requires 0 <= port < |g.edges[0]| => FromInput(compiled, port));
    CompiledWithin(d, g, results);
    tracker := Allocate(d, g, ForOperators(compiled), |g.nodes[0]|);
  }

  lemma CompiledWithin<T, S(!new)>(d: Domain<T, S>, g: Graph<S>, results: Summaries<S>)
    requires Compiled(d, g, results) && |g.nodes| > 0
    ensures forall l :: l in results ==> |results[l]| <= |g.nodes[0]|
  {
    hide Locations;
    hide Antichains;
    hide Sound;
    hide Closed;
  }

  /** The summary of the scope is right in both directions: it holds summaries of paths only, and
      dominates that of every path from the input to the output, if no target has two sources. */
  lemma ScopeSummaryExact<T(!new), S(!new)>(d: Domain<T, S>, g: Graph<S>, results: Summaries<S>, port: nat, output: nat)
    requires LawfulSummaries(d) && WellFormed(g) && Compiled(d, g, results)
    ensures output < |FromInput(results, port)| ==>
              forall s :: s in FromInput(results, port)[output] ==>
                  IsPathSummary(d, g, Location(0, SourcePort(port)), output, s)
    ensures SingleSources(g) ==> forall s :: IsPathSummary(d, g, Location(0, SourcePort(port)), output, s) ==>
              output < |FromInput(results, port)| && AnyLessEqual(d.below, FromInput(results, port)[output], s)
  {
    hide Compiled;
    hide LawfulSummaries;
    hide WellFormed;
    hide SingleSources;
    hide IsPathSummary;
    var l := Location(0, SourcePort(port));
    forall s | output < |FromInput(results, port)| && s in FromInput(results, port)[output]
      ensures IsPathSummary(d, g, l, output, s) {
      RecordedIsPath(d, g, results, l, output, s);
    }
    if SingleSources(g) {
      forall s | IsPathSummary(d, g, l, output, s)
        ensures output < |FromInput(results, port)| && AnyLessEqual(d.below, FromInput(results, port)[output], s)
      {
        PathDominated(d, g, results, l, output, s);
      }
    }
  }

  /** Some path from `l` to the output has the summary `s`. */
  ghost predicate IsPathSummary<T, S(!new)>(d: Domain<T, S>, g: Graph<S>, l: Location, output: nat, s: S) {
    exists path :: IsPath(g, l, path, ScopeOutput(output)) && Composed(d, path) == Some(s)
  }

  lemma RecordedIsPath<T, S(!new)>(d: Domain<T, S>, g: Graph<S>, results: Summaries<S>, l: Location, output: nat, s: S)
    requires Compiled(d, g, results) && s in SummariesTo(results, l, output)
    ensures IsPathSummary(d, g, l, output, s)
  {
    CompiledSound(d, g, results, l, output, s);
    var path :| SummarizedBy(d, g, l, output, s, path);
  }

  lemma PathDominated<T(!new), S(!new)>(d: Domain<T, S>, g: Graph<S>, results: Summaries<S>, l: Location, output: nat,
                                        s: S)
    requires LawfulSummaries(d) && WellFormed(g) && SingleSources(g) && Compiled(d, g, results)
    requires IsPathSummary(d, g, l, output, s) && l.port.SourcePort?
    ensures AnyLessEqual(d.below, SummariesTo(results, l, output), s)
  {
    hide Compiled;
    hide LawfulSummaries;
    hide WellFormed;
    hide SingleSources;
    var path :| IsPath(g, l, path, ScopeOutput(output)) && Composed(d, path) == Some(s);
    CompiledExact(d, g, results, l, output, path);
  }

  // ---- what compilation misses ----

  /** The summary of every path to an output has below it that of a path through last sources only. */
  ghost predicate LastSourcesSuffice<T, S(!new)>(d: Domain<T, S>, g: Graph<S>) {
    forall l, output: nat, s :: l != ScopeOutput(output) && IsPathSummary(d, g, l, output, s) ==>
      exists x :: Summarizes(d, g, l, output, x) && d.below(x, s)
  }

  /** Compilation dominates the summaries of all paths exactly for such graphs. */
  lemma CompleteExactly<T(!new), S(!new)>(d: Domain<T, S>, g: Graph<S>, results: Summaries<S>)
    requires LawfulSummaries(d) && WellFormed(g) && Compiled(d, g, results)
    ensures LastSourcesSuffice(d, g) <==>
            forall l, output: nat, s :: l != ScopeOutput(output) && IsPathSummary(d, g, l, output, s) ==>
              Dominated(d, results, l, output, s)
  {
    hide Compiled;
    hide LawfulSummaries;
    hide WellFormed;
    hide Summarizes;
    hide IsPathSummary;
    hide Dominated;
    forall l, output: nat, s | l != ScopeOutput(output)
      ensures Dominated(d, results, l, output, s) <==> exists x :: Summarizes(d, g, l, output, x) && d.below(x, s)
    {
      CompiledExactly(d, g, results, l, output, s);
    }
  }

  /** The one hop from `k` is the edge to `t`. */
  ghost predicate OnlyLeadsTo<S(!new)>(g: Graph<S>, k: Location, t: Location) {
    Hop(t, None) in Hops(g, k) && forall h :: h in Hops(g, k) ==> h == Hop(t, None)
  }

  /** A path that walking back follows from such a location passes on from `t`; none does if `k` is not
      the last source of `t`. */
  lemma OneHopSummarized<T(!new), S(!new)>(d: Domain<T, S>, g: Graph<S>, k: Location, t: Location, output: nat, x: S)
    requires OnlyLeadsTo(g, k, t) && k != ScopeOutput(output)
    ensures Summarizes(d, g, k, output, x) <==> LastSource(g, t, k) && Summarizes(d, g, t, output, x)
  {
    hide Hops;
    hide LastSource;
    if Summarizes(d, g, k, output, x) {
      var path :| SummarizedBy(d, g, k, output, x, path);
      assert path[0] == Hop(t, None);
      assert SummarizedBy(d, g, t, output, x, path[1..]);
    }
    if LastSource(g, t, k) && Summarizes(d, g, t, output, x) {
      SummarizesHop(d, g, k, Hop(t, None), output, x);
    }
  }

  /** What is recorded for such a location is what `t` stands for if it is the last source of `t`, and
      nothing otherwise. */
  lemma OneHopExactly<T(!new), S(!new)>(d: Domain<T, S>, g: Graph<S>, results: Summaries<S>, k: Location, t: Location,
                                        output: nat, s: S)
    requires LawfulSummaries(d) && WellFormed(g) && Compiled(d, g, results)
    requires OnlyLeadsTo(g, k, t) && k != ScopeOutput(output)
    ensures Dominated(d, results, k, output, s) <==>
            LastSource(g, t, k) && exists x :: Summarizes(d, g, t, output, x) && d.below(x, s)
  {
    hide Compiled;
    hide WellFormed;
    hide Summarizes;
    hide LastSource;
    hide OnlyLeadsTo;
    hide Dominated;
    CompiledExactly(d, g, results, k, output, s);
    forall x ensures Summarizes(d, g, k, output, x) <==> LastSource(g, t, k) && Summarizes(d, g, t, output, x) {
      OneHopSummarized(d, g, k, t, output, x);
    }
  }

  /** So a source whose only edge leads to an output of the scope is missed exactly if it is not the last
      one: there is a path from it, and nothing at all is recorded. */
  lemma MissedExactly<T(!new), S(!new)>(d: Domain<T, S>, g: Graph<S>, results: Summaries<S>, k: Location, output: nat)
    requires LawfulSummaries(d) && WellFormed(g) && Compiled(d, g, results)
    requires OnlyLeadsTo(g, k, ScopeOutput(output)) && k != ScopeOutput(output)
    ensures IsPathSummary(d, g, k, output, d.zero)
    ensures Dominated(d, results, k, output, d.zero) <==> LastSource(g, ScopeOutput(output), k)
    ensures SummariesTo(results, k, output) == [] <==> !LastSource(g, ScopeOutput(output), k)
  {
    hide Compiled;
    hide WellFormed;
    hide LastSource;
    hide SummariesTo;
    hide Hops;
    var t := ScopeOutput(output);
    assert SummarizedBy(d, g, t, output, d.zero, []);
    var path: seq<Hop<S>> := [Hop(t, None)];
    assert path[1..] == [] && IsPath(g, t, [], t);
    assert IsPath(g, k, path, t) && Composed(d, path) == Some(d.zero);
    assert d.below(d.zero, d.zero);
    OneHopExactly(d, g, results, k, t, output, d.zero);
    if SummariesTo(results, k, output) != [] {
      var s := SummariesTo(results, k, output)[0];
      assert d.below(s, s);
      OneHopExactly(d, g, results, k, t, output, s);
    }
  }

  /** Two operators without inputs, whose only outputs both lead to the one output of the scope. */
  function TwoSources<S>(): (g: Graph<S>) {
    Graph([[[]], [], []], [[], [[Target(0, 0)]], [[Target(0, 0)]]])
  }

  /** The first of them is missed. */
  lemma SecondSourceMissed<T(!new), S(!new)>(d: Domain<T, S>, results: Summaries<S>)
    requires LawfulSummaries(d) && Compiled(d, TwoSources(), results)
    ensures WellFormed<S>(TwoSources()) && !LastSourcesSuffice(d, TwoSources())
    ensures IsPathSummary(d, TwoSources(), Location(1, SourcePort(0)), 0, d.zero)
    ensures SummariesTo(results, Location(1, SourcePort(0)), 0) == []
    ensures Dominated(d, results, Location(2, SourcePort(0)), 0, d.zero)
  {
    hide LawfulSummaries;
    hide Compiled;
    hide WellFormed;
    hide Hops;
    hide TwoSources;
    hide LastSourcesSuffice;
    hide SummariesTo;
    TwoSourcesHops<S>();
    var g := TwoSources<S>();
    MissedExactly(d, g, results, Location(1, SourcePort(0)), 0);
    MissedExactly(d, g, results, Location(2, SourcePort(0)), 0);
    CompleteExactly(d, g, results);
  }

  lemma TwoSourcesHops<S(!new)>()
    ensures WellFormed<S>(TwoSources())
    ensures forall n :: 1 <= n <= 2 ==> OnlyLeadsTo<S>(TwoSources(), Location(n, SourcePort(0)), ScopeOutput(0))
    ensures !LastSource<S>(TwoSources(), ScopeOutput(0), Location(1, SourcePort(0)))
    ensures LastSource<S>(TwoSources(), ScopeOutput(0), Location(2, SourcePort(0)))
  {
    var g: Graph<S> := TwoSources();
    var edge: Hop<S> := Hop(ScopeOutput(0), None);
    assert EdgeHops<S>(g.edges[1][0])[0] == edge && EdgeHops<S>(g.edges[2][0])[0] == edge;
    assert edge in Hops(g, Location(2, SourcePort(0)));
    forall j | edge in Hops(g, j) ensures !LocationLess(Location(2, SourcePort(0)), j) {
      assert Has(g, j) && j.node < 3;
    }
  }
}
