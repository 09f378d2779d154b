/** Compiling summaries of the paths from each location to the outputs of the scope. */
module Summarize {
  import opened Basics
  import opened Orders
  import opened Frontiers
  import opened Timestamps
  import opened Graphs
  import opened Trading
  import opened Outputs

  /** The location of an output of the scope. */
  function ScopeOutput(output: nat): Location {
    Location(0, TargetPort(output))
  }

  /** The summary of a hop followed by a path summarized by `s`. */
  function Combine<T, S>(d: Domain<T, S>, h: Hop<S>, s: S): Option<S> {
    if h.via.None? then Some(s) else d.followed(h.via.value, s)
  }

  /** The summary of a path. */
  function Composed<T, S>(d: Domain<T, S>, path: seq<Hop<S>>): Option<S> {
    if path == [] then Some(d.zero)
    else
      var rest := Composed(d, path[1..]);
      if rest.None? then None else Combine(d, path[0], rest.value)
  }

  /** Of the sources of edges to `t`, `k` is the last in order of node and port. */
  ghost predicate LastSource<S(!new)>(g: Graph<S>, t: Location, k: Location) {
    Hop(t, None) in Hops(g, k) && forall j :: Hop(t, None) in Hops(g, j) ==> !LocationLess(k, j)
  }

  /** There is at most one. */
  lemma LastSourceUnique<S(!new)>(g: Graph<S>, t: Location, k: Location, j: Location)
    requires LastSource(g, t, k) && LastSource(g, t, j)
    ensures k == j
  {
    hide Hops;
  }

  /** For each target of an edge, the last source of one. */
  type Reverse = map<Location, Location>

  ghost predicate IsReverse<S(!new)>(g: Graph<S>, reverse: Reverse) {
    && (forall t :: t in reverse ==> LastSource(g, t, reverse[t]) && t.port.TargetPort? && reverse[t].port.SourcePort?)
    && (forall k, h :: h in Hops(g, k) && h.via.None? ==> h.to in reverse)
  }

  /** The hop `h` from `k` is one that walking back from its end finds. */
  ghost predicate Kept<S(!new)>(g: Graph<S>, k: Location, h: Hop<S>) {
    h in Hops(g, k) && (h.via.None? ==> LastSource(g, h.to, k))
  }

  /** Each hop of the path is one that walking back follows. */
  ghost predicate AllKept<S(!new)>(g: Graph<S>, from: Location, path: seq<Hop<S>>)
    decreases path
  {
    path == [] || (Kept(g, from, path[0]) && AllKept(g, path[0].to, path[1..]))
  }

  /** `s` summarizes a path from `l` to an output that walking back follows. */
  ghost predicate Summarizes<T, S(!new)>(d: Domain<T, S>, g: Graph<S>, l: Location, output: nat, s: S) {
    exists path :: SummarizedBy(d, g, l, output, s, path)
  }

  ghost predicate SummarizedBy<T, S(!new)>(d: Domain<T, S>, g: Graph<S>, l: Location, output: nat, s: S,
                                           path: seq<Hop<S>>) {
    IsPath(g, l, path, ScopeOutput(output)) && AllKept(g, l, path) && Composed(d, path) == Some(s)
  }

  ghost predicate Dominated<T, S>(d: Domain<T, S>, results: Summaries<S>, l: Location, output: nat, s: S) {
    AnyLessEqual(d.below, SummariesTo(results, l, output), s)
  }

  datatype Task<S> = Task(at: Location, output: nat, summary: S)

  /** What is known of a task's summary has been passed on to everywhere one hop before. */
  ghost predicate Expanded<T, S(!new)>(d: Domain<T, S>, g: Graph<S>, results: Summaries<S>, task: Task<S>) {
    forall k, h :: Kept(g, k, h) && h.to == task.at && Combine(d, h, task.summary).Some? ==>
      Dominated(d, results, k, task.output, Combine(d, h, task.summary).value)
  }

  /** A task stands for a path: the empty one to an output that some edge leads to, or a recorded one. */
  ghost predicate Known<T, S(!new)>(d: Domain<T, S>, g: Graph<S>, results: Summaries<S>, task: Task<S>) {
    || task.summary in SummariesTo(results, task.at, task.output)
    || (task == Task(ScopeOutput(task.output), task.output, d.zero) && exists k :: Hop(task.at, None) in Hops(g, k))
  }

  /** Every known task is on the worklist, being worked on, or expanded. */
  ghost predicate Closed<T, S(!new)>(d: Domain<T, S>, g: Graph<S>, results: Summaries<S>,
                                     worklist: seq<Task<S>>, current: set<Task<S>>) {
    forall task :: Known(d, g, results, task) ==> task in worklist || task in current || Expanded(d, g, results, task)
  }

  /** Recorded antichains and tasks summarize paths. */
  ghost predicate Sound<T, S(!new)>(d: Domain<T, S>, g: Graph<S>, results: Summaries<S>, worklist: seq<Task<S>>) {
    && (forall l, o: nat, s :: s in SummariesTo(results, l, o) ==> Summarizes(d, g, l, o, s))
    && (forall task :: task in worklist ==> Summarizes(d, g, task.at, task.output, task.summary))
  }

  ghost predicate Antichains<T, S(!new)>(d: Domain<T, S>, results: Summaries<S>) {
    forall l, o: nat :: IsAntichain(d.below, SummariesTo(results, l, o))
  }

  /** `results'` dominates what `results` does. */
  ghost predicate Grown<T, S(!new)>(d: Domain<T, S>, results: Summaries<S>, results': Summaries<S>) {
    forall l, o: nat, s :: Dominated(d, results, l, o, s) ==> Dominated(d, results', l, o, s)
  }

  /** Pads the antichains of a location with empty ones so as to include `output`. */
  function Padded<S>(antichains: seq<seq<S>>, output: nat): (r: seq<seq<S>>)
    ensures |r| == if |antichains| > output then |antichains| else output + 1
    ensures forall o :: 0 <= o < |antichains| ==> r[o] == antichains[o]
    ensures forall o :: |antichains| <= o < |r| ==> r[o] == []
    decreases output + 1 - |antichains|
  {
    if |antichains| > output then antichains else Padded(antichains + [[]], output)
  }

  /** The results after inserting a summary. */
  function InsertedAt<T, S(==,!new)>(d: Domain<T, S>, results: Summaries<S>, l: Location, output: nat,
                                     s: S): (results': Summaries<S>) {
    var antichains := Padded(if l in results then results[l] else [], output);
    results[l := antichains[output := Inserted(d.below, antichains[output], s)]]
  }

  lemma InsertedAtMeans<T, S(!new)>(d: Domain<T, S>, results: Summaries<S>, l: Location, output: nat, s: S, k: Location,
                                    o: nat)
    ensures SummariesTo(InsertedAt(d, results, l, output, s), k, o) ==
      (if k == l && o ==
       output then Inserted(d.below, SummariesTo(results, l, output), s) else SummariesTo(results, k, o))
  {
  }

  /** Inserting a summary: what stays, what grows, and that nothing else changes. */
  ghost predicate InsertedHere<T, S(!new)>(d: Domain<T, S>, results: Summaries<S>, task: Task<S>,
                                           results': Summaries<S>) {
    && Antichains(d, results')
    && Grown(d, results, results')
    && Dominated(d, results', task.at, task.output, task.summary)
    && (forall l, o: nat, s :: s in SummariesTo(results', l, o) ==>
          s in SummariesTo(results, l, o) ||
          (Task(l, o, s) == task && !Dominated(d, results, task.at, task.output, task.summary)))
  }

  lemma InsertHere<T, S(!new)>(d: Domain<T, S>, results: Summaries<S>, task: Task<S>)
    requires PartialOrder(d.below) && Antichains(d, results)
    ensures InsertedHere(d, results, task, InsertedAt(d, results, task.at, task.output, task.summary))
  {
    hide InsertedAt;
    hide SummariesTo;
    var results' := InsertedAt(d, results, task.at, task.output, task.summary);
    InsertedAntichain(d.below, SummariesTo(results, task.at, task.output), task.summary);
    assert d.below(task.summary, task.summary);
    forall l, o: nat ensures IsAntichain(d.below, SummariesTo(results', l, o))
      ensures forall s :: Dominated(d, results, l, o, s) ==> Dominated(d, results', l, o, s)
      ensures forall s :: s in SummariesTo(results', l, o) ==>
        (s in SummariesTo(results, l, o) ||
         (Task(l, o, s) == task && !Dominated(d, results, task.at, task.output, task.summary)))
    {
      InsertedAtMeans(d, results, task.at, task.output, task.summary, l, o);
    }
    InsertedAtMeans(d, results, task.at, task.output, task.summary, task.at, task.output);
  }

  lemma ExpandedGrows<T, S(!new)>(d: Domain<T, S>, g: Graph<S>, results: Summaries<S>, results': Summaries<S>,
                                  task: Task<S>)
    requires Expanded(d, g, results, task) && Grown(d, results, results')
    ensures Expanded(d, g, results', task)
  {
    hide Kept;
    hide Dominated;
  }

  /** A recorded insertion, queued if it was new, keeps everything known accounted for. */
  lemma InsertClosed<T, S(!new)>(d: Domain<T, S>, g: Graph<S>, results: Summaries<S>, results': Summaries<S>,
                                 worklist: seq<Task<S>>, worklist': seq<Task<S>>, current: set<Task<S>>, task: Task<S>)
    requires Closed(d, g, results, worklist, current) && Sound(d, g, results, worklist)
    requires Summarizes(d, g, task.at, task.output, task.summary)
    requires InsertedHere(d, results, task, results')
    requires worklist' ==
              if Dominated(d, results, task.at, task.output, task.summary) then worklist else worklist + [task]
    ensures Closed(d, g, results', worklist', current) && Sound(d, g, results', worklist')
  {
    hide SummariesTo;
    hide Summarizes;
    hide Expanded;
    hide Dominated;
    hide Grown;
    hide Antichains;
    assert forall t :: t in worklist ==> t in worklist';
    assert !Dominated(d, results, task.at, task.output, task.summary) ==> worklist'[|worklist|] == task;
    forall t | Known(d, g, results', t) ensures t in worklist' || t in current || Expanded(d, g, results', t) {
      assert t == Task(t.at, t.output, t.summary);
      if Known(d, g, results, t) && Expanded(d, g, results, t) {
        ExpandedGrows(d, g, results, results', t);
      }
    }
  }

  function OutputCount<S>(g: Graph<S>): nat {
    if |g.nodes| > 0 then |g.nodes[0]| else 0
  }

  /** The measure: locations, outputs and summaries not dominated yet. */
  ghost function Undominated<T, S(!new)>(d: Domain<T, S>, g: Graph<S>, results: Summaries<S>): set<Task<S>> {
    set l, o: nat, s | l in Locations(g) && o < OutputCount(g) && s in d.summaries &&
    !Dominated(d, results, l, o, s) :: Task(l, o, s)
  }

  /** A worklist can only grow while the measure falls. */
  ghost predicate Progress<T, S(!new)>(d: Domain<T, S>, g: Graph<S>, results: Summaries<S>, worklist: seq<Task<S>>,
                                       results': Summaries<S>, worklist': seq<Task<S>>) {
    && Undominated(d, g, results') <= Undominated(d, g, results)
    && (worklist' != worklist ==> Undominated(d, g, results') < Undominated(d, g, results))
  }

  lemma InsertProgress<T, S(!new)>(d: Domain<T, S>, g: Graph<S>, results: Summaries<S>, worklist: seq<Task<S>>,
                                   task: Task<S>, results': Summaries<S>, worklist': seq<Task<S>>)
    requires InsertedHere(d, results, task, results')
    requires worklist' ==
              if Dominated(d, results, task.at, task.output, task.summary) then worklist else worklist + [task]
    requires task.at in Locations(g) && task.output < OutputCount(g) && task.summary in d.summaries
    ensures Progress(d, g, results, worklist, results', worklist')
  {
    hide SummariesTo;
    hide Dominated;
    hide Locations;
    hide OutputCount;
    hide Antichains;
    forall t | t in Undominated(d, g, results') ensures t in Undominated(d, g, results) {
      assert t == Task(t.at, t.output, t.summary);
    }
    assert task == Task(task.at, task.output, task.summary);
    if !Dominated(d, results, task.at, task.output, task.summary) {
      assert task in Undominated(d, g, results) && task !in Undominated(d, g, results');
    }
  }

  lemma ProgressTrans<T, S(!new)>(d: Domain<T, S>, g: Graph<S>, r: Summaries<S>, w: seq<Task<S>>, r': Summaries<S>,
                                  w': seq<Task<S>>, r'': Summaries<S>, w'': seq<Task<S>>)
    requires Progress(d, g, r, w, r', w') && Progress(d, g, r', w', r'', w'')
    ensures Progress(d, g, r, w, r'', w'')
  {
    hide Undominated;
  }

  lemma GrownTrans<T, S(!new)>(d: Domain<T, S>, r: Summaries<S>, r': Summaries<S>, r'': Summaries<S>)
    requires Grown(d, r, r') && Grown(d, r', r'')
    ensures Grown(d, r, r'')
  {
    hide Dominated;
  }

  lemma SummarizesHop<T, S(!new)>(d: Domain<T, S>, g: Graph<S>, k: Location, h: Hop<S>, output: nat, s: S)
    requires Kept(g, k, h) && Summarizes(d, g, h.to, output, s) && Combine(d, h, s).Some?
    ensures Summarizes(d, g, k, output, Combine(d, h, s).value)
  {
    var path :| SummarizedBy(d, g, h.to, output, s, path);
    var longer := [h] + path;
    assert longer[1..] == path && longer[0] == h;
    assert SummarizedBy(d, g, k, output, Combine(d, h, s).value, longer);
  }

  /** Summaries are kept for locations and outputs that exist. */
  ghost predicate Within<S(!new)>(g: Graph<S>, results: Summaries<S>) {
    forall l :: l in results ==> l in Locations(g) && |results[l]| <= OutputCount(g)
  }

  lemma InsertWithin<T, S(!new)>(d: Domain<T, S>, g: Graph<S>, results: Summaries<S>, l: Location, output: nat, s: S)
    requires Within(g, results) && l in Locations(g) && output < OutputCount(g)
    ensures Within(g, InsertedAt(d, results, l, output, s))
  {
    hide Locations;
    hide OutputCount;
  }

  /** The state of the worklist loop while the tasks `current` are being worked on. */
  ghost predicate Compiling<T, S(!new)>(d: Domain<T, S>, g: Graph<S>, results: Summaries<S>,
                                        worklist: seq<Task<S>>, current: set<Task<S>>) {
    && Antichains(d, results)
    && Sound(d, g, results, worklist)
    && Closed(d, g, results, worklist, current)
    && Within(g, results)
    && (forall t :: t in worklist ==> t.at in Locations(g) && t.output < OutputCount(g))
  }

  /** Records the summary of one hop followed by a known path, and queues it if it is not dominated. */
  method Record<T(!new), S(==,!new)>(d: Domain<T, S>, ghost g: Graph<S>, results: Summaries<S>, worklist: seq<Task<S>>,
                               ghost current: set<Task<S>>, task: Task<S>)
    returns (results': Summaries<S>, worklist': seq<Task<S>>)
    requires LawfulSummaries(d) && Compiling(d, g, results, worklist, current)
    requires Summarizes(d, g, task.at, task.output, task.summary)
    requires task.at in Locations(g) && task.output < OutputCount(g)
    ensures Compiling(d, g, results', worklist', current)
    ensures Grown(d, results, results') && Dominated(d, results', task.at, task.output, task.summary)
    ensures Progress(d, g, results, worklist, results', worklist')
  {
    results' := InsertedAt(d, results, task.at, task.output, task.summary);
    worklist' := if AnyLessEqual(d.below, SummariesTo(results, task.at, task.output),
                                 task.summary) then worklist else worklist + [task];
    InsertRecorded(d, g, results, worklist, current, task, results', worklist');
  }

  lemma InsertRecorded<T(!new), S(!new)>(d: Domain<T, S>, g: Graph<S>, results: Summaries<S>, worklist: seq<Task<S>>,
                                         current: set<Task<S>>, task: Task<S>, results': Summaries<S>,
                                         worklist': seq<Task<S>>)
    requires LawfulSummaries(d) && Compiling(d, g, results, worklist, current)
    requires Summarizes(d, g, task.at, task.output, task.summary)
    requires task.at in Locations(g) && task.output < OutputCount(g)
    requires results' == InsertedAt(d, results, task.at, task.output, task.summary)
    requires worklist' ==
              if Dominated(d, results, task.at, task.output, task.summary) then worklist else worklist + [task]
    ensures Compiling(d, g, results', worklist', current)
    ensures Grown(d, results, results') && Dominated(d, results', task.at, task.output, task.summary)
    ensures Progress(d, g, results, worklist, results', worklist')
  {
    hide InsertedAt;
    hide Summarizes;
    hide Dominated;
    hide Locations;
    hide OutputCount;
    hide Antichains;
    hide Sound;
    hide Closed;
    hide Grown;
    hide Progress;
    hide Within;
    InsertWithin(d, g, results, task.at, task.output, task.summary);
    InsertHere(d, results, task);
    InsertClosed(d, g, results, results', worklist, worklist', current, task);
    InsertProgress(d, g, results, worklist, task, results', worklist');
  }

  /** Finishing the current task. */
  lemma TaskDone<T, S(!new)>(d: Domain<T, S>, g: Graph<S>, results: Summaries<S>, worklist: seq<Task<S>>, task: Task<S>)
    requires Compiling(d, g, results, worklist, {task}) && Expanded(d, g, results, task)
    ensures Compiling(d, g, results, worklist, {})
  {
    hide Known;
    hide Expanded;
    hide Sound;
    hide Antichains;
    hide Locations;
    hide OutputCount;
  }

  /** Taking a task off the worklist. */
  lemma TaskTaken<T, S(!new)>(d: Domain<T, S>, g: Graph<S>, results: Summaries<S>, worklist: seq<Task<S>>)
    requires worklist != [] && Compiling(d, g, results, worklist, {})
    ensures Compiling(d, g, results, worklist[1..], {worklist[0]})
    ensures Summarizes(d, g, worklist[0].at, worklist[0].output, worklist[0].summary)
    ensures worklist[0].at in Locations(g) && worklist[0].output < OutputCount(g)
  {
    hide Known;
    hide Expanded;
    hide Antichains;
    hide Locations;
    hide OutputCount;
    hide Summarizes;
    assert worklist == [worklist[0]] + worklist[1..];
    assert worklist[0] in worklist;
  }

  /** A hop into an output port crosses the operator from one of its inputs. */
  lemma IntoSource<S(!new)>(g: Graph<S>, k: Location, h: Hop<S>)
    requires WellFormed(g) && h in Hops(g, k) && h.to.port.SourcePort?
    ensures k.port.TargetPort? && k.node == h.to.node && Has(g, k) && h.via.Some?
    ensures h.to.port.index < |g.nodes[k.node][k.port.index]|
    ensures h.via.value in g.nodes[k.node][k.port.index][h.to.port.index]
  {
    match k.port
    case TargetPort(i) =>
      NodeHopsLead(k.node, g.nodes[k.node][i], |g.nodes[k.node][i]|, h);
    case SourcePort(o) =>
  }

  /** A hop into an input port follows an edge. */
  lemma IntoTarget<S(!new)>(g: Graph<S>, k: Location, h: Hop<S>)
    requires WellFormed(g) && h in Hops(g, k) && h.to.port.TargetPort?
    ensures k.port.SourcePort? && Has(g, k) && h.via.None?
    ensures exists e :: 0 <= e < |g.edges[k.node][k.port.index]| && FromTarget(g.edges[k.node][k.port.index][e]) == h.to
  {
    match k.port
    case TargetPort(i) =>
      NodeHopsLead(k.node, g.nodes[k.node][i], |g.nodes[k.node][i]|, h);
    case SourcePort(o) =>
      var hops := EdgeHops(g.edges[k.node][o]);
      var e :| 0 <= e < |hops| && hops[e] == h;
  }

  lemma AcrossHop<S(!new)>(g: Graph<S>, node: nat, input: nat, output: nat, op: S)
    requires WellFormed(g) && HasTarget(g, node, input) && output < |g.nodes[node][input]| &&
             op in g.nodes[node][input][output]
    ensures Hop(Location(node, SourcePort(output)), Some(op)) in Hops(g, Location(node, TargetPort(input)))
  {
    NodeHopsLead(node, g.nodes[node][input], |g.nodes[node][input]|, Hop(Location(node, SourcePort(output)), Some(op)));
  }

  /** All ways of crossing to the task's location under `ops` have been passed on to `at`. */
  ghost predicate PassedOn<T, S>(d: Domain<T, S>, results: Summaries<S>, at: Location, ops: seq<S>, task: Task<S>) {
    forall k :: 0 <= k < |ops| && d.followed(ops[k], task.summary).Some? ==>
      Dominated(d, results, at, task.output, d.followed(ops[k], task.summary).value)
  }

  lemma PassedOnGrows<T, S(!new)>(d: Domain<T, S>, results: Summaries<S>, results': Summaries<S>, at: Location,
                                  ops: seq<S>, task: Task<S>)
    requires PassedOn(d, results, at, ops, task) && Grown(d, results, results')
    ensures PassedOn(d, results', at, ops, task)
  {
    hide Dominated;
  }

  lemma PassedOnMore<T, S(!new)>(d: Domain<T, S>, results: Summaries<S>, at: Location, ops: seq<S>, op: S,
                                 task: Task<S>)
    requires PassedOn(d, results, at, ops, task)
    requires d.followed(op, task.summary).Some? ==>
              Dominated(d, results, at, task.output, d.followed(op, task.summary).value)
    ensures PassedOn(d, results, at, ops + [op], task)
  {
    hide Dominated;
  }

  lemma GrownSelf<T, S(!new)>(d: Domain<T, S>, g: Graph<S>, results: Summaries<S>, worklist: seq<Task<S>>)
    ensures Grown(d, results, results) && Progress(d, g, results, worklist, results, worklist)
  {
    hide Dominated;
    hide Undominated;
  }

  /** Walks back across an operator to one of its inputs. */
  method CrossBack<T(!new), S(==,!new)>(d: Domain<T, S>, ghost g: Graph<S>, results: Summaries<S>,
                                        worklist: seq<Task<S>>, task: Task<S>, input: Location, ops: seq<S>)
    returns (results': Summaries<S>, worklist': seq<Task<S>>)
    requires LawfulSummaries(d) && Compiling(d, g, results, worklist, {task})
    requires Summarizes(d, g, task.at, task.output, task.summary) && task.output < OutputCount(g) &&
             input in Locations(g)
    requires forall op :: op in ops ==> Hop(task.at, Some(op)) in Hops(g, input)
    ensures Compiling(d, g, results', worklist', {task})
    ensures Grown(d, results, results') && Progress(d, g, results, worklist, results', worklist')
    ensures PassedOn(d, results', input, ops, task)
  {
    hide Compiling;
    hide Grown;
    hide Progress;
    hide PassedOn;
    hide LawfulSummaries;
    hide Summarizes;
    hide Hops;
    hide Locations;
    hide OutputCount;
    hide Dominated;
    results', worklist' := results, worklist;
    GrownSelf(d, g, results, worklist);
    PassedOnNone(d, results, input, task);
    assert ops[..0] == [];
    for k := 0 to |ops|
      invariant Compiling(d, g, results', worklist', {task})
      invariant Grown(d, results, results') && Progress(d, g, results, worklist, results', worklist')
      invariant PassedOn(d, results', input, ops[..k], task)
    {
      ghost var r, w := results', worklist';
      var combined := d.followed(ops[k], task.summary);
      if combined.Some? {
        SummarizesHop(d, g, input, Hop(task.at, Some(ops[k])), task.output, task.summary);
        results', worklist' := Record(d, g, results', worklist', {task}, Task(input, task.output, combined.value));
        GrownTrans(d, results, r, results');
        ProgressTrans(d, g, results, worklist, r, w, results', worklist');
        PassedOnGrows(d, r, results', input, ops[..k], task);
      }
      PassedOnMore(d, results', input, ops[..k], ops[k], task);
      assert ops[..k + 1] == ops[..k] + [ops[k]];
    }
    assert ops[..|ops|] == ops;
  }

  lemma PassedOnNone<T, S>(d: Domain<T, S>, results: Summaries<S>, at: Location, task: Task<S>)
    ensures PassedOn(d, results, at, [], task)
  {
  }

  /** Walks back from an output port of an operator to its inputs. */
  method ExpandSource<T(!new), S(==,!new)>(d: Domain<T, S>, g: Graph<S>, results: Summaries<S>, worklist: seq<Task<S>>,
                                           task: Task<S>)
    returns (results': Summaries<S>, worklist': seq<Task<S>>)
    requires LawfulSummaries(d) && WellFormed(g) && Compiling(d, g, results, worklist, {task})
    requires Summarizes(d, g, task.at, task.output, task.summary) && task.output < OutputCount(g)
    requires task.at in Locations(g) && task.at.port.SourcePort?
    ensures Compiling(d, g, results', worklist', {})
    ensures Progress(d, g, results, worklist, results', worklist')
  {
    hide Compiling;
    hide Grown;
    hide Progress;
    hide PassedOn;
    hide LawfulSummaries;
    hide Summarizes;
    hide OutputCount;
    hide Expanded;
    LocationsAll(g);
    hide Locations;
    var node, port := task.at.node, task.at.port.index;
    results', worklist' := results, worklist;
    GrownSelf(d, g, results, worklist);
    for i := 0 to |g.nodes[node]|
      invariant Compiling(d, g, results', worklist', {task})
      invariant Progress(d, g, results, worklist, results', worklist')
      invariant forall j :: 0 <= j < i ==>
                PassedOn(d, results', Location(node, TargetPort(j)), g.nodes[node][j][port], task)
    {
      ghost var r, w := results', worklist';
      var input := Location(node, TargetPort(i));
      var ops := g.nodes[node][i][port];
      forall op | op in ops ensures Hop(task.at, Some(op)) in Hops(g, input) {
        AcrossHop(g, node, i, port, op);
      }
      assert Has(g, input);
      results', worklist' := CrossBack(d, g, results', worklist', task, input, ops);
      ProgressTrans(d, g, results, worklist, r, w, results', worklist');
      forall j | 0 <= j < i ensures PassedOn(d, results', Location(node, TargetPort(j)), g.nodes[node][j][port], task) {
        PassedOnGrows(d, r, results', Location(node, TargetPort(j)), g.nodes[node][j][port], task);
      }
    }
    SourceExpanded(d, g, results', task);
    TaskDone(d, g, results', worklist', task);
  }

  lemma SourceExpanded<T, S(!new)>(d: Domain<T, S>, g: Graph<S>, results: Summaries<S>, task: Task<S>)
    requires WellFormed(g) && Has(g, task.at) && task.at.port.SourcePort?
    requires forall j :: 0 <= j < |g.nodes[task.at.node]| ==>
      PassedOn(d, results, Location(task.at.node, TargetPort(j)), g.nodes[task.at.node][j][task.at.port.index], task)
    ensures Expanded(d, g, results, task)
  {
    hide Dominated;
    forall k, h | Kept(g, k, h) && h.to == task.at && Combine(d, h, task.summary).Some?
      ensures Dominated(d, results, k, task.output, Combine(d, h, task.summary).value)
    {
      IntoSource(g, k, h);
      assert k == Location(task.at.node, TargetPort(k.port.index));
      var ops := g.nodes[task.at.node][k.port.index][task.at.port.index];
      assert PassedOn(d, results, k, ops, task);
      var e :| 0 <= e < |ops| && ops[e] == h.via.value;
    }
  }

  /** Walks back along the edge into an input port. */
  method ExpandTarget<T(!new), S(==,!new)>(d: Domain<T, S>, g: Graph<S>, reverse: Reverse, results: Summaries<S>,
                                           worklist: seq<Task<S>>, task: Task<S>)
    returns (results': Summaries<S>, worklist': seq<Task<S>>)
    requires LawfulSummaries(d) && WellFormed(g) && IsReverse(g, reverse) && Compiling(d, g, results, worklist, {task})
    requires Summarizes(d, g, task.at, task.output, task.summary) && task.output < OutputCount(g)
    requires task.at in Locations(g) && task.at.port.TargetPort?
    ensures Compiling(d, g, results', worklist', {})
    ensures Progress(d, g, results, worklist, results', worklist')
  {
    hide Compiling;
    hide Grown;
    hide Progress;
    hide LawfulSummaries;
    hide Summarizes;
    hide OutputCount;
    hide Expanded;
    results', worklist' := results, worklist;
    GrownSelf(d, g, results, worklist);
    if task.at in reverse {
      var source := reverse[task.at];
      IntoTarget(g, source, Hop(task.at, None));
      LocationsAll(g);
      SummarizesHop(d, g, source, Hop(task.at, None), task.output, task.summary);
      results', worklist' := Record(d, g, results, worklist, {task}, Task(source, task.output, task.summary));
    }
    TargetExpanded(d, g, reverse, results', task);
    TaskDone(d, g, results', worklist', task);
  }

  lemma TargetExpanded<T, S(!new)>(d: Domain<T, S>, g: Graph<S>, reverse: Reverse, results: Summaries<S>, task: Task<S>)
    requires WellFormed(g) && IsReverse(g, reverse) && task.at.port.TargetPort?
    requires task.at in reverse ==> Dominated(d, results, reverse[task.at], task.output, task.summary)
    ensures Expanded(d, g, results, task)
  {
    hide Dominated;
    forall k, h | Kept(g, k, h) && h.to == task.at && Combine(d, h, task.summary).Some?
      ensures Dominated(d, results, k, task.output, Combine(d, h, task.summary).value)
    {
      IntoTarget(g, k, h);
    }
  }

  /** An edge from an output port. */
  ghost predicate EdgeAt<S>(g: Graph<S>, n: nat, o: nat, e: nat) {
    HasSource(g, n, o) && e < |g.edges[n][o]|
  }

  /** The edges before position (`n`, `o`, `e`) in iteration order. */
  predicate Before(n: nat, o: nat, e: nat, n': nat, o': nat, e': nat) {
    n < n' || (n == n' && (o < o' || (o == o' && e < e')))
  }

  ghost predicate ReverseSoFar<S(!new)>(g: Graph<S>, reverse: Reverse, n: nat, o: nat, e: nat) {
    && (forall t :: t in reverse ==>
        Hop(t, None) in Hops(g, reverse[t]) && t.port.TargetPort? && reverse[t].port.SourcePort?)
    && (forall n': nat, o': nat, e': nat :: EdgeAt(g, n', o', e') && Before(n', o', e', n, o, e) ==>
          var t := FromTarget(g.edges[n'][o'][e']);
          t in reverse && !LocationLess(reverse[t], Location(n', SourcePort(o'))))
  }

  lemma EdgeHop<S>(g: Graph<S>, n: nat, o: nat, e: nat)
    requires EdgeAt(g, n, o, e)
    ensures Hop(FromTarget(g.edges[n][o][e]), None) in Hops(g, Location(n, SourcePort(o)))
  {
    var hops := EdgeHops<S>(g.edges[n][o]);
    assert hops[e] == Hop(FromTarget(g.edges[n][o][e]), None);
  }

  /** A reverse edge map; where several edges lead to one target, the last one stays. */
  method BuildReverse<S(!new)>(g: Graph<S>) returns (reverse: Reverse)
    requires WellFormed(g)
    ensures IsReverse(g, reverse)
  {
    hide Hops;
    reverse := map[];
    for n := 0 to |g.edges|
      invariant ReverseSoFar(g, reverse, n, 0, 0)
    {
      for o := 0 to |g.edges[n]|
        invariant ReverseSoFar(g, reverse, n, o, 0)
      {
        for e := 0 to |g.edges[n][o]|
          invariant ReverseSoFar(g, reverse, n, o, e)
        {
          EdgeHop(g, n, o, e);
          reverse := reverse[FromTarget(g.edges[n][o][e]) := Location(n, SourcePort(o))];
        }
      }
    }
    ReverseWhole(g, reverse);
  }

  lemma ReverseWhole<S(!new)>(g: Graph<S>, reverse: Reverse)
    requires WellFormed(g) && ReverseSoFar(g, reverse, |g.edges|, 0, 0)
    ensures IsReverse(g, reverse)
  {
    forall k, h | h in Hops(g, k) && h.via.None? ensures h.to in reverse && !LocationLess(reverse[h.to], k) {
      if h.to.port.SourcePort? {
        IntoSource(g, k, h);
      } else {
        IntoTarget(g, k, h);
        var e :| 0 <= e < |g.edges[k.node][k.port.index]| && FromTarget(g.edges[k.node][k.port.index][e]) == h.to;
        assert EdgeAt(g, k.node, k.port.index, e) && Before(k.node, k.port.index, e, |g.edges|, 0, 0);
      }
    }
  }

  /** The first tasks: one for each edge to an output of the scope. */
  ghost predicate StartsSoFar<T, S(!new)>(d: Domain<T, S>, g: Graph<S>, worklist: seq<Task<S>>, n: nat, o: nat,
                                          e: nat) {
    && (forall t :: t in worklist ==> t == Task(ScopeOutput(t.output), t.output, d.zero) && HasTarget(g, 0, t.output))
    && (forall n': nat, o': nat, e': nat ::
          EdgeAt(g, n', o', e') && Before(n', o', e', n, o, e) && g.edges[n'][o'][e'].node == 0 ==>
            Task(FromTarget(g.edges[n'][o'][e']), g.edges[n'][o'][e'].port, d.zero) in worklist)
  }

  method OutputTasks<T, S(!new)>(d: Domain<T, S>, g: Graph<S>) returns (worklist: seq<Task<S>>)
    requires WellFormed(g)
    ensures StartsSoFar(d, g, worklist, |g.edges|, 0, 0)
  {
    worklist := [];
    for n := 0 to |g.edges|
      invariant StartsSoFar(d, g, worklist, n, 0, 0)
    {
      for o := 0 to |g.edges[n]|
        invariant StartsSoFar(d, g, worklist, n, o, 0)
      {
        for e := 0 to |g.edges[n][o]|
          invariant StartsSoFar(d, g, worklist, n, o, e)
        {
          var target := g.edges[n][o][e];
          if target.node == 0 {
            StartMore(d, g, worklist, n, o, e);
            worklist := worklist + [Task(FromTarget(target), target.port, d.zero)];
          }
        }
      }
    }
  }

  lemma StartMore<T, S(!new)>(d: Domain<T, S>, g: Graph<S>, worklist: seq<Task<S>>, n: nat, o: nat, e: nat)
    requires WellFormed(g) && StartsSoFar(d, g, worklist, n, o, e) && EdgeAt(g, n, o, e) && g.edges[n][o][e].node == 0
    ensures StartsSoFar(d, g, worklist + [Task(FromTarget(g.edges[n][o][e]), g.edges[n][o][e].port, d.zero)], n, o,
                        e + 1)
  {
    var target := g.edges[n][o][e];
    var more := worklist + [Task(FromTarget(target), target.port, d.zero)];
    assert more[|worklist|] == Task(FromTarget(target), target.port, d.zero);
    assert HasTarget(g, target.node, target.port);
  }

  lemma StartCompiling<T(!new), S(!new)>(d: Domain<T, S>, g: Graph<S>, worklist: seq<Task<S>>)
    requires LawfulSummaries(d) && WellFormed(g) && StartsSoFar(d, g, worklist, |g.edges|, 0, 0)
    ensures Compiling(d, g, map[], worklist, {})
  {
    forall t | t in worklist
      ensures Summarizes(d, g, t.at, t.output, t.summary) && t.at in Locations(g) && t.output < OutputCount(g) {
      assert SummarizedBy(d, g, t.at, t.output, t.summary, []);
      LocationsAll(g);
    }
    forall t | Known(d, g, map[], t) ensures t in worklist {
      var source :| Hop(t.at, None) in Hops(g, source);
      IntoTarget(g, source, Hop(t.at, None));
      var e :| 0 <= e < |g.edges[source.node][source.port.index]| &&
      FromTarget(g.edges[source.node][source.port.index][e]) == t.at;
      assert EdgeAt(g, source.node, source.port.index, e) && Before(source.node, source.port.index, e, |g.edges|, 0, 0);
    }
  }

  /** What the compilation promises: recorded summaries are those of paths, and every path of hops that
      walking back follows is dominated by a recorded summary. */
  ghost predicate Compiled<T, S(!new)>(d: Domain<T, S>, g: Graph<S>, results: Summaries<S>) {
    Compiling(d, g, results, [], {})
  }

  /** Determines summaries from locations to outputs of the scope. */
  method SummarizeOutputs<T(!new), S(==,!new)>(d: Domain<T, S>, g: Graph<S>) returns (results: Summaries<S>)
    requires LawfulSummaries(d) && WellFormed(g)
    ensures Compiled(d, g, results)
  {
    hide LawfulSummaries;
    hide WellFormed;
    hide Compiling;
    hide Progress;
    hide Summarizes;
    hide Locations;
    hide OutputCount;
    hide StartsSoFar;
    hide IsReverse;
    hide Undominated;
    var reverse := BuildReverse(g);
    results := map[];
    var worklist := OutputTasks(d, g);
    StartCompiling(d, g, worklist);
    while worklist != []
      invariant Compiling(d, g, results, worklist, {})
      decreases |Undominated(d, g, results)|, |worklist|
    {
      ghost var r, w := results, worklist;
      var task := worklist[0];
      TaskTaken(d, g, results, worklist);
      worklist := worklist[1..];
      match task.at.port {
        case SourcePort(_) =>
          results, worklist := ExpandSource(d, g, results, worklist, task);
        case TargetPort(_) =>
          results, worklist := ExpandTarget(d, g, reverse, results, worklist, task);
      }
      ProgressMeasure(d, g, r, w[1..], results, worklist);
    }
  }

  lemma ProgressMeasure<T, S(!new)>(d: Domain<T, S>, g: Graph<S>, r: Summaries<S>, w: seq<Task<S>>, r': Summaries<S>,
                                    w': seq<Task<S>>)
    requires Progress(d, g, r, w, r', w')
    ensures |Undominated(d, g, r')| <= |Undominated(d, g, r)|
    ensures w' != w ==> |Undominated(d, g, r')| < |Undominated(d, g, r)|
  {
    hide Undominated;
    SubsetSize(Undominated(d, g, r'), Undominated(d, g, r));
    if w' != w {
      SmallerSet(Undominated(d, g, r'), Undominated(d, g, r));
    }
  }

  // ---- what compiled summaries say ----

  /** Every recorded summary is that of a path. */
  lemma CompiledSound<T, S(!new)>(d: Domain<T, S>, g: Graph<S>, results: Summaries<S>, l: Location, output: nat, s: S)
    requires Compiled(d, g, results) && s in SummariesTo(results, l, output)
    ensures Summarizes(d, g, l, output, s)
  {
    hide SummariesTo;
    hide Summarizes;
  }

  /** Every path that walking back follows is dominated by a recorded summary. */
  lemma {:induction false} CompiledComplete<T(!new), S(!new)>(d: Domain<T, S>, g: Graph<S>, results: Summaries<S>,
                                                              l: Location, output: nat, path: seq<Hop<S>>)
    requires LawfulSummaries(d) && WellFormed(g) && Compiled(d, g, results)
    requires path != [] && IsPath(g, l, path, ScopeOutput(output)) && AllKept(g, l, path) && Composed(d, path).Some?
    ensures Dominated(d, results, l, output, Composed(d, path).value)
    decreases path
  {
    hide Hops;
    hide Kept;
    hide SummariesTo;
    hide Compiling;
    var h, rest := path[0], path[1..];
    var s := Composed(d, rest).value;
    var x: S;
    if rest == [] {
      x := d.zero;
      assert h in Hops(g, l) && h.to == ScopeOutput(output);
      IntoTarget(g, l, h);
      assert Hop(ScopeOutput(output), None) in Hops(g, l);
    } else {
      CompiledComplete(d, g, results, h.to, output, rest);
      var i :| 0 <= i < |SummariesTo(results, h.to, output)| && d.below(SummariesTo(results, h.to, output)[i], s);
      x := SummariesTo(results, h.to, output)[i];
    }
    assert d.below(x, s);
    KnownExpanded(d, g, results, Task(h.to, output, x));
    CombineMonotone(d, h, x, s);
    var c := Combine(d, h, x).value;
    assert Dominated(d, results, l, output, c);
    DominatedUp(d, results, l, output, c, Composed(d, path).value);
  }

  lemma KnownExpanded<T, S(!new)>(d: Domain<T, S>, g: Graph<S>, results: Summaries<S>, task: Task<S>)
    requires Compiled(d, g, results) && Known(d, g, results, task)
    ensures Expanded(d, g, results, task)
  {
    hide Expanded;
    hide Known;
    hide Sound;
    hide Antichains;
  }

  lemma CombineMonotone<T(!new), S(!new)>(d: Domain<T, S>, h: Hop<S>, x: S, s: S)
    requires LawfulSummaries(d) && d.below(x, s)
    ensures NoLater(d.below, Combine(d, h, x), Combine(d, h, s))
  {
  }

  lemma DominatedUp<T(!new), S(!new)>(d: Domain<T, S>, results: Summaries<S>, l: Location, output: nat, x: S, s: S)
    requires LawfulSummaries(d) && Dominated(d, results, l, output, x) && d.below(x, s)
    ensures Dominated(d, results, l, output, s)
  {
    hide SummariesTo;
    var f := SummariesTo(results, l, output);
    var i :| 0 <= i < |f| && d.below(f[i], x);
    assert d.below(f[i], s);
  }

  /** What compiled summaries dominate, exactly: the summaries of paths that walking back follows, and
      whatever is above them. */
  lemma CompiledExactly<T(!new), S(!new)>(d: Domain<T, S>, g: Graph<S>, results: Summaries<S>, l: Location, output: nat,
                                          s: S)
    requires LawfulSummaries(d) && WellFormed(g) && Compiled(d, g, results) && l != ScopeOutput(output)
    ensures Dominated(d, results, l, output, s) <==>
              exists x :: Summarizes(d, g, l, output, x) && d.below(x, s)
  {
    hide Compiled;
    hide SummariesTo;
    if Dominated(d, results, l, output, s) {
      var i :| 0 <= i < |SummariesTo(results, l, output)| && d.below(SummariesTo(results, l, output)[i], s);
      CompiledSound(d, g, results, l, output, SummariesTo(results, l, output)[i]);
    }
    if x :| Summarizes(d, g, l, output, x) && d.below(x, s) {
      var path :| SummarizedBy(d, g, l, output, x, path);
      CompiledComplete(d, g, results, l, output, path);
      DominatedUp(d, results, l, output, x, s);
    }
  }

  /** At most one edge leads to each target. */
  ghost predicate SingleSources<S(!new)>(g: Graph<S>) {
    forall k, k', t: Location :: Hop(t, None) in Hops(g, k) && Hop(t, None) in Hops(g, k') ==> k == k'
  }

  /** Then walking back follows every hop, so the compiled summaries dominate every path. */
  lemma {:induction false} SingleKept<S(!new)>(g: Graph<S>, from: Location, path: seq<Hop<S>>, to: Location)
    requires SingleSources(g) && IsPath(g, from, path, to)
    ensures AllKept(g, from, path)
    decreases path
  {
    hide Hops;
    if path != [] {
      var h := path[0];
      SingleKept(g, h.to, path[1..], to);
      assert h in Hops(g, from);
      if h.via.None? {
        assert h == Hop(h.to, None) && Hop(h.to, None) in Hops(g, from);
      }
    }
  }

  lemma CompiledExact<T(!new), S(!new)>(d: Domain<T, S>, g: Graph<S>, results: Summaries<S>,
                                        l: Location, output: nat, path: seq<Hop<S>>)
    requires LawfulSummaries(d) && WellFormed(g) && Compiled(d, g, results) && SingleSources(g)
    requires path != [] && IsPath(g, l, path, ScopeOutput(output)) && Composed(d, path).Some?
    ensures Dominated(d, results, l, output, Composed(d, path).value)
  {
    SingleKept(g, l, path, ScopeOutput(output));
    CompiledComplete(d, g, results, l, output, path);
  }

  /** A path's summary acts on times as the path does. */
  lemma {:induction false} ComposedActs<T(!new), S(!new)>(d: Domain<T, S>, path: seq<Hop<S>>, t: T)
    requires LawfulTimes(d) && Compatible(d)
    ensures Along(d, path, t) == (if Composed(d, path).Some? then d.results(Composed(d, path).value, t) else None)
  {
    if path != [] {
      var u := Act(d, path[0], t);
      var rest := Composed(d, path[1..]);
      if u.Some? {
        ComposedActs(d, path[1..], u.value);
      }
      if path[0].via.Some? {
        var a := path[0].via.value;
        if rest.Some? {
          assert Then(d, rest.value, d.results(a, t)) ==
            (if d.followed(a, rest.value).Some? then d.results(d.followed(a, rest.value).value, t) else None);
        }
      }
    }
  }

  /** Of two summaries recorded at one location for one output, neither acts no later than the other at
      all times. */
  lemma RecordedApart<T(!new), S(!new)>(d: Domain<T, S>, g: Graph<S>, results: Summaries<S>, l: Location, output: nat,
                                        i: nat, j: nat) returns (t: T)
    requires Compiled(d, g, results) && Faithful(d)
    requires i < |SummariesTo(results, l, output)| && j < |SummariesTo(results, l, output)| && i != j
    ensures d.results(SummariesTo(results, l, output)[j], t).Some?
    ensures d.results(SummariesTo(results, l, output)[i], t).Some? ==>
              !d.order.le(d.results(SummariesTo(results, l, output)[i], t).value,
                          d.results(SummariesTo(results, l, output)[j], t).value)
  {
    var r, s := SummariesTo(results, l, output)[i], SummariesTo(results, l, output)[j];
    CompiledAntichain(d, g, results, l, output);
    assert !d.below(r, s) && !NeverLater(d, r, s);
    t :| !NoLater(d.order.le, d.results(r, t), d.results(s, t));
  }

  lemma CompiledAntichain<T(!new), S(!new)>(d: Domain<T, S>, g: Graph<S>, results: Summaries<S>, l: Location,
                                            output: nat)
    requires Compiled(d, g, results)
    ensures IsAntichain(d.below, SummariesTo(results, l, output))
  {
    hide SummariesTo;
  }

  /** What compiled summaries dominate, in terms of times: a summary than which some recorded one is never
      later. */
  lemma DominatedExactly<T(!new), S(!new)>(d: Domain<T, S>, results: Summaries<S>, l: Location, output: nat, s: S)
    requires Compatible(d) && Faithful(d)
    ensures Dominated(d, results, l, output, s) <==>
              exists r :: r in SummariesTo(results, l, output) && NeverLater(d, r, s)
  {
    hide Compatible;
    hide Faithful;
    hide NeverLater;
    if Dominated(d, results, l, output, s) {
      var i :| 0 <= i < |SummariesTo(results, l, output)| && d.below(SummariesTo(results, l, output)[i], s);
      BelowExactly(d, SummariesTo(results, l, output)[i], s);
    }
    if r :| r in SummariesTo(results, l, output) && NeverLater(d, r, s) {
      BelowExactly(d, r, s);
    }
  }
}
