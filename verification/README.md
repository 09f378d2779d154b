# Timely dataflow: progress, sorting, framing

A Dafny model of the parts of timely dataflow that are hardest to get right, with proofs that they do what the
system relies on. Stateful parts of the program are classes whose methods update their fields as the program does;
each is proved against a specification, and what the program promises is proved about that specification.

**Progress tracking.** Workers count *pointstamps*: a capability to send at an operator's output, or a message waiting
at an operator's input, each with a timestamp.

- `ChangeBatch.dfy` models a signed multiset of updates that compacts itself lazily, and `Frontier.dfy` a minimal
  frontier over such counts that skips rebuilding where it can. `Timestamps.dfy` holds the laws of timestamps and path
  summaries, proved for checked addition and for products.
- `Graphs.dfy` is the graph of operators and edges, and `Acyclic.dfy` the test for cycles that do not advance time.
- `Propagation.dfy` is the theory of settled frontiers. Its step invariant says, at every location and time, that the
  implication count plus what is queued equals one if the time is in the pointstamp frontier there, plus what the
  implication frontiers of predecessors send along edges and summaries. `Tracker.dfy` proves that incremental
  propagation keeps it. `Convergence.dfy` gives the argument for termination that the source asks for, on every graph,
  cycles that do not advance time included, and `Locality.dfy` shows that propagation changes no more than it must.
  `Chains.dfy` says what paths are in terms of edges and summaries alone.
  `Phantoms.dfy` and `PhantomRun.dfy` show what such cycles cost: with them, and only with them, frontiers may hold
  times that nothing active can lead to, and on every graph that has one a tracker gets there. `Summaries.dfy`,
  `Allocation.dfy` and `Agreement.dfy` compile summaries of all paths to the outputs of a scope, say exactly which
  compilation misses, and prove the two views of those outputs equal.
- `Broadcast.dfy` is the protocol between workers as a state machine: operators act, and batches of changes are sent
  and received over one first-in-first-out channel for each pair of workers, in any order. `Justify.dfy`,
  `Delivery.dfy` and `Soundness.dfy` prove it safe over every run of any number of workers. `Progcaster.dfy` and
  `Subgraph.dfy` are the methods whose calls are its steps, and `Surfacing.dfy` is what a scope tells its parent.
  `EndToEnd.dfy` joins protocol and tracker: no worker's frontier ever excludes a time that something outstanding
  anywhere can still lead to. `World.dfy` proves by simulation that this holds of workers that call those methods, in
  every interleaving: each has a tracker, an inbox, local changes and a wire to every worker, each wire delivers one
  message at a time and independently of the others, and what happens is what the contracts of the methods say.
  `Cluster.dfy` has such workers as objects, and proves that every call at one of them is one of these events and
  leaves the others alone, so that the theorems hold of the trackers themselves.

**Radix sorting.** `Lsb.dfy`, `Msb.dfy`, `LsbSwc.dfy` and `MsbSwc.dfy` are the four sorters over chunked buckets, from
the least or most significant byte, with or without write combining. All refine one function, the stable sort by key
(`StableSorts.dfy`), which is proved to be the only sequence of its kind. Those from the most significant byte may stop
early and call an action of the user; `Groupings.dfy` says what they make of every action.

**Framing.** `Frames.dfy` parses messages from bytes, for every encoding of headers in 40 bytes that can be decoded,
such as words in memory order, and `Sendings.dfy` is what they were given to be sent as. `SharedBytes.dfy` splits,
merges and recycles slices of shared allocations, with arrays for the allocations, so that writing over a slice
somebody still reads would be visible. `MergeQueue.dfy`, `Tcp.dfy`, `RecvLoop.dfy`, `Peeling.dfy`, `Reception.dfy` and
`Endpoint.dfy` follow messages from a sender through a socket that cuts the stream anywhere to the channels of the
receiving worker, which keeps and drops payloads as it likes while their allocations are recycled.

**Two extras.** `UnionFind.dfy` is incremental union-find by rank; `Notificator.dfy` is notification in time order.

What is assumed of timestamps: that there are finitely many, as of machine words and their products, with a total order
that extends the partial one; that summaries never take a time back, and advance it strictly unless they are the default
summary; and that an operator acts and reports it in one atomic step.
Where the program falls short of its documentation, the code is modelled, a lemma shows the failing case, and another
states when the property does hold:

- a batch with a single zero update is not reported empty (`ZeroUpdateNotEmpty`); `IsEmpty` is right exactly
  otherwise, and so on every batch to which no zero update was added since it was last emptied;
- of two edges into one target, compilation of summaries follows the last one (`SecondSourceMissed`). On every graph,
  what compiled summaries dominate is what paths through last sources make up (`CompiledExactly`); they dominate all
  paths if and only if such paths suffice (`CompleteExactly`); and a location with one edge to a scope output is missed
  if and only if another location is its last source (`MissedExactly`);
- in a cycle of default summaries a frontier can sustain itself: on every graph with one, a run of the tracker gets
  there from any time at any location of the cycle (`PhantomRun`), and all settled frontiers are exact if and only if
  there is no such cycle (`ExactExactly`), which `IsAcyclic` tells;
- a notification comes with 1 for the number of requests it answers, however many there are
  (`TwoRequestsCountedOnce`); for a time that is ready the number is right if and only if one request was waiting
  (`Notificator.Next`);
- the test for pointstamps that block progress also holds of times that have no instance and nothing before them
  (`AbsentGlobal`), and fails of those with several though nothing is before them; what it decides is said exactly
  (`GlobalExactly`);
- sorters keep any batch for its memory, but go on to work exactly if it has room for whole lines (`Stash.Give`,
  `PushVec`, `PushBatch`);
- signed summaries may take times back, exactly if negative (`SignedAdvances`).

## Model

| member | source | states |
|---|---|---|
| ChangeBatches.ChangeBatch.Update | timely/src/progress/change_batch.rs:77-80 | every key accumulates to what it did plus the new update; a lone zero entry arises only from a zero update to an empty batch, and a batch free of zero updates stays so exactly if this is none; below 33 entries nothing is reorganised |
| ChangeBatches.ChangeBatch.Extend | timely/src/progress/change_batch.rs:94-97 | every key accumulates to what it did plus its updates in the list |
| ChangeBatches.ChangeBatch.Drain | timely/src/progress/change_batch.rs:154-158 | hands out every key's accumulation, at most one entry per key and none zero (but for a lone zero entry), and leaves the batch empty |
| ChangeBatches.ChangeBatch.IsEmpty | timely/src/progress/change_batch.rs:194-202 | true exactly when every key accumulates to zero, without exception if no update by zero was added since the batch was last emptied, and otherwise except for a lone zero entry; accumulations stay as they are |
| ChangeBatches.Pigeonhole | timely/src/progress/change_batch.rs:194-202 | the reason the shortcut is right: fewer dirty entries than distinct non-zero clean ones cannot cancel them all |
| ChangeBatches.ZeroUpdateNotEmpty | timely/src/progress/change_batch.rs:194-250 | the exception is real: after one update by zero, nothing has accumulated and yet the answer is false, as `compact` leaves single entries alone |
| ChangeBatches.ChangeBatch.DrainInto | timely/src/progress/change_batch.rs:223-231 | every key's accumulation moves to the other batch, added to what was there, whether the batches are swapped or not; the first is left empty |
| ChangeBatches.ChangeBatch.Compact | timely/src/progress/change_batch.rs:239-251 | every accumulation stays, and afterwards all entries are clean: sorted, one per key, and not zero if there were several |
| ChangeBatches.ChangeBatch.MaintainBounds | timely/src/progress/change_batch.rs:261-266 | accumulations stay; a batch of more than 32 entries, at most half of them clean, ends up entirely clean, and a smaller one untouched |
| Updates.SortBySorted | timely/src/progress/change_batch.rs:241-241 | sorting by key gives sorted keys and the same accumulations |
| Updates.RetainStrict | timely/src/progress/change_batch.rs:248-248 | dropping zero entries after neighbours are merged leaves strictly increasing keys |
| Frontiers.Antichain.Insert | timely/src/progress/frontier.rs:35-45 | inserted exactly when no element is less than or equal; what the antichain dominates grows by exactly what the element does; elements stay mutually incomparable |
| Frontiers.InsertedAntichain | timely/src/progress/frontier.rs:35-45 | insertion keeps an antichain an antichain, adds exactly the up-set of the element, and invents no element |
| Frontiers.Antichain.Extend | timely/src/progress/frontier.rs:58-64 | the up-set grows by exactly that of all elements offered; the result is true exactly when one of them was not dominated before |
| Frontiers.MutableAntichain.UpdateDirty | timely/src/progress/frontier.rs:374-377 | queues an update without looking at it; the invariant that the next clean-up relies on survives |
| Frontiers.MutableAntichain.Empty | timely/src/progress/frontier.rs:274-277 | zeroes every count and leaves the frontier to the next clean-up, which will find that it must rebuild, or that there is nothing to do |
| Frontiers.MutableAntichain.UpdateIter | timely/src/progress/frontier.rs:396-427 | whether it rebuilds or not: afterwards the frontier is exactly the minimal elements of positive count, and the changes returned are exactly new frontier minus old, each +1 or -1 and one per element |
| Frontiers.SkippedKeepFrontier | timely/src/progress/frontier.rs:405-421 | updates beyond the frontier, and decrements not above it, leave it the frontier: skipping the rebuild is sound |
| Frontiers.MutableAntichain.Rebuild | timely/src/progress/frontier.rs:434-463 | recomputes the frontier from consolidated counts and records exactly new minus old |
| Frontiers.PrefixFrontierStep | timely/src/progress/frontier.rs:452-458 | one pass in sorted order suffices: a new minimal element never displaces one found before |
| Frontiers.MinimalsOf | timely/src/progress/frontier.rs:434-463 | an antichain of positive elements with one below every positive element is the frontier |
| Orders.MinimalExists | timely/src/progress/frontier.rs:396-463 | below every element of positive count lies a minimal one |
| Orders.FrontierUnique | timely/src/progress/frontier.rs:396-463 | counts determine the frontier: two frontiers of the same counts have the same elements |
| Timestamps.UnsignedLawfulTimes | timely/src/progress/timestamp.rs:71-88 | checked addition on 64-bit words has all laws propagation relies on: monotone, inflationary, strictly so but for the default, and failing only upwards of a failure |
| Timestamps.UnsignedLawfulSummaries | timely/src/progress/timestamp.rs:71-88 | composing summaries by checked addition is monotone, failing only upwards of a failure, with the default neutral on both sides |
| Timestamps.UnsignedCompatible | timely/src/progress/timestamp.rs:71-88 | acting by a composition is acting in turn, overflow included, and smaller summaries give smaller results |
| Timestamps.UnsignedExact | timely/src/progress/timestamp.rs:80-80 | what acting on words computes: the result is the word as far after the time as the summary says, and missing exactly if there is none; so for composition |
| Timestamps.UnsignedSteps | timely/src/progress/timestamp.rs:80-80 | the default summary leaves every time as it is, and the next summary leads to the immediate successor of where this one does, if that has one |
| Timestamps.UnsignedFaithful | timely/src/progress/timestamp.rs:71-88 | a summary that acts no later than another at all times is below it |
| Timestamps.SignedExact | timely/src/progress/timestamp.rs:80-80 | for signed words, too: as far from the time as the summary says, in its direction, and missing exactly if no word is there |
| Timestamps.SignedAdvances | timely/src/progress/timestamp.rs:71-88 | the same macro is applied to signed integers; a signed summary never moves a time back exactly when it is not negative |
| Timestamps.NestedOrder | timely/src/order.rs:97-103 | the product order is a partial order that the derived lexicographic order extends to a total one |
| Timestamps.NestedLawful | timely/src/order.rs:110-119 | products of lawful timestamps are lawful timestamps |
| Timestamps.NestedSummaries | timely/src/order.rs:120-127 | products of lawful summaries are lawful summaries |
| Timestamps.NestedCompatible | timely/src/order.rs:110-127 | in products, too, acting by a composition is acting in turn |
| Timestamps.NestedExact | timely/src/order.rs:97-119 | a pair is taken to a pair exactly if each summary takes its component there; pairs are ordered componentwise, and sorted by the outer component first |
| Timestamps.NestedFollowed | timely/src/order.rs:120-127 | summaries compose to a pair exactly if each component does |
| Timestamps.NestedFaithful | timely/src/order.rs:97-127 | in products, too, a summary that acts no later than another at all times is below it |
| Timestamps.BelowExactly | timely/src/order.rs:97-101 | so dominance of summaries is just what their actions say: one is below another if and only if it acts no later at all times |
| Graphs.LocationOrder | timely/src/progress/mod.rs:18-66 | the derived order of ports: operators in order, and of one operator its inputs in order and then its outputs |
| Graphs.NodeHopsLead | timely/src/progress/reachability.rs:635-643 | the hops across an operator are exactly one for each summary from the input to each output |
| Graphs.AlongMonotone | timely/src/progress/reachability.rs:607-672 | a path takes smaller times to smaller times, and fails only if it fails on the smaller one |
| Graphs.RankedNoCycle | timely/src/progress/reachability.rs:206-212 | a rank that rises along default hops excludes cycles of them |
| Acyclic.Builder.AddNode | timely/src/progress/reachability.rs:159-176 | sets the shape and summaries of one operator, keeps all others, and keeps its edges exactly if the number of outputs stays |
| Acyclic.Builder.AddEdge | timely/src/progress/reachability.rs:182-189 | adds one edge at the end of its port's list and keeps the graph well-formed |
| Acyclic.Builder.LoadInDegrees | timely/src/progress/reachability.rs:264-295 | every port of the graph is counted, with exactly the number of edges and default summaries leading to it |
| Acyclic.Builder.Starts | timely/src/progress/reachability.rs:297-307 | the worklist starts with exactly the ports nothing leads to, which are those dropped from the counts |
| Acyclic.Builder.ResolveRow | timely/src/progress/reachability.rs:309-337 | decrements once for each default hop of the port popped: what is counted is always what leads there from ports not yet popped |
| Digraphs.PeelPresent | timely/src/progress/reachability.rs:315-315 | a count about to be decremented is always present: the lookups never fail |
| Digraphs.PeelLeft | timely/src/progress/reachability.rs:339-340 | what is left over at the end are the ports not popped, each with a predecessor left over |
| Digraphs.PeelRank | timely/src/progress/reachability.rs:309-337 | the order of popping is a rank that rises along every default hop |
| Digraphs.ClosedWalk | timely/src/progress/reachability.rs:339-340 | a finite nonempty set in which everything has a predecessor holds a closed walk |
| Acyclic.LeftoverCycle | timely/src/progress/reachability.rs:339-340 | ports left over hold a cycle of edges and default summaries |
| Acyclic.Builder.IsAcyclic | timely/src/progress/reachability.rs:264-341 | true exactly when no cycle consists of edges and default summaries only; and then there is a rank |
| Acyclic.RankExists | timely/src/progress/reachability.rs:264-341 | without default cycles there is a rank that rises along every default hop |
| Chains.DefaultCycleExactly | timely/src/progress/reachability.rs:264-341 | a graph has a default cycle exactly if some chain of steps, along edges and across operators, takes a time back to where it was, unchanged |
| Ports.PortInformation.UpdatePointstamps | timely/src/progress/reachability.rs:561-564 | changes one count of a port, and returns exactly the change of its pointstamp frontier |
| Ports.PortInformation.UpdateImplications | timely/src/progress/reachability.rs:628-634 | changes one implication count, and returns exactly the change of the implication frontier |
| Ports.GlobalBlocks | timely/src/progress/reachability.rs:446-449 | the test of a port holds of an active time exactly when the frontier with one instance less differs from the one it has |
| Ports.GlobalExactly | timely/src/progress/reachability.rs:446-449 | of every time: if it has an instance, the test holds exactly when one less would change what is minimal; if it has none, exactly when it would be minimal if it had one |
| Ports.AbsentGlobal | timely/src/progress/reachability.rs:446-449 | the second case is real: at an empty port the test holds of every time, though there is nothing to block |
| Worklists.EntryOrder | timely/src/progress/reachability.rs:595-617 | of entries for one location and time those with lesser changes are popped first |
| Worklists.PopKey | timely/src/progress/reachability.rs:607-617 | pops all entries at the least time and location, and their sum; entries elsewhere stay |
| Worklists.Forward | timely/src/progress/reachability.rs:635-643 | queues, for each way a frontier change leads on, one entry of the same sign, and nothing else |
| Outputs.Project | timely/src/progress/reachability.rs:566-573 | at every output, every result of a summary for the changed time is counted once with its sign |
| Trackers.Allocate | timely/src/progress/reachability.rs:524-540 | a new tracker has an entry for every port, all empty, shares nothing, and satisfies its invariant |
| Trackers.Tracker.UpdateTarget | timely/src/progress/reachability.rs:466-468 | buffers one change for a target; nothing propagated changes |
| Trackers.Tracker.UpdateSource | timely/src/progress/reachability.rs:471-473 | buffers one change for a source; nothing propagated changes |
| Trackers.Tracker.Update | timely/src/progress/reachability.rs:457-462 | buffers one change in the buffer that the kind of port calls for, and leaves the other as it is |
| Trackers.Tracker.TrackingAnything | timely/src/progress/reachability.rs:476-480 | true exactly when a change is buffered or some pointstamp has a positive count: the running total is exact |
| Trackers.ApplyChange | timely/src/progress/reachability.rs:556-577 | one pointstamp change keeps the balance, the running total, and the record of projections to outputs |
| Trackers.ApplyChanges | timely/src/progress/reachability.rs:553-598 | all drained changes are applied, and pointstamp counts change by exactly these |
| Propagation.BalancedPoints | timely/src/progress/reachability.rs:561-576 | step invariant: a change of a pointstamp frontier is balanced by queueing it |
| Propagation.BalancedPop | timely/src/progress/reachability.rs:607-632 | step invariant: moving a queued net change into the implication counts keeps implication count plus queue equal to pointstamp frontier plus what predecessors send |
| Propagation.BalancedSend | timely/src/progress/reachability.rs:634-646 | step invariant: forwarding one change of an implication frontier along all ways restores the balance |
| Trackers.ApplyAndForward | timely/src/progress/reachability.rs:619-671 | applies a net change and forwards what it does to the frontier: the balance holds again, only later points are queued, and what was pushed is recorded exactly |
| Trackers.ProcessNext | timely/src/progress/reachability.rs:607-672 | one iteration on any graph: keeps the balance, handles the least point queued, and leaves exactly the other entries and those that pass on what became of this point |
| Trading.TradeDown | timely/src/progress/reachability.rs:601-606 | trading an element of a finite partial order for any number of strictly later ones lowers a weight |
| Convergence.NothingMoves | timely/src/progress/reachability.rs:619-632 | if the time whose count changes neither enters nor leaves a frontier, no other time does |
| Convergence.SpentStays | timely/src/progress/reachability.rs:601-672 | the subtle part: once a point has changed, no entry left or still to come at its time can undo the change, in whatever cycles of default hops it lies |
| Convergence.FreshChange | timely/src/progress/reachability.rs:601-672 | so after a point has changed, all entries at its time from its location on point the same way as it did |
| Convergence.SpendLowers | timely/src/progress/reachability.rs:601-606 | spending the change of a point lowers a potential, though it lets later points change again |
| Convergence.StepConverges | timely/src/progress/reachability.rs:601-672 | the termination argument the source asks for: on every graph, cycles of default hops included, an iteration lowers the potential or leaves it and shortens the worklist |
| Trackers.Circulate | timely/src/progress/reachability.rs:601-672 | on every graph the worklist runs empty, in balance; pointstamps stay, and exactly the changes of implication frontiers are recorded as pushed; frontiers change only where a queued entry could result in it, and not at all if they are right already |
| Trackers.Tracker.PropagateAll | timely/src/progress/reachability.rs:547-673 | terminates on every graph; afterwards pointstamp counts are changed by exactly what was buffered, the frontiers are settled, and `pushed` and `pushed_output` have recorded exactly what changed; frontiers change only where a buffered change could result in it, and not at all if they are right for the new pointstamps already |
| Locality.StepLocal | timely/src/progress/reachability.rs:607-672 | an iteration changes frontiers, and queues entries, only where what was queued stems from |
| Locality.MixedFrontier | timely/src/progress/reachability.rs:619-632 | implication counts each of which is one of two, both with the same frontier, have that frontier too: no partial update shows |
| Locality.StepStays | timely/src/progress/reachability.rs:607-672 | an iteration from frontiers that are right for the pointstamps leaves them as they are, whatever is queued |
| Locality.SettledRight | timely/src/progress/reachability.rs:547-673 | settled frontiers are right: at each location what is minimal of pointstamps and of what predecessors send |
| Propagation.PathCovered | timely/src/progress/reachability.rs:607-672 | what a settled frontier covers, it covers at the end of every path, of any length and round cycles |
| Propagation.Safety | timely/src/progress/reachability.rs:543-673 | safety: for every active pointstamp and every path, the frontier at the end has an element less than or equal to the result |
| Propagation.Exactness | timely/src/progress/reachability.rs:543-673 | without default cycles, every implication frontier element is the result of a path from an active pointstamp |
| Propagation.FrontierExact | timely/src/progress/reachability.rs:543-673 | so the frontier at each port is exactly the set of minimal path results |
| Chains.ReachedExactly | timely/src/progress/reachability.rs:601-672 | what a path results in, step by step: exactly what some chain leads to, each step of which follows an edge and leaves the time, or crosses an operator by one of its summaries |
| Chains.FrontierChains | timely/src/progress/reachability.rs:547-673 | so the frontier at each port lists exactly the minimal times that such chains lead to from active pointstamps |
| Propagation.SettledUnique | timely/src/progress/reachability.rs:543-673 | so pointstamp counts alone determine the frontiers: incremental maintenance agrees with any other way of settling |
| Propagation.AllDrained | timely/src/progress/reachability.rs:543-673 | all frontiers are empty once no pointstamp is active |
| Phantoms.PhantomFrontier | timely/src/progress/reachability.rs:206-212 | on every graph with a default cycle, and for every time, some view is settled with no pointstamp anywhere and the time in a frontier on the cycle |
| Phantoms.ExactExactly | timely/src/progress/reachability.rs:206-212 | all settled frontiers of a graph are exact if and only if it has no default cycle, which is what `is_acyclic` tells |
| PhantomRuns.PhantomRun | timely/src/progress/reachability.rs:547-673 | the failure is reached on every graph with a default cycle, whatever its outputs: its tracker takes a pointstamp on the cycle in and out again, propagating both times, and ends settled, with no pointstamp anywhere and the time in the frontier wherever default hops lead from there |
| PhantomRuns.RightWithout | timely/src/progress/reachability.rs:601-672 | the reason: round the cycle, frontiers that a pointstamp has settled account for themselves, and are right without it |
| Summarize.BuildReverse | timely/src/progress/reachability.rs:716-727 | the reverse map holds, for exactly the targets of edges, the last source of such an edge in order of node and output |
| Summarize.LastSourceUnique | timely/src/progress/reachability.rs:716-727 | which source is the last can be read off the graph |
| Summarize.OutputTasks | timely/src/progress/reachability.rs:729-742 | one task for every edge into a scope output, with the default summary |
| Summarize.Record | timely/src/progress/reachability.rs:761-767 | whether queued or not, what is recorded stays sound and closed: everything recorded or queued is accounted for |
| Summarize.ExpandSource | timely/src/progress/reachability.rs:751-771 | the walk back across an operator passes the summary on to every input, by every internal summary |
| Summarize.ExpandTarget | timely/src/progress/reachability.rs:775-787 | the walk back along the edge into a target passes the summary on unchanged |
| Summarize.SummarizeOutputs | timely/src/progress/reachability.rs:711-793 | terminates, with antichains of path summaries closed under walking back |
| Summarize.CompiledSound | timely/src/progress/reachability.rs:711-793 | every recorded summary is that of a path to the output |
| Summarize.CompiledComplete | timely/src/progress/reachability.rs:711-793 | every path walking back follows has a recorded summary below its own |
| Summarize.CompiledExactly | timely/src/progress/reachability.rs:711-793 | a summary is dominated by a recorded one if and only if one of a path through last sources is below it |
| Summarize.RecordedApart | timely/src/progress/reachability.rs:755-768 | of two summaries recorded at one location for one output neither acts no later than the other at all times: there is a time at which it does not |
| Summarize.DominatedExactly | timely/src/progress/reachability.rs:755-768 | a summary is dominated exactly if some recorded one never acts later |
| Summarize.CompiledExact | timely/src/progress/reachability.rs:777-778 | with at most one source per target, every path to an output is dominated |
| Allocation.CompleteExactly | timely/src/progress/reachability.rs:711-793 | compilation dominates the summaries of all paths if and only if, on the graph, every path has one through last sources below it |
| Allocation.OneHopExactly | timely/src/progress/reachability.rs:775-787 | of a location with a single hop, an edge, exactly what its target stands for is recorded if it is the last source of the target, and nothing otherwise |
| Allocation.MissedExactly | timely/src/progress/reachability.rs:775-787 | a location whose single hop leads to a scope output is missed entirely if and only if it is not the last source of it |
| Allocation.SecondSourceMissed | timely/src/progress/reachability.rs:777-785 | of two operators whose outputs lead to one scope output, nothing is recorded for the first, though there is a path, and the second is right |
| Summarize.ComposedActs | timely/src/progress/timestamp.rs:33-61 | the summary of a path acts on times as the path does, hop by hop, overflow included |
| Allocation.AllocateFrom | timely/src/progress/reachability.rs:486-541 | the tracker gets the summaries of internal ports, and the scope summary is that from each scope input |
| Allocation.ScopeSummaryExact | timely/src/progress/reachability.rs:496-510 | the summary reported to the parent scope holds summaries of paths only and, with single sources, dominates every path through the scope |
| Agreement.ProjectionSound | timely/src/progress/reachability.rs:566-573 | every time projected to an output is the result of a path from an active pointstamp |
| Agreement.ProjectionCovers | timely/src/progress/reachability.rs:566-573 | every path result at an output is covered by a projected time |
| Agreement.ProjectionAgrees | timely/src/progress/reachability.rs:566-598 | so two independent computations agree: the frontier of the projected times is the frontier propagation finds at the output |
| Progcasters.Progcaster.Send | timely/src/progress/broadcast.rs:56-98 | every channel gets one message with exactly the accumulated changes, compacted, under the next number; or none does, exactly when the changes cancel; the batch is left empty |
| Progcasters.Progcaster.Recv | timely/src/progress/broadcast.rs:101-128 | all that has arrived is added to the batch, each message once, and nothing else |
| Progcasters.SendMerges | timely/src/progress/broadcast.rs:72-93 | a batch sent goes onto one wire to each worker: what is in an inbox and then on the wires to it stays a merge of the queues from each sender |
| Progcasters.ArriveMerges | timely/src/progress/broadcast.rs:72-105 | whichever wire delivers its oldest message, in whatever order for different senders, inbox and wires stay such a merge |
| Progcasters.InboxDrains | timely/src/progress/broadcast.rs:101-128 | draining an inbox, in whatever order messages arrived, is a run of protocol steps that delivers exactly the batches that have arrived, and leaves those on the wires under way |
| Progcasters.SendInSequence | timely/src/progress/broadcast.rs:74-95 | messages of each sender carry consecutive numbers when sent |
| Progcasters.ReceiveInSequence | timely/src/progress/broadcast.rs:101-126 | and still do as they are received |
| Broadcast.LegalJustified | timely/src/progress/subgraph.rs:943-1003 | the changes of one operator are justified by the capabilities it held and the messages it consumed, chains of new capabilities included |
| Justify.SumJustified | timely/src/progress/subgraph.rs:943-1003 | changes made one after the other are justified together, even as they cancel in one batch |
| Broadcast.ChainedTotal | timely/src/progress/broadcast.rs:56-98 | all batches under way from a sender are justified together by what it held before the first |
| Delivery.InitialInvariant | timely/src/dataflow/operators/generic/builder_raw.rs:284-289 | initially, with every capability counted once for each peer, every worker's counts are the truth |
| Delivery.OperateConserves | timely/src/progress/subgraph.rs:903-967 | conservation: for every receiver, received counts, batches under way and unsent changes together are the true counts, as an operator acts |
| Delivery.SendConserves | timely/src/progress/broadcast.rs:56-98 | conservation, as a worker sends |
| Delivery.ReceiveConserves | timely/src/progress/broadcast.rs:101-128 | conservation, as a worker receives |
| Delivery.StepKeepsInvariant | timely/src/progress/broadcast.rs:56-128 | every step, in every interleaving, keeps conservation and justification of all that is under way |
| Delivery.RunKeepsInvariant | timely/src/progress/broadcast.rs:56-128 | every state of every run of any number of workers satisfies the invariant |
| Delivery.QuietIsExact | timely/src/progress/broadcast.rs:101-128 | with nothing under way to a worker, its received counts are the true counts |
| Soundness.BroadcastSafety | timely/src/progress/broadcast.rs:56-128 | safety over every run: whatever is outstanding anywhere, every worker's received counts hold a positive pointstamp that could result in it |
| Soundness.HeadNothing | timely/src/progress/broadcast.rs:101-128 | a batch under way changes nothing at points its receiver's counts no longer cover |
| Soundness.NeverRegresses | timely/src/progress/broadcast.rs:56-128 | what a worker's received counts cover later, they covered all along: frontiers never go back |
| Soundness.OutstandingNonNegative | timely/src/progress/broadcast.rs:56-128 | true counts are never negative |
| Soundness.GoneForGood | timely/src/progress/broadcast.rs:56-128 | what a worker no longer expects is outstanding nowhere, then or ever after |
| Subgraphs.AtTargetsTally | timely/src/progress/subgraph.rs:956-966 | each message produced is counted once at every target its output leads to |
| Subgraphs.ProgressTally | timely/src/progress/subgraph.rs:943-966 | what an operator's progress counts at each location: at its own outputs the capabilities it gained, at every input the messages produced once for each edge that leads there, less those it consumed at its own |
| Subgraphs.ExtractProgress | timely/src/progress/subgraph.rs:943-966 | what an operator consumed, holds and produced becomes one batch of pointstamp changes: a message consumed and what it justifies are never separated; nothing stays behind; exactly the operators for which something was produced become active |
| Subgraphs.CommitPointstamps | timely/src/progress/subgraph.rs:551-585 | pointstamp counts change by exactly the received changes at nodes other than zero, and the frontiers are settled; of those at child zero the parent scope is told, capabilities as messages consumed and messages as messages produced, at its own times |
| Surfacing.SurfacedSame | timely/src/progress/subgraph.rs:560-576 | what the parent is told depends only on what changes accumulate to, though several times inside may be one outside |
| Surfacing.SurfacedTally | timely/src/progress/subgraph.rs:560-576 | the parent's count of a time is the sum of the counts of all times inside that it stands for |
| Surfacing.ToldMeans | timely/src/progress/subgraph.rs:560-576 | in numbers: messages consumed at an input of the scope rise as its capabilities go, and messages produced at an output as messages come to it |
| Surfacing.Tell | timely/src/progress/subgraph.rs:560-576 | one change at child zero changes exactly the count of its own port, re-negated for consumed messages |
| Subgraphs.CommitTracks | timely/src/progress/subgraph.rs:404-410 | a tracker that takes in all its worker receives keeps the counts received |
| Subgraphs.SendProgress | timely/src/progress/subgraph.rs:680-697 | sends everything if told to be eager, or if some local change removes a pointstamp whose removal would change what is minimal at its port, or that is not there yet but would be minimal; otherwise no local change does, and all are kept |
| EndToEnd.CouldResultInPartial | timely/src/progress/reachability.rs:206-212 | without default cycles, could-result-in is a partial order |
| EndToEnd.ArrivalGrounds | timely/src/progress/subgraph.rs:976-1002 | a consumed message accounts for the capabilities its operator's summaries allow, and the messages sent from these |
| EndToEnd.HeldGrounds | timely/src/progress/subgraph.rs:976-1002 | a held capability accounts for later capabilities, and messages along its edges |
| EndToEnd.AdmitsCovered | timely/src/progress/reachability.rs:543-673 | a settled frontier admits a time if and only if a positive received count could result in it |
| EndToEnd.FrontiersSafe | timely/src/progress/subgraph.rs:395-434 | end to end: while a pointstamp is outstanding at any worker, no worker's frontier anywhere excludes a time it can lead to |
| EndToEnd.FrontiersAdvance | timely/src/progress/subgraph.rs:395-434 | what a worker's frontier excludes, it excludes for good |
| EndToEnd.FrontiersDrain | timely/src/progress/subgraph.rs:395-448 | once nothing is outstanding and all changes have arrived, all frontiers of a worker are empty |
| Worlds.Scope.TakeIn | timely/src/progress/subgraph.rs:404-410 | one worker empties its inbox and commits it: afterwards its tracker is settled and its counts have changed by exactly what was in the inbox, and the parent scope has been told what it said of child zero |
| Worlds.Scope.Report | timely/src/progress/subgraph.rs:943-966 | one worker takes over what an operator has shared, as one change of what it has yet to send |
| Worlds.Scope.Transmit | timely/src/progress/subgraph.rs:680-697 | one worker sends all it has yet to send on the wires to all workers, itself included, or keeps it all, and then no removal among it could matter to a frontier |
| Worlds.Scope.Deliver | timely/src/progress/broadcast.rs:88-90 | the oldest message on one wire leaves it; nothing else changes |
| Worlds.Scope.Accept | timely/src/progress/broadcast.rs:101-105 | a message that arrives joins the inbox, behind what is there |
| Worlds.TakesInMatches | timely/src/progress/subgraph.rs:404-410 | taking in a whole inbox is a run of protocol steps after which tracker and received counts agree again; what is on wires stays there |
| Worlds.ArrivesMatches | timely/src/progress/broadcast.rs:72-105 | the arrival of a message is no step of the protocol: the worlds before and after match the same state |
| Worlds.Simulated | timely/src/progress/subgraph.rs:395-448 | simulation: every history in which workers report, transmit, withhold and take in, and wires deliver, one message at a time and independently of each other, in any interleaving, follows a run of the protocol, and at each point every tracker counts exactly what its worker has received |
| Worlds.WorldSafe | timely/src/progress/subgraph.rs:395-448 | so in every history, while a capability is held or a message unconsumed anywhere, no worker's frontier excludes a time it can lead to |
| Worlds.WorldAdvances | timely/src/progress/subgraph.rs:395-448 | and what a worker's frontier excludes at some point, it excludes ever after |
| Worlds.WorldDrains | timely/src/progress/subgraph.rs:395-448 | and once nothing is held, unconsumed or unsent anywhere, nor on a wire to a worker or in its inbox, all its frontiers are empty |
| Worlds.WorldInSequence | timely/src/progress/broadcast.rs:74-126 | and in every inbox, and then on the wire to it, the messages of each sender carry consecutive numbers, up to what the sender has counted, whatever the order in which those of different senders arrive |
| Clusters.Cluster.Report | timely/src/progress/subgraph.rs:943-966 | refinement: with workers that are objects with trackers, batches and channels of their own, taking over what an operator shared is such an event, and changes no other worker |
| Clusters.Cluster.Transmit | timely/src/progress/subgraph.rs:680-697 | so is sending, or withholding |
| Clusters.Cluster.Arrive | timely/src/progress/broadcast.rs:88-105 | so is moving the oldest message of a channel into the inbox at its other end |
| Clusters.Cluster.TakeIn | timely/src/progress/subgraph.rs:404-410 | so is taking in an inbox |
| Clusters.Cluster.Safe | timely/src/progress/subgraph.rs:395-448 | so after any calls at any workers, where a chain of steps leads from something held or unconsumed anywhere, every worker's tracker has a frontier element less than or equal to the time it leads to |
| Clusters.Cluster.Advances | timely/src/progress/subgraph.rs:395-448 | and what a worker's tracker excluded at any point before, it excludes now |
| UnionFinds.UnionFind.Grow | timely/examples/unionfind.rs:73-78 | after growing, every element has the root it had, and new ones are their own |
| UnionFinds.UnionFind.Find | timely/examples/unionfind.rs:81-82 | the loop ends, as ranks strictly rise, at the root |
| UnionFinds.UnionFind.Union | timely/examples/unionfind.rs:71-92 | a pair is emitted exactly when the edge joins two components, and is the pair of their roots; `roots` goes on to represent the connectivity of all edges, and of all pairs |
| UnionFinds.UnionFind.Process | timely/examples/unionfind.rs:66-93 | after any batch of edges the pairs emitted so far connect exactly what the edges connect |
| UnionFinds.LinkRepresents | timely/examples/unionfind.rs:86-90 | linking the roots of an edge's ends represents the connectivity with the edge |
| UnionFinds.LinkBalanced | timely/examples/unionfind.rs:86-90 | linking by rank keeps two to the power of a root's rank at most the size of its component |
| UnionFinds.RankBound | timely/examples/unionfind.rs:64-64 | so ranks are at most logarithmic in the number of elements |
| Notificators.ReadyStays | timely/src/dataflow/operators/generic/notificator.rs:296-303 | what is ready stays ready as frontiers advance |
| Notificators.ReadyExactly | timely/src/dataflow/operators/generic/notificator.rs:297-297 | a time is ready exactly if no element of any frontier is less than or equal to it, and held back exactly if some element of some frontier is |
| Notificators.FrontierNotificator.NotifyAt | timely/src/dataflow/operators/generic/notificator.rs:285-287 | one more pending request |
| Notificators.FrontierNotificator.NotifyAtFrontiered | timely/src/dataflow/operators/generic/notificator.rs:296-303 | at once available exactly if no element of any frontier is less than or equal to the time, and pending otherwise |
| Notificators.MergeRequests | timely/src/dataflow/operators/generic/notificator.rs:314-321 | requests for one time are added up: one entry per time, in order, none lost |
| Notificators.FrontierNotificator.MakeAvailable | timely/src/dataflow/operators/generic/notificator.rs:306-332 | of the times requested, exactly those join the heap, each once, that no element of any frontier is less than or equal to; exactly the others stay pending, with their counts |
| Notificators.FrontierNotificator.Next | timely/src/dataflow/operators/generic/notificator.rs:340-348 | delivers the least available time and removes all its copies; looks at pending requests only when nothing is available, and then delivers only what no frontier element is less than or equal to; nothing exactly if each request is held back by some |
| Notificators.Notificator.constructor | timely/src/dataflow/operators/generic/notificator.rs:27-39 | a session starts with all ready requests available, besides those available before, and each request made before waiting; each that is pending is held back by some frontier element |
| Notificators.Notificator.NotifyAt | timely/src/dataflow/operators/generic/notificator.rs:72-74 | one more request waits for its time; tells whether order is still assured |
| Notificators.Notificator.Next | timely/src/dataflow/operators/generic/notificator.rs:100-102 | delivers the least time that waits and is ready, which no frontier element is less than or equal to unless it was left over, and answers all its requests since it was last delivered; the number that comes with a ready time is that of the requests answered if and only if one waited; in non-decreasing order if no request came before the last delivery; nothing is returned exactly when some frontier element holds back each time that waits |
| Notificators.TwoRequestsCountedOnce | timely/src/dataflow/operators/generic/notificator.rs:90-102 | the number returned is not that of the requests answered: of two, one is reported, as always |
| StableSorts.StableSortIs | sort/src/lib.rs:71-78 | the reference: sorted by key, elements of equal key in order of arrival |
| StableSorts.StableSortUnique | sort/src/lib.rs:71-78 | there is only one such sequence |
| StableSorts.RadixJoin | sort/src/msb.rs:95-183 | splitting by a leading digit and sorting the parts gives it |
| Radix.BytesMakeKey | sort/src/lib.rs:26-35 | the high and low bytes that passes look at make up the key |
| Radix.LowPass | sort/src/lsb.rs:34-38 | after one more pass the elements are stably sorted by one more low byte |
| Radix.LowWhole | sort/src/lsb.rs:34-38 | after as many passes as keys have bytes they are stably sorted by the key |
| Radix.LastPass | sort/src/lsb.rs:34-39 | elements that were in the target before are sorted by all bytes but the lowest, with those pushed |
| Radix.HighSplit | sort/src/msb.rs:133-161 | elements that share the higher bytes are sorted by sorting the buckets of the next one |
| Radix.BucketShares | sort/src/msb.rs:145-152 | the elements of a bucket share one byte more |
| Buffers.Stash.Get | sort/src/stash.rs:14-16 | a buffer from the stash is empty and has room for whole lines, at least one |
| Buffers.Stash.Give | sort/src/stash.rs:18-23 | keeps any vector; what is stashed stays fit for use exactly if the vector is empty and has room for whole lines |
| Buffers.Stash.Rebalance | sort/src/stash.rs:25-34 | moves any vectors, last ones first, until the stash has as many as intended or the user none left; those stashed are cleared, none is lost, and the stash stays fit for use exactly if those taken have room for whole lines |
| Buffers.Reserve | sort/src/batched_vec.rs:18-25 | afterwards the tail has room, and the elements are the same |
| Buffers.Push | sort/src/batched_vec.rs:28-38 | the bucket spells one element more |
| Buffers.PushVec | sort/src/batched_vec.rs:40-55 | the bucket spells the elements of any vector behind its own; bucket and stash stay in order exactly if the vector has room for whole lines |
| Buffers.PushAll | sort/src/batched_vec.rs:60-70 | up to a line of elements always fits, so the panic is unreachable; a full line keeps the bucket aligned |
| Buffers.TailTells | sort/src/batched_vec.rs:11-15 | an empty tail means an empty bucket |
| Buffers.FinishInto | sort/src/batched_vec.rs:73-78 | all elements move to the end of the target, in order, leaving the bucket empty |
| Buffers.Finish | sort/src/batched_vec.rs:81-86 | all elements are handed out in order, in nonempty buffers |
| LsbSorters.Shuffler.PushOne | sort/src/lsb.rs:93-96 | the buckets hold one element more, by its byte, behind those that came before |
| LsbSorters.Shuffler.PushBatch | sort/src/lsb.rs:83-88 | the buckets hold the batch too, whatever its capacity; its memory is stashed, and more can be pushed exactly if it has any |
| LsbSorters.Shuffler.FinishInto | sort/src/lsb.rs:99-103 | the target receives all buckets in order of their byte, and they are empty for any next pass |
| LsbSorters.Sorter.Reshuffle | sort/src/lsb.rs:53-58 | one pass splits what the passes before produced |
| LsbSorters.Sorter.FinishInto | sort/src/lsb.rs:34-39 | on an empty target: exactly the stable sort by key of all pushed; what was in the target takes part in all passes but the first, and the result is exactly that; ready for reuse |
| LsbSorters.Sorter.Sort | sort/src/lib.rs:73-78 | exactly the stable sort of all pushed before followed by the batches |
| Groupings.OutcomeFrom | sort/src/msb.rs:133-160 | if the action has been applied to groups of a bucket, and to groups of the buckets above it, it has been to groups of them together: no element is left out, no key is in two groups, keys rise from group to group, and each group keeps the order of arrival |
| Groupings.OutcomeByKey | sort/src/msb.rs:111-117 | so an action that consolidates or deduplicates key by key does so for all elements, wherever sorting stopped; the key may be one of which the radix key is but a part |
| Groupings.OutcomeSorted | sort/src/msb.rs:34-38 | and one that sorts by the true key, of which the radix key is a part, sorts everything by it |
| MsbSorters.Sorter.Push | sort/src/msb.rs:54-58 | the session holds one element more, by its highest byte |
| MsbSorters.Sorter.StackBuckets | sort/src/msb.rs:154-160 | whatever becomes of the stack could have become of the elements in the buckets, before what was there; entries share their higher bytes |
| MsbSorters.Sorter.Ingest | sort/src/msb.rs:133-183 | what is finished, followed by whatever becomes of the stack, could have become of the list and the stack before; the weight of the stack falls |
| MsbSorters.Sorter.Grind | sort/src/msb.rs:104-106 | the loop ends, for every action, and what is done is one of the things that could have become of the stack |
| MsbSorters.Sorter.FinishIntoAnd | sort/src/msb.rs:95-109 | for every action, and any target: appends what the action makes of groups of all pushed, one group after the other; ready for reuse |
| MsbSorters.Sorter.SortAnd | sort/src/msb.rs:118-130 | for every action: what it makes of groups of the source; elements pushed before join in only if the source has several buffers |
| MsbSorters.Sorter.FinishInto | sort/src/msb.rs:68-70 | with the library sort as action: appends to any target exactly the stable sort by key of all pushed; ready for reuse |
| MsbSorters.Sorter.Sort | sort/src/msb.rs:72-74 | with the library sort as action: exactly the stable sort of the source, and of what was pushed before if the source has several buffers |
| SwcBuffers.SwcBuffer.Push | sort/src/swc_buffer.rs:65-71 | one lane gets one element more; no other lane changes, though all share one array |
| SwcBuffers.SwcBuffer.Slice | sort/src/swc_buffer.rs:45-52 | exactly the elements staged in the lane |
| SwcBuffers.SwcBuffer.DrainInto | sort/src/swc_buffer.rs:74-81 | the lane moves behind its bucket, which stays aligned if the lane was full |
| SwcBuffers.SwcBuffer.DrainIntoVec | sort/src/swc_buffer.rs:84-91 | the lane moves behind the vector, within its capacity |
| LsbSwcSorters.Shuffler.PushOne | sort/src/lsb_swc.rs:103-112 | each bucket followed by its lane goes on to spell the elements with its byte, in order of arrival |
| LsbSwcSorters.Shuffler.PushBatch | sort/src/lsb_swc.rs:94-100 | and so after a batch of any capacity, whose memory is stashed; more can be pushed exactly if it has room for whole lines |
| LsbSwcSorters.Shuffler.FinishBucket | sort/src/lsb_swc.rs:121-128 | one bucket and its lane end up at the end of the target, in the last vector or a spare one; all others stay |
| LsbSwcSorters.Shuffler.FinishInto | sort/src/lsb_swc.rs:114-130 | the target receives what it would without write combining |
| LsbSwcSorters.Sorter.Reshuffle | sort/src/lsb_swc.rs:54-59 | one pass splits what the passes before produced |
| LsbSwcSorters.Sorter.FinishInto | sort/src/lsb_swc.rs:37-42 | on an empty target: exactly the stable sort by key of all pushed, and otherwise what the plain sorter makes of it |
| LsbSwcSorters.Sorter.Sort | sort/src/lib.rs:73-78 | exactly the stable sort of all pushed before followed by the batches, with write combining too |
| MsbSwcSorters.Sorter.Push | sort/src/msb_swc.rs:66-76 | the session holds one element more, staged by its highest byte |
| MsbSwcSorters.Sorter.StackBuckets | sort/src/msb_swc.rs:122-137 | whatever becomes of the stack could have become of the elements in buckets and lanes, before what was there, small buckets being finished at once |
| MsbSwcSorters.Sorter.Ingest | sort/src/msb_swc.rs:178-234 | what is finished, followed by whatever becomes of the stack, could have become of the list and the stack before; the weight of the stack falls |
| MsbSwcSorters.Sorter.Grind | sort/src/msb_swc.rs:163-174 | the loop ends, and what is done is one of the things that could have become of the stack |
| MsbSwcSorters.Sorter.FinishIntoAnd | sort/src/msb_swc.rs:115-141 | for every action that does not lengthen a batch, and any target: appends what the action makes of groups of all pushed, one group after the other; ready for reuse |
| MsbSwcSorters.Sorter.SortAnd | sort/src/msb_swc.rs:151-160 | for every such action: what it makes of groups of the source; elements pushed before join in only if the source has several buffers |
| MsbSwcSorters.Sorter.FinishInto | sort/src/msb_swc.rs:86-88 | with the library sort as action: the same stable sort as without write combining |
| MsbSwcSorters.Sorter.Sort | sort/src/msb_swc.rs:90-92 | with the library sort as action: the same stable sort as without write combining |
| Frames.LittleEndianLawful | communication/src/networking.rs:20-47 | five 64-bit words in memory order, least significant bytes first, are 40 bytes that decode to the words encoded |
| Frames.ReadWhole | communication/src/networking.rs:37-47 | of the first bytes of a message its header is read exactly if they are all of its bytes |
| Frames.ReadMore | communication/src/networking.rs:37-47 | what follows a complete message does not change how it is read |
| Frames.FrameIs | communication/src/networking.rs:51-59 | a header and payload written one after the other are read back as they were |
| Frames.ParseResumes | communication/src/allocator/zero_copy/tcp.rs:51-104 | it does not matter where a stream is cut: parsing resumes where it stopped |
| Frames.ParseFrames | communication/src/allocator/zero_copy/tcp.rs:71-96 | messages one after the other parse into these messages |
| Frames.StreamParses | communication/src/allocator/zero_copy/tcp.rs:110-192 | messages followed by the final header parse into these messages and the end |
| Sendings.StreamIs | communication/src/allocator/zero_copy/tcp.rs:110-192 | the stream of messages given to be sent parses into a message for each, header and payload as given, and the end |
| Frames.WholeAppend | communication/src/allocator/zero_copy/bytes_exchange.rs:66-83 | whole messages behind whole messages are whole messages, in order |
| Frames.WholeIsFrames | communication/src/allocator/zero_copy/allocator.rs:220-253 | whole messages are spelled by the messages they parse into |
| SharedBytes.ExtractTo | bytes/src/lib.rs:89-103 | two adjacent slices of one allocation that spell the original |
| SharedBytes.TryMerge | bytes/src/lib.rs:163-171 | merges exactly adjacent slices of one allocation, into a slice that spells both |
| SharedBytes.TryRegenerate | bytes/src/lib.rs:128-139 | recovers the whole allocation exactly if nobody else holds a slice of it |
| SharedBytes.BytesSlab.Write | communication/src/allocator/zero_copy/bytes_slab.rs:30-32 | writing into the empty part changes nothing handed out, and nothing valid |
| SharedBytes.BytesSlab.MakeValid | communication/src/allocator/zero_copy/bytes_slab.rs:38-40 | what was written joins the valid bytes |
| SharedBytes.BytesSlab.Extract | communication/src/allocator/zero_copy/bytes_slab.rs:42-46 | hands out exactly the first valid bytes; the others stay valid |
| SharedBytes.BytesSlab.GrowShift | communication/src/allocator/zero_copy/bytes_slab.rs:59-65 | allocations grow only if needed, and by no more doublings than needed; wrongly sized ones are given up |
| SharedBytes.Reclaim | communication/src/allocator/zero_copy/bytes_slab.rs:68-83 | exactly the retired allocations nobody holds are reclaimed; none is both reclaimed and in progress |
| SharedBytes.BytesSlab.TakeSpare | communication/src/allocator/zero_copy/bytes_slab.rs:67-85 | the next buffer is an allocation nobody holds |
| SharedBytes.BytesSlab.EnsureCapacity | communication/src/allocator/zero_copy/bytes_slab.rs:53-93 | afterwards there is room; the valid bytes are the same, and no allocation others hold has changed |
| MergeQueues.MergeAll | communication/src/allocator/zero_copy/bytes_exchange.rs:64-84 | the queue spells what it did followed by the new slices, merged or not; slices of whole messages stay such |
| MergeQueues.MergeQueue.Extend | communication/src/allocator/zero_copy/bytes_exchange.rs:53-91 | the same, and the receiver is woken exactly when the queue was empty and something came |
| MergeQueues.MergeQueue.Drain | communication/src/allocator/zero_copy/bytes_exchange.rs:95-106 | everything queued, in order |
| Tcp.Carve | communication/src/allocator/zero_copy/tcp.rs:70-96 | carves exactly the complete messages of the valid bytes, each staged for its target in order; tells a clean end from failure |
| Tcp.OutOfRange | communication/src/allocator/zero_copy/tcp.rs:83-83 | a message for a worker that is not there spoils the whole stream |
| Tcp.FramedTo | communication/src/allocator/zero_copy/tcp.rs:71-96 | the messages carved for a worker are those given to be sent to it |
| Reception.RoomFor | communication/src/allocator/zero_copy/tcp.rs:53-55 | making room leaves everything queued as it is, and every payload that workers have got and not dropped |
| Reception.ReadSome | communication/src/allocator/zero_copy/tcp.rs:57-68 | reading leaves everything queued as it is, and every payload not dropped |
| Receiving.HandOver | communication/src/allocator/zero_copy/tcp.rs:98-103 | every worker's queue gets exactly its messages, in order, behind those there |
| Reception.TakeSome | communication/src/allocator/zero_copy/allocator.rs:218-253 | a worker that takes what is queued and peels it has got the payloads of a prefix of its messages, channel by channel and in order; all payloads not dropped still read as they were sent |
| Reception.ReceiveAll | communication/src/allocator/zero_copy/tcp.rs:51-104 | however the stream is cut into reads, and whatever workers take, keep and drop meanwhile: succeeds exactly on clean streams, every worker has then received exactly its messages, once each and in order; and every payload a worker has not dropped reads as it was sent, failed or not |
| Reception.DeliverAll | communication/src/allocator/zero_copy/tcp.rs:51-104 | reassembly down to the channels: succeeds on messages given to be sent exactly if all are for workers that are there; then, once each worker has taken what is left, what it has got for a channel are exactly the payloads given to be sent to it on this channel, in order, and those not dropped read as they were given |
| Reception.IntactSent | communication/src/allocator/zero_copy/allocator.rs:218-253 | of the messages taken so far, too, a worker has got the payloads as they were given, channel by channel |
| Reception.NothingDropped | communication/src/allocator/zero_copy/allocator.rs:222-252 | for a worker that has dropped none, the payloads given to be sent on a channel are what is queued for it |
| Peeling.PartsTrans | communication/src/allocator/zero_copy/allocator.rs:236-249 | payloads are parts of the slices peeled, and stay where they are in their channel's queue |
| Receiving.FramesInFlatten | communication/src/allocator/zero_copy/allocator.rs:218-253 | messages of slices one after the other are those of the slices joined |
| Peeling.WholeReads | communication/src/allocator/zero_copy/allocator.rs:220-252 | the peel loop never fails to read a header from a slice of whole messages |
| Peeling.PeelSlice | communication/src/allocator/zero_copy/allocator.rs:222-252 | every message of a slice reaches its channel's queue, once and in order, unless the channel was dropped; one event each |
| Peeling.PeelAll | communication/src/allocator/zero_copy/allocator.rs:218-253 | and so for all slices, in order |
| Peeling.FramedOn | communication/src/allocator/zero_copy/allocator.rs:222-231 | the payloads peeled for a channel are the payloads given to be sent on it, in order and to the byte |
| Peeling.FramedChannels | communication/src/allocator/zero_copy/allocator.rs:233-233 | the event for each message names the channel it was sent on |
| Peeling.PeeledMeans | communication/src/allocator/zero_copy/allocator.rs:236-249 | payloads sent on a channel join those waiting for it, unless it is not there and a channel at or above it has been allocated: a message leaves no payload if and only if that is so |
| Peeling.EarlyArrives | communication/src/allocator/zero_copy/allocator.rs:139-252 | messages for a channel that this worker, having allocated others, is yet to allocate are there for it when it does |
| Peeling.TcpAllocator.AllocateChannel | communication/src/allocator/zero_copy/allocator.rs:139-189 | messages that arrived before their channel was allocated are kept for it |
| Peeling.TcpAllocator.Receive | communication/src/allocator/zero_copy/allocator.rs:193-254 | empties all receive queues; every message not for a dropped channel is queued for its channel, once and in order |
| Endpoints.SendEndpoint.SendBuffer | communication/src/allocator/zero_copy/bytes_exchange.rs:137-142 | what is valid moves behind what was sent; nothing stays behind |
| Endpoints.SendEndpoint.Reserve | communication/src/allocator/zero_copy/bytes_exchange.rs:159-168 | makes room without changing a byte of what was sent, queued or drained and still held by others |
| Endpoints.SendEndpoint.Push | communication/src/allocator/zero_copy/push_pull.rs:40-60 | one message joins what was sent, whole and behind what was sent before; of allocations others hold, only the unsent part is written |
| Endpoints.SentParses | communication/src/allocator/zero_copy/push_pull.rs:40-60 | what was sent parses into the messages pushed, one more for each push |
| Endpoints.WireIsClean | communication/src/allocator/zero_copy/tcp.rs:114-192 | what is written to the socket parses into exactly the messages drained, and is clean exactly if they are for workers that are there |
| Endpoints.WorkerReceives | communication/src/allocator/zero_copy/tcp.rs:51-192 | round trip: what a worker has taken and still has queued parses into exactly the messages sent to it, once each and in order |
| Endpoints.PayloadsArrive | communication/src/allocator/zero_copy/tcp.rs:51-192 | round trip down to the payloads: whatever slices were drained, what a worker has got for a channel are the payloads that were given to `push` for it and this channel, in order, and they read as given unless dropped |
| Endpoints.SendAll | communication/src/allocator/zero_copy/push_pull.rs:40-60 | messages pushed one by one are what is written to the wire, each its header and its payload, and then the end |
| Endpoints.RoundTrip | communication/src/allocator/zero_copy/tcp.rs:51-192 | there and back, through the endpoint, the queue, the wire and the slab: every worker gets exactly the payloads pushed for it, channel by channel, however the stream is cut; it succeeds exactly if all are for workers that are there |

## Left out

- Counts are mathematical integers; overflow of 64-bit counts is not modelled.
- Clusters.Cluster.TakeIn: asks that what arrived is not about child zero, as in a scope without a parent; the theorems about the protocol are about one flat scope, and Worlds.Scope.TakeIn and Subgraphs.CommitPointstamps cover child zero.
- Subgraphs.CommitPointstamps: does not model how frontiers of child zero's inputs become internal capabilities for the parent; what is projected to the outputs is in `PropagateAll`.
- Worlds.Simulated: an operator acts and reports in one step, and a worker empties its inbox and commits in one step, as `schedule` does.
- Subgraphs.ExtractProgress: does not model the FPGA wrapper and its ghost edges; a scope without a wrapper is modelled, where ghost edges are the edges.
- Subgraphs.SendProgress: in the protocol a worker may send at any time, so nothing there depends on when it does.
- Pushing frontier changes to children, the order of scheduling, incomplete counts and shutting operators down.
- `validate_progress` is a check for debugging; what it checks is what the protocol requires of operators (`Legal` in `Broadcast.dfy`).
- Notificators.Notificator.Next: compares times only, so that capabilities of one output are modelled.
- The binary heaps are bags from which a least element is taken; the library sorts are modelled by functions that sort, stably where the program relies on it.
- MsbSorters.Sorter.FinishIntoAnd: actions are functions of the elements; a vector that an action lengthens grows to just the length it needs.
- MsbSwcSorters.Sorter.FinishIntoAnd: asks that the action does not lengthen a batch, as a vector that grows need not have room for whole lines, which the program relies on.
- Lists of buckets, with their tails and batches, are values passed in and out of methods, so aliasing between a bucket and its sorter is not captured; the lanes of the write-combining buffer are one array, and the stash is an object.
- The sorters' defaults `extend`, `finish` and `recycle`, which only call what is modelled.
- The key function is fixed within a sorting session.
- SharedBytes.TryRegenerate: reference counts are modelled by the set of allocations that others hold slices of; Reception.RoomFor computes it from what is queued and what workers have not dropped.
- How the program's serialization lays out headers: all theorems hold for any encoding in 40 bytes that decodes to what was encoded, and words in memory order are shown to be one. Sums of sizes do not overflow machine words.
- Reception.ReceiveAll: an end of the stream without a final header, a message for a worker that is not there, and data after the final header are all one failure; the program panics in these cases.
- Reception.DeliverAll: a worker receives one stream here and has no channel dropped; queues from several processes and dropped channels are in Peeling.TcpAllocator.Receive.
- Endpoints.WireIsClean: the thread that writes to the socket is modelled by what it writes; in which order it visits its sources is left open.
- Peeling.TcpAllocator.AllocateChannel: does not model the pushers and the puller it returns.
- Sockets, threads, parking, buzzers, mutexes, poisoning, logging and printing.
- Capabilities' reference counting, stream operators, probes, worker stepping, the sequencer, and refinement between timestamps of nested scopes.
