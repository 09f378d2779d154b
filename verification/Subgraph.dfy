/** How a scope gathers, commits and sends progress. */
module Subgraphs {
  import opened Updates
  import opened ChangeBatches
  import opened Orders
  import opened Timestamps
  import opened Graphs
  import opened Propagation
  import opened Ports
  import opened Outputs
  import opened Worklists
  import opened Trackers
  import opened Broadcast
  import opened Progcasters
  import opened Surfacing
  import opened EndToEnd

  /** The updates of times `us`, as updates of pointstamps at `l`. */
  function Placed<T>(l: Location, us: seq<Update<T>>): (r: Batch<Point<T>>)
    ensures |r| == |us|
  {
    seq(|us|, i requires 0 <= i < |us| => ((l, us[i].0), us[i].1))
  }

  lemma {:induction false} PlacedTally<T>(l: Location, us: seq<Update<T>>, q: Point<T>)
    ensures Tally(Placed(l, us), q) == if q.0 == l then Tally(us, q.1) else 0
  {
    if us != [] {
      assert Placed(l, us)[1..] == Placed(l, us[1..]);
      PlacedTally(l, us[1..], q);
      assert (l, us[0].0) == q <==> l == q.0 && us[0].0 == q.1;
    }
  }

  /** Messages consumed at the inputs of an operator. */
  function AtInputs<T>(node: nat, uss: seq<seq<Update<T>>>): Batch<Point<T>> {
    if uss == [] then []
    else
      var last := |uss| - 1;
      AtInputs(node, uss[..last]) + Placed(Location(node, TargetPort(last)), uss[last])
  }

  /** Capabilities held at the outputs of an operator. */
  function AtOutputs<T>(node: nat, uss: seq<seq<Update<T>>>): Batch<Point<T>> {
    if uss == [] then []
    else
      var last := |uss| - 1;
      AtOutputs(node, uss[..last]) + Placed(Location(node, SourcePort(last)), uss[last])
  }

  /** One update, at each of the targets. */
  function Fan<T>(targets: seq<Target>, u: Update<T>): (r: Batch<Point<T>>)
    ensures |r| == |targets|
  {
    seq(|targets|, j requires 0 <= j < |targets| => ((FromTarget(targets[j]), u.0), u.1))
  }

  /** Messages produced at an output, as messages at all targets it leads to. */
  function AtTargets<T>(targets: seq<Target>, us: seq<Update<T>>): Batch<Point<T>> {
    if us == [] then []
    else
      var last := |us| - 1;
      AtTargets(targets, us[..last]) + Fan(targets, us[last])
  }

  /** Messages produced at the outputs of an operator. */
  function AlongEdges<T>(edges: seq<seq<Target>>, uss: seq<seq<Update<T>>>): Batch<Point<T>>
    requires |uss| <= |edges|
  {
    if uss == [] then []
    else
      var last := |uss| - 1;
      AlongEdges(edges, uss[..last]) + AtTargets(edges[last], uss[last])
  }

  /** How many of the targets are at `l`. */
  function Times(targets: seq<Target>, l: Location): nat {
    if targets == [] then 0 else (if FromTarget(targets[0]) == l then 1 else 0) + Times(targets[1..], l)
  }

  lemma {:induction false} FanTally<T>(targets: seq<Target>, u: Update<T>, q: Point<T>)
    ensures Tally(Fan(targets, u), q) == if u.0 == q.1 then Times(targets, q.0) * u.1 else 0
  {
    if targets != [] {
      assert Fan(targets, u)[1..] == Fan(targets[1..], u);
      FanTally(targets[1..], u, q);
      assert (FromTarget(targets[0]), u.0) == q <==> FromTarget(targets[0]) == q.0 && u.0 == q.1;
    }
  }

  /** Each message produced counts once at every target its output leads to. */
  lemma {:induction false} AtTargetsTally<T>(targets: seq<Target>, us: seq<Update<T>>, q: Point<T>)
    ensures Tally(AtTargets(targets, us), q) == Times(targets, q.0) * Tally(us, q.1)
  {
    if us != [] {
      var last := |us| - 1;
      AtTargetsTally(targets, us[..last], q);
      FanTally(targets, us[last], q);
      TallyAppend(AtTargets(targets, us[..last]), Fan(targets, us[last]), q);
      assert us == us[..last] + [us[last]];
      TallyAppend(us[..last], [us[last]], q.1);
      var n, x, y := Times(targets, q.0), Tally(us[..last], q.1), Tally([us[last]], q.1);
      assert n * (x + y) == n * x + n * y;
    }
  }

  lemma {:induction false} AtInputsTally<T(!new)>(node: nat, uss: seq<seq<Update<T>>>, q: Point<T>)
    ensures Tally(AtInputs(node, uss), q) ==
              if q.0.node == node && q.0.port.TargetPort? && q.0.port.index < |uss| then Tally(uss[q.0.port.index], q.1)
              else 0
  {
    if uss != [] {
      var last := |uss| - 1;
      AtInputsTally(node, uss[..last], q);
      PlacedTally(Location(node, TargetPort(last)), uss[last], q);
      TallyAppend(AtInputs(node, uss[..last]), Placed(Location(node, TargetPort(last)), uss[last]), q);
    }
  }

  lemma {:induction false} AtOutputsTally<T(!new)>(node: nat, uss: seq<seq<Update<T>>>, q: Point<T>)
    ensures Tally(AtOutputs(node, uss), q) ==
              if q.0.node == node && q.0.port.SourcePort? && q.0.port.index < |uss| then Tally(uss[q.0.port.index], q.1)
              else 0
  {
    if uss != [] {
      var last := |uss| - 1;
      AtOutputsTally(node, uss[..last], q);
      PlacedTally(Location(node, SourcePort(last)), uss[last], q);
      TallyAppend(AtOutputs(node, uss[..last]), Placed(Location(node, SourcePort(last)), uss[last]), q);
    }
  }

  /** The edges among `targets` that lead to the input `l`. */
  ghost function EdgesTo(targets: seq<Target>, l: Location): set<nat> {
    set j | 0 <= j < |targets| && l.port.TargetPort? && targets[j] == Target(l.node, l.port.index)
  }

  lemma {:induction false} TimesCounts(targets: seq<Target>, l: Location)
    ensures Times(targets, l) == |EdgesTo(targets, l)|
    decreases |targets|
  {
    if targets == [] {
      assert EdgesTo(targets, l) == {};
    } else {
      var last := |targets| - 1;
      TimesCounts(targets[..last], l);
      TimesLast(targets[..last], targets[last], l);
      assert targets == targets[..last] + [targets[last]];
      if last in EdgesTo(targets, l) {
        assert EdgesTo(targets, l) == EdgesTo(targets[..last], l) + {last};
      } else {
        assert EdgesTo(targets, l) == EdgesTo(targets[..last], l);
      }
    }
  }

  lemma {:induction false} TimesLast(targets: seq<Target>, t: Target, l: Location)
    ensures Times(targets + [t], l) == Times(targets, l) + if FromTarget(t) == l then 1 else 0
  {
    if targets == [] {
      assert targets + [t] == [t];
    } else {
      assert (targets + [t])[1..] == targets[1..] + [t];
      TimesLast(targets[1..], t, l);
    }
  }

  /** The messages produced for `q`: those at each output, as often as edges lead from there to it. */
  ghost function ProducedFor<T(!new)>(edges: seq<seq<Target>>, uss: seq<seq<Update<T>>>, q: Point<T>): int
    requires |uss| <= |edges|
  {
    if uss == [] then 0
    else
      var last := |uss| - 1;
      ProducedFor(edges, uss[..last], q) + |EdgesTo(edges[last], q.0)| * Tally(uss[last], q.1)
  }

  lemma {:induction false} AlongEdgesTally<T(!new)>(edges: seq<seq<Target>>, uss: seq<seq<Update<T>>>, q: Point<T>)
    requires |uss| <= |edges|
    ensures Tally(AlongEdges(edges, uss), q) == ProducedFor(edges, uss, q)
  {
    if uss != [] {
      var last := |uss| - 1;
      AlongEdgesTally(edges, uss[..last], q);
      AtTargetsTally(edges[last], uss[last], q);
      TimesCounts(edges[last], q.0);
      TallyAppend(AlongEdges(edges, uss[..last]), AtTargets(edges[last], uss[last]), q);
    }
  }

  /** What an operator's progress amounts to: at its own inputs messages consumed go, at its own outputs
      capabilities change, and at all inputs messages produced for them come. */
  lemma ProgressTally<T(!new)>(node: nat, edges: seq<seq<Target>>, consumed: seq<seq<Update<T>>>,
                               internal: seq<seq<Update<T>>>, produced: seq<seq<Update<T>>>, q: Point<T>)
    requires |produced| <= |edges|
    ensures Tally(Changes(AtInputs(node, consumed), AtOutputs(node, internal), AlongEdges(edges, produced)), q) ==
              if q.0.port.SourcePort? then
                if q.0.node == node && q.0.port.index < |internal| then Tally(internal[q.0.port.index], q.1) else 0
              else
                ProducedFor(edges, produced, q) -
                if q.0.node == node && q.0.port.index < |consumed| then Tally(consumed[q.0.port.index], q.1) else 0
  {
    var a, b, c := AtInputs(node, consumed), AtOutputs(node, internal), AlongEdges(edges, produced);
    AtInputsTally(node, consumed, q);
    AtOutputsTally(node, internal, q);
    AlongEdgesTally(edges, produced, q);
    NegatedTally(a, q);
    TallyAppend(Negated(a), b, q);
    TallyAppend(Negated(a) + b, c, q);
    if q.0.port.SourcePort? {
      NoneAtOutputs(edges, produced, q);
    }
  }

  lemma {:induction false} NoneAtOutputs<T(!new)>(edges: seq<seq<Target>>, uss: seq<seq<Update<T>>>, q: Point<T>)
    requires |uss| <= |edges| && q.0.port.SourcePort?
    ensures ProducedFor(edges, uss, q) == 0
  {
    if uss != [] {
      NoneAtOutputs(edges, uss[..|uss| - 1], q);
      assert EdgesTo(edges[|uss| - 1], q.0) == {};
    }
  }

  lemma GainedTrans<K(!new)>(a: Batch<K>, b: Batch<K>, c: Batch<K>, one: Batch<K>, two: Batch<K>)
    requires Gained(b, a, one) && Gained(c, b, two)
    ensures Gained(c, a, one + two)
  {
    TallyAppendAll(one, two);
  }

  /** Updates of times as an operator's progress reports them at `l`: consumed messages count against. */
  function Reported<T>(l: Location, consumed: bool, us: seq<Update<T>>): Batch<Point<T>> {
    if consumed then Negated(Placed(l, us)) else Placed(l, us)
  }

  lemma ReportedTally<T>(l: Location, consumed: bool, us: seq<Update<T>>, q: Point<T>)
    ensures Tally(Reported(l, consumed, us), q) ==
              if q.0 != l then 0 else if consumed then -Tally(us, q.1) else Tally(us, q.1)
  {
    PlacedTally(l, us, q);
    NegatedTally(Placed(l, us), q);
  }

  lemma ReportedSame<T(!new)>(l: Location, consumed: bool, us: seq<Update<T>>, vs: seq<Update<T>>)
    requires SameTally(us, vs)
    ensures SameTally(Reported(l, consumed, us), Reported(l, consumed, vs))
  {
    forall q ensures Tally(Reported(l, consumed, us), q) == Tally(Reported(l, consumed, vs), q) {
      ReportedTally(l, consumed, us, q);
      ReportedTally(l, consumed, vs, q);
    }
  }

  lemma GainedNext<K(!new)>(after: Batch<K>, now: Batch<K>, before: Batch<K>, more: Batch<K>, k: nat)
    requires k < |more| && Gained(now, before, more[..k]) && SameTally(after, now + [more[k]])
    ensures Gained(after, before, more[..k + 1])
  {
    assert more[..k + 1] == more[..k] + [more[k]];
    TallyAppendAll(now, [more[k]]);
    TallyAppendAll(more[..k], [more[k]]);
  }

  lemma GainedSame<K(!new)>(after: Batch<K>, before: Batch<K>, more: Batch<K>, same: Batch<K>)
    requires Gained(after, before, more) && SameTally(more, same)
    ensures Gained(after, before, same)
  {
  }

  /** Moves one batch of times to pointstamps at a location. */
  method DrainTo<T(==,!new)>(batch: ChangeBatch<T>, l: Location, consumed: bool, pointstamps: ChangeBatch<Point<T>>)
    requires batch.Valid() && pointstamps.Valid() && (batch as object) != pointstamps
    modifies batch, pointstamps
    ensures batch.Valid() && pointstamps.Valid() && batch.updates == []
    ensures Gained(pointstamps.updates, old(pointstamps.updates), Reported(l, consumed, old(batch.updates)))
  {
    hide Reported;
    ghost var before := pointstamps.updates;
    var drained := batch.Drain();
    ghost var more := Reported(l, consumed, drained);
    ReportedAt(l, consumed, drained);
    for k := 0 to |drained|
      invariant pointstamps.Valid() && batch.Valid() && batch.updates == []
      invariant Gained(pointstamps.updates, before, more[..k])
    {
      ghost var now := pointstamps.updates;
      pointstamps.Update((l, drained[k].0), if consumed then -drained[k].1 else drained[k].1);
      GainedNext(pointstamps.updates, now, before, more, k);
    }
    assert more[..|more|] == more;
    ReportedSame(l, consumed, drained, old(batch.updates));
    GainedSame(pointstamps.updates, before, more, Reported(l, consumed, old(batch.updates)));
  }

  lemma ReportedAt<T>(l: Location, consumed: bool, us: seq<Update<T>>)
    ensures |Reported(l, consumed, us)| == |us|
    ensures forall k :: 0 <= k < |us| ==>
              Reported(l, consumed, us)[k] == ((l, us[k].0), if consumed then -us[k].1 else us[k].1)
  {
  }

  /** Some of the targets is at operator `n`. */
  ghost predicate LeadsTo(targets: seq<Target>, n: nat) {
    exists j :: 0 <= j < |targets| && targets[j].node == n
  }

  /** Something has been drained exactly if the batch did not count as empty. */
  lemma DrainedAny<K(!new)>(us: seq<Update<K>>, drained: seq<Update<K>>)
    requires SameTally(drained, us)
    requires forall a, b :: 0 <= a < b < |drained| ==> drained[a].0 != drained[b].0
    requires !LoneZero(us) ==> forall a :: 0 <= a < |drained| ==> drained[a].1 != 0
    requires LoneZero(us) ==> drained == us
    ensures drained != [] <==> Buffered(us)
  {
    if drained != [] && !LoneZero(us) {
      TallyDistinct(drained, 0);
      assert Tally(us, drained[0].0) != 0;
    }
    assert drained == [] ==> forall k :: Tally(us, k) == Tally(drained, k) == 0;
  }

  lemma LeadsToNext(targets: seq<Target>, e: nat)
    requires e < |targets|
    ensures forall n :: LeadsTo(targets[..e + 1], n) <==> LeadsTo(targets[..e], n) || n == targets[e].node
  {
    forall n | LeadsTo(targets[..e], n) ensures LeadsTo(targets[..e + 1], n) {
      var j :| 0 <= j < |targets[..e]| && targets[..e][j].node == n;
      assert targets[..e + 1][j].node == n;
    }
    assert targets[..e + 1][e] == targets[e];
    forall n | LeadsTo(targets[..e + 1], n) ensures LeadsTo(targets[..e], n) || n == targets[e].node {
      var j :| 0 <= j < |targets[..e + 1]| && targets[..e + 1][j].node == n;
      assert j < e ==> targets[..e][j].node == n;
    }
  }

  /** Moves one produced time to pointstamps at all targets of the output, which become active. */
  method FanOut<T(==,!new)>(u: Update<T>, targets: seq<Target>, pointstamps: ChangeBatch<Point<T>>, active: seq<nat>)
    returns (active': seq<nat>)
    requires pointstamps.Valid()
    modifies pointstamps
    ensures pointstamps.Valid() && Gained(pointstamps.updates, old(pointstamps.updates), Fan(targets, u))
    ensures forall n :: n in active' <==> n in active || LeadsTo(targets, n)
  {
    hide ChangeBatch.Valid;
    hide LeadsTo;
    ghost var fan := Fan(targets, u);
    active' := active;
    assert targets[..0] == [] && fan[..0] == [];
    NowhereToLead();
    for e := 0 to |targets|
      invariant pointstamps.Valid() && Gained(pointstamps.updates, old(pointstamps.updates), fan[..e])
      invariant forall n :: n in active' <==> n in active || LeadsTo(targets[..e], n)
    {
      ghost var prior := pointstamps.updates;
      active' := active' + [targets[e].node];
      pointstamps.Update((FromTarget(targets[e]), u.0), u.1);
      GainedNext(pointstamps.updates, prior, old(pointstamps.updates), fan, e);
      LeadsToNext(targets, e);
    }
    assert fan[..|targets|] == fan && targets[..|targets|] == targets;
  }

  lemma NowhereToLead()
    ensures forall n :: !LeadsTo([], n)
  {
  }

  /** Moves one batch of produced times to pointstamps at all targets of the output, which become active if
      there is any. */
  method DrainAlong<T(==,!new)>(batch: ChangeBatch<T>, targets: seq<Target>, pointstamps: ChangeBatch<Point<T>>,
                                active: seq<nat>)
    returns (active': seq<nat>)
    requires batch.Valid() && pointstamps.Valid() && (batch as object) != pointstamps
    modifies batch, pointstamps
    ensures batch.Valid() && pointstamps.Valid() && batch.updates == []
    ensures Gained(pointstamps.updates, old(pointstamps.updates), AtTargets(targets, old(batch.updates)))
    ensures forall n :: n in active' <==> n in active || (Buffered(old(batch.updates)) && LeadsTo(targets, n))
  {
    hide LeadsTo;
    hide Buffered;
    ghost var before := pointstamps.updates;
    active' := active;
    var drained := batch.Drain();
    DrainedAny(old(batch.updates), drained);
    for k := 0 to |drained|
      invariant pointstamps.Valid() && batch.Valid() && batch.updates == []
      invariant Gained(pointstamps.updates, before, AtTargets(targets, drained[..k]))
      invariant forall n :: n in active' <==> n in active || (k > 0 && LeadsTo(targets, n))
    {
      ghost var now := pointstamps.updates;
      active' := FanOut(drained[k], targets, pointstamps, active');
      GainedTrans(before, now, pointstamps.updates, AtTargets(targets, drained[..k]), Fan(targets, drained[k]));
      assert drained[..k + 1][..k] == drained[..k];
    }
    assert drained[..|drained|] == drained;
    forall q ensures Tally(AtTargets(targets, drained), q) == Tally(AtTargets(targets, old(batch.updates)), q) {
      AtTargetsTally(targets, drained, q);
      AtTargetsTally(targets, old(batch.updates), q);
    }
  }

  /** What an operator shares with its scope: per input the messages it consumed, per output the changes
      of the capabilities it holds and the messages it produced. */
  class SharedProgress<T(==,!new)> {
    const consumeds: seq<ChangeBatch<T>>
    const internals: seq<ChangeBatch<T>>
    const produceds: seq<ChangeBatch<T>>

    constructor (consumeds: seq<ChangeBatch<T>>, internals: seq<ChangeBatch<T>>, produceds: seq<ChangeBatch<T>>)
      ensures this.consumeds == consumeds && this.internals == internals && this.produceds == produceds
    {
      this.consumeds, this.internals, this.produceds := consumeds, internals, produceds;
    }

    ghost predicate Valid()
      reads consumeds, internals, produceds
    {
      && BatchesValid(consumeds) && BatchesValid(internals) && BatchesValid(produceds)
      && (forall i, j :: 0 <= i < |consumeds| && 0 <= j < |internals| ==> consumeds[i] != internals[j])
      && (forall i, j :: 0 <= i < |consumeds| && 0 <= j < |produceds| ==> consumeds[i] != produceds[j])
      && (forall i, j :: 0 <= i < |internals| && 0 <= j < |produceds| ==> internals[i] != produceds[j])
    }
  }

  lemma GainedNothing<K(!new)>(b: Batch<K>)
    ensures Gained(b, b, [])
  {
  }

  lemma AtInputsNext<T>(node: nat, uss: seq<seq<Update<T>>>, i: nat)
    requires i < |uss|
    ensures Negated(AtInputs(node, uss[..i + 1])) ==
              Negated(AtInputs(node, uss[..i])) + Reported(Location(node, TargetPort(i)), true, uss[i])
  {
    assert uss[..i + 1][..i] == uss[..i];
  }

  lemma AtOutputsNext<T>(node: nat, uss: seq<seq<Update<T>>>, i: nat)
    requires i < |uss|
    ensures AtOutputs(node, uss[..i + 1]) ==
              AtOutputs(node, uss[..i]) + Reported(Location(node, SourcePort(i)), false, uss[i])
  {
    assert uss[..i + 1][..i] == uss[..i];
  }

  lemma AlongEdgesNext<T>(edges: seq<seq<Target>>, uss: seq<seq<Update<T>>>, i: nat)
    requires i < |uss| <= |edges|
    ensures AlongEdges(edges, uss[..i + 1]) == AlongEdges(edges, uss[..i]) + AtTargets(edges[i], uss[i])
  {
    assert uss[..i + 1][..i] == uss[..i];
  }

  method DrainConsumed<T(==,!new)>(node: nat, batches: seq<ChangeBatch<T>>, pointstamps: ChangeBatch<Point<T>>)
    requires BatchesValid(batches) && pointstamps.Valid() && (pointstamps as object) !in batches
    modifies batches, pointstamps
    ensures BatchesValid(batches) && pointstamps.Valid()
    ensures forall i :: 0 <= i < |batches| ==> batches[i].updates == []
    ensures Gained(pointstamps.updates, old(pointstamps.updates), Negated(AtInputs(node, old(Contents(batches)))))
  {
    hide ChangeBatch.Valid;
    hide Gained;
    hide Negated;
    hide Placed;
    hide AtTargets;
    ghost var before, contents := pointstamps.updates, Contents(batches);
    assert contents[..0] == [];
    GainedNothing(before);
    assert Negated(AtInputs<T>(node, [])) == [];
    hide AtInputs;
    for i := 0 to |batches|
      invariant BatchesValid(batches) && pointstamps.Valid()
      invariant forall j :: 0 <= j < i ==> batches[j].updates == []
      invariant forall j :: i <= j < |batches| ==> batches[j].updates == contents[j]
      invariant Gained(pointstamps.updates, before, Negated(AtInputs(node, contents[..i])))
    {
      ghost var now := pointstamps.updates;
      DrainTo(batches[i], Location(node, TargetPort(i)), true, pointstamps);
      GainedTrans(before, now, pointstamps.updates, Negated(AtInputs(node, contents[..i])),
                  Reported(Location(node, TargetPort(i)), true, contents[i]));
      AtInputsNext(node, contents, i);
    }
    assert contents[..|batches|] == contents;
  }

  method DrainInternals<T(==,!new)>(node: nat, batches: seq<ChangeBatch<T>>, pointstamps: ChangeBatch<Point<T>>)
    requires BatchesValid(batches) && pointstamps.Valid() && (pointstamps as object) !in batches
    modifies batches, pointstamps
    ensures BatchesValid(batches) && pointstamps.Valid()
    ensures forall i :: 0 <= i < |batches| ==> batches[i].updates == []
    ensures Gained(pointstamps.updates, old(pointstamps.updates), AtOutputs(node, old(Contents(batches))))
  {
    hide ChangeBatch.Valid;
    hide Gained;
    hide Negated;
    hide Placed;
    hide AtTargets;
    ghost var before, contents := pointstamps.updates, Contents(batches);
    assert contents[..0] == [];
    GainedNothing(before);
    assert AtOutputs<T>(node, []) == [];
    hide AtOutputs;
    for i := 0 to |batches|
      invariant BatchesValid(batches) && pointstamps.Valid()
      invariant forall j :: 0 <= j < i ==> batches[j].updates == []
      invariant forall j :: i <= j < |batches| ==> batches[j].updates == contents[j]
      invariant Gained(pointstamps.updates, before, AtOutputs(node, contents[..i]))
    {
      ghost var now := pointstamps.updates;
      DrainTo(batches[i], Location(node, SourcePort(i)), false, pointstamps);
      GainedTrans(before, now, pointstamps.updates, AtOutputs(node, contents[..i]),
                  Reported(Location(node, SourcePort(i)), false, contents[i]));
      AtOutputsNext(node, contents, i);
    }
    assert contents[..|batches|] == contents;
  }

  /** Operator `n` is a target of an output at which something was produced. */
  ghost predicate Awaits<T(!new)>(edges: seq<seq<Target>>, uss: seq<seq<Update<T>>>, n: nat)
    requires |uss| <= |edges|
  {
    exists o :: 0 <= o < |uss| && Buffered(uss[o]) && LeadsTo(edges[o], n)
  }

  lemma AwaitsNext<T(!new)>(edges: seq<seq<Target>>, uss: seq<seq<Update<T>>>, i: nat)
    requires i < |uss| <= |edges|
    ensures forall n :: Awaits(edges, uss[..i + 1], n) <==>
              Awaits(edges, uss[..i], n) || (Buffered(uss[i]) && LeadsTo(edges[i], n))
  {
    hide Buffered;
    hide LeadsTo;
    assert uss[..i + 1][i] == uss[i];
    forall n | Awaits(edges, uss[..i], n) ensures Awaits(edges, uss[..i + 1], n) {
      var o :| 0 <= o < i && Buffered(uss[..i][o]) && LeadsTo(edges[o], n);
      assert uss[..i + 1][o] == uss[..i][o];
    }
    forall n | Awaits(edges, uss[..i + 1], n)
      ensures Awaits(edges, uss[..i], n) || (Buffered(uss[i]) && LeadsTo(edges[i], n))
    {
      var o :| 0 <= o < i + 1 && Buffered(uss[..i + 1][o]) && LeadsTo(edges[o], n);
      assert o < i ==> uss[..i][o] == uss[..i + 1][o];
    }
  }

  method DrainProduced<T(==,!new)>(edges: seq<seq<Target>>, batches: seq<ChangeBatch<T>>,
                                   pointstamps: ChangeBatch<Point<T>>, active: seq<nat>)
    returns (active': seq<nat>)
    requires BatchesValid(batches) && pointstamps.Valid() && (pointstamps as object) !in batches && |batches| == |edges|
    modifies batches, pointstamps
    ensures BatchesValid(batches) && pointstamps.Valid()
    ensures forall i :: 0 <= i < |batches| ==> batches[i].updates == []
    ensures Gained(pointstamps.updates, old(pointstamps.updates), AlongEdges(edges, old(Contents(batches))))
    ensures forall n :: n in active' <==> n in active || Awaits(edges, old(Contents(batches)), n)
  {
    hide ChangeBatch.Valid;
    hide Gained;
    hide Negated;
    hide Placed;
    hide AtTargets;
    hide Buffered;
    hide LeadsTo;
    ghost var before, contents := pointstamps.updates, Contents(batches);
    assert contents[..0] == [];
    GainedNothing(before);
    assert AlongEdges<T>(edges, []) == [];
    hide AlongEdges;
    active' := active;
    assert forall n :: !Awaits<T>(edges, [], n);
    hide Awaits;
    for i := 0 to |batches|
      invariant BatchesValid(batches) && pointstamps.Valid()
      invariant forall j :: 0 <= j < i ==> batches[j].updates == []
      invariant forall j :: i <= j < |batches| ==> batches[j].updates == contents[j]
      invariant Gained(pointstamps.updates, before, AlongEdges(edges, contents[..i]))
      invariant forall n :: n in active' <==> n in active || Awaits(edges, contents[..i], n)
    {
      ghost var now := pointstamps.updates;
      active' := DrainAlong(batches[i], edges[i], pointstamps, active');
      GainedTrans(before, now, pointstamps.updates, AlongEdges(edges, contents[..i]), AtTargets(edges[i], contents[i]));
      AlongEdgesNext(edges, contents, i);
      AwaitsNext(edges, contents, i);
    }
    assert contents[..|batches|] == contents;
  }

  /** Turns what an operator has shared into one batch of pointstamp changes: messages consumed and the
      capabilities they justify are never separated. Operators for which messages were produced become active. */
  method ExtractProgress<T(==,!new)>(node: nat, edges: seq<seq<Target>>, shared: SharedProgress<T>,
                                     pointstamps: ChangeBatch<Point<T>>, active: seq<nat>)
    returns (active': seq<nat>)
    requires shared.Valid() && pointstamps.Valid() && |shared.produceds| == |edges|
    requires (pointstamps as object) !in shared.consumeds && (pointstamps as object) !in shared.internals &&
             (pointstamps as object) !in shared.produceds
    modifies pointstamps, shared.consumeds, shared.internals, shared.produceds
    ensures shared.Valid() && pointstamps.Valid()
    ensures forall b :: b in shared.consumeds || b in shared.internals || b in shared.produceds ==> b.updates == []
    ensures Gained(pointstamps.updates, old(pointstamps.updates),
                   Changes(AtInputs(node, old(Contents(shared.consumeds))),
                           AtOutputs(node, old(Contents(shared.internals))),
                           AlongEdges(edges, old(Contents(shared.produceds)))))
    ensures forall n :: n in active' <==> n in active || Awaits(edges, old(Contents(shared.produceds)), n)
  {
    hide ChangeBatch.Valid;
    hide Gained;
    hide Awaits;
    ghost var a, c := pointstamps.updates, Contents(shared.consumeds);
    ghost var i, p := Contents(shared.internals), Contents(shared.produceds);
    DrainConsumed(node, shared.consumeds, pointstamps);
    ghost var b := pointstamps.updates;
    assert Contents(shared.internals) == i && Contents(shared.produceds) == p;
    DrainInternals(node, shared.internals, pointstamps);
    GainedTrans(a, b, pointstamps.updates, Negated(AtInputs(node, c)), AtOutputs(node, i));
    b := pointstamps.updates;
    assert Contents(shared.produceds) == p;
    active' := DrainProduced(edges, shared.produceds, pointstamps, active);
    GainedTrans(a, b, pointstamps.updates, Negated(AtInputs(node, c)) + AtOutputs(node, i), AlongEdges(edges, p));
  }

  /** What the objects of a tracker include. */
  lemma TrackerOwns<T(!new), S(!new)>(tracker: Tracker<T, S>)
    ensures tracker.targetChanges in tracker.Repr() && tracker.sourceChanges in tracker.Repr()
    ensures forall b :: b in tracker.outputChanges ==> b in tracker.Repr()
    ensures forall x :: x in tracker.Repr() ==> allocated(x)
    ensures forall x :: x in Footprint(tracker.ports) ==> x in tracker.Repr()
    ensures forall l :: l in tracker.ports ==> tracker.ports[l].implications in tracker.Repr()
  {
    FootprintAllocated(tracker.ports);
    forall l | l in tracker.ports ensures tracker.ports[l].implications in Footprint(tracker.ports) {
      assert tracker.ports[l].implications in tracker.ports[l].Repr();
    }
  }

  /** Where changes may be: at ports of the graph, of which those of child zero are the scope's own. */
  ghost predicate Placeable<T(!new), S(!new)>(g: Graph<S>, q: Point<T>, inputs: nat, outputs: nat) {
    if q.0.node == 0 then AtPort(q.0, inputs, outputs) else Has(g, q.0)
  }

  /** The batches are not parts of the tracker. */
  ghost predicate Elsewhere<T(!new), S(!new), O(!new)>(tracker: Tracker<T, S>, shared: SharedProgress<O>) {
    forall x :: x in tracker.Repr() ==> x !in shared.consumeds && x !in shared.internals && x !in shared.produceds
  }

  lemma SharedOpened<O(!new)>(shared: SharedProgress<O>)
    requires shared.Valid()
    ensures BatchesValid(shared.consumeds) && BatchesValid(shared.produceds) && BatchesValid(shared.internals)
    ensures forall i, j :: 0 <= i < |shared.consumeds| && 0 <= j < |shared.produceds| ==>
              shared.consumeds[i] != shared.produceds[j]
    ensures forall i, j :: 0 <= i < |shared.consumeds| && 0 <= j < |shared.internals| ==>
              shared.consumeds[i] != shared.internals[j]
    ensures forall i, j :: 0 <= i < |shared.internals| && 0 <= j < |shared.produceds| ==>
              shared.internals[i] != shared.produceds[j]
  {
  }

  lemma SharedClosed<O(!new)>(shared: SharedProgress<O>)
    requires BatchesValid(shared.consumeds) && BatchesValid(shared.produceds) && BatchesValid(shared.internals)
    requires forall i, j :: 0 <= i < |shared.consumeds| && 0 <= j < |shared.produceds| ==>
               shared.consumeds[i] != shared.produceds[j]
    requires forall i, j :: 0 <= i < |shared.consumeds| && 0 <= j < |shared.internals| ==>
               shared.consumeds[i] != shared.internals[j]
    requires forall i, j :: 0 <= i < |shared.internals| && 0 <= j < |shared.produceds| ==>
               shared.internals[i] != shared.produceds[j]
    ensures shared.Valid()
  {
  }

  lemma ElsewhereMeans<T(!new), S(!new), O(!new)>(tracker: Tracker<T, S>, shared: SharedProgress<O>)
    requires Elsewhere(tracker, shared)
    ensures forall x :: x in tracker.Repr() ==>
              x !in shared.consumeds && x !in shared.internals && x !in shared.produceds
  {
  }

  /** Commits one change: to the tracker, or, at child zero, to what the parent scope is told. */
  method CommitOne<T(==,!new), S(==,!new), O(==,!new)>(tracker: Tracker<T, S>, u: Update<Point<T>>, outer: T -> O,
                                                       shared: SharedProgress<O>)
    requires tracker.Valid() && shared.Valid() && Elsewhere(tracker, shared)
    requires Placeable(tracker.g, u.0, |shared.consumeds|, |shared.produceds|)
    modifies tracker.targetChanges, tracker.sourceChanges, shared.consumeds, shared.produceds
    ensures tracker.Valid() && tracker.View() == old(tracker.View()) && shared.Valid()
    ensures Gained(tracker.targetChanges.updates + tracker.sourceChanges.updates,
                   old(tracker.targetChanges.updates) + old(tracker.sourceChanges.updates), InnerOf([u]))
    ensures ToldOne(outer, u, old(Contents(shared.consumeds)), Contents(shared.consumeds),
                    old(Contents(shared.produceds)), Contents(shared.produceds))
  {
    hide *;
    TrackerOwns(tracker);
    ElsewhereMeans(tracker, shared);
    SharedOpened(shared);
    PlaceableMeans(tracker.g, u.0, |shared.consumeds|, |shared.produceds|);
    ghost var consumeds, produceds := Contents(shared.consumeds), Contents(shared.produceds);
    label before:
    if u.0.0.node == 0 {
      Tell(outer, u, shared.consumeds, shared.produceds);
      assert unchanged@before(tracker.Repr());
      SharedClosed(shared);
      InnerNone(tracker.targetChanges.updates + tracker.sourceChanges.updates, u);
    } else {
      ghost var t, s := tracker.targetChanges.updates, tracker.sourceChanges.updates;
      tracker.Update(u.0.0, u.0.1, u.1);
      assert unchanged@before(shared.consumeds) && unchanged@before(shared.produceds);
      assert Contents(shared.consumeds) == consumeds && Contents(shared.produceds) == produceds;
      ToldNone(outer, u, consumeds, produceds);
      GainedEither(tracker.targetChanges.updates, tracker.sourceChanges.updates, t, s, u);
    }
  }

  lemma PlaceableMeans<T(!new), S(!new)>(g: Graph<S>, q: Point<T>, inputs: nat, outputs: nat)
    requires Placeable(g, q, inputs, outputs)
    ensures if q.0.node == 0 then AtPort(q.0, inputs, outputs) else Has(g, q.0)
  {
  }

  /** Commits pointstamp changes that have reached all workers, and propagates their implications. Those at
      child zero are not tracked: the parent scope is told of them. */
  method CommitPointstamps<T(==,!new), S(==,!new), O(==,!new)>(tracker: Tracker<T, S>,
                                                               pointstamps: ChangeBatch<Point<T>>, outer: T -> O,
                                                               shared: SharedProgress<O>)
    requires tracker.Valid() && pointstamps.Valid() && (pointstamps as object) !in tracker.Repr()
    requires shared.Valid() && Elsewhere(tracker, shared) && (pointstamps as object) !in shared.consumeds &&
             (pointstamps as object) !in shared.internals && (pointstamps as object) !in shared.produceds
    requires forall q :: q in Keys(pointstamps.updates) ==>
               Placeable(tracker.g, q, |shared.consumeds|, |shared.produceds|)
    modifies tracker.Repr(), pointstamps, shared.consumeds, shared.produceds
    ensures tracker.Valid() && pointstamps.Valid() && shared.Valid() && pointstamps.updates == []
    ensures tracker.targetChanges.updates == tracker.sourceChanges.updates == []
    ensures Settled(tracker.d, tracker.g, tracker.View())
    ensures PointCountsPlus(tracker.View(), old(tracker.View()),
                            old(tracker.targetChanges.updates) + old(tracker.sourceChanges.updates) +
                                InnerOf(old(pointstamps.updates)))
    ensures Told(outer, old(pointstamps.updates), old(Contents(shared.consumeds)), Contents(shared.consumeds),
                 old(Contents(shared.produceds)), Contents(shared.produceds))
  {
    hide *;
    TrackerOwns(tracker);
    ElsewhereMeans(tracker, shared);
    SharedOpened(shared);
    ghost var view, start := tracker.View(), tracker.targetChanges.updates + tracker.sourceChanges.updates;
    ghost var consumeds, produceds := Contents(shared.consumeds), Contents(shared.produceds);
    label before:
    var drained := pointstamps.Drain();
    SharedClosed(shared);
    assert Contents(shared.consumeds) == consumeds && Contents(shared.produceds) == produceds;
    KeysAmong(drained, old(pointstamps.updates));
    GainedNothing(start);
    ToldNothing(outer, drained, consumeds, produceds);
    for k := 0 to |drained|
      invariant tracker.Valid() && pointstamps.Valid() && shared.Valid() && pointstamps.updates == []
      invariant tracker.View() == view
      invariant Gained(tracker.targetChanges.updates + tracker.sourceChanges.updates, start, InnerOf(drained[..k]))
      invariant Told(outer, drained[..k], consumeds, Contents(shared.consumeds), produceds, Contents(shared.produceds))
    {
      ghost var now := tracker.targetChanges.updates + tracker.sourceChanges.updates;
      ghost var cs, ps := Contents(shared.consumeds), Contents(shared.produceds);
      CommitOne(tracker, drained[k], outer, shared);
      InnerNext(drained, k);
      GainedTrans(start, now, tracker.targetChanges.updates + tracker.sourceChanges.updates, InnerOf(drained[..k]),
                  InnerOf([drained[k]]));
      ToldNext(outer, drained, k, consumeds, cs, Contents(shared.consumeds), produceds, ps, Contents(shared.produceds));
    }
    GainedEnd(tracker.targetChanges.updates + tracker.sourceChanges.updates, start, drained, old(pointstamps.updates));
    ToldSame(outer, drained, old(pointstamps.updates), consumeds, Contents(shared.consumeds), produceds,
             Contents(shared.produceds));
    ghost var all := tracker.targetChanges.updates + tracker.sourceChanges.updates;
    ghost var cs, ps := Contents(shared.consumeds), Contents(shared.produceds);
    label after:
    SharedOpened(shared);
    tracker.PropagateAll();
    assert unchanged@after(shared.consumeds) && unchanged@after(shared.produceds) && unchanged@after(shared.internals);
    assert Contents(shared.consumeds) == cs && Contents(shared.produceds) == ps;
    SharedClosed(shared);
    PointCountsSameTally(tracker.View(), view, all, start + InnerOf(old(pointstamps.updates)));
  }

  lemma KeysAmong<T(!new)>(drained: Batch<Point<T>>, us: Batch<Point<T>>)
    requires Keys(drained) <= Keys(us)
    ensures forall k :: 0 <= k < |drained| ==> drained[k].0 in Keys(us)
    ensures InnerOf(drained[..0]) == []
  {
    KeysListed(drained);
  }

  lemma InnerNone<T(!new)>(now: Batch<Point<T>>, u: Update<Point<T>>)
    requires u.0.0.node == 0
    ensures Gained(now, now, InnerOf([u]))
  {
    assert InnerOf([u][..0]) == [];
  }

  lemma GainedEither<T(!new)>(t: Batch<Point<T>>, s: Batch<Point<T>>, t0: Batch<Point<T>>, s0: Batch<Point<T>>,
                              u: Update<Point<T>>)
    requires u.0.0.node != 0
    requires SameTally(t, t0 + if u.0.0.port.TargetPort? then [((u.0.0, u.0.1), u.1)] else [])
    requires SameTally(s, s0 + if u.0.0.port.SourcePort? then [((u.0.0, u.0.1), u.1)] else [])
    ensures Gained(t + s, t0 + s0, InnerOf([u]))
  {
    assert ((u.0.0, u.0.1), u.1) == u && InnerOf([u][..0]) == [] && InnerOf([u]) == [u];
    TallyAppendAll(t, s);
    TallyAppendAll(t0, s0);
    TallyAppendAll(t0, [u]);
    TallyAppendAll(s0, [u]);
    assert t0 + [] == t0 && s0 + [] == s0;
  }

  lemma GainedEnd<T(!new)>(after: Batch<Point<T>>, start: Batch<Point<T>>, drained: Batch<Point<T>>,
                           us: Batch<Point<T>>)
    requires Gained(after, start, InnerOf(drained[..|drained|])) && SameTally(drained, us)
    ensures SameTally(after, start + InnerOf(us))
  {
    assert drained[..|drained|] == drained;
    InnerSame(drained, us);
    TallyAppendAll(start, InnerOf(us));
  }

  lemma PointCountsSameTally<T(!new)>(v': View<T>, v: View<T>, us: Batch<Point<T>>, ws: Batch<Point<T>>)
    requires PointCountsPlus(v', v, us) && SameTally(us, ws)
    ensures PointCountsPlus(v', v, ws)
  {
  }

  /** A tracker that takes in what its worker receives keeps tracking it. */
  lemma CommitTracks<T(!new), S(!new)>(d: Domain<T, S>, g: Graph<S>, before: View<T>, after: View<T>,
                                       received: Batch<Point<T>>, changes: Batch<Point<T>>)
    requires Tracks(d, g, before, received) && Settled(d, g, after) && PointCountsPlus(after, before, changes)
    ensures Tracks(d, g, after, received + changes)
  {
    TallyAppendAll(received, changes);
  }

  lemma SameTallyTrans<K(!new)>(us: Batch<K>, vs: Batch<K>, ws: Batch<K>)
    requires SameTally(us, vs) && SameTally(vs, ws)
    ensures SameTally(us, ws)
  {
  }

  lemma CompactDistinct<K(!new)>(batch: ChangeBatch<K>)
    requires batch.Valid() && batch.clean == |batch.updates|
    ensures forall a, b :: 0 <= a < b < |batch.updates| ==> batch.updates[a].0 != batch.updates[b].0
  {
    assert batch.updates[..batch.clean] == batch.updates;
  }

  lemma NegativeListed<K(!new)>(us: Batch<K>, vs: Batch<K>, k: K) returns (j: nat)
    requires forall a, b :: 0 <= a < b < |us| ==> us[a].0 != us[b].0
    requires SameTally(us, vs) && Tally(vs, k) < 0
    ensures j < |us| && us[j].0 == k && us[j].1 < 0
  {
    TallyListed(us, k);
    j :| 0 <= j < |us| && us[j].0 == k;
    TallyDistinct(us, j);
  }

  lemma NegativeCounts<K(!new)>(us: Batch<K>, vs: Batch<K>, j: nat)
    requires forall a, b :: 0 <= a < b < |us| ==> us[a].0 != us[b].0
    requires SameTally(us, vs) && j < |us| && us[j].1 < 0
    ensures Tally(vs, us[j].0) < 0
  {
    TallyDistinct(us, j);
  }

  /** At its port, removing the pointstamp could matter to the frontier of what is implied. */
  ghost predicate UrgentAt<T(!new)>(o: Order<T>, v: View<T>, q: Point<T>) {
    q.0 in v && Urgent(o, v[q.0].counts, q.1)
  }

  lemma UrgentIs<T(!new), S(!new)>(tracker: Tracker<T, S>, q: Point<T>)
    requires tracker.Valid() && q.0 in tracker.ports
    ensures tracker.IsGlobal(q.0, q.1) <==> UrgentAt(tracker.d.order, tracker.View(), q)
  {
    hide PortInformation.Valid;
    hide PortInformation.IsGlobal;
    hide Urgent;
    hide InBalance;
    hide ChangeBatch.Valid;
    GlobalExactly(tracker.ports[q.0], q.1);
  }

  /** Sends the local changes if told to do so eagerly, or if some of them remove a pointstamp
      whose removal could matter to the scope-wide frontier; otherwise keeps them all. */
  method SendProgress<T(==,!new), S(==,!new)>(eager: bool, tracker: Tracker<T, S>, local: ChangeBatch<Point<T>>,
                                              progcaster: Progcaster<Point<T>>)
    returns (mustSend: bool, ghost sent: Batch<Point<T>>)
    requires tracker.Valid() && local.Valid() && progcaster.Valid()
    requires forall q :: q in Keys(local.updates) ==> q.0 in tracker.ports
    requires (local as object) !in tracker.Repr() && (progcaster as object) !in tracker.Repr()
    requires forall i :: 0 <= i < |progcaster.pushers| ==> (progcaster.pushers[i] as object) !in tracker.Repr()
    modifies local, progcaster, progcaster.pushers
    ensures tracker.Valid() && tracker.View() == old(tracker.View()) && local.Valid()
    ensures eager ==> mustSend
    ensures mustSend && !eager ==>
              exists q: Point<T> ::
                Tally(old(local.updates), q) < 0 && UrgentAt(tracker.d.order, tracker.View(), q)
    ensures mustSend ==> local.updates == [] && SameTally(sent, old(local.updates))
    ensures mustSend ==> progcaster.counter == old(progcaster.counter) + if sent == [] then 0 else 1
    ensures mustSend ==> forall i :: 0 <= i < |progcaster.pushers| ==>
              progcaster.pushers[i].queue ==
                old(progcaster.pushers[i].queue) + if sent ==
                    [] then [] else [Message(progcaster.source, old(progcaster.counter), sent)]
    ensures !mustSend ==>
              SameTally(local.updates, old(local.updates)) && unchanged(progcaster) && unchanged(progcaster.pushers)
    ensures !mustSend ==> forall q: Point<T> :: Tally(old(local.updates), q) < 0 ==>
              !UrgentAt(tracker.d.order, tracker.View(), q)
  {
    hide *;
    TrackerOwns(tracker);
    mustSend := eager;
    sent := [];
    SameTallySelf(local.updates);
    if !mustSend {
      local.Compact();
      KeysListed(local.updates);
      CompactDistinct(local);
      ghost var blocker: nat := 0;
      for k := 0 to |local.updates|
        invariant mustSend ==>
                    && blocker < |local.updates| && local.updates[blocker].1 < 0 &&
                    local.updates[blocker].0.0 in tracker.ports
                    && tracker.IsGlobal(local.updates[blocker].0.0, local.updates[blocker].0.1)
        invariant !mustSend ==> forall j :: 0 <= j < k && local.updates[j].1 < 0 ==>
                    local.updates[j].0.0 in tracker.ports &&
                    !tracker.IsGlobal(local.updates[j].0.0, local.updates[j].0.1)
      {
        if local.updates[k].1 < 0 && tracker.IsGlobal(local.updates[k].0.0, local.updates[k].0.1) {
          mustSend, blocker := true, k;
        }
      }
      if mustSend {
        NegativeCounts(local.updates, old(local.updates), blocker);
        UrgentIs(tracker, local.updates[blocker].0);
      } else {
        forall q: Point<T> | Tally(old(local.updates), q) < 0 ensures !UrgentAt(tracker.d.order, tracker.View(), q) {
          var j := NegativeListed(local.updates, old(local.updates), q);
          UrgentIs(tracker, q);
        }
      }
    }
    if mustSend {
      ghost var compacted := local.updates;
      sent := progcaster.Send(local);
      SameTallyTrans(sent, compacted, old(local.updates));
    }
  }
}
