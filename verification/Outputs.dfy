/** Projecting pointstamps onto the outputs of the scope. */
module Outputs {
  import opened Updates
  import opened ChangeBatches
  import opened Orders
  import opened Sums
  import opened Timestamps
  import opened Graphs
  import opened Propagation
  import opened Ports
  import opened Worklists

  /** How many of the summaries `ss` take `u` to `t`. */
  ghost function ResultCount<T, S>(d: Domain<T, S>, ss: seq<S>, u: T, t: T): nat {
    if ss == [] then 0
    else ResultCount(d, ss[..|ss| - 1], u, t) + (if d.results(ss[|ss| - 1], u) == Some(t) then 1 else 0)
  }

  /** Summaries from locations to each output of the scope. */
  type Summaries<S> = map<Location, seq<seq<S>>>

  function SummariesTo<S>(summaries: Summaries<S>, l: Location, output: nat): seq<S> {
    if l in summaries && output < |summaries[l]| then summaries[l][output] else []
  }

  ghost function ProjectionOf<T, S>(d: Domain<T, S>, summaries: Summaries<S>, output: nat, t: T): Point<T> -> int {
    (p: Point<T>) => ResultCount(d, SummariesTo(summaries, p.0, output), p.1, t)
  }

  /** How often the points `held` result in `t` at an output. */
  ghost function Projected<T(!new), S(!new)>(d: Domain<T, S>, summaries: Summaries<S>, output: nat, held: set<Point<T>>,
                                             t: T): int {
    Sum(held, ProjectionOf(d, summaries, output, t))
  }

  /** `outs'` is `outs` after the projection of `held` has become that of `held'`. */
  ghost predicate Reprojected<T(!new), S(!new)>(d: Domain<T, S>, summaries: Summaries<S>, outs: seq<seq<Update<T>>>,
                                                outs': seq<seq<Update<T>>>, held: set<Point<T>>, held': set<Point<T>>) {
    && |outs'| == |outs|
    && forall o, t :: 0 <= o < |outs| ==>
         Tally(outs'[o], t) - Tally(outs[o], t) ==
             Projected(d, summaries, o, held', t) - Projected(d, summaries, o, held, t)
  }

  /** `outs'` is `outs` with `delta` more for each result of `u` under the summaries of `l`. */
  ghost predicate ProjectedOne<T(!new), S(!new)>(d: Domain<T, S>, ss: seq<seq<S>>, u: T, delta: int,
                                                 outs: seq<seq<Update<T>>>, outs': seq<seq<Update<T>>>) {
    && |outs'| == |outs|
    && forall o, t :: 0 <= o < |outs| ==>
         Tally(outs'[o], t) == Tally(outs[o], t) + delta * ResultCount(d, if o < |ss| then ss[o] else [], u, t)
  }

  lemma ReprojectedStep<T(!new), S(!new)>(d: Domain<T, S>, summaries: Summaries<S>, outs0: seq<seq<Update<T>>>,
                                          outs: seq<seq<Update<T>>>, outs': seq<seq<Update<T>>>,
                                          held0: set<Point<T>>, held: set<Point<T>>, p: Point<T>, delta: int)
    requires Reprojected(d, summaries, outs0, outs, held0, held)
    requires ProjectedOne(d, if p.0 in summaries then summaries[p.0] else [], p.1, delta, outs, outs')
    requires (delta == 1 && p !in held) || (delta == -1 && p in held)
    ensures Reprojected(d, summaries, outs0, outs', held0, Changed(held, p, delta))
  {
    forall o: nat, t ensures Projected(d, summaries, o, Changed(held, p, delta), t)
      == Projected(d, summaries, o, held, t) + delta * ResultCount(d, SummariesTo(summaries, p.0, o), p.1, t)
    {
      var f := ProjectionOf(d, summaries, o, t);
      if delta == 1 {
        SumAdd(held, f, p);
      } else {
        SumRemove(held, f, p);
      }
    }
  }

  ghost predicate BatchesValid<T(!new)>(outputs: seq<ChangeBatch<T>>)
    reads outputs
  {
    && Distinct(outputs)
    && forall o :: 0 <= o < |outputs| ==> outputs[o].Valid()
  }

  ghost function Contents<T(!new)>(outputs: seq<ChangeBatch<T>>): (cs: seq<seq<Update<T>>>)
    reads outputs
  {
    seq(|outputs|, o requires 0 <= o < |outputs| reads outputs => outputs[o].updates)
  }

  /** Records the results of `u` under `ss`. */
  method ProjectOnto<T(==,!new), S(!new)>(d: Domain<T, S>, batch: ChangeBatch<T>, ss: seq<S>, u: T, delta: int)
    requires batch.Valid()
    modifies batch
    ensures batch.Valid()
    ensures forall t :: Tally(batch.updates, t) == Tally(old(batch.updates), t) + delta * ResultCount(d, ss, u, t)
  {
    for k := 0 to |ss|
      invariant batch.Valid()
      invariant forall t ::
                  Tally(batch.updates, t) == Tally(old(batch.updates), t) + delta * ResultCount(d, ss[..k], u, t)
    {
      assert ss[..k + 1][..k] == ss[..k];
      ghost var before := batch.updates;
      var result := d.results(ss[k], u);
      if result.Some? {
        TallyOne(before, result.value, delta);
        batch.Update(result.value, delta);
      }
      forall t ensures Tally(batch.updates, t) ==
          Tally(old(batch.updates), t) + delta * ResultCount(d, ss[..k + 1], u, t) {
        DistributeOne(delta, ResultCount(d, ss[..k], u, t), ResultCount(d, ss[..k + 1], u, t));
      }
    }
    assert ss[..|ss|] == ss;
  }

  /** Records the results of `u` at every output. */
  method Project<T(==,!new), S(!new)>(d: Domain<T, S>, outputs: seq<ChangeBatch<T>>, ss: seq<seq<S>>, u: T, delta: int)
    requires BatchesValid(outputs) && |ss| <= |outputs|
    modifies outputs
    ensures BatchesValid(outputs)
    ensures ProjectedOne(d, ss, u, delta, old(Contents(outputs)), Contents(outputs))
  {
    hide ChangeBatch.Valid;
    hide Tally;
    for o := 0 to |ss|
      invariant BatchesValid(outputs)
      invariant forall k :: o <= k < |outputs| ==> outputs[k].updates == old(outputs[k].updates)
      invariant forall k, t :: 0 <= k < o ==>
        Tally(outputs[k].updates, t) == Tally(old(outputs[k].updates), t) + delta * ResultCount(d, ss[k], u, t)
    {
      ProjectOnto(d, outputs[o], ss[o], u, delta);
    }
  }
}
