/** Changes of pointstamps at the ports of child zero, which stands for the parent scope: they are not tracked
    inside, and the parent is told of them instead. A capability of child zero that goes is a message
    consumed from the parent, and a message to child zero is one produced for it. Times are those of the
    parent, so that several times inside may surface as one. */
module Surfacing {
  import opened Updates
  import opened Sums
  import opened ChangeBatches
  import opened Graphs
  import opened Propagation
  import opened Outputs
  import opened Broadcast

  /** The changes that are not at child zero. */
  function InnerOf<T>(us: Batch<Point<T>>): Batch<Point<T>> {
    if us == [] then []
    else
      var last := |us| - 1;
      InnerOf(us[..last]) + if us[last].0.0.node == 0 then [] else [us[last]]
  }

  lemma {:induction false} InnerTally<T(!new)>(us: Batch<Point<T>>, q: Point<T>)
    ensures Tally(InnerOf(us), q) == if q.0.node == 0 then 0 else Tally(us, q)
  {
    if us != [] {
      var last := |us| - 1;
      InnerTally(us[..last], q);
      assert us == us[..last] + [us[last]];
      TallyAppend(us[..last], [us[last]], q);
      TallyAppend(InnerOf(us[..last]), if us[last].0.0.node == 0 then [] else [us[last]], q);
    }
  }

  /** The changes at `l`, as changes of times of the parent scope. */
  function Surfaced<T, O>(outer: T -> O, us: Batch<Point<T>>, l: Location): seq<Update<O>> {
    if us == [] then []
    else
      var last := |us| - 1;
      Surfaced(outer, us[..last], l) + if us[last].0.0 == l then [(outer(us[last].0.1), us[last].1)] else []
  }

  lemma SurfacedNext<T, O>(outer: T -> O, us: Batch<Point<T>>, k: nat, l: Location)
    requires k < |us|
    ensures Surfaced(outer, us[..k + 1], l) ==
              Surfaced(outer, us[..k], l) + if us[k].0.0 == l then [(outer(us[k].0.1), us[k].1)] else []
  {
    assert us[..k + 1][..k] == us[..k];
  }

  lemma InnerNext<T>(us: Batch<Point<T>>, k: nat)
    requires k < |us|
    ensures InnerOf(us[..k + 1]) == InnerOf(us[..k]) + InnerOf([us[k]])
  {
    assert us[..k + 1][..k] == us[..k] && InnerOf([us[k]][..0]) == [];
  }

  lemma {:induction false} InnerSame<T(!new)>(us: Batch<Point<T>>, vs: Batch<Point<T>>)
    requires SameTally(us, vs)
    ensures SameTally(InnerOf(us), InnerOf(vs))
  {
    forall q ensures Tally(InnerOf(us), q) == Tally(InnerOf(vs), q) {
      InnerTally(us, q);
      InnerTally(vs, q);
    }
  }

  ghost function Without<K>(us: seq<Update<K>>, k: K): (r: seq<Update<K>>)
    ensures |r| <= |us|
  {
    if us == [] then []
    else
      var last := |us| - 1;
      Without(us[..last], k) + if us[last].0 == k then [] else [us[last]]
  }

  lemma {:induction false} WithoutTally<K(!new)>(us: seq<Update<K>>, k: K)
    ensures forall j :: Tally(Without(us, k), j) == if j == k then 0 else Tally(us, j)
    ensures k in Keys(us) ==> |Without(us, k)| < |us|
  {
    if us != [] {
      var last := |us| - 1;
      WithoutTally(us[..last], k);
      assert us == us[..last] + [us[last]];
      TallyOne(us[..last], us[last].0, us[last].1);
      TallyOne(Without(us[..last], k), us[last].0, us[last].1);
      assert Without(us[..last], k) + [] == Without(us[..last], k);
      assert k in Keys(us) && us[last].0 != k ==> k in Keys(us[..last]);
    }
  }

  lemma SurfacedOne<T(!new), O(!new)>(outer: T -> O, us: Batch<Point<T>>, v: Update<Point<T>>, l: Location, u: O)
    ensures Tally(Surfaced(outer, us + [v], l), u) ==
              Tally(Surfaced(outer, us, l), u) + if v.0.0 == l && outer(v.0.1) == u then v.1 else 0
  {
    assert (us + [v])[..|us|] == us;
    TallyOne(Surfaced(outer, us, l), outer(v.0.1), v.1);
    assert Surfaced(outer, us, l) + [] == Surfaced(outer, us, l);
  }

  lemma WithoutOne<K>(us: seq<Update<K>>, v: Update<K>, k: K)
    ensures Without(us + [v], k) == if v.0 == k then Without(us, k) else Without(us, k) + [v]
  {
    assert (us + [v])[..|us|] == us;
  }

  lemma {:induction false} SurfacedWithout<T(!new), O(!new)>(outer: T -> O, us: Batch<Point<T>>, l: Location,
                                                             k: Point<T>, u: O)
    ensures Tally(Surfaced(outer, us, l), u) ==
              Tally(Surfaced(outer, Without(us, k), l), u) + if k.0 == l && outer(k.1) == u then Tally(us, k) else 0
  {
    if us != [] {
      hide Tally;
      hide Surfaced;
      hide Without;
      var last := |us| - 1;
      SurfacedWithout(outer, us[..last], l, k, u);
      assert us == us[..last] + [us[last]];
      TallyOne(us[..last], us[last].0, us[last].1);
      SurfacedOne(outer, us[..last], us[last], l, u);
      SurfacedOne(outer, Without(us[..last], k), us[last], l, u);
      WithoutOne(us[..last], us[last], k);
    }
  }

  ghost function CountAt<T(!new), O(!new)>(outer: T -> O, us: Batch<Point<T>>, l: Location, u: O): Point<T> -> int {
    (k: Point<T>) => if k.0 == l && outer(k.1) == u then Tally(us, k) else 0
  }

  lemma {:induction false} WithoutKeys<K(!new)>(us: seq<Update<K>>, k: K)
    ensures forall j :: j in Keys(Without(us, k)) <==> j in Keys(us) && j != k
  {
    if us != [] {
      hide Keys;
      hide Without;
      var last := |us| - 1;
      WithoutKeys(us[..last], k);
      WithoutOne(us[..last], us[last], k);
      assert us == us[..last] + [us[last]];
      KeysOneMore(us[..last], us[last]);
      KeysOneMore(Without(us[..last], k), us[last]);
    }
  }

  lemma SomeKey<K(!new)>(us: seq<Update<K>>)
    ensures us != [] ==> Keys(us) != {}
  {
    if us != [] {
      assert us[0].0 in Keys(us);
    }
  }

  lemma KeysOneMore<K(!new)>(us: seq<Update<K>>, v: Update<K>)
    ensures forall j :: j in Keys(us + [v]) <==> j in Keys(us) || j == v.0
  {
    forall j | j in Keys(us) ensures j in Keys(us + [v]) {
      var e :| e in us && e.0 == j;
      assert e in us + [v];
    }
    assert v in us + [v];
  }

  /** The parent's count of a time is the sum of the counts of all times inside that surface as it. */
  lemma {:induction false} SurfacedTally<T(!new), O(!new)>(outer: T -> O, us: Batch<Point<T>>, l: Location, u: O,
                                                           ks: set<Point<T>>)
    requires Keys(us) <= ks
    ensures Tally(Surfaced(outer, us, l), u) == Sum(ks, CountAt(outer, us, l, u))
    decreases |ks|
  {
    if ks == {} {
      SomeKey(us);
    } else {
      var k :| k in ks;
      WithoutKeys(us, k);
      WithoutTally(us, k);
      SurfacedTally(outer, Without(us, k), l, u, ks - {k});
      SurfacedWithout(outer, us, l, k, u);
      SumRemove(ks, CountAt(outer, us, l, u), k);
      SumSame(ks - {k}, CountAt(outer, us, l, u), CountAt(outer, Without(us, k), l, u));
    }
  }

  /** Batches that amount to the same changes surface as the same. */
  lemma {:induction false} SurfacedSame<T(!new), O(!new)>(outer: T -> O, us: Batch<Point<T>>, vs: Batch<Point<T>>,
                                                          l: Location)
    requires SameTally(us, vs)
    ensures SameTally(Surfaced(outer, us, l), Surfaced(outer, vs, l))
    decreases |us| + |vs|
  {
    if us != [] || vs != [] {
      var k := if us != [] then us[0].0 else vs[0].0;
      assert k in Keys(us) || k in Keys(vs);
      WithoutTally(us, k);
      WithoutTally(vs, k);
      SurfacedSame(outer, Without(us, k), Without(vs, k), l);
      forall u ensures Tally(Surfaced(outer, us, l), u) == Tally(Surfaced(outer, vs, l), u) {
        SurfacedWithout(outer, us, l, k, u);
        SurfacedWithout(outer, vs, l, k, u);
      }
    }
  }

  /** What the parent scope is told of the changes `us`: capabilities of child zero are messages consumed
      from the parent, with their sign reversed, and messages to child zero are messages produced for it. */
  ghost predicate Told<T(!new), O(!new)>(outer: T -> O, us: Batch<Point<T>>, consumeds: seq<seq<Update<O>>>,
                                         consumeds': seq<seq<Update<O>>>, produceds: seq<seq<Update<O>>>,
                                         produceds': seq<seq<Update<O>>>) {
    && |consumeds'| == |consumeds| && |produceds'| == |produceds|
    && (forall i :: 0 <= i < |consumeds| ==>
          Gained(consumeds'[i], consumeds[i], Negated(Surfaced(outer, us, Location(0, SourcePort(i))))))
    && (forall o :: 0 <= o < |produceds| ==>
          Gained(produceds'[o], produceds[o], Surfaced(outer, us, Location(0, TargetPort(o)))))
  }

  /** The same for one change, which matters at its own port only. */
  ghost predicate ToldOne<T(!new), O(!new)>(outer: T -> O, u: Update<Point<T>>, consumeds: seq<seq<Update<O>>>,
                                            consumeds': seq<seq<Update<O>>>, produceds: seq<seq<Update<O>>>,
                                            produceds': seq<seq<Update<O>>>) {
    && |consumeds'| == |consumeds| && |produceds'| == |produceds|
    && (forall i :: 0 <= i < |consumeds| ==>
          if u.0.0 == Location(0, SourcePort(i)) then SameTally(consumeds'[i], consumeds[i] + [(outer(u.0.1), -u.1)])
          else consumeds'[i] == consumeds[i])
    && (forall o :: 0 <= o < |produceds| ==>
          if u.0.0 == Location(0, TargetPort(o)) then SameTally(produceds'[o], produceds[o] + [(outer(u.0.1), u.1)])
          else produceds'[o] == produceds[o])
  }

  lemma ToldNone<T(!new), O(!new)>(outer: T -> O, u: Update<Point<T>>, consumeds: seq<seq<Update<O>>>,
                                   produceds: seq<seq<Update<O>>>)
    requires u.0.0.node != 0
    ensures ToldOne(outer, u, consumeds, consumeds, produceds, produceds)
  {
  }

  lemma ToldNothing<T(!new), O(!new)>(outer: T -> O, us: Batch<Point<T>>, consumeds: seq<seq<Update<O>>>,
                                      produceds: seq<seq<Update<O>>>)
    ensures Told(outer, us[..0], consumeds, consumeds, produceds, produceds)
  {
    assert Negated<O>([]) == [];
  }

  /** In numbers: the count of messages consumed at an input of the scope falls by what the capabilities
      there amount to, so that it rises as they go, and that of messages produced at an output rises by the
      messages there. */
  lemma ToldMeans<T(!new), O(!new)>(outer: T -> O, us: Batch<Point<T>>, consumeds: seq<seq<Update<O>>>,
                                    consumeds': seq<seq<Update<O>>>, produceds: seq<seq<Update<O>>>,
                                    produceds': seq<seq<Update<O>>>, i: nat, u: O)
    requires Told(outer, us, consumeds, consumeds', produceds, produceds')
    ensures i < |consumeds| ==>
              Tally(consumeds'[i], u) ==
                Tally(consumeds[i], u) - Sum(Keys(us), CountAt(outer, us, Location(0, SourcePort(i)), u))
    ensures i < |produceds| ==>
              Tally(produceds'[i], u) ==
                Tally(produceds[i], u) + Sum(Keys(us), CountAt(outer, us, Location(0, TargetPort(i)), u))
  {
    hide Surfaced;
    SurfacedTally(outer, us, Location(0, SourcePort(i)), u, Keys(us));
    SurfacedTally(outer, us, Location(0, TargetPort(i)), u, Keys(us));
    NegatedTally(Surfaced(outer, us, Location(0, SourcePort(i))), u);
  }

  lemma ToldSame<T(!new), O(!new)>(outer: T -> O, us: Batch<Point<T>>, vs: Batch<Point<T>>,
                                   consumeds: seq<seq<Update<O>>>, consumeds': seq<seq<Update<O>>>,
                                   produceds: seq<seq<Update<O>>>, produceds': seq<seq<Update<O>>>)
    requires Told(outer, us[..|us|], consumeds, consumeds', produceds, produceds') && SameTally(us, vs)
    ensures Told(outer, vs, consumeds, consumeds', produceds, produceds')
  {
    hide Surfaced;
    assert us[..|us|] == us;
    forall i | 0 <= i < |consumeds|
      ensures Gained(consumeds'[i], consumeds[i], Negated(Surfaced(outer, vs, Location(0, SourcePort(i)))))
    {
      SurfacedSame(outer, us, vs, Location(0, SourcePort(i)));
      NegatedSame(Surfaced(outer, us, Location(0, SourcePort(i))), Surfaced(outer, vs, Location(0, SourcePort(i))));
    }
    forall o | 0 <= o < |produceds|
      ensures Gained(produceds'[o], produceds[o], Surfaced(outer, vs, Location(0, TargetPort(o))))
    {
      SurfacedSame(outer, us, vs, Location(0, TargetPort(o)));
    }
  }

  lemma NegatedSame<K(!new)>(us: Batch<K>, vs: Batch<K>)
    requires SameTally(us, vs)
    ensures SameTally(Negated(us), Negated(vs))
  {
    forall k ensures Tally(Negated(us), k) == Tally(Negated(vs), k) {
      NegatedTally(us, k);
      NegatedTally(vs, k);
    }
  }

  lemma ToldNext<T(!new), O(!new)>(outer: T -> O, us: Batch<Point<T>>, k: nat, consumeds: seq<seq<Update<O>>>,
                                   now: seq<seq<Update<O>>>, consumeds': seq<seq<Update<O>>>,
                                   produceds: seq<seq<Update<O>>>, pnow: seq<seq<Update<O>>>,
                                   produceds': seq<seq<Update<O>>>)
    requires k < |us| && Told(outer, us[..k], consumeds, now, produceds, pnow)
    requires ToldOne(outer, us[k], now, consumeds', pnow, produceds')
    ensures Told(outer, us[..k + 1], consumeds, consumeds', produceds, produceds')
  {
    hide Surfaced;
    forall i | 0 <= i < |consumeds|
      ensures Gained(consumeds'[i], consumeds[i], Negated(Surfaced(outer, us[..k + 1], Location(0, SourcePort(i)))))
    {
      SurfacedNext(outer, us, k, Location(0, SourcePort(i)));
      NegatedAdds(consumeds[i], now[i], consumeds'[i], Surfaced(outer, us[..k], Location(0, SourcePort(i))),
                  us[k].0.0 == Location(0, SourcePort(i)), outer(us[k].0.1), us[k].1);
    }
    forall o | 0 <= o < |produceds|
      ensures Gained(produceds'[o], produceds[o], Surfaced(outer, us[..k + 1], Location(0, TargetPort(o))))
    {
      SurfacedNext(outer, us, k, Location(0, TargetPort(o)));
      Adds(produceds[o], pnow[o], produceds'[o], Surfaced(outer, us[..k], Location(0, TargetPort(o))),
           us[k].0.0 == Location(0, TargetPort(o)), outer(us[k].0.1), us[k].1);
    }
  }

  lemma Adds<K(!new)>(before: Batch<K>, now: Batch<K>, after: Batch<K>, more: Batch<K>, here: bool, k: K, delta: int)
    requires Gained(now, before, more) && if here then SameTally(after, now + [(k, delta)]) else after == now
    ensures Gained(after, before, more + if here then [(k, delta)] else [])
  {
    TallyAppendAll(now, [(k, delta)]);
    TallyAppendAll(more, if here then [(k, delta)] else []);
  }

  lemma NegatedAdds<K(!new)>(before: Batch<K>, now: Batch<K>, after: Batch<K>, more: Batch<K>, here: bool, k: K,
                             delta: int)
    requires Gained(now, before, Negated(more)) && if here then SameTally(after, now + [(k, -delta)]) else after == now
    ensures Gained(after, before, Negated(more + if here then [(k, delta)] else []))
  {
    var last, gone := if here then [(k, delta)] else [], if here then [(k, -delta)] else [];
    Adds(before, now, after, Negated(more), here, k, -delta);
    NegatedTallyAll(more);
    NegatedTallyAll(more + last);
    TallyAppendAll(more, last);
    TallyAppendAll(Negated(more), gone);
    NegatedTallyAll(last);
    assert Negated(last) == gone;
  }

  lemma NegatedTallyAll<K(!new)>(us: Batch<K>)
    ensures forall k :: Tally(Negated(us), k) == -Tally(us, k)
  {
    forall k ensures Tally(Negated(us), k) == -Tally(us, k) {
      NegatedTally(us, k);
    }
  }

  predicate AtPort(l: Location, inputs: nat, outputs: nat) {
    match l.port case SourcePort(i) => i < inputs case TargetPort(o) => o < outputs
  }

  /** Tells the parent scope of a change at child zero. */
  method Tell<T(!new), O(==,!new)>(outer: T -> O, u: Update<Point<T>>, consumeds: seq<ChangeBatch<O>>,
                                   produceds: seq<ChangeBatch<O>>)
    requires BatchesValid(consumeds) && BatchesValid(produceds)
    requires u.0.0.node == 0 && AtPort(u.0.0, |consumeds|, |produceds|)
    requires forall i, j :: 0 <= i < |consumeds| && 0 <= j < |produceds| ==> consumeds[i] != produceds[j]
    modifies consumeds, produceds
    ensures BatchesValid(consumeds) && BatchesValid(produceds)
    ensures ToldOne(outer, u, old(Contents(consumeds)), Contents(consumeds), old(Contents(produceds)),
                    Contents(produceds))
  {
    hide ChangeBatch.Valid;
    hide SameTally;
    match u.0.0.port
    case SourcePort(i) => consumeds[i].Update(outer(u.0.1), -u.1);
    case TargetPort(o) => produceds[o].Update(outer(u.0.1), u.1);
  }
}
