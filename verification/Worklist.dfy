/** The worklist of propagation: its order by time and location, how its least entries are popped, and what
    a change of a frontier puts on it. */
module Worklists {
  import opened Updates
  import opened ChangeBatches
  import opened Orders
  import opened Frontiers
  import opened Sums
  import opened Timestamps
  import opened Graphs
  import opened Digraphs
  import opened Propagation
  import opened Trading
  import opened Ports

  predicate PointBelow<T(==)>(lt: (T, T) -> bool, p: Point<T>, q: Point<T>) {
    LocationLess(p.0, q.0) || (p.0 == q.0 && lt(p.1, q.1))
  }

  /** Key order of the change batches: by location, then by time. */
  function PointLess<T(==)>(lt: (T, T) -> bool): (Point<T>, Point<T>) -> bool {
    (p: Point<T>, q: Point<T>) => PointBelow(lt, p, q)
  }

  lemma PointLessTotal<T(!new)>(lt: (T, T) -> bool)
    requires StrictTotal(lt)
    ensures StrictTotal(PointLess(lt))
  {
    forall p: Point<T>, q: Point<T> ensures p == q || PointBelow(lt, p, q) || PointBelow(lt, q, p) {
      assert p.1 == q.1 || lt(p.1, q.1) || lt(q.1, p.1);
    }
    forall p: Point<T>, q: Point<T>, r: Point<T> | PointBelow(lt, p, q) && PointBelow(lt, q, r)
      ensures PointBelow(lt, p, r) {
    }
    PointLessMeans(lt, PointLess(lt));
  }

  lemma PointLessMeans<T(!new)>(lt: (T, T) -> bool, less: (Point<T>, Point<T>) -> bool)
    requires forall p, q :: less(p, q) <==> PointBelow(lt, p, q)
    requires forall p: Point<T> :: !PointBelow(lt, p, p)
    requires forall p: Point<T>, q: Point<T> :: p == q || PointBelow(lt, p, q) || PointBelow(lt, q, p)
    requires forall p: Point<T>, q: Point<T>, r: Point<T> :: PointBelow(lt, p, q) && PointBelow(lt, q, r) ==>
              PointBelow(lt, p, r)
    ensures StrictTotal(less)
  {
  }

  type Entry<T> = Update<Point<T>>

  /** Worklist priority of keys: by time, then by location. */
  predicate KeyLess<T(==)>(lt: (T, T) -> bool, p: Point<T>, q: Point<T>) {
    lt(p.1, q.1) || (p.1 == q.1 && LocationLess(p.0, q.0))
  }

  /** Worklist priority: by time, then by location, then by delta. */
  predicate EntryLess<T(==)>(lt: (T, T) -> bool, e: Entry<T>, f: Entry<T>) {
    KeyLess(lt, e.0, f.0) || (e.0 == f.0 && e.1 < f.1)
  }

  /** Of entries for one point, those that take away come before those that add. */
  lemma EntryOrder<T(!new)>(lt: (T, T) -> bool, p: Point<T>, x: int, y: int)
    requires StrictTotal(lt)
    ensures EntryLess(lt, (p, x), (p, y)) <==> x < y
  {
  }

  lemma EntryLessTrans<T(!new)>(lt: (T, T) -> bool, e: Entry<T>, f: Entry<T>, h: Entry<T>)
    requires StrictTotal(lt) && EntryLess(lt, e, f) && EntryLess(lt, f, h)
    ensures EntryLess(lt, e, h)
  {
  }

  lemma KeyLessTotal<T(!new)>(lt: (T, T) -> bool, p: Point<T>, q: Point<T>)
    requires StrictTotal(lt) && !KeyLess(lt, p, q) && !KeyLess(lt, q, p)
    ensures p == q
  {
    assert p.1 == q.1;
  }

  /** The position of a least entry: what a binary heap pops. */
  method Least<T(==,!new)>(lt: (T, T) -> bool, worklist: seq<Entry<T>>) returns (i: nat)
    requires StrictTotal(lt) && worklist != []
    ensures i < |worklist|
    ensures forall j :: 0 <= j < |worklist| ==> !EntryLess(lt, worklist[j], worklist[i])
  {
    i := 0;
    for k := 1 to |worklist|
      invariant i < |worklist|
      invariant forall j :: 0 <= j < k ==> !EntryLess(lt, worklist[j], worklist[i])
    {
      if EntryLess(lt, worklist[k], worklist[i]) {
        forall j | 0 <= j <= k ensures !EntryLess(lt, worklist[j], worklist[k]) {
          if EntryLess(lt, worklist[j], worklist[k]) {
            EntryLessTrans(lt, worklist[j], worklist[k], worklist[i]);
          }
        }
        i := k;
      }
    }
  }

  /** Pops a least entry together with all others at its location and time; `delta` is their sum. */
  method PopKey<T(==,!new)>(lt: (T, T) -> bool, worklist: seq<Entry<T>>)
    returns (key: Point<T>, delta: int, rest: seq<Entry<T>>)
    requires StrictTotal(lt) && worklist != []
    ensures key in Keys(worklist) && Keys(rest) == Keys(worklist) - {key}
    ensures delta == Tally(worklist, key)
    ensures |rest| < |worklist| && forall e :: e in rest ==> e in worklist && e.0 != key
    ensures forall q :: Tally(rest, q) == Tally(worklist, q) - (if q == key then delta else 0)
    ensures forall q :: q in Keys(worklist) ==> !KeyLess(lt, q, key)
  {
    var i := Least(lt, worklist);
    key, delta := worklist[i].0, worklist[i].1;
    assert worklist[i] in worklist;
    rest := RemoveAt(worklist, i);
    RemoveAtKeys(worklist, i);
    forall q ensures Tally(rest, q) == Tally(worklist, q) - (if q == key then delta else 0) {
      TallyRemoveAt(worklist, i, q);
    }
    var more := true;
    while more
      invariant |rest| < |worklist| && forall e :: e in rest ==> e in worklist
      invariant forall e :: e in worklist && e.0 != key ==> e in rest
      invariant forall q :: Tally(rest, q) == Tally(worklist, q) - (if q == key then delta else 0)
      invariant !more ==> forall e :: e in rest ==> e.0 != key
      decreases |rest|, more
    {
      if rest == [] {
        more := false;
      } else {
        i := Least(lt, rest);
        if rest[i].0 == key {
          var before := rest;
          delta := delta + rest[i].1;
          RemoveAtKeys(rest, i);
          rest := RemoveAt(rest, i);
          forall q ensures Tally(rest, q) == Tally(worklist, q) - (if q == key then delta else 0) {
            TallyRemoveAt(before, i, q);
          }
        } else {
          more := false;
          forall e | e in rest ensures e.0 != key {
            var j :| 0 <= j < |rest| && rest[j] == e;
            assert rest[i] in worklist;
            if e.0 == key {
              KeyLessTotal(lt, rest[i].0, key);
            }
          }
        }
      }
    }
    TallyNoKey(rest, key);
    KeysRest(worklist, rest, key);
  }

  lemma RemoveAtKeys<K(!new)>(us: seq<Update<K>>, i: nat)
    requires i < |us|
    ensures forall e :: e in RemoveAt(us, i) ==> e in us
    ensures forall e :: e in us && e.0 != us[i].0 ==> e in RemoveAt(us, i)
  {
    assert us == us[..i] + ([us[i]] + us[i + 1..]);
  }

  lemma TallyNoKey<K(!new)>(us: seq<Update<K>>, k: K)
    requires forall e :: e in us ==> e.0 != k
    ensures Tally(us, k) == 0
  {
    TallyAbsent(us, k);
  }

  lemma KeysRest<K(!new)>(us: seq<Update<K>>, rest: seq<Update<K>>, key: K)
    requires forall e :: e in rest ==> e in us && e.0 != key
    requires forall e :: e in us && e.0 != key ==> e in rest
    ensures Keys(rest) == Keys(us) - {key}
  {
    forall k ensures k in Keys(rest) <==> k in Keys(us) - {key} {
      if k in Keys(us) && k != key {
        var e :| e in us && e.0 == k;
        assert e in rest;
      }
    }
  }

  // ---- applying a frontier's changes one at a time ----

  /** `s` is `s0` after the first `i` of the changes `cs` at `l`. */
  ghost predicate Partly<T(!new)>(s0: set<Point<T>>, l: Location, cs: seq<Update<T>>, i: nat, s: set<Point<T>>)
    requires i <= |cs|
  {
    forall q :: (if q in s then 1 else 0) == (if q in s0 then 1 else 0) + (if q.0 == l then Tally(cs[..i], q.1) else 0)
  }

  lemma PartlyStart<T(!new)>(s0: set<Point<T>>, l: Location, cs: seq<Update<T>>)
    ensures Partly(s0, l, cs, 0, s0)
  {
    assert cs[..0] == [];
  }

  function Changed<T(==)>(s: set<Point<T>>, p: Point<T>, delta: int): set<Point<T>> {
    if delta == 1 then s + {p} else s - {p}
  }

  lemma PartlyStep<T(!new)>(s0: set<Point<T>>, l: Location, cs: seq<Update<T>>, i: nat, s: set<Point<T>>,
                            before: seq<T>, after: seq<T>)
    requires i < |cs| && Partly(s0, l, cs, i, s) && FrontierChange(cs, before, after)
    requires forall t :: (l, t) in s0 <==> t in before
    ensures cs[i].1 == 1 ==> (l, cs[i].0) !in s
    ensures cs[i].1 == -1 ==> (l, cs[i].0) in s
    ensures Partly(s0, l, cs, i + 1, Changed(s, (l, cs[i].0), cs[i].1))
  {
    var u := cs[i];
    TallyAbsent(cs[..i], u.0);
    TallyDistinct(cs, i);
    assert Tally(cs, u.0) == Mem(after, u.0) - Mem(before, u.0);
    assert (if (l, u.0) in s then 1 else 0) == (if (l, u.0) in s0 then 1 else 0);
    assert cs[..i + 1] == cs[..i] + [u];
    TallyOne(cs[..i], u.0, u.1);
    var s' := Changed(s, (l, u.0), u.1);
    forall q ensures (if q in s' then 1 else 0) ==
        (if q in s0 then 1 else 0) + (if q.0 == l then Tally(cs[..i + 1], q.1) else 0) {
      assert (if q in s then 1 else 0) == (if q in s0 then 1 else 0) + (if q.0 == l then Tally(cs[..i], q.1) else 0);
      if q == (l, u.0) {
        assert q.0 == l && q.1 == u.0;
      } else if q.0 == l {
        assert q == (l, q.1) && q.1 != u.0;
      }
    }
  }

  lemma PartlyDone<T(!new)>(s0: set<Point<T>>, l: Location, cs: seq<Update<T>>, s: set<Point<T>>, before: seq<T>,
                            after: seq<T>, s': set<Point<T>>)
    requires Partly(s0, l, cs, |cs|, s) && FrontierChange(cs, before, after)
    requires forall q :: q in s0 <==> if q.0 == l then q.1 in before else q in s'
    requires forall q :: q in s' <==> if q.0 == l then q.1 in after else q in s0
    ensures s == s'
  {
    assert cs[..|cs|] == cs;
    forall q ensures q in s <==> q in s' {
      assert (if q in s then 1 else 0) == (if q in s0 then 1 else 0) + (if q.0 == l then Tally(cs, q.1) else 0);
    }
  }

  lemma ImpliedChanged<T(!new)>(v: View<T>, v': View<T>, l: Location, t: T, delta: int, cs: seq<Update<T>>)
    requires ImplicationsChanged(v, v', l, t, delta, cs)
    ensures forall q :: q in Implied(v) <==> if q.0 == l then q.1 in v[l].frontier else q in Implied(v')
    ensures forall q :: q in Implied(v') <==> if q.0 == l then q.1 in v'[l].frontier else q in Implied(v)
    ensures Held(v') == Held(v)
  {
    hide CountsPlus;
    hide FrontierChange;
    forall q ensures q in Held(v') <==> q in Held(v) {
      assert q == (q.0, q.1);
    }
    forall q ensures q in Implied(v') <==> if q.0 == l then q.1 in v'[l].frontier else q in Implied(v) {
      assert q == (q.0, q.1);
    }
  }

  lemma HeldChanged<T(!new)>(v: View<T>, v': View<T>, l: Location, t: T, delta: int, cs: seq<Update<T>>)
    requires PointsChanged(v, v', l, t, delta, cs)
    ensures forall q :: q in Held(v) <==> if q.0 == l then q.1 in v[l].points else q in Held(v')
    ensures forall q :: q in Held(v') <==> if q.0 == l then q.1 in v'[l].points else q in Held(v)
    ensures Implied(v') == Implied(v)
  {
    hide CountsPlus;
    hide FrontierChange;
    forall q ensures q in Implied(v') <==> q in Implied(v) {
      assert q == (q.0, q.1);
    }
    forall q ensures q in Held(v') <==> if q.0 == l then q.1 in v'[l].points else q in Held(v) {
      assert q == (q.0, q.1);
    }
  }

  // ---- forwarding one change along the hops of a location ----

  /** `q` is where some hop of `hops` takes `t`. */
  ghost predicate OneHop<T, S>(d: Domain<T, S>, hops: seq<Hop<S>>, t: T, q: Point<T>) {
    exists h :: h in hops && h.to == q.0 && Act(d, h, t) == Some(q.1)
  }

  /** Pushes the consequences of a frontier change onto the worklist. */
  method Forward<T(==,!new), S(!new)>(d: Domain<T, S>, hops: seq<Hop<S>>, t: T, delta: int, worklist: seq<Entry<T>>)
    returns (worklist': seq<Entry<T>>)
    ensures forall q :: Tally(worklist', q) == Tally(worklist, q) + delta * HopCount(d, hops, t, q)
    ensures forall e :: e in worklist' ==> e in worklist || (e.1 == delta && OneHop(d, hops, t, e.0))
  {
    worklist' := worklist;
    for k := 0 to |hops|
      invariant forall q :: Tally(worklist', q) == Tally(worklist, q) + delta * HopCount(d, hops[..k], t, q)
      invariant forall e :: e in worklist' ==> e in worklist || (e.1 == delta && OneHop(d, hops, t, e.0))
    {
      assert hops[..k + 1] == hops[..k] + [hops[k]];
      ghost var before := worklist';
      var hop := hops[k];
      var result := Act(d, hop, t);
      if result.Some? {
        worklist' := worklist' + [((hop.to, result.value), delta)];
        TallyOne(before, (hop.to, result.value), delta);
        assert OneHop(d, hops, t, (hop.to, result.value));
      }
      forall q ensures Tally(worklist', q) == Tally(worklist, q) + delta * HopCount(d, hops[..k + 1], t, q) {
        HopCountAppend(d, hops[..k], hop, t, q);
        DistributeOne(delta, HopCount(d, hops[..k], t, q), HopCount(d, hops[..k + 1], t, q));
      }
    }
    assert hops[..|hops|] == hops;
  }

  lemma DistributeOne(delta: int, m: int, n: int)
    requires n == m || n == m + 1
    ensures delta * n == delta * m + (if n == m then 0 else delta)
  {
  }

  lemma KeysAppend<K(!new)>(us: seq<Update<K>>, k: K, delta: int)
    ensures Keys(us + [(k, delta)]) == Keys(us) + {k}
  {
    var vs := us + [(k, delta)];
    forall x ensures x in Keys(vs) <==> x in Keys(us) + {k} {
      if x in Keys(us) {
        var u :| u in us && u.0 == x;
        assert u in vs;
      }
      if x == k {
        assert vs[|us|] == (k, delta);
        assert (k, delta) in vs;
      }
    }
  }
}
