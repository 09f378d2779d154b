/** Why propagation ends on every graph, cycles included. */
module Convergence {
  import opened Updates
  import opened Orders
  import opened Timestamps
  import opened Graphs
  import opened Propagation
  import opened Trading
  import opened Ports
  import opened Worklists

  // ---- one iteration ----

  /** The entry `e` passes on, along one hop from `l`, that a time entered or left the frontier there. */
  ghost predicate PassesOn<T(!new), S(!new)>(d: Domain<T, S>, g: Graph<S>, before: set<Point<T>>, after: set<Point<T>>,
                                             l: Location, e: Entry<T>) {
    exists u :: PassesOnFrom(d, g, before, after, (l, u), e)
  }

  ghost predicate PassesOnFrom<T, S(!new)>(d: Domain<T, S>, g: Graph<S>, before: set<Point<T>>, after: set<Point<T>>,
                                           p: Point<T>, e: Entry<T>) {
    && OneHop(d, Hops(g, p.0), p.1, e.0)
    && if e.1 > 0 then p in after && p !in before else p in before && p !in after
  }

  /** The implication count at `key` has grown by `delta`, and nothing else has changed but the frontier there. */
  ghost predicate Applied<T(!new)>(v: View<T>, v': View<T>, key: Point<T>, delta: int) {
    && key.0 in v && v'.Keys == v.Keys
    && v' == v[key.0 := v[key.0].(counts := v'[key.0].counts, frontier := v'[key.0].frontier)]
    && CountsPlus(v'[key.0].counts, v[key.0].counts, key.1, delta)
  }

  /** What remains on the worklist: entries at other keys, and ones that pass on changes of the frontier. */
  ghost predicate Requeued<T(!new), S(!new)>(d: Domain<T, S>, g: Graph<S>, before: set<Point<T>>, after: set<Point<T>>,
                                             worklist: seq<Entry<T>>, worklist': seq<Entry<T>>, key: Point<T>) {
    && (forall e :: e in worklist' ==> (e in worklist && e.0 != key) || PassesOn(d, g, before, after, key.0, e))
    && (before == after ==> |worklist'| < |worklist|)
  }

  /** One iteration of propagation. */
  ghost predicate Stepped<T(!new), S(!new)>(d: Domain<T, S>, g: Graph<S>, v: View<T>, v': View<T>,
                                            worklist: seq<Entry<T>>, worklist': seq<Entry<T>>, key: Point<T>) {
    && key in Keys(worklist) && (forall q :: q in Keys(worklist) ==> !KeyLess(d.order.lt, q, key))
    && Applied(v, v', key, Tally(worklist, key))
    && Requeued(d, g, Implied(v), Implied(v'), worklist, worklist', key)
  }

  // ---- what the change of one count does to a frontier ----

  /** Raising a count takes nothing minimal out, and lowering it lets nothing in that was not. */
  lemma StaysPut<T(!new)>(o: Order<T>, us: seq<Update<T>>, vs: seq<Update<T>>, t: T, delta: int, f: seq<T>, f': seq<T>)
    requires Lawful(o) && IsFrontier(o, us, f) && IsFrontier(o, vs, f') && CountsPlus(vs, us, t, delta)
    ensures t in f && delta >= 0 ==> t in f'
    ensures t !in f && delta <= 0 ==> t !in f'
  {
    assert t in f <==> MinimalPositive(o, us, t);
    assert t in f' <==> MinimalPositive(o, vs, t);
    if t !in f && delta <= 0 && Tally(us, t) > 0 {
      var x :| Tally(us, x) > 0 && o.le(x, t) && x != t;
      assert Tally(vs, x) > 0;
    }
  }

  /** If the time whose count changes neither enters nor leaves, the frontier stays the same. */
  lemma NothingMoves<T(!new)>(o: Order<T>, us: seq<Update<T>>, vs: seq<Update<T>>, t: T, delta: int, f: seq<T>,
                              f': seq<T>, x: T)
    requires Lawful(o) && IsFrontier(o, us, f) && IsFrontier(o, vs, f') && CountsPlus(vs, us, t, delta)
    requires t in f <==> t in f'
    ensures x in f <==> x in f'
  {
    if x != t {
      if x in f {
        OthersStay(o, us, vs, t, delta, f, f', x);
      }
      if x in f' {
        OthersStay(o, vs, us, t, -delta, f', f, x);
      }
    }
  }

  lemma OthersStay<T(!new)>(o: Order<T>, us: seq<Update<T>>, vs: seq<Update<T>>, t: T, delta: int, f: seq<T>,
                            f': seq<T>, x: T)
    requires Lawful(o) && IsFrontier(o, us, f) && IsFrontier(o, vs, f') && CountsPlus(vs, us, t, delta)
    requires (t in f <==> t in f') && x in f && x != t
    ensures x in f'
  {
    assert MinimalPositive(o, us, x) && Tally(vs, x) > 0;
    forall y | Tally(vs, y) > 0 && o.le(y, x) ensures y == x {
      if y == t {
        var m := MinimalExists(o, vs, t);
      }
    }
    assert MinimalPositive(o, vs, x);
  }

  // ---- the measure ----

  /** All points of a graph. */
  ghost function AllPoints<T, S>(d: Domain<T, S>, g: Graph<S>): set<Point<T>> {
    set l, t | l in Locations(g) && t in d.times :: (l, t)
  }

  /** A point, which is fresh until its time enters or leaves the frontier there, and again once that
      happens for an earlier time anywhere, or for the same time at a greater location. */
  type Token<T> = (Point<T>, bool)

  ghost predicate TokenAfter<T>(lt: (T, T) -> bool, a: Token<T>, b: Token<T>) {
    || lt(a.0.1, b.0.1)
    || (a.0.1 == b.0.1 && LocationLess(b.0.0, a.0.0))
    || (a.0 == b.0 && a.1 && !b.1)
  }

  ghost function TokenOrder<T(!new)>(lt: (T, T) -> bool): (Token<T>, Token<T>) -> bool {
    (a, b) => TokenAfter(lt, a, b)
  }

  lemma TokensPartial<T(!new)>(lt: (T, T) -> bool)
    requires StrictTotal(lt)
    ensures StrictPartial(TokenOrder(lt))
  {
    forall a: Token<T>, b: Token<T>, c: Token<T> | TokenAfter(lt, a, b) && TokenAfter(lt, b, c)
      ensures TokenAfter(lt, a, c) {
    }
  }

  ghost function AllTokens<T(!new)>(all: set<Point<T>>): set<Token<T>> {
    (set p | p in all :: (p, true)) + (set p | p in all :: (p, false))
  }

  ghost function TokenAt<T>(p: Point<T>, spent: set<Point<T>>): Token<T> {
    (p, p !in spent)
  }

  ghost function Tokens<T(!new)>(all: set<Point<T>>, spent: set<Point<T>>): set<Token<T>> {
    set p | p in all :: TokenAt(p, spent)
  }

  /** How much can still happen. */
  ghost function Potential<T(!new), S(!new)>(d: Domain<T, S>, g: Graph<S>, spent: set<Point<T>>): int {
    Weight(TokenOrder(d.order.lt), AllTokens(AllPoints(d, g)), Tokens(AllPoints(d, g), spent))
  }

  /** The points spent once the time of `key` has entered or left the frontier there. */
  ghost function Spend<T(!new)>(lt: (T, T) -> bool, spent: set<Point<T>>, key: Point<T>): set<Point<T>> {
    (set q | q in spent && !lt(key.1, q.1) && !(q.1 == key.1 && LocationLess(q.0, key.0))) + {key}
  }

  lemma SpendLowers<T(!new), S(!new)>(d: Domain<T, S>, g: Graph<S>, spent: set<Point<T>>, key: Point<T>)
    requires LawfulTimes(d) && key.0 in Locations(g) && key !in spent
    ensures 0 <= Potential(d, g, Spend(d.order.lt, spent, key)) < Potential(d, g, spent)
  {
    var after, all := TokenOrder(d.order.lt), AllPoints(d, g);
    var spent' := Spend(d.order.lt, spent, key);
    var token := (key, true);
    TokensPartial(d.order.lt);
    assert key == (key.0, key.1) && key in all;
    assert token == TokenAt(key, spent);
    assert token in Tokens(all, spent) && token in AllTokens(all);
    forall x | x in Tokens(all, spent')
      ensures x in (Tokens(all, spent) - {token}) + After(after, AllTokens(all), token) {
      var p := x.0;
      assert p in all && x == TokenAt(p, spent');
      assert x in AllTokens(all);
      if !after(token, x) {
        assert p != key;
        assert p in spent <==> p in spent';
        assert x == TokenAt(p, spent);
      }
    }
    TradeDown(after, AllTokens(all), Tokens(all, spent), token, Tokens(all, spent'));
    WeightPositive(after, AllTokens(all), Tokens(all, spent'));
  }

  // ---- the invariant ----

  /** Changes at the time of a spent point, at its location and lesser ones, all go the way it went last. */
  ghost predicate Coherent<T(!new)>(implied: set<Point<T>>, worklist: seq<Entry<T>>, spent: set<Point<T>>) {
    forall p, e :: p in spent && e in worklist && e.0.1 == p.1 && !LocationLess(p.0, e.0.0) ==>
      if p in implied then e.1 >= 0 else e.1 <= 0
  }

  lemma {:induction false} TallySign<K(!new)>(us: seq<Update<K>>, k: K)
    ensures (forall u :: u in us && u.0 == k ==> u.1 >= 0) ==> Tally(us, k) >= 0
    ensures (forall u :: u in us && u.0 == k ==> u.1 <= 0) ==> Tally(us, k) <= 0
  {
    if us != [] {
      TallySign(us[1..], k);
      assert us == [us[0]] + us[1..];
    }
  }

  /** At a spent point nothing enters or leaves. */
  lemma SpentStays<T(!new), S(!new)>(d: Domain<T, S>, g: Graph<S>, v: View<T>, v': View<T>, worklist: seq<Entry<T>>,
                                     worklist': seq<Entry<T>>, key: Point<T>, spent: set<Point<T>>, p: Point<T>)
    requires LawfulTimes(d) && Consistent(d.order, v) && Consistent(d.order, v')
    requires Stepped(d, g, v, v', worklist, worklist', key) && Coherent(Implied(v), worklist, spent)
    requires p in spent && p.1 == key.1 && !LocationLess(p.0, key.0)
    ensures p in Implied(v) && key in Implied(v) ==> key in Implied(v')
    ensures p !in Implied(v) && key !in Implied(v) ==> key !in Implied(v')
  {
    hide Requeued;
    TallySign(worklist, key);
    assert forall e :: e in worklist && e.0 == key ==> if p in Implied(v) then e.1 >= 0 else e.1 <= 0;
    StaysPut(d.order, v[key.0].counts, v'[key.0].counts, key.1, Tally(worklist, key), v[key.0].frontier,
             v'[key.0].frontier);
    assert key == (key.0, key.1);
  }

  /** Other points stay implied or not. */
  lemma ImpliedElsewhere<T(!new)>(v: View<T>, v': View<T>, key: Point<T>, delta: int, p: Point<T>)
    requires Applied(v, v', key, delta)
    ensures p.0 != key.0 ==> (p in Implied(v) <==> p in Implied(v'))
    ensures p.0 == key.0 ==>
              (p in Implied(v) <==> p.1 in v[key.0].frontier) && (p in Implied(v') <==> p.1 in v'[key.0].frontier)
  {
    assert p == (p.0, p.1);
  }

  /** If the time popped neither enters nor leaves the frontier, no frontier changes. */
  lemma NothingImplied<T(!new), S(!new)>(d: Domain<T, S>, v: View<T>, v': View<T>, key: Point<T>, delta: int)
    requires LawfulTimes(d) && Consistent(d.order, v) && Consistent(d.order, v') && Applied(v, v', key, delta)
    requires key in Implied(v) <==> key in Implied(v')
    ensures Implied(v) == Implied(v')
  {
    hide Implied;
    ImpliedElsewhere(v, v', key, delta, key);
    forall p ensures p in Implied(v) <==> p in Implied(v') {
      ImpliedElsewhere(v, v', key, delta, p);
      if p.0 == key.0 {
        NothingMoves(d.order, v[key.0].counts, v'[key.0].counts, key.1, delta, v[key.0].frontier, v'[key.0].frontier,
                     p.1);
      }
    }
  }

  /** An entry that passes on a change is at or after the time popped, and if it is at that time, it says
      what became of it. */
  lemma PassedOnLater<T(!new), S(!new)>(d: Domain<T, S>, g: Graph<S>, v: View<T>, v': View<T>, key: Point<T>,
                                        delta: int, e: Entry<T>)
    requires LawfulTimes(d) && Consistent(d.order, v) && Consistent(d.order, v') && Applied(v, v', key, delta)
    requires PassesOn(d, g, Implied(v), Implied(v'), key.0, e)
    ensures e.0.1 == key.1 || d.order.lt(key.1, e.0.1)
    ensures e.0.1 == key.1 ==> if e.1 > 0 then key in Implied(v') else key in Implied(v) && key !in Implied(v')
  {
    hide Implied;
    var u :| PassesOnFrom(d, g, Implied(v), Implied(v'), (key.0, u), e);
    var h :| h in Hops(g, key.0) && h.to == e.0.0 && Act(d, h, u) == Some(e.0.1);
    ActInflates(d, h, u);
    ImpliedElsewhere(v, v', key, delta, (key.0, u));
    ChangesAbove(d.order, v[key.0].counts, v'[key.0].counts, key.1, delta, v[key.0].frontier, v'[key.0].frontier, u);
    assert d.order.le(key.1, e.0.1);
    assert key == (key.0, key.1);
  }

  /** A change that was not possible at a spent point: the invariant and the measure after an iteration. */
  lemma FreshChange<T(!new), S(!new)>(d: Domain<T, S>, g: Graph<S>, v: View<T>, v': View<T>, worklist: seq<Entry<T>>,
                                      worklist': seq<Entry<T>>, key: Point<T>, spent: set<Point<T>>, p: Point<T>,
                                      e: Entry<T>)
    requires LawfulTimes(d) && Consistent(d.order, v) && Consistent(d.order, v')
    requires Stepped(d, g, v, v', worklist, worklist', key) && Coherent(Implied(v), worklist, spent)
    requires key in Implied(v) <==> key !in Implied(v')
    requires p in Spend(d.order.lt, spent, key) && e in worklist' && e.0.1 == p.1 && !LocationLess(p.0, e.0.0)
    ensures if p in Implied(v') then e.1 >= 0 else e.1 <= 0
  {
    hide Consistent;
    hide Implied;
    hide Applied;
    hide PassesOn;
    var delta := Tally(worklist, key);
    ImpliedElsewhere(v, v', key, delta, p);
    if e in worklist && e.0 != key {
      OldEntry(d, worklist, key, e);
      assert e.0 in Keys(worklist);
      assert p in spent && p != key;
    } else {
      PassedOnLater(d, g, v, v', key, delta, e);
      if p != key {
        assert p.1 == key.1 && p in spent;
        SpentStays(d, g, v, v', worklist, worklist', key, spent, p);
      }
    }
  }

  /** Entries left are not before the key popped. */
  lemma OldEntry<T(!new), S(!new)>(d: Domain<T, S>, worklist: seq<Entry<T>>, key: Point<T>, e: Entry<T>)
    requires LawfulTimes(d) && e in worklist && e.0 != key
    requires forall q :: q in Keys(worklist) ==> !KeyLess(d.order.lt, q, key)
    ensures d.order.lt(key.1, e.0.1) || (key.1 == e.0.1 && LocationLess(key.0, e.0.0))
  {
    assert e.0 in Keys(worklist);
    assert key == (key.0, key.1) && e.0 == (e.0.0, e.0.1);
  }

  /** Every iteration keeps the invariant and lowers the measure, or shortens the worklist. */
  lemma StepConverges<T(!new), S(!new)>(d: Domain<T, S>, g: Graph<S>, v: View<T>, v': View<T>, worklist: seq<Entry<T>>,
                                        worklist': seq<Entry<T>>, key: Point<T>, spent: set<Point<T>>)
    returns (spent': set<Point<T>>)
    requires LawfulTimes(d) && v.Keys == Locations(g) && Consistent(d.order, v) && Consistent(d.order, v')
    requires Stepped(d, g, v, v', worklist, worklist', key) && Coherent(Implied(v), worklist, spent)
    ensures Coherent(Implied(v'), worklist', spent')
    ensures 0 <= Potential(d, g, spent') <= Potential(d, g, spent)
    ensures Potential(d, g, spent') < Potential(d, g, spent) || |worklist'| < |worklist|
  {
    hide Consistent;
    hide Potential;
    hide LawfulTimes;
    hide Spend;
    hide Implied;
    hide PassesOn;
    hide Locations;
    if key in Implied(v) <==> key in Implied(v') {
      spent' := spent;
      NothingImplied(d, v, v', key, Tally(worklist, key));
      forall e | e in worklist' ensures e in worklist {
        if PassesOn(d, g, Implied(v), Implied(v'), key.0, e) {
          NothingPassed(d, g, Implied(v), key.0, e);
        }
      }
      PotentialNonNegative(d, g, spent);
    } else {
      spent' := Spend(d.order.lt, spent, key);
      if key in spent {
        SpentStays(d, g, v, v', worklist, worklist', key, spent, key);
      }
      SpendLowers(d, g, spent, key);
      forall p, e | p in spent' && e in worklist' && e.0.1 == p.1 && !LocationLess(p.0, e.0.0)
        ensures if p in Implied(v') then e.1 >= 0 else e.1 <= 0
      {
        FreshChange(d, g, v, v', worklist, worklist', key, spent, p, e);
      }
    }
  }

  lemma PotentialNonNegative<T(!new), S(!new)>(d: Domain<T, S>, g: Graph<S>, spent: set<Point<T>>)
    ensures Potential(d, g, spent) >= 0
  {
    WeightPositive(TokenOrder(d.order.lt), AllTokens(AllPoints(d, g)), Tokens(AllPoints(d, g), spent));
  }

  lemma NothingPassed<T(!new), S(!new)>(d: Domain<T, S>, g: Graph<S>, implied: set<Point<T>>, l: Location, e: Entry<T>)
    ensures !PassesOn(d, g, implied, implied, l, e)
  {
  }
}
