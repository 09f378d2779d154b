/** What a worker may conclude from the changes it has received. */
module Soundness {
  import opened Updates
  import opened Orders
  import opened Sums
  import opened Justify
  import opened Broadcast
  import opened Delivery

  /** Some pointstamp with a positive count could result in `p`. */
  ghost predicate Covers<P(!new)>(o: Points<P>, received: P -> int, p: P) {
    exists q :: CoveredBy(o, received, p, q)
  }

  ghost predicate CoveredBy<P>(o: Points<P>, received: P -> int, p: P, q: P) {
    o.le(q, p) && received(q) > 0
  }

  lemma CoversAbove<P(!new)>(o: Points<P>, received: P -> int, q: P, p: P)
    requires PartialOrder(o.le) && o.le(q, p) && Covers(o, received, q)
    ensures Covers(o, received, p)
  {
    var r :| CoveredBy(o, received, q, r);
    assert CoveredBy(o, received, p, r);
  }

  ghost function Column<P>(f: nat -> P -> int, p: P): nat -> int {
    (w: nat) => f(w)(p)
  }

  /** One worker's view: `received` is the truth `out` less what is under way from each worker, and the
      capabilities in it are those the workers held `base`d on the changes that did arrive. */
  ghost predicate Cut<P(!new)>(o: Points<P>, ws: set<nat>, base: nat -> P -> int, change: nat -> P -> int,
                               received: P -> int, out: P -> int) {
    && (forall w :: w in ws ==> Justified(o, base(w), change(w)))
    && (forall w, p :: w in ws && !o.message(p) ==> base(w)(p) >= 0 && base(w)(p) + change(w)(p) >= 0)
    && (forall p :: received(p) + Sum(ws, Column(change, p)) == out(p))
    && (forall p :: o.message(p) ==> out(p) >= 0)
    && (forall p :: !o.message(p) ==> received(p) == Sum(ws, Column(base, p)))
  }

  ghost predicate Listed<P(!new)>(ws: set<nat>, change: nat -> P -> int, keys: set<P>) {
    forall w, p :: w in ws && change(w)(p) != 0 ==> p in keys
  }

  lemma SumOffset(s: set<nat>, f: nat -> int, w: nat) returns (x: nat)
    requires w in s && f(w) < 0 && Sum(s, f) >= 0
    ensures x in s && f(x) > 0
  {
    SumRemove(s, f, w);
    x := SumPositive(s - {w}, f);
  }

  lemma {:induction false} SumAllZero(s: set<nat>, f: nat -> int)
    requires Sum(s, f) >= 0 && forall x :: x in s ==> f(x) <= 0
    ensures Sum(s, f) == 0 && forall x :: x in s ==> f(x) == 0
  {
    var g := (x: nat) => -f(x);
    SumMinus(s, (x: nat) => 0, f, g);
    SumConstant(s, (x: nat) => 0, 0);
    SumBounds(s, g);
  }

  /** An increment under way is covered by what was received. */
  lemma {:induction false} ChangeCovered<P(!new)>(o: Points<P>, ws: set<nat>, base: nat -> P -> int,
                                                  change: nat -> P -> int, received: P -> int, out: P -> int,
                                                  keys: set<P>, w: nat, p: P)
    requires PartialOrder(o.le) && Cut(o, ws, base, change, received, out) && Listed(ws, change, keys)
    requires w in ws && change(w)(p) > 0
    ensures Covers(o, received, p)
    decreases |Below(o, keys, p)|
  {
    hide Sum;
    assert Justified(o, base(w), change(w));
    assert Explained(o, base(w), change(w), p);
    var q :| Explains(o, base(w), change(w), p, q);
    if !o.message(q) {
      SumBounds(ws, Column(base, q));
      assert Column(base, q)(w) > 0;
      assert CoveredBy(o, received, p, q);
    } else if received(q) > 0 {
      assert CoveredBy(o, received, p, q);
    } else {
      assert Column(change, q)(w) < 0;
      var x := SumOffset(ws, Column(change, q), w);
      BelowFewer(o, keys, q, p);
      ChangeCovered(o, ws, base, change, received, out, keys, x, q);
      CoversAbove(o, received, q, p);
    }
  }

  /** What is truly outstanding is covered by what was received. */
  lemma OutstandingCovered<P(!new)>(o: Points<P>, ws: set<nat>, base: nat -> P -> int, change: nat -> P -> int,
                                    received: P -> int, out: P -> int, keys: set<P>, p: P)
    requires PartialOrder(o.le) && Cut(o, ws, base, change, received, out) && Listed(ws, change, keys)
    requires out(p) > 0
    ensures Covers(o, received, p)
  {
    if received(p) > 0 {
      assert CoveredBy(o, received, p, p);
    } else {
      var w := SumPositive(ws, Column(change, p));
      ChangeCovered(o, ws, base, change, received, out, keys, w, p);
    }
  }

  /** Where nothing received covers a pointstamp, nothing is under way. */
  lemma NothingUnderWay<P(!new)>(o: Points<P>, ws: set<nat>, base: nat -> P -> int, change: nat -> P -> int,
                                 received: P -> int, out: P -> int, keys: set<P>, p: P)
    requires PartialOrder(o.le) && Cut(o, ws, base, change, received, out) && Listed(ws, change, keys)
    requires !Covers(o, received, p)
    ensures received(p) == 0
    ensures forall w :: w in ws ==> change(w)(p) == 0 && (!o.message(p) ==> base(w)(p) == 0)
  {
    hide Sum;
    assert !CoveredBy(o, received, p, p);
    forall w | w in ws ensures change(w)(p) <= 0 {
      if change(w)(p) > 0 {
        ChangeCovered(o, ws, base, change, received, out, keys, w, p);
      }
    }
    if o.message(p) {
      SumAllZero(ws, Column(change, p));
      assert forall w :: w in ws ==> Column(change, p)(w) == change(w)(p);
    } else {
      SumBounds(ws, Column(base, p));
      assert forall w :: w in ws ==> Column(base, p)(w) == base(w)(p);
    }
  }

  /** When two changes in a row cancel wherever a point below `p` is concerned, and nothing there is
      held, then each is nothing there. */
  lemma {:induction false} BothNothing<P(!new)>(o: Points<P>, held: P -> int, first: P -> int, held': P -> int,
                                                second: P -> int, keys: set<P>, q: P)
    requires PartialOrder(o.le) && Justified(o, held, first) && Justified(o, held', second)
    requires forall r :: !o.message(r) ==> held'(r) == held(r) + first(r)
    requires forall r :: o.le(r, q) ==> first(r) + second(r) == 0 && (!o.message(r) ==> held(r) == 0)
    requires forall r :: first(r) != 0 ==> r in keys
    ensures first(q) == 0
    decreases |Below(o, keys, q)|
  {
    forall r | o.le(r, q) && r != q ensures first(r) == 0 {
      if first(r) != 0 {
        BelowFewer(o, keys, r, q);
        forall x | o.le(x, r) ensures o.le(x, q) {}
        BothNothing(o, held, first, held', second, keys, r);
      }
    }
    assert o.le(q, q);
    NoIncrement(o, held, first, q);
    NoIncrement(o, held', second, q);
  }

  /** Where nothing at or below `q` is held, and no message below it consumed, `q` is not incremented. */
  lemma NoIncrement<P(!new)>(o: Points<P>, held: P -> int, change: P -> int, q: P)
    requires Justified(o, held, change)
    requires forall r :: o.le(r, q) ==> if o.message(r) then r == q || change(r) >= 0 else held(r) <= 0
    ensures change(q) <= 0
  {
    forall r ensures !Explains(o, held, change, q, r) {}
    assert !Explained(o, held, change, q);
  }

  // ---- the broadcast ----

  ghost function BaseOf<P>(s: System<P>, v: nat): nat -> P -> int
    requires Shaped(s) && v < |s.held|
  {
    (w: nat) => if w < |s.held| then HeldBefore(s.held[w], Pending(s, w, v), 0) else (p => 0)
  }

  ghost function ChangeOf<P>(s: System<P>, v: nat): nat -> P -> int
    requires Shaped(s) && v < |s.held|
  {
    (w: nat) => if w < |s.held| then TotalOf(Pending(s, w, v)) else (p => 0)
  }

  ghost function OutstandingOf<P>(s: System<P>): P -> int {
    p => Outstanding(s, p)
  }

  lemma ColumnsAgree<P(!new)>(o: Points<P>, s: System<P>, v: nat, p: P)
    requires Invariant(o, s) && v < |s.held|
    ensures Tally(s.received[v], p) + Sum(Workers(|s.held|), Column(ChangeOf(s, v), p)) == Outstanding(s, p)
    ensures !o.message(p) ==> Tally(s.received[v], p) == Sum(Workers(|s.held|), Column(BaseOf(s, v), p))
    ensures o.message(p) ==> Outstanding(s, p) >= 0
  {
    hide Sum;
    hide Workers;
    hide AllChained;
    var ws := Workers(|s.held|);
    assert Conserved(s, v);
    SumSame(ws, PendingBy(s, v, p), Column(ChangeOf(s, v), p));
    forall w | w in ws ensures Column(BaseOf(s, v), p)(w) == HeldBy(s, p)(w) - PendingBy(s, v, p)(w) {
      assert Pending(s, w, v)[0..] == Pending(s, w, v);
    }
    SumMinus(ws, HeldBy(s, p), PendingBy(s, v, p), Column(BaseOf(s, v), p));
    if o.message(p) {
      SumConstant(ws, HeldBy(s, p), 0);
    }
  }

  /** Every worker's view is such a cut. */
  lemma ViewIsCut<P(!new)>(o: Points<P>, s: System<P>, v: nat)
    requires PartialOrder(o.le) && Invariant(o, s) && v < |s.held|
    ensures Cut(o, Workers(|s.held|), BaseOf(s, v), ChangeOf(s, v), TallyOf(s.received[v]), OutstandingOf(s))
  {
    hide Sum;
    hide Outstanding;
    hide Conserved;
    forall p
      ensures TallyOf(s.received[v])(p) + Sum(Workers(|s.held|), Column(ChangeOf(s, v), p)) == OutstandingOf(s)(p)
      ensures !o.message(p) ==> TallyOf(s.received[v])(p) == Sum(Workers(|s.held|), Column(BaseOf(s, v), p))
      ensures o.message(p) ==> OutstandingOf(s)(p) >= 0
    {
      ColumnsAgree(o, s, v, p);
    }
    forall w | w in Workers(|s.held|)
      ensures Justified(o, BaseOf(s, v)(w), ChangeOf(s, v)(w))
      ensures forall p :: !o.message(p) ==> BaseOf(s, v)(w)(p) >= 0 && BaseOf(s, v)(w)(p) + ChangeOf(s, v)(w)(p) >= 0
    {
      SenderJustified(o, s, w, v);
    }
  }

  lemma SenderJustified<P(!new)>(o: Points<P>, s: System<P>, w: nat, v: nat)
    requires PartialOrder(o.le) && Invariant(o, s) && w < |s.held| && v < |s.held|
    ensures Justified(o, BaseOf(s, v)(w), ChangeOf(s, v)(w))
    ensures forall p :: !o.message(p) ==> BaseOf(s, v)(w)(p) >= 0 && BaseOf(s, v)(w)(p) + ChangeOf(s, v)(w)(p) >= 0
  {
    var pending := Pending(s, w, v);
    assert Chained(o, s.held[w], pending);
    ChainedTotal(o, s.held[w], pending, 0);
    assert pending[0..] == pending;
    ChainedAt(o, s.held[w], pending, 0);
    ChainedAt(o, s.held[w], pending, |pending|);
    HeldBeforeEnd(s.held[w], pending);
  }

  /** All keys of what is under way to `v` from the first `n` workers. */
  ghost function KeysTo<P>(s: System<P>, v: nat, n: nat): set<P>
    requires Shaped(s) && v < |s.held| && n <= |s.held|
  {
    if n == 0 then {} else KeysTo(s, v, n - 1) + AllKeys(Pending(s, n - 1, v))
  }

  lemma {:induction false} KeysFrom<P>(s: System<P>, v: nat, n: nat, w: nat, p: P)
    requires Shaped(s) && v < |s.held| && w < n <= |s.held| && p in AllKeys(Pending(s, w, v))
    ensures p in KeysTo(s, v, n)
  {
    if w < n - 1 {
      KeysFrom(s, v, n - 1, w, p);
    }
  }

  lemma KeysListChanges<P(!new)>(s: System<P>, v: nat)
    requires Shaped(s) && v < |s.held|
    ensures Listed(Workers(|s.held|), ChangeOf(s, v), KeysTo(s, v, |s.held|))
  {
    hide Workers;
    hide KeysTo;
    forall w, p | w in Workers(|s.held|) && ChangeOf(s, v)(w)(p) != 0 ensures p in KeysTo(s, v, |s.held|) {
      TotalListed(Pending(s, w, v), p);
      KeysFrom(s, v, |s.held|, w, p);
    }
  }

  /** Safety: in every reachable state, whatever is outstanding anywhere, each worker has received a
      positive count of some pointstamp that could result in it. */
  lemma BroadcastSafety<P(!new)>(o: Points<P>, n: nat, init: Batch<P>, steps: seq<Step<P>>, states: seq<System<P>>,
                                 i: nat, v: nat, p: P)
    requires PartialOrder(o.le) && Capabilities(o, init) && Run(o, n, init, steps, states) && i < |states| && v < n
    requires Outstanding(states[i], p) > 0
    ensures |states[i].received| == n && Covers(o, TallyOf(states[i].received[v]), p)
  {
    hide Run;
    hide Cut;
    hide Invariant;
    hide KeysTo;
    hide Workers;
    RunKeepsInvariant(o, n, init, steps, states, i);
    var s := states[i];
    InvariantShape(o, s);
    ViewIsCut(o, s, v);
    KeysListChanges(s, v);
    OutstandingCovered(o, Workers(|s.held|), BaseOf(s, v), ChangeOf(s, v), TallyOf(s.received[v]), OutstandingOf(s),
                       KeysTo(s, v, |s.held|), p);
  }

  lemma InvariantShape<P(!new)>(o: Points<P>, s: System<P>)
    requires Invariant(o, s)
    ensures Shaped(s) && |s.received| == |s.held|
  {
  }

  /** A batch on its way changes nothing below what its receiver knows to be gone. */
  lemma HeadNothing<P(!new)>(o: Points<P>, s: System<P>, w: nat, v: nat, p: P)
    requires PartialOrder(o.le) && Invariant(o, s) && w < |s.held| && v < |s.held|
    requires s.queues[w][v] != [] && !Covers(o, TallyOf(s.received[v]), p)
    ensures Tally(s.queues[w][v][0], p) == 0
  {
    hide Cut;
    hide KeysTo;
    hide Workers;
    hide Justified;
    var pending := Pending(s, w, v);
    assert Chained(o, s.held[w], pending);
    assert pending[0] == s.queues[w][v][0];
    ChainedAt(o, s.held[w], pending, 0);
    ChainedTotal(o, s.held[w], pending, 1);
    assert pending[0..] == pending;
    ViewIsCut(o, s, v);
    KeysListChanges(s, v);
    forall r | o.le(r, p)
      ensures TallyOf(pending[0])(r) + TotalOf(pending[1..])(r) == 0 &&
              (!o.message(r) ==> HeldBefore(s.held[w], pending, 0)(r) == 0)
    {
      if Covers(o, TallyOf(s.received[v]), r) {
        CoversAbove(o, TallyOf(s.received[v]), r, p);
      }
      NothingUnderWay(o, Workers(|s.held|), BaseOf(s, v), ChangeOf(s, v), TallyOf(s.received[v]), OutstandingOf(s),
                      KeysTo(s, v, |s.held|), r);
      assert ChangeOf(s, v)(w)(r) == 0;
    }
    forall r | TallyOf(pending[0])(r) != 0 ensures r in Keys(pending[0]) { TallyListed(pending[0], r); }
    BothNothing(o, HeldBefore(s.held[w], pending, 0), TallyOf(pending[0]), HeldBefore(s.held[w], pending, 1),
                TotalOf(pending[1..]),
                Keys(pending[0]), p);
  }

  /** What a worker no longer expects, it never comes to expect again. */
  lemma StepNeverRegresses<P(!new)>(o: Points<P>, s: System<P>, step: Step<P>, s': System<P>, v: nat, p: P)
    requires PartialOrder(o.le) && Invariant(o, s) && Next(o, s, step, s') && Shaped(s') && v < |s.held|
    requires Covers(o, TallyOf(s'.received[v]), p)
    ensures Covers(o, TallyOf(s.received[v]), p)
  {
    hide Covers;
    hide Invariant;
    InvariantShape(o, s);
    if step.Receive? && step.to == v {
      if !Covers(o, TallyOf(s.received[v]), p) {
        ReceivedNotCovered(o, s, step.from, v, s', p);
      }
    } else {
      assert s'.received[v] == s.received[v];
    }
  }

  lemma ReceivedNotCovered<P(!new)>(o: Points<P>, s: System<P>, w: nat, v: nat, s': System<P>, p: P)
    requires PartialOrder(o.le) && Invariant(o, s) && Next(o, s, Receive(w, v), s')
    requires !Covers(o, TallyOf(s.received[v]), p)
    ensures !Covers(o, TallyOf(s'.received[v]), p)
  {
    forall q | o.le(q, p) ensures !CoveredBy(o, TallyOf(s'.received[v]), p, q) {
      if Covers(o, TallyOf(s.received[v]), q) {
        CoversAbove(o, TallyOf(s.received[v]), q, p);
      }
      HeadNothing(o, s, w, v, q);
      TallyAppend(s.received[v], s.queues[w][v][0], q);
      assert !CoveredBy(o, TallyOf(s.received[v]), p, q);
    }
  }

  /** Frontiers never regress: over any run, what a worker's received counts cover later, they covered
      all along. */
  lemma {:induction false} NeverRegresses<P(!new)>(o: Points<P>, n: nat, init: Batch<P>, steps: seq<Step<P>>,
                                                   states: seq<System<P>>, i: nat, j: nat, v: nat, p: P)
    requires PartialOrder(o.le) && Capabilities(o, init) && Run(o, n, init, steps, states) && i <= j < |states| && v < n
    requires |states[i].received| == n == |states[j].received|
    requires Covers(o, TallyOf(states[j].received[v]), p)
    ensures Covers(o, TallyOf(states[i].received[v]), p)
    decreases j
  {
    hide Invariant;
    hide Covers;
    if i < j {
      RunKeepsInvariant(o, n, init, steps, states, j - 1);
      RunKeepsInvariant(o, n, init, steps, states, j);
      InvariantShape(o, states[j - 1]);
      StepNeverRegresses(o, states[j - 1], steps[j - 1], states[j], v, p);
      NeverRegresses(o, n, init, steps, states, i, j - 1, v, p);
    }
  }

  /** There are never fewer than no instances of a pointstamp. */
  lemma OutstandingNonNegative<P(!new)>(o: Points<P>, s: System<P>, p: P)
    requires Invariant(o, s)
    ensures Outstanding(s, p) >= 0
  {
    forall w | w in Workers(|s.held|) ensures HeldBy(s, p)(w) >= 0 {
      if !o.message(p) {
        assert Chained(o, s.held[w], Pending(s, w, w));
        ChainedAt(o, s.held[w], Pending(s, w, w), |Pending(s, w, w)|);
        HeldBeforeEnd(s.held[w], Pending(s, w, w));
      }
    }
    SumBounds(Workers(|s.held|), HeldBy(s, p));
  }

  /** What a worker's received counts no longer cover is gone for good: it is outstanding nowhere, in
      this state or any later one. */
  lemma GoneForGood<P(!new)>(o: Points<P>, n: nat, init: Batch<P>, steps: seq<Step<P>>, states: seq<System<P>>,
                             i: nat, j: nat, v: nat, p: P)
    requires PartialOrder(o.le) && Capabilities(o, init) && Run(o, n, init, steps, states) && i <= j < |states| && v < n
    requires |states[i].received| == n && !Covers(o, TallyOf(states[i].received[v]), p)
    ensures Outstanding(states[j], p) == 0
  {
    hide Covers;
    hide Invariant;
    RunKeepsInvariant(o, n, init, steps, states, j);
    OutstandingNonNegative(o, states[j], p);
    if Outstanding(states[j], p) > 0 {
      BroadcastSafety(o, n, init, steps, states, j, v, p);
      NeverRegresses(o, n, init, steps, states, i, j, v, p);
    }
  }
}
