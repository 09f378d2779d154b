/** What the broadcast keeps: conservation and justification. */
module Delivery {
  import opened Updates
  import opened Orders
  import opened Sums
  import opened Justify
  import opened Broadcast

  /** The batches that worker `v` has yet to learn of from worker `w`, in order. */
  function Pending<P>(s: System<P>, w: nat, v: nat): seq<Batch<P>>
    requires Shaped(s) && w < |s.held| && v < |s.held|
  {
    s.queues[w][v] + [s.local[w]]
  }

  function Workers(n: nat): (ws: set<nat>)
    ensures |ws| == n
    ensures forall w: nat :: w in ws <==> w < n
  {
    if n == 0 then {} else Workers(n - 1) + {n - 1}
  }

  ghost function HeldBy<P>(s: System<P>, p: P): nat -> int {
    (w: nat) => if w < |s.held| then Tally(s.held[w], p) else 0
  }

  ghost function PendingBy<P>(s: System<P>, v: nat, p: P): nat -> int
    requires Shaped(s) && v < |s.held|
  {
    (w: nat) => if w < |s.held| then Total(Pending(s, w, v), p) else 0
  }

  /** How many instances of a pointstamp there really are: capabilities held and messages under way. */
  ghost function Outstanding<P>(s: System<P>, p: P): int {
    Sum(Workers(|s.held|), HeldBy(s, p)) + Tally(s.messages, p)
  }

  /** What `v` has received, and all that is still to reach it, add up to the truth. */
  ghost predicate Conserved<P(!new)>(s: System<P>, v: nat)
    requires Shaped(s) && v < |s.held|
  {
    forall p :: Tally(s.received[v], p) + Sum(Workers(|s.held|), PendingBy(s, v, p)) == Outstanding(s, p)
  }

  /** Held pointstamps are capabilities, and messages are messages. */
  ghost predicate Sorted<P(!new)>(o: Points<P>, s: System<P>) {
    && (forall w, p :: 0 <= w < |s.held| && o.message(p) ==> Tally(s.held[w], p) == 0)
    && (forall p :: 0 <= Tally(s.messages, p) && (!o.message(p) ==> Tally(s.messages, p) == 0))
  }

  ghost predicate AllChained<P(!new)>(o: Points<P>, s: System<P>)
    requires Shaped(s)
  {
    forall w: nat, v: nat :: w < |s.held| && v < |s.held| ==> Chained(o, s.held[w], Pending(s, w, v))
  }

  ghost predicate AllConserved<P(!new)>(s: System<P>)
    requires Shaped(s)
  {
    forall v: nat :: v < |s.held| ==> Conserved(s, v)
  }

  ghost predicate Invariant<P(!new)>(o: Points<P>, s: System<P>) {
    Shaped(s) && Sorted(o, s) && AllChained(o, s) && AllConserved(s)
  }

  // ---- the steps keep batches justified ----

  lemma ChainedAt<P(!new)>(o: Points<P>, held: Batch<P>, pending: seq<Batch<P>>, i: nat)
    requires Chained(o, held, pending) && i <= |pending|
    ensures NonNegative(o, HeldBefore(held, pending, i))
    ensures i < |pending| ==> Justified(o, HeldBefore(held, pending, i), TallyOf(pending[i]))
  {
  }

  lemma HeldBeforeEnd<P>(held: Batch<P>, pending: seq<Batch<P>>)
    ensures forall p :: HeldBefore(held, pending, |pending|)(p) == Tally(held, p)
  {
    assert pending[|pending|..] == [];
  }

  lemma OperateHeldBefore<P(!new)>(held: Batch<P>, q: seq<Batch<P>>, local: Batch<P>, internal: Batch<P>,
                                   changes: Batch<P>, i: nat, p: P)
    requires Tally(changes, p) == Tally(internal, p) && i <= |q|
    ensures HeldBefore(held + internal, q + [local + changes], i)(p) == HeldBefore(held, q + [local], i)(p)
  {
    assert (q + [local])[i..] == q[i..] + [local];
    assert (q + [local + changes])[i..] == q[i..] + [local + changes];
    TotalLast(q[i..], local, p);
    TotalLast(q[i..], local + changes, p);
    TallyAppend(held, internal, p);
    TallyAppend(local, changes, p);
  }

  /** Changes justified by what is held may join the unsent ones. */
  lemma OperateChained<P(!new)>(o: Points<P>, held: Batch<P>, q: seq<Batch<P>>, local: Batch<P>, internal: Batch<P>,
                                changes: Batch<P>)
    requires PartialOrder(o.le) && Chained(o, held, q + [local])
    requires Justified(o, TallyOf(held), TallyOf(changes))
    requires forall p :: !o.message(p) ==>
              Tally(changes, p) == Tally(internal, p) && 0 <= Tally(held, p) + Tally(internal, p)
    ensures Chained(o, held + internal, q + [local + changes])
  {
    var before, after := q + [local], q + [local + changes];
    forall i: nat | i <= |q|
      ensures forall p :: !o.message(p) ==> HeldBefore(held + internal, after, i)(p) == HeldBefore(held, before, i)(p)
    {
      forall p | !o.message(p) ensures HeldBefore(held + internal, after, i)(p) == HeldBefore(held, before, i)(p) {
        OperateHeldBefore(held, q, local, internal, changes, i, p);
      }
    }
    forall i: nat | i <= |after| ensures NonNegative(o, HeldBefore(held + internal, after, i)) {
      if i < |after| {
        ChainedAt(o, held, before, i);
      } else {
        HeldBeforeEnd(held + internal, after);
        TallyAppendAll(held, internal);
      }
    }
    forall i: nat | i < |after| ensures Justified(o, HeldBefore(held + internal, after, i), TallyOf(after[i])) {
      ChainedAt(o, held, before, i);
      if i < |q| {
        JustifiedSame(o, HeldBefore(held, before, i), TallyOf(before[i]), HeldBefore(held + internal, after, i),
                      TallyOf(after[i]));
      } else {
        JoinLast(o, held, before, local, changes);
        JustifiedSame(o, HeldBefore(held, before, i), TallyOf(local + changes), HeldBefore(held + internal, after, i),
                      TallyOf(after[i]));
      }
    }
  }

  lemma JoinLast<P(!new)>(o: Points<P>, held: Batch<P>, before: seq<Batch<P>>, local: Batch<P>, changes: Batch<P>)
    requires PartialOrder(o.le) && Chained(o, held, before) && before != [] && before[|before| - 1] == local
    requires Justified(o, TallyOf(held), TallyOf(changes))
    ensures Justified(o, HeldBefore(held, before, |before| - 1), TallyOf(local + changes))
  {
    var last := |before| - 1;
    ChainedAt(o, held, before, last);
    assert before[last..] == [local];
    forall p ensures HeldBefore(held, before, last)(p) == Tally(held, p) - Tally(local, p) {
      assert Total([local], p) == Tally(local, p) + Total([], p);
    }
    TallyAppendAll(local, changes);
    forall q | Tally(local, q) != 0 || Tally(changes, q) != 0 ensures q in Keys(local) + Keys(changes) {
      if Tally(local, q) != 0 { TallyListed(local, q); } else { TallyListed(changes, q); }
    }
    SumJustified(o, HeldBefore(held, before, last), TallyOf(local), TallyOf(held), TallyOf(changes),
                 TallyOf(local + changes),
                 Keys(local) + Keys(changes));
  }

  /** A batch may stand in for another with the same tallies, with nothing left unsent. */
  lemma SendChained<P(!new)>(o: Points<P>, held: Batch<P>, q: seq<Batch<P>>, local: Batch<P>, batch: Batch<P>)
    requires Chained(o, held, q + [local]) && SameTally(batch, local)
    ensures Chained(o, held, q + [batch] + [[]])
    ensures batch == [] ==> Chained(o, held, q + [[]])
  {
    ReplaceLast(o, held, q, local, batch);
    var before, after := q + [batch], q + [batch] + [[]];
    forall i: nat | i <= |after|
      ensures forall p :: HeldBefore(held, after, i)(p) ==
                HeldBefore(held, before, if i <= |before| then i else |before|)(p)
    {
      if i <= |before| {
        assert after[i..] == before[i..] + [[]];
        forall p ensures Total(after[i..], p) == Total(before[i..], p) { TotalLast(before[i..], [], p); }
      } else {
        assert before[|before|..] == [] && after[i..] == [];
      }
    }
    forall i: nat | i <= |after| ensures NonNegative(o, HeldBefore(held, after, i)) {
      ChainedAt(o, held, before, if i <= |before| then i else |before|);
    }
    forall i: nat | i < |after| ensures Justified(o, HeldBefore(held, after, i), TallyOf(after[i])) {
      if i < |before| {
        ChainedAt(o, held, before, i);
        JustifiedSame(o, HeldBefore(held, before, i), TallyOf(before[i]), HeldBefore(held, after, i),
                      TallyOf(after[i]));
      } else {
        assert after[i] == [];
      }
    }
  }

  lemma ReplaceLast<P(!new)>(o: Points<P>, held: Batch<P>, q: seq<Batch<P>>, local: Batch<P>, batch: Batch<P>)
    requires Chained(o, held, q + [local]) && SameTally(batch, local)
    ensures Chained(o, held, q + [batch])
  {
    var before, after := q + [local], q + [batch];
    forall i: nat | i <= |after| ensures forall p :: HeldBefore(held, after, i)(p) == HeldBefore(held, before, i)(p) {
      if i <= |q| {
        assert after[i..] == q[i..] + [batch] && before[i..] == q[i..] + [local];
        forall p ensures Total(after[i..], p) == Total(before[i..], p) {
          TotalLast(q[i..], batch, p);
          TotalLast(q[i..], local, p);
        }
      } else {
        assert after[i..] == before[i..];
      }
    }
    forall i: nat | i <= |after| ensures NonNegative(o, HeldBefore(held, after, i)) {
      ChainedAt(o, held, before, i);
    }
    forall i: nat | i < |after| ensures Justified(o, HeldBefore(held, after, i), TallyOf(after[i])) {
      ChainedAt(o, held, before, i);
      JustifiedSame(o, HeldBefore(held, before, i), TallyOf(before[i]), HeldBefore(held, after, i), TallyOf(after[i]));
    }
  }

  /** The oldest batch may be delivered. */
  lemma ReceiveChained<P(!new)>(o: Points<P>, held: Batch<P>, pending: seq<Batch<P>>)
    requires Chained(o, held, pending) && pending != []
    ensures Chained(o, held, pending[1..])
  {
    var after := pending[1..];
    forall i: nat | i <= |after|
      ensures forall p :: HeldBefore(held, after, i)(p) == HeldBefore(held, pending, i + 1)(p) {
      assert after[i..] == pending[i + 1..];
    }
    forall i: nat | i <= |after| ensures NonNegative(o, HeldBefore(held, after, i)) {
      ChainedAt(o, held, pending, i + 1);
    }
    forall i: nat | i < |after| ensures Justified(o, HeldBefore(held, after, i), TallyOf(after[i])) {
      ChainedAt(o, held, pending, i + 1);
      JustifiedSame(o, HeldBefore(held, pending, i + 1), TallyOf(pending[i + 1]), HeldBefore(held, after, i),
                    TallyOf(after[i]));
    }
  }

  // ---- the steps conserve every count ----

  /** Two functions on workers that differ at one only. */
  lemma SumAt(n: nat, f: nat -> int, g: nat -> int, w: nat)
    requires w < n && forall x: nat :: x < n && x != w ==> f(x) == g(x)
    ensures Sum(Workers(n), g) == Sum(Workers(n), f) + g(w) - f(w)
  {
    SumChange(Workers(n), f, g, w);
  }

  lemma OperateConserves<P(!new)>(o: Points<P>, s: System<P>, w: nat, consumed: Batch<P>, internal: Batch<P>,
                                  produced: Batch<P>, s': System<P>, v: nat)
    requires Shaped(s) && Shaped(s') && v < |s.held| && Conserved(s, v)
    requires Next(o, s, Operate(w, consumed, internal, produced), s')
    ensures Conserved(s', v)
  {
    hide Sum;
    hide Workers;
    hide Total;
    hide Legal;
    hide Tally;
    var changes := Changes(consumed, internal, produced);
    forall p ensures Tally(s'.received[v], p) + Sum(Workers(|s'.held|), PendingBy(s', v, p)) == Outstanding(s', p) {
      SumAt(|s.held|, HeldBy(s, p), HeldBy(s', p), w);
      TallyAppend(s.held[w], internal, p);
      SumAt(|s.held|, PendingBy(s, v, p), PendingBy(s', v, p), w);
      TotalLast(s.queues[w][v], s.local[w], p);
      TotalLast(s.queues[w][v], s.local[w] + changes, p);
      TallyAppend(s.local[w], changes, p);
      ChangesTally(consumed, internal, produced, p);
      TallyAppend(s.messages + Negated(consumed), produced, p);
      TallyAppend(s.messages, Negated(consumed), p);
      NegatedTally(consumed, p);
    }
  }

  lemma SendConserves<P(!new)>(o: Points<P>, s: System<P>, w: nat, batch: Batch<P>, s': System<P>, v: nat)
    requires Shaped(s) && Shaped(s') && v < |s.held| && Conserved(s, v)
    requires Next(o, s, Send(w, batch), s')
    ensures Conserved(s', v)
  {
    hide Sum;
    hide Workers;
    hide Total;
    hide Legal;
    forall p ensures Tally(s'.received[v], p) + Sum(Workers(|s'.held|), PendingBy(s', v, p)) == Outstanding(s', p) {
      SumSame(Workers(|s.held|), HeldBy(s, p), HeldBy(s', p));
      TotalLast(s.queues[w][v], s.local[w], p);
      TotalLast(s.queues[w][v], batch, p);
      TotalLast(s'.queues[w][v], s'.local[w], p);
      assert PendingBy(s, v, p)(w) == PendingBy(s', v, p)(w);
      SumSame(Workers(|s.held|), PendingBy(s, v, p), PendingBy(s', v, p));
    }
  }

  lemma ReceiveConserves<P(!new)>(o: Points<P>, s: System<P>, w: nat, u: nat, s': System<P>, v: nat)
    requires Shaped(s) && Shaped(s') && v < |s.held| && Conserved(s, v)
    requires Next(o, s, Receive(w, u), s')
    ensures Conserved(s', v)
  {
    hide Sum;
    hide Workers;
    hide Legal;
    forall p ensures Tally(s'.received[v], p) + Sum(Workers(|s'.held|), PendingBy(s', v, p)) == Outstanding(s', p) {
      SumSame(Workers(|s.held|), HeldBy(s, p), HeldBy(s', p));
      if v == u {
        SumAt(|s.held|, PendingBy(s, v, p), PendingBy(s', v, p), w);
        assert s.queues[w][v] == [s.queues[w][v][0]] + s'.queues[w][v];
        assert Pending(s, w, v)[1..] == Pending(s', w, v);
        TallyAppend(s.received[v], s.queues[w][v][0], p);
      } else {
        SumSame(Workers(|s.held|), PendingBy(s, v, p), PendingBy(s', v, p));
      }
    }
  }

  // ---- the invariant ----

  lemma OperateSorted<P(!new)>(o: Points<P>, s: System<P>, w: nat, consumed: Batch<P>, internal: Batch<P>,
                               produced: Batch<P>, s': System<P>)
    requires Shaped(s) && Sorted(o, s)
    requires Next(o, s, Operate(w, consumed, internal, produced), s')
    ensures Sorted(o, s')
  {
    TallyAppendAll(s.held[w], internal);
    forall p ensures Tally(s'.messages, p) == Tally(s.messages, p) - Tally(consumed, p) + Tally(produced, p) {
      TallyAppend(s.messages + Negated(consumed), produced, p);
      TallyAppend(s.messages, Negated(consumed), p);
      NegatedTally(consumed, p);
    }
  }

  lemma ChainedFor<P(!new)>(o: Points<P>, s: System<P>, w: nat, v: nat)
    requires Shaped(s) && AllChained(o, s) && w < |s.held| && v < |s.held|
    ensures Chained(o, s.held[w], s.queues[w][v] + [s.local[w]])
  {
    assert Chained(o, s.held[w], Pending(s, w, v));
  }

  lemma OperateAllChained<P(!new)>(o: Points<P>, s: System<P>, w: nat, consumed: Batch<P>, internal: Batch<P>,
                                   produced: Batch<P>, s': System<P>)
    requires PartialOrder(o.le) && Invariant(o, s) && Shaped(s')
    requires Next(o, s, Operate(w, consumed, internal, produced), s')
    ensures AllChained(o, s')
  {
    hide Chained;
    hide Conserved;
    var changes := Changes(consumed, internal, produced);
    LegalJustified(o, s.held[w], s.messages, consumed, internal, produced);
    forall p | !o.message(p) ensures Tally(changes, p) == Tally(internal, p) {
      ChangesTally(consumed, internal, produced, p);
    }
    forall x: nat, v: nat | x < |s.held| && v < |s.held| ensures Chained(o, s'.held[x], Pending(s', x, v)) {
      if x == w {
        ChainedFor(o, s, w, v);
        OperateChained(o, s.held[w], s.queues[w][v], s.local[w], internal, changes);
      } else {
        assert Pending(s', x, v) == Pending(s, x, v);
      }
    }
  }

  lemma SendAllChained<P(!new)>(o: Points<P>, s: System<P>, w: nat, batch: Batch<P>, s': System<P>)
    requires Invariant(o, s) && Shaped(s')
    requires Next(o, s, Send(w, batch), s')
    ensures AllChained(o, s')
  {
    hide Chained;
    hide Conserved;
    forall x: nat, v: nat | x < |s.held| && v < |s.held| ensures Chained(o, s'.held[x], Pending(s', x, v)) {
      if x == w {
        ChainedFor(o, s, w, v);
        SendChained(o, s.held[w], s.queues[w][v], s.local[w], batch);
      } else {
        assert Pending(s', x, v) == Pending(s, x, v);
      }
    }
  }

  lemma ReceiveAllChained<P(!new)>(o: Points<P>, s: System<P>, w: nat, u: nat, s': System<P>)
    requires Invariant(o, s) && Shaped(s')
    requires Next(o, s, Receive(w, u), s')
    ensures AllChained(o, s')
  {
    hide Chained;
    hide Conserved;
    forall x: nat, v: nat | x < |s.held| && v < |s.held| ensures Chained(o, s'.held[x], Pending(s', x, v)) {
      if x == w && v == u {
        ChainedFor(o, s, w, v);
        ReceiveChained(o, s.held[w], Pending(s, w, u));
        assert Pending(s, w, u)[1..] == Pending(s', w, u);
      } else {
        assert Pending(s', x, v) == Pending(s, x, v);
      }
    }
  }

  lemma NextShaped<P(!new)>(o: Points<P>, s: System<P>, step: Step<P>, s': System<P>)
    requires Shaped(s) && Next(o, s, step, s')
    ensures Shaped(s') && |s'.held| == |s.held|
  {
  }

  /** Every step keeps the invariant: nothing is lost or invented, and all that is under way stays
      justified, in every order in which workers act, send and receive. */
  lemma StepKeepsInvariant<P(!new)>(o: Points<P>, s: System<P>, step: Step<P>, s': System<P>)
    requires PartialOrder(o.le) && Invariant(o, s) && Next(o, s, step, s')
    ensures Invariant(o, s') && |s'.held| == |s.held|
  {
    hide Chained;
    hide Conserved;
    NextShaped(o, s, step, s');
    match step {
      case Operate(w, consumed, internal, produced) =>
        OperateSorted(o, s, w, consumed, internal, produced, s');
        OperateAllChained(o, s, w, consumed, internal, produced, s');
        forall v: nat | v < |s.held| ensures Conserved(s', v) {
          OperateConserves(o, s, w, consumed, internal, produced, s', v);
        }
      case Send(w, batch) =>
        SendAllChained(o, s, w, batch, s');
        forall v: nat | v < |s.held| ensures Conserved(s', v) {
          SendConserves(o, s, w, batch, s', v);
        }
      case Receive(w, u) =>
        ReceiveAllChained(o, s, w, u, s');
        forall v: nat | v < |s.held| ensures Conserved(s', v) {
          ReceiveConserves(o, s, w, u, s', v);
        }
    }
  }

  lemma EmptyChained<P(!new)>(o: Points<P>, held: Batch<P>)
    requires Capabilities(o, held)
    ensures Chained(o, held, [[]])
  {
    var none: seq<Batch<P>> := [[]];
    forall i: nat | i <= 1 ensures forall p :: HeldBefore(held, none, i)(p) == Tally(held, p) {
      assert none[i..] == if i == 0 then [[]] else [];
      assert forall p :: Total(none, p) == Tally([], p) + Total([], p);
    }
  }

  /** Initially every worker holds what every worker knows it to hold. */
  lemma InitialInvariant<P(!new)>(o: Points<P>, n: nat, init: Batch<P>)
    requires Capabilities(o, init)
    ensures Invariant(o, Initial(n, init))
  {
    var s := Initial(n, init);
    forall w: nat, v: nat | w < n && v < n ensures Chained(o, s.held[w], Pending(s, w, v)) {
      EmptyChained(o, init);
      assert Pending(s, w, v) == [[]];
    }
    forall v: nat | v < n ensures Conserved(s, v) {
      forall p ensures Tally(s.received[v], p) + Sum(Workers(n), PendingBy(s, v, p)) == Outstanding(s, p) {
        CopiesTally(init, n, p);
        SumConstant(Workers(n), HeldBy(s, p), Tally(init, p));
        forall w: nat | w < n ensures PendingBy(s, v, p)(w) == 0 {
          assert Pending(s, w, v) == [] + [s.local[w]];
          TotalLast([], s.local[w], p);
        }
        SumConstant(Workers(n), PendingBy(s, v, p), 0);
      }
    }
  }

  /** Every state of every run satisfies the invariant. */
  lemma {:induction false} RunKeepsInvariant<P(!new)>(o: Points<P>, n: nat, init: Batch<P>, steps: seq<Step<P>>,
                                                      states: seq<System<P>>, i: nat)
    requires PartialOrder(o.le) && Capabilities(o, init) && Run(o, n, init, steps, states) && i < |states|
    ensures Invariant(o, states[i]) && |states[i].held| == n
  {
    if i == 0 {
      InitialInvariant(o, n, init);
    } else {
      RunKeepsInvariant(o, n, init, steps, states, i - 1);
      StepKeepsInvariant(o, states[i - 1], steps[i - 1], states[i]);
    }
  }

  /** Once all channels to a worker are empty, and all changes sent, what it has received is the truth. */
  lemma QuietIsExact<P(!new)>(o: Points<P>, s: System<P>, v: nat, p: P)
    requires Invariant(o, s) && v < |s.held|
    requires forall w: nat :: w < |s.held| ==> s.queues[w][v] == [] && AllZero(s.local[w])
    ensures Tally(s.received[v], p) == Outstanding(s, p)
  {
    forall w: nat | w < |s.held| ensures PendingBy(s, v, p)(w) == 0 {
      TotalLast(s.queues[w][v], s.local[w], p);
    }
    SumConstant(Workers(|s.held|), PendingBy(s, v, p), 0);
    assert Conserved(s, v);
  }
}
