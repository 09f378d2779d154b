/** The broadcast of pointstamp changes between workers, as a state machine over its steps. */
module Broadcast {
  import opened Updates
  import opened Orders
  import opened Sums
  import opened Justify

  type Batch<P> = seq<Update<P>>

  /** All workers and the channels between them.

      `held` and `messages` are the truth: the capabilities each worker holds, and the messages nobody
      has consumed. The rest is what workers know: the `local` changes not yet sent, the batches in
      the channel from each worker to each other one, and what each worker has `received`. */
  datatype System<P> = System(
    held: seq<Batch<P>>,
    messages: Batch<P>,
    local: seq<Batch<P>>,
    queues: seq<seq<seq<Batch<P>>>>,
    received: seq<Batch<P>>)

  datatype Step<P> =
    | Operate(worker: nat, consumed: Batch<P>, internal: Batch<P>, produced: Batch<P>)
    | Send(worker: nat, batch: Batch<P>)
    | Receive(from: nat, to: nat)

  function Negated<P>(b: Batch<P>): (r: Batch<P>)
    ensures |r| == |b|
  {
    seq(|b|, i requires 0 <= i < |b| => (b[i].0, -b[i].1))
  }

  /** `n` times each update. */
  function Copies<P>(b: Batch<P>, n: nat): (r: Batch<P>)
    ensures |r| == |b|
  {
    seq(|b|, i requires 0 <= i < |b| => (b[i].0, n * b[i].1))
  }

  /** The pointstamp changes that an operator's progress amounts to. */
  function Changes<P>(consumed: Batch<P>, internal: Batch<P>, produced: Batch<P>): Batch<P> {
    Negated(consumed) + internal + produced
  }

  /** A held capability or a consumed message accounts for an increment of `p`. */
  ghost predicate Grounded<P(!new)>(o: Points<P>, held: Batch<P>, consumed: Batch<P>, p: P) {
    exists q :: Grounds(o, held, consumed, p, q)
  }

  ghost predicate Grounds<P>(o: Points<P>, held: Batch<P>, consumed: Batch<P>, p: P, q: P) {
    o.le(q, p) && (if o.message(q) then q != p && Tally(consumed, q) > 0 else Tally(held, q) > 0)
  }

  /** What an operator may do: consume messages that are there, drop capabilities that it holds, and
      acquire capabilities and send messages that these account for. */
  ghost predicate Legal<P(!new)>(o: Points<P>, held: Batch<P>, messages: Batch<P>,
                                 consumed: Batch<P>, internal: Batch<P>, produced: Batch<P>) {
    && (forall p :: 0 <= Tally(consumed, p) <= Tally(messages, p))
    && (forall p :: 0 <= Tally(produced, p) && (Tally(produced, p) > 0 ==> o.message(p)))
    && (forall p :: o.message(p) ==> Tally(internal, p) == 0)
    && (forall p :: !o.message(p) ==> 0 <= Tally(held, p) + Tally(internal, p))
    && (forall p :: Tally(internal, p) > 0 || Tally(produced, p) > 0 ==> Grounded(o, held, consumed, p))
  }

  predicate Shaped<P>(s: System<P>) {
    && |s.held| == |s.local| == |s.queues| == |s.received|
    && forall w :: 0 <= w < |s.queues| ==> |s.queues[w]| == |s.held|
  }

  /** The batch joins every channel, that to the sender itself included, unless it is empty. */
  function PushAll<P(==)>(queues: seq<seq<Batch<P>>>, batch: Batch<P>): (r: seq<seq<Batch<P>>>)
    ensures |r| == |queues|
  {
    if batch == [] then queues
    else seq(|queues|, v requires 0 <= v < |queues| => queues[v] + [batch])
  }

  ghost predicate Next<P(!new)>(o: Points<P>, s: System<P>, step: Step<P>, s': System<P>)
    requires Shaped(s)
  {
    match step
    case Operate(w, consumed, internal, produced) =>
      && w < |s.held|
      && Legal(o, s.held[w], s.messages, consumed, internal, produced)
      && s' == s.(held := s.held[w := s.held[w] + internal],
                  messages := s.messages + Negated(consumed) + produced,
                  local := s.local[w := s.local[w] + Changes(consumed, internal, produced)])
    case Send(w, batch) =>
      && w < |s.held|
      && SameTally(batch, s.local[w])
      && s' == s.(local := s.local[w := []], queues := s.queues[w := PushAll(s.queues[w], batch)])
    case Receive(w, v) =>
      && w < |s.held| && v < |s.held|
      && s.queues[w][v] != []
      && s' == s.(queues := s.queues[w := s.queues[w][v := s.queues[w][v][1..]]],
                  received := s.received[v := s.received[v] + s.queues[w][v][0]])
  }

  /** Each of `n` workers holds the initial capabilities, and knows that all do. */
  function Initial<P>(n: nat, init: Batch<P>): (s: System<P>)
    ensures Shaped(s) && |s.held| == n
  {
    System(seq(n, w => init), [], seq(n, w => []), seq(n, w => seq(n, v => [])), seq(n, w => Copies(init, n)))
  }

  /** Initial capabilities are capabilities, and are held. */
  ghost predicate Capabilities<P(!new)>(o: Points<P>, init: Batch<P>) {
    forall p :: 0 <= Tally(init, p) && (o.message(p) ==> Tally(init, p) == 0)
  }

  ghost predicate Run<P(!new)>(o: Points<P>, n: nat, init: Batch<P>, steps: seq<Step<P>>, states: seq<System<P>>) {
    && |states| == |steps| + 1
    && states[0] == Initial(n, init)
    && (forall i :: 0 <= i < |states| ==> Shaped(states[i]))
    && (forall i :: 0 <= i < |steps| ==> Next(o, states[i], steps[i], states[i + 1]))
  }

  // ---- batches on their way ----

  ghost function TallyOf<P>(b: Batch<P>): P -> int {
    p => Tally(b, p)
  }

  ghost function Total<P>(bs: seq<Batch<P>>, p: P): int {
    if bs == [] then 0 else Tally(bs[0], p) + Total(bs[1..], p)
  }

  ghost function TotalOf<P>(bs: seq<Batch<P>>): P -> int {
    p => Total(bs, p)
  }

  lemma {:induction false} TotalAppend<P>(first: seq<Batch<P>>, rest: seq<Batch<P>>, p: P)
    ensures Total(first + rest, p) == Total(first, p) + Total(rest, p)
  {
    if first == [] {
      assert first + rest == rest;
    } else {
      assert (first + rest)[1..] == first[1..] + rest;
      TotalAppend(first[1..], rest, p);
    }
  }

  lemma TotalLast<P>(q: seq<Batch<P>>, last: Batch<P>, p: P)
    ensures Total(q + [last], p) == Total(q, p) + Tally(last, p)
  {
    TotalAppend(q, [last], p);
    assert Total([last], p) == Tally(last, p) + Total([], p);
  }

  lemma {:induction false} NegatedTally<P>(b: Batch<P>, p: P)
    ensures Tally(Negated(b), p) == -Tally(b, p)
  {
    if b != [] {
      assert Negated(b)[1..] == Negated(b[1..]);
      NegatedTally(b[1..], p);
    }
  }

  lemma {:induction false} CopiesTally<P>(b: Batch<P>, n: nat, p: P)
    ensures Tally(Copies(b, n), p) == n * Tally(b, p)
  {
    if b != [] {
      assert Copies(b, n)[1..] == Copies(b[1..], n);
      CopiesTally(b[1..], n, p);
    }
  }

  lemma ChangesTally<P>(consumed: Batch<P>, internal: Batch<P>, produced: Batch<P>, p: P)
    ensures Tally(Changes(consumed, internal, produced), p) ==
              Tally(internal, p) + Tally(produced, p) - Tally(consumed, p)
  {
    TallyAppend(Negated(consumed) + internal, produced, p);
    TallyAppend(Negated(consumed), internal, p);
    NegatedTally(consumed, p);
  }

  /** What was held before the batches of `pending` from `i` on: what is held now, less their changes. */
  ghost function HeldBefore<P>(held: Batch<P>, pending: seq<Batch<P>>, i: nat): P -> int
    requires i <= |pending|
  {
    p => Tally(held, p) - Total(pending[i..], p)
  }

  ghost predicate NonNegative<P(!new)>(o: Points<P>, held: P -> int) {
    forall p :: !o.message(p) ==> held(p) >= 0
  }

  /** The batches can be made one after the other, each justified by what is held by then. */
  ghost predicate Chained<P(!new)>(o: Points<P>, held: Batch<P>, pending: seq<Batch<P>>) {
    && (forall i {:trigger HeldBefore(held, pending, i)} :: 0 <= i <= |pending| ==>
        NonNegative(o, HeldBefore(held, pending, i)))
    && (forall i {:trigger HeldBefore(held, pending, i)} :: 0 <= i < |pending| ==>
        Justified(o, HeldBefore(held, pending, i), TallyOf(pending[i])))
  }

  /** Only the capabilities held matter for justification. */
  lemma JustifiedSame<P(!new)>(o: Points<P>, held: P -> int, change: P -> int, held': P -> int, change': P -> int)
    requires Justified(o, held, change)
    requires forall p :: !o.message(p) ==> held(p) == held'(p)
    requires forall p :: change(p) == change'(p)
    ensures Justified(o, held', change')
  {
    forall p | change'(p) > 0 ensures Explained(o, held', change', p) {
      assert Explained(o, held, change, p);
      var q :| Explains(o, held, change, p, q);
      assert Explains(o, held', change', p, q);
    }
  }

  /** An operator's changes are justified by what it held. */
  lemma {:induction false} LegalExplained<P(!new)>(o: Points<P>, held: Batch<P>, messages: Batch<P>,
                                                   consumed: Batch<P>, internal: Batch<P>, produced: Batch<P>, p: P)
    requires PartialOrder(o.le) && Legal(o, held, messages, consumed, internal, produced)
    requires Tally(internal, p) > 0 || Tally(produced, p) > 0
    ensures Explained(o, TallyOf(held), TallyOf(Changes(consumed, internal, produced)), p)
    decreases |Below(o, Keys(consumed), p)|
  {
    var change := TallyOf(Changes(consumed, internal, produced));
    var q :| Grounds(o, held, consumed, p, q);
    ChangesTally(consumed, internal, produced, q);
    if o.message(q) && change(q) >= 0 {
      TallyListed(consumed, q);
      BelowFewer(o, Keys(consumed), q, p);
      LegalExplained(o, held, messages, consumed, internal, produced, q);
      ExplainedAbove(o, TallyOf(held), change, q, p);
    } else {
      assert Explains(o, TallyOf(held), change, p, q);
    }
  }

  lemma LegalJustified<P(!new)>(o: Points<P>, held: Batch<P>, messages: Batch<P>,
                                consumed: Batch<P>, internal: Batch<P>, produced: Batch<P>)
    requires PartialOrder(o.le) && Legal(o, held, messages, consumed, internal, produced)
    ensures Justified(o, TallyOf(held), TallyOf(Changes(consumed, internal, produced)))
  {
    forall p | Tally(Changes(consumed, internal, produced), p) > 0
      ensures Explained(o, TallyOf(held), TallyOf(Changes(consumed, internal, produced)), p)
    {
      ChangesTally(consumed, internal, produced, p);
      LegalExplained(o, held, messages, consumed, internal, produced, p);
    }
  }

  /** All keys of the batches. */
  ghost function AllKeys<P>(bs: seq<Batch<P>>): set<P> {
    if bs == [] then {} else Keys(bs[0]) + AllKeys(bs[1..])
  }

  lemma {:induction false} TotalListed<P>(bs: seq<Batch<P>>, p: P)
    requires Total(bs, p) != 0
    ensures p in AllKeys(bs)
  {
    if Tally(bs[0], p) != 0 {
      TallyListed(bs[0], p);
    } else {
      TotalListed(bs[1..], p);
    }
  }

  /** All that is pending from `i` on is justified together. */
  lemma {:induction false} ChainedTotal<P(!new)>(o: Points<P>, held: Batch<P>, pending: seq<Batch<P>>, i: nat)
    requires PartialOrder(o.le) && Chained(o, held, pending) && i <= |pending|
    ensures Justified(o, HeldBefore(held, pending, i), TotalOf(pending[i..]))
    decreases |pending| - i
  {
    if i < |pending| {
      ChainedTotal(o, held, pending, i + 1);
      assert pending[i..] == [pending[i]] + pending[i + 1..];
      var first, second := TallyOf(pending[i]), TotalOf(pending[i + 1..]);
      var keys := Keys(pending[i]) + AllKeys(pending[i + 1..]);
      forall q | first(q) != 0 || second(q) != 0 ensures q in keys {
        if first(q) != 0 { TallyListed(pending[i], q); } else { TotalListed(pending[i + 1..], q); }
      }
      SumJustified(o, HeldBefore(held, pending, i), first, HeldBefore(held, pending, i + 1), second,
                   TotalOf(pending[i..]), keys);
    }
  }
}
