/** Sends batches of pointstamp changes to all workers, and collects those received. */
module Progcasters {
  import opened Basics
  import opened Updates
  import opened ChangeBatches
  import opened Justify
  import opened Broadcast

  datatype Message<P> = Message(source: nat, counter: nat, changes: Batch<P>)

  /** A queue of messages: those on their way from one worker to another, or those that have arrived. */
  class Channel<P> {
    var queue: seq<Message<P>>

    constructor ()
      ensures queue == []
    {
      queue := [];
    }
  }

  /** All changes in the messages, in order. */
  function AllChanges<P>(messages: seq<Message<P>>): Batch<P> {
    if messages == [] then [] else messages[0].changes + AllChanges(messages[1..])
  }

  lemma {:induction false} AllChangesAppend<P>(messages: seq<Message<P>>, m: Message<P>)
    ensures AllChanges(messages + [m]) == AllChanges(messages) + m.changes
  {
    if messages == [] {
      assert messages + [m] == [m];
    } else {
      assert (messages + [m])[1..] == messages[1..] + [m];
      AllChangesAppend(messages[1..], m);
    }
  }

  class Progcaster<P(==,!new)> {
    const source: nat                     // the index of this worker
    var counter: nat                      // the number of batches sent
    const pushers: seq<Channel<P>>        // the channels to all workers, this one included
    const puller: Channel<P>              // the inbox of this worker

    ghost predicate Valid() {
      forall i, j :: 0 <= i < j < |pushers| ==> pushers[i] != pushers[j]
    }

    constructor (source: nat, pushers: seq<Channel<P>>, puller: Channel<P>)
      requires forall i, j :: 0 <= i < j < |pushers| ==> pushers[i] != pushers[j]
      ensures Valid() && counter == 0
      ensures this.source == source && this.pushers == pushers && this.puller == puller
    {
      this.source := source;
      this.pushers := pushers;
      this.puller := puller;
      counter := 0;
    }

    /** Sends the accumulated changes to every worker, as one batch under the next sequence number, or
        nothing at all if they cancel. */
    method Send(changes: ChangeBatch<P>) returns (ghost sent: Batch<P>)
      requires Valid() && changes.Valid()
      modifies this, changes, pushers
      ensures changes.Valid() && changes.updates == []
      ensures SameTally(sent, old(changes.updates))
      ensures sent == [] <==> AllZero(old(changes.updates)) && !LoneZero(old(changes.updates))
      ensures CompactPrefix(sent)
      ensures counter == old(counter) + if sent == [] then 0 else 1
      ensures forall i :: 0 <= i < |pushers| ==>
                pushers[i].queue == old(pushers[i].queue) + if sent ==
                    [] then [] else [Message(source, old(counter), sent)]
    {
      changes.Compact();
      assert changes.updates[..changes.clean] == changes.updates;
      assert AllZero(changes.updates) <==> AllZero(old(changes.updates));
      sent := changes.updates;
      var empty := changes.IsEmpty();
      if !empty {
        var batch := changes.updates;
        for i := 0 to |pushers|
          invariant counter == old(counter) && changes.updates == batch && changes.Valid()
          invariant forall j :: 0 <= j < i ==>
                    pushers[j].queue == old(pushers[j].queue) + [Message(source, counter, batch)]
          invariant forall j :: i <= j < |pushers| ==> pushers[j].queue == old(pushers[j].queue)
        {
          pushers[i].queue := pushers[i].queue + [Message(source, counter, batch)];
        }
        counter := counter + 1;
        changes.Clear();
      }
    }

    /** Takes in all messages that have arrived. */
    method Recv(changes: ChangeBatch<P>)
      requires changes.Valid()
      modifies puller, changes
      ensures changes.Valid() && puller.queue == []
      ensures SameTally(changes.updates, old(changes.updates) + AllChanges(old(puller.queue)))
      ensures Keys(changes.updates) <= Keys(old(changes.updates)) + Keys(AllChanges(old(puller.queue)))
    {
      ghost var taken: seq<Message<P>> := [];
      ghost var keys := Keys(changes.updates) + Keys(AllChanges(puller.queue));
      assert changes.updates + AllChanges(taken) == changes.updates;
      while puller.queue != []
        invariant changes.Valid()
        invariant old(puller.queue) == taken + puller.queue
        invariant SameTally(changes.updates, old(changes.updates) + AllChanges(taken))
        invariant Keys(changes.updates) <= keys && Keys(AllChanges(puller.queue)) <= keys
        decreases |puller.queue|
      {
        var message := puller.queue[0];
        KeysAppend(message.changes, AllChanges(puller.queue[1..]));
        puller.queue := puller.queue[1..];
        ghost var before := changes.updates;
        assert before + message.changes[..0] == before;
        for k := 0 to |message.changes|
          modifies changes
          invariant changes.Valid()
          invariant SameTally(changes.updates, before + message.changes[..k])
          invariant Keys(changes.updates) <= keys
        {
          ghost var now := changes.updates;
          assert message.changes[k] in message.changes;
          changes.Update(message.changes[k].0, message.changes[k].1);
          TallyNext(changes.updates, now, before, message.changes, k);
        }
        assert message.changes[..|message.changes|] == message.changes;
        TallyTaken(changes.updates, before, old(changes.updates), AllChanges(taken), message.changes);
        AllChangesAppend(taken, message);
        taken := taken + [message];
      }
      assert taken == old(puller.queue);
    }
  }

  lemma KeysAppend<K>(us: seq<Update<K>>, vs: seq<Update<K>>)
    ensures Keys(us + vs) == Keys(us) + Keys(vs)
  {
    assert forall u :: u in us + vs <==> u in us || u in vs;
  }

  lemma TallyNext<P(!new)>(after: Batch<P>, now: Batch<P>, before: Batch<P>, changes: Batch<P>, k: nat)
    requires k < |changes| && SameTally(now, before + changes[..k]) && SameTally(after, now + [changes[k]])
    ensures SameTally(after, before + changes[..k + 1])
  {
    assert before + changes[..k + 1] == before + changes[..k] + [changes[k]];
    TallyAppendAll(now, [changes[k]]);
    TallyAppendAll(before + changes[..k], [changes[k]]);
  }

  lemma TallyTaken<P(!new)>(after: Batch<P>, before: Batch<P>, start: Batch<P>, taken: Batch<P>, changes: Batch<P>)
    requires SameTally(before, start + taken) && SameTally(after, before + changes)
    ensures SameTally(after, start + (taken + changes))
  {
    assert start + (taken + changes) == start + taken + changes;
    TallyAppendAll(before, changes);
    TallyAppendAll(start + taken, changes);
  }

  // ---- inboxes and the channels of the protocol ----

  /** The batches in an inbox that came from worker `w`, in order. */
  function FromSource<P>(inbox: seq<Message<P>>, w: nat): seq<Batch<P>> {
    if inbox == [] then []
    else (if inbox[0].source == w then [inbox[0].changes] else []) + FromSource(inbox[1..], w)
  }

  lemma {:induction false} FromSourceAppend<P>(inbox: seq<Message<P>>, m: Message<P>, w: nat)
    ensures FromSource(inbox + [m], w) == FromSource(inbox, w) + if m.source == w then [m.changes] else []
  {
    if inbox == [] {
      assert inbox + [m] == [m];
    } else {
      assert (inbox + [m])[1..] == inbox[1..] + [m];
      FromSourceAppend(inbox[1..], m, w);
    }
  }

  /** Messages on their way, from each worker to each worker. */
  type Wires<P> = seq<seq<seq<Message<P>>>>

  predicate Square<P>(wires: Wires<P>, n: nat) {
    |wires| == n && forall w :: 0 <= w < n ==> |wires[w]| == n
  }

  /** The inbox of `v` holds, merged in some order, the first batches that the channels to `v` hold, and the
      wires to `v` hold the others. */
  ghost predicate Merges<P(!new)>(s: System<P>, v: nat, inbox: seq<Message<P>>, wires: Wires<P>)
    requires Shaped(s) && v < |s.held| && Square(wires, |s.held|)
  {
    && (forall k :: 0 <= k < |inbox| ==> inbox[k].source < |s.held|)
    && (forall w: nat :: w < |s.held| ==> MergesFrom(s, v, inbox, wires[w][v], w))
  }

  ghost predicate MergesFrom<P(!new)>(s: System<P>, v: nat, inbox: seq<Message<P>>, wire: seq<Message<P>>, w: nat)
    requires Shaped(s) && v < |s.held| && w < |s.held|
  {
    && (forall k :: 0 <= k < |wire| ==> wire[k].source == w)
    && FromSource(inbox, w) + FromSource(wire, w) == s.queues[w][v]
  }

  /** What sending does to a wire: one message more, unless there is nothing to send. */
  function News<P(==)>(source: nat, counter: nat, sent: Batch<P>): seq<Message<P>> {
    if sent == [] then [] else [Message(source, counter, sent)]
  }

  /** A batch sent goes onto the wire to every worker. */
  lemma SendMerges<P(!new)>(s: System<P>, s': System<P>, v: nat, inbox: seq<Message<P>>, wires: Wires<P>, w: nat,
                            counter: nat, sent: Batch<P>, wires': Wires<P>)
    requires Shaped(s) && v < |s.held| && w < |s.held| && Square(wires, |s.held|) && Square(wires', |s.held|)
    requires Merges(s, v, inbox, wires)
    requires s' == s.(local := s.local[w := []], queues := s.queues[w := PushAll(s.queues[w], sent)])
    requires forall x :: 0 <= x < |s.held| ==>
               wires'[x][v] == if x == w then wires[w][v] + News(w, counter, sent) else wires[x][v]
    ensures Shaped(s') && Merges(s', v, inbox, wires')
  {
    forall x: nat | x < |s.held| ensures MergesFrom(s', v, inbox, wires'[x][v], x) {
      assert MergesFrom(s, v, inbox, wires[x][v], x);
      if x == w {
        assert wires[w][v] + [] == wires[w][v];
        FromSourceAppend(wires[w][v], Message(w, counter, sent), w);
        Associative(FromSource(inbox, w), FromSource(wires[w][v], w), [sent]);
      }
    }
  }

  /** A message that arrives moves from a wire to an inbox; in which order those of different senders do is
      left open. */
  lemma ArriveMerges<P(!new)>(s: System<P>, v: nat, inbox: seq<Message<P>>, wires: Wires<P>, w: nat, wires': Wires<P>)
    requires Shaped(s) && v < |s.held| && w < |s.held| && Square(wires, |s.held|) && Square(wires', |s.held|)
    requires Merges(s, v, inbox, wires) && wires[w][v] != []
    requires forall x :: 0 <= x < |s.held| ==> wires'[x][v] == if x == w then wires[w][v][1..] else wires[x][v]
    ensures Merges(s, v, inbox + [wires[w][v][0]], wires')
  {
    var m := wires[w][v][0];
    assert MergesFrom(s, v, inbox, wires[w][v], w) && m.source == w;
    forall x: nat | x < |s.held| ensures MergesFrom(s, v, inbox + [m], wires'[x][v], x) {
      assert MergesFrom(s, v, inbox, wires[x][v], x);
      FromSourceAppend(inbox, m, x);
      if x == w {
        Associative(FromSource(inbox, w), [m.changes], FromSource(wires'[w][v], w));
      }
    }
  }

  /** The state once `v` has taken in `changes`: what is still on a wire to it is what is left under way. */
  ghost predicate Drained<P>(s: System<P>, v: nat, changes: Batch<P>, wires: Wires<P>, s': System<P>)
    requires Shaped(s) && v < |s.held| && Square(wires, |s.held|)
  {
    && Shaped(s')
    && s' == s.(queues := s'.queues, received := s.received[v := s.received[v] + changes])
    && (forall w: nat :: w < |s.held| ==> LeftFrom(s.queues[w], v, wires, w, s'.queues[w]))
  }

  /** Of the channels from `w`, only that to `v` has changed. */
  ghost predicate LeftFrom<P>(channels: seq<seq<Batch<P>>>, v: nat, wires: Wires<P>, w: nat,
                              channels': seq<seq<Batch<P>>>)
    requires v < |channels| && Square(wires, |channels|) && w < |channels|
  {
    channels' == channels[v := FromSource(wires[w][v], w)]
  }

  ghost predicate Follow<P(!new)>(o: Points<P>, s: System<P>, steps: seq<Step<P>>, states: seq<System<P>>,
                                  s': System<P>) {
    && |states| == |steps| + 1 && states[0] == s && states[|steps|] == s'
    && (forall i :: 0 <= i < |states| ==> Shaped(states[i]))
    && (forall i :: 0 <= i < |steps| ==> Next(o, states[i], steps[i], states[i + 1]))
  }

  /** Emptying an inbox, in whatever order its messages arrived, is a run of the protocol that delivers the
      batches that have arrived to its owner. */
  lemma {:induction false} InboxDrains<P(!new)>(o: Points<P>, s: System<P>, v: nat, inbox: seq<Message<P>>,
                                                wires: Wires<P>)
    returns (steps: seq<Step<P>>, states: seq<System<P>>, s': System<P>)
    requires Shaped(s) && v < |s.held| && Square(wires, |s.held|) && Merges(s, v, inbox, wires)
    ensures Follow(o, s, steps, states, s') && Drained(s, v, AllChanges(inbox), wires, s')
    decreases |inbox|
  {
    if inbox == [] {
      steps, states, s' := [], [s], s;
      NoneDrained(s, v, wires);
    } else {
      var step, s1 := TakeOne(o, s, v, inbox, wires);
      var steps1, states1;
      steps1, states1, s' := InboxDrains(o, s1, v, inbox[1..], wires);
      steps, states := [step] + steps1, [s] + states1;
      hide Merges;
      hide Next;
      DrainOn(s, v, inbox, wires, s1, s');
      FollowOn(o, s, step, s1, steps1, states1, s');
    }
  }

  lemma NoneDrained<P(!new)>(s: System<P>, v: nat, wires: Wires<P>)
    requires Shaped(s) && v < |s.held| && Square(wires, |s.held|) && Merges(s, v, [], wires)
    ensures Drained(s, v, [], wires, s)
  {
    assert s.received[v] + [] == s.received[v];
    forall w: nat | w < |s.held| ensures LeftFrom(s.queues[w], v, wires, w, s.queues[w]) {
      assert MergesFrom(s, v, [], wires[w][v], w);
      assert FromSource<P>([], w) + FromSource(wires[w][v], w) == FromSource(wires[w][v], w);
    }
  }

  lemma DrainOn<P(!new)>(s: System<P>, v: nat, inbox: seq<Message<P>>, wires: Wires<P>, s1: System<P>, s': System<P>)
    requires Shaped(s) && Shaped(s1) && v < |s.held| == |s1.held| && Square(wires, |s.held|) && inbox != []
    requires s1 == s.(queues := s1.queues, received := s.received[v := s.received[v] + inbox[0].changes])
    requires forall x: nat, u: nat :: x < |s.held| && u < |s.held| && u != v ==> s1.queues[x][u] == s.queues[x][u]
    requires Drained(s1, v, AllChanges(inbox[1..]), wires, s')
    ensures Drained(s, v, AllChanges(inbox), wires, s')
  {
    Associative(s.received[v], inbox[0].changes, AllChanges(inbox[1..]));
    assert s'.received == s.received[v := s.received[v] + AllChanges(inbox)];
    forall w: nat | w < |s.held| ensures LeftFrom(s.queues[w], v, wires, w, s'.queues[w]) {
      assert LeftFrom(s1.queues[w], v, wires, w, s'.queues[w]);
    }
  }

  lemma FollowOn<P(!new)>(o: Points<P>, s: System<P>, step: Step<P>, s1: System<P>, steps: seq<Step<P>>,
                          states: seq<System<P>>, s': System<P>)
    requires Shaped(s) && Next(o, s, step, s1) && Follow(o, s1, steps, states, s')
    ensures Follow(o, s, [step] + steps, [s] + states, s')
  {
    hide Next;
    var all, through := [step] + steps, [s] + states;
    forall i | 0 <= i < |all| ensures Next(o, through[i], all[i], through[i + 1]) {
      if i > 0 {
        assert Next(o, states[i - 1], steps[i - 1], states[i]);
      }
    }
  }

  lemma TakeOne<P(!new)>(o: Points<P>, s: System<P>, v: nat, inbox: seq<Message<P>>, wires: Wires<P>)
    returns (step: Step<P>, s': System<P>)
    requires Shaped(s) && v < |s.held| && Square(wires, |s.held|) && Merges(s, v, inbox, wires) && inbox != []
    ensures Shaped(s') && Next(o, s, step, s') && |s'.held| == |s.held| && Merges(s', v, inbox[1..], wires)
    ensures s' == s.(queues := s'.queues, received := s.received[v := s.received[v] + inbox[0].changes])
    ensures forall x: nat, u: nat :: x < |s.held| && u < |s.held| && u != v ==> s'.queues[x][u] == s.queues[x][u]
  {
    var w := inbox[0].source;
    assert MergesFrom(s, v, inbox, wires[w][v], w);
    step := Receive(w, v);
    s' := s.(queues := s.queues[w := s.queues[w][v := s.queues[w][v][1..]]],
             received := s.received[v := s.received[v] + s.queues[w][v][0]]);
    forall x: nat | x < |s.held| ensures MergesFrom(s', v, inbox[1..], wires[x][v], x) {
      assert MergesFrom(s, v, inbox, wires[x][v], x);
    }
  }

  /** The messages from each worker carry consecutive sequence numbers, up to that worker's counter. */
  ghost predicate InSequence<P>(inbox: seq<Message<P>>, w: nat, counter: nat)
    decreases |inbox|
  {
    if inbox == [] then true
    else
      var last := inbox[|inbox| - 1];
      if last.source == w then counter > 0 && last.counter == counter - 1 &&
      InSequence(inbox[..|inbox| - 1], w, counter - 1)
      else InSequence(inbox[..|inbox| - 1], w, counter)
  }

  /** Sending keeps the numbers of every sender's messages in sequence. */
  lemma SendInSequence<P>(inbox: seq<Message<P>>, x: nat, counter: nat, m: Message<P>)
    requires InSequence(inbox, x, counter) && (m.source == x ==> m.counter == counter)
    ensures InSequence(inbox + [m], x, if m.source == x then counter + 1 else counter)
  {
    assert (inbox + [m])[..|inbox|] == inbox;
  }

  /** A message from another sender does not matter, wherever it comes. */
  lemma {:induction false} ElsewhereInSequence<P>(a: seq<Message<P>>, m: Message<P>, b: seq<Message<P>>, x: nat,
                                                  counter: nat)
    requires m.source != x && InSequence(a + b, x, counter)
    ensures InSequence(a + [m] + b, x, counter)
    decreases |b|
  {
    if b == [] {
      assert a + b == a && a + [m] + b == a + [m] && (a + [m])[..|a|] == a;
    } else {
      var n := |b| - 1;
      assert (a + b)[..|a| + n] == a + b[..n] && (a + [m] + b)[..|a| + 1 + n] == a + [m] + b[..n];
      assert (a + b)[|a + b| - 1] == b[n] == (a + [m] + b)[|a + [m] + b| - 1];
      ElsewhereInSequence(a, m, b[..n], x, if b[n].source == x then counter - 1 else counter);
    }
  }

  /** So does receiving. */
  lemma {:induction false} ReceiveInSequence<P>(inbox: seq<Message<P>>, x: nat, counter: nat)
    requires inbox != [] && InSequence(inbox, x, counter)
    ensures InSequence(inbox[1..], x, counter)
    decreases |inbox|
  {
    var n := |inbox| - 1;
    if n > 0 {
      assert inbox[1..][..n - 1] == inbox[..n][1..];
      ReceiveInSequence(inbox[..n], x, if inbox[n].source == x then counter - 1 else counter);
    }
  }

  lemma {:induction false} RestInSequence<P>(a: seq<Message<P>>, b: seq<Message<P>>, x: nat, counter: nat)
    requires InSequence(a + b, x, counter)
    ensures InSequence(b, x, counter)
    decreases |a|
  {
    if a == [] {
      assert a + b == b;
    } else {
      ReceiveInSequence(a + b, x, counter);
      assert (a + b)[1..] == a[1..] + b;
      RestInSequence(a[1..], b, x, counter);
    }
  }
}
