/** Delivery of requested notifications once frontiers have passed them. */
module Notificators {
  import opened Updates
  import opened ChangeBatches
  import opened Orders
  import opened Timestamps

  /** No element of any frontier is less than or equal to `t`. */
  predicate Ready<T>(le: (T, T) -> bool, frontiers: seq<seq<T>>, t: T) {
    forall i :: 0 <= i < |frontiers| ==> !AnyLessEqual(le, frontiers[i], t)
  }

  /** Of the elements: a time is ready if none of any frontier is less than or equal to it, and held back
      if one of some frontier is. */
  lemma ReadyExactly<T(!new)>(le: (T, T) -> bool, frontiers: seq<seq<T>>, t: T)
    ensures Ready(le, frontiers, t) <==>
              forall i, f :: 0 <= i < |frontiers| && f in frontiers[i] ==> !le(f, t)
    ensures !Ready(le, frontiers, t) <==>
              exists i, f :: 0 <= i < |frontiers| && f in frontiers[i] && le(f, t)
  {
    if Ready(le, frontiers, t) {
      forall i, f | 0 <= i < |frontiers| && f in frontiers[i] ensures !le(f, t) {
        assert !AnyLessEqual(le, frontiers[i], t);
      }
    } else {
      var i :| 0 <= i < |frontiers| && AnyLessEqual(le, frontiers[i], t);
      var k :| 0 <= k < |frontiers[i]| && le(frontiers[i][k], t);
      assert frontiers[i][k] in frontiers[i];
    }
  }

  /** Every element of a frontier has an element of the earlier one before it. */
  ghost predicate Advanced<T(!new)>(le: (T, T) -> bool, before: seq<seq<T>>, after: seq<seq<T>>) {
    && |before| == |after|
    && forall i, t :: 0 <= i < |before| && t in after[i] ==> AnyLessEqual(le, before[i], t)
  }

  lemma AdvancedCovers<T(!new)>(le: (T, T) -> bool, before: seq<T>, after: seq<T>, t: T)
    requires PartialOrder(le) && (forall u :: u in after ==> AnyLessEqual(le, before, u)) && AnyLessEqual(le, after, t)
    ensures AnyLessEqual(le, before, t)
  {
    var k :| 0 <= k < |after| && le(after[k], t);
    assert after[k] in after;
    var j :| 0 <= j < |before| && le(before[j], after[k]);
    assert le(before[j], t);
  }

  /** What is ready stays ready as frontiers advance. */
  lemma ReadyStays<T(!new)>(le: (T, T) -> bool, before: seq<seq<T>>, after: seq<seq<T>>, t: T)
    requires PartialOrder(le) && Advanced(le, before, after)
    ensures Ready(le, before, t) ==> Ready(le, after, t)
  {
    forall i | 0 <= i < |after| && AnyLessEqual(le, after[i], t) ensures AnyLessEqual(le, before[i], t) {
      AdvancedCovers(le, before[i], after[i], t);
    }
  }

  /** All counts of requests are positive. */
  predicate Counted<T>(pending: seq<Update<T>>) {
    forall k :: 0 <= k < |pending| ==> pending[k].1 > 0
  }

  lemma {:induction false} CountedTally<T>(pending: seq<Update<T>>, t: T)
    requires Counted(pending)
    ensures Tally(pending, t) >= 0
    ensures Tally(pending, t) > 0 <==> exists k :: 0 <= k < |pending| && pending[k].0 == t
  {
    if pending != [] {
      CountedTally(pending[1..], t);
      if k :| 0 <= k < |pending[1..]| && pending[1..][k].0 == t {
        assert pending[k + 1].0 == t;
      }
      if k :| 0 < k < |pending| && pending[k].0 == t {
        assert pending[1..][k - 1].0 == t;
      }
    }
  }

  /** A minimum of a nonempty heap. */
  lemma {:induction false} LeastExists<T(!new)>(lt: (T, T) -> bool, heap: multiset<T>) returns (m: T)
    requires StrictTotal(lt) && heap != multiset{}
    ensures m in heap && forall u :: u in heap ==> !lt(u, m)
    decreases |heap|
  {
    var x :| x in heap;
    var rest := heap - multiset{x};
    if rest == multiset{} {
      m := x;
      assert heap == multiset{x};
    } else {
      var y := LeastExists(lt, rest);
      m := if lt(x, y) then x else y;
      forall u | u in heap ensures !lt(u, m) {
        if u != x {
          assert u in rest;
        }
      }
    }
  }

  method MergeRequests<T(==,!new)>(lt: (T, T) -> bool, requests: seq<Update<T>>) returns (pending: seq<Update<T>>)
    requires StrictTotal(lt) && Counted(requests) && requests != []
    ensures Counted(pending) && StrictKeys(lt, pending) && SameTally(pending, requests)
  {
    hide StrictTotal;
    hide SortBy;
    hide Retain;
    SortBySorted(lt, requests);
    pending := SortBy(lt, requests);
    var n := |pending|;
    forall k | 0 <= k < n ensures pending[k].1 > 0 { assert pending[k] in pending; }
    for i := 0 to n - 1
      invariant |pending| == n && SortedKeys(lt, pending)
      invariant SameTally(pending, requests)
      invariant forall k :: 0 <= k < n ==> pending[k].1 >= 0
      invariant forall k :: i <= k < n ==> pending[k].1 > 0
      invariant forall k :: 0 <= k < i && pending[k].1 != 0 ==> pending[k].0 != pending[k + 1].0
    {
      if pending[i].0 == pending[i + 1].0 {
        MergeNeighbours(pending, i);
        pending := pending[i + 1 := (pending[i + 1].0, pending[i + 1].1 + pending[i].1)];
        pending := pending[i := (pending[i].0, 0)];
      }
    }
    MergedStrict(lt, pending);
    RetainStrict(lt, pending);
    forall t ensures Tally(Retain(pending), t) == Tally(pending, t) { RetainTally(pending, t); }
    forall k | 0 <= k < |Retain(pending)|
      ensures Retain(pending)[k].1 > 0 { assert Retain(pending)[k] in Retain(pending); }
    pending := Retain(pending);
  }

  lemma MergedStrict<T(!new)>(lt: (T, T) -> bool, us: seq<Update<T>>)
    requires StrictTotal(lt) && SortedKeys(lt, us)
    requires forall k :: 0 <= k < |us| - 1 && us[k].1 != 0 ==> us[k].0 != us[k + 1].0
    ensures forall a, b :: 0 <= a < b < |us| && us[a].1 != 0 && us[b].1 != 0 ==> lt(us[a].0, us[b].0)
  {
    forall a, b | 0 <= a < b < |us| && us[a].1 != 0 && us[b].1 != 0 ensures lt(us[a].0, us[b].0) {
      assert us[a].0 != us[a + 1].0;
    }
  }

  class FrontierNotificator<T(==,!new)> {
    const order: Order<T>
    var pending: seq<Update<T>>        // times requested, each with a count
    var available: multiset<T>         // a heap of times ready to be delivered, least first

    ghost predicate Valid()
      reads this
    {
      Lawful(order) && Counted(pending)
    }

    constructor (order: Order<T>, times: seq<T>)
      requires Lawful(order)
      ensures Valid() && this.order == order && available == multiset{}
      ensures |pending| == |times| && forall k :: 0 <= k < |times| ==> pending[k] == (times[k], 1)
    {
      this.order := order;
      pending := seq(|times|, k requires 0 <= k < |times| => (times[k], 1));
      available := multiset{};
    }

    lemma PendingCounted()
      requires Valid()
      ensures Counted(pending)
    {
    }

    method NotifyAt(t: T)
      requires Valid()
      modifies this
      ensures Valid() && available == old(available) && pending == old(pending) + [(t, 1)]
    {
      pending := pending + [(t, 1)];
    }

    /** Requests a notification, at once available if no frontier holds it back. */
    method NotifyAtFrontiered(t: T, frontiers: seq<seq<T>>)
      requires Valid()
      modifies this
      ensures Valid()
      ensures if Ready(order.le, frontiers, t) then available == old(available) + multiset{t} && pending == old(pending)
              else available == old(available) && pending == old(pending) + [(t, 1)]
      ensures t in available - old(available) <==>
                forall i, f :: 0 <= i < |frontiers| && f in frontiers[i] ==> !order.le(f, t)
    {
      ReadyExactly(order.le, frontiers, t);
      if Ready(order.le, frontiers, t) {
        available := available + multiset{t};
      } else {
        pending := pending + [(t, 1)];
      }
    }

    /** Sorts pending requests and adds up those for the same time. */
    method Merge()
      requires Valid() && pending != []
      modifies this`pending
      ensures Valid() && StrictKeys(order.lt, pending)
      ensures SameTally(pending, old(pending))
    {
      pending := MergeRequests(order.lt, pending);
    }

    /** Goes through the pending requests, one for each time, and moves those that are ready to the heap. */
    method MoveReady(frontiers: seq<seq<T>>)
      requires Valid() && StrictKeys(order.lt, pending)
      modifies this
      ensures Valid() && Moved(order.le, frontiers, old(pending), old(available), pending, available)
    {
      ghost var merged := pending;
      for i := 0 to |pending|
        modifies this
        invariant |pending| == |merged|
        invariant forall k :: 0 <= k < |merged| ==> pending[k].0 == merged[k].0
        invariant forall k :: 0 <= k < i ==>
                  pending[k].1 == if Ready(order.le, frontiers, merged[k].0) then 0 else merged[k].1
        invariant forall k :: i <= k < |merged| ==> pending[k] == merged[k]
        invariant forall t :: available[t] == old(available)[t] +
                    (if Ready(order.le, frontiers, t) && Tally(merged[..i], t) > 0 then 1 else 0)
      {
        CountMore(order.lt, merged, i);
        if Ready(order.le, frontiers, pending[i].0) {
          available := available + multiset{pending[i].0};
          pending := pending[i := (pending[i].0, 0)];
        }
      }
      assert merged[..|merged|] == merged;
      RetainReady(order, frontiers, merged, pending);
      pending := Retain(pending);
    }

    /** Moves pending requests that are ready to the heap, each time once; the others keep their counts. */
    method MakeAvailable(frontiers: seq<seq<T>>)
      requires Valid()
      modifies this
      ensures Valid() && Moved(order.le, frontiers, old(pending), old(available), pending, available)
      ensures forall t :: t in available - old(available) <==>
                Tally(old(pending), t) > 0 && forall i, f :: 0 <= i < |frontiers| && f in frontiers[i] ==>
                    !order.le(f, t)
      ensures forall t :: Tally(pending, t) > 0 <==>
                Tally(old(pending), t) > 0 &&
                exists i, f :: 0 <= i < |frontiers| && f in frontiers[i] && order.le(f, t)
    {
      hide *;
      ghost var requests := pending;
      if pending != [] {
        Merge();
        ghost var merged := pending;
        MoveReady(frontiers);
        MovedSame(order.le, frontiers, requests, merged, old(available), pending, available);
      } else {
        MovedNothing(order.le, frontiers, pending, available);
      }
      MovedMeans(order.le, frontiers, requests, old(available), pending, available);
    }

    /** Takes the least time off the heap, and all its copies. */
    method PopLeast() returns (front: T)
      requires Valid() && available != multiset{}
      modifies this`available
      ensures Valid() && Popped(order.lt, old(available), front, available)
    {
      var m := LeastExists(order.lt, available);
      front :| front in available && forall u :: u in available ==> !order.lt(u, front);
      available := available - multiset{front};
      while front in available
        invariant Valid() && forall u :: u != front ==> available[u] == old(available)[u]
        decreases |available|
      {
        available := available - multiset{front};
      }
    }

    /** The next available time, if any; `heap` is what it is taken from, as pending requests are looked
        at again only once the heap is empty. */
    method Next(frontiers: seq<seq<T>>) returns (next: Option<T>, ghost heap: multiset<T>)
      requires Valid()
      modifies this
      ensures Valid()
      ensures old(available) != multiset{} ==> heap == old(available) && pending == old(pending)
      ensures old(available) == multiset{} ==> Moved(order.le, frontiers, old(pending), multiset{}, pending, heap)
      ensures if next.None? then heap == available == multiset{} else Popped(order.lt, heap, next.value, available)
      ensures next.Some? && old(available) == multiset{} ==>
                forall i, f :: 0 <= i < |frontiers| && f in frontiers[i] ==> !order.le(f, next.value)
      ensures next.None? ==> forall t :: Tally(pending, t) > 0 ==>
                exists i, f :: 0 <= i < |frontiers| && f in frontiers[i] && order.le(f, t)
    {
      hide *;
      ghost var requests, kept := pending, available;
      if available == multiset{} {
        MakeAvailable(frontiers);
        MovedFresh(order.le, frontiers, requests, pending, available);
      }
      heap := available;
      if available == multiset{} {
        next := None;
      } else {
        var front := PopLeast();
        PoppedIn(order.lt, heap, front, available);
        next := Some(front);
      }
    }
  }

  /** All that is pending and ready has joined the heap, each time once, and nothing else has changed. */
  ghost predicate Moved<T(!new)>(le: (T, T) -> bool, frontiers: seq<seq<T>>, pending: seq<Update<T>>, heap: multiset<T>,
                                 pending': seq<Update<T>>, heap': multiset<T>) {
    && (forall t :: Tally(pending', t) == if Ready(le, frontiers, t) then 0 else Tally(pending, t))
    && (forall t :: heap'[t] == heap[t] + if Ready(le, frontiers, t) && Tally(pending, t) > 0 then 1 else 0)
  }

  lemma MovedSame<T(!new)>(le: (T, T) -> bool, frontiers: seq<seq<T>>, requests: seq<Update<T>>, merged: seq<Update<T>>,
                           heap: multiset<T>, pending: seq<Update<T>>, heap': multiset<T>)
    requires SameTally(merged, requests) && Moved(le, frontiers, merged, heap, pending, heap')
    ensures Moved(le, frontiers, requests, heap, pending, heap')
  {
    hide Ready;
  }

  lemma MovedNothing<T(!new)>(le: (T, T) -> bool, frontiers: seq<seq<T>>, pending: seq<Update<T>>, heap: multiset<T>)
    requires pending == []
    ensures Moved(le, frontiers, pending, heap, pending, heap)
  {
  }

  /** What has been moved, and what has not, in terms of the elements of frontiers. */
  lemma MovedMeans<T(!new)>(le: (T, T) -> bool, frontiers: seq<seq<T>>, pending: seq<Update<T>>, heap: multiset<T>,
                            pending': seq<Update<T>>, heap': multiset<T>)
    requires Moved(le, frontiers, pending, heap, pending', heap')
    ensures forall t :: t in heap' - heap <==>
              Tally(pending, t) > 0 && forall i, f :: 0 <= i < |frontiers| && f in frontiers[i] ==> !le(f, t)
    ensures forall t :: Tally(pending', t) > 0 <==>
              Tally(pending, t) > 0 && exists i, f :: 0 <= i < |frontiers| && f in frontiers[i] && le(f, t)
  {
    hide Ready;
    forall t
      ensures t in heap' - heap <==>
                Tally(pending, t) > 0 && forall i, f :: 0 <= i < |frontiers| && f in frontiers[i] ==> !le(f, t)
    {
      ReadyExactly(le, frontiers, t);
    }
    forall t
      ensures Tally(pending', t) > 0 <==>
                Tally(pending, t) > 0 && exists i, f :: 0 <= i < |frontiers| && f in frontiers[i] && le(f, t)
    {
      ReadyExactly(le, frontiers, t);
    }
  }

  /** A heap that was empty gets what is ready, and keeps the rest pending. */
  lemma MovedFresh<T(!new)>(le: (T, T) -> bool, frontiers: seq<seq<T>>, pending: seq<Update<T>>,
                            pending': seq<Update<T>>, heap': multiset<T>)
    requires Moved(le, frontiers, pending, multiset{}, pending', heap')
    ensures forall t :: t in heap' ==> forall i, f :: 0 <= i < |frontiers| && f in frontiers[i] ==> !le(f, t)
    ensures forall t :: Tally(pending', t) > 0 ==>
              exists i, f :: 0 <= i < |frontiers| && f in frontiers[i] && le(f, t)
  {
    hide Moved;
    MovedMeans(le, frontiers, pending, multiset{}, pending', heap');
    assert heap' - multiset{} == heap';
  }

  lemma PoppedIn<T(!new)>(lt: (T, T) -> bool, heap: multiset<T>, front: T, heap': multiset<T>)
    requires Popped(lt, heap, front, heap')
    ensures front in heap
  {
  }

  /** `front` was the least of the heap, and all its copies are gone. */
  ghost predicate Popped<T(!new)>(lt: (T, T) -> bool, heap: multiset<T>, front: T, heap': multiset<T>) {
    && front in heap
    && (forall u :: heap'[u] == if u == front then 0 else heap[u])
    && (forall u :: u in heap' ==> lt(front, u))
  }

  lemma CountMore<T(!new)>(lt: (T, T) -> bool, merged: seq<Update<T>>, i: nat)
    requires StrictTotal(lt) && StrictKeys(lt, merged) && Counted(merged) && i < |merged|
    ensures forall t :: Tally(merged[..i + 1], t) == Tally(merged[..i], t) + if t == merged[i].0 then merged[i].1 else 0
    ensures Tally(merged[..i], merged[i].0) == 0
  {
    assert merged[..i + 1] == merged[..i] + [merged[i]];
    TallyAppendAll(merged[..i], [merged[i]]);
    forall t ensures Tally([merged[i]], t) == if t == merged[i].0 then merged[i].1 else 0 {
      assert [merged[i]][1..] == [];
    }
    TallyAbsent(merged[..i], merged[i].0);
  }

  lemma {:induction false} RetainReady<T(!new)>(o: Order<T>, frontiers: seq<seq<T>>, merged: seq<Update<T>>,
                                                left: seq<Update<T>>)
    requires Counted(merged) && |left| == |merged|
    requires forall k :: 0 <= k < |merged| ==>
              left[k] == (merged[k].0, if Ready(o.le, frontiers, merged[k].0) then 0 else merged[k].1)
    ensures Counted(Retain(left))
    ensures forall t :: Tally(Retain(left), t) == if Ready(o.le, frontiers, t) then 0 else Tally(merged, t)
  {
    forall k | 0 <= k < |Retain(left)| ensures Retain(left)[k].1 > 0 {
      assert Retain(left)[k] in Retain(left);
    }
    forall t ensures Tally(Retain(left), t) == if Ready(o.le, frontiers, t) then 0 else Tally(merged, t) {
      RetainTally(left, t);
      LeftTally(o, frontiers, merged, left, t);
    }
  }

  lemma {:induction false} LeftTally<T(!new)>(o: Order<T>, frontiers: seq<seq<T>>, merged: seq<Update<T>>,
                                              left: seq<Update<T>>, t: T)
    requires |left| == |merged|
    requires forall k :: 0 <= k < |merged| ==>
              left[k] == (merged[k].0, if Ready(o.le, frontiers, merged[k].0) then 0 else merged[k].1)
    ensures Tally(left, t) == if Ready(o.le, frontiers, t) then 0 else Tally(merged, t)
  {
    if merged != [] {
      LeftTally(o, frontiers, merged[1..], left[1..], t);
    }
  }

  ghost predicate NonDecreasing<T>(lt: (T, T) -> bool, ts: seq<T>) {
    forall a, b :: 0 <= a < b < |ts| ==> !lt(ts[b], ts[a])
  }

  /** No time in the heap is before the last delivered one. */
  ghost predicate AllAfter<T(!new)>(lt: (T, T) -> bool, delivered: seq<T>, heap: multiset<T>) {
    delivered != [] ==> forall u :: u in heap ==> !lt(u, delivered[|delivered| - 1])
  }

  /** What a session keeps of its requests. No request is lost or invented: the times waiting are those in
      the heap or pending. None that is ready is pending, and the heap has only such and what it had before. */
  ghost predicate Accounted<T(!new)>(le: (T, T) -> bool, frontiers: seq<seq<T>>, leftover: multiset<T>,
                                     waiting: multiset<T>, heap: multiset<T>, pending: multiset<T>) {
    && (forall t :: t in waiting <==> t in heap || t in pending)
    && (forall t :: t in pending ==> !Ready(le, frontiers, t))
    && (forall t :: t in heap ==> Ready(le, frontiers, t) || t in leftover)
  }

  ghost predicate NoneReady<T(!new)>(le: (T, T) -> bool, frontiers: seq<seq<T>>, waiting: multiset<T>) {
    forall t :: t in waiting ==> !Ready(le, frontiers, t)
  }

  /** Delivering `t` answers all requests for it that are not pending again, which none is if it is ready; it
      is ready or was left over, and before everything that is ready and still waiting. */
  ghost predicate Answers<T(!new)>(o: Order<T>, frontiers: seq<seq<T>>, leftover: multiset<T>, waiting: multiset<T>,
                                   t: T, pending: multiset<T>, waiting': multiset<T>) {
    && t in waiting && waiting' == waiting[t := pending[t]]
    && (Ready(o.le, frontiers, t) || t in leftover) && (Ready(o.le, frontiers, t) ==> t !in waiting')
    && (forall u :: u in waiting' && Ready(o.le, frontiers, u) ==> o.lt(t, u))
  }

  /** How many requests for `t` a delivery answers. */
  ghost function Answered<T>(waiting: multiset<T>, waiting': multiset<T>, t: T): nat {
    (waiting - waiting')[t]
  }

  /** One more request joins the heap if it is ready, and is pending otherwise. */
  lemma AccountedRequest<T(!new)>(le: (T, T) -> bool, frontiers: seq<seq<T>>, leftover: multiset<T>,
                                  waiting: multiset<T>, heap: multiset<T>, pending: multiset<T>, t: T)
    requires Accounted(le, frontiers, leftover, waiting, heap, pending)
    ensures Ready(le, frontiers, t) ==>
              Accounted(le, frontiers, leftover, waiting + multiset{t}, heap + multiset{t}, pending)
    ensures !Ready(le, frontiers, t) ==>
              Accounted(le, frontiers, leftover, waiting + multiset{t}, heap, pending + multiset{t})
  {
  }

  /** Delivering the least of the heap answers all requests for it. */
  lemma AccountedDelivery<T(!new)>(o: Order<T>, frontiers: seq<seq<T>>, leftover: multiset<T>, waiting: multiset<T>,
                                   heap: multiset<T>, pending: multiset<T>, t: T, heap': multiset<T>)
    requires Accounted(o.le, frontiers, leftover, waiting, heap, pending) && Popped(o.lt, heap, t, heap')
    ensures Answers(o, frontiers, leftover, waiting, t, pending, waiting[t := pending[t]])
    ensures Accounted(o.le, frontiers, leftover, waiting[t := pending[t]], heap', pending)
  {
  }

  /** The least of the heap is not before the last delivery, nor after anything left. */
  lemma DeliverNonDecreasing<T(!new)>(lt: (T, T) -> bool, delivered: seq<T>, heap: multiset<T>, t: T,
                                      heap': multiset<T>)
    requires StrictTotal(lt) && NonDecreasing(lt, delivered) && AllAfter(lt, delivered, heap) &&
             Popped(lt, heap, t, heap')
    ensures NonDecreasing(lt, delivered + [t]) && AllAfter(lt, delivered + [t], heap')
  {
    var all := delivered + [t];
    forall a, b | 0 <= a < b < |all| ensures !lt(all[b], all[a]) {
      if b == |delivered| && a < |delivered| - 1 {
        assert !lt(delivered[|delivered| - 1], delivered[a]);
      }
    }
  }

  lemma NothingReady<T(!new)>(le: (T, T) -> bool, frontiers: seq<seq<T>>, leftover: multiset<T>, waiting: multiset<T>,
                              pending: multiset<T>)
    requires Accounted(le, frontiers, leftover, waiting, multiset{}, pending)
    ensures NoneReady(le, frontiers, waiting)
    ensures forall t :: t in waiting ==> exists i, f :: 0 <= i < |frontiers| && f in frontiers[i] && le(f, t)
  {
    forall t | t in waiting ensures exists i, f :: 0 <= i < |frontiers| && f in frontiers[i] && le(f, t) {
      ReadyExactly(le, frontiers, t);
    }
  }

  lemma AnswersMeans<T(!new)>(o: Order<T>, frontiers: seq<seq<T>>, leftover: multiset<T>, waiting: multiset<T>, t: T,
                              pending: multiset<T>, waiting': multiset<T>)
    requires Answers(o, frontiers, leftover, waiting, t, pending, waiting')
    ensures t !in leftover ==> forall i, f :: 0 <= i < |frontiers| && f in frontiers[i] ==> !o.le(f, t)
    ensures Ready(o.le, frontiers, t) ==> (1 == Answered(waiting, waiting', t) <==> waiting[t] == 1)
  {
    ReadyExactly(o.le, frontiers, t);
  }

  /** What a session begins with. */
  lemma SessionStarts<T(!new)>(o: Order<T>, frontiers: seq<seq<T>>, leftover: multiset<T>, pending: seq<Update<T>>,
                               pending': seq<Update<T>>, heap: multiset<T>)
    requires Counted(pending) && Counted(pending') && Moved(o.le, frontiers, pending, leftover, pending', heap)
    ensures Accounted(o.le, frontiers, leftover, leftover + Requests(pending), heap, Requests(pending'))
    ensures NonDecreasing(o.lt, []) && AllAfter(o.lt, [], heap)
    ensures forall t :: t in heap - leftover ==>
              forall i, f :: 0 <= i < |frontiers| && f in frontiers[i] ==> !o.le(f, t)
    ensures forall t :: t in Requests(pending') ==>
              exists i, f :: 0 <= i < |frontiers| && f in frontiers[i] && o.le(f, t)
  {
    RequestsTally(pending);
    RequestsTally(pending');
    MovedMeans(o.le, frontiers, pending, leftover, pending', heap);
    hide Ready;
  }

  /** A session: notification against frontiers that do not change. */
  class Notificator<T(==,!new)> {
    const frontiers: seq<seq<T>>
    const inner: FrontierNotificator<T>
    ghost const leftover: multiset<T>  // what was available when the session began
    ghost var waiting: multiset<T>     // the requests, before the session or in it, since each time was last delivered
    ghost var delivered: seq<T>        // all times delivered, in order
    ghost var orderly: bool            // no request was before the last delivery

    ghost predicate Valid()
      reads this, inner
    {
      && inner.Valid()
      && Accounted(inner.order.le, frontiers, leftover, waiting, inner.available, Requests(inner.pending))
      && (orderly ==> NonDecreasing(inner.order.lt, delivered) && AllAfter(inner.order.lt, delivered, inner.available))
    }

    constructor (frontiers: seq<seq<T>>, inner: FrontierNotificator<T>)
      requires inner.Valid()
      modifies inner
      ensures Valid() && this.frontiers == frontiers && this.inner == inner && delivered == [] && orderly
      ensures leftover == old(inner.available) && waiting == leftover + Requests(old(inner.pending))
      ensures forall t :: t in inner.available - leftover ==>
                forall i, f :: 0 <= i < |frontiers| && f in frontiers[i] ==> !inner.order.le(f, t)
      ensures forall t :: t in Requests(inner.pending) ==>
                exists i, f :: 0 <= i < |frontiers| && f in frontiers[i] && inner.order.le(f, t)
    {
      hide *;
      this.frontiers, this.inner := frontiers, inner;
      leftover, waiting := inner.available, inner.available + Requests(inner.pending);
      delivered, orderly := [], true;
      ghost var pending := inner.pending;
      new;
      inner.PendingCounted();
      inner.MakeAvailable(frontiers);
      inner.PendingCounted();
      SessionStarts(inner.order, frontiers, leftover, pending, inner.pending, inner.available);
      Closed();
    }

    method NotifyAt(t: T)
      requires Valid()
      modifies this, inner
      ensures Valid() && waiting == old(waiting) + multiset{t} && delivered == old(delivered)
      ensures orderly == (old(orderly) && (delivered == [] || !inner.order.lt(t, delivered[|delivered| - 1])))
      ensures t in inner.available - old(inner.available) <==>
                forall i, f :: 0 <= i < |frontiers| && f in frontiers[i] ==> !inner.order.le(f, t)
    {
      hide Ready;
      hide Accounted;
      hide Requests;
      hide NonDecreasing;
      orderly := orderly && (delivered == [] || !inner.order.lt(t, delivered[|delivered| - 1]));
      ghost var pending := inner.pending;
      AccountedRequest(inner.order.le, frontiers, leftover, waiting, inner.available, Requests(pending), t);
      waiting := waiting + multiset{t};
      inner.NotifyAtFrontiered(t, frontiers);
      RequestsAppend(pending, (t, 1));
    }

    /** Delivers the least time that is waiting and ready, and all requests for it at once, with 1 for their
        number, which is right exactly if one request waited; or nothing, once no time that is ready is waiting. */
    method Next() returns (next: Option<(T, nat)>)
      requires Valid()
      modifies this, inner
      ensures Valid() && orderly == old(orderly) && (orderly ==> NonDecreasing(inner.order.lt, delivered))
      ensures next.None? ==>
                && waiting == old(waiting) && delivered == old(delivered)
                && NoneReady(inner.order.le, frontiers, waiting)
                && forall t :: t in waiting ==>
                     exists i, f :: 0 <= i < |frontiers| && f in frontiers[i] && inner.order.le(f, t)
      ensures next.Some? && next.value.0 !in leftover ==>
                forall i, f :: 0 <= i < |frontiers| && f in frontiers[i] ==> !inner.order.le(f, next.value.0)
      ensures next.Some? ==>
                && Answers(inner.order, frontiers, leftover, old(waiting), next.value.0, Requests(inner.pending),
                           waiting)
                && next.value.1 == 1 && delivered == old(delivered) + [next.value.0]
      ensures next.Some? && Ready(inner.order.le, frontiers, next.value.0) ==>
                (next.value.1 == Answered(old(waiting), waiting, next.value.0) <==> old(waiting)[next.value.0] == 1)
    {
      hide *;
      ghost var pending, available, before := inner.pending, inner.available, waiting;
      var front: Option<T>;
      ghost var heap;
      Opened();
      front, heap := inner.Next(frontiers);
      inner.PendingCounted();
      SameHeap(inner.order.le, frontiers, available, pending, heap, inner.pending);
      if front.None? {
        next := None;
        NothingReady(inner.order.le, frontiers, leftover, waiting, Requests(inner.pending));
      } else {
        var t := front.value;
        next := Some((t, 1));
        AccountedDelivery(inner.order, frontiers, leftover, waiting, heap, Requests(inner.pending), t, inner.available);
        AnswersMeans(inner.order, frontiers, leftover, waiting, t, Requests(inner.pending),
                     waiting[t := Requests(inner.pending)[t]]);
        if orderly {
          DeliverNonDecreasing(inner.order.lt, delivered, heap, t, inner.available);
        }
        delivered := delivered + [t];
        waiting := waiting[t := Requests(inner.pending)[t]];
      }
      Closed();
    }

    lemma Opened()
      requires Valid()
      ensures inner.Valid() && Lawful(inner.order) && StrictTotal(inner.order.lt) && Counted(inner.pending)
      ensures Accounted(inner.order.le, frontiers, leftover, waiting, inner.available, Requests(inner.pending))
      ensures forall t :: t in Requests(inner.pending) ==> !Ready(inner.order.le, frontiers, t)
      ensures orderly ==>
                NonDecreasing(inner.order.lt, delivered) && AllAfter(inner.order.lt, delivered, inner.available)
    {
    }

    lemma Closed()
      requires inner.Valid()
      requires Accounted(inner.order.le, frontiers, leftover, waiting, inner.available, Requests(inner.pending))
      requires orderly ==>
                 NonDecreasing(inner.order.lt, delivered) && AllAfter(inner.order.lt, delivered, inner.available)
      ensures Valid()
    {
    }
  }

  /** The number that comes with a delivery is not how many requests it answers: of two, one is reported. */
  method TwoRequestsCountedOnce<T(==,!new)>(order: Order<T>, t: T) returns (next: Option<(T, nat)>, ghost requests: nat)
    requires Lawful(order)
    ensures next == Some((t, 1)) && requests == 2
  {
    var inner := new FrontierNotificator<T>(order, []);
    assert inner.pending == [] && Requests<T>([]) == multiset{} && Ready(order.le, [], t);
    hide *;
    var session := new Notificator<T>([], inner);
    session.NotifyAt(t);
    session.NotifyAt(t);
    ghost var waiting := session.waiting;
    requests := waiting[t];
    next := session.Next();
    BothAnswered(order, session.leftover, waiting, t, next, Requests(inner.pending), session.waiting);
  }

  lemma BothAnswered<T(!new)>(o: Order<T>, leftover: multiset<T>, waiting: multiset<T>, t: T, next: Option<(T, nat)>,
                              pending: multiset<T>, waiting': multiset<T>)
    requires waiting == multiset{} + multiset{} + multiset{t} + multiset{t}
    requires next.None? ==> waiting' == waiting && NoneReady(o.le, [], waiting')
    requires next.Some? ==> Answers(o, [], leftover, waiting, next.value.0, pending, waiting')
    ensures waiting[t] == 2 && next.Some? && next.value.0 == t
  {
    assert t in waiting && Ready(o.le, [], t);
    if next.Some? {
      assert next.value.0 in waiting;
    }
  }

  /** Looking again at pending requests against the same frontiers finds none that are ready. */
  lemma SameHeap<T(!new)>(le: (T, T) -> bool, frontiers: seq<seq<T>>, available: multiset<T>, pending: seq<Update<T>>,
                          heap: multiset<T>, pending': seq<Update<T>>)
    requires Counted(pending) && Counted(pending')
    requires forall t :: t in Requests(pending) ==> !Ready(le, frontiers, t)
    requires (heap == available && pending' == pending) ||
             (available == multiset{} && Moved(le, frontiers, pending, available, pending', heap))
    ensures heap == available && Requests(pending') == Requests(pending)
  {
    RequestsTally(pending);
    RequestsTally(pending');
  }

  /** The requests that are pending, each as often as it is counted. */
  ghost function Requests<T>(pending: seq<Update<T>>): multiset<T> {
    if pending == [] then multiset{}
    else multiset{}[pending[0].0 := if pending[0].1 > 0 then pending[0].1 else 0] + Requests(pending[1..])
  }

  lemma {:induction false} RequestsTally<T(!new)>(pending: seq<Update<T>>)
    requires Counted(pending)
    ensures forall t :: Requests(pending)[t] == Tally(pending, t)
  {
    if pending != [] {
      RequestsTally(pending[1..]);
    }
  }

  lemma {:induction false} RequestsAppend<T(!new)>(pending: seq<Update<T>>, u: Update<T>)
    requires u.1 == 1
    ensures Requests(pending + [u]) == Requests(pending) + multiset{u.0}
  {
    if pending == [] {
      assert [u][1..] == [] && pending + [u] == [u];
    } else {
      RequestsAppend(pending[1..], u);
      assert (pending + [u])[1..] == pending[1..] + [u];
    }
  }
}
