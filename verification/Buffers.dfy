/** Buffers with a capacity, a stash of spare ones, and vectors that grow by whole buffers, a line at a
    time or one element at a time. */
module Buffers {
  import opened StableSorts

  /** A vector: its elements, and how many it has room for without growing. */
  datatype Buffer<T> = Buffer(items: seq<T>, capacity: nat)

  ghost predicate Multiple(n: nat, line: nat) {
    exists m: nat :: n == m * line
  }

  lemma MultipleIs(m: nat, line: nat)
    ensures Multiple(m * line, line)
  {
  }

  /** Between different multiples of a line, there is room for a line. */
  lemma RoomForLine(n: nat, c: nat, line: nat)
    requires Multiple(n, line) && Multiple(c, line) && n < c
    ensures n + line <= c && Multiple(n + line, line)
  {
    var a: nat :| n == a * line;
    var b: nat :| c == b * line;
    LessTimes(a, b, line);
    MultipleIs(a + 1, line);
  }

  lemma TimesMonotone(a: nat, b: nat, line: nat)
    requires a <= b
    ensures a * line <= b * line
  {
  }

  lemma LessTimes(a: nat, b: nat, line: nat)
    requires a * line < b * line
    ensures (a + 1) * line <= b * line && (a + 1) * line == a * line + line
  {
    if b <= a {
      TimesMonotone(b, a, line);
    }
    TimesMonotone(a + 1, b, line);
  }

  /** A buffer has no more elements than room, some room, and room for whole lines. */
  ghost predicate Sound<T>(b: Buffer<T>, line: nat) {
    |b.items| <= b.capacity && b.capacity > 0 && Multiple(b.capacity, line)
  }

  ghost predicate AllSound<T>(bs: seq<Buffer<T>>, line: nat) {
    forall i :: 0 <= i < |bs| ==> Sound(bs[i], line)
  }

  /** All elements of a list of buffers. */
  function Items<T>(bs: seq<Buffer<T>>): seq<T> {
    if bs == [] then [] else bs[0].items + Items(bs[1..])
  }

  lemma {:induction false} ItemsAppend<T>(a: seq<Buffer<T>>, b: seq<Buffer<T>>)
    ensures Items(a + b) == Items(a) + Items(b)
  {
    if a == [] {
      assert a + b == b;
    } else {
      assert (a + b)[1..] == a[1..] + b;
      ItemsAppend(a[1..], b);
    }
  }

  lemma ItemsLast<T>(a: seq<Buffer<T>>, b: Buffer<T>)
    ensures Items(a + [b]) == Items(a) + b.items
  {
    ItemsAppend(a, [b]);
    assert Items([b]) == b.items + Items([]);
  }

  /** Spare buffers are empty, and sound. */
  ghost predicate AllSpare<T>(bs: seq<Buffer<T>>, line: nat) {
    AllSound(bs, line) && forall i :: 0 <= i < |bs| ==> bs[i].items == []
  }

  lemma SpareAppend<T>(bs: seq<Buffer<T>>, b: Buffer<T>, line: nat)
    ensures AllSpare(bs + [b], line) <==> AllSpare(bs, line) && b.items == [] && Sound(b, line)
  {
    assert forall i :: 0 <= i < |bs| ==> (bs + [b])[i] == bs[i];
    assert (bs + [b])[|bs|] == b;
  }

  ghost function Backwards<T>(bs: seq<T>): (r: seq<T>)
    ensures |r| == |bs|
  {
    if bs == [] then [] else Backwards(bs[1..]) + [bs[0]]
  }

  ghost function Cleared<T>(bs: seq<Buffer<T>>): (r: seq<Buffer<T>>)
    ensures |r| == |bs| && forall i :: 0 <= i < |bs| ==> r[i] == Buffer([], bs[i].capacity)
  {
    seq(|bs|, i requires 0 <= i < |bs| => Buffer([], bs[i].capacity))
  }

  /** Spare buffers, all of them empty. */
  class Stash<T> {
    var stashed: seq<Buffer<T>>
    const defaultCapacity: nat
    ghost const line: nat

    ghost predicate Valid()
      reads this
    {
      line > 0 && Sound<T>(Buffer([], defaultCapacity), line) && AllSpare(stashed, line)
    }

    constructor (defaultCapacity: nat, ghost line: nat)
      requires line > 0 && defaultCapacity > 0 && Multiple(defaultCapacity, line)
      ensures Valid() && stashed == [] && this.line == line
    {
      this.defaultCapacity := defaultCapacity;
      this.line := line;
      stashed := [];
    }

    method Get() returns (b: Buffer<T>)
      requires Valid()
      modifies this
      ensures Valid() && b.items == [] && Sound(b, line)
    {
      if stashed != [] {
        b := stashed[|stashed| - 1];
        stashed := stashed[..|stashed| - 1];
      } else {
        b := Buffer([], defaultCapacity);
      }
    }

    /** Takes any vector. The stash remains one of spare buffers exactly if the vector is such a buffer. */
    method Give(b: Buffer<T>)
      modifies this
      ensures stashed == old(stashed) + [b]
      ensures Valid() <==> old(Valid()) && b.items == [] && Sound(b, line)
    {
      SpareAppend(stashed, b, line);
      stashed := stashed + [b];
    }

    /** Exchanges any vectors with the user, from the ends of both lists, so as to keep `intended` of them. */
    method Rebalance(buffers: seq<Buffer<T>>, intended: nat) returns (rest: seq<Buffer<T>>)
      modifies this
      ensures |stashed| + |rest| == old(|stashed|) + |buffers|
      ensures |stashed| == if |stashed| + |rest| < intended then |stashed| + |rest| else intended
      ensures old(|stashed|) >= intended ==>
                stashed == old(stashed)[..intended] && rest == buffers + Backwards(old(stashed)[intended..])
      ensures old(|stashed|) <= intended ==>
                && |rest| <= |buffers| && rest == buffers[..|rest|]
                && stashed == old(stashed) + Backwards(Cleared(buffers[|rest|..]))
      ensures old(Valid()) ==> if old(|stashed|) >= intended then Valid()
                               else Valid() <==> AllSound(Cleared(buffers[|rest|..]), line)
    {
      ghost var before := stashed;
      rest := buffers;
      assert before[|stashed|..] == [];
      while |stashed| > intended
        invariant intended <= |stashed| <= |before| || stashed == before
        invariant |stashed| <= |before| && stashed == before[..|stashed|]
        invariant rest == buffers + Backwards(before[|stashed|..])
      {
        var n := |stashed| - 1;
        BackwardsStep(before, n);
        rest := rest + [stashed[n]];
        stashed := stashed[..n];
      }
      assert |before| >= intended ==> |stashed| == intended;
      ghost var kept := stashed;
      assert |stashed| < intended ==> rest == buffers && kept == before;
      while |stashed| < intended && |rest| > 0
        invariant |stashed| <= intended || stashed == kept
        invariant |before| >= intended ==> stashed == kept && rest == buffers + Backwards(before[intended..])
        invariant |before| < intended ==>
                    && |rest| <= |buffers| && rest == buffers[..|rest|]
                    && stashed == before + Backwards(Cleared(buffers[|rest|..]))
        decreases |rest|
      {
        var n := |rest| - 1;
        BackwardsAdd(buffers, n);
        stashed := stashed + [Buffer([], rest[n].capacity)];
        rest := rest[..n];
      }
      if |before| < intended {
        var taken := Cleared(buffers[|rest|..]);
        BackwardsSpare(taken, line);
        SpareJoin(before, Backwards(taken), line);
      }
    }
  }

  lemma {:induction false} SpareJoin<T>(a: seq<Buffer<T>>, b: seq<Buffer<T>>, line: nat)
    ensures AllSpare(a + b, line) <==> AllSpare(a, line) && AllSpare(b, line)
  {
    if b == [] {
      assert a + b == a;
    } else {
      var n := |b| - 1;
      assert b == b[..n] + [b[n]] && a + b == a + b[..n] + [b[n]];
      SpareJoin(a, b[..n], line);
      SpareAppend(a + b[..n], b[n], line);
      SpareAppend(b[..n], b[n], line);
    }
  }

  lemma {:induction false} BackwardsSpare<T>(bs: seq<Buffer<T>>, line: nat)
    ensures AllSpare(Backwards(bs), line) <==> AllSpare(bs, line)
  {
    if bs != [] {
      BackwardsSpare(bs[1..], line);
      SpareAppend(Backwards(bs[1..]), bs[0], line);
      SpareJoin([bs[0]], bs[1..], line);
      assert bs == [bs[0]] + bs[1..];
      SpareAppend([], bs[0], line);
      assert [] + [bs[0]] == [bs[0]];
    }
  }

  lemma BackwardsStep<T>(bs: seq<T>, n: nat)
    requires n < |bs|
    ensures Backwards(bs[n..]) == Backwards(bs[n + 1..]) + [bs[n]]
  {
    assert bs[n..][1..] == bs[n + 1..];
  }

  lemma BackwardsAdd<T>(bs: seq<Buffer<T>>, n: nat)
    requires n < |bs|
    ensures Backwards(Cleared(bs[n..])) == Backwards(Cleared(bs[n + 1..])) + [Buffer([], bs[n].capacity)]
  {
    assert Cleared(bs[n..]) == Cleared(bs)[n..] && Cleared(bs[n + 1..]) == Cleared(bs)[n + 1..];
    BackwardsStep(Cleared(bs), n);
  }

  /** Full buffers, and a last one that is being filled. */
  datatype Batched<T> = Batched(tail: Buffer<T>, batches: seq<Buffer<T>>)

  function Empty<T>(): (b: Batched<T>) {
    Batched(Buffer([], 0), [])
  }

  /** The elements, in order of arrival. */
  function Spelled<T>(b: Batched<T>): seq<T> {
    Items(b.batches) + b.tail.items
  }

  /** No batch is empty, and the tail is so only when there are no batches. */
  ghost predicate Kept<T>(b: Batched<T>, line: nat) {
    && AllSound(b.batches, line)
    && |b.tail.items| <= b.tail.capacity && Multiple(b.tail.capacity, line)
    && (forall i :: 0 <= i < |b.batches| ==> b.batches[i].items != [])
    && (b.tail.items == [] ==> b.batches == [])
  }

  /** The tail ends at the end of a line. */
  ghost predicate Aligned<T>(b: Batched<T>, line: nat) {
    Multiple(|b.tail.items|, line)
  }

  lemma EmptyKept<T>(line: nat)
    ensures Kept(Empty<T>(), line) && Aligned(Empty<T>(), line) && Spelled(Empty<T>()) == []
  {
    MultipleIs(0, line);
  }

  lemma TailTells<T>(b: Batched<T>, line: nat)
    requires Kept(b, line)
    ensures b.tail.items == [] <==> Spelled(b) == []
  {
  }

  /** Replaces a full tail. */
  method Reserve<T>(b: Batched<T>, stash: Stash<T>) returns (b': Batched<T>)
    requires Kept(b, stash.line) && stash.Valid()
    modifies stash
    ensures stash.Valid() && Spelled(b') == Spelled(b)
    ensures |b'.tail.items| < b'.tail.capacity && Multiple(b'.tail.capacity, stash.line) &&
            AllSound(b'.batches, stash.line)
    ensures forall i :: 0 <= i < |b'.batches| ==> b'.batches[i].items != []
    ensures if |b.tail.items| == b.tail.capacity then b'.tail.items == [] else b' == b
  {
    b' := b;
    if |b.tail.items| == b.tail.capacity {
      var spare := stash.Get();
      b' := Batched(spare, if b.tail.items != [] then b.batches + [b.tail] else b.batches);
      ItemsLast(b.batches, b.tail);
    }
  }

  method Push<T>(b: Batched<T>, x: T, stash: Stash<T>) returns (b': Batched<T>)
    requires Kept(b, stash.line) && stash.Valid()
    modifies stash
    ensures stash.Valid() && Kept(b', stash.line) && Spelled(b') == Spelled(b) + [x]
  {
    var r := Reserve(b, stash);
    b' := r.(tail := Buffer(r.tail.items + [x], r.tail.capacity));
  }

  /** Fills up the tail from `elements`, which then becomes the tail if any are left. Any vector will do,
      but all is kept in order exactly if it has room for whole lines. */
  method PushVec<T>(b: Batched<T>, elements: Buffer<T>, stash: Stash<T>) returns (b': Batched<T>)
    requires |b.tail.items| <= b.tail.capacity && |elements.items| <= elements.capacity
    modifies stash
    ensures Spelled(b') == Spelled(b) + elements.items
    ensures Kept(b, stash.line) && old(stash.Valid()) ==>
              (Kept(b', stash.line) && stash.Valid() <==> Sound(elements, stash.line))
  {
    var available := b.tail.capacity - |b.tail.items|;
    var toMove := if available < |elements.items| then available else |elements.items|;
    var tail := Buffer(b.tail.items + elements.items[..toMove], b.tail.capacity);
    var left := Buffer(elements.items[toMove..], elements.capacity);
    assert elements.items == elements.items[..toMove] + left.items;
    if left.items == [] {
      stash.Give(left);
      b' := b.(tail := tail);
    } else {
      b' := Batched(left, if tail.items != [] then b.batches + [tail] else b.batches);
      ItemsLast(b.batches, tail);
    }
  }

  /** Appends up to a line of elements at once; there is always room. */
  method PushAll<T>(b: Batched<T>, elements: seq<T>, stash: Stash<T>) returns (b': Batched<T>)
    requires Kept(b, stash.line) && Aligned(b, stash.line) && stash.Valid()
    requires 0 < |elements| <= stash.line
    modifies stash
    ensures stash.Valid() && Kept(b', stash.line) && Spelled(b') == Spelled(b) + elements
    ensures |elements| == stash.line ==> Aligned(b', stash.line)
  {
    var r := Reserve(b, stash);
    MultipleIs(0, stash.line);
    RoomForLine(|r.tail.items|, r.tail.capacity, stash.line);
    assert r.tail.capacity - |r.tail.items| >= |elements|;
    b' := r.(tail := Buffer(r.tail.items + elements, r.tail.capacity));
  }

  /** Moves everything to the end of `target`. */
  method FinishInto<T>(b: Batched<T>, target: seq<Buffer<T>>, ghost line: nat)
    returns (b': Batched<T>, target': seq<Buffer<T>>)
    requires Kept(b, line)
    ensures Kept(b', line) && Aligned(b', line) && Spelled(b') == []
    ensures Items(target') == Items(target) + Spelled(b) && (AllSound(target, line) ==> AllSound(target', line))
    ensures Spelled(b) == [] ==> target' == target
  {
    MultipleIs(0, line);
    ItemsAppend(target, b.batches);
    target' := target + b.batches;
    b' := b.(batches := []);
    if b.tail.items != [] {
      ItemsLast(target', b.tail);
      target' := target' + [b.tail];
      b' := b'.(tail := Buffer([], 0));
    }
  }

  /** Hands out everything as a list of buffers. */
  method Finish<T>(b: Batched<T>, ghost line: nat) returns (b': Batched<T>, list: seq<Buffer<T>>)
    requires Kept(b, line)
    ensures Kept(b', line) && Spelled(b') == []
    ensures AllSound(list, line) && Items(list) == Spelled(b)
    ensures forall i :: 0 <= i < |list| ==> list[i].items != []
  {
    list := b.batches;
    MultipleIs(0, line);
    b' := b.(batches := []);
    if b.tail.items != [] {
      ItemsLast(list, b.tail);
      list := list + [b.tail];
      b' := b'.(tail := Buffer([], 0));
    }
  }
}
