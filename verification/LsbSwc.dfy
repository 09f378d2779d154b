/** Radix sorting from the least significant byte, with writes to buckets combined into lines. What is
    staged in the lane of a bucket comes after what is in the bucket. */
module LsbSwcSorters {
  import opened Basics
  import opened StableSorts
  import opened Radix
  import opened Buffers
  import opened Shuffling
  import opened SwcBuffers

  /** Each bucket, followed by its lane, spells the elements with its digit, in order of arrival. */
  ghost predicate Staged<T(!new)>(buckets: seq<Batched<T>>, lanes: seq<seq<T>>, digit: T -> nat, pushed: seq<T>) {
    && |buckets| == |lanes| == 256
    && forall c :: 0 <= c < 256 ==> Spelled(buckets[c]) + lanes[c] == Select(pushed, WithDigit(digit, c))
  }

  /** Moving a lane to its bucket changes nothing. */
  lemma DrainStaged<T(!new)>(buckets: seq<Batched<T>>, lanes: seq<seq<T>>, digit: T -> nat, pushed: seq<T>, c: nat,
                             b: Batched<T>)
    requires Staged(buckets, lanes, digit, pushed) && c < 256 && Spelled(b) == Spelled(buckets[c]) + lanes[c]
    ensures Staged(buckets[c := b], lanes[c := []], digit, pushed)
  {
    hide Spelled;
  }

  lemma PushStaged<T(!new)>(buckets: seq<Batched<T>>, lanes: seq<seq<T>>, digit: T -> nat, pushed: seq<T>, x: T)
    requires Staged(buckets, lanes, digit, pushed) && digit(x) < 256
    ensures Staged(buckets, lanes[digit(x) := lanes[digit(x)] + [x]], digit, pushed + [x])
  {
    hide Spelled;
    var lanes' := lanes[digit(x) := lanes[digit(x)] + [x]];
    forall e | 0 <= e < 256 ensures Spelled(buckets[e]) + lanes'[e] == Select(pushed + [x], WithDigit(digit, e)) {
      SelectAppend(pushed, [x], WithDigit(digit, e));
      SelectOne(x, WithDigit(digit, e));
      assert Spelled(buckets[e]) + (lanes[e] + [x]) == Spelled(buckets[e]) + lanes[e] + [x];
    }
  }

  lemma NothingStaged<T(!new)>(buckets: seq<Batched<T>>, lanes: seq<seq<T>>, digit: T -> nat)
    requires |buckets| == |lanes| == 256 && forall c :: 0 <= c < 256 ==> Spelled(buckets[c]) == [] && lanes[c] == []
    ensures Staged(buckets, lanes, digit, [])
  {
  }

  ghost predicate AllAligned<T>(buckets: seq<Batched<T>>, line: nat) {
    forall c :: 0 <= c < |buckets| ==> Kept(buckets[c], line) && Aligned(buckets[c], line)
  }

  class Shuffler<T(0,!new)> {
    const buffer: SwcBuffer<T>
    var buckets: seq<Batched<T>>
    const stash: Stash<T>

    ghost function Repr(): set<object> {
      {this, stash, buffer, buffer.counts, buffer.staged}
    }

    ghost predicate Valid()
      reads Repr()
    {
      && buffer.Valid() && stash.Valid() && stash.line == buffer.line
      && |buckets| == 256 && AllAligned(buckets, buffer.line)
      && (stash as object) != buffer.counts && (stash as object) != buffer.staged
    }

    ghost predicate Holds(key: T -> nat, d: nat, pushed: seq<T>)
      requires Valid()
      reads Repr()
    {
      Staged(buckets, buffer.Lanes(), ByteOn(key, d), pushed)
    }

    constructor (line: nat, linesPerPage: nat)
      requires 0 < line < 256 && linesPerPage > 0
      ensures Valid() && fresh(Repr())
      ensures forall key, d: nat :: Holds(key, d, [])
    {
      EmptyKept<T>(line);
      MultipleIs(linesPerPage, line);
      buffer := new SwcBuffer(line);
      stash := new Stash(linesPerPage * line, line);
      buckets := seq(256, c => Empty());
    }

    /** Stages one element, after moving its lane to its bucket if that is full. */
    method PushOne(x: T, key: T -> nat, d: nat, ghost pushed: seq<T>)
      requires Valid() && Holds(key, d, pushed)
      modifies Repr()
      ensures Valid() && Holds(key, d, pushed + [x])
    {
      hide Kept;
      hide Aligned;
      hide Staged;
      hide SwcBuffer.Lanes;
      var c := ByteOf(key(x), d);
      if buffer.Full(c) {
        ghost var lanes, before := buffer.Lanes(), buckets;
        var b := buffer.DrainInto(c, buckets[c], stash);
        buckets := buckets[c := b];
        DrainStaged(before, lanes, ByteOn(key, d), pushed, c, b);
      }
      PushStaged(buckets, buffer.Lanes(), ByteOn(key, d), pushed, x);
      buffer.Push(x, c);
    }

    /** Pushes any batch, and keeps its memory, which must have room if there is more to push. */
    method PushBatch(elements: Buffer<T>, key: T -> nat, d: nat, ghost pushed: seq<T>)
      requires Valid() && Holds(key, d, pushed) && |elements.items| <= elements.capacity
      modifies Repr()
      ensures buffer.Valid() && Staged(buckets, buffer.Lanes(), ByteOn(key, d), pushed + elements.items)
      ensures (Valid() <==> Sound(elements, buffer.line)) && (Valid() ==> Holds(key, d, pushed + elements.items))
    {
      hide Staged;
      hide AllAligned;
      assert pushed + elements.items[..0] == pushed;
      for k := 0 to |elements.items|
        invariant Valid() && Holds(key, d, pushed + elements.items[..k])
      {
        PushOne(elements.items[k], key, d, pushed + elements.items[..k]);
        assert pushed + elements.items[..k + 1] == pushed + elements.items[..k] + [elements.items[k]];
      }
      assert elements.items[..|elements.items|] == elements.items;
      stash.Give(elements.(items := []));
    }

    /** Moves one bucket and its lane to `target`: the lane to the end of the last vector if there is
        room, and to a spare one otherwise. */
    method FinishBucket(c: nat, target: seq<Buffer<T>>) returns (target': seq<Buffer<T>>)
      requires Valid() && c < 256 && AllSound(target, buffer.line)
      modifies Repr()
      ensures Valid() && AllSound(target', buffer.line)
      ensures Items(target') == Items(target) + old(Spelled(buckets[c]) + buffer.Lanes()[c])
      ensures Spelled(buckets[c]) == [] && buckets == old(buckets)[c := buckets[c]]
      ensures buffer.Lanes() == old(buffer.Lanes())[c := []]
    {
      hide Kept;
      hide Aligned;
      hide Spelled;
      hide Multiple;
      hide Items;
      hide SwcBuffer.Lanes;
      ghost var lane := buffer.Lanes()[c];
      var b;
      b, target' := Buffers.FinishInto(buckets[c], target, buffer.line);
      buckets := buckets[c := b];
      ghost var whole := Items(target');
      var count := buffer.counts[c];
      if target' == [] || target'[|target'| - 1].capacity - |target'[|target'| - 1].items| < count {
        var spare := stash.Get();
        WholeLine(spare, buffer.line);
        ItemsLast(target', spare);
        target' := target' + [spare];
      }
      assert Items(target') == whole;
      var last := target'[|target'| - 1];
      var filled := buffer.DrainIntoVec(c, last);
      LastFilled(target', last, filled, lane);
      target' := target'[..|target'| - 1] + [filled];
    }

    /** Moves all buckets to `target` in order. */
    method FinishInto(target: seq<Buffer<T>>, ghost key: T -> nat, ghost d: nat, ghost pushed: seq<T>)
      returns (target': seq<Buffer<T>>)
      requires Valid() && Holds(key, d, pushed) && AllSound(target, buffer.line)
      modifies Repr()
      ensures Valid() && AllSound(target', buffer.line)
      ensures Items(target') == Items(target) + Flatten(Parts(key, d, pushed, 256))
      ensures forall key', d': nat :: Holds(key', d', [])
    {
      hide Valid;
      hide Parts;
      hide Spelled;
      hide AllSound;
      hide SwcBuffer.Lanes;
      hide Holds;
      hide Draining;
      target' := target;
      NoParts(key, d, pushed);
      ValidParts();
      LanesHold(key, d, pushed);
      ghost var parts, lanes := buckets, buffer.Lanes();
      for c := 0 to 256
        invariant Valid() && buffer.Valid() && AllSound(target', buffer.line)
        invariant parts == buckets && lanes == buffer.Lanes() && |buckets| == 256
        invariant Draining(parts, lanes, key, d, pushed, c)
        invariant Items(target') == Items(target) + Flatten(Parts(key, d, pushed, c))
      {
        target' := FinishBucket(c, target');
        DrainBucket(parts, lanes, key, d, pushed, c, buckets[c]);
        parts, lanes := buckets, lanes[c := []];
        ValidParts();
        PartsMore(key, d, pushed, c);
      }
      AllDrained(parts, lanes, key, d, pushed);
      EverHolds();
    }

    lemma EverHolds()
      requires Valid() && forall c :: 0 <= c < 256 ==> Spelled(buckets[c]) == [] && buffer.Lanes()[c] == []
      ensures forall key, d: nat :: Holds(key, d, [])
    {
      forall key, d: nat ensures Staged(buckets, buffer.Lanes(), ByteOn(key, d), []) {
        NothingStaged(buckets, buffer.Lanes(), ByteOn(key, d));
      }
    }

    lemma LanesHold(key: T -> nat, d: nat, pushed: seq<T>)
      requires Valid() && Holds(key, d, pushed)
      ensures |buckets| == 256 && Draining(buckets, buffer.Lanes(), key, d, pushed, 0)
    {
      StagedParts(buckets, buffer.Lanes(), key, d, pushed);
    }

    lemma ValidParts()
      requires Valid()
      ensures buffer.Valid() && |buckets| == 256
    {
    }
  }

  lemma StagedParts<T(!new)>(buckets: seq<Batched<T>>, lanes: seq<seq<T>>, key: T -> nat, d: nat, s: seq<T>)
    requires Staged(buckets, lanes, ByteOn(key, d), s)
    ensures forall c :: 0 <= c < 256 ==> Spelled(buckets[c]) + lanes[c] == Bucket(key, d, s, c)
  {
  }

  /** The first `n` buckets and lanes are empty; the others still hold what was pushed. */
  ghost predicate Draining<T(!new)>(buckets: seq<Batched<T>>, lanes: seq<seq<T>>, key: T -> nat, d: nat, s: seq<T>,
                                    n: nat) {
    && |buckets| == |lanes| == 256
    && (forall e :: 0 <= e < 256 && e < n ==> Spelled(buckets[e]) == [] && lanes[e] == [])
    && (forall e :: n <= e < 256 ==> Spelled(buckets[e]) + lanes[e] == Bucket(key, d, s, e))
  }

  lemma DrainBucket<T(!new)>(buckets: seq<Batched<T>>, lanes: seq<seq<T>>, key: T -> nat, d: nat, s: seq<T>, c: nat,
                             b: Batched<T>)
    requires Draining(buckets, lanes, key, d, s, c) && c < 256 && Spelled(b) == []
    ensures Spelled(buckets[c]) + lanes[c] == Bucket(key, d, s, c)
    ensures Draining(buckets[c := b], lanes[c := []], key, d, s, c + 1)
  {
    hide Spelled;
    hide Bucket;
  }

  lemma AllDrained<T(!new)>(buckets: seq<Batched<T>>, lanes: seq<seq<T>>, key: T -> nat, d: nat, s: seq<T>)
    requires Draining(buckets, lanes, key, d, s, 256)
    ensures |buckets| == |lanes| == 256 && forall c :: 0 <= c < 256 ==> Spelled(buckets[c]) == [] && lanes[c] == []
  {
  }

  /** More elements in the last buffer are more elements at the end. */
  lemma LastFilled<T>(target: seq<Buffer<T>>, last: Buffer<T>, filled: Buffer<T>, lane: seq<T>)
    requires target != [] && last == target[|target| - 1] && filled.items == last.items + lane
    ensures Items(target[..|target| - 1] + [filled]) == Items(target) + lane
  {
    hide Items;
    var rest := target[..|target| - 1];
    ItemsLast(rest, last);
    ItemsLast(rest, filled);
    assert target == rest + [last];
    Associative(Items(rest), last.items, lane);
  }

  /** A sound buffer has room for a line. */
  lemma WholeLine<T>(b: Buffer<T>, line: nat)
    requires Sound(b, line)
    ensures b.capacity >= line
  {
    MultipleIs(0, line);
    RoomForLine(0, b.capacity, line);
  }

  class Sorter<T(0,!new)> {
    const shuffler: Shuffler<T>
    ghost var pushed: seq<T>         // all elements pushed in this session

    ghost function Repr(): set<object> {
      {this} + shuffler.Repr()
    }

    /** The elements pushed have been sorted into buckets by the first byte of the key. */
    ghost predicate Valid(key: T -> nat)
      reads Repr()
    {
      this !in shuffler.Repr() && shuffler.Valid() && shuffler.Holds(key, 0, pushed)
    }

    constructor (line: nat, linesPerPage: nat)
      requires 0 < line < 256 && linesPerPage > 0
      ensures pushed == [] && forall key :: Valid(key)
    {
      shuffler := new Shuffler(line, linesPerPage);
      pushed := [];
    }

    method Push(x: T, key: T -> nat)
      requires Valid(key)
      modifies Repr()
      ensures Valid(key) && pushed == old(pushed) + [x]
    {
      hide Shuffler.Holds;
      shuffler.PushOne(x, key, 0, pushed);
      pushed := pushed + [x];
    }

    method PushBatch(batch: Buffer<T>, key: T -> nat)
      requires Valid(key) && |batch.items| <= batch.capacity
      modifies Repr()
      ensures (Valid(key) <==> Sound(batch, shuffler.buffer.line)) && pushed == old(pushed) + batch.items
    {
      hide Shuffler.Holds;
      shuffler.PushBatch(batch, key, 0, pushed);
      pushed := pushed + batch.items;
    }

    /** Shuffles what previous passes have produced by another byte. */
    method Reshuffle(buffers: seq<Buffer<T>>, key: T -> nat, d: nat) returns (buffers': seq<Buffer<T>>)
      requires shuffler.Valid() && shuffler.Holds(key, d, []) && AllSound(buffers, shuffler.buffer.line)
      modifies shuffler.Repr()
      ensures shuffler.Valid() && AllSound(buffers', shuffler.buffer.line)
      ensures Items(buffers') == Flatten(Parts(key, d, Items(buffers), 256))
      ensures forall key', d': nat :: shuffler.Holds(key', d', [])
    {
      hide Shuffler.Holds;
      hide Shuffler.Valid;
      assert Items(buffers[..0]) == [];
      for k := 0 to |buffers|
        invariant shuffler.Valid() && shuffler.Holds(key, d, Items(buffers[..k]))
      {
        shuffler.PushBatch(buffers[k], key, d, Items(buffers[..k]));
        assert buffers[..k + 1] == buffers[..k] + [buffers[k]];
        ItemsLast(buffers[..k], buffers[k]);
      }
      assert buffers[..|buffers|] == buffers;
      buffers' := shuffler.FinishInto([], key, d, Items(buffers));
    }

    /** Finishes the session: returns the stable sort of all that was pushed, as the plain sorter does,
        with what was in the target before. */
    method FinishInto(target: seq<Buffer<T>>, key: T -> nat, bytes: nat) returns (target': seq<Buffer<T>>)
      requires Valid(key) && bytes >= 1 && forall x :: key(x) < Pow256(bytes)
      requires AllSound(target, shuffler.buffer.line)
      modifies Repr()
      ensures Items(target') == StableSort(Upper(key), Items(target) + StableSort(LowOn(key, 1), old(pushed)))
      ensures Items(target) == [] ==> Items(target') == StableSort(key, old(pushed))
      ensures AllSound(target', shuffler.buffer.line)
      ensures pushed == [] && forall key' :: Valid(key')
    {
      hide Shuffler.Holds;
      hide Shuffler.Valid;
      hide Passed;
      hide Parts;
      ghost var all := pushed;
      target' := shuffler.FinishInto(target, key, 0, pushed);
      FirstPass(key, Items(target), all, Parts(key, 0, all, 256));
      for d := 1 to bytes
        invariant shuffler.Valid() && AllSound(target', shuffler.buffer.line)
        invariant Passed(key, d, Items(target), all, Items(target'))
        invariant forall key', d': nat :: shuffler.Holds(key', d', [])
      {
        ghost var before := Items(target');
        target' := Reshuffle(target', key, d);
        NextPass(key, d, Items(target), all, before, Parts(key, d, before, 256));
      }
      LastPass(key, bytes, Items(target), all, Items(target'));
      pushed := [];
    }

    /** Sorts batched data. */
    method Sort(batches: seq<Buffer<T>>, key: T -> nat, bytes: nat) returns (sorted: seq<Buffer<T>>)
      requires Valid(key) && bytes >= 1 && (forall x :: key(x) < Pow256(bytes)) &&
               AllSound(batches, shuffler.buffer.line)
      modifies Repr()
      ensures Items(sorted) == StableSort(key, old(pushed) + Items(batches)) && AllSound(sorted, shuffler.buffer.line)
      ensures pushed == [] && forall key' :: Valid(key')
    {
      hide Shuffler.Holds;
      hide Shuffler.Valid;
      assert Items(batches[..0]) == [];
      for k := 0 to |batches|
        invariant Valid(key) && pushed == old(pushed) + Items(batches[..k])
      {
        PushBatch(batches[k], key);
        assert batches[..k + 1] == batches[..k] + [batches[k]];
        ItemsLast(batches[..k], batches[k]);
      }
      assert batches[..|batches|] == batches;
      sorted := FinishInto([], key, bytes);
    }
  }
}
