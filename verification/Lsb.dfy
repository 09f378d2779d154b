/** Radix sorting from the least significant byte. */
module LsbSorters {
  import opened Basics
  import opened StableSorts
  import opened Radix
  import opened Buffers
  import opened Shuffling

  /** Buckets for the 256 values of a byte. */
  class Shuffler<T(!new)> {
    var buckets: seq<Batched<T>>
    const stash: Stash<T>

    ghost predicate Valid()
      reads this, stash
    {
      |buckets| == 256 && AllKept(buckets, stash.line) && stash.Valid()
    }

    /** The buckets hold the elements of `pushed` by byte `d` of the key. */
    ghost predicate Holds(key: T -> nat, d: nat, pushed: seq<T>)
      reads this
    {
      Shuffled(buckets, ByteOn(key, d), pushed)
    }

    constructor (capacity: nat)
      requires capacity > 0
      ensures Valid() && fresh(stash)
      ensures forall key, d :: Holds(key, d, [])
    {
      EmptyKept<T>(1);
      MultipleIs(capacity, 1);
      stash := new Stash(capacity, 1);
      buckets := seq(256, c => Empty());
    }

    method PushOne(x: T, key: T -> nat, d: nat, ghost pushed: seq<T>)
      requires Valid() && Holds(key, d, pushed)
      modifies this, stash
      ensures Valid() && Holds(key, d, pushed + [x])
    {
      hide Shuffled;
      hide Kept;
      ghost var before := buckets;
      ShuffledSize(buckets, ByteOn(key, d), pushed);
      var c := ByteOf(key(x), d);
      var b := Push(buckets[c], x, stash);
      OneShuffled(buckets, ByteOn(key, d), pushed, x, b);
      buckets := buckets[c := b];
    }

    /** Pushes any batch, and keeps its memory, which must have room if there is more to push. */
    method PushBatch(elements: Buffer<T>, key: T -> nat, d: nat, ghost pushed: seq<T>)
      requires Valid() && Holds(key, d, pushed) && |elements.items| <= elements.capacity
      modifies this, stash
      ensures Holds(key, d, pushed + elements.items) && (Valid() <==> Sound(elements, stash.line))
    {
      hide Shuffled;
      hide Kept;
      assert pushed + elements.items[..0] == pushed;
      for k := 0 to |elements.items|
        invariant Valid() && Holds(key, d, pushed + elements.items[..k])
      {
        PushOne(elements.items[k], key, d, pushed + elements.items[..k]);
        assert pushed + elements.items[..k + 1] == pushed + elements.items[..k] + [elements.items[k]];
      }
      assert elements.items[..|elements.items|] == elements.items;
      stash.Give(elements.(items := []));
    }

    /** Moves all buckets to `target` in order. */
    method FinishInto(target: seq<Buffer<T>>, ghost key: T -> nat, ghost d: nat, ghost pushed: seq<T>)
      returns (target': seq<Buffer<T>>)
      requires Valid() && Holds(key, d, pushed) && AllSound(target, stash.line)
      modifies this`buckets
      ensures Valid() && AllSound(target', stash.line)
      ensures Items(target') == Items(target) + Flatten(Parts(key, d, pushed, 256))
      ensures forall key', d' :: Holds(key', d', [])
    {
      hide Kept;
      hide Parts;
      hide Spelled;
      hide AllSound;
      hide Holds;
      hide Bucket;
      hide Items;
      hide Flatten;
      BucketsHold(key, d, pushed);
      target' := target;
      NoParts(key, d, pushed);
      for c := 0 to 256
        invariant Valid() && AllSound(target', stash.line)
        invariant forall e :: 0 <= e < c ==> Spelled(buckets[e]) == []
        invariant forall e :: c <= e < 256 ==> Spelled(buckets[e]) == Bucket(key, d, pushed, e)
        invariant Items(target') == Items(target) + Flatten(Parts(key, d, pushed, c))
      {
        var b;
        b, target' := Buffers.FinishInto(buckets[c], target', stash.line);
        buckets := buckets[c := b];
        PartsMore(key, d, pushed, c);
      }
      EverHolds();
    }

    lemma BucketsHold(key: T -> nat, d: nat, pushed: seq<T>)
      requires Holds(key, d, pushed)
      ensures |buckets| == 256 && forall c :: 0 <= c < 256 ==> Spelled(buckets[c]) == Bucket(key, d, pushed, c)
    {
    }

    lemma EverHolds()
      requires |buckets| == 256 && forall c :: 0 <= c < 256 ==> Spelled(buckets[c]) == []
      ensures forall key, d :: Holds(key, d, [])
    {
      forall key, d ensures Shuffled(buckets, ByteOn(key, d), []) {
        NothingShuffled(buckets, ByteOn(key, d));
      }
    }
  }

  class Sorter<T(!new)> {
    const shuffler: Shuffler<T>
    ghost var pushed: seq<T>         // all elements pushed in this session

    ghost function Repr(): set<object> {
      {this, shuffler, shuffler.stash}
    }

    /** The elements pushed have been sorted into buckets by the first byte of the key. */
    ghost predicate Valid(key: T -> nat)
      reads Repr()
    {
      shuffler.Valid() && shuffler.Holds(key, 0, pushed)
    }

    constructor (capacity: nat)
      requires capacity > 0
      ensures pushed == [] && forall key :: Valid(key)
    {
      shuffler := new Shuffler(capacity);
      pushed := [];
    }

    method Push(x: T, key: T -> nat)
      requires Valid(key)
      modifies Repr()
      ensures Valid(key) && pushed == old(pushed) + [x]
    {
      shuffler.PushOne(x, key, 0, pushed);
      pushed := pushed + [x];
    }

    method PushBatch(batch: Buffer<T>, key: T -> nat)
      requires Valid(key) && |batch.items| <= batch.capacity
      modifies Repr()
      ensures (Valid(key) <==> Sound(batch, shuffler.stash.line)) && pushed == old(pushed) + batch.items
    {
      shuffler.PushBatch(batch, key, 0, pushed);
      pushed := pushed + batch.items;
    }

    /** Shuffles what previous passes have produced by another byte. */
    method Reshuffle(buffers: seq<Buffer<T>>, key: T -> nat, d: nat) returns (buffers': seq<Buffer<T>>)
      requires shuffler.Valid() && shuffler.Holds(key, d, []) && AllSound(buffers, shuffler.stash.line)
      modifies shuffler, shuffler.stash
      ensures shuffler.Valid() && AllSound(buffers', shuffler.stash.line)
      ensures Items(buffers') == Flatten(Parts(key, d, Items(buffers), 256))
      ensures forall key', d' :: shuffler.Holds(key', d', [])
    {
      hide Shuffler.Holds;
      assert Items(buffers[..0]) == [];
      for k := 0 to |buffers|
        invariant shuffler.Valid() && shuffler.Holds(key, d, Items(buffers[..k]))
      {
        shuffler.PushBatch(buffers[k], key, d, Items(buffers[..k]));
        assert buffers[..k + 1] == buffers[..k] + [buffers[k]];
        ItemsLast(buffers[..k], buffers[k]);
      }
      assert buffers[..|buffers|] == buffers;
      buffers' := shuffler.FinishInto([], key, d, Items(buffers));
    }

    /** Finishes the session: returns the stable sort of all that was pushed, and is ready for another
        session with any key. What was in the target before takes part in all passes but the first. */
    method FinishInto(target: seq<Buffer<T>>, key: T -> nat, bytes: nat) returns (target': seq<Buffer<T>>)
      requires Valid(key) && bytes >= 1 && forall x :: key(x) < Pow256(bytes)
      requires AllSound(target, shuffler.stash.line)
      modifies Repr()
      ensures Items(target') == StableSort(Upper(key), Items(target) + StableSort(LowOn(key, 1), old(pushed)))
      ensures Items(target) == [] ==> Items(target') == StableSort(key, old(pushed))
      ensures AllSound(target', shuffler.stash.line)
      ensures pushed == [] && forall key' :: Valid(key')
    {
      hide Shuffler.Holds;
      hide Passed;
      hide Parts;
      ghost var all := pushed;
      target' := shuffler.FinishInto(target, key, 0, pushed);
      FirstPass(key, Items(target), all, Parts(key, 0, all, 256));
      for d := 1 to bytes
        invariant shuffler.Valid() && AllSound(target', shuffler.stash.line)
        invariant Passed(key, d, Items(target), all, Items(target'))
        invariant forall key', d' :: shuffler.Holds(key', d', [])
      {
        ghost var before := Items(target');
        target' := Reshuffle(target', key, d);
        NextPass(key, d, Items(target), all, before, Parts(key, d, before, 256));
      }
      LastPass(key, bytes, Items(target), all, Items(target'));
      pushed := [];
    }

    /** Sorts batched data. */
    method Sort(batches: seq<Buffer<T>>, key: T -> nat, bytes: nat) returns (sorted: seq<Buffer<T>>)
      requires Valid(key) && bytes >= 1 && (forall x :: key(x) < Pow256(bytes)) &&
               AllSound(batches, shuffler.stash.line)
      modifies Repr()
      ensures Items(sorted) == StableSort(key, old(pushed) + Items(batches)) && AllSound(sorted, shuffler.stash.line)
      ensures pushed == [] && forall key' :: Valid(key')
    {
      hide Shuffler.Holds;
      assert Items(batches[..0]) == [];
      for k := 0 to |batches|
        invariant Valid(key) && pushed == old(pushed) + Items(batches[..k])
      {
        PushBatch(batches[k], key);
        assert batches[..k + 1] == batches[..k] + [batches[k]];
        ItemsLast(batches[..k], batches[k]);
      }
      assert batches[..|batches|] == batches;
      sorted := FinishInto([], key, bytes);
    }
  }
}
