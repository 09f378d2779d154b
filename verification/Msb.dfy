/** Radix sorting from the most significant byte, depth first: a stack of lists still to be split, those
    with the least keys on top, beside what is in its final place. */
module MsbSorters {
  import opened Basics
  import opened StableSorts
  import opened Radix
  import opened Buffers
  import opened Shuffling
  import opened Groupings

  /** Work to do: the elements of `list` agree on all bytes from `depth` on. */
  datatype Work<T> = Work(depth: nat, list: seq<Buffer<T>>)

  /** The result for `s`, followed by what becomes of the stack. */
  ghost predicate Mixed<T(!new)>(key: T -> nat, action: seq<T> -> seq<T>, s: seq<T>, work: seq<Work<T>>, r: seq<T>)
    decreases |work|, 1
  {
    exists a, b :: r == a + b && Outcome(key, action, s, a) && Pends(key, action, work, [], b)
  }

  /** What can become of the stack, from its top down, if `held` joins its top: the results for its entries,
      one after the other. */
  ghost predicate Pends<T(!new)>(key: T -> nat, action: seq<T> -> seq<T>, work: seq<Work<T>>, held: seq<T>, r: seq<T>)
    decreases |work|, 0
  {
    if work == [] then r == []
    else Mixed(key, action, held + Items(work[|work| - 1].list), work[..|work| - 1], r)
  }

  ghost predicate WorkOk<T(!new)>(key: T -> nat, work: seq<Work<T>>, line: nat) {
    forall i :: 0 <= i < |work| ==> AllSound(work[i].list, line) && SharesHigh(key, work[i].depth, Items(work[i].list))
  }

  /** The measure: each entry weighs its elements as often as there are bytes left, and one more. */
  ghost function Weight<T>(work: seq<Work<T>>): nat {
    if work == [] then 0
    else
      var last := |work| - 1;
      |Items(work[last].list)| * (work[last].depth + 1) + 1 + Weight(work[..last])
  }

  lemma PushPending<T(!new)>(key: T -> nat, action: seq<T> -> seq<T>, work: seq<Work<T>>, entry: Work<T>)
    ensures forall r :: Pends(key, action, work + [entry], [], r) <==> Mixed(key, action, Items(entry.list), work, r)
    ensures Weight(work + [entry]) == |Items(entry.list)| * (entry.depth + 1) + 1 + Weight(work)
  {
    assert (work + [entry])[..|work|] == work;
    assert [] + Items(entry.list) == Items(entry.list);
  }

  /** An entry of at least one element weighs no more than its elements did one level up. */
  lemma ChildWeight(n: nat, rest: nat, d: nat)
    requires n > 0
    ensures n * (d + 1) + 1 + rest * (d + 2) <= (n + rest) * (d + 2)
  {
    assert (n + rest) * (d + 2) == n * (d + 1) + n + rest * (d + 2);
  }

  /** A vector with other contents grows if it must. */
  function Refilled<T>(b: Buffer<T>, items: seq<T>): Buffer<T> {
    Buffer(items, if |items| > b.capacity then |items| else b.capacity)
  }

  lemma RefilledSound<T>(b: Buffer<T>, items: seq<T>)
    requires Sound(b, 1)
    ensures Sound(Refilled(b, items), 1) && Refilled(b, items).items == items
  {
    MultipleIs(Refilled(b, items).capacity, 1);
  }

  class Sorter<T(!new)> {
    var work: seq<Work<T>>             // a stack of work to do, top last
    var done: Batched<T>               // where sorted data is assembled
    var buckets: seq<Batched<T>>
    var stage: seq<T>                  // where data is staged that no byte is left to split by
    const stash: Stash<T>
    ghost var pushed: seq<T>           // all elements pushed in this session

    /** Buffers are in order, and the buckets hold `held` by byte `d`. */
    ghost predicate Ready(key: T -> nat, d: nat, held: seq<T>)
      reads this, stash
    {
      && stash.Valid() && stash.line == 1 && Kept(done, stash.line) && AllKept(buckets, stash.line)
      && stage == []
      && Shuffled(buckets, ByteOn(key, d), held)
    }

    /** Buffers are in order, and the buckets are empty. */
    ghost predicate Idle()
      reads this, stash
    {
      && stash.Valid() && stash.line == 1 && Kept(done, stash.line) && AllKept(buckets, stash.line)
      && stage == []
      && forall digit: T -> nat :: Shuffled(buckets, digit, [])
    }

    /** Between calls: no work is left, and the elements pushed are in buckets by the first byte. */
    ghost predicate Valid(key: T -> nat, bytes: nat)
      reads this, stash
    {
      && bytes >= 1 && (forall x :: key(x) < Pow256(bytes))
      && work == [] && Spelled(done) == []
      && Ready(key, bytes - 1, pushed)
    }

    constructor (capacity: nat)
      requires capacity > 0
      ensures pushed == [] && fresh(stash)
      ensures forall key: T -> nat, bytes: nat :: bytes >= 1 && (forall x :: key(x) < Pow256(bytes)) ==>
                Valid(key, bytes)
    {
      EmptyKept<T>(1);
      MultipleIs(capacity, 1);
      work, done, stage, pushed := [], Empty(), [], [];
      stash := new Stash(capacity, 1);
      buckets := seq(256, c => Empty());
      new;
      forall key, d ensures Shuffled(buckets, ByteOn(key, d), []) {
        NothingShuffled(buckets, ByteOn(key, d));
      }
    }

    lemma EverValid()
      requires Idle() && work == [] && Spelled(done) == [] && pushed == []
      ensures forall key: T -> nat, bytes: nat :: bytes >= 1 && (forall x :: key(x) < Pow256(bytes)) ==>
                Valid(key, bytes)
    {
      forall key: T -> nat, d: nat ensures Ready(key, d, []) {
      }
    }

    /** Puts one element into the bucket of byte `d`. */
    method Place(x: T, key: T -> nat, d: nat, ghost held: seq<T>)
      requires Ready(key, d, held)
      modifies this`buckets, stash
      ensures Ready(key, d, held + [x])
    {
      hide Shuffled;
      hide Kept;
      ShuffledSize(buckets, ByteOn(key, d), held);
      var c := ByteOf(key(x), d);
      var b := Buffers.Push(buckets[c], x, stash);
      OneShuffled(buckets, ByteOn(key, d), held, x, b);
      buckets := buckets[c := b];
    }

    /** Puts a batch into the buckets, and keeps its memory. */
    method PlaceBatch(batch: Buffer<T>, key: T -> nat, d: nat, ghost held: seq<T>)
      requires Ready(key, d, held) && |batch.items| <= batch.capacity
      modifies this`buckets, stash
      ensures Ready(key, d, held + batch.items) <==> Sound(batch, stash.line)
    {
      hide Shuffled;
      hide Kept;
      assert held + batch.items[..0] == held;
      for k := 0 to |batch.items|
        invariant Ready(key, d, held + batch.items[..k])
      {
        Place(batch.items[k], key, d, held + batch.items[..k]);
        assert held + batch.items[..k + 1] == held + batch.items[..k] + [batch.items[k]];
      }
      assert batch.items[..|batch.items|] == batch.items;
      stash.Give(batch.(items := []));
    }

    method Push(x: T, key: T -> nat, bytes: nat)
      requires Valid(key, bytes)
      modifies this, stash
      ensures Valid(key, bytes) && pushed == old(pushed) + [x]
    {
      hide Shuffled;
      hide Kept;
      Place(x, key, bytes - 1, pushed);
      pushed := pushed + [x];
    }

    method PushBatch(batch: Buffer<T>, key: T -> nat, bytes: nat)
      requires Valid(key, bytes) && |batch.items| <= batch.capacity
      modifies this, stash
      ensures (Valid(key, bytes) <==> Sound(batch, stash.line)) && pushed == old(pushed) + batch.items
    {
      hide Shuffled;
      hide Kept;
      PlaceBatch(batch, key, bytes - 1, pushed);
      pushed := pushed + batch.items;
    }

    /** Stacks the nonempty buckets, those of low bytes on top. */
    method StackBuckets(key: T -> nat, d: nat, ghost action: seq<T> -> seq<T>, ghost s: seq<T>)
      requires Ready(key, d, s) && WorkOk(key, work, stash.line) && SharesHigh(key, d + 1, s)
      modifies this`buckets, this`work
      ensures Idle()
      ensures WorkOk(key, work, stash.line)
      ensures forall r :: Pends(key, action, work, [], r) ==> Mixed(key, action, s, old(work), r)
      ensures Weight(work) <= Weight(old(work)) + |s| * (d + 2)
    {
      hide Shuffled;
      hide AllKept;
      hide WorkOk;
      hide SharesHigh;
      hide Weight;
      hide Pends;
      hide Stacked;
      hide Kept;
      hide Spelled;
      ghost var before := work;
      BucketsAre(buckets, key, d, s);
      StackStart(key, action, d, s, buckets, work, stash.line);
      var byte := 256;
      while byte > 0
        invariant byte <= 256 && Stacked(key, action, d, s, buckets, work, before, byte, stash.line)
      {
        byte := byte - 1;
        StackedSize(key, action, d, s, buckets, work, before, byte, stash.line);
        if buckets[byte].tail.items != [] {
          var b, list := Buffers.Finish(buckets[byte], stash.line);
          StackPush(key, action, d, s, buckets, work, before, byte, stash.line, b, list);
          work := work + [Work(d, list)];
          buckets := buckets[byte := b];
        } else {
          StackSkip(key, action, d, s, buckets, work, before, byte, stash.line);
        }
      }
      StackedAll(key, action, d, s, buckets, work, before, stash.line);
    }

    /** Finishes elements that no byte is left to split by. */
    method Finalize(source: seq<Buffer<T>>, ghost key: T -> nat, action: seq<T> -> seq<T>)
      requires Ready(key, 0, []) && AllSound(source, stash.line)
      modifies this`stage, this`done, stash
      ensures Ready(key, 0, [])
      ensures Spelled(done) == old(Spelled(done)) + action(Items(source))
    {
      hide Shuffled;
      hide Kept;
      hide Spelled;
      hide Multiple;
      hide Items;
      NoItems<T>();
      assert source[..0] == [];
      for i := 0 to |source|
        modifies this`stage, stash
        invariant stash.Valid() && stage == Items(source[..i])
      {
        var batch := source[i];
        assert stage + batch.items[..0] == stage;
        for k := 0 to |batch.items|
          modifies this`stage
          invariant stage == Items(source[..i]) + batch.items[..k]
        {
          assert batch.items[..k + 1] == batch.items[..k] + [batch.items[k]];
          stage := stage + [batch.items[k]];
        }
        assert batch.items[..|batch.items|] == batch.items;
        stash.Give(batch.(items := []));
        assert source[..i + 1] == source[..i] + [batch];
        ItemsLast(source[..i], batch);
      }
      assert source[..|source|] == source;
      stage := action(stage);
      ghost var before := Spelled(done);
      assert before + stage[..0] == before;
      for k := 0 to |stage|
        modifies this`done, stash
        invariant stash.Valid() && Kept(done, stash.line) && stage == action(Items(source))
        invariant Spelled(done) == before + stage[..k]
      {
        assert stage[..k + 1] == stage[..k] + [stage[k]];
        assert before + stage[..k] + [stage[k]] == before + stage[..k + 1];
        done := Buffers.Push(done, stage[k], stash);
      }
      assert stage[..|stage|] == stage;
      stage := [];
    }

    /** Digests a list of buffers: splits it by the next byte if it is long and a byte is left, and
        finishes it otherwise. `held` is what the buckets already hold. */
    method Ingest(source: seq<Buffer<T>>, key: T -> nat, depth: nat, action: seq<T> -> seq<T>, ghost held: seq<T>)
      returns (ghost finished: seq<T>)
      requires Ready(key, if depth > 0 then depth - 1 else 0, held) && (held == [] || (|source| > 1 && depth > 0))
      requires AllSound(source, stash.line) && SharesHigh(key, depth, held + Items(source)) &&
               WorkOk(key, work, stash.line)
      modifies this, stash
      ensures pushed == old(pushed)
      ensures Idle()
      ensures WorkOk(key, work, stash.line)
      ensures Spelled(done) == old(Spelled(done)) + finished
      ensures forall r :: Pends(key, action, work, [], r) ==>
                Mixed(key, action, held + Items(source), old(work), finished + r)
      ensures Weight(work) < Weight(old(work)) + |held + Items(source)| * (depth + 1) + 1
    {
      hide Shuffled;
      hide WorkOk;
      hide SharesHigh;
      hide Weight;
      hide Pends;
      hide Kept;
      hide Spelled;
      hide AllKept;
      hide Mixed;
      hide Items;
      NoItems<T>();
      if |source| > 1 {
        if depth > 0 {
          assert source[..0] == [] && held + [] == held;
          for i := 0 to |source|
            modifies this`buckets, stash
            invariant Ready(key, depth - 1, held + Items(source[..i]))
          {
            PlaceBatch(source[i], key, depth - 1, held + Items(source[..i]));
            assert source[..i + 1] == source[..i] + [source[i]];
            ItemsLast(source[..i], source[i]);
            assert held + Items(source[..i]) + source[i].items == held + Items(source[..i + 1]);
          }
          assert source[..|source|] == source;
          StackBuckets(key, depth - 1, action, held + Items(source));
          finished := [];
          assert forall r: seq<T> :: [] + r == r;
        } else {
          assert held + Items(source) == Items(source);
          Finalize(source, key, action);
          EverEmpty(buckets, ByteOn(key, 0));
          finished := action(Items(source));
          MixedWhole(key, action, Items(source), work);
        }
      } else if |source| == 1 {
        var batch := source[0];
        OneBuffer(batch);
        assert source == [batch] && held + Items(source) == batch.items;
        EverEmpty(buckets, ByteOn(key, if depth > 0 then depth - 1 else 0));
        finished := action(batch.items);
        KeptFits(done, stash.line);
        RefilledSound(batch, finished);
        done := PushVec(done, Refilled(batch, action(batch.items)), stash);
        MixedWhole(key, action, batch.items, work);
      } else {
        assert source == [] && held + Items(source) == [];
        EverEmpty(buckets, ByteOn(key, if depth > 0 then depth - 1 else 0));
        finished := [];
        MixedNothing(key, action, work);
      }
    }

    /** The stack can be worked off: its top may have to be joined with what the buckets `held`. */
    ghost predicate CanGrind(key: T -> nat, held: seq<T>)
      reads this, stash
    {
      && WorkOk(key, work, stash.line)
      && if held == [] then Idle()
         else work != [] && CanJoin(key, work[|work| - 1], held) && Ready(key, work[|work| - 1].depth - 1, held)
    }

    /** Works off the stack. It ends: every entry taken is replaced by lighter ones. */
    method Grind(key: T -> nat, action: seq<T> -> seq<T>, ghost held: seq<T>)
      requires CanGrind(key, held) && Spelled(done) == []
      modifies this, stash
      ensures work == [] && pushed == old(pushed)
      ensures Idle()
      ensures Pends(key, action, old(work), held, Spelled(done))
    {
      hide Shuffled;
      hide Kept;
      hide AllKept;
      hide WorkOk;
      hide Weight;
      hide Pends;
      hide Mixed;
      hide Spelled;
      hide CanJoin;
      hide Continues;
      ghost var h := held;
      ContinuesStart(key, action, work, held);
      while work != []
        invariant CanGrind(key, h) && pushed == old(pushed) && (work == [] ==> h == [])
        invariant Continues(key, action, old(work), held, Spelled(done), work, h)
        decreases WeightWith(work, h)
      {
        ghost var before, prefix := work, Spelled(done);
        var top := work[|work| - 1];
        TopOk(key, work, stash.line, h);
        assert Ready(key, if top.depth > 0 then top.depth - 1 else 0, h);
        work := work[..|work| - 1];
        ghost var finished := Ingest(top.list, key, top.depth, action, h);
        ContinuesStep(key, action, old(work), held, prefix, before, h, finished, work);
        h := [];
        WithNothing(work);
      }
      ContinuesDone(key, action, old(work), held, Spelled(done));
    }

    /** Finishes the session, with `action` to finish groups that need not or cannot be split further. */
    method FinishIntoAnd(target: seq<Buffer<T>>, key: T -> nat, bytes: nat, action: seq<T> -> seq<T>)
      returns (target': seq<Buffer<T>>, ghost result: seq<T>)
      requires Valid(key, bytes)
      modifies this, stash
      ensures Outcome(key, action, old(pushed), result)
      ensures Items(target') == Items(target) + result &&
              (AllSound(target, stash.line) ==> AllSound(target', stash.line))
      ensures pushed == []
      ensures forall key': T -> nat, bytes': nat :: bytes' >= 1 && (forall x :: key'(x) < Pow256(bytes')) ==>
                Valid(key', bytes')
    {
      hide Shuffled;
      hide Kept;
      hide AllKept;
      hide SharesHigh;
      hide Spelled;
      hide Items;
      hide Multiple;
      hide Weight;
      hide Pends;
      hide Mixed;
      hide Outcome;
      AllShare(key, bytes, pushed);
      StackBuckets(key, bytes - 1, action, pushed);
      Grind(key, action, []);
      result := Spelled(done);
      MixedOnly(key, action, old(pushed), result);
      done, target' := Buffers.FinishInto(done, target, stash.line);
      pushed := [];
      EverValid();
    }

    /** Sorts a list of buffers, together with what has been pushed unless the list is of at most one
        buffer, which is finished by itself. */
    method SortAnd(source: seq<Buffer<T>>, key: T -> nat, bytes: nat, action: seq<T> -> seq<T>)
      returns (sorted: seq<Buffer<T>>)
      requires Valid(key, bytes) && AllSound(source, stash.line)
      modifies this, stash
      ensures Valid(key, bytes) && AllSound(sorted, stash.line)
      ensures Outcome(key, action, (if |source| > 1 then old(pushed) else []) + Items(source), Items(sorted))
      ensures pushed == if |source| > 1 then [] else old(pushed)
    {
      hide Shuffled;
      hide Kept;
      hide AllKept;
      hide SharesHigh;
      hide Spelled;
      hide Items;
      hide Multiple;
      hide Weight;
      hide Pends;
      hide Mixed;
      hide Outcome;
      hide WorkOk;
      NoItems<T>();
      if |source| > 1 {
        AllShare(key, bytes, pushed + Items(source));
        AllShare(key, bytes, Items(source));
        ReadyForAny(buckets, ByteOn(key, bytes - 1), pushed);
        OneWork(key, Work(bytes, source), stash.line);
        work := work + [Work(bytes, source)];
        assert work == [Work(bytes, source)];
        Grind(key, action, pushed);
        OneEntry(key, action, Work(bytes, source), old(pushed), Spelled(done));
        assert Ready(key, bytes - 1, []);
        ghost var result := Spelled(done);
        done, sorted := Buffers.FinishInto(done, [], stash.line);
        assert Items(sorted) == result;
        pushed := [];
      } else if |source| == 1 {
        OneBuffer(source[0]);
        assert source == [source[0]] && [] + Items(source) == source[0].items;
        OutcomeWhole(key, action, source[0].items);
        sorted := [Refilled(source[0], action(source[0].items))];
        RefilledSound(source[0], action(source[0].items));
        OneBuffer(sorted[0]);
      } else {
        sorted := source;
        OutcomeNothing(key, action);
        assert source == [] && [] + Items(source) == [];
      }
    }

    method FinishInto(target: seq<Buffer<T>>, key: T -> nat, bytes: nat) returns (target': seq<Buffer<T>>)
      requires Valid(key, bytes)
      modifies this, stash
      ensures Items(target') == Items(target) + StableSort(key, old(pushed))
      ensures AllSound(target, stash.line) ==> AllSound(target', stash.line)
      ensures pushed == []
      ensures forall key': T -> nat, bytes': nat :: bytes' >= 1 && (forall x :: key'(x) < Pow256(bytes')) ==>
                Valid(key', bytes')
    {
      ghost var result;
      target', result := FinishIntoAnd(target, key, bytes, s => StableSort(key, s));
      OutcomeSorted(key, key, s => StableSort(key, s), old(pushed), result);
    }

    method Sort(batches: seq<Buffer<T>>, key: T -> nat, bytes: nat) returns (sorted: seq<Buffer<T>>)
      requires Valid(key, bytes) && AllSound(batches, stash.line)
      modifies this, stash
      ensures Valid(key, bytes) && AllSound(sorted, stash.line)
      ensures Items(sorted) == StableSort(key, (if |batches| > 1 then old(pushed) else []) + Items(batches))
      ensures pushed == if |batches| > 1 then [] else old(pushed)
    {
      sorted := SortAnd(batches, key, bytes, s => StableSort(key, s));
      OutcomeSorted(key, key, s => StableSort(key, s), (if |batches| > 1 then old(pushed) else []) + Items(batches),
                    Items(sorted));
    }
  }

  lemma BucketsAre<T(!new)>(buckets: seq<Batched<T>>, key: T -> nat, d: nat, s: seq<T>)
    requires Shuffled(buckets, ByteOn(key, d), s)
    ensures |buckets| == 256 && forall c :: 0 <= c < 256 ==> Spelled(buckets[c]) == Bucket(key, d, s, c)
  {
  }

  /** The buckets from `byte` on have been stacked onto `before`. */
  ghost predicate Stacked<T(!new)>(key: T -> nat, action: seq<T> -> seq<T>, d: nat, s: seq<T>, buckets: seq<Batched<T>>,
                                   work: seq<Work<T>>, before: seq<Work<T>>, byte: nat, line: nat) {
    && byte <= 256 && |buckets| == 256 && AllKept(buckets, line)
    && SharesHigh(key, d + 1, s)
    && (forall c :: byte <= c < 256 ==> Spelled(buckets[c]) == [])
    && (forall c :: 0 <= c < byte ==> Spelled(buckets[c]) == Bucket(key, d, s, c))
    && WorkOk(key, work, line)
    && (forall r :: Pends(key, action, work, [], r) ==> Mixed(key, action, From(key, d, s, byte), before, r))
    && Weight(work) <= Weight(before) + |From(key, d, s, byte)| * (d + 2)
  }

  lemma StackStart<T(!new)>(key: T -> nat, action: seq<T> -> seq<T>, d: nat, s: seq<T>, buckets: seq<Batched<T>>,
                            work: seq<Work<T>>, line: nat)
    requires |buckets| == 256 && AllKept(buckets, line) && SharesHigh(key, d + 1, s) && WorkOk(key, work, line)
    requires forall c :: 0 <= c < 256 ==> Spelled(buckets[c]) == Bucket(key, d, s, c)
    ensures Stacked(key, action, d, s, buckets, work, work, 256, line)
  {
    hide Weight;
    hide Pends;
    hide Mixed;
    hide SharesHigh;
    hide WorkOk;
    hide Spelled;
    hide Bucket;
    FromAll(key, d, s);
    MixedNothing(key, action, work);
    assert forall r: seq<T> :: [] + r == r;
  }

  lemma StackedSize<T(!new)>(key: T -> nat, action: seq<T> -> seq<T>, d: nat, s: seq<T>, buckets: seq<Batched<T>>,
                             work: seq<Work<T>>, before: seq<Work<T>>, byte: nat, line: nat)
    requires Stacked(key, action, d, s, buckets, work, before, byte + 1, line)
    ensures byte < |buckets| == 256 && Kept(buckets[byte], line)
  {
  }

  /** What follows an empty bucket stands for it, too. */
  lemma SkipMixed<T(!new)>(key: T -> nat, action: seq<T> -> seq<T>, d: nat, s: seq<T>, before: seq<Work<T>>, byte: nat,
                           r: seq<T>)
    requires SharesHigh(key, d + 1, s) && Bucket(key, d, s, byte) == []
    requires Mixed(key, action, From(key, d, s, byte + 1), before, r)
    ensures Mixed(key, action, From(key, d, s, byte), before, r)
  {
    hide Outcome;
    hide Pends;
    hide Bucket;
    hide From;
    hide SharesHigh;
    var a, b :| r == a + b && Outcome(key, action, From(key, d, s, byte + 1), a) && Pends(key, action, before, [], b);
    OutcomeNothing(key, action);
    OutcomeFrom(key, action, d, s, byte, [], a);
    assert [] + a == a;
  }

  lemma StackSkip<T(!new)>(key: T -> nat, action: seq<T> -> seq<T>, d: nat, s: seq<T>, buckets: seq<Batched<T>>,
                           work: seq<Work<T>>, before: seq<Work<T>>, byte: nat, line: nat)
    requires Stacked(key, action, d, s, buckets, work, before, byte + 1, line) && buckets[byte].tail.items == []
    ensures Stacked(key, action, d, s, buckets, work, before, byte, line)
  {
    hide Weight;
    hide Pends;
    hide Mixed;
    hide From;
    hide Bucket;
    hide SharesHigh;
    TailTells(buckets[byte], line);
    FromParts(key, d, s, byte);
    forall r | Pends(key, action, work, [], r) ensures Mixed(key, action, From(key, d, s, byte), before, r) {
      SkipMixed(key, action, d, s, before, byte, r);
    }
  }

  /** The result for a bucket comes before that for those above it. */
  lemma PushMixed<T(!new)>(key: T -> nat, action: seq<T> -> seq<T>, d: nat, s: seq<T>, work: seq<Work<T>>,
                           before: seq<Work<T>>, byte: nat, r: seq<T>)
    requires SharesHigh(key, d + 1, s) && Mixed(key, action, Bucket(key, d, s, byte), work, r)
    requires forall q :: Pends(key, action, work, [], q) ==> Mixed(key, action, From(key, d, s, byte + 1), before, q)
    ensures Mixed(key, action, From(key, d, s, byte), before, r)
  {
    hide Outcome;
    hide Pends;
    hide Bucket;
    hide From;
    hide SharesHigh;
    var a, q :| r == a + q && Outcome(key, action, Bucket(key, d, s, byte), a) && Pends(key, action, work, [], q);
    var b, c :| q == b + c && Outcome(key, action, From(key, d, s, byte + 1), b) && Pends(key, action, before, [], c);
    OutcomeFrom(key, action, d, s, byte, a, b);
    Associative(a, b, c);
  }

  lemma StackPush<T(!new)>(key: T -> nat, action: seq<T> -> seq<T>, d: nat, s: seq<T>, buckets: seq<Batched<T>>,
                           work: seq<Work<T>>, before: seq<Work<T>>, byte: nat, line: nat, b: Batched<T>,
                           list: seq<Buffer<T>>)
    requires Stacked(key, action, d, s, buckets, work, before, byte + 1, line) && buckets[byte].tail.items != []
    requires Kept(b, line) && Spelled(b) == [] && AllSound(list, line) && Items(list) == Spelled(buckets[byte])
    ensures Stacked(key, action, d, s, buckets[byte := b], work + [Work(d, list)], before, byte, line)
  {
    hide Weight;
    hide Pends;
    hide Mixed;
    hide From;
    hide Bucket;
    hide SharesHigh;
    hide Items;
    hide Spelled;
    hide Aligned;
    hide Multiple;
    TailTells(buckets[byte], line);
    FromParts(key, d, s, byte);
    BucketShares(key, d, s, byte);
    PushPending(key, action, work, Work(d, list));
    ChildWeight(|Items(list)|, |From(key, d, s, byte + 1)|, d);
    forall r | Pends(key, action, work + [Work(d, list)], [], r)
      ensures Mixed(key, action, From(key, d, s, byte), before, r)
    {
      PushMixed(key, action, d, s, work, before, byte, r);
    }
  }

  lemma StackedAll<T(!new)>(key: T -> nat, action: seq<T> -> seq<T>, d: nat, s: seq<T>, buckets: seq<Batched<T>>,
                            work: seq<Work<T>>, before: seq<Work<T>>, line: nat)
    requires Stacked(key, action, d, s, buckets, work, before, 0, line)
    ensures |buckets| == 256 && AllKept(buckets, line) && WorkOk(key, work, line)
    ensures forall digit: T -> nat :: Shuffled(buckets, digit, [])
    ensures forall r :: Pends(key, action, work, [], r) ==> Mixed(key, action, s, before, r)
    ensures Weight(work) <= Weight(before) + |s| * (d + 2)
  {
    FromAll(key, d, s);
    forall digit: T -> nat ensures Shuffled(buckets, digit, []) {
      NothingShuffled(buckets, digit);
    }
  }

  lemma EverEmpty<T(!new)>(buckets: seq<Batched<T>>, digit: T -> nat)
    requires Shuffled(buckets, digit, [])
    ensures forall digit': T -> nat :: Shuffled(buckets, digit', [])
  {
    forall digit': T -> nat ensures Shuffled(buckets, digit', []) {
      NothingShuffled(buckets, digit');
    }
  }

  /** What can become of some elements, and of the stack below them. */
  lemma MixedWhole<T(!new)>(key: T -> nat, action: seq<T> -> seq<T>, s: seq<T>, work: seq<Work<T>>)
    ensures forall r :: Pends(key, action, work, [], r) ==> Mixed(key, action, s, work, action(s) + r)
  {
    hide Outcome;
    hide Pends;
    OutcomeWhole(key, action, s);
  }

  lemma MixedNothing<T(!new)>(key: T -> nat, action: seq<T> -> seq<T>, work: seq<Work<T>>)
    ensures forall r :: Pends(key, action, work, [], r) ==> Mixed(key, action, [], work, [] + r)
  {
    hide Outcome;
    hide Pends;
    OutcomeNothing(key, action);
  }

  /** With nothing below, only they count. */
  lemma MixedOnly<T(!new)>(key: T -> nat, action: seq<T> -> seq<T>, s: seq<T>, r: seq<T>)
    requires Mixed(key, action, s, [], r)
    ensures Outcome(key, action, s, r)
  {
    hide Outcome;
    var a, b :| r == a + b && Outcome(key, action, s, a) && Pends(key, action, [], [], b);
    assert a + [] == a;
  }

  /** Whatever becomes of the stack, with `prefix` before it, could have become of the stack at first. */
  ghost predicate Continues<T(!new)>(key: T -> nat, action: seq<T> -> seq<T>, first: seq<Work<T>>, held: seq<T>,
                                     prefix: seq<T>, work: seq<Work<T>>, h: seq<T>) {
    forall r :: Pends(key, action, work, h, r) ==> Pends(key, action, first, held, prefix + r)
  }

  lemma ContinuesStart<T(!new)>(key: T -> nat, action: seq<T> -> seq<T>, work: seq<Work<T>>, held: seq<T>)
    ensures Continues(key, action, work, held, [], work, held)
  {
    hide Pends;
    assert forall r: seq<T> :: [] + r == r;
  }

  lemma ContinuesStep<T(!new)>(key: T -> nat, action: seq<T> -> seq<T>, first: seq<Work<T>>, held: seq<T>,
                               prefix: seq<T>, before: seq<Work<T>>, h: seq<T>, finished: seq<T>, work: seq<Work<T>>)
    requires Continues(key, action, first, held, prefix, before, h) && before != []
    requires forall r :: Pends(key, action, work, [], r) ==>
               Mixed(key, action, h + Items(before[|before| - 1].list), before[..|before| - 1], finished + r)
    ensures Continues(key, action, first, held, prefix + finished, work, [])
  {
    hide Mixed;
    forall r | Pends(key, action, work, [], r) ensures Pends(key, action, first, held, prefix + finished + r) {
      assert Pends(key, action, before, h, finished + r);
      Associative(prefix, finished, r);
    }
  }

  lemma ContinuesDone<T(!new)>(key: T -> nat, action: seq<T> -> seq<T>, first: seq<Work<T>>, held: seq<T>,
                               prefix: seq<T>)
    requires Continues(key, action, first, held, prefix, [], [])
    ensures Pends(key, action, first, held, prefix)
  {
    assert Pends<T>(key, action, [], [], []) && prefix + [] == prefix;
  }

  lemma NoItems<T>()
    ensures Items<T>([]) == []
  {
  }

  lemma KeptFits<T>(b: Batched<T>, line: nat)
    requires Kept(b, line)
    ensures |b.tail.items| <= b.tail.capacity
  {
  }

  /** An entry that will be split together with what the buckets `held`. */
  ghost predicate CanJoin<T(!new)>(key: T -> nat, top: Work<T>, held: seq<T>) {
    top.depth > 0 && |top.list| > 1 && SharesHigh(key, top.depth, held + Items(top.list))
  }

  ghost function WeightWith<T>(work: seq<Work<T>>, held: seq<T>): nat {
    if work == [] then 0
    else |held + Items(work[|work| - 1].list)| * (work[|work| - 1].depth + 1) + 1 + Weight(work[..|work| - 1])
  }

  lemma WithNothing<T>(work: seq<Work<T>>)
    ensures WeightWith(work, []) == Weight(work)
  {
    if work != [] {
      assert [] + Items(work[|work| - 1].list) == Items(work[|work| - 1].list);
    }
  }

  lemma TopOk<T(!new)>(key: T -> nat, work: seq<Work<T>>, line: nat, held: seq<T>)
    requires WorkOk(key, work, line) && work != [] && (held == [] || CanJoin(key, work[|work| - 1], held))
    ensures AllSound(work[|work| - 1].list, line) &&
            SharesHigh(key, work[|work| - 1].depth, held + Items(work[|work| - 1].list))
    ensures held == [] || (|work[|work| - 1].list| > 1 && work[|work| - 1].depth > 0)
    ensures WorkOk(key, work[..|work| - 1], line)
  {
    assert [] + Items(work[|work| - 1].list) == Items(work[|work| - 1].list);
  }

  lemma OneEntry<T(!new)>(key: T -> nat, action: seq<T> -> seq<T>, entry: Work<T>, held: seq<T>, r: seq<T>)
    requires Pends(key, action, [entry], held, r)
    ensures Outcome(key, action, held + Items(entry.list), r)
  {
    hide Mixed;
    assert [entry][..0] == [];
    MixedOnly(key, action, held + Items(entry.list), r);
  }

  lemma OneWork<T(!new)>(key: T -> nat, entry: Work<T>, line: nat)
    requires AllSound(entry.list, line) && SharesHigh(key, entry.depth, Items(entry.list))
    ensures WorkOk(key, [] + [entry], line)
  {
  }

  lemma ReadyForAny<T(!new)>(buckets: seq<Batched<T>>, digit: T -> nat, held: seq<T>)
    requires Shuffled(buckets, digit, held)
    ensures held == [] ==> forall digit': T -> nat :: Shuffled(buckets, digit', [])
  {
    if held == [] {
      EverEmpty(buckets, digit);
    }
  }

  lemma OneBuffer<T>(b: Buffer<T>)
    ensures Items([b]) == b.items
  {
    ItemsLast([], b);
  }
}
