/** Radix sorting from the most significant byte, with writes to buckets combined into lines. The stack
    holds lists still to be split and lists that are sorted already. */
module MsbSwcSorters {
  import opened Basics
  import opened StableSorts
  import opened Radix
  import opened Buffers
  import opened Shuffling
  import opened Groupings
  import opened SwcBuffers
  import opened LsbSwcSorters
  import Msb = MsbSorters

  /** Work to do: sorted results that need only be moved into place, or elements to sort, which agree on
      all bytes from `depth` on. */
  datatype Work<T> = Done(batch: Buffer<T>) | Sort(depth: nat, list: seq<Buffer<T>>)

  /** What can become of an entry, if the buckets `held` some more elements of it. */
  ghost predicate Result<T(!new)>(key: T -> nat, action: seq<T> -> seq<T>, entry: Work<T>, held: seq<T>, r: seq<T>) {
    match entry
    case Done(batch) => r == batch.items
    case Sort(_, list) => Outcome(key, action, held + Items(list), r)
  }

  /** The result for `s`, followed by what becomes of the stack. */
  ghost predicate Mixed<T(!new)>(key: T -> nat, action: seq<T> -> seq<T>, s: seq<T>, work: seq<Work<T>>, r: seq<T>) {
    exists a, b :: r == a + b && Outcome(key, action, s, a) && Pends(key, action, work, [], b)
  }

  /** What can become of the stack, from its top down: the results for its entries, one after the other. */
  ghost predicate Pends<T(!new)>(key: T -> nat, action: seq<T> -> seq<T>, work: seq<Work<T>>, held: seq<T>, r: seq<T>)
    decreases |work|
  {
    if work == [] then r == []
    else
      var last := |work| - 1;
      exists a, b :: r == a + b && Result(key, action, work[last], held, a) && Pends(key, action, work[..last], [], b)
  }

  ghost predicate EntryOk<T(!new)>(key: T -> nat, entry: Work<T>, line: nat, held: seq<T>) {
    match entry
    case Done(batch) => Sound(batch, line) && held == []
    case Sort(depth, list) =>
      AllSound(list, line) && SharesHigh(key, depth, held + Items(list)) && (held != [] ==> depth > 0)
  }

  ghost predicate WorkOk<T(!new)>(key: T -> nat, work: seq<Work<T>>, line: nat, held: seq<T>) {
    forall i :: 0 <= i < |work| ==> EntryOk(key, work[i], line, if i == |work| - 1 then held else [])
  }

  ghost function EntryWeight<T>(entry: Work<T>, held: seq<T>): nat {
    match entry
    case Done(_) => 1
    case Sort(depth, list) => |held + Items(list)| * (depth + 1) + 1
  }

  /** The measure: each entry weighs its elements as often as there are bytes left, and one more. */
  ghost function Weight<T>(work: seq<Work<T>>, held: seq<T>): nat {
    if work == [] then 0
    else
      var last := |work| - 1;
      EntryWeight(work[last], held) + Weight(work[..last], [])
  }

  lemma PushEntry<T(!new)>(key: T -> nat, action: seq<T> -> seq<T>, work: seq<Work<T>>, entry: Work<T>, line: nat,
                           held: seq<T>)
    requires WorkOk(key, work, line, []) && EntryOk(key, entry, line, held)
    ensures WorkOk(key, work + [entry], line, held)
    ensures forall r :: Pends(key, action, work + [entry], held, r) ==>
              exists a, b :: r == a + b && Result(key, action, entry, held, a) && Pends(key, action, work, [], b)
    ensures Weight(work + [entry], held) == EntryWeight(entry, held) + Weight(work, [])
  {
    hide Result;
    assert (work + [entry])[..|work|] == work;
  }

  lemma PopEntry<T(!new)>(key: T -> nat, work: seq<Work<T>>, line: nat, held: seq<T>)
    requires WorkOk(key, work, line, held) && work != []
    ensures EntryOk(key, work[|work| - 1], line, held) && WorkOk(key, work[..|work| - 1], line, [])
    ensures Weight(work, held) == EntryWeight(work[|work| - 1], held) + Weight(work[..|work| - 1], [])
  {
    var rest := work[..|work| - 1];
    forall i | 0 <= i < |rest| ensures EntryOk(key, rest[i], line, []) {
      assert EntryOk(key, work[i], line, []);
    }
  }

  /** An action that does not make a batch outgrow its memory. */
  ghost predicate NeverLonger<T(!new)>(action: seq<T> -> seq<T>) {
    forall s :: |action(s)| <= |s|
  }

  /** The buckets from `byte` on have been stacked onto `before`. */
  ghost predicate Stacked<T(!new)>(key: T -> nat, action: seq<T> -> seq<T>, d: nat, s: seq<T>, buckets: seq<Batched<T>>,
                                   lanes: seq<seq<T>>, work: seq<Work<T>>, before: seq<Work<T>>, byte: nat, line: nat) {
    && byte <= 256 && |buckets| == |lanes| == 256 && AllAligned(buckets, line)
    && SharesHigh(key, d + 1, s)
    && (forall c :: byte <= c < 256 ==> Spelled(buckets[c]) == [] && lanes[c] == [])
    && (forall c :: 0 <= c < byte ==> Spelled(buckets[c]) + lanes[c] == Bucket(key, d, s, c))
    && WorkOk(key, work, line, [])
    && (forall r :: Pends(key, action, work, [], r) ==> Mixed(key, action, From(key, d, s, byte), before, r))
    && Weight(work, []) <= Weight(before, []) + |From(key, d, s, byte)| * (d + 2)
  }

  lemma StackStart<T(!new)>(key: T -> nat, action: seq<T> -> seq<T>, d: nat, s: seq<T>, buckets: seq<Batched<T>>,
                            lanes: seq<seq<T>>, work: seq<Work<T>>, line: nat)
    requires AllAligned(buckets, line) && SharesHigh(key, d + 1, s) && WorkOk(key, work, line, [])
    requires Staged(buckets, lanes, ByteOn(key, d), s)
    ensures Stacked(key, action, d, s, buckets, lanes, work, work, 256, line)
  {
    hide Weight;
    hide Pends;
    hide Mixed;
    hide SharesHigh;
    hide WorkOk;
    hide Spelled;
    StagedParts(buckets, lanes, key, d, s);
    FromAll(key, d, s);
    MixedNothing(key, action, work);
    assert forall r: seq<T> :: [] + r == r;
  }

  lemma StackedSize<T(!new)>(key: T -> nat, action: seq<T> -> seq<T>, d: nat, s: seq<T>, buckets: seq<Batched<T>>,
                             lanes: seq<seq<T>>, work: seq<Work<T>>, before: seq<Work<T>>, byte: nat, line: nat)
    requires Stacked(key, action, d, s, buckets, lanes, work, before, byte + 1, line)
    ensures byte < |buckets| == |lanes| == 256 && Kept(buckets[byte], line) && Aligned(buckets[byte], line)
  {
  }

  /** The result for a bucket comes before that for those above it. */
  lemma PushMixed<T(!new)>(key: T -> nat, action: seq<T> -> seq<T>, d: nat, s: seq<T>, work: seq<Work<T>>,
                           before: seq<Work<T>>, byte: nat, a: seq<T>, q: seq<T>)
    requires SharesHigh(key, d + 1, s) && Outcome(key, action, Bucket(key, d, s, byte), a)
    requires Mixed(key, action, From(key, d, s, byte + 1), before, q)
    ensures Mixed(key, action, From(key, d, s, byte), before, a + q)
  {
    hide Outcome;
    hide Pends;
    hide Bucket;
    hide From;
    hide SharesHigh;
    var b, c :| q == b + c && Outcome(key, action, From(key, d, s, byte + 1), b) && Pends(key, action, before, [], c);
    OutcomeFrom(key, action, d, s, byte, a, b);
    Associative(a, b, c);
  }

  lemma StackSkip<T(!new)>(key: T -> nat, action: seq<T> -> seq<T>, d: nat, s: seq<T>, buckets: seq<Batched<T>>,
                           lanes: seq<seq<T>>, work: seq<Work<T>>, before: seq<Work<T>>, byte: nat, line: nat,
                           b: Batched<T>)
    requires Stacked(key, action, d, s, buckets, lanes, work, before, byte + 1, line)
    requires Kept(b, line) && Spelled(b) == Spelled(buckets[byte]) + lanes[byte] && b.tail.items == []
    requires lanes[byte] == [] ==> Aligned(b, line)
    ensures Stacked(key, action, d, s, buckets[byte := b], lanes[byte := []], work, before, byte, line)
  {
    hide Weight;
    hide Pends;
    hide Mixed;
    hide From;
    hide Bucket;
    hide SharesHigh;
    hide Outcome;
    TailTells(b, line);
    assert Bucket(key, d, s, byte) == [];
    FromParts(key, d, s, byte);
    OutcomeNothing(key, action);
    forall r | Pends(key, action, work, [], r) ensures Mixed(key, action, From(key, d, s, byte), before, r) {
      PushMixed(key, action, d, s, work, before, byte, [], r);
      assert [] + r == r;
    }
  }

  lemma StackPush<T(!new)>(key: T -> nat, action: seq<T> -> seq<T>, d: nat, s: seq<T>, buckets: seq<Batched<T>>,
                           lanes: seq<seq<T>>, work: seq<Work<T>>, before: seq<Work<T>>, byte: nat, line: nat,
                           b: Batched<T>, entry: Work<T>)
    requires Stacked(key, action, d, s, buckets, lanes, work, before, byte + 1, line)
    requires Kept(b, line) && Aligned(b, line) && Spelled(b) == [] && EntryOk(key, entry, line, [])
    requires Bucket(key, d, s, byte) != []
    requires forall a :: Result(key, action, entry, [], a) ==> Outcome(key, action, Bucket(key, d, s, byte), a)
    requires EntryWeight(entry, []) <= |Bucket(key, d, s, byte)| * (d + 1) + 1
    ensures Stacked(key, action, d, s, buckets[byte := b], lanes[byte := []], work + [entry], before, byte, line)
  {
    hide Weight;
    hide Pends;
    hide Mixed;
    hide From;
    hide Bucket;
    hide SharesHigh;
    hide Outcome;
    hide Result;
    hide EntryWeight;
    hide EntryOk;
    hide Spelled;
    hide Kept;
    hide Aligned;
    FromParts(key, d, s, byte);
    PushEntry(key, action, work, entry, line, []);
    Msb.ChildWeight(|Bucket(key, d, s, byte)|, |From(key, d, s, byte + 1)|, d);
    forall r | Pends(key, action, work + [entry], [], r) ensures Mixed(key, action, From(key, d, s, byte), before, r) {
      var a, q :| r == a + q && Result(key, action, entry, [], a) && Pends(key, action, work, [], q);
      PushMixed(key, action, d, s, work, before, byte, a, q);
    }
  }

  lemma StackedAll<T(!new)>(key: T -> nat, action: seq<T> -> seq<T>, d: nat, s: seq<T>, buckets: seq<Batched<T>>,
                            lanes: seq<seq<T>>, work: seq<Work<T>>, before: seq<Work<T>>, line: nat)
    requires Stacked(key, action, d, s, buckets, lanes, work, before, 0, line)
    ensures |buckets| == 256 && AllAligned(buckets, line) && WorkOk(key, work, line, [])
    ensures forall digit: T -> nat :: Staged(buckets, lanes, digit, [])
    ensures forall r :: Pends(key, action, work, [], r) ==> Mixed(key, action, s, before, r)
    ensures Weight(work, []) <= Weight(before, []) + |s| * (d + 2)
  {
    FromAll(key, d, s);
    forall digit: T -> nat ensures Staged(buckets, lanes, digit, []) {
      NothingStaged(buckets, lanes, digit);
    }
  }

  lemma OneFinished<T(!new)>(key: T -> nat, temp: seq<Buffer<T>>, action: seq<T> -> seq<T>)
    requires |temp| == 1
    ensures Items(temp) == temp[0].items && Outcome(key, action, Items(temp), action(temp[0].items))
  {
    Msb.OneBuffer(temp[0]);
    assert temp == [temp[0]];
    OutcomeWhole(key, action, temp[0].items);
  }

  lemma AtLeastOne(n: nat, d: nat)
    ensures 1 <= n * (d + 1) + 1
  {
  }

  /** The entry made of a bucket stands for a result of the bucket, and weighs enough less. */
  lemma EntryMade<T(!new)>(key: T -> nat, d: nat, s: seq<T>, byte: nat, temp: seq<Buffer<T>>, action: seq<T> -> seq<T>,
                           entry: Work<T>, line: nat)
    requires SharesHigh(key, d + 1, s) && NeverLonger(action) && AllSound(temp, line)
    requires Items(temp) == Bucket(key, d, s, byte)
    requires entry == if |temp| == 1 then Done(Buffer(action(temp[0].items), temp[0].capacity)) else Sort(d, temp)
    ensures EntryOk(key, entry, line, [])
    ensures forall r :: Result(key, action, entry, [], r) ==> Outcome(key, action, Bucket(key, d, s, byte), r)
    ensures EntryWeight(entry, []) <= |Bucket(key, d, s, byte)| * (d + 1) + 1
  {
    hide Bucket;
    hide SharesHigh;
    hide Outcome;
    hide Items;
    hide Multiple;
    hide NeverLonger;
    assert [] + Items(temp) == Items(temp);
    BucketShares(key, d, s, byte);
    if |temp| == 1 {
      OneFinished(key, temp, action);
      ActionFits(action, temp[0].items);
      AtLeastOne(|Items(temp)|, d);
    }
  }

  lemma ActionFits<T(!new)>(action: seq<T> -> seq<T>, s: seq<T>)
    requires NeverLonger(action)
    ensures |action(s)| <= |s|
  {
  }

  class Sorter<T(0,!new)> {
    const buffer: SwcBuffer<T>
    var work: seq<Work<T>>             // a stack of work to do, top last
    var done: Batched<T>               // where sorted data is assembled
    var buckets: seq<Batched<T>>
    var stage: seq<T>                  // where data is staged that no byte is left to split by
    const stash: Stash<T>
    ghost var pushed: seq<T>           // all elements pushed in this session

    ghost function Repr(): set<object> {
      {this, stash, buffer, buffer.counts, buffer.staged}
    }

    ghost predicate Parts()
      reads Repr()
    {
      && buffer.Valid() && stash.Valid() && stash.line == buffer.line
      && (stash as object) != buffer.counts && (stash as object) != buffer.staged
    }

    /** Buffers are in order, and the buckets and lanes hold `held` by byte `d`. */
    ghost predicate Ready(key: T -> nat, d: nat, held: seq<T>)
      reads Repr()
    {
      && Parts() && Kept(done, buffer.line) && AllAligned(buckets, buffer.line)
      && stage == []
      && Staged(buckets, buffer.Lanes(), ByteOn(key, d), held)
    }

    /** Buffers are in order, and the buckets and lanes are empty. */
    ghost predicate Idle()
      reads Repr()
    {
      && Parts() && Kept(done, buffer.line) && AllAligned(buckets, buffer.line)
      && stage == []
      && forall digit: T -> nat :: Staged(buckets, buffer.Lanes(), digit, [])
    }

    /** Between calls: no work is left, and the elements pushed are in buckets by the first byte. */
    ghost predicate Valid(key: T -> nat, bytes: nat)
      reads Repr()
    {
      && bytes >= 1 && (forall x :: key(x) < Pow256(bytes))
      && work == [] && Spelled(done) == []
      && Ready(key, bytes - 1, pushed)
    }

    constructor (line: nat, linesPerPage: nat)
      requires 0 < line < 256 && linesPerPage > 0
      ensures pushed == [] && fresh(Repr())
      ensures forall key: T -> nat, bytes: nat :: bytes >= 1 && (forall x :: key(x) < Pow256(bytes)) ==>
                Valid(key, bytes)
    {
      EmptyKept<T>(line);
      MultipleIs(linesPerPage, line);
      work, done, stage, pushed := [], Empty(), [], [];
      buffer := new SwcBuffer(line);
      stash := new Stash(linesPerPage * line, line);
      buckets := seq(256, c => Empty());
      new;
      forall key, d: nat ensures Staged(buckets, buffer.Lanes(), ByteOn(key, d), []) {
        NothingStaged(buckets, buffer.Lanes(), ByteOn(key, d));
      }
    }

    lemma EverValid()
      requires Idle() && work == [] && Spelled(done) == [] && pushed == []
      ensures forall key: T -> nat, bytes: nat :: bytes >= 1 && (forall x :: key(x) < Pow256(bytes)) ==>
                Valid(key, bytes)
    {
      forall key: T -> nat, d: nat ensures Ready(key, d, []) {
      }
    }

    /** Stages one element, after moving its lane to its bucket if that is full. */
    method Place(x: T, key: T -> nat, d: nat, ghost held: seq<T>)
      requires Ready(key, d, held)
      modifies this`buckets, stash, buffer, buffer.counts, buffer.staged
      ensures Ready(key, d, held + [x])
    {
      hide Kept;
      hide Aligned;
      hide Staged;
      hide SwcBuffer.Lanes;
      StagedSize(buckets, buffer.Lanes(), ByteOn(key, d), held);
      var c := ByteOf(key(x), d);
      if buffer.Full(c) {
        ghost var lanes, before := buffer.Lanes(), buckets;
        var b := buffer.DrainInto(c, buckets[c], stash);
        buckets := buckets[c := b];
        DrainStaged(before, lanes, ByteOn(key, d), held, c, b);
      }
      PushStaged(buckets, buffer.Lanes(), ByteOn(key, d), held, x);
      buffer.Push(x, c);
    }

    /** Places a batch, and keeps its memory. */
    method PlaceBatch(batch: Buffer<T>, key: T -> nat, d: nat, ghost held: seq<T>)
      requires Ready(key, d, held) && |batch.items| <= batch.capacity
      modifies this`buckets, stash, buffer, buffer.counts, buffer.staged
      ensures Ready(key, d, held + batch.items) <==> Sound(batch, buffer.line)
    {
      hide Staged;
      hide Kept;
      hide AllAligned;
      hide SwcBuffer.Lanes;
      assert held + batch.items[..0] == held;
      for k := 0 to |batch.items|
        invariant Ready(key, d, held + batch.items[..k])
      {
        Place(batch.items[k], key, d, held + batch.items[..k]);
        assert held + batch.items[..k + 1] == held + batch.items[..k] + [batch.items[k]];
      }
      assert batch.items[..|batch.items|] == batch.items;
      stash.Give(batch.(items := []));
    }

    method Push(x: T, key: T -> nat, bytes: nat)
      requires Valid(key, bytes)
      modifies Repr()
      ensures Valid(key, bytes) && pushed == old(pushed) + [x]
    {
      hide Staged;
      hide Kept;
      hide AllAligned;
      hide SwcBuffer.Lanes;
      hide SwcBuffer.Valid;
      Place(x, key, bytes - 1, pushed);
      pushed := pushed + [x];
    }

    method PushBatch(batch: Buffer<T>, key: T -> nat, bytes: nat)
      requires Valid(key, bytes) && |batch.items| <= batch.capacity
      modifies Repr()
      ensures (Valid(key, bytes) <==> Sound(batch, buffer.line)) && pushed == old(pushed) + batch.items
    {
      hide Staged;
      hide Kept;
      hide AllAligned;
      hide SwcBuffer.Lanes;
      hide SwcBuffer.Valid;
      PlaceBatch(batch, key, bytes - 1, pushed);
      pushed := pushed + batch.items;
    }

    /** Stacks the nonempty buckets, those of low bytes on top, sorting at once those of one buffer. */
    method StackBuckets(key: T -> nat, d: nat, action: seq<T> -> seq<T>, ghost s: seq<T>)
      requires Ready(key, d, s) && WorkOk(key, work, buffer.line, []) && SharesHigh(key, d + 1, s) &&
               NeverLonger(action)
      modifies this`buckets, this`work, stash, buffer.counts
      ensures Idle()
      ensures WorkOk(key, work, buffer.line, [])
      ensures forall r :: Pends(key, action, work, [], r) ==> Mixed(key, action, s, old(work), r)
      ensures Weight(work, []) <= Weight(old(work), []) + |s| * (d + 2)
    {
      hide Staged;
      hide AllAligned;
      hide WorkOk;
      hide SharesHigh;
      hide Weight;
      hide Pends;
      hide Mixed;
      hide Stacked;
      hide Kept;
      hide Aligned;
      hide Spelled;
      hide SwcBuffer.Lanes;
      hide NeverLonger;
      hide Items;
      hide AllSound;
      ghost var before, lanes := work, buffer.Lanes();
      StackStart(key, action, d, s, buckets, lanes, work, buffer.line);
      var byte := 256;
      while byte > 0
        invariant byte <= 256 && Parts() && lanes == buffer.Lanes()
        invariant Stacked(key, action, d, s, buckets, lanes, work, before, byte, buffer.line)
      {
        byte := byte - 1;
        StackedSize(key, action, d, s, buckets, lanes, work, before, byte, buffer.line);
        var count := buffer.counts[byte];
        var bucket := buffer.DrainInto(byte, buckets[byte], stash);
        StackedBucket(key, action, d, s, buckets, lanes, work, before, byte, buffer.line, bucket);
        if bucket.tail.items != [] {
          var b, temp := Buffers.FinishInto(bucket, [], buffer.line);
          FromNothing(temp, bucket, buffer.line);
          var entry := if |temp| ==
              1 then Done(Buffer(action(temp[0].items), temp[0].capacity)) else Work.Sort(d, temp);
          EntryMade(key, d, s, byte, temp, action, entry, buffer.line);
          StackPush(key, action, d, s, buckets, lanes, work, before, byte, buffer.line, b, entry);
          work := work + [entry];
          buckets := buckets[byte := b];
        } else {
          StackSkip(key, action, d, s, buckets, lanes, work, before, byte, buffer.line, bucket);
          buckets := buckets[byte := bucket];
        }
        lanes := lanes[byte := []];
      }
      StackedAll(key, action, d, s, buckets, lanes, work, before, buffer.line);
    }

    /** Finishes elements that no byte is left to split by. */
    method Finalize(source: seq<Buffer<T>>, ghost key: T -> nat, action: seq<T> -> seq<T>)
      requires Ready(key, 0, []) && AllSound(source, buffer.line)
      modifies this`stage, this`done, stash
      ensures Ready(key, 0, [])
      ensures Spelled(done) == old(Spelled(done)) + action(Items(source))
    {
      hide Staged;
      hide AllAligned;
      hide Kept;
      hide Spelled;
      hide Multiple;
      hide Items;
      hide SwcBuffer.Lanes;
      hide SwcBuffer.Valid;
      Msb.NoItems<T>();
      assert source[..0] == [];
      for i := 0 to |source|
        modifies this`stage, stash
        invariant stash.Valid() && stage == Items(source[..i])
      {
        var batch := source[i];
        assert stage + batch.items[..0] == stage;
        for k := 0 to |batch.items|
          modifies this`stage
          invariant stage == Items(source[..i]) + batch.items[..k]
        {
          assert batch.items[..k + 1] == batch.items[..k] + [batch.items[k]];
          stage := stage + [batch.items[k]];
        }
        assert batch.items[..|batch.items|] == batch.items;
        stash.Give(batch.(items := []));
        assert source[..i + 1] == source[..i] + [batch];
        ItemsLast(source[..i], batch);
      }
      assert source[..|source|] == source;
      stage := action(stage);
      ghost var before := Spelled(done);
      assert before + stage[..0] == before;
      for k := 0 to |stage|
        modifies this`done, stash
        invariant stash.Valid() && Kept(done, stash.line) && stage == action(Items(source))
        invariant Spelled(done) == before + stage[..k]
      {
        assert stage[..k + 1] == stage[..k] + [stage[k]];
        assert before + stage[..k] + [stage[k]] == before + stage[..k + 1];
        done := Buffers.Push(done, stage[k], stash);
      }
      assert stage[..|stage|] == stage;
      stage := [];
    }

    /** Digests a list of buffers: splits it by the next byte if one is left, and finishes it otherwise.
        `held` is what the buckets already hold. */
    method Ingest(source: seq<Buffer<T>>, key: T -> nat, depth: nat, action: seq<T> -> seq<T>, ghost held: seq<T>)
      returns (ghost finished: seq<T>)
      requires Ready(key, if depth > 0 then depth - 1 else 0, held) && (held != [] ==> depth > 0)
      requires AllSound(source, buffer.line) && SharesHigh(key, depth, held + Items(source)) &&
               WorkOk(key, work, buffer.line, [])
      requires NeverLonger(action)
      modifies Repr()
      ensures pushed == old(pushed)
      ensures Idle()
      ensures WorkOk(key, work, buffer.line, [])
      ensures Spelled(done) == old(Spelled(done)) + finished
      ensures forall r :: Pends(key, action, work, [], r) ==>
                Mixed(key, action, held + Items(source), old(work), finished + r)
      ensures Weight(work, []) < Weight(old(work), []) + |held + Items(source)| * (depth + 1) + 1
    {
      hide Staged;
      hide AllAligned;
      hide WorkOk;
      hide SharesHigh;
      hide Weight;
      hide Pends;
      hide Mixed;
      hide Kept;
      hide Spelled;
      hide SwcBuffer.Lanes;
      hide SwcBuffer.Valid;
      hide Items;
      Msb.NoItems<T>();
      assert source[..0] == [] && held + [] == held;
      if depth > 0 {
        for i := 0 to |source|
          modifies this`buckets, stash, buffer, buffer.counts, buffer.staged
          invariant Ready(key, depth - 1, held + Items(source[..i]))
        {
          PlaceBatch(source[i], key, depth - 1, held + Items(source[..i]));
          assert source[..i + 1] == source[..i] + [source[i]];
          ItemsLast(source[..i], source[i]);
          assert held + Items(source[..i]) + source[i].items == held + Items(source[..i + 1]);
        }
        assert source[..|source|] == source;
        StackBuckets(key, depth - 1, action, held + Items(source));
        finished := [];
        assert forall r: seq<T> :: [] + r == r;
      } else {
        assert held + Items(source) == Items(source);
        Finalize(source, key, action);
        EverEmpty(buckets, buffer.Lanes(), ByteOn(key, 0));
        finished := action(Items(source));
        MixedWhole(key, action, Items(source), work);
      }
    }

    /** The stack can be worked off: its top may have to be joined with what the buckets `held`. */
    ghost predicate CanGrind(key: T -> nat, held: seq<T>)
      reads Repr()
    {
      && WorkOk(key, work, buffer.line, held)
      && if held == [] then Idle()
         else
           work != [] && work[|work| - 1].Sort? && work[|work| - 1].depth > 0 &&
           Ready(key, work[|work| - 1].depth - 1, held)
    }

    /** Works off the stack. It ends: every entry taken is replaced by lighter ones. */
    method Grind(key: T -> nat, action: seq<T> -> seq<T>, ghost held: seq<T>)
      requires CanGrind(key, held) && NeverLonger(action) && Spelled(done) == []
      modifies Repr()
      ensures work == [] && pushed == old(pushed)
      ensures Idle()
      ensures Pends(key, action, old(work), held, Spelled(done))
    {
      hide Staged;
      hide AllAligned;
      hide Kept;
      hide WorkOk;
      hide Weight;
      hide Pends;
      hide Mixed;
      hide Continues;
      hide Spelled;
      hide NeverLonger;
      hide SwcBuffer.Lanes;
      hide SwcBuffer.Valid;
      hide Items;
      hide SharesHigh;
      hide Multiple;
      ghost var h := held;
      ContinuesStart(key, action, work, held);
      while work != []
        invariant CanGrind(key, h) && pushed == old(pushed) && (work == [] ==> h == [])
        invariant Continues(key, action, old(work), held, Spelled(done), work, h)
        decreases Weight(work, h)
      {
        ghost var before, prefix := work, Spelled(done);
        var top := work[|work| - 1];
        PopEntry(key, work, buffer.line, h);
        assert Ready(key, if top.Sort? && top.depth > 0 then top.depth - 1 else 0, h);
        work := work[..|work| - 1];
        match top {
          case Done(batch) =>
            EverEmpty(buckets, buffer.Lanes(), ByteOn(key, 0));
            Msb.KeptFits(done, buffer.line);
            done := PushVec(done, batch, stash);
            ContinuesMoved(key, action, old(work), held, prefix, before, batch);
          case Sort(depth, list) =>
            ghost var finished := Ingest(list, key, depth, action, h);
            ContinuesStep(key, action, old(work), held, prefix, before, h, finished, work);
        }
        h := [];
      }
      ContinuesDone(key, action, old(work), held, Spelled(done));
    }

    /** Finishes the session, with `action` to finish groups that need not or cannot be split further. */
    method FinishIntoAnd(target: seq<Buffer<T>>, key: T -> nat, bytes: nat, action: seq<T> -> seq<T>)
      returns (target': seq<Buffer<T>>, ghost result: seq<T>)
      requires Valid(key, bytes) && NeverLonger(action)
      modifies Repr()
      ensures Outcome(key, action, old(pushed), result)
      ensures Items(target') == Items(target) + result &&
              (AllSound(target, buffer.line) ==> AllSound(target', buffer.line))
      ensures pushed == []
      ensures forall key': T -> nat, bytes': nat :: bytes' >= 1 && (forall x :: key'(x) < Pow256(bytes')) ==>
                Valid(key', bytes')
    {
      hide Staged;
      hide AllAligned;
      hide Kept;
      hide NeverLonger;
      hide SharesHigh;
      hide SwcBuffer.Lanes;
      hide SwcBuffer.Valid;
      hide Spelled;
      hide Items;
      hide Multiple;
      hide Weight;
      hide Pends;
      hide Mixed;
      hide Outcome;
      hide WorkOk;
      AllShare(key, bytes, pushed);
      NothingOk(key, buffer.line);
      StackBuckets(key, bytes - 1, action, pushed);
      Grind(key, action, []);
      result := Spelled(done);
      MixedOnly(key, action, old(pushed), result);
      done, target' := Buffers.FinishInto(done, target, buffer.line);
      pushed := [];
      EverValid();
    }

    /** Sorts a list of buffers, together with what has been pushed unless the list is of at most one
        buffer, which is finished by itself. */
    method SortAnd(source: seq<Buffer<T>>, key: T -> nat, bytes: nat, action: seq<T> -> seq<T>)
      returns (sorted: seq<Buffer<T>>)
      requires Valid(key, bytes) && NeverLonger(action) && AllSound(source, buffer.line)
      modifies Repr()
      ensures Valid(key, bytes) && AllSound(sorted, buffer.line)
      ensures Outcome(key, action, (if |source| > 1 then old(pushed) else []) + Items(source), Items(sorted))
      ensures pushed == if |source| > 1 then [] else old(pushed)
    {
      hide Staged;
      hide AllAligned;
      hide Kept;
      hide NeverLonger;
      hide SharesHigh;
      hide Spelled;
      hide Items;
      hide Multiple;
      hide Weight;
      hide Pends;
      hide Mixed;
      hide Outcome;
      hide WorkOk;
      hide SwcBuffer.Lanes;
      hide SwcBuffer.Valid;
      Msb.NoItems<T>();
      if |source| > 1 {
        AllShare(key, bytes, pushed + Items(source));
        ReadyForAny(buckets, buffer.Lanes(), ByteOn(key, bytes - 1), pushed);
        OneEntry(key, action, Work.Sort(bytes, source), buffer.line, pushed);
        work := work + [Work.Sort(bytes, source)];
        assert work == [Work.Sort(bytes, source)];
        Grind(key, action, pushed);
        assert Ready(key, bytes - 1, []);
        ghost var result := Spelled(done);
        done, sorted := Buffers.FinishInto(done, [], buffer.line);
        assert Items(sorted) == result;
        pushed := [];
      } else if |source| == 1 {
        OneFinished(key, source, action);
        assert [] + Items(source) == Items(source);
        ActionFits(action, source[0].items);
        sorted := [Buffer(action(source[0].items), source[0].capacity)];
        Msb.OneBuffer(sorted[0]);
      } else {
        sorted := source;
        OutcomeNothing(key, action);
        assert source == [] && [] + Items(source) == [];
      }
    }

    method FinishInto(target: seq<Buffer<T>>, key: T -> nat, bytes: nat) returns (target': seq<Buffer<T>>)
      requires Valid(key, bytes)
      modifies Repr()
      ensures Items(target') == Items(target) + StableSort(key, old(pushed))
      ensures AllSound(target, buffer.line) ==> AllSound(target', buffer.line)
      ensures pushed == []
      ensures forall key': T -> nat, bytes': nat :: bytes' >= 1 && (forall x :: key'(x) < Pow256(bytes')) ==>
                Valid(key', bytes')
    {
      forall s: seq<T> | |s| <= 1 ensures StableSort(key, s) == s { SortedAlready(key, s); }
      forall s: seq<T> ensures |StableSort(key, s)| == |s| { StableSortIs(key, s); }
      var action := (s: seq<T>) => if |s| > 1 then StableSort(key, s) else s;
      ghost var result;
      target', result := FinishIntoAnd(target, key, bytes, action);
      OutcomeSorted(key, key, action, old(pushed), result);
    }

    method Sort(batches: seq<Buffer<T>>, key: T -> nat, bytes: nat) returns (sorted: seq<Buffer<T>>)
      requires Valid(key, bytes) && AllSound(batches, buffer.line)
      modifies Repr()
      ensures Valid(key, bytes) && AllSound(sorted, buffer.line)
      ensures Items(sorted) == StableSort(key, (if |batches| > 1 then old(pushed) else []) + Items(batches))
      ensures pushed == if |batches| > 1 then [] else old(pushed)
    {
      forall s: seq<T> ensures |StableSort(key, s)| == |s| { StableSortIs(key, s); }
      sorted := SortAnd(batches, key, bytes, s => StableSort(key, s));
      OutcomeSorted(key, key, s => StableSort(key, s), (if |batches| > 1 then old(pushed) else []) + Items(batches),
                    Items(sorted));
    }
  }

  lemma StagedSize<T(!new)>(buckets: seq<Batched<T>>, lanes: seq<seq<T>>, digit: T -> nat, pushed: seq<T>)
    requires Staged(buckets, lanes, digit, pushed)
    ensures |buckets| == 256
  {
  }

  lemma StackedBucket<T(!new)>(key: T -> nat, action: seq<T> -> seq<T>, d: nat, s: seq<T>, buckets: seq<Batched<T>>,
                               lanes: seq<seq<T>>, work: seq<Work<T>>, before: seq<Work<T>>, byte: nat, line: nat,
                               bucket: Batched<T>)
    requires Stacked(key, action, d, s, buckets, lanes, work, before, byte + 1, line)
    requires Kept(bucket, line) && Spelled(bucket) == Spelled(buckets[byte]) + lanes[byte]
    ensures Spelled(bucket) == Bucket(key, d, s, byte) && (bucket.tail.items != [] ==> Bucket(key, d, s, byte) != [])
    ensures SharesHigh(key, d + 1, s)
    ensures bucket.tail.items == [] ==> lanes[byte] == []
  {
    TailTells(bucket, line);
  }

  lemma FromNothing<T>(temp: seq<Buffer<T>>, bucket: Batched<T>, line: nat)
    requires Items(temp) == Items([]) + Spelled(bucket)
    ensures Items(temp) == Spelled(bucket) && AllSound<T>([], line)
  {
    assert Items<T>([]) == [];
  }

  lemma EverEmpty<T(!new)>(buckets: seq<Batched<T>>, lanes: seq<seq<T>>, digit: T -> nat)
    requires Staged(buckets, lanes, digit, [])
    ensures forall digit': T -> nat :: Staged(buckets, lanes, digit', [])
  {
    forall digit': T -> nat ensures Staged(buckets, lanes, digit', []) {
      NothingStaged(buckets, lanes, digit');
    }
  }

  lemma ReadyForAny<T(!new)>(buckets: seq<Batched<T>>, lanes: seq<seq<T>>, digit: T -> nat, held: seq<T>)
    requires Staged(buckets, lanes, digit, held)
    ensures held == [] ==> forall digit': T -> nat :: Staged(buckets, lanes, digit', [])
  {
    if held == [] {
      EverEmpty(buckets, lanes, digit);
    }
  }

  /** What can become of some elements, and of the stack below them. */
  lemma MixedWhole<T(!new)>(key: T -> nat, action: seq<T> -> seq<T>, s: seq<T>, work: seq<Work<T>>)
    ensures forall r :: Pends(key, action, work, [], r) ==> Mixed(key, action, s, work, action(s) + r)
  {
    hide Outcome;
    hide Pends;
    OutcomeWhole(key, action, s);
  }

  lemma MixedNothing<T(!new)>(key: T -> nat, action: seq<T> -> seq<T>, work: seq<Work<T>>)
    ensures forall r :: Pends(key, action, work, [], r) ==> Mixed(key, action, [], work, [] + r)
  {
    hide Outcome;
    hide Pends;
    OutcomeNothing(key, action);
  }

  /** With nothing below, only they count. */
  lemma MixedOnly<T(!new)>(key: T -> nat, action: seq<T> -> seq<T>, s: seq<T>, r: seq<T>)
    requires Mixed(key, action, s, [], r)
    ensures Outcome(key, action, s, r)
  {
    hide Outcome;
    var a, b :| r == a + b && Outcome(key, action, s, a) && Pends(key, action, [], [], b);
    assert a + [] == a;
  }

  /** Whatever becomes of the stack, with `prefix` before it, could have become of the stack at first. */
  ghost predicate Continues<T(!new)>(key: T -> nat, action: seq<T> -> seq<T>, first: seq<Work<T>>, held: seq<T>,
                                     prefix: seq<T>, work: seq<Work<T>>, h: seq<T>) {
    forall r :: Pends(key, action, work, h, r) ==> Pends(key, action, first, held, prefix + r)
  }

  lemma ContinuesStart<T(!new)>(key: T -> nat, action: seq<T> -> seq<T>, work: seq<Work<T>>, held: seq<T>)
    ensures Continues(key, action, work, held, [], work, held)
  {
    hide Pends;
    assert forall r: seq<T> :: [] + r == r;
  }

  lemma PendsTop<T(!new)>(key: T -> nat, action: seq<T> -> seq<T>, work: seq<Work<T>>, held: seq<T>, a: seq<T>,
                          b: seq<T>)
    requires work != [] && Result(key, action, work[|work| - 1], held, a)
    requires Pends(key, action, work[..|work| - 1], [], b)
    ensures Pends(key, action, work, held, a + b)
  {
    hide Result;
  }

  lemma ContinuesMoved<T(!new)>(key: T -> nat, action: seq<T> -> seq<T>, first: seq<Work<T>>, held: seq<T>,
                                prefix: seq<T>, before: seq<Work<T>>, batch: Buffer<T>)
    requires before != [] && before[|before| - 1] == Done(batch)
    requires Continues(key, action, first, held, prefix, before, [])
    ensures Continues(key, action, first, held, prefix + batch.items, before[..|before| - 1], [])
  {
    hide Pends;
    var work := before[..|before| - 1];
    forall r | Pends(key, action, work, [], r) ensures Pends(key, action, first, held, prefix + batch.items + r) {
      PendsTop(key, action, before, [], batch.items, r);
      Associative(prefix, batch.items, r);
    }
  }

  lemma ContinuesStep<T(!new)>(key: T -> nat, action: seq<T> -> seq<T>, first: seq<Work<T>>, held: seq<T>,
                               prefix: seq<T>, before: seq<Work<T>>, h: seq<T>, finished: seq<T>, work: seq<Work<T>>)
    requires Continues(key, action, first, held, prefix, before, h) && before != [] && before[|before| - 1].Sort?
    requires forall r :: Pends(key, action, work, [], r) ==>
               Mixed(key, action, h + Items(before[|before| - 1].list), before[..|before| - 1], finished + r)
    ensures Continues(key, action, first, held, prefix + finished, work, [])
  {
    hide Pends;
    hide Mixed;
    forall r | Pends(key, action, work, [], r) ensures Pends(key, action, first, held, prefix + finished + r) {
      MixedTop(key, action, before, h, finished + r);
      Associative(prefix, finished, r);
    }
  }

  lemma MixedTop<T(!new)>(key: T -> nat, action: seq<T> -> seq<T>, work: seq<Work<T>>, held: seq<T>, r: seq<T>)
    requires work != [] && work[|work| - 1].Sort?
    requires Mixed(key, action, held + Items(work[|work| - 1].list), work[..|work| - 1], r)
    ensures Pends(key, action, work, held, r)
  {
    hide Outcome;
    var s, rest := held + Items(work[|work| - 1].list), work[..|work| - 1];
    var a, b :| r == a + b && Outcome(key, action, s, a) && Pends(key, action, rest, [], b);
    PendsTop(key, action, work, held, a, b);
  }

  lemma ContinuesDone<T(!new)>(key: T -> nat, action: seq<T> -> seq<T>, first: seq<Work<T>>, held: seq<T>,
                               prefix: seq<T>)
    requires Continues(key, action, first, held, prefix, [], [])
    ensures Pends(key, action, first, held, prefix)
  {
    assert Pends<T>(key, action, [], [], []) && prefix + [] == prefix;
  }

  lemma NothingOk<T(!new)>(key: T -> nat, line: nat)
    ensures WorkOk<T>(key, [], line, [])
  {
  }

  lemma OneEntry<T(!new)>(key: T -> nat, action: seq<T> -> seq<T>, entry: Work<T>, line: nat, held: seq<T>)
    requires EntryOk(key, entry, line, held) && entry.Sort?
    ensures WorkOk(key, [] + [entry], line, held)
    ensures forall r :: Pends(key, action, [entry], held, r) ==> Outcome(key, action, held + Items(entry.list), r)
  {
    hide Outcome;
    PushEntry(key, action, [], entry, line, held);
    assert [] + [entry] == [entry];
    assert forall a: seq<T> :: a + [] == a;
  }

  lemma SortedAlready<T(!new)>(key: T -> nat, s: seq<T>)
    requires |s| <= 1
    ensures StableSort(key, s) == s
  {
    if |s| == 1 {
      assert StableSort(key, s[1..]) == [];
    }
  }
}
