/** Slices of received messages, read into a slab and queued for workers: what it takes for them to stay
    as they are while more is read. */
module Receiving {
  import opened Basics
  import opened Timestamps
  import opened StableSorts
  import opened Frames
  import opened SharedBytes
  import opened MergeQueues
  import opened Tcp

  /** The contents of some slices, one by one. */
  ghost function Texts(bs: seq<Bytes>): (ts: seq<seq<byte>>)
    requires AllInRegion(bs)
    reads Regions(bs)
    ensures |ts| == |bs|
  {
    seq(|bs|, j requires 0 <= j < |bs| && AllInRegion(bs) reads Regions(bs) => assert bs[j] in bs; Content(bs[j]))
  }

  ghost predicate AllWholeTexts(codec: Codec, texts: seq<seq<byte>>) {
    forall j :: 0 <= j < |texts| ==> WholeFrames(codec, texts[j])
  }

  /** The messages in some contents, in order. */
  function FramesIn(codec: Codec, texts: seq<seq<byte>>): (frames: seq<seq<byte>>)
    ensures AllFrames(codec, frames)
  {
    if texts == [] then []
    else
      var last := |texts| - 1;
      FramesIn(codec, texts[..last]) + ParseAll(codec, texts[last]).frames
  }

  /** The messages of whole contents one after the other are the messages in their concatenation. */
  lemma {:induction false} FramesInFlatten(codec: Codec, texts: seq<seq<byte>>)
    requires AllWholeTexts(codec, texts)
    ensures WholeFrames(codec, Flatten(texts)) && ParseAll(codec, Flatten(texts)).frames == FramesIn(codec, texts)
    decreases |texts|
  {
    hide ParseAll;
    WholeNone(codec);
    if texts != [] {
      var rest, last := texts[..|texts| - 1], texts[|texts| - 1];
      assert texts == rest + [last];
      FlattenAppend(rest, [last]);
      assert Flatten([last]) == last + Flatten([]) && last + [] == last;
      assert WholeFrames(codec, last);
      FramesInFlatten(codec, rest);
      WholeAppend(codec, Flatten(rest), last);
    }
  }

  lemma {:induction false} SpelledTexts(bs: seq<Bytes>)
    requires AllInRegion(bs)
    ensures Spelled(bs) == Flatten(Texts(bs))
    decreases |bs|
  {
    if bs != [] {
      var rest, last := bs[..|bs| - 1], bs[|bs| - 1];
      assert forall b :: b in rest ==> b in bs;
      SpelledTexts(rest);
      assert Texts(bs) == Texts(rest) + [Content(last)];
      FlattenAppend(Texts(rest), [Content(last)]);
      assert Flatten([Content(last)]) == Content(last) + Flatten([]);
    }
  }

  lemma WholeTexts(codec: Codec, bs: seq<Bytes>)
    requires AllInRegion(bs)
    ensures AllWhole(codec, bs) <==> AllWholeTexts(codec, Texts(bs))
  {
    hide WholeFrames;
    forall j | 0 <= j < |bs| ensures Texts(bs)[j] == Content(bs[j]) {}
    if AllWholeTexts(codec, Texts(bs)) {
      forall j | 0 <= j < |bs| ensures WholeFrames(codec, Content(bs[j])) {
        assert WholeFrames(codec, Texts(bs)[j]);
      }
    }
  }

  ghost predicate DeliveredTo(codec: Codec, texts: seq<seq<byte>>, taken: seq<byte>, frames: seq<seq<byte>>,
                              target: nat)
    requires AllFrames(codec, frames)
  {
    AllWholeTexts(codec, texts) && WholeFrames(codec, taken) &&
    taken + Flatten(texts) == Flatten(FramesTo(codec, frames, target))
  }

  /** Slices lie in their allocations, end before what the slab still writes to, and are not in buffers
      it may reuse. */
  ghost predicate Apart(bs: seq<Bytes>, region: array<byte>, limit: nat, spare: set<array<byte>>) {
    && AllInRegion(bs)
    && (forall b :: b in bs ==> b.region !in spare)
    && (forall b :: b in bs && b.region == region ==> b.offset + b.len <= limit)
  }

  ghost predicate AllApart(qs: seq<seq<Bytes>>, buffer: BytesSlab)
    reads buffer
  {
    forall i :: 0 <= i < |qs| ==> Apart(qs[i], buffer.buffer.region, buffer.buffer.offset, Regions(buffer.stash))
  }

  /** The slices of each queue have these contents. */
  ghost predicate Holding(qs: seq<seq<Bytes>>, texts: seq<seq<seq<byte>>>)
    reads set i, b | 0 <= i < |qs| && b in qs[i] :: b.region
  {
    |qs| == |texts| && forall i :: 0 <= i < |qs| ==> HoldingOne(qs[i], texts[i])
  }

  ghost predicate HoldingOne(bs: seq<Bytes>, texts: seq<seq<byte>>)
    reads Regions(bs)
  {
    AllInRegion(bs) && Texts(bs) == texts
  }

  /** Makes room, leaving queued slices as they are. */
  method MakeRoom(buffer: BytesSlab, held: set<array<byte>>, ghost qs: seq<seq<Bytes>>,
                  ghost texts: seq<seq<seq<byte>>>)
    requires buffer.Valid() && AllApart(qs, buffer) && Holding(qs, texts)
    requires Regions(buffer.stash) !! held && forall i, b :: 0 <= i < |qs| && b in qs[i] ==> b.region in held
    modifies buffer, buffer.Allocations()
    ensures buffer.Valid() && buffer.EmptyLen() >= 1 && buffer.Pending() == old(buffer.Pending())
    ensures AllApart(qs, buffer) && Holding(qs, texts)
    ensures forall r :: r in buffer.Allocations() ==> r in old(buffer.Allocations()) || fresh(r)
    ensures Regions(buffer.stash) !! held && forall r :: r in held ==> r[..] == old(r[..])
    ensures buffer.buffer.region == old(buffer.buffer.region) ==> buffer.buffer.offset == old(buffer.buffer.offset)
    ensures buffer.buffer.region != old(buffer.buffer.region) ==> buffer.buffer.region !in held
  {
    buffer.EnsureCapacity(1, held);
    forall i, j | 0 <= i < |qs| && 0 <= j < |qs[i]| ensures Content(qs[i][j]) == old(Content(qs[i][j])) {
      var b := qs[i][j];
      assert b in qs[i] && b.region[..] == old(b.region[..]);
      assert Content(b) == b.region[..][b.offset..b.offset + b.len];
    }
  }

  /** Reads some bytes into the slab, leaving queued slices as they are. */
  method ReadInto(buffer: BytesSlab, data: seq<byte>, ghost qs: seq<seq<Bytes>>, ghost texts: seq<seq<seq<byte>>>)
    requires buffer.Valid() && AllApart(qs, buffer) && Holding(qs, texts) && |data| <= buffer.EmptyLen()
    modifies buffer`valid, buffer.buffer.region
    ensures buffer.Valid() && buffer.Pending() == old(buffer.Pending()) + data &&
            buffer.Allocations() == old(buffer.Allocations())
    ensures AllApart(qs, buffer) && Holding(qs, texts) && buffer.buffer == old(buffer.buffer)
    ensures buffer.buffer.offset <= buffer.buffer.region.Length
    ensures buffer.buffer.region[..buffer.buffer.offset] == old(buffer.buffer.region[..buffer.buffer.offset])
  {
    ghost var region, limit := buffer.buffer.region, buffer.buffer.offset;
    ghost var prefix := region[..limit];
    forall i, j | 0 <= i < |qs| && 0 <= j < |qs[i]| && qs[i][j].region == region
      ensures texts[i][j] == prefix[qs[i][j].offset..qs[i][j].offset + qs[i][j].len]
    {
      assert qs[i][j] in qs[i];
      ContentWithin(qs[i][j], limit);
    }
    hide BytesSlab.Valid;
    hide BytesSlab.Pending;
    hide BytesSlab.Allocations;
    buffer.Append(data);
    forall i, j | 0 <= i < |qs| && 0 <= j < |qs[i]| ensures Content(qs[i][j]) == texts[i][j] {
      assert qs[i][j] in qs[i];
      if qs[i][j].region == region {
        ContentWithin(qs[i][j], limit);
      }
    }
  }

  /** Joins the staged slices to a queue: both hold whole messages, in order. */
  method HandOne(ghost codec: Codec, target: MergeQueue, staged: seq<Bytes>, ghost taken: seq<byte>,
                 ghost frames: seq<seq<byte>>, ghost more: seq<seq<byte>>, ghost worker: nat, ghost region: array<byte>,
                 ghost limit: nat, ghost spare: set<array<byte>>)
    returns (ghost texts: seq<seq<byte>>)
    requires AllFrames(codec, frames) && AllFrames(codec, more)
    requires Apart(target.queue, region, limit, spare) && DeliveredTo(codec, Texts(target.queue), taken, frames, worker)
    requires Carved(codec, staged, FramesTo(codec, more, worker), region, limit) && region !in spare
    modifies target
    ensures AllFrames(codec, frames + more)
    ensures Apart(target.queue, region, limit, spare) && HoldingOne(target.queue, texts)
    ensures DeliveredTo(codec, texts, taken, frames + more, worker)
  {
    ghost var before := target.queue;
    ghost var ts := Texts(before);
    var ping := target.Extend(codec, staged);
    texts := Texts(target.queue);
    HandedOne(codec, before, ts, staged, target.queue, taken, frames, more, worker, region, limit, spare);
  }

  lemma HandedOne(codec: Codec, before: seq<Bytes>, ts: seq<seq<byte>>, staged: seq<Bytes>, after: seq<Bytes>,
                  taken: seq<byte>, frames: seq<seq<byte>>, more: seq<seq<byte>>, worker: nat, region: array<byte>,
                  limit: nat, spare: set<array<byte>>)
    requires AllFrames(codec, frames) && AllFrames(codec, more)
    requires Apart(before, region, limit, spare) && ts == Texts(before) && DeliveredTo(codec, ts, taken, frames, worker)
    requires Carved(codec, staged, FramesTo(codec, more, worker), region, limit) && region !in spare
    requires Extended(codec, after, before, staged)
    ensures AllFrames(codec, frames + more)
    ensures Apart(after, region, limit, spare) && DeliveredTo(codec, Texts(after), taken, frames + more, worker)
  {
    HandedTexts(codec, before, staged, after, taken, frames, more, worker, region, limit);
    HandedApart(codec, before, staged, after, FramesTo(codec, more, worker), region, limit, spare);
  }

  lemma HandedTexts(codec: Codec, before: seq<Bytes>, staged: seq<Bytes>, after: seq<Bytes>, taken: seq<byte>,
                    frames: seq<seq<byte>>, more: seq<seq<byte>>, worker: nat, region: array<byte>, limit: nat)
    requires AllFrames(codec, frames) && AllFrames(codec, more)
    requires AllInRegion(before) && DeliveredTo(codec, Texts(before), taken, frames, worker)
    requires Carved(codec, staged, FramesTo(codec, more, worker), region, limit)
    requires Extended(codec, after, before, staged)
    ensures AllFrames(codec, frames + more) && DeliveredTo(codec, Texts(after), taken, frames + more, worker)
  {
    hide AllWhole;
    hide AllWholeTexts;
    hide Spelled;
    hide Ends;
    hide Regions;
    hide AllInRegion;
    hide Texts;
    hide FramesTo;
    hide Flatten;
    SpelledTexts(before);
    SpelledTexts(after);
    WholeTexts(codec, before);
    WholeTexts(codec, after);
    FramesToAppend(codec, frames, more, worker);
    FlattenAppend(FramesTo(codec, frames, worker), FramesTo(codec, more, worker));
    Associative(taken, Spelled(before), Spelled(staged));
  }

  lemma HandedApart(codec: Codec, before: seq<Bytes>, staged: seq<Bytes>, after: seq<Bytes>, frames: seq<seq<byte>>,
                    region: array<byte>, limit: nat, spare: set<array<byte>>)
    requires Apart(before, region, limit, spare) && region !in spare
    requires Carved(codec, staged, frames, region, limit) && Extended(codec, after, before, staged)
    ensures Apart(after, region, limit, spare)
  {
    hide AllWhole;
    hide Spelled;
    hide AllInRegion;
    forall b | b in after ensures b.region !in spare && (b.region == region ==> b.offset + b.len <= limit) {
      assert (b.region, b.offset + b.len) in Ends(after);
      if (b.region, b.offset + b.len) in Ends(before) {
        var x :| x in before && (x.region, x.offset + x.len) == (b.region, b.offset + b.len);
      }
    }
  }

  /** A worker's queue: apart from the slab, and spelling its messages after what it has taken. */
  ghost predicate Served(codec: Codec, target: MergeQueue, taken: seq<byte>, frames: seq<seq<byte>>, worker: nat,
                         region: array<byte>, limit: nat, spare: set<array<byte>>)
    requires AllFrames(codec, frames)
    reads target, Regions(target.queue)
  {
    Apart(target.queue, region, limit, spare) && DeliveredTo(codec, Texts(target.queue), taken, frames, worker)
  }

  ghost function QueuedRegions(targets: seq<MergeQueue>): set<object>
    reads targets
  {
    set i, b | 0 <= i < |targets| && b in targets[i].queue :: b.region
  }

  ghost predicate AllServed(codec: Codec, targets: seq<MergeQueue>, taken: seq<seq<byte>>, frames: seq<seq<byte>>,
                            offset: nat, region: array<byte>, limit: nat, spare: set<array<byte>>)
    requires AllFrames(codec, frames)
    reads targets, QueuedRegions(targets)
  {
    |taken| == |targets| && forall i :: 0 <= i < |targets| ==>
        Served(codec, targets[i], taken[i], frames, offset + i, region, limit, spare)
  }

  ghost predicate DistinctQueues(targets: seq<MergeQueue>) {
    forall i, j :: 0 <= i < j < |targets| ==> targets[i] != targets[j]
  }

  /** Queues are different objects, and none of them an allocation. */
  lemma Others(targets: seq<MergeQueue>, stageds: seq<seq<Bytes>>, i: nat)
    requires DistinctQueues(targets) && i < |targets|
    ensures forall j :: 0 <= j < |targets| && j != i ==> targets[j] != targets[i]
    ensures forall j, r :: 0 <= j < |targets| && r in Regions(targets[j].queue) ==> (r as object) != targets[i]
    ensures forall k, b :: 0 <= k < |stageds| && b in stageds[k] ==> (b.region as object) != targets[i]
  {
  }

  /** Hands the staged slices to all workers. */
  method HandOver(ghost codec: Codec, targets: seq<MergeQueue>, stageds: seq<seq<Bytes>>, ghost taken: seq<seq<byte>>,
                  ghost frames: seq<seq<byte>>, ghost more: seq<seq<byte>>, ghost offset: nat,
                  ghost region: array<byte>, ghost limit: nat, ghost spare: set<array<byte>>)
    requires AllFrames(codec, frames) && AllFrames(codec, more) && DistinctQueues(targets)
    requires AllServed(codec, targets, taken, frames, offset, region, limit, spare) && region !in spare
    requires |stageds| == |targets| && AllStaged(codec, stageds, more, offset, region, limit)
    modifies targets
    ensures AllFrames(codec, frames + more)
    ensures AllServed(codec, targets, taken, frames + more, offset, region, limit, spare)
  {
    hide DeliveredTo;
    hide Carved;
    hide Regions;
    hide FramesTo;
    hide IsFrame;
    for i := 0 to |targets|
      invariant AllFrames(codec, frames + more)
      invariant forall j :: 0 <= j < i ==>
                Served(codec, targets[j], taken[j], frames + more, offset + j, region, limit, spare)
      invariant forall j :: i <= j < |targets| ==>
                Served(codec, targets[j], taken[j], frames, offset + j, region, limit, spare)
      invariant AllStaged(codec, stageds, more, offset, region, limit)
    {
      Others(targets, stageds, i);
      assert Carved(codec, stageds[i], FramesTo(codec, more, offset + i), region, limit);
      label before:
      ghost var texts := HandOne(codec, targets[i], stageds[i], taken[i], frames, more, offset + i, region, limit,
                                 spare);
      forall j | 0 <= j < |targets| && j != i
        ensures targets[j].queue == old@before(targets[j].queue)
        ensures AllInRegion(targets[j].queue) ==> Texts(targets[j].queue) == old@before(Texts(targets[j].queue))
      {
      }
    }
  }

  lemma TakenOne(codec: Codec, queue: seq<Bytes>, taken: seq<byte>, frames: seq<seq<byte>>, worker: nat,
                 region: array<byte>, limit: nat, spare: set<array<byte>>)
    requires AllFrames(codec, frames)
    requires Apart(queue, region, limit, spare) && DeliveredTo(codec, Texts(queue), taken, frames, worker)
    ensures Apart([], region, limit, spare)
    ensures DeliveredTo(codec, Texts([]), taken + Flatten(Texts(queue)), frames, worker)
  {
    assert Texts([]) == [] && Flatten<byte>([]) == [];
    FramesInFlatten(codec, Texts(queue));
    WholeAppend(codec, taken, Flatten(Texts(queue)));
  }

  ghost function AllTexts(qs: seq<seq<Bytes>>): (texts: seq<seq<seq<byte>>>)
    requires forall i :: 0 <= i < |qs| ==> AllInRegion(qs[i])
    reads set i, b | 0 <= i < |qs| && b in qs[i] :: b.region
    ensures |texts| == |qs| && forall i :: 0 <= i < |qs| ==> texts[i] == Texts(qs[i])
    decreases |qs|
  {
    if qs == [] then []
    else
      var rest := qs[..|qs| - 1];
      assert forall i :: 0 <= i < |rest| ==> rest[i] == qs[i];
      AllTexts(rest) + [Texts(qs[|qs| - 1])]
  }

  /** The contents of the queues. */
  ghost function Queues(targets: seq<MergeQueue>): (qs: seq<seq<Bytes>>)
    reads targets
  {
    seq(|targets|, i requires 0 <= i < |targets| reads targets => targets[i].queue)
  }

  /** The stream is complete and clean: whole messages for workers that are there, an end, and nothing
      after it. */
  ghost predicate CleanStream(codec: Codec, stream: seq<byte>, offset: nat, workers: nat) {
    var p := ParseAll(codec, stream);
    p.ended && p.rest == [] && InRange(codec, p.frames, offset, workers)
  }

  /** How far reception has got: `frames` were delivered and `pending` bytes are in the slab. */
  ghost predicate Progressed(codec: Codec, consumed: seq<byte>, frames: seq<seq<byte>>, pending: seq<byte>,
                             active: bool, offset: nat, workers: nat) {
    && AllFrames(codec, frames) && InRange(codec, frames, offset, workers)
    && ParseAll(codec, consumed) == Parse(frames, !active, pending)
    && (!active ==> pending == [])
  }

  lemma ProgressStart(codec: Codec, offset: nat, workers: nat)
    ensures Progressed(codec, [], [], [], true, offset, workers)
  {
  }

  lemma InRangeAppend(codec: Codec, a: seq<seq<byte>>, b: seq<seq<byte>>, offset: nat, workers: nat)
    requires AllFrames(codec, a) && AllFrames(codec, b)
    ensures AllFrames(codec, a + b)
    ensures InRange(codec, a + b, offset, workers) <==>
              InRange(codec, a, offset, workers) && InRange(codec, b, offset, workers)
  {
    hide IsFrame;
    hide TryRead;
    if InRange(codec, a + b, offset, workers) {
      forall k | 0 <= k < |a|
        ensures offset <= HeaderOf(codec, a[k]).target < offset + workers { assert (a + b)[k] == a[k]; }
      forall k | 0 <= k < |b|
        ensures offset <= HeaderOf(codec, b[k]).target < offset + workers { assert (a + b)[|a| + k] == b[k]; }
    }
  }

  /** One more read: what it makes of reception. */
  lemma ProgressMore(codec: Codec, consumed: seq<byte>, frames: seq<seq<byte>>, pending: seq<byte>, data: seq<byte>,
                     rest: seq<byte>, outcome: Outcome, left: seq<byte>, offset: nat, workers: nat)
    requires Progressed(codec, consumed, frames, pending, true, offset, workers)
    requires Carving(codec, pending + data, offset, workers, outcome, left)
    ensures outcome == Failed || (outcome == Ended && rest != []) ==>
              !CleanStream(codec, consumed + data + rest, offset, workers)
    ensures outcome == Continue || (outcome == Ended && rest == []) ==>
              Progressed(codec, consumed + data, frames + ParseAll(codec, pending + data).frames, left,
                         outcome == Continue, offset, workers)
  {
    hide ParseAll;
    hide IsFrame;
    hide TryRead;
    var q := ParseAll(codec, pending + data);
    ParseResumes(codec, consumed, data);
    InRangeAppend(codec, frames, q.frames, offset, workers);
    if q.ended {
      ParseEnded(codec, consumed + data, rest);
    } else {
      ParseResumes(codec, consumed + data, rest);
      InRangeAppend(codec, frames + q.frames, ParseAll(codec, q.rest + rest).frames, offset, workers);
    }
  }

  /** A stream that stops without an end is not clean. */
  lemma NotEnded(codec: Codec, consumed: seq<byte>, frames: seq<seq<byte>>, pending: seq<byte>, offset: nat,
                 workers: nat)
    requires Progressed(codec, consumed, frames, pending, true, offset, workers)
    ensures !CleanStream(codec, consumed, offset, workers)
  {
  }
}
