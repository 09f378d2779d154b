/** Queues of slices between threads: a slice that continues the last one in the queue is merged with it,
    so that the queue stays short while what it spells is the same. */
module MergeQueues {
  import opened Basics
  import opened Timestamps
  import opened StableSorts
  import opened Frames
  import opened SharedBytes

  ghost predicate AllInRegion(bs: seq<Bytes>) {
    forall i :: 0 <= i < |bs| ==> InRegion(bs[i])
  }

  /** The bytes of some slices, one after the other. */
  ghost function Spelled(bs: seq<Bytes>): seq<byte>
    requires AllInRegion(bs)
    reads Regions(bs)
  {
    if bs == [] then []
    else
      var last := |bs| - 1;
      assert forall b :: b in bs[..last] ==> b in bs;
      Spelled(bs[..last]) + Content(bs[last])
  }

  /** Every slice holds whole messages. */
  ghost predicate AllWhole(codec: Codec, bs: seq<Bytes>)
    requires AllInRegion(bs)
    reads Regions(bs)
  {
    forall i :: 0 <= i < |bs| ==> WholeFrames(codec, Content(bs[i]))
  }

  /** Where slices end. */
  ghost function Ends(bs: seq<Bytes>): set<(array<byte>, nat)> {
    set b | b in bs :: (b.region, b.offset + b.len)
  }

  lemma EndsLast(bs: seq<Bytes>, b: Bytes)
    ensures Ends(bs + [b]) == Ends(bs) + {(b.region, b.offset + b.len)}
  {
    forall x ensures x in bs + [b] <==> x in bs || x == b {}
  }

  /** A slice at the end of a list: its bytes are the last ones. */
  lemma SpelledLast(codec: Codec, bs: seq<Bytes>, b: Bytes)
    requires AllInRegion(bs) && InRegion(b)
    ensures AllInRegion(bs + [b])
    ensures Spelled(bs + [b]) == Spelled(bs) + Content(b)
    ensures AllWhole(codec, bs + [b]) <==> AllWhole(codec, bs) && WholeFrames(codec, Content(b))
    ensures Ends(bs + [b]) == Ends(bs) + {(b.region, b.offset + b.len)} && Regions(bs + [b]) == Regions(bs) + {b.region}
  {
    assert (bs + [b])[..|bs|] == bs;
    EndsLast(bs, b);
    RegionsLast(bs, b);
    if AllWhole(codec, bs + [b]) {
      forall i | 0 <= i < |bs| ensures WholeFrames(codec, Content(bs[i])) { assert (bs + [b])[i] == bs[i]; }
      assert (bs + [b])[|bs|] == b;
    }
  }

  /** What is true of a list of slices when `more` is added to `bs`, however slices are merged. */
  ghost predicate Extended(codec: Codec, bs': seq<Bytes>, bs: seq<Bytes>, more: seq<Bytes>)
    requires AllInRegion(bs) && AllInRegion(more)
    reads Regions(bs'), Regions(bs), Regions(more)
  {
    && AllInRegion(bs')
    && Spelled(bs') == Spelled(bs) + Spelled(more)
    && (AllWhole(codec, bs) && AllWhole(codec, more) ==> AllWhole(codec, bs'))
    && Ends(bs') <= Ends(bs) + Ends(more) && Regions(bs') <= Regions(bs) + Regions(more)
  }

  /** Adds a slice to a list whose last slice is kept apart. */
  method MergeOne(ghost codec: Codec, queue: seq<Bytes>, tail: Bytes, bytes: Bytes, ghost bs: seq<Bytes>,
                  ghost more: seq<Bytes>)
    returns (queue': seq<Bytes>, tail': Bytes)
    requires AllInRegion(queue) && InRegion(tail) && InRegion(bytes) && AllInRegion(bs) && AllInRegion(more)
    requires Extended(codec, queue + [tail], bs, more)
    ensures AllInRegion(queue') && InRegion(tail') && AllInRegion(more + [bytes])
    ensures Extended(codec, queue' + [tail'], bs, more + [bytes])
  {
    var merged := TryMerge(tail, bytes);
    assert Extended(codec, queue + [tail], bs, more);
    if merged.Some? {
      queue', tail' := queue, merged.value;
      MergedExtended(codec, queue, tail, bytes, merged.value, bs, more);
    } else {
      queue', tail' := queue + [tail], bytes;
      AppendedExtended(codec, queue, tail, bytes, bs, more);
    }
  }

  lemma AppendedExtended(codec: Codec, queue: seq<Bytes>, tail: Bytes, bytes: Bytes, bs: seq<Bytes>, more: seq<Bytes>)
    requires AllInRegion(queue) && InRegion(tail) && InRegion(bytes) && AllInRegion(bs) && AllInRegion(more)
    requires Extended(codec, queue + [tail], bs, more)
    ensures AllInRegion(queue + [tail]) && AllInRegion(more + [bytes]) &&
            Extended(codec, queue + [tail] + [bytes], bs, more + [bytes])
  {
    hide WholeFrames;
    hide AllWhole;
    hide Spelled;
    hide Ends;
    hide Regions;
    hide Content;
    hide AllInRegion;
    hide InRegion;
    SpelledLast(codec, queue, tail);
    SpelledLast(codec, more, bytes);
    SpelledLast(codec, queue + [tail], bytes);
    Associative(Spelled(bs), Spelled(more), Content(bytes));
  }

  lemma MergedExtended(codec: Codec, queue: seq<Bytes>, tail: Bytes, bytes: Bytes, merged: Bytes, bs: seq<Bytes>,
                       more: seq<Bytes>)
    requires AllInRegion(queue) && InRegion(tail) && InRegion(bytes) && AllInRegion(bs) && AllInRegion(more)
    requires Extended(codec, queue + [tail], bs, more)
    requires InRegion(merged) && merged.region == tail.region == bytes.region &&
             Content(merged) == Content(tail) + Content(bytes)
    requires merged.offset + merged.len == bytes.offset + bytes.len
    ensures AllInRegion(queue) && AllInRegion(more + [bytes]) && Extended(codec, queue + [merged], bs, more + [bytes])
  {
    hide WholeFrames;
    hide AllWhole;
    hide Spelled;
    hide Ends;
    hide Regions;
    hide Content;
    hide AllInRegion;
    hide InRegion;
    SpelledLast(codec, queue, tail);
    SpelledLast(codec, more, bytes);
    SpelledLast(codec, queue, merged);
    Associative(Spelled(queue), Content(tail), Content(bytes));
    Associative(Spelled(bs), Spelled(more), Content(bytes));
    if WholeFrames(codec, Content(tail)) {
      WholeAppend(codec, Content(tail), Content(bytes));
    }
  }

  lemma ExtendedNone(codec: Codec, bs: seq<Bytes>)
    requires AllInRegion(bs)
    ensures Extended(codec, bs, bs, [])
  {
  }

  lemma ExtendedFrom(codec: Codec, bs: seq<Bytes>)
    requires AllInRegion(bs)
    ensures Extended(codec, bs, [], bs)
  {
    assert Spelled([]) == [];
  }

  /** Adds slices one by one, each merged with the one before if they adjoin. */
  method MergeAll(ghost codec: Codec, queue: seq<Bytes>, slices: seq<Bytes>) returns (queue': seq<Bytes>)
    requires AllInRegion(queue) && AllInRegion(slices)
    ensures Extended(codec, queue', queue, slices)
  {
    hide AllWhole;
    hide Spelled;
    hide Ends;
    hide Regions;
    hide Extended;
    queue' := queue;
    ExtendedNone(codec, queue);
    if slices != [] {
      var tail: Bytes;
      var rest: seq<Bytes>;
      if queue != [] {
        tail, rest := queue[|queue| - 1], queue[..|queue| - 1];
        assert queue == rest + [tail];
        rest, tail := MergeOne(codec, rest, tail, slices[0], queue, []);
        assert [] + [slices[0]] == slices[..1];
      } else {
        tail, rest := slices[0], [];
        assert [] + [tail] == slices[..1] && queue == [];
        ExtendedFrom(codec, slices[..1]);
      }
      for k := 1 to |slices|
        invariant AllInRegion(rest) && InRegion(tail)
        invariant Extended(codec, rest + [tail], queue, slices[..k])
      {
        rest, tail := MergeOne(codec, rest, tail, slices[k], queue, slices[..k]);
        assert slices[..k + 1] == slices[..k] + [slices[k]];
      }
      assert slices[..|slices|] == slices;
      queue' := rest + [tail];
    }
  }

  /** An unbounded queue of slices, merged where they adjoin. */
  class MergeQueue {
    var queue: seq<Bytes>

    constructor ()
      ensures queue == []
    {
      queue := [];
    }

    /** Adds slices; tells whether to wake the receiver, which is when the queue was empty. */
    method Extend(ghost codec: Codec, slices: seq<Bytes>) returns (shouldPing: bool)
      requires AllInRegion(queue) && AllInRegion(slices)
      modifies this
      ensures Extended(codec, queue, old(queue), slices)
      ensures shouldPing <==> old(queue) == [] && slices != []
    {
      shouldPing := queue == [] && slices != [];
      var merged := MergeAll(codec, queue, slices);
      queue := merged;
    }

    /** Takes everything. */
    method Drain() returns (slices: seq<Bytes>)
      modifies this
      ensures queue == [] && slices == old(queue)
    {
      slices := queue;
      queue := [];
    }
  }
}
