/** Carving messages out of a stream of bytes, and handing them to the workers they are for: slices are
    taken from the front of the slab, one for each complete message. */
module Tcp {
  import opened Basics
  import opened Timestamps
  import opened StableSorts
  import opened Frames
  import opened Sendings
  import opened SharedBytes
  import opened MergeQueues

  /** The messages for worker `target`, in order. */
  function FramesTo(codec: Codec, frames: seq<seq<byte>>, target: nat): (r: seq<seq<byte>>)
    requires AllFrames(codec, frames)
    ensures AllFrames(codec, r)
  {
    if frames == [] then []
    else
      var last := |frames| - 1;
      FramesTo(codec, frames[..last], target) + if HeaderOf(codec, frames[last]).target ==
          target then [frames[last]] else []
  }

  lemma FramesToLast(codec: Codec, frames: seq<seq<byte>>, f: seq<byte>, target: nat)
    requires AllFrames(codec, frames) && IsFrame(codec, f)
    ensures AllFrames(codec, frames + [f])
    ensures FramesTo(codec, frames + [f], target) ==
            FramesTo(codec, frames, target) + if HeaderOf(codec, f).target == target then [f] else []
  {
    assert (frames + [f])[..|frames|] == frames;
  }

  lemma {:induction false} FramesToAppend(codec: Codec, a: seq<seq<byte>>, b: seq<seq<byte>>, target: nat)
    requires AllFrames(codec, a) && AllFrames(codec, b)
    ensures AllFrames(codec, a + b) &&
            FramesTo(codec, a + b, target) == FramesTo(codec, a, target) + FramesTo(codec, b, target)
    decreases |b|
  {
    if b == [] {
      assert a + b == a;
    } else {
      var last := |b| - 1;
      FramesToAppend(codec, a, b[..last], target);
      assert a + b == a + b[..last] + [b[last]];
      FramesToLast(codec, a + b[..last], b[last], target);
    }
  }

  /** All messages are for workers that are there. */
  predicate InRange(codec: Codec, frames: seq<seq<byte>>, offset: nat, workers: nat)
    requires AllFrames(codec, frames)
  {
    forall k :: 0 <= k < |frames| ==> offset <= HeaderOf(codec, frames[k]).target < offset + workers
  }

  /** What is for a worker is what was sent to it. */
  lemma {:induction false} FramedTo(codec: Codec, ss: seq<Sending>, worker: nat)
    requires LawfulCodec(codec) && AllSendable(ss)
    ensures AllFrames(codec, Framed(codec, ss))
    ensures FramesTo(codec, Framed(codec, ss), worker) == Framed(codec, To(ss, worker))
  {
    hide IsFrame;
    hide HeaderOf;
    FramedAll(codec, ss);
    if ss != [] {
      var last := |ss| - 1;
      FramedTo(codec, ss[..last], worker);
      assert Framed(codec, ss)[..last] == Framed(codec, ss[..last]);
      FramedLast(codec, To(ss[..last], worker), ss[last]);
      assert To(ss[..last], worker) + [] == To(ss[..last], worker);
    }
  }

  lemma FramedRange(codec: Codec, ss: seq<Sending>, offset: nat, workers: nat)
    requires LawfulCodec(codec) && AllSendable(ss)
    ensures AllFrames(codec, Framed(codec, ss))
    ensures InRange(codec, Framed(codec, ss), offset, workers) <==>
              forall k :: 0 <= k < |ss| ==> offset <= ss[k].header.target < offset + workers
  {
    hide IsFrame;
    hide HeaderOf;
    FramedAll(codec, ss);
    if InRange(codec, Framed(codec, ss), offset, workers) {
      forall k | 0 <= k < |ss| ensures offset <= ss[k].header.target < offset + workers {
        assert HeaderOf(codec, Framed(codec, ss)[k]).target == ss[k].header.target;
      }
    }
  }

  /** Slices spell the messages, whole, and lie before `limit` in `region` if they are there. */
  ghost predicate Carved(codec: Codec, slices: seq<Bytes>, frames: seq<seq<byte>>, region: array<byte>, limit: nat)
    reads Regions(slices)
  {
    && AllInRegion(slices) && Spelled(slices) == Flatten(frames) && AllWhole(codec, slices)
    && Ends(slices) <= (set e: nat | e <= limit :: (region, e))
  }

  /** `frames` have been carved out of `start`, and `s` is left. */
  ghost predicate CarvedOut(codec: Codec, start: seq<byte>, frames: seq<seq<byte>>, s: seq<byte>) {
    AllFrames(codec, frames) && ParseAll(codec, start) == Resumed(Parse(frames, false, []), ParseAll(codec, s))
  }

  lemma CarveStart(codec: Codec, s: seq<byte>)
    ensures CarvedOut(codec, s, [], s)
  {
    hide ParseAll;
    assert [] + ParseAll(codec, s).frames == ParseAll(codec, s).frames;
  }

  lemma CarveFrame(codec: Codec, start: seq<byte>, frames: seq<seq<byte>>, s: seq<byte>)
    requires CarvedOut(codec, start, frames, s) && TryRead(codec, s).Some? && TryRead(codec, s).value.length > 0
    ensures var n := RequiredBytes(TryRead(codec, s).value);
            IsFrame(codec, s[..n]) && HeaderOf(codec, s[..n]) == TryRead(codec, s).value &&
            CarvedOut(codec, start, frames + [s[..n]], s[n..])
  {
    var n := RequiredBytes(TryRead(codec, s).value);
    ReadAlone(codec, s);
    ParseStep(codec, s);
    hide ParseAll;
    assert frames + ([s[..n]] + ParseAll(codec, s[n..]).frames) == frames + [s[..n]] + ParseAll(codec, s[n..]).frames;
  }

  lemma CarveEnd(codec: Codec, start: seq<byte>, frames: seq<seq<byte>>, s: seq<byte>)
    requires CarvedOut(codec, start, frames, s) && TryRead(codec, s).Some? && TryRead(codec, s).value.length == 0
    ensures ParseAll(codec, start) == Parse(frames, true, s[HEADER_BYTES..])
  {
    ParseEnd(codec, s);
    hide ParseAll;
    assert frames + [] == frames;
  }

  lemma CarveStop(codec: Codec, start: seq<byte>, frames: seq<seq<byte>>, s: seq<byte>)
    requires CarvedOut(codec, start, frames, s) && TryRead(codec, s).None?
    ensures ParseAll(codec, start) == Parse(frames, false, s)
  {
    ParseStop(codec, s);
    hide ParseAll;
    assert frames + [] == frames;
  }

  /** A message for a worker that is not there makes the whole stream fail. */
  lemma OutOfRange(codec: Codec, start: seq<byte>, frames: seq<seq<byte>>, s: seq<byte>, offset: nat, workers: nat)
    requires CarvedOut(codec, start, frames, s) && !InRange(codec, frames, offset, workers)
    ensures !InRange(codec, ParseAll(codec, start).frames, offset, workers)
  {
    hide ParseAll;
    var k :| 0 <= k < |frames| && !(offset <= HeaderOf(codec, frames[k]).target < offset + workers);
    assert ParseAll(codec, start).frames[k] == frames[k];
  }

  lemma CarvedNone(codec: Codec, region: array<byte>, limit: nat)
    ensures Carved(codec, [], [], region, limit)
  {
  }

  lemma CarvedLater(codec: Codec, slices: seq<Bytes>, frames: seq<seq<byte>>, region: array<byte>, limit: nat,
                    later: nat)
    requires Carved(codec, slices, frames, region, limit) && limit <= later
    ensures Carved(codec, slices, frames, region, later)
  {
    hide AllInRegion;
    hide Spelled;
    hide AllWhole;
    hide Ends;
  }

  lemma CarvedMore(codec: Codec, slices: seq<Bytes>, frames: seq<seq<byte>>, region: array<byte>, limit: nat, b: Bytes,
                   f: seq<byte>)
    requires Carved(codec, slices, frames, region, limit) && AllFrames(codec, frames) && IsFrame(codec, f)
    requires InRegion(b) && Content(b) == f && b.region == region && b.offset + b.len <= limit
    ensures Carved(codec, slices + [b], frames + [f], region, limit)
  {
    hide AllInRegion;
    hide Spelled;
    hide AllWhole;
    hide Ends;
    hide IsFrame;
    hide WholeFrames;
    SpelledLast(codec, slices, b);
    FlattenAppend(frames, [f]);
    assert Flatten([f]) == f + Flatten([]);
    WholeOne(codec, f);
  }

  /** The staged slices are those of the messages so far, for every worker. */
  ghost predicate AllStaged(codec: Codec, stageds: seq<seq<Bytes>>, frames: seq<seq<byte>>, offset: nat,
                            region: array<byte>, limit: nat)
    requires AllFrames(codec, frames)
    reads set i, b | 0 <= i < |stageds| && b in stageds[i] :: b.region
  {
    forall i :: 0 <= i < |stageds| ==> Carved(codec, stageds[i], FramesTo(codec, frames, offset + i), region, limit)
  }

  lemma StageOne(codec: Codec, stageds: seq<seq<Bytes>>, frames: seq<seq<byte>>, offset: nat, region: array<byte>,
                 limit: nat, b: Bytes, f: seq<byte>)
    requires AllFrames(codec, frames) && AllStaged(codec, stageds, frames, offset, region, limit) && IsFrame(codec, f)
    requires InRegion(b) && Content(b) == f && b.region == region && limit <= b.offset + b.len
    requires offset <= HeaderOf(codec, f).target < offset + |stageds|
    ensures AllFrames(codec, frames + [f])
    ensures var i := HeaderOf(codec, f).target - offset;
            AllStaged(codec, stageds[i := stageds[i] + [b]], frames + [f], offset, region, b.offset + b.len)
  {
    hide Carved;
    hide IsFrame;
    var at := HeaderOf(codec, f).target - offset;
    var stageds' := stageds[at := stageds[at] + [b]];
    forall i | 0 <= i < |stageds|
      ensures Carved(codec, stageds'[i], FramesTo(codec, frames + [f], offset + i), region, b.offset + b.len)
    {
      FramesToLast(codec, frames, f, offset + i);
      CarvedLater(codec, stageds[i], FramesTo(codec, frames, offset + i), region, limit, b.offset + b.len);
      if i == at {
        CarvedMore(codec, stageds[i], FramesTo(codec, frames, offset + i), region, b.offset + b.len, b, f);
      } else {
        assert FramesTo(codec, frames, offset + i) + [] == FramesTo(codec, frames, offset + i);
      }
    }
  }

  lemma StageNone(codec: Codec, stageds: seq<seq<Bytes>>, offset: nat, region: array<byte>, limit: nat)
    requires forall i :: 0 <= i < |stageds| ==> stageds[i] == []
    ensures AllStaged(codec, stageds, [], offset, region, limit)
  {
    CarvedNone(codec, region, limit);
  }

  lemma StageLater(codec: Codec, stageds: seq<seq<Bytes>>, frames: seq<seq<byte>>, offset: nat, region: array<byte>,
                   limit: nat, later: nat)
    requires AllFrames(codec, frames) && AllStaged(codec, stageds, frames, offset, region, limit) && limit <= later
    ensures AllStaged(codec, stageds, frames, offset, region, later)
  {
    hide Carved;
    forall i | 0 <= i < |stageds|
      ensures Carved(codec, stageds[i], FramesTo(codec, frames, offset + i), region, later) {
      CarvedLater(codec, stageds[i], FramesTo(codec, frames, offset + i), region, limit, later);
    }
  }

  lemma InRangeLast(codec: Codec, frames: seq<seq<byte>>, f: seq<byte>, offset: nat, workers: nat)
    requires AllFrames(codec, frames) && IsFrame(codec, f)
    ensures AllFrames(codec, frames + [f])
    ensures InRange(codec, frames + [f], offset, workers) <==>
            InRange(codec, frames, offset, workers) && offset <= HeaderOf(codec, f).target < offset + workers
  {
    if InRange(codec, frames + [f], offset, workers) {
      forall k | 0 <= k < |frames| ensures offset <= HeaderOf(codec, frames[k]).target < offset + workers {
        assert (frames + [f])[k] == frames[k];
      }
      assert (frames + [f])[|frames|] == f;
    }
  }

  datatype Outcome = Continue | Ended | Failed

  /** What carving the bytes `start` comes to. */
  ghost predicate Carving(codec: Codec, start: seq<byte>, offset: nat, workers: nat, outcome: Outcome,
                          rest: seq<byte>) {
    var p := ParseAll(codec, start);
    && (outcome == Failed <==> !InRange(codec, p.frames, offset, workers) || (p.ended && p.rest != []))
    && (outcome != Failed ==> (outcome == Ended <==> p.ended) && rest == p.rest)
  }

  /** Carves out all complete messages, and stages them by target. */
  method Carve(codec: Codec, buffer: BytesSlab, offset: nat, workers: nat)
    returns (stageds: seq<seq<Bytes>>, outcome: Outcome)
    requires buffer.Valid()
    modifies buffer`buffer, buffer`valid
    ensures buffer.Valid() && buffer.buffer.region == old(buffer.buffer.region) &&
            buffer.Allocations() == old(buffer.Allocations())
    ensures Carving(codec, old(buffer.Pending()), offset, workers, outcome, buffer.Pending())
    ensures |stageds| == workers && old(buffer.buffer.offset) <= buffer.buffer.offset
    ensures outcome != Failed ==>
              AllStaged(codec, stageds, ParseAll(codec, old(buffer.Pending())).frames, offset, buffer.buffer.region,
                        buffer.buffer.offset)
  {
    hide AllStaged;
    hide CarvedOut;
    hide ParseAll;
    hide InRange;
    hide IsFrame;
    hide BytesSlab.Valid;
    hide BytesSlab.Pending;
    hide Content;
    hide InRegion;
    stageds := seq(workers, i => []);
    outcome := Continue;
    ghost var start := buffer.Pending();
    ghost var frames: seq<seq<byte>> := [];
    var s := buffer.ValidBytes();
    CarveStart(codec, s);
    StageNone(codec, stageds, offset, buffer.buffer.region, buffer.buffer.offset);
    NoneInRange(codec, offset, workers);
    var header := TryRead(codec, s);
    while header.Some? && outcome == Continue
      invariant buffer.Valid() && buffer.buffer.region == old(buffer.buffer.region) &&
                old(buffer.buffer.offset) <= buffer.buffer.offset
      invariant AllFrames(codec, frames) && |stageds| == workers
      invariant outcome == Continue ==>
                s == buffer.Pending() && header == TryRead(codec, s) && CarvedOut(codec, start, frames, s)
      invariant outcome == Ended ==> ParseAll(codec, start) == Parse(frames, true, []) && buffer.Pending() == []
      invariant outcome == Failed ==> !InRange(codec, ParseAll(codec, start).frames, offset, workers) ||
                                      (ParseAll(codec, start).ended && ParseAll(codec, start).rest != [])
      invariant outcome != Failed ==> InRange(codec, frames, offset, workers)
      invariant outcome != Failed ==>
                AllStaged(codec, stageds, frames, offset, buffer.buffer.region, buffer.buffer.offset)
      decreases |s|, if outcome == Continue then 1 else 0
    {
      var h := header.value;
      ghost var limit := buffer.buffer.offset;
      Unrelated(stageds, buffer);
      var bytes := buffer.Extract(RequiredBytes(h));
      if h.length > 0 {
        CarveFrame(codec, start, frames, s);
        ghost var f := s[..RequiredBytes(h)];
        InRangeLast(codec, frames, f, offset, workers);
        if offset <= h.target < offset + workers {
          StageOne(codec, stageds, frames, offset, buffer.buffer.region, limit, bytes, f);
          stageds := stageds[h.target - offset := stageds[h.target - offset] + [bytes]];
        } else {
          OutOfRange(codec, start, frames + [f], s[RequiredBytes(h)..], offset, workers);
          outcome := Failed;
        }
        frames := frames + [f];
      } else {
        CarveEnd(codec, start, frames, s);
        StageLater(codec, stageds, frames, offset, buffer.buffer.region, limit, buffer.buffer.offset);
        outcome := if buffer.valid != 0 then Failed else Ended;
      }
      s := buffer.ValidBytes();
      header := TryRead(codec, s);
    }
    if outcome == Continue {
      CarveStop(codec, start, frames, s);
    }
  }

  lemma Unrelated(stageds: seq<seq<Bytes>>, buffer: BytesSlab)
    ensures forall i, b :: 0 <= i < |stageds| && b in stageds[i] ==> (b.region as object) != buffer
  {
  }

  lemma NoneInRange(codec: Codec, offset: nat, workers: nat)
    ensures InRange(codec, [], offset, workers)
  {
  }
}
