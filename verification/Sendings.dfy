/** Messages as they are given to be sent. */
module Sendings {
  import opened Basics
  import opened Frames

  /** A header, and the payload that follows it. */
  datatype Sending = Sending(header: Header, payload: seq<byte>)

  ghost predicate AllSendable(ss: seq<Sending>) {
    forall k :: 0 <= k < |ss| ==> |ss[k].payload| == ss[k].header.length > 0
  }

  /** What is written for each. */
  ghost function Framed(codec: Codec, ss: seq<Sending>): (frames: seq<seq<byte>>)
    ensures |frames| == |ss|
  {
    seq(|ss|, k requires 0 <= k < |ss| => codec.encode(ss[k].header) + ss[k].payload)
  }

  /** The bytes of all of them, and then the end of the stream. */
  ghost function Stream(codec: Codec, ss: seq<Sending>): seq<byte> {
    Flatten(Framed(codec, ss)) + codec.encode(Header(0, 0, 0, 0, 0))
  }

  /** Those for one worker, in order. */
  ghost function To(ss: seq<Sending>, worker: nat): (r: seq<Sending>)
    ensures AllSendable(ss) ==> AllSendable(r)
  {
    if ss == [] then []
    else
      var last := |ss| - 1;
      To(ss[..last], worker) + if ss[last].header.target == worker then [ss[last]] else []
  }

  /** The payloads on one channel, in order. */
  ghost function On(ss: seq<Sending>, c: nat): seq<seq<byte>> {
    if ss == [] then []
    else
      var last := |ss| - 1;
      On(ss[..last], c) + if ss[last].header.channel == c then [ss[last].payload] else []
  }

  lemma {:induction false} OnIn(ss: seq<Sending>, c: nat, k: nat)
    requires k < |ss| && ss[k].header.channel == c
    ensures ss[k].payload in On(ss, c)
  {
    if k < |ss| - 1 {
      OnIn(ss[..|ss| - 1], c, k);
    }
  }

  lemma FramedAll(codec: Codec, ss: seq<Sending>)
    requires LawfulCodec(codec) && AllSendable(ss)
    ensures AllFrames(codec, Framed(codec, ss))
    ensures forall k :: 0 <= k < |ss| ==> HeaderOf(codec, Framed(codec, ss)[k]) == ss[k].header
    ensures forall k :: 0 <= k < |ss| ==> Framed(codec, ss)[k][HEADER_BYTES..] == ss[k].payload
  {
    hide IsFrame;
    hide HeaderOf;
    forall k | 0 <= k < |ss|
      ensures IsFrame(codec, Framed(codec, ss)[k]) && HeaderOf(codec, Framed(codec, ss)[k]) == ss[k].header
      ensures Framed(codec, ss)[k][HEADER_BYTES..] == ss[k].payload
    {
      FrameIs(codec, ss[k].header, ss[k].payload);
    }
  }

  lemma FramedLast(codec: Codec, ss: seq<Sending>, s: Sending)
    ensures Framed(codec, ss + [s]) == Framed(codec, ss) + [codec.encode(s.header) + s.payload]
  {
  }

  /** One more sending appends its header and its payload. */
  lemma FlattenLast(codec: Codec, ss: seq<Sending>, s: Sending)
    ensures Flatten(Framed(codec, ss + [s])) == Flatten(Framed(codec, ss)) + Frame(codec, s.header, s.payload)
  {
    FramedLast(codec, ss, s);
    var one := [codec.encode(s.header) + s.payload];
    FlattenAppend(Framed(codec, ss), one);
    assert one[0] == codec.encode(s.header) + s.payload && one[1..] == [];
  }

  /** The stream of some sendings parses into what was written for them. */
  lemma StreamIs(codec: Codec, ss: seq<Sending>)
    requires LawfulCodec(codec) && AllSendable(ss)
    ensures AllFrames(codec, Framed(codec, ss))
    ensures ParseAll(codec, Stream(codec, ss)) == Parse(Framed(codec, ss), true, [])
  {
    hide ParseAll;
    FramedAll(codec, ss);
    StreamParses(codec, Framed(codec, ss));
  }
}
