/** What a worker does with received slices: peel off the messages, and queue them by channel. */
module Peeling {
  import opened Basics
  import opened Timestamps
  import opened StableSorts
  import opened Frames
  import opened Sendings
  import opened SharedBytes
  import opened MergeQueues
  import opened Receiving
  import Tcp

  /** Payloads waiting for each channel. */
  type Channels = map<nat, seq<Bytes>>

  ghost predicate ChannelsOk(channels: Channels) {
    forall c :: c in channels ==> AllInRegion(channels[c])
  }

  ghost function ChannelRegions(channels: Channels): set<object> {
    set c, b | c in channels && b in channels[c] :: b.region
  }

  /** The payloads waiting for a channel. */
  ghost function Waiting(channels: Channels, c: nat): seq<seq<byte>>
    requires ChannelsOk(channels)
    reads ChannelRegions(channels)
  {
    if c in channels then Texts(channels[c]) else []
  }

  /** A channel that exists, or may still be allocated; identifiers are allocated in order. */
  predicate Open(channels: Channels, bound: Option<nat>, c: nat) {
    c in channels || bound.None? || bound.value < c
  }

  function Payload(codec: Codec, frame: seq<byte>): seq<byte>
    requires IsFrame(codec, frame)
  {
    frame[HEADER_BYTES..]
  }

  /** The payloads for a channel, in order. */
  function PayloadsFor(codec: Codec, frames: seq<seq<byte>>, c: nat): seq<seq<byte>>
    requires AllFrames(codec, frames)
  {
    if frames == [] then []
    else
      var last := |frames| - 1;
      PayloadsFor(codec, frames[..last], c) + if HeaderOf(codec, frames[last]).channel ==
          c then [Payload(codec, frames[last])] else []
  }

  /** The channels of messages, in order. */
  function ChannelsOf(codec: Codec, frames: seq<seq<byte>>): (cs: seq<nat>)
    requires AllFrames(codec, frames)
    ensures |cs| == |frames|
  {
    seq(|frames|, k requires 0 <= k < |frames| && AllFrames(codec, frames) => HeaderOf(codec, frames[k]).channel)
  }

  /** The payloads for a channel are those sent on it. */
  lemma {:induction false} FramedOn(codec: Codec, ss: seq<Sending>, c: nat)
    requires LawfulCodec(codec) && AllSendable(ss)
    ensures AllFrames(codec, Framed(codec, ss)) && PayloadsFor(codec, Framed(codec, ss), c) == On(ss, c)
  {
    hide IsFrame;
    hide HeaderOf;
    FramedAll(codec, ss);
    if ss != [] {
      var last := |ss| - 1;
      FramedOn(codec, ss[..last], c);
      assert Framed(codec, ss)[..last] == Framed(codec, ss[..last]);
    }
  }

  /** The event for each message names the channel it was sent on. */
  lemma FramedChannels(codec: Codec, ss: seq<Sending>)
    requires LawfulCodec(codec) && AllSendable(ss)
    ensures AllFrames(codec, Framed(codec, ss))
    ensures ChannelsOf(codec, Framed(codec, ss)) == seq(|ss|, k requires 0 <= k < |ss| => ss[k].header.channel as nat)
  {
    hide IsFrame;
    hide HeaderOf;
    FramedAll(codec, ss);
  }

  /** `after` is `before` with the messages delivered to their channels; those for closed channels are
      dropped. */
  ghost predicate Peeled(codec: Codec, before: Channels, bound: Option<nat>, frames: seq<seq<byte>>, after: Channels)
    requires AllFrames(codec, frames) && ChannelsOk(before) && ChannelsOk(after)
    reads ChannelRegions(before), ChannelRegions(after)
  {
    && (forall c: nat ::
          Waiting(after, c) ==
              Waiting(before, c) + if Open(before, bound, c) then PayloadsFor(codec, frames, c) else [])
    && (forall c: nat :: Open(after, bound, c) == Open(before, bound, c))
    && (forall c :: c in before ==> c in after)
  }

  /** What becomes of messages sent on channel `c`: their payloads join those waiting for it, in order,
      unless it does not exist and a channel at or above it has been allocated, when they leave none. */
  lemma PeeledMeans(codec: Codec, before: Channels, bound: Option<nat>, ss: seq<Sending>, after: Channels, c: nat)
    requires LawfulCodec(codec) && AllSendable(ss) && ChannelsOk(before) && ChannelsOk(after)
    requires AllFrames(codec, Framed(codec, ss)) && Peeled(codec, before, bound, Framed(codec, ss), after)
    ensures c in before || bound == None || bound.value < c ==> Waiting(after, c) == Waiting(before, c) + On(ss, c)
    ensures c !in before && bound.Some? && c <= bound.value ==> c !in after
    ensures (exists k :: 0 <= k < |ss| && ss[k].header.channel == c) ==>
              (Waiting(after, c) == Waiting(before, c) <==> c !in before && bound.Some? && c <= bound.value)
  {
    hide IsFrame;
    hide Waiting;
    FramedOn(codec, ss, c);
    assert Open(after, bound, c) == Open(before, bound, c);
    if k :| 0 <= k < |ss| && ss[k].header.channel == c {
      OnIn(ss, c, k);
      assert |Waiting(before, c) + On(ss, c)| > |Waiting(before, c)|;
    }
    assert Waiting(before, c) + [] == Waiting(before, c);
  }

  lemma PeeledNone(codec: Codec, channels: Channels, bound: Option<nat>)
    requires ChannelsOk(channels)
    ensures Peeled(codec, channels, bound, [], channels)
  {
    forall c: nat ensures Waiting(channels, c) + (if Open(channels, bound, c) then [] else []) ==
        Waiting(channels, c) {}
  }

  /** The slices queued for a channel. */
  function Got(channels: Channels, c: nat): seq<Bytes> {
    if c in channels then channels[c] else []
  }

  /** A slice that is part of another. */
  predicate Inside(part: Bytes, b: Bytes) {
    part.region == b.region && b.offset <= part.offset && part.offset + part.len <= b.offset + b.len
  }

  /** `after` has what `before` has, and behind it parts of the slices `from`. */
  ghost predicate PartsOf(before: Channels, from: seq<Bytes>, after: Channels) {
    forall c :: Got(before, c) <= Got(after, c) && forall k :: |Got(before, c)| <= k < |Got(after, c)| ==>
        IsPart(Got(after, c)[k], from)
  }

  ghost predicate IsPart(part: Bytes, from: seq<Bytes>) {
    exists b :: b in from && Inside(part, b)
  }

  lemma PartsTrans(a: Channels, from: seq<Bytes>, b: Channels, more: seq<Bytes>, c: Channels)
    requires PartsOf(a, from, b) && PartsOf(b, more, c) && forall x :: x in more ==> x in from
    ensures PartsOf(a, from, c)
  {
    forall e, k | |Got(a, e)| <= k < |Got(c, e)| ensures IsPart(Got(c, e)[k], from) {
      if k < |Got(b, e)| {
        assert Got(c, e)[k] == Got(b, e)[k];
      } else {
        assert IsPart(Got(c, e)[k], more);
        var x :| x in more && Inside(Got(c, e)[k], x);
      }
    }
  }

  lemma PartsNone(channels: Channels, from: seq<Bytes>)
    ensures PartsOf(channels, from, channels)
  {
  }

  lemma PartsMore(before: Channels, slice: Bytes, channels: Channels, c: nat, payload: Bytes)
    requires PartsOf(before, [slice], channels) && Inside(payload, slice)
    ensures PartsOf(before, [slice], Queued(channels, c, payload))
  {
    var after := Queued(channels, c, payload);
    forall e ensures Got(after, e) == Got(channels, e) + if e == c then [payload] else [] {}
    forall e, k | |Got(before, e)| <= k < |Got(after, e)| ensures IsPart(Got(after, e)[k], [slice]) {
      if k < |Got(channels, e)| {
        assert Got(after, e)[k] == Got(channels, e)[k];
      } else {
        assert slice in [slice];
      }
    }
  }

  /** A payload at the end of a channel's queue. */
  function Queued(channels: Channels, c: nat, payload: Bytes): Channels {
    channels[c := (if c in channels then channels[c] else []) + [payload]]
  }

  lemma WaitingMore(channels: Channels, c: nat, payload: Bytes, e: nat)
    requires ChannelsOk(channels) && InRegion(payload)
    ensures ChannelsOk(Queued(channels, c, payload))
    ensures Waiting(Queued(channels, c, payload), e) == Waiting(channels, e) + if e == c then [Content(payload)] else []
  {
    var after := Queued(channels, c, payload);
    forall x | x in after ensures AllInRegion(after[x]) {
      assert x == c || x in channels;
    }
    if e == c {
      var bs := if c in channels then channels[c] else [];
      assert after[c] == bs + [payload];
      assert Texts(bs + [payload]) == Texts(bs) + [Content(payload)];
    } else {
      assert Waiting(channels, e) + [] == Waiting(channels, e);
    }
  }

  /** One more message. */
  lemma PeelOne(codec: Codec, before: Channels, bound: Option<nat>, frames: seq<seq<byte>>, channels: Channels,
                f: seq<byte>, payload: Bytes)
    requires AllFrames(codec, frames) && IsFrame(codec, f) && ChannelsOk(before) && ChannelsOk(channels)
    requires Peeled(codec, before, bound, frames, channels) && InRegion(payload) &&
             Content(payload) == Payload(codec, f)
    ensures AllFrames(codec, frames + [f])
    ensures var c := HeaderOf(codec, f).channel;
            var after := if Open(channels, bound, c) then Queued(channels, c, payload) else channels;
            ChannelsOk(after) && Peeled(codec, before, bound, frames + [f], after)
  {
    hide IsFrame;
    hide Waiting;
    hide ChannelsOk;
    hide Texts;
    hide InRegion;
    hide Content;
    var c := HeaderOf(codec, f).channel;
    var after := if Open(channels, bound, c) then Queued(channels, c, payload) else channels;
    assert (frames + [f])[..|frames|] == frames;
    forall e: nat
      ensures ChannelsOk(Queued(channels, c, payload))
      ensures Waiting(after, e) ==
                Waiting(before, e) + if Open(before, bound, e) then PayloadsFor(codec, frames + [f], e) else []
    {
      WaitingMore(channels, c, payload, e);
      Associative(Waiting(before, e), if Open(before, bound, e) then PayloadsFor(codec, frames, e) else [],
                  if e == c then [Content(payload)] else []);
      assert PayloadsFor(codec, frames, e) + [] == PayloadsFor(codec, frames, e);
    }
  }

  lemma ChannelsAllocated(channels: Channels)
    ensures forall o :: o in ChannelRegions(channels) ==> allocated(o)
  {
  }

  /** Peels the messages of one slice, which holds whole ones. */
  method PeelSlice(codec: Codec, slice: Bytes, channels: Channels, bound: Option<nat>, events: seq<nat>)
    returns (channels': Channels, events': seq<nat>)
    requires InRegion(slice) && WholeFrames(codec, Content(slice)) && ChannelsOk(channels)
    ensures ChannelsOk(channels') && Peeled(codec, channels, bound, ParseAll(codec, Content(slice)).frames, channels')
    ensures events' == events + ChannelsOf(codec, ParseAll(codec, Content(slice)).frames)
    ensures PartsOf(channels, [slice], channels')
  {
    hide IsFrame;
    hide Peeled;
    hide ParseAll;
    hide ChannelsOk;
    hide PartsOf;
    PartsNone(channels, [slice]);
    channels', events' := channels, events;
    var bytes := slice;
    ghost var frames: seq<seq<byte>> := [];
    PeeledNone(codec, channels, bound);
    Tcp.CarveStart(codec, Content(bytes));
    while bytes.len > 0
      invariant InRegion(bytes) && WholeFrames(codec, Content(bytes)) && ChannelsOk(channels')
      invariant Tcp.CarvedOut(codec, Content(slice), frames, Content(bytes))
      invariant Peeled(codec, channels, bound, frames, channels')
      invariant events' == events + ChannelsOf(codec, frames)
      invariant PartsOf(channels, [slice], channels') && Inside(bytes, slice)
      decreases bytes.len
    {
      ghost var s := Content(bytes);
      WholeReads(codec, s);
      var header := TryRead(codec, Read(bytes)).value;
      Tcp.CarveFrame(codec, Content(slice), frames, s);
      ChannelsAllocated(channels);
      ChannelsAllocated(channels');
      var peel;
      peel, bytes := ExtractTo(bytes, RequiredBytes(header));
      ghost var f := s[..RequiredBytes(header)];
      assert Content(peel) == f && Content(bytes) == s[RequiredBytes(header)..];
      var front, payload := ExtractTo(peel, HEADER_BYTES);
      assert Content(payload) == f[HEADER_BYTES..];
      PeelOne(codec, channels, bound, frames, channels', f, payload);
      PartsMore(channels, slice, channels', header.channel, payload);
      events' := events' + [header.channel];
      if header.channel in channels' {
        channels' := channels'[header.channel := channels'[header.channel] + [payload]];
      } else if bound.None? || bound.value < header.channel {
        channels' := channels'[header.channel := [] + [payload]];
      }
      assert ChannelsOf(codec, frames + [f]) == ChannelsOf(codec, frames) + [header.channel];
      frames := frames + [f];
    }
    Tcp.CarveStop(codec, Content(slice), frames, Content(bytes));
  }

  function Read(b: Bytes): seq<byte>
    requires InRegion(b)
    reads b.region
    ensures Read(b) == Content(b)
  {
    b.region[b.offset..b.offset + b.len]
  }

  /** Whole messages that are not exhausted begin with a message: reading never gets stuck. */
  lemma WholeReads(codec: Codec, s: seq<byte>)
    requires WholeFrames(codec, s) && s != []
    ensures TryRead(codec, s).Some? && TryRead(codec, s).value.length > 0
    ensures WholeFrames(codec, s[RequiredBytes(TryRead(codec, s).value)..])
  {
  }

  /** Delivering some messages and then others. */
  lemma PeeledTrans(codec: Codec, a: Channels, bound: Option<nat>, one: seq<seq<byte>>, b: Channels,
                    two: seq<seq<byte>>, c: Channels)
    requires AllFrames(codec, one) && AllFrames(codec, two) && ChannelsOk(a) && ChannelsOk(b) && ChannelsOk(c)
    requires Peeled(codec, a, bound, one, b) && Peeled(codec, b, bound, two, c)
    ensures AllFrames(codec, one + two) && Peeled(codec, a, bound, one + two, c)
  {
    hide Waiting;
    hide IsFrame;
    forall e: nat
      ensures Waiting(c, e) == Waiting(a, e) + if Open(a, bound, e) then PayloadsFor(codec, one + two, e) else []
    {
      PayloadsAppend(codec, one, two, e);
      Associative(Waiting(a, e), PayloadsFor(codec, one, e), PayloadsFor(codec, two, e));
      assert Waiting(a, e) + [] == Waiting(a, e);
    }
  }

  lemma {:induction false} PayloadsAppend(codec: Codec, a: seq<seq<byte>>, b: seq<seq<byte>>, c: nat)
    requires AllFrames(codec, a) && AllFrames(codec, b)
    ensures AllFrames(codec, a + b) &&
            PayloadsFor(codec, a + b, c) == PayloadsFor(codec, a, c) + PayloadsFor(codec, b, c)
    decreases |b|
  {
    if b == [] {
      assert a + b == a;
    } else {
      var last := |b| - 1;
      PayloadsAppend(codec, a, b[..last], c);
      assert (a + b)[..|a| + last] == a + b[..last];
    }
  }

  lemma SlicesAllocated(bs: seq<Bytes>)
    ensures forall r :: r in Regions(bs) ==> allocated(r)
  {
  }

  /** Peels all slices. */
  method PeelAll(codec: Codec, staged: seq<Bytes>, channels: Channels, bound: Option<nat>, events: seq<nat>)
    returns (channels': Channels, events': seq<nat>)
    requires AllInRegion(staged) && AllWholeTexts(codec, Texts(staged)) && ChannelsOk(channels)
    ensures ChannelsOk(channels') && Peeled(codec, channels, bound, FramesIn(codec, Texts(staged)), channels')
    ensures events' == events + ChannelsOf(codec, FramesIn(codec, Texts(staged)))
    ensures PartsOf(channels, staged, channels')
  {
    hide InRegion;
    hide PartsOf;
    PartsNone(channels, staged);
    hide Peeled;
    hide IsFrame;
    hide ParseAll;
    hide WholeFrames;
    channels', events' := channels, events;
    ghost var texts := Texts(staged);
    SlicesAllocated(staged);
    PeeledNone(codec, channels, bound);
    assert texts[..0] == [];
    for k := 0 to |staged|
      invariant ChannelsOk(channels') && Peeled(codec, channels, bound, FramesIn(codec, texts[..k]), channels')
      invariant events' == events + ChannelsOf(codec, FramesIn(codec, texts[..k]))
      invariant Texts(staged) == texts && PartsOf(channels, staged, channels')
    {
      ghost var before := channels';
      ghost var one, two := FramesIn(codec, texts[..k]), ParseAll(codec, texts[k]).frames;
      ChannelsAllocated(channels);
      ChannelsAllocated(channels');
      channels', events' := PeelSlice(codec, staged[k], channels', bound, events');
      PartsTrans(channels, staged, before, [staged[k]], channels');
      PeeledTrans(codec, channels, bound, one, before, two, channels');
      assert texts[..k + 1][..k] == texts[..k];
      assert ChannelsOf(codec, one + two) == ChannelsOf(codec, one) + ChannelsOf(codec, two);
    }
    assert texts[..|texts|] == texts;
  }

  /** Takes everything from the queues, in order. */
  method DrainAll(recvs: seq<MergeQueue>) returns (staged: seq<Bytes>)
    requires DistinctQueues(recvs)
    modifies recvs
    ensures staged == old(InQueues(recvs, |recvs|))
    ensures forall i :: 0 <= i < |recvs| ==> recvs[i].queue == []
  {
    staged := [];
    for i := 0 to |recvs|
      invariant staged == old(InQueues(recvs, i))
      invariant forall j :: 0 <= j < i ==> recvs[j].queue == []
      invariant forall j :: i <= j < |recvs| ==> recvs[j].queue == old(recvs[j].queue)
    {
      var drained := recvs[i].Drain();
      staged := staged + drained;
    }
  }

  class TcpAllocator {
    const recvs: seq<MergeQueue>              // what other processes sent
    var toLocal: Channels                     // payloads for the pullers of this worker
    var channelIdBound: Option<nat>           // the last channel allocated
    var canaries: seq<nat>                    // channels whose pullers have been dropped
    var events: seq<nat>                      // a channel for each message pushed

    constructor (recvs: seq<MergeQueue>)
      ensures this.recvs == recvs && toLocal == map[] && channelIdBound == None && canaries == events == []
    {
      this.recvs := recvs;
      toLocal, channelIdBound, canaries, events := map[], None, [], [];
    }

    /** Allocates a channel; identifiers must rise. */
    method AllocateChannel(identifier: nat)
      requires channelIdBound.Some? ==> channelIdBound.value < identifier
      modifies this`channelIdBound, this`toLocal
      ensures channelIdBound == Some(identifier)
      ensures toLocal == if identifier in old(toLocal) then old(toLocal) else old(toLocal)[identifier := []]
    {
      channelIdBound := Some(identifier);
      if identifier !in toLocal {
        toLocal := toLocal[identifier := []];
      }
    }

    /** Forgets dropped channels, and takes in all that has been received. Every message that is not for
        a dropped channel reaches its channel, once and in order; the others leave no trace but the event. */
    method Receive(codec: Codec)
      requires DistinctQueues(recvs) && ChannelsOk(toLocal)
      requires forall i :: 0 <= i < |recvs| ==> AllInRegion(recvs[i].queue) && AllWhole(codec, recvs[i].queue)
      modifies this, recvs
      ensures ChannelsOk(toLocal) && channelIdBound == old(channelIdBound) && canaries == []
      ensures forall i :: 0 <= i < |recvs| ==> recvs[i].queue == []
      ensures AllInRegion(old(InQueues(recvs, |recvs|)))
      ensures var frames := FramesIn(codec, Texts(old(InQueues(recvs, |recvs|))));
              && Peeled(codec, old(Kept(toLocal, canaries)), channelIdBound, frames, toLocal)
              && events == old(events) + ChannelsOf(codec, frames)
      ensures forall c :: c in old(toLocal) && c !in old(canaries) ==> c in toLocal
      ensures forall c :: c in old(canaries) && channelIdBound.Some? && c <= channelIdBound.value ==> c !in toLocal
    {
      KeptExactly(toLocal, canaries);
      hide Peeled;
      hide Texts;
      hide AllWhole;
      hide FramesIn;
      ghost var all := InQueues(recvs, |recvs|);
      QueuedOk(codec, recvs, |recvs|);
      KeptOk(toLocal, canaries);
      toLocal := Kept(toLocal, canaries);
      ghost var kept, texts := toLocal, Texts(all);
      PeeledNone(codec, kept, channelIdBound);
      SlicesAllocated(all);
      ChannelsAllocated(kept);
      canaries := [];
      var staged := DrainAll(recvs);
      assert Texts(staged) == texts && ChannelsOk(toLocal) && Peeled(codec, kept, channelIdBound, [], toLocal);
      WholeTexts(codec, staged);
      var channels, pushed := PeelAll(codec, staged, toLocal, channelIdBound, events);
      NotThis(kept);
      NotThis(channels);
      PeeledKeys(codec, kept, channelIdBound, FramesIn(codec, texts), channels);
      toLocal, events := channels, pushed;
    }

    lemma NotThis(channels: Channels)
      ensures forall o :: o in ChannelRegions(channels) ==> o != this
    {
    }
  }

  /** Messages for a channel that is yet to be allocated, by a worker that has allocated others before, are
      there for it when it is. */
  method EarlyArrives(codec: Codec, allocator: TcpAllocator, ghost ss: seq<Sending>, c: nat)
    requires DistinctQueues(allocator.recvs) && ChannelsOk(allocator.toLocal)
    requires forall i :: 0 <= i < |allocator.recvs| ==>
               AllInRegion(allocator.recvs[i].queue) && AllWhole(codec, allocator.recvs[i].queue)
    requires AllInRegion(InQueues(allocator.recvs, |allocator.recvs|)) && LawfulCodec(codec) && AllSendable(ss)
    requires FramesIn(codec, Texts(InQueues(allocator.recvs, |allocator.recvs|))) == Framed(codec, ss)
    requires c !in allocator.toLocal && (allocator.channelIdBound.Some? ==> allocator.channelIdBound.value < c)
    modifies allocator, allocator.recvs
    ensures allocator.channelIdBound == Some(c) && c in allocator.toLocal && ChannelsOk(allocator.toLocal)
    ensures Waiting(allocator.toLocal, c) == On(ss, c)
  {
    hide *;
    ghost var kept, bound := Kept(allocator.toLocal, allocator.canaries), allocator.channelIdBound;
    ghost var all := InQueues(allocator.recvs, |allocator.recvs|);
    ghost var texts := Texts(all);
    SlicesAllocated(all);
    NotQueues(all, allocator);
    KeptOk(allocator.toLocal, allocator.canaries);
    KeptExactly(allocator.toLocal, allocator.canaries);
    FramedAll(codec, ss);
    allocator.Receive(codec);
    ghost var after := allocator.toLocal;
    assert Texts(all) == texts;
    PeeledMeans(codec, kept, bound, ss, after, c);
    NoneWaiting(kept, c);
    assert [] + On(ss, c) == On(ss, c);
    ChannelsAllocated(after);
    allocator.NotThis(after);
    allocator.AllocateChannel(c);
    assert Waiting(after, c) == On(ss, c);
    AllocatedWaits(after, c, allocator.toLocal);
  }

  lemma NoneWaiting(channels: Channels, c: nat)
    requires ChannelsOk(channels) && c !in channels
    ensures Waiting(channels, c) == []
  {
  }

  lemma NotQueues(bs: seq<Bytes>, allocator: TcpAllocator)
    ensures forall o :: o in Regions(bs) ==> (o as object) != allocator && (o as object) !in allocator.recvs
  {
  }

  lemma AllocatedWaits(before: Channels, c: nat, after: Channels)
    requires ChannelsOk(before) && after == if c in before then before else before[c := []]
    ensures ChannelsOk(after) && Waiting(after, c) == Waiting(before, c)
  {
  }

  function Kept(channels: Channels, dropped: seq<nat>): Channels {
    channels - (set c | c in dropped)
  }

  /** Exactly the channels not dropped are kept, as they are. */
  lemma KeptExactly(channels: Channels, dropped: seq<nat>)
    ensures forall c :: c in Kept(channels, dropped) <==> c in channels && c !in dropped
    ensures forall c :: c in Kept(channels, dropped) ==> Kept(channels, dropped)[c] == channels[c]
  {
  }

  lemma PeeledKeys(codec: Codec, before: Channels, bound: Option<nat>, frames: seq<seq<byte>>, after: Channels)
    requires AllFrames(codec, frames) && ChannelsOk(before) && ChannelsOk(after)
    requires Peeled(codec, before, bound, frames, after)
    ensures forall c :: c in before ==> c in after
    ensures forall c :: c !in before && bound.Some? && c <= bound.value ==> c !in after
  {
    hide PayloadsFor;
    hide Waiting;
    forall c: nat | c !in before && bound.Some? && c <= bound.value ensures c !in after {
      assert Open(after, bound, c) == Open(before, bound, c);
    }
  }

  lemma KeptOk(channels: Channels, dropped: seq<nat>)
    requires ChannelsOk(channels)
    ensures ChannelsOk(Kept(channels, dropped))
  {
  }

  /** All slices in the first `n` queues. */
  ghost function InQueues(recvs: seq<MergeQueue>, n: nat): seq<Bytes>
    requires n <= |recvs|
    reads recvs
  {
    if n == 0 then [] else InQueues(recvs, n - 1) + recvs[n - 1].queue
  }

  lemma {:induction false} QueuedOk(codec: Codec, recvs: seq<MergeQueue>, n: nat)
    requires n <= |recvs| && forall i :: 0 <= i < |recvs| ==>
              AllInRegion(recvs[i].queue) && AllWhole(codec, recvs[i].queue)
    ensures AllInRegion(InQueues(recvs, n)) && AllWhole(codec, InQueues(recvs, n))
  {
    hide WholeFrames;
    if n > 0 {
      QueuedOk(codec, recvs, n - 1);
      var a, b := InQueues(recvs, n - 1), recvs[n - 1].queue;
      forall i | 0 <= i < |a + b| ensures InRegion((a + b)[i]) && WholeFrames(codec, Content((a + b)[i])) {
        assert (a + b)[i] == if i < |a| then a[i] else b[i - |a|];
      }
    }
  }
}
