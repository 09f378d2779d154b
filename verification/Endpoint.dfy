/** Sending messages: written into a slab, and queued as slices of whole messages. */
module Endpoints {
  import opened Basics
  import opened Timestamps
  import opened StableSorts
  import opened Frames
  import opened Sendings
  import opened SharedBytes
  import opened MergeQueues
  import opened Receiving
  import opened Tcp
  import opened Peeling
  import opened Reception

  /** Queued slices hold whole messages, apart from what will be written. */
  ghost predicate SendOk(codec: Codec, queue: seq<Bytes>, region: array<byte>, limit: nat, spare: set<array<byte>>)
    reads Regions(queue)
  {
    Apart(queue, region, limit, spare) && AllWholeTexts(codec, Texts(queue))
  }

  /** The bytes queued. */
  ghost function Sent(queue: seq<Bytes>): seq<byte>
    reads Regions(queue)
  {
    if AllInRegion(queue) then Spelled(queue) else []
  }

  /** Queues one slice. */
  method QueueSlice(ghost codec: Codec, send: MergeQueue, bytes: Bytes, ghost region: array<byte>, ghost limit: nat,
                    ghost spare: set<array<byte>>)
    requires SendOk(codec, send.queue, region, limit, spare)
    requires InRegion(bytes) && bytes.region == region && bytes.offset + bytes.len <= limit && region !in spare
    requires WholeFrames(codec, Content(bytes))
    modifies send
    ensures SendOk(codec, send.queue, region, limit, spare)
    ensures Sent(send.queue) == old(Sent(send.queue)) + Content(bytes)
  {
    hide WholeFrames;
    ghost var before := send.queue;
    WholeTexts(codec, before);
    OneSlice(codec, bytes, Content(bytes));
    var ping := send.Extend(codec, [bytes]);
    WholeTexts(codec, send.queue);
    ApartSent(codec, before, bytes, send.queue, region, limit, spare);
  }

  /** Stages what is sent to a queue. */
  class SendEndpoint {
    const send: MergeQueue
    const buffer: BytesSlab

    /** All that was written is queued, as whole messages, apart from what will be written. */
    ghost predicate Valid(codec: Codec)
      reads this, send, buffer, Regions(send.queue)
    {
      && buffer.Valid() && buffer.valid == 0
      && SendOk(codec, send.queue, buffer.buffer.region, buffer.buffer.offset, Regions(buffer.stash))
    }

    constructor (queue: MergeQueue, shift: nat)
      requires queue.queue == []
      ensures this.send == queue && fresh(buffer) && (forall codec :: Valid(codec))
      ensures forall r :: r in buffer.Allocations() ==> fresh(r)
    {
      send := queue;
      buffer := new BytesSlab(shift);
    }

    lemma AllQueued(codec: Codec)
      requires Valid(codec)
      ensures AllInRegion(send.queue)
    {
    }

    /** Moves what is valid in the buffer to the queue. */
    method SendBuffer(ghost codec: Codec)
      requires buffer.Valid() && WholeFrames(codec, buffer.Pending())
      requires SendOk(codec, send.queue, buffer.buffer.region, buffer.buffer.offset, Regions(buffer.stash))
      modifies send, buffer`buffer, buffer`valid
      ensures Valid(codec) && buffer.Allocations() == old(buffer.Allocations())
      ensures buffer.buffer.region == old(buffer.buffer.region) &&
              buffer.buffer.offset == old(buffer.buffer.offset + buffer.valid)
      ensures Sent(send.queue) == old(Sent(send.queue) + buffer.Pending())
    {
      hide WholeFrames;
      hide AllWholeTexts;
      hide Texts;
      hide Spelled;
      var validLen := buffer.valid;
      ghost var before, pending := send.queue, buffer.Pending();
      SlicesAllocated(before);
      NoSlab(before, buffer);
      if validLen > 0 {
        var bytes := buffer.Extract(validLen);
        assert pending[..validLen] == pending && pending[validLen..] == [];
        QueueSlice(codec, send, bytes, buffer.buffer.region, buffer.buffer.offset, Regions(buffer.stash));
      } else {
        assert Sent(before) + pending == Sent(before);
      }
    }

    /** Makes room for a message: what is queued stays as it is, and so do the allocations that `others`
        still hold slices of. */
    method Reserve(ghost codec: Codec, capacity: nat, others: set<array<byte>>)
      requires Valid(codec) && others !! Regions(buffer.stash)
      modifies send, buffer, buffer.Allocations()
      ensures others !! Regions(buffer.stash)
      ensures forall r :: r in others || r == old(buffer.buffer.region) ==> r[..] == old(r[..])
      ensures buffer.buffer.region != old(buffer.buffer.region) ==> buffer.buffer.region !in others
      ensures buffer.buffer.region == old(buffer.buffer.region) ==> buffer.buffer.offset >= old(buffer.buffer.offset)
      ensures Valid(codec) && buffer.EmptyLen() >= capacity && Sent(send.queue) == old(Sent(send.queue))
      ensures forall r :: r in buffer.Allocations() ==> r in old(buffer.Allocations()) || fresh(r)
    {
      hide AllWholeTexts;
      hide Texts;
      hide Spelled;
      if buffer.EmptyLen() < capacity {
        WholeNone(codec);
        SendBuffer(codec);
        assert Sent(send.queue) ==
                  old(Sent(send.queue)) by { assert old(Sent(send.queue)) + [] == old(Sent(send.queue)); }
        var held := others + Regions(send.queue);
        ghost var queue := send.queue;
        MakeSendRoom(codec, buffer, capacity, held, queue);
      }
    }

    /** Sends one message: it joins the queue whole, behind those sent before. Slices that `others` still
        hold stay as they are: of the allocations these are in, only the unsent part is written. */
    method Push(codec: Codec, h: Header, payload: seq<byte>, others: set<array<byte>>)
      requires LawfulCodec(codec) && Valid(codec) && |payload| == h.length > 0 && others !! Regions(buffer.stash)
      modifies send, buffer, buffer.Allocations()
      ensures others !! Regions(buffer.stash)
      ensures forall r :: r in others && r != old(buffer.buffer.region) ==> r[..] == old(r[..])
      ensures old(buffer.buffer.offset) <= old(buffer.buffer.region).Length
      ensures old(buffer.buffer.region)[..old(buffer.buffer.offset)] ==
                old(buffer.buffer.region[..buffer.buffer.offset])
      ensures Valid(codec) && Sent(send.queue) == old(Sent(send.queue)) + Frame(codec, h, payload)
      ensures forall r :: r in buffer.Allocations() ==> r in old(buffer.Allocations()) || fresh(r)
    {
      hide AllWholeTexts;
      hide Texts;
      hide Spelled;
      hide WholeFrames;
      FrameIs(codec, h, payload);
      var message := codec.encode(h) + payload;
      Reserve(codec, RequiredBytes(h), others);
      ghost var queue := send.queue;
      WriteMessage(codec, buffer, message, queue);
      WholeOne(codec, message);
      SendBuffer(codec);
    }
  }

  /** Makes room, leaving queued slices as they are. */
  method MakeSendRoom(ghost codec: Codec, buffer: BytesSlab, capacity: nat, held: set<array<byte>>,
                      ghost queue: seq<Bytes>)
    requires buffer.Valid() && Regions(buffer.stash) !! held && Regions(queue) <= held
    requires SendOk(codec, queue, buffer.buffer.region, buffer.buffer.offset, Regions(buffer.stash))
    modifies buffer, buffer.Allocations()
    ensures buffer.Valid() && buffer.EmptyLen() >= capacity && buffer.valid == old(buffer.valid)
    ensures SendOk(codec, queue, buffer.buffer.region, buffer.buffer.offset, Regions(buffer.stash)) &&
            Sent(queue) == old(Sent(queue))
    ensures forall r :: r in buffer.Allocations() ==> r in old(buffer.Allocations()) || fresh(r)
    ensures Regions(buffer.stash) !! held && forall r :: r in held || r == old(buffer.buffer.region) ==>
              r[..] == old(r[..])
    ensures buffer.buffer.region == old(buffer.buffer.region) ==> buffer.buffer.offset == old(buffer.buffer.offset)
    ensures buffer.buffer.region != old(buffer.buffer.region) ==> buffer.buffer.region !in held
  {
    hide Spelled;
    hide WholeFrames;
    ghost var texts := Texts(queue);
    SpelledTexts(queue);
    buffer.EnsureCapacity(capacity, held);
    forall j | 0 <= j < |queue| ensures Content(queue[j]) == old(Content(queue[j])) {
      var b := queue[j];
      assert b in queue && b.region in Regions(queue) && b.region[..] == old(b.region[..]);
      assert Content(b) == b.region[..][b.offset..b.offset + b.len];
    }
    assert Texts(queue) == texts;
    SpelledTexts(queue);
  }

  /** Writes one message, leaving queued slices as they are. */
  method WriteMessage(ghost codec: Codec, buffer: BytesSlab, message: seq<byte>, ghost queue: seq<Bytes>)
    requires buffer.Valid() && buffer.valid == 0 && |message| <= buffer.EmptyLen()
    requires SendOk(codec, queue, buffer.buffer.region, buffer.buffer.offset, Regions(buffer.stash))
    modifies buffer`valid, buffer.buffer.region
    ensures buffer.Valid() && buffer.Pending() == message && buffer.Allocations() == old(buffer.Allocations())
    ensures SendOk(codec, queue, buffer.buffer.region, buffer.buffer.offset, Regions(buffer.stash)) &&
            Sent(queue) == old(Sent(queue))
    ensures buffer.buffer.offset <= buffer.buffer.region.Length && buffer.buffer == old(buffer.buffer)
    ensures buffer.buffer.region[..buffer.buffer.offset] == old(buffer.buffer.region[..buffer.buffer.offset])
  {
    hide Spelled;
    hide WholeFrames;
    hide BytesSlab.Allocations;
    hide AllWholeTexts;
    ghost var texts, region, limit := Texts(queue), buffer.buffer.region, buffer.buffer.offset;
    SpelledTexts(queue);
    NoSlab(queue, buffer);
    ghost var prefix := region[..limit];
    forall j | 0 <= j < |queue| && queue[j].region == region
      ensures texts[j] == prefix[queue[j].offset..queue[j].offset + queue[j].len] {
      assert queue[j] in queue;
      ContentWithin(queue[j], limit);
    }
    assert buffer.Pending() == [];
    hide BytesSlab.Valid;
    hide BytesSlab.Pending;
    buffer.Append(message);
    assert [] + message == message;
    forall j | 0 <= j < |queue| ensures Content(queue[j]) == texts[j] {
      assert queue[j] in queue;
      if queue[j].region == region {
        ContentWithin(queue[j], limit);
      }
    }
    assert Texts(queue) == texts;
    SpelledTexts(queue);
  }

  lemma NoSlab(bs: seq<Bytes>, buffer: BytesSlab)
    ensures forall r :: r in Regions(bs) ==> (r as object) != buffer
  {
  }

  lemma OneSlice(codec: Codec, b: Bytes, s: seq<byte>)
    requires InRegion(b) && Content(b) == s && WholeFrames(codec, s)
    ensures AllInRegion([b]) && Spelled([b]) == s && AllWhole(codec, [b])
  {
    assert Spelled([b][..0]) == [] && [b][0] == b;
    assert [] + s == s;
  }

  lemma ApartSent(codec: Codec, before: seq<Bytes>, b: Bytes, after: seq<Bytes>, region: array<byte>, limit: nat,
                  spare: set<array<byte>>)
    requires AllInRegion(before) && InRegion(b) && b.region == region && b.offset + b.len <= limit && region !in spare
    requires forall x :: x in before ==> x.region !in spare && (x.region == region ==> x.offset + x.len <= limit)
    requires Extended(codec, after, before, [b])
    ensures Apart(after, region, limit, spare)
  {
    hide Spelled;
    hide AllWhole;
    forall x | x in after ensures x.region !in spare && (x.region == region ==> x.offset + x.len <= limit) {
      assert (x.region, x.offset + x.len) in Ends(after);
      if (x.region, x.offset + x.len) in Ends(before) {
        var y :| y in before && (y.region, y.offset + y.len) == (x.region, x.offset + x.len);
      }
    }
  }

  // ---- from sender to worker ----

  /** What a process writes to the wire: the slices drained from its queues, in whatever order, and the
      end of the stream. */
  function Wire(codec: Codec, texts: seq<seq<byte>>): seq<byte> {
    Flatten(texts) + Shutdown(codec)
  }

  /** The wire carries exactly the messages in the slices, and is clean if they are for workers that are
      there. */
  lemma WireIsClean(codec: Codec, texts: seq<seq<byte>>, offset: nat, workers: nat)
    requires LawfulCodec(codec) && AllWholeTexts(codec, texts)
    ensures ParseAll(codec, Wire(codec, texts)) == Parse(FramesIn(codec, texts), true, [])
    ensures CleanStream(codec, Wire(codec, texts), offset, workers) <==>
              InRange(codec, FramesIn(codec, texts), offset, workers)
  {
    hide ParseAll;
    hide InRange;
    FramesInFlatten(codec, texts);
    WholeIsFrames(codec, Flatten(texts));
    StreamParses(codec, FramesIn(codec, texts));
  }

  /** Round trip: what a worker has taken, and what is queued for it, parse into exactly the messages
      sent to it, once each and in order, whatever happened to slices on the way. */
  lemma WorkerReceives(codec: Codec, sent: seq<seq<byte>>, taken: seq<byte>, texts: seq<seq<byte>>, worker: nat)
    requires LawfulCodec(codec) && AllWholeTexts(codec, sent)
    requires DeliveredTo(codec, texts, taken, ParseAll(codec, Wire(codec, sent)).frames, worker)
    ensures ParseAll(codec, taken).frames + FramesIn(codec, texts) == FramesTo(codec, FramesIn(codec, sent), worker)
  {
    hide ParseAll;
    hide FramesTo;
    WireIsClean(codec, sent, 0, 0);
    var frames := FramesTo(codec, FramesIn(codec, sent), worker);
    FramesInFlatten(codec, texts);
    WholeAppend(codec, taken, Flatten(texts));
    WholeNone(codec);
    ParseFrames(codec, frames, []);
    assert Flatten(frames) + [] == Flatten(frames) && frames + [] == frames;
  }

  /** What has been sent spells the headers and payloads given to be sent. */
  ghost predicate Spells(codec: Codec, bytes: seq<byte>, ss: seq<Sending>) {
    AllSendable(ss) && bytes == Flatten(Framed(codec, ss))
  }

  /** One more message pushed is one more header and payload. */
  lemma SpellsMore(codec: Codec, bytes: seq<byte>, ss: seq<Sending>, h: Header, payload: seq<byte>)
    requires Spells(codec, bytes, ss) && |payload| == h.length > 0
    ensures Spells(codec, bytes + Frame(codec, h, payload), ss + [Sending(h, payload)])
  {
    FlattenLast(codec, ss, Sending(h, payload));
  }

  /** Round trip, down to the payloads: what a worker has got for a channel, once it has taken all that was
      received, are the payloads given to be sent to it on this channel, once each and in order; and those
      that it has not dropped read as they were given. It does not matter into which slices they were cut. */
  lemma PayloadsArrive(codec: Codec, ss: seq<Sending>, sent: seq<seq<byte>>, channels: Channels,
                       dropped: set<(nat, nat)>, worker: nat)
    requires LawfulCodec(codec) && AllWholeTexts(codec, sent) && Spells(codec, Flatten(sent), ss)
    requires Intact(codec, channels, dropped, FramesTo(codec, ParseAll(codec, Wire(codec, sent)).frames, worker))
    ensures Arrived(channels, dropped, ss, worker)
  {
    hide ParseAll;
    hide FramesTo;
    hide Intact;
    hide Arrived;
    assert Wire(codec, sent) == Stream(codec, ss);
    StreamIs(codec, ss);
    IntactArrived(codec, channels, dropped, ss, worker);
  }

  /** One sender's messages: written one by one, they are what its queue parses into. */
  lemma SentParses(codec: Codec, queue: seq<byte>, frame: seq<byte>)
    requires WholeFrames(codec, queue) && IsFrame(codec, frame)
    ensures WholeFrames(codec, queue + frame) &&
            ParseAll(codec, queue + frame).frames == ParseAll(codec, queue).frames + [frame]
  {
    hide ParseAll;
    WholeOne(codec, frame);
    WholeAppend(codec, queue, frame);
  }

  lemma NothingSent(codec: Codec, queue: seq<Bytes>)
    requires queue == []
    ensures Spells(codec, Sent(queue), [])
  {
  }

  lemma SendableAt(ss: seq<Sending>, k: nat)
    requires AllSendable(ss) && k < |ss|
    ensures |ss[k].payload| == ss[k].header.length > 0
  {
  }

  lemma StreamSpells(codec: Codec, bytes: seq<byte>, ss: seq<Sending>)
    requires Spells(codec, bytes, ss)
    ensures bytes + Shutdown(codec) == Stream(codec, ss)
  {
  }

  lemma SentIs(slices: seq<Bytes>)
    requires AllInRegion(slices)
    ensures Sent(slices) == Spelled(slices)
  {
  }

  /** Sends messages one by one, and writes what is queued to the wire, and then the end of the stream. */
  method SendAll(codec: Codec, ss: seq<Sending>, shift: nat) returns (stream: seq<byte>)
    requires LawfulCodec(codec) && AllSendable(ss)
    ensures stream == Stream(codec, ss)
  {
    hide *;
    var queue := new MergeQueue();
    var endpoint := new SendEndpoint(queue, shift);
    NothingSent(codec, queue.queue);
    for k := 0 to |ss|
      invariant endpoint.Valid(codec) && Spells(codec, Sent(queue.queue), ss[..k])
      invariant fresh(endpoint.buffer) && forall r :: r in endpoint.buffer.Allocations() ==> fresh(r)
    {
      SendableAt(ss, k);
      SpellsMore(codec, Sent(queue.queue), ss[..k], ss[k].header, ss[k].payload);
      endpoint.Push(codec, ss[k].header, ss[k].payload, {});
      assert ss[..k + 1] == ss[..k] + [Sending(ss[k].header, ss[k].payload)];
    }
    assert ss[..|ss|] == ss;
    endpoint.AllQueued(codec);
    ghost var bytes, queued := Sent(queue.queue), queue.queue;
    SlicesAllocated(queued);
    NotQueue(queued, queue);
    var slices := queue.Drain();
    assert Sent(slices) == bytes;
    stream := WriteOut(slices);
    stream := stream + Shutdown(codec);
    StreamSpells(codec, bytes, ss);
  }

  /** Writes slices to the wire. */
  method WriteOut(slices: seq<Bytes>) returns (stream: seq<byte>)
    requires AllInRegion(slices)
    ensures stream == Sent(slices)
  {
    stream := [];
    assert slices[..0] == [];
    for k := 0 to |slices|
      invariant AllInRegion(slices[..k]) && stream == Spelled(slices[..k])
    {
      assert slices[..k + 1][..k] == slices[..k] && slices[k] in slices;
      stream := stream + Peeling.Read(slices[k]);
    }
    assert slices[..|slices|] == slices;
    SentIs(slices);
  }

  lemma NotQueue(bs: seq<Bytes>, queue: MergeQueue)
    ensures forall o :: o in Regions(bs) ==> (o as object) != queue
  {
  }

  /** There and back again: messages are sent, their stream is received however it is cut, and every worker
      has got exactly what was sent to it, channel by channel. */
  method RoundTrip(codec: Codec, ss: seq<Sending>, targets: seq<MergeQueue>, offset: nat, env: Environment,
                   sendShift: nat, shift: nat)
    returns (ok: bool, channels: seq<Channels>, dropped: seq<set<(nat, nat)>>)
    requires LawfulCodec(codec) && AllSendable(ss)
    requires DistinctQueues(targets) && forall i :: 0 <= i < |targets| ==> targets[i].queue == []
    modifies targets
    ensures ok <==> forall k :: 0 <= k < |ss| ==> offset <= ss[k].header.target < offset + |targets|
    ensures |channels| == |dropped| == |targets|
    ensures ok ==> forall i :: 0 <= i < |targets| ==> Arrived(channels[i], dropped[i], ss, offset + i)
  {
    hide *;
    var stream := SendAll(codec, ss, sendShift);
    ok, channels, dropped := DeliverAll(codec, stream, targets, offset, env, shift);
  }
}
