/** Receiving a stream while workers take what is theirs, and hold on to it. */
module Reception {
  import opened Basics
  import opened Timestamps
  import opened StableSorts
  import opened Frames
  import opened Sendings
  import opened SharedBytes
  import opened MergeQueues
  import opened Receiving
  import opened Tcp
  import opened Peeling

  /** What is not up to the receiver: at each round, how many bytes a read returns, which workers take
      what is queued for them, and which payloads they drop, by channel and position. */
  datatype Environment = Environment(sizes: nat -> nat, takes: (nat, nat) -> bool, drops: (nat, nat) -> set<(nat, nat)>)

  /** The payloads a worker has got are those of the messages it has taken, channel by channel and in
      order; those that it has not dropped still read as they were sent. */
  ghost predicate Intact(codec: Codec, channels: Channels, dropped: set<(nat, nat)>, frames: seq<seq<byte>>)
    requires AllFrames(codec, frames)
    reads ChannelRegions(channels)
  {
    forall c: nat :: IntactFor(Got(channels, c), dropped, c, PayloadsFor(codec, frames, c))
  }

  /** For each channel a worker has got the payloads that were sent to it on this channel, once each and in
      order, and those that it has not dropped read as they were sent. */
  ghost predicate Arrived(channels: Channels, dropped: set<(nat, nat)>, ss: seq<Sending>, worker: nat)
    reads ChannelRegions(channels)
  {
    forall c: nat :: IntactFor(Got(channels, c), dropped, c, On(To(ss, worker), c))
  }

  lemma IntactArrived(codec: Codec, channels: Channels, dropped: set<(nat, nat)>, ss: seq<Sending>, worker: nat)
    requires LawfulCodec(codec) && AllSendable(ss) && AllFrames(codec, Framed(codec, ss))
    requires Intact(codec, channels, dropped, FramesTo(codec, Framed(codec, ss), worker))
    ensures Arrived(channels, dropped, ss, worker)
  {
    hide IsFrame;
    hide IntactFor;
    FramedTo(codec, ss, worker);
    forall c: nat ensures IntactFor(Got(channels, c), dropped, c, On(To(ss, worker), c)) {
      FramedOn(codec, To(ss, worker), c);
    }
  }

  /** What a worker has got of messages that it has taken are the payloads sent, channel by channel. */
  lemma IntactSent(codec: Codec, channels: Channels, dropped: set<(nat, nat)>, ss: seq<Sending>, c: nat)
    requires LawfulCodec(codec) && AllSendable(ss) && AllFrames(codec, Framed(codec, ss))
    requires Intact(codec, channels, dropped, Framed(codec, ss))
    ensures IntactFor(Got(channels, c), dropped, c, On(ss, c))
  {
    hide IsFrame;
    hide IntactFor;
    FramedOn(codec, ss, c);
  }

  /** A stream of messages is clean exactly if they are for workers that are there. */
  lemma StreamClean(codec: Codec, ss: seq<Sending>, offset: nat, workers: nat)
    requires LawfulCodec(codec) && AllSendable(ss)
    ensures CleanStream(codec, Stream(codec, ss), offset, workers) <==>
              forall k :: 0 <= k < |ss| ==> offset <= ss[k].header.target < offset + workers
  {
    hide ParseAll;
    hide InRange;
    StreamIs(codec, ss);
    FramedRange(codec, ss, offset, workers);
  }

  ghost predicate IntactFor(bs: seq<Bytes>, dropped: set<(nat, nat)>, c: nat, payloads: seq<seq<byte>>)
    reads Regions(bs)
  {
    |bs| == |payloads| && forall k :: 0 <= k < |bs| && (c, k) !in dropped ==> Reads(bs[k], payloads[k])
  }

  ghost predicate Reads(b: Bytes, s: seq<byte>)
    reads b.region
  {
    InRegion(b) && Content(b) == s
  }

  /** A slice that the slab will not write to. */
  ghost predicate Clear(b: Bytes, region: array<byte>, limit: nat, spare: set<array<byte>>) {
    InRegion(b) && b.region !in spare && (b.region == region ==> b.offset + b.len <= limit)
  }

  ghost predicate AllClear(channels: Channels, dropped: set<(nat, nat)>, region: array<byte>, limit: nat,
                           spare: set<array<byte>>) {
    forall c, k :: c in channels && 0 <= k < |channels[c]| && (c, k) !in dropped ==>
        Clear(channels[c][k], region, limit, spare)
  }

  /** What a worker has got is intact, and will be. */
  ghost predicate Keeps(codec: Codec, channels: Channels, dropped: set<(nat, nat)>, taken: seq<byte>,
                        region: array<byte>, limit: nat, spare: set<array<byte>>)
    reads ChannelRegions(channels)
  {
    && ChannelsOk(channels) && Intact(codec, channels, dropped, ParseAll(codec, taken).frames)
    && AllClear(channels, dropped, region, limit, spare)
  }

  // ---- slices as parts of what allocations hold ----

  /** What some allocations begin with. */
  ghost predicate Stored(store: map<array<byte>, seq<byte>>)
    reads store.Keys
  {
    forall r :: r in store ==> store[r] <= r[..]
  }

  ghost predicate Covered(b: Bytes, store: map<array<byte>, seq<byte>>) {
    InRegion(b) && b.region in store && b.offset + b.len <= |store[b.region]|
  }

  ghost predicate AllCovered(channels: Channels, dropped: set<(nat, nat)>, store: map<array<byte>, seq<byte>>) {
    forall c, k :: c in channels && 0 <= k < |channels[c]| && (c, k) !in dropped ==> Covered(channels[c][k], store)
  }

  /** Intact, as far as the store tells. */
  ghost predicate IntactIn(codec: Codec, channels: Channels, dropped: set<(nat, nat)>, frames: seq<seq<byte>>,
                           store: map<array<byte>, seq<byte>>)
    requires AllFrames(codec, frames) && AllCovered(channels, dropped, store)
  {
    forall c: nat :: IntactForIn(Got(channels, c), dropped, c, PayloadsFor(codec, frames, c), store)
  }

  ghost predicate IntactForIn(bs: seq<Bytes>, dropped: set<(nat, nat)>, c: nat, payloads: seq<seq<byte>>,
                              store: map<array<byte>, seq<byte>>) {
    |bs| == |payloads| && forall k :: 0 <= k < |bs| && (c, k) !in dropped ==> ReadsIn(bs[k], payloads[k], store)
  }

  ghost predicate ReadsIn(b: Bytes, s: seq<byte>, store: map<array<byte>, seq<byte>>) {
    Covered(b, store) && store[b.region][b.offset..b.offset + b.len] == s
  }

  /** The store tells all there is to tell. */
  lemma IntactStored(codec: Codec, channels: Channels, dropped: set<(nat, nat)>, frames: seq<seq<byte>>,
                     store: map<array<byte>, seq<byte>>)
    requires AllFrames(codec, frames) && AllCovered(channels, dropped, store) && Stored(store)
    ensures Intact(codec, channels, dropped, frames) <==> IntactIn(codec, channels, dropped, frames, store)
  {
    hide PayloadsFor;
    hide IsFrame;
    forall c: nat ensures IntactFor(Got(channels, c), dropped, c, PayloadsFor(codec, frames, c)) <==>
                     IntactForIn(Got(channels, c), dropped, c, PayloadsFor(codec, frames, c), store)
    {
      var bs, ps := Got(channels, c), PayloadsFor(codec, frames, c);
      if |bs| == |ps| {
        forall k | 0 <= k < |bs| && (c, k) !in dropped ensures Reads(bs[k], ps[k]) <==> ReadsIn(bs[k], ps[k], store) {
          StoredContent(bs[k], store);
        }
      }
    }
  }

  lemma StoredContent(b: Bytes, store: map<array<byte>, seq<byte>>)
    requires Covered(b, store) && Stored(store)
    ensures Content(b) == store[b.region][b.offset..b.offset + b.len]
  {
    assert Content(b) == b.region[..][b.offset..b.offset + b.len];
  }

  // ---- taking ----

  /** Peeling the slices a worker takes: it has got the payloads of their messages, too. */
  lemma TakenKeeps(codec: Codec, queue: seq<Bytes>, channels: Channels, dropped: set<(nat, nat)>, taken: seq<byte>,
                   channels': Channels, region: array<byte>, limit: nat, spare: set<array<byte>>)
    requires Apart(queue, region, limit, spare) && AllWholeTexts(codec, Texts(queue)) && WholeFrames(codec, taken)
    requires Keeps(codec, channels, dropped, taken, region, limit, spare) && ChannelsOk(channels')
    requires Peeled(codec, channels, None, FramesIn(codec, Texts(queue)), channels') &&
             PartsOf(channels, queue, channels')
    ensures Keeps(codec, channels', dropped, taken + Flatten(Texts(queue)), region, limit, spare)
  {
    hide IsFrame;
    hide ParseAll;
    hide WholeFrames;
    var one, two := ParseAll(codec, taken).frames, FramesIn(codec, Texts(queue));
    FramesInFlatten(codec, Texts(queue));
    WholeAppend(codec, taken, Flatten(Texts(queue)));
    forall c: nat ensures IntactFor(Got(channels', c), dropped, c, PayloadsFor(codec, one + two, c)) {
      PayloadsAppend(codec, one, two, c);
      TakenIntact(Got(channels, c), Got(channels', c), dropped, c, PayloadsFor(codec, one, c),
                  PayloadsFor(codec, two, c));
    }
    TakenClear(queue, channels, dropped, channels', region, limit, spare);
  }

  lemma TakenIntact(before: seq<Bytes>, after: seq<Bytes>, dropped: set<(nat, nat)>, c: nat, one: seq<seq<byte>>,
                    two: seq<seq<byte>>)
    requires AllInRegion(before) && AllInRegion(after) && before <= after
    requires IntactFor(before, dropped, c, one) && Texts(after) == Texts(before) + two
    ensures IntactFor(after, dropped, c, one + two)
  {
    forall k | 0 <= k < |after| && (c, k) !in dropped ensures Reads(after[k], (one + two)[k]) {
      if k < |before| {
        assert after[k] == before[k];
      } else {
        assert Texts(after)[k] == two[k - |before|];
      }
    }
  }

  lemma TakenClear(queue: seq<Bytes>, channels: Channels, dropped: set<(nat, nat)>, channels': Channels,
                   region: array<byte>, limit: nat, spare: set<array<byte>>)
    requires Apart(queue, region, limit, spare) && ChannelsOk(channels') && PartsOf(channels, queue, channels')
    requires AllClear(channels, dropped, region, limit, spare)
    ensures AllClear(channels', dropped, region, limit, spare)
  {
    forall c, k | c in channels' && 0 <= k < |channels'[c]| && (c, k) !in dropped
      ensures Clear(channels'[c][k], region, limit, spare) {
      assert Got(channels', c) == channels'[c] && Got(channels, c) <= Got(channels', c);
      if k < |Got(channels, c)| {
        assert channels'[c][k] == channels[c][k];
      } else {
        assert IsPart(Got(channels', c)[k], queue);
      }
    }
  }

  /** A worker takes what is queued for it, and peels it. */
  method TakeOne(codec: Codec, target: MergeQueue, channels: Channels, ghost dropped: set<(nat, nat)>,
                 ghost taken: seq<byte>, ghost frames: seq<seq<byte>>, ghost worker: nat, ghost region: array<byte>,
                 ghost limit: nat, ghost spare: set<array<byte>>)
    returns (channels': Channels, ghost taken': seq<byte>)
    requires AllFrames(codec, frames) && Served(codec, target, taken, frames, worker, region, limit, spare)
    requires Keeps(codec, channels, dropped, taken, region, limit, spare)
    modifies target
    ensures target.queue == [] && Served(codec, target, taken', frames, worker, region, limit, spare)
    ensures Keeps(codec, channels', dropped, taken', region, limit, spare)
  {
    hide Regions;
    hide FramesTo;
    hide IsFrame;
    hide Peeled;
    hide PartsOf;
    hide AllClear;
    hide Intact;
    ghost var queue := target.queue;
    ghost var texts := Texts(queue);
    TakenOne(codec, queue, taken, frames, worker, region, limit, spare);
    NotQueue(target, channels);
    ChannelsAllocated(channels);
    SlicesAllocated(queue);
    var slices := target.Drain();
    assert Keeps(codec, channels, dropped, taken, region, limit, spare);
    assert Texts(slices) == texts;
    var events;
    channels', events := PeelAll(codec, slices, channels, None, []);
    taken' := taken + Flatten(texts);
    TakenKeeps(codec, slices, channels, dropped, taken, channels', region, limit, spare);
  }

  lemma NotQueue(target: MergeQueue, channels: Channels)
    ensures forall o :: o in ChannelRegions(channels) ==> o != target
    ensures forall r :: r in Regions(target.queue) ==> (r as object) != target
  {
  }

  // ---- all workers ----

  ghost function GotRegions(channels: seq<Channels>): set<object> {
    set i, o | 0 <= i < |channels| && o in ChannelRegions(channels[i]) :: o
  }

  ghost predicate AllKeep(codec: Codec, channels: seq<Channels>, dropped: seq<set<(nat, nat)>>, taken: seq<seq<byte>>,
                          region: array<byte>, limit: nat, spare: set<array<byte>>)
    reads GotRegions(channels)
  {
    && |channels| == |dropped| == |taken|
    && forall i :: 0 <= i < |channels| ==> Keeps(codec, channels[i], dropped[i], taken[i], region, limit, spare)
  }

  /** The allocations that a worker holds payloads in. */
  function HeldBy(channels: Channels, dropped: set<(nat, nat)>): set<array<byte>> {
    set c, k | c in channels && 0 <= k < |channels[c]| && (c, k) !in dropped :: channels[c][k].region
  }

  /** The allocations that workers hold payloads in. */
  function AllHeld(channels: seq<Channels>, dropped: seq<set<(nat, nat)>>): set<array<byte>>
    requires |channels| == |dropped|
  {
    set i, r | 0 <= i < |channels| && r in HeldBy(channels[i], dropped[i]) :: r
  }

  lemma HeldIn(channels: seq<Channels>, dropped: seq<set<(nat, nat)>>, i: nat, c: nat, k: nat)
    requires |channels| == |dropped| && i < |channels| && c in channels[i] && k < |channels[i][c]| &&
             (c, k) !in dropped[i]
    ensures channels[i][c][k].region in AllHeld(channels, dropped)
  {
    assert channels[i][c][k].region in HeldBy(channels[i], dropped[i]);
  }

  /** Workers take what is queued for them, or not. */
  method TakeSome(codec: Codec, targets: seq<MergeQueue>, takes: nat -> bool, channels: seq<Channels>,
                  ghost dropped: seq<set<(nat, nat)>>, ghost taken: seq<seq<byte>>, ghost frames: seq<seq<byte>>,
                  ghost offset: nat, ghost region: array<byte>, ghost limit: nat, ghost spare: set<array<byte>>)
    returns (channels': seq<Channels>, ghost taken': seq<seq<byte>>)
    requires AllFrames(codec, frames) && DistinctQueues(targets) && |channels| == |targets|
    requires AllServed(codec, targets, taken, frames, offset, region, limit, spare)
    requires AllKeep(codec, channels, dropped, taken, region, limit, spare)
    modifies targets
    ensures AllServed(codec, targets, taken', frames, offset, region, limit, spare)
    ensures AllKeep(codec, channels', dropped, taken', region, limit, spare) && |channels'| == |taken'| == |targets|
    ensures forall i :: 0 <= i < |targets| && takes(i) ==> targets[i].queue == []
  {
    hide DeliveredTo;
    hide Regions;
    hide FramesTo;
    hide IsFrame;
    hide Keeps;
    channels', taken' := channels, taken;
    for i := 0 to |targets|
      invariant |taken'| == |channels'| == |targets|
      invariant forall j :: 0 <= j < |targets| ==>
                Served(codec, targets[j], taken'[j], frames, offset + j, region, limit, spare)
      invariant forall j :: 0 <= j < |targets| ==>
                Keeps(codec, channels'[j], dropped[j], taken'[j], region, limit, spare)
      invariant forall j :: 0 <= j < i && takes(j) ==> targets[j].queue == []
    {
      if takes(i) {
        Others(targets, [], i);
        AllNotQueue(targets[i], channels');
        label before:
        var got;
        ghost var more;
        got, more := TakeOne(codec, targets[i], channels'[i], dropped[i], taken'[i], frames, offset + i, region, limit,
                             spare);
        forall j | 0 <= j < |targets| && j != i
          ensures targets[j].queue == old@before(targets[j].queue)
          ensures AllInRegion(targets[j].queue) ==> Texts(targets[j].queue) == old@before(Texts(targets[j].queue))
          ensures Keeps(codec, channels'[j], dropped[j], taken'[j], region, limit, spare)
        {
          ChannelsAllocated(channels'[j]);
        }
        channels', taken' := channels'[i := got], taken'[i := more];
      }
    }
  }

  lemma AllNotQueue(target: MergeQueue, channels: seq<Channels>)
    ensures forall j, o :: 0 <= j < |channels| && o in ChannelRegions(channels[j]) ==> o != target
  {
  }

  /** Workers drop payloads. */
  function Dropping(dropped: seq<set<(nat, nat)>>, drops: nat -> set<(nat, nat)>): (dropped': seq<set<(nat, nat)>>)
    ensures |dropped'| == |dropped|
  {
    seq(|dropped|, i requires 0 <= i < |dropped| => dropped[i] + drops(i))
  }

  /** What they do not drop is intact all the same. */
  lemma DroppingKeeps(codec: Codec, drops: nat -> set<(nat, nat)>, channels: seq<Channels>,
                      dropped: seq<set<(nat, nat)>>, taken: seq<seq<byte>>, region: array<byte>, limit: nat,
                      spare: set<array<byte>>)
    requires AllKeep(codec, channels, dropped, taken, region, limit, spare)
    ensures AllKeep(codec, channels, Dropping(dropped, drops), taken, region, limit, spare)
  {
    hide IsFrame;
    hide ParseAll;
    hide PayloadsFor;
    hide Reads;
    hide Clear;
    hide ChannelsOk;
    var dropped' := Dropping(dropped, drops);
    forall i | 0 <= i < |channels| ensures Keeps(codec, channels[i], dropped'[i], taken[i], region, limit, spare) {
      assert Keeps(codec, channels[i], dropped[i], taken[i], region, limit, spare);
      var frames := ParseAll(codec, taken[i]).frames;
      forall c: nat ensures IntactFor(Got(channels[i], c), dropped'[i], c, PayloadsFor(codec, frames, c)) {
        assert IntactFor(Got(channels[i], c), dropped[i], c, PayloadsFor(codec, frames, c));
      }
    }
  }

  // ---- from one state of the slab to another ----

  /** All that workers hold is intact, as far as the store tells. */
  ghost predicate AllIntactIn(codec: Codec, channels: seq<Channels>, dropped: seq<set<(nat, nat)>>,
                              taken: seq<seq<byte>>, store: map<array<byte>, seq<byte>>)
  {
    && |channels| == |dropped| == |taken|
    && forall i :: 0 <= i < |channels| ==>
        IntactOneIn(codec, channels[i], dropped[i], ParseAll(codec, taken[i]).frames, store)
  }

  ghost predicate IntactOneIn(codec: Codec, channels: Channels, dropped: set<(nat, nat)>, frames: seq<seq<byte>>,
                              store: map<array<byte>, seq<byte>>)
    requires AllFrames(codec, frames)
  {
    ChannelsOk(channels) && AllCovered(channels, dropped, store) && IntactIn(codec, channels, dropped, frames, store)
  }

  /** All that workers hold is clear of the slab. */
  ghost predicate EachClear(channels: seq<Channels>, dropped: seq<set<(nat, nat)>>, region: array<byte>, limit: nat,
                            spare: set<array<byte>>) {
    |channels| == |dropped| && forall i :: 0 <= i < |channels| ==>
        AllClear(channels[i], dropped[i], region, limit, spare)
  }

  lemma KeepClear(codec: Codec, channels: seq<Channels>, dropped: seq<set<(nat, nat)>>, taken: seq<seq<byte>>,
                  region: array<byte>, limit: nat, spare: set<array<byte>>)
    requires AllKeep(codec, channels, dropped, taken, region, limit, spare)
    ensures |channels| == |dropped| == |taken|
    ensures EachClear(channels, dropped, region, limit, spare) && AllHeld(channels, dropped) !! spare
  {
    hide Intact;
    hide AllClear;
    hide AllHeld;
    forall i | 0 <= i < |channels| ensures AllClear(channels[i], dropped[i], region, limit, spare) {
      assert Keeps(codec, channels[i], dropped[i], taken[i], region, limit, spare);
    }
    NotSpare(channels, dropped, region, limit, spare);
  }

  /** A store that covers all that is held tells that it is intact. */
  lemma KeepStore(codec: Codec, channels: seq<Channels>, dropped: seq<set<(nat, nat)>>, taken: seq<seq<byte>>,
                  region: array<byte>, limit: nat, spare: set<array<byte>>, store: map<array<byte>, seq<byte>>)
    requires AllKeep(codec, channels, dropped, taken, region, limit, spare)
    requires Stored(store) && AllHeld(channels, dropped) <= store.Keys
    requires forall r :: r in store ==> |store[r]| == r.Length || (r == region && |store[r]| == limit)
    ensures AllIntactIn(codec, channels, dropped, taken, store)
  {
    hide AllHeld;
    hide IntactIn;
    hide Intact;
    hide ParseAll;
    hide IsFrame;
    forall i | 0 <= i < |channels|
      ensures IntactOneIn(codec, channels[i], dropped[i], ParseAll(codec, taken[i]).frames, store) {
      assert Keeps(codec, channels[i], dropped[i], taken[i], region, limit, spare);
      forall c, k | c in channels[i] && 0 <= k < |channels[i][c]| && (c, k) !in dropped[i]
        ensures Covered(channels[i][c][k], store) {
        HeldIn(channels, dropped, i, c, k);
        assert Clear(channels[i][c][k], region, limit, spare);
      }
      IntactStored(codec, channels[i], dropped[i], ParseAll(codec, taken[i]).frames, store);
    }
  }

  /** And as long as the store tells the truth, and all is clear of the slab, it is kept. */
  lemma StoreKeep(codec: Codec, channels: seq<Channels>, dropped: seq<set<(nat, nat)>>, taken: seq<seq<byte>>,
                  region: array<byte>, limit: nat, spare: set<array<byte>>, store: map<array<byte>, seq<byte>>)
    requires AllIntactIn(codec, channels, dropped, taken, store) && Stored(store)
    requires EachClear(channels, dropped, region, limit, spare)
    ensures AllKeep(codec, channels, dropped, taken, region, limit, spare)
  {
    hide AllClear;
    hide IntactIn;
    hide Intact;
    hide ParseAll;
    hide IsFrame;
    forall i | 0 <= i < |channels| ensures Keeps(codec, channels[i], dropped[i], taken[i], region, limit, spare) {
      assert IntactOneIn(codec, channels[i], dropped[i], ParseAll(codec, taken[i]).frames, store);
      IntactStored(codec, channels[i], dropped[i], ParseAll(codec, taken[i]).frames, store);
    }
  }

  /** What is held stays clear of a slab that leaves held allocations alone. */
  lemma ClearAll(channels: seq<Channels>, dropped: seq<set<(nat, nat)>>, region: array<byte>, limit: nat,
                 spare: set<array<byte>>, region': array<byte>, limit': nat, spare': set<array<byte>>)
    requires EachClear(channels, dropped, region, limit, spare)
    requires spare' !! AllHeld(channels, dropped) && (region' == region ==> limit <= limit')
    requires region' != region ==> region' !in AllHeld(channels, dropped)
    ensures EachClear(channels, dropped, region', limit', spare')
  {
    hide AllHeld;
    forall i, c, k | 0 <= i < |channels| && c in channels[i] && 0 <= k < |channels[i][c]| && (c, k) !in dropped[i]
      ensures Clear(channels[i][c][k], region', limit', spare')
    {
      assert AllClear(channels[i], dropped[i], region, limit, spare);
      assert Clear(channels[i][c][k], region, limit, spare);
      HeldIn(channels, dropped, i, c, k);
    }
  }

  lemma NotSpare(channels: seq<Channels>, dropped: seq<set<(nat, nat)>>, region: array<byte>, limit: nat,
                 spare: set<array<byte>>)
    requires EachClear(channels, dropped, region, limit, spare)
    ensures AllHeld(channels, dropped) !! spare
  {
    forall r | r in AllHeld(channels, dropped) ensures r !in spare {
      var i :| 0 <= i < |channels| && r in HeldBy(channels[i], dropped[i]);
      var c, k :| c in channels[i] && 0 <= k < |channels[i][c]| && (c, k) !in dropped[i] &&
      channels[i][c][k].region == r;
      assert AllClear(channels[i], dropped[i], region, limit, spare);
      assert Clear(channels[i][c][k], region, limit, spare);
    }
  }

  lemma StoreAllocated(store: map<array<byte>, seq<byte>>)
    ensures forall r :: r in store ==> allocated(r)
  {
  }

  /** Makes room in the slab. What is queued, and what workers have got and not dropped, is held. */
  method RoomFor(codec: Codec, buffer: BytesSlab, targets: seq<MergeQueue>, channels: seq<Channels>,
                 dropped: seq<set<(nat, nat)>>, ghost taken: seq<seq<byte>>, ghost frames: seq<seq<byte>>,
                 ghost offset: nat)
    requires buffer.Valid() && AllFrames(codec, frames)
    requires AllServed(codec, targets, taken, frames, offset, buffer.buffer.region, buffer.buffer.offset,
                       Regions(buffer.stash))
    requires AllKeep(codec, channels, dropped, taken, buffer.buffer.region, buffer.buffer.offset, Regions(buffer.stash))
    modifies buffer, buffer.Allocations()
    ensures buffer.Valid() && buffer.EmptyLen() >= 1 && buffer.Pending() == old(buffer.Pending())
    ensures AllServed(codec, targets, taken, frames, offset, buffer.buffer.region, buffer.buffer.offset,
                      Regions(buffer.stash))
    ensures AllKeep(codec, channels, dropped, taken, buffer.buffer.region, buffer.buffer.offset, Regions(buffer.stash))
    ensures forall r :: r in buffer.Allocations() ==> r in old(buffer.Allocations()) || fresh(r)
  {
    hide DeliveredTo;
    hide FramesTo;
    hide IsFrame;
    hide AllIntactIn;
    hide EachClear;
    hide AllHeld;
    hide AllKeep;
    ghost var region, limit, spare := buffer.buffer.region, buffer.buffer.offset, Regions(buffer.stash);
    KeepClear(codec, channels, dropped, taken, region, limit, spare);
    var held := AllHeld(channels, dropped);
    for i := 0 to |targets|
      invariant Regions(buffer.stash) !! held && AllHeld(channels, dropped) <= held
      invariant forall j, b :: 0 <= j < i && b in targets[j].queue ==> b.region in held
    {
      assert Apart(targets[i].queue, buffer.buffer.region, buffer.buffer.offset, Regions(buffer.stash));
      held := held + Regions(targets[i].queue);
    }
    ghost var qs := Queues(targets);
    ghost var texts := AllTexts(qs);
    assert Holding(qs, texts);
    ghost var store := map r | r in AllHeld(channels, dropped) :: r[..];
    KeepStore(codec, channels, dropped, taken, region, limit, spare, store);
    StoreAllocated(store);
    MakeRoom(buffer, held, qs, texts);
    assert Queues(targets) == qs;
    forall i | 0 <= i < |targets|
      ensures Served(codec, targets[i], taken[i], frames, offset + i, buffer.buffer.region, buffer.buffer.offset,
                     Regions(buffer.stash))
    {
      assert qs[i] == targets[i].queue && HoldingOne(qs[i], texts[i]);
    }
    ClearAll(channels, dropped, region, limit, spare, buffer.buffer.region, buffer.buffer.offset,
             Regions(buffer.stash));
    StoreKeep(codec, channels, dropped, taken, buffer.buffer.region, buffer.buffer.offset, Regions(buffer.stash),
              store);
  }

  /** Reads into the slab. */
  method ReadSome(codec: Codec, buffer: BytesSlab, targets: seq<MergeQueue>, data: seq<byte>,
                  ghost channels: seq<Channels>, ghost dropped: seq<set<(nat, nat)>>, ghost taken: seq<seq<byte>>,
                  ghost frames: seq<seq<byte>>, ghost offset: nat)
    requires buffer.Valid() && AllFrames(codec, frames) && |data| <= buffer.EmptyLen()
    requires AllServed(codec, targets, taken, frames, offset, buffer.buffer.region, buffer.buffer.offset,
                       Regions(buffer.stash))
    requires AllKeep(codec, channels, dropped, taken, buffer.buffer.region, buffer.buffer.offset, Regions(buffer.stash))
    modifies buffer`valid, buffer.buffer.region
    ensures buffer.Valid() && buffer.Pending() == old(buffer.Pending()) + data &&
            buffer.Allocations() == old(buffer.Allocations())
    ensures AllServed(codec, targets, taken, frames, offset, buffer.buffer.region, buffer.buffer.offset,
                      Regions(buffer.stash))
    ensures AllKeep(codec, channels, dropped, taken, buffer.buffer.region, buffer.buffer.offset, Regions(buffer.stash))
  {
    hide DeliveredTo;
    hide FramesTo;
    hide IsFrame;
    hide AllIntactIn;
    hide EachClear;
    hide AllHeld;
    hide AllKeep;
    ghost var region, limit, spare := buffer.buffer.region, buffer.buffer.offset, Regions(buffer.stash);
    KeepClear(codec, channels, dropped, taken, region, limit, spare);
    ghost var qs := Queues(targets);
    ghost var texts := AllTexts(qs);
    assert Holding(qs, texts);
    ghost var store := map r | r in AllHeld(channels, dropped) :: if r == region then r[..limit] else r[..];
    KeepStore(codec, channels, dropped, taken, region, limit, spare, store);
    StoreAllocated(store);
    ReadInto(buffer, data, qs, texts);
    assert Queues(targets) == qs;
    forall i | 0 <= i < |targets|
      ensures Served(codec, targets[i], taken[i], frames, offset + i, buffer.buffer.region, buffer.buffer.offset,
                     Regions(buffer.stash))
    {
      assert qs[i] == targets[i].queue && HoldingOne(qs[i], texts[i]);
    }
    StoreKeep(codec, channels, dropped, taken, region, limit, spare, store);
  }

  /** What reception leaves a worker with: every message to it was taken, or is in its queue, in slices of
      whole messages and in order; and the payloads of those it took are intact. */
  ghost predicate Received(codec: Codec, target: MergeQueue, channels: Channels, dropped: set<(nat, nat)>,
                           taken: seq<byte>, frames: seq<seq<byte>>, worker: nat)
    requires AllFrames(codec, frames)
    reads target, Regions(target.queue), ChannelRegions(channels)
  {
    && AllInRegion(target.queue) && DeliveredTo(codec, Texts(target.queue), taken, frames, worker)
    && ChannelsOk(channels) && Intact(codec, channels, dropped, ParseAll(codec, taken).frames)
  }

  /** What happens between two reads: workers take what is theirs and drop what they like, and room is made. */
  method Between(codec: Codec, buffer: BytesSlab, targets: seq<MergeQueue>, env: Environment, round: nat,
                 channels: seq<Channels>, dropped: seq<set<(nat, nat)>>, ghost taken: seq<seq<byte>>,
                 ghost frames: seq<seq<byte>>, ghost offset: nat)
    returns (channels': seq<Channels>, dropped': seq<set<(nat, nat)>>, ghost taken': seq<seq<byte>>)
    requires buffer.Valid() && AllFrames(codec, frames) && DistinctQueues(targets)
    requires |channels| == |dropped| == |taken| == |targets|
    requires AllServed(codec, targets, taken, frames, offset, buffer.buffer.region, buffer.buffer.offset,
                       Regions(buffer.stash))
    requires AllKeep(codec, channels, dropped, taken, buffer.buffer.region, buffer.buffer.offset, Regions(buffer.stash))
    modifies targets, buffer, buffer.Allocations()
    ensures |channels'| == |dropped'| == |taken'| == |targets|
    ensures buffer.Valid() && buffer.EmptyLen() >= 1 && buffer.Pending() == old(buffer.Pending())
    ensures AllServed(codec, targets, taken', frames, offset, buffer.buffer.region, buffer.buffer.offset,
                      Regions(buffer.stash))
    ensures AllKeep(codec, channels', dropped', taken', buffer.buffer.region, buffer.buffer.offset,
                    Regions(buffer.stash))
    ensures forall r :: r in buffer.Allocations() ==> r in old(buffer.Allocations()) || fresh(r)
  {
    hide AllServed;
    hide AllKeep;
    hide BytesSlab.Valid;
    hide BytesSlab.Pending;
    hide BytesSlab.Allocations;
    hide IsFrame;
    hide Dropping;
    NotSlab(targets, buffer);
    ghost var pending := buffer.Pending();
    channels', taken' := TakeSome(codec, targets, (i: nat) => env.takes(round, i), channels, dropped, taken, frames,
                                  offset, buffer.buffer.region, buffer.buffer.offset, Regions(buffer.stash));
    assert buffer.Valid() && buffer.Pending() == pending;
    var drops := (i: nat) => env.drops(round, i);
    DroppingKeeps(codec, drops, channels', dropped, taken', buffer.buffer.region, buffer.buffer.offset,
                  Regions(buffer.stash));
    dropped' := Dropping(dropped, drops);
    RoomFor(codec, buffer, targets, channels', dropped', taken', frames, offset);
  }

  /** Receives a stream. However it is cut into reads, and whatever the workers take meanwhile and hold on
      to, it succeeds exactly on clean streams, and leaves every worker with exactly its messages. */
  method ReceiveAll(codec: Codec, stream: seq<byte>, targets: seq<MergeQueue>, offset: nat, env: Environment,
                    shift: nat)
    returns (ok: bool, channels: seq<Channels>, dropped: seq<set<(nat, nat)>>, ghost taken: seq<seq<byte>>)
    requires DistinctQueues(targets) && forall i :: 0 <= i < |targets| ==> targets[i].queue == []
    modifies targets
    ensures ok <==> CleanStream(codec, stream, offset, |targets|)
    ensures |channels| == |dropped| == |taken| == |targets|
    ensures forall i :: 0 <= i < |targets| ==>
              ChannelsOk(channels[i]) && Intact(codec, channels[i], dropped[i], ParseAll(codec, taken[i]).frames)
    ensures ok ==> forall i :: 0 <= i < |targets| ==>
              Received(codec, targets[i], channels[i], dropped[i], taken[i], ParseAll(codec, stream).frames, offset + i)
  {
    hide AllServed;
    hide AllKeep;
    hide AllStaged;
    hide Carving;
    hide Progressed;
    hide CleanStream;
    hide BytesSlab.Valid;
    hide BytesSlab.Pending;
    hide BytesSlab.Allocations;
    hide IsFrame;
    hide ParseAll;
    hide Received;
    hide Intact;
    hide ChannelsOk;
    var buffer := new BytesSlab(shift);
    FreshSlab(buffer);
    var rest, active, round := stream, true, 0;
    ghost var consumed: seq<byte> := [];
    ghost var frames: seq<seq<byte>> := [];
    channels, dropped, taken := seq(|targets|, i => map[]), seq(|targets|, i => {}), seq(|targets|, i => []);
    ProgressStart(codec, offset, |targets|);
    ServedStart(codec, targets, taken, offset, buffer.buffer.region, buffer.buffer.offset, Regions(buffer.stash));
    KeepStart(codec, channels, dropped, taken, buffer.buffer.region, buffer.buffer.offset, Regions(buffer.stash));
    while active
      invariant buffer.Valid() && fresh(buffer) && forall r :: r in buffer.Allocations() ==> fresh(r)
      invariant consumed + rest == stream && (!active ==> rest == [])
      invariant Progressed(codec, consumed, frames, buffer.Pending(), active, offset, |targets|)
      invariant AllFrames(codec, frames) && |channels| == |dropped| == |taken| == |targets|
      invariant AllServed(codec, targets, taken, frames, offset, buffer.buffer.region, buffer.buffer.offset,
                          Regions(buffer.stash))
      invariant AllKeep(codec, channels, dropped, taken, buffer.buffer.region, buffer.buffer.offset,
                        Regions(buffer.stash))
      decreases |rest| + if active then 1 else 0
    {
      channels, dropped, taken := Between(codec, buffer, targets, env, round, channels, dropped, taken, frames, offset);
      var size := env.sizes(round);
      var read := ReadSize(size, buffer.EmptyLen(), |rest|);
      if read == 0 {
        assert consumed == stream;
        NotEnded(codec, consumed, frames, buffer.Pending(), offset, |targets|);
        KeepIntact(codec, channels, dropped, taken, buffer.buffer.region, buffer.buffer.offset, Regions(buffer.stash));
        return false, channels, dropped, taken;
      }
      ghost var pending := buffer.Pending();
      var data := rest[..read];
      rest := rest[read..];
      SlabOwns(buffer);
      ReadSome(codec, buffer, targets, data, channels, dropped, taken, frames, offset);
      NotSlab(targets, buffer);
      GotNotSlab(channels, buffer);
      ghost var limit := buffer.buffer.offset;
      var stageds, outcome := Carve(codec, buffer, offset, |targets|);
      KeepLater(codec, channels, dropped, taken, buffer, limit);
      ProgressMore(codec, consumed, frames, pending, data, rest, outcome, buffer.Pending(), offset, |targets|);
      assert consumed + data + rest == stream;
      if outcome == Failed || (outcome == Ended && rest != []) {
        KeepIntact(codec, channels, dropped, taken, buffer.buffer.region, buffer.buffer.offset, Regions(buffer.stash));
        return false, channels, dropped, taken;
      }
      consumed := consumed + data;
      ServedLater(codec, targets, taken, frames, offset, buffer, limit);
      GotNotQueues(channels, targets);
      HandOver(codec, targets, stageds, taken, frames, ParseAll(codec, pending + data).frames, offset,
               buffer.buffer.region, buffer.buffer.offset, Regions(buffer.stash));
      frames := frames + ParseAll(codec, pending + data).frames;
      active := outcome == Continue;
      round := round + 1;
    }
    ok := true;
    Finished(codec, stream, frames, consumed, buffer.Pending(), targets, channels, dropped, taken, offset,
             buffer.buffer.region, buffer.buffer.offset, Regions(buffer.stash));
    KeepIntact(codec, channels, dropped, taken, buffer.buffer.region, buffer.buffer.offset, Regions(buffer.stash));
  }

  /** How many bytes a read returns: at least one, unless the stream is over. */
  function ReadSize(size: nat, empty: nat, available: nat): (read: nat)
    requires empty >= 1
    ensures read <= empty && read <= available && (read == 0 <==> available == 0)
  {
    var most := if empty < available then empty else available;
    if size == 0 || size > most then most else size
  }

  lemma FreshSlab(buffer: BytesSlab)
    requires buffer.Valid() && buffer.valid == 0 && buffer.inProgress == buffer.stash == []
    ensures buffer.Pending() == [] && buffer.Allocations() == {buffer.buffer.region}
  {
  }

  lemma SlabOwns(buffer: BytesSlab)
    ensures buffer.buffer.region in buffer.Allocations()
  {
  }

  lemma NotSlab(targets: seq<MergeQueue>, buffer: BytesSlab)
    ensures forall o :: o in QueuedRegions(targets) ==> o != buffer
    ensures forall t :: t in targets ==> (t as object) != buffer
  {
  }

  lemma ServedLater(codec: Codec, targets: seq<MergeQueue>, taken: seq<seq<byte>>, frames: seq<seq<byte>>, offset: nat,
                    buffer: BytesSlab, limit: nat)
    requires AllFrames(codec, frames) && buffer.Valid() && limit <= buffer.buffer.offset
    requires AllServed(codec, targets, taken, frames, offset, buffer.buffer.region, limit, Regions(buffer.stash))
    ensures buffer.buffer.region !in Regions(buffer.stash)
    ensures AllServed(codec, targets, taken, frames, offset, buffer.buffer.region, buffer.buffer.offset,
                      Regions(buffer.stash))
  {
    hide DeliveredTo;
    hide FramesTo;
  }

  lemma ServedStart(codec: Codec, targets: seq<MergeQueue>, taken: seq<seq<byte>>, offset: nat,
                    region: array<byte>, limit: nat, spare: set<array<byte>>)
    requires |taken| == |targets| && forall i :: 0 <= i < |targets| ==> taken[i] == [] && targets[i].queue == []
    ensures AllServed(codec, targets, taken, [], offset, region, limit, spare)
  {
    WholeNone(codec);
  }

  lemma KeepStart(codec: Codec, channels: seq<Channels>, dropped: seq<set<(nat, nat)>>, taken: seq<seq<byte>>,
                  region: array<byte>, limit: nat, spare: set<array<byte>>)
    requires |channels| == |dropped| == |taken| && forall i :: 0 <= i < |taken| ==>
              taken[i] == [] && channels[i] == map[]
    ensures AllKeep(codec, channels, dropped, taken, region, limit, spare)
  {
    WholeNone(codec);
  }

  lemma KeepIntact(codec: Codec, channels: seq<Channels>, dropped: seq<set<(nat, nat)>>, taken: seq<seq<byte>>,
                   region: array<byte>, limit: nat, spare: set<array<byte>>)
    requires AllKeep(codec, channels, dropped, taken, region, limit, spare)
    ensures forall i :: 0 <= i < |channels| ==>
              ChannelsOk(channels[i]) && Intact(codec, channels[i], dropped[i], ParseAll(codec, taken[i]).frames)
  {
    hide Intact;
    hide ParseAll;
    forall i | 0 <= i < |channels|
      ensures ChannelsOk(channels[i]) && Intact(codec, channels[i], dropped[i], ParseAll(codec, taken[i]).frames)
    {
      assert Keeps(codec, channels[i], dropped[i], taken[i], region, limit, spare);
    }
  }

  lemma KeepLater(codec: Codec, channels: seq<Channels>, dropped: seq<set<(nat, nat)>>, taken: seq<seq<byte>>,
                  buffer: BytesSlab, limit: nat)
    requires limit <= buffer.buffer.offset
    requires AllKeep(codec, channels, dropped, taken, buffer.buffer.region, limit, Regions(buffer.stash))
    ensures AllKeep(codec, channels, dropped, taken, buffer.buffer.region, buffer.buffer.offset, Regions(buffer.stash))
  {
    hide Intact;
    hide ParseAll;
    hide ChannelsOk;
    forall i | 0 <= i < |channels|
      ensures Keeps(codec, channels[i], dropped[i], taken[i], buffer.buffer.region, buffer.buffer.offset,
                    Regions(buffer.stash))
    {
      assert Keeps(codec, channels[i], dropped[i], taken[i], buffer.buffer.region, limit, Regions(buffer.stash));
    }
  }

  lemma GotNotSlab(channels: seq<Channels>, buffer: BytesSlab)
    ensures forall o :: o in GotRegions(channels) ==> o != buffer
  {
  }

  lemma GotNotQueues(channels: seq<Channels>, targets: seq<MergeQueue>)
    ensures forall o, t :: o in GotRegions(channels) && t in targets ==> o != t
  {
  }

  lemma Finished(codec: Codec, stream: seq<byte>, frames: seq<seq<byte>>, consumed: seq<byte>, pending: seq<byte>,
                 targets: seq<MergeQueue>, channels: seq<Channels>, dropped: seq<set<(nat, nat)>>,
                 taken: seq<seq<byte>>, offset: nat, region: array<byte>, limit: nat, spare: set<array<byte>>)
    requires consumed == stream && Progressed(codec, consumed, frames, pending, false, offset, |targets|)
    requires AllServed(codec, targets, taken, frames, offset, region, limit, spare)
    requires AllKeep(codec, channels, dropped, taken, region, limit, spare)
    ensures CleanStream(codec, stream, offset, |targets|) && |channels| == |targets|
    ensures forall i :: 0 <= i < |targets| ==>
              Received(codec, targets[i], channels[i], dropped[i], taken[i], ParseAll(codec, stream).frames, offset + i)
  {
    hide Intact;
    hide DeliveredTo;
    forall i | 0 <= i < |targets|
      ensures Received(codec, targets[i], channels[i], dropped[i], taken[i], ParseAll(codec, stream).frames, offset + i)
    {
      assert Served(codec, targets[i], taken[i], frames, offset + i, region, limit, spare);
      assert Keeps(codec, channels[i], dropped[i], taken[i], region, limit, spare);
    }
  }

  /** A stream is received, and each worker takes what is left for it: then the payloads that a worker has
      got for a channel are exactly those of the messages in the stream for this worker and channel, once
      each and in order, and those that it has not dropped read as they were sent. */
  method DeliverAll(codec: Codec, stream: seq<byte>, targets: seq<MergeQueue>, offset: nat, env: Environment,
                    shift: nat)
    returns (ok: bool, channels: seq<Channels>, dropped: seq<set<(nat, nat)>>)
    requires DistinctQueues(targets) && forall i :: 0 <= i < |targets| ==> targets[i].queue == []
    modifies targets
    ensures ok <==> CleanStream(codec, stream, offset, |targets|)
    ensures |channels| == |dropped| == |targets|
    ensures ok ==> forall i :: 0 <= i < |targets| ==> targets[i].queue == [] && ChannelsOk(channels[i])
    ensures ok ==> forall i :: 0 <= i < |targets| ==>
              Intact(codec, channels[i], dropped[i], FramesTo(codec, ParseAll(codec, stream).frames, offset + i))
    ensures forall ss: seq<Sending> :: LawfulCodec(codec) && AllSendable(ss) && stream == Stream(codec, ss) ==>
              && (ok <==> forall k :: 0 <= k < |ss| ==> offset <= ss[k].header.target < offset + |targets|)
              && (ok ==> forall i :: 0 <= i < |targets| ==> Arrived(channels[i], dropped[i], ss, offset + i))
  {
    hide ParseAll;
    hide CleanStream;
    hide Arrived;
    hide AllSendable;
    hide LawfulCodec;
    hide Stream;
    hide Intact;
    hide ChannelsOk;
    hide IsFrame;
    hide FramesTo;
    hide AllServed;
    hide AllKeep;
    hide Received;
    ghost var taken;
    var region := new byte[0];
    ok, channels, dropped, taken := ReceiveAll(codec, stream, targets, offset, env, shift);
    if ok {
      ghost var frames := ParseAll(codec, stream).frames;
      ReceivedApart(codec, targets, channels, dropped, taken, frames, offset, region);
      channels, taken := TakeSome(codec, targets, (i: nat) => true, channels, dropped, taken, frames, offset, region,
                                  region.Length, {});
      AllTaken(codec, targets, channels, dropped, taken, frames, offset, region, region.Length, {});
    }
    forall ss: seq<Sending> | LawfulCodec(codec) && AllSendable(ss) && stream == Stream(codec, ss)
      ensures ok <==> forall k :: 0 <= k < |ss| ==> offset <= ss[k].header.target < offset + |targets|
      ensures ok ==> forall i :: 0 <= i < |targets| ==> Arrived(channels[i], dropped[i], ss, offset + i)
    {
      StreamClean(codec, ss, offset, |targets|);
      StreamIs(codec, ss);
      if ok {
        forall i | 0 <= i < |targets| { IntactArrived(codec, channels[i], dropped[i], ss, offset + i); }
      }
    }
  }

  /** Once nothing is written any more, everything is out of reach. */
  lemma ReceivedApart(codec: Codec, targets: seq<MergeQueue>, channels: seq<Channels>, dropped: seq<set<(nat, nat)>>,
                      taken: seq<seq<byte>>, frames: seq<seq<byte>>, offset: nat, region: array<byte>)
    requires AllFrames(codec, frames) && |channels| == |dropped| == |taken| == |targets|
    requires forall i :: 0 <= i < |targets| ==>
              Received(codec, targets[i], channels[i], dropped[i], taken[i], frames, offset + i)
    ensures AllServed(codec, targets, taken, frames, offset, region, region.Length, {})
    ensures AllKeep(codec, channels, dropped, taken, region, region.Length, {})
  {
    hide Intact;
    hide DeliveredTo;
    forall i | 0 <= i < |targets|
      ensures Served(codec, targets[i], taken[i], frames, offset + i, region, region.Length, {})
      ensures Keeps(codec, channels[i], dropped[i], taken[i], region, region.Length, {})
    {
      assert Received(codec, targets[i], channels[i], dropped[i], taken[i], frames, offset + i);
    }
  }

  /** Workers that have nothing queued have taken all messages to them. */
  lemma AllTaken(codec: Codec, targets: seq<MergeQueue>, channels: seq<Channels>, dropped: seq<set<(nat, nat)>>,
                 taken: seq<seq<byte>>, frames: seq<seq<byte>>, offset: nat, region: array<byte>, limit: nat,
                 spare: set<array<byte>>)
    requires AllFrames(codec, frames) && |channels| == |targets| && forall i :: 0 <= i < |targets| ==>
              targets[i].queue == []
    requires AllServed(codec, targets, taken, frames, offset, region, limit, spare)
    requires AllKeep(codec, channels, dropped, taken, region, limit, spare)
    ensures forall i :: 0 <= i < |targets| ==>
              ChannelsOk(channels[i]) && Intact(codec, channels[i], dropped[i], FramesTo(codec, frames, offset + i))
  {
    hide Intact;
    hide ChannelsOk;
    hide ParseAll;
    hide FramesTo;
    hide IsFrame;
    forall i | 0 <= i < |targets|
      ensures ChannelsOk(channels[i]) && Intact(codec, channels[i], dropped[i], FramesTo(codec, frames, offset + i))
    {
      assert Served(codec, targets[i], taken[i], frames, offset + i, region, limit, spare);
      assert Keeps(codec, channels[i], dropped[i], taken[i], region, limit, spare);
      var all := FramesTo(codec, frames, offset + i);
      assert taken[i] + [] == Flatten(all) + [] == Flatten(all) == taken[i];
      ParseFrames(codec, all, []);
      WholeNone(codec);
      assert all + [] == all;
    }
  }

  /** A worker that has dropped nothing has just the payloads of its messages queued for each channel. */
  lemma NothingDropped(codec: Codec, channels: Channels, frames: seq<seq<byte>>, c: nat)
    requires AllFrames(codec, frames) && ChannelsOk(channels) && Intact(codec, channels, {}, frames)
    ensures Waiting(channels, c) == PayloadsFor(codec, frames, c)
    ensures forall ss :: LawfulCodec(codec) && AllSendable(ss) && frames == Framed(codec, ss) ==>
              Waiting(channels, c) == On(ss, c)
  {
    hide PayloadsFor;
    hide IsFrame;
    hide LawfulCodec;
    hide AllSendable;
    hide Framed;
    forall ss | LawfulCodec(codec) && AllSendable(ss) && frames == Framed(codec, ss)
      ensures PayloadsFor(codec, frames, c) == On(ss, c)
    {
      FramedOn(codec, ss, c);
    }
    var bs, ps := Got(channels, c), PayloadsFor(codec, frames, c);
    assert IntactFor(bs, {}, c, ps);
    forall k | 0 <= k < |bs| ensures Texts(bs)[k] == ps[k] { assert Reads(bs[k], ps[k]); }
  }
}
