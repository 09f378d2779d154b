/** Slices of shared allocations. */
module SharedBytes {
  import opened Basics
  import opened Timestamps
  import opened Frames

  /** A slice of an allocation; slices of one allocation can be split and merged without copying. */
  datatype Bytes = Bytes(region: array<byte>, offset: nat, len: nat)

  ghost predicate InRegion(b: Bytes) {
    b.offset + b.len <= b.region.Length
  }

  ghost function Content(b: Bytes): (s: seq<byte>)
    requires InRegion(b)
    reads b.region
    ensures |s| == b.len
  {
    b.region[b.offset..b.offset + b.len]
  }

  /** A slice in terms of all that comes before some limit. */
  lemma ContentWithin(b: Bytes, limit: nat)
    requires InRegion(b) && b.offset + b.len <= limit <= b.region.Length
    ensures Content(b) == b.region[..limit][b.offset..b.offset + b.len]
  {
  }

  function Whole(region: array<byte>): Bytes {
    Bytes(region, 0, region.Length)
  }

  /** Splits off the first `index` bytes. */
  method ExtractTo(b: Bytes, index: nat) returns (front: Bytes, rest: Bytes)
    requires InRegion(b) && index <= b.len
    ensures InRegion(front) && InRegion(rest) && front.region == rest.region == b.region
    ensures front.len == index && Content(front) + Content(rest) == Content(b)
    ensures front.offset == b.offset && rest.offset == b.offset + index && rest.len == b.len - index
  {
    front := Bytes(b.region, b.offset, index);
    rest := Bytes(b.region, b.offset + index, b.len - index);
  }

  /** Joins a slice with the one that follows it in the same allocation. */
  method TryMerge(b: Bytes, other: Bytes) returns (merged: Option<Bytes>)
    requires InRegion(b) && InRegion(other)
    ensures merged.Some? <==> b.region == other.region && b.offset + b.len == other.offset
    ensures merged.Some? ==> merged.value.region == b.region && InRegion(merged.value)
    ensures merged.Some? ==> merged.value.offset + merged.value.len == other.offset + other.len
    ensures merged.Some? ==> Content(merged.value) == Content(b) + Content(other)
  {
    if b.region == other.region && b.offset + b.len == other.offset {
      merged := Some(b.(len := b.len + other.len));
    } else {
      merged := None;
    }
  }

  /** The whole allocation again, if nobody else holds a slice of it. */
  method TryRegenerate(b: Bytes, held: set<array<byte>>) returns (regenerated: Option<Bytes>)
    ensures regenerated.None? <==> b.region in held
    ensures regenerated.Some? ==> regenerated.value.region == b.region && regenerated.value.len == b.region.Length
    ensures regenerated.Some? ==> InRegion(regenerated.value) && Content(regenerated.value) == b.region[..]
  {
    regenerated := if b.region in held then None else Some(Whole(b.region));
  }

  /** The allocations of some slices. */
  function Regions(bs: seq<Bytes>): set<array<byte>> {
    set b | b in bs :: b.region
  }

  /** Whole allocations of one size, all different. */
  ghost predicate Spares(bs: seq<Bytes>, size: nat) {
    && (forall i :: 0 <= i < |bs| ==> bs[i] == Whole(bs[i].region) && bs[i].region.Length == size)
    && (forall i, j :: 0 <= i < j < |bs| ==> bs[i].region != bs[j].region)
  }

  /** Retired slices: their allocations have one size, and are all different. */
  ghost predicate Retired(bs: seq<Bytes>, size: nat) {
    && (forall i :: 0 <= i < |bs| ==> bs[i].region.Length == size)
    && (forall i, j :: 0 <= i < j < |bs| ==> bs[i].region != bs[j].region)
  }

  /** A large allocation that is written front to back, and shared as it is written. */
  class BytesSlab {
    var buffer: Bytes                 // the current working buffer
    var inProgress: seq<Bytes>        // buffers shared with others
    var stash: seq<Bytes>             // reclaimed buffers
    var shift: nat                    // the size of allocations, as a power of two
    var valid: nat                    // how many bytes of the buffer are valid

    ghost function Allocations(): set<array<byte>>
      reads this
    {
      {buffer.region} + Regions(inProgress) + Regions(stash)
    }

    ghost predicate Valid()
      reads this
    {
      && InRegion(buffer) && valid <= buffer.len
      && buffer.offset + buffer.len == buffer.region.Length == Pow2(shift)
      && Spares(stash, Pow2(shift)) && Retired(inProgress, Pow2(shift))
      && buffer.region !in Regions(inProgress) && buffer.region !in Regions(stash)
      && Regions(inProgress) !! Regions(stash)
    }

    /** The valid bytes not extracted yet. */
    ghost function Pending(): (s: seq<byte>)
      requires Valid()
      reads this, buffer.region
      ensures |s| == valid
    {
      buffer.region[buffer.offset..buffer.offset + valid]
    }

    constructor (shift: nat)
      ensures Valid() && valid == 0 && this.shift == shift
      ensures fresh(buffer.region) && inProgress == stash == []
    {
      var region := new byte[Pow2(shift)](_ => 0);
      buffer := Whole(region);
      inProgress, stash := [], [];
      this.shift := shift;
      valid := 0;
    }

    /** The room left in the buffer. */
    function EmptyLen(): nat
      requires valid <= buffer.len
      reads this
    {
      buffer.len - valid
    }

    method ValidBytes() returns (s: seq<byte>)
      requires Valid()
      ensures s == Pending()
    {
      s := buffer.region[buffer.offset..buffer.offset + valid];
    }

    /** Writes at the front of the empty part of the buffer: nothing before it changes. */
    method Write(data: seq<byte>)
      requires Valid() && |data| <= EmptyLen()
      modifies buffer.region
      ensures Valid() && Pending() == old(Pending())
      ensures buffer.region[..buffer.offset + valid] == old(buffer.region[..buffer.offset + valid])
      ensures buffer.region[buffer.offset + valid..buffer.offset + valid + |data|] == data
    {
      var start, region := buffer.offset + valid, buffer.region;
      for i := 0 to |data|
        invariant region[..start] == old(region[..start])
        invariant region[start..start + i] == data[..i]
      {
        region[start + i] := data[i];
        assert region[start..start + i + 1] == region[start..start + i] + [data[i]];
      }
    }

    method MakeValid(bytes: nat)
      requires Valid() && bytes <= EmptyLen()
      modifies this`valid
      ensures Valid() && valid == old(valid) + bytes
      ensures Pending() == old(Pending()) + buffer.region[buffer.offset + old(valid)..buffer.offset + valid]
    {
      valid := valid + bytes;
    }

    /** Writes behind the valid bytes, and makes what was written valid. */
    method Append(data: seq<byte>)
      requires Valid() && |data| <= EmptyLen()
      modifies this`valid, buffer.region
      ensures Valid() && Pending() == old(Pending()) + data && Allocations() == old(Allocations())
      ensures buffer.offset <= buffer.region.Length
      ensures buffer.region[..buffer.offset] == old(buffer.region[..buffer.offset])
    {
      var region, limit := buffer.region, buffer.offset;
      Write(data);
      assert region[..limit] == region[..limit + valid][..limit];
      MakeValid(|data|);
    }

    /** Hands out the first `bytes` valid bytes, without copying. */
    method Extract(bytes: nat) returns (front: Bytes)
      requires Valid() && bytes <= valid
      modifies this`buffer, this`valid
      ensures Valid() && InRegion(front) && front.len == bytes && valid == old(valid) - bytes
      ensures Content(front) == old(Pending())[..bytes] && Pending() == old(Pending())[bytes..]
      ensures front.region == buffer.region == old(buffer.region)
      ensures front.offset == old(buffer.offset) && front.offset + front.len == buffer.offset
    {
      hide Spares;
      hide Retired;
      hide Regions;
      hide Pow2;
      ghost var text, start, pending := buffer.region[..], buffer.offset, Pending();
      SplitSlice(text, start, bytes, valid);
      assert pending == text[start..start + valid];
      valid := valid - bytes;
      front, buffer := ExtractTo(buffer, bytes);
      assert Content(front) == text[start..start + bytes] == pending[..bytes];
      assert Pending() == text[start + bytes..start + bytes + valid] == pending[bytes..];
    }

    /** Doubles the size of allocations until `capacity` more bytes fit, giving up those of the old size. */
    method GrowShift(capacity: nat) returns (increased: bool)
      requires Valid()
      modifies this`shift, this`stash, this`inProgress
      ensures valid + capacity <= Pow2(shift)
      ensures increased <==> shift > old(shift)
      ensures increased ==> Pow2(shift - 1) < valid + capacity
      ensures Spares(stash, Pow2(shift)) && Retired(inProgress, Pow2(shift))
      ensures increased ==> stash == inProgress == []
      ensures !increased ==> shift == old(shift) && stash == old(stash) && inProgress == old(inProgress)
    {
      increased := false;
      while valid + capacity > Pow2(shift)
        invariant Spares(stash, Pow2(shift)) && Retired(inProgress, Pow2(shift))
        invariant shift >= old(shift) && (increased <==> shift > old(shift))
        invariant increased ==> Pow2(shift - 1) < valid + capacity
        invariant increased ==> stash == inProgress == []
        invariant !increased ==> shift == old(shift) && stash == old(stash) && inProgress == old(inProgress)
        decreases valid + capacity - Pow2(shift)
      {
        assert Pow2(shift + 1) == 2 * Pow2(shift);
        shift := shift + 1;
        stash := [];
        inProgress := [];
        increased := true;
      }
    }

    /** A buffer of the current size that nobody holds: a reclaimed one, or a new one. */
    method TakeSpare(held: set<array<byte>>) returns (spare: Bytes)
      requires Spares(stash, Pow2(shift)) && Retired(inProgress, Pow2(shift)) && Regions(stash) !! held
      requires Regions(inProgress) !! Regions(stash)
      modifies this`stash, this`inProgress
      ensures Spares(stash, Pow2(shift)) && Retired(inProgress, Pow2(shift)) && Regions(stash) !! held
      ensures Regions(inProgress) !! Regions(stash)
      ensures Regions(inProgress) + Regions(stash) <= old(Regions(inProgress) + Regions(stash))
      ensures spare == Whole(spare.region) && spare.region.Length == Pow2(shift) && spare.region !in held
      ensures spare.region !in Regions(inProgress) + Regions(stash)
      ensures spare.region in old(Regions(inProgress) + Regions(stash)) || fresh(spare.region)
    {
      if stash == [] {
        inProgress, stash := Reclaim(inProgress, Pow2(shift), held);
      }
      if stash != [] {
        spare := stash[|stash| - 1];
        StashPop(stash);
        stash := stash[..|stash| - 1];
      } else {
        var region := new byte[Pow2(shift)](_ => 0);
        spare := Whole(region);
      }
    }

    /** Makes room for `capacity` bytes, moving the pending ones to another buffer if necessary. `held`
        tells whose allocations others hold slices of: these are left alone. */
    method EnsureCapacity(capacity: nat, held: set<array<byte>>)
      requires Valid() && Regions(stash) !! held
      modifies this, Allocations()
      ensures Valid() && EmptyLen() >= capacity && Pending() == old(Pending()) && valid == old(valid)
      ensures Regions(stash) !! held && forall r :: r in Allocations() ==> r in old(Allocations()) || fresh(r)
      ensures buffer.region == old(buffer.region) ==> buffer.offset == old(buffer.offset)
      ensures buffer.region != old(buffer.region) ==> buffer.region !in held
      ensures forall r :: r in held || r == old(buffer.region) ==> r[..] == old(r[..])
    {
      if EmptyLen() < capacity {
        hide Spares;
        hide Retired;
        hide Regions;
        NoRegions();
        var increased := GrowShift(capacity);
        var spare := TakeSpare(held);
        assert spare.offset == 0 && spare.len == spare.region.Length;
        hide Whole;
        var retired := buffer;
        ghost var pending := buffer.region[buffer.offset..buffer.offset + valid];
        buffer := spare;
        if !increased {
          RegionsLast(inProgress, retired);
          RetireOne(inProgress, Pow2(shift), retired);
          inProgress := inProgress + [retired];
        }
        Copy(retired, valid, spare);
        assert retired.region[..] == old(retired.region[..]);
        assert Pending() == pending;
      }
    }
  }

  lemma SplitSlice<T>(s: seq<T>, start: nat, n: nat, len: nat)
    requires n <= len && start + len <= |s|
    ensures s[start..start + len][..n] == s[start..start + n] && s[start..start + len][n..] == s[start + n..start + len]
  {
  }

  method Copy(from: Bytes, n: nat, to: Bytes)
    requires InRegion(from) && n <= from.len && to.offset == 0 && n <= to.region.Length && from.region != to.region
    modifies to.region
    ensures to.region[..n] == from.region[from.offset..from.offset + n]
  {
    forall i | 0 <= i < n {
      to.region[i] := from.region[from.offset + i];
    }
  }

  lemma NoRegions()
    ensures Regions([]) == {}
  {
  }

  lemma RetireOne(bs: seq<Bytes>, size: nat, b: Bytes)
    requires Retired(bs, size) && b.region.Length == size && b.region !in Regions(bs)
    ensures Retired(bs + [b], size)
  {
    RetireMore(bs, size, b);
  }

  lemma RegionsLast(bs: seq<Bytes>, b: Bytes)
    ensures Regions(bs + [b]) == Regions(bs) + {b.region}
  {
    forall x ensures x in bs + [b] <==> x in bs || x == b {}
    assert forall r :: r in Regions(bs + [b]) <==> exists x :: x in bs + [b] && x.region == r;
  }

  lemma StashPop(bs: seq<Bytes>)
    requires bs != []
    ensures Regions(bs[..|bs| - 1]) <= Regions(bs) && bs[|bs| - 1].region in Regions(bs)
    ensures (forall i, j :: 0 <= i < j < |bs| ==> bs[i].region != bs[j].region) ==>
              bs[|bs| - 1].region !in Regions(bs[..|bs| - 1])
  {
    var rest, last := bs[..|bs| - 1], bs[|bs| - 1];
    assert bs == rest + [last];
    RegionsLast(rest, last);
    assert forall b :: b in rest ==> exists i :: 0 <= i < |bs| - 1 && bs[i] == b;
  }

  /** Reclaims retired buffers that nobody else holds. */
  method Reclaim(inProgress: seq<Bytes>, size: nat, held: set<array<byte>>)
    returns (kept: seq<Bytes>, stash: seq<Bytes>)
    requires Retired(inProgress, size)
    ensures Retired(kept, size) && Spares(stash, size)
    ensures Regions(kept) + Regions(stash) == Regions(inProgress) && Regions(kept) !! Regions(stash)
    ensures Regions(kept) <= held && Regions(stash) !! held
  {
    kept, stash := [], [];
    assert inProgress[..0] == [];
    for i := 0 to |inProgress|
      invariant Retired(kept, size) && Spares(stash, size)
      invariant Regions(kept) + Regions(stash) == Regions(inProgress[..i]) && Regions(kept) !! Regions(stash)
      invariant Regions(kept) <= held && Regions(stash) !! held
    {
      var shared := inProgress[i];
      NewRegion(inProgress, size, i);
      RegionsLast(kept, shared);
      RegionsLast(stash, Whole(shared.region));
      var regenerated := TryRegenerate(shared, held);
      if regenerated.Some? {
        assert regenerated.value.len == size;
        if regenerated.value.len == size {
          RetireMore(stash, size, regenerated.value);
          stash := stash + [regenerated.value];
        }
      } else {
        RetireMore(kept, size, shared);
        kept := kept + [shared];
      }
    }
    assert inProgress[..|inProgress|] == inProgress;
  }

  lemma NewRegion(bs: seq<Bytes>, size: nat, i: nat)
    requires Retired(bs, size) && i < |bs|
    ensures Regions(bs[..i + 1]) == Regions(bs[..i]) + {bs[i].region} && bs[i].region !in Regions(bs[..i])
  {
    assert bs[..i + 1] == bs[..i] + [bs[i]];
    RegionsLast(bs[..i], bs[i]);
    assert forall b :: b in bs[..i] ==> exists j :: 0 <= j < i && bs[j] == b;
  }

  lemma RetireMore(bs: seq<Bytes>, size: nat, b: Bytes)
    requires (forall i, j :: 0 <= i < j < |bs| ==> bs[i].region != bs[j].region) && b.region !in Regions(bs)
    ensures forall i, j :: 0 <= i < j < |bs + [b]| ==> (bs + [b])[i].region != (bs + [b])[j].region
  {
    forall i | 0 <= i < |bs| ensures bs[i].region in Regions(bs) { assert bs[i] in bs; }
  }
}
