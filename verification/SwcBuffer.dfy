/** Staging of elements in 256 lanes of one cache line each, all in one array that is drained lane by
    lane into buckets or vectors. */
module SwcBuffers {
  import opened StableSorts
  import opened Buffers

  /** Lanes do not overlap. */
  lemma {:induction false} LanesApart(line: nat, b: nat, c: nat)
    requires b < c
    ensures line * b + line <= line * c
  {
    NextLane(line, c - 1);
    if b < c - 1 {
      LanesApart(line, b, c - 1);
    }
  }

  lemma NextLane(line: nat, c: nat)
    ensures line * (c + 1) == line * c + line
  {
  }

  lemma LaneInside(line: nat, c: nat)
    requires c < 256
    ensures line * c + line <= 256 * line
  {
  }

  class SwcBuffer<T(0)> {
    const line: nat                  // elements per cache line
    const staged: array<T>           // the lanes, one after the other
    const counts: array<nat>         // the elements staged in each lane, a byte each

    ghost predicate Valid()
      reads this, counts
    {
      && 0 < line < 256
      && staged.Length == 256 * line && counts.Length == 256
      && (staged as object) != counts
      && (forall c :: 0 <= c < 256 ==> counts[c] <= line)
    }

    constructor (line: nat)
      requires 0 < line < 256
      ensures Valid() && fresh(staged) && fresh(counts) && this.line == line
      ensures Lanes() == seq(256, c => [])
    {
      this.line := line;
      staged := new T[256 * line];
      counts := new nat[256](_ => 0);
      new;
      forall c | 0 <= c < 256 ensures Lane(c) == [] { LaneInside(line, c); }
    }

    ghost function Lane(c: nat): (lane: seq<T>)
      requires Valid() && c < 256
      reads this, counts, staged
      ensures |lane| == counts[c]
    {
      LaneInside(line, c);
      staged[line * c..line * c + counts[c]]
    }

    /** The elements staged in each lane. */
    ghost function Lanes(): (lanes: seq<seq<T>>)
      requires Valid()
      reads this, counts, staged
      ensures |lanes| == 256 && forall c :: 0 <= c < 256 ==> |lanes[c]| == counts[c] <= line
    {
      seq(256, c requires 0 <= c < 256 && Valid() reads this, counts, staged => Lane(c))
    }

    predicate Full(c: nat)
      requires c < counts.Length
      reads this, counts
    {
      counts[c] == line
    }

    method Slice(c: nat) returns (lane: seq<T>)
      requires Valid() && c < 256
      ensures lane == Lanes()[c]
    {
      LaneInside(line, c);
      lane := staged[line * c..line * c + counts[c]];
    }

    /** Writes an element behind those of its lane. */
    method Write(x: T, c: nat)
      requires Valid() && c < 256 && !Full(c)
      modifies staged, counts
      ensures Valid() && Lane(c) == old(Lane(c)) + [x]
      ensures forall e :: 0 <= e < 256 && e != c ==> Lane(e) == old(Lane(e))
    {
      LaneInside(line, c);
      var at := line * c + counts[c];
      staged[at] := x;
      counts[c] := counts[c] + 1;
      forall e | 0 <= e < 256 && e != c ensures Lane(e) == old(Lane(e)) {
        if e < c { LanesApart(line, e, c); } else { LanesApart(line, c, e); }
        LaneInside(line, e);
      }
      assert staged[line * c..at] == old(staged[line * c..at]);
    }

    method Push(x: T, c: nat)
      requires Valid() && c < 256 && !Full(c)
      modifies staged, counts
      ensures Valid() && Lanes() == old(Lanes())[c := old(Lanes())[c] + [x]]
    {
      hide Lane;
      Write(x, c);
    }

    method Clear(c: nat)
      requires Valid() && c < 256
      modifies counts
      ensures Valid() && Lanes() == old(Lanes())[c := []]
    {
      counts[c] := 0;
      forall e | 0 <= e < 256 && e != c ensures Lane(e) == old(Lane(e)) {}
    }

    /** Moves a lane to the end of a bucket. */
    method DrainInto(c: nat, batch: Batched<T>, stash: Stash<T>) returns (batch': Batched<T>)
      requires Valid() && c < 256 && stash.Valid() && stash.line == line
      requires Kept(batch, line) && Aligned(batch, line)
      requires (stash as object) != staged && (stash as object) != counts
      modifies counts, stash
      ensures Valid() && stash.Valid() && Kept(batch', line)
      ensures Spelled(batch') == Spelled(batch) + old(Lanes()[c]) && Lanes() == old(Lanes())[c := []]
      ensures old(Full(c)) ==> Aligned(batch', line)
      ensures old(Lanes()[c]) == [] ==> batch' == batch
    {
      batch' := batch;
      if counts[c] > 0 {
        var lane := Slice(c);
        batch' := PushAll(batch, lane, stash);
        Clear(c);
      }
    }

    /** Moves a lane to the end of a vector that has room for it. */
    method DrainIntoVec(c: nat, batch: Buffer<T>) returns (batch': Buffer<T>)
      requires Valid() && c < 256 && |batch.items| + |Lanes()[c]| <= batch.capacity
      modifies counts
      ensures Valid() && Lanes() == old(Lanes())[c := []]
      ensures batch' == Buffer(batch.items + old(Lanes()[c]), batch.capacity)
    {
      var lane := Slice(c);
      batch' := batch;
      assert batch.items + lane[..0] == batch.items;
      for i := 0 to counts[c]
        modifies {}
        invariant batch' == Buffer(batch.items + lane[..i], batch.capacity)
      {
        LaneInside(line, c);
        assert staged[line * c + i] == lane[i];
        assert lane[..i + 1] == lane[..i] + [lane[i]];
        batch' := Buffer(batch'.items + [staged[line * c + i]], batch.capacity);
      }
      assert lane[..|lane|] == lane;
      Clear(c);
    }
  }
}
