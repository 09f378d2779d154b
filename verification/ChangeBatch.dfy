/** A lazily compacted batch of signed updates. */
module ChangeBatches {
  import opened Basics
  import opened Updates

  /** A compact prefix: distinct keys, and no zero delta unless the prefix is a single entry. */
  ghost predicate CompactPrefix<K(!new)>(us: seq<Update<K>>) {
    && (forall a, b :: 0 <= a < b < |us| ==> us[a].0 != us[b].0)
    && (|us| != 1 ==> forall a :: 0 <= a < |us| ==> us[a].1 != 0)
  }

  /** The one representation compaction leaves alone although it accumulates to nothing. */
  predicate LoneZero<K>(us: seq<Update<K>>) {
    |us| == 1 && us[0].1 == 0
  }

  /** A batch that does not count as empty. */
  ghost predicate Buffered<K(!new)>(us: seq<Update<K>>) {
    !AllZero(us) || LoneZero(us)
  }

  /** No update is by zero. */
  predicate NoZeros<K>(us: seq<Update<K>>) {
    forall a :: 0 <= a < |us| ==> us[a].1 != 0
  }

  lemma {:induction false} DistinctKeysCount<K>(us: seq<Update<K>>)
    requires forall a, b :: 0 <= a < b < |us| ==> us[a].0 != us[b].0
    ensures |Keys(us)| == |us|
  {
    if us != [] {
      DistinctKeysCount(us[1..]);
      assert us == [us[0]] + us[1..];
      assert Keys(us) == {us[0].0} + Keys(us[1..]);
      assert us[0].0 !in Keys(us[1..]);
    }
  }

  lemma {:induction false} KeysCount<K>(us: seq<Update<K>>)
    ensures |Keys(us)| <= |us|
  {
    if us != [] {
      KeysCount(us[1..]);
      assert us == [us[0]] + us[1..];
      assert Keys(us) == {us[0].0} + Keys(us[1..]);
    }
  }

  /** The pigeonhole behind the shortcut of `IsEmpty`: fewer dirty entries than distinct non-zero
      clean ones cannot cancel them all. */
  lemma Pigeonhole<K(!new)>(clean: seq<Update<K>>, dirty: seq<Update<K>>)
    requires forall a, b :: 0 <= a < b < |clean| ==> clean[a].0 != clean[b].0
    requires forall a :: 0 <= a < |clean| ==> clean[a].1 != 0
    requires |dirty| < |clean|
    ensures !AllZero(clean + dirty)
  {
    if AllZero(clean + dirty) {
      forall k | k in Keys(clean) ensures k in Keys(dirty) {
        var u :| u in clean && u.0 == k;
        var i :| 0 <= i < |clean| && clean[i] == u;
        TallyDistinct(clean, i);
        TallyAppend(clean, dirty, k);
        TallyListed(dirty, k);
      }
      DistinctKeysCount(clean);
      KeysCount(dirty);
      SubsetSize(Keys(clean), Keys(dirty));
    }
  }

  lemma CompactNonempty<K(!new)>(us: seq<Update<K>>)
    requires forall a, b :: 0 <= a < b < |us| ==> us[a].0 != us[b].0
    requires |us| > 0 && us[0].1 != 0
    ensures !AllZero(us)
  {
    TallyDistinct(us, 0);
  }

  class ChangeBatch<K(==,!new)> {
    const lt: (K, K) -> bool         // the key order used for sorting
    var updates: seq<Update<K>>      // updates, appended in arrival order
    var clean: nat                   // the length of the prefix known to be compact
    ghost var nonzero: bool          // no update by zero was added since the batch was last emptied

    ghost predicate Valid()
      reads this
    {
      && StrictTotal(lt)
      && clean <= |updates|
      && CompactPrefix(updates[..clean])
      && (nonzero ==> NoZeros(updates))
    }

    constructor (lt: (K, K) -> bool)
      requires StrictTotal(lt)
      ensures Valid() && updates == [] && nonzero && this.lt == lt
    {
      this.lt := lt;
      updates := [];
      clean := 0;
      nonzero := true;
    }

    method Update(item: K, value: int)
      requires Valid()
      modifies this
      ensures Valid()
      ensures SameTally(updates, old(updates) + [(item, value)])
      ensures Keys(updates) <= Keys(old(updates)) + {item}
      ensures LoneZero(updates) ==> value == 0 && old(updates) == []
      ensures updates != [] || old(updates) != []
      ensures |old(updates)| < 32 ==> updates == old(updates) + [(item, value)]
      ensures nonzero == (old(nonzero) && value != 0)
    {
      nonzero := nonzero && value != 0;
      updates := updates + [(item, value)];
      assert updates[..clean] == old(updates)[..clean];
      MaintainBounds();
    }

    method Extend(items: seq<Update<K>>)
      requires Valid()
      modifies this
      ensures Valid()
      ensures SameTally(updates, old(updates) + items)
      ensures LoneZero(updates) ==> LoneZero(old(updates) + items)
      ensures nonzero == (old(nonzero) && NoZeros(items))
    {
      nonzero := nonzero && NoZeros(items);
      updates := updates + items;
      assert updates[..clean] == old(updates)[..clean];
      MaintainBounds();
    }

    /** Compacts, and hands out all updates: at most one per key. */
    method Drain() returns (drained: seq<Update<K>>)
      requires Valid()
      modifies this
      ensures Valid() && updates == [] && nonzero
      ensures SameTally(drained, old(updates)) && Keys(drained) <= Keys(old(updates))
      ensures forall a, b :: 0 <= a < b < |drained| ==> drained[a].0 != drained[b].0
      ensures !LoneZero(old(updates)) ==> forall a :: 0 <= a < |drained| ==> drained[a].1 != 0
      ensures LoneZero(old(updates)) ==> drained == old(updates)
      ensures old(nonzero) ==> NoZeros(drained)
    {
      Compact();
      clean := 0;
      drained := updates;
      assert updates[..|updates|] == updates;
      updates := [];
      nonzero := true;
    }

    method Clear()
      requires Valid()
      modifies this
      ensures Valid() && updates == [] && nonzero
    {
      updates := [];
      clean := 0;
      nonzero := true;
    }

    /** True exactly when every key accumulates to zero, except for the lone zero entry; and without
        exception when no update by zero was added. */
    method IsEmpty() returns (empty: bool)
      requires Valid()
      modifies this
      ensures Valid() && SameTally(updates, old(updates)) && Keys(updates) <= Keys(old(updates))
      ensures empty <==> AllZero(old(updates)) && !LoneZero(old(updates))
      ensures nonzero == old(nonzero) && (nonzero ==> (empty <==> AllZero(old(updates))))
      ensures empty ==> updates == []
      ensures LoneZero(updates) ==> LoneZero(old(updates))
      ensures old(clean) == |old(updates)| ==> updates == old(updates)
    {
      if clean > |updates| / 2 {
        empty := false;
        if !LoneZero(updates) {
          assert updates[..clean] + updates[clean..] == updates;
          forall a | 0 <= a < clean ensures updates[..clean][a].1 != 0 {}
          Pigeonhole(updates[..clean], updates[clean..]);
        }
      } else {
        Compact();
        empty := updates == [];
        assert updates[..|updates|] == updates;
        if updates != [] && updates[0].1 != 0 {
          CompactNonempty(updates);
        }
      }
    }

    method DrainInto(other: ChangeBatch<K>)
      requires Valid() && other.Valid() && other != this
      modifies this, other
      ensures Valid() && other.Valid()
      ensures updates == [] && nonzero && other.nonzero == (old(other.nonzero) && old(nonzero))
      ensures SameTally(other.updates, old(other.updates) + old(updates))
      ensures LoneZero(other.updates) ==> LoneZero(old(other.updates) + old(updates))
    {
      ghost var both := other.nonzero && nonzero;
      if other.updates == [] {
        assert other.updates + updates == updates;
        var us, c := updates, clean;
        updates, clean := other.updates, other.clean;
        other.updates, other.clean := us, c;
      } else {
        other.Extend(updates);
        updates := [];
        clean := 0;
      }
      nonzero, other.nonzero := true, both;
    }

    /** Sorts, adds up neighbours with equal keys, and drops zeros. */
    method Compact()
      requires Valid()
      modifies this
      ensures Valid() && clean == |updates| && nonzero == old(nonzero)
      ensures SameTally(updates, old(updates)) && Keys(updates) <= Keys(old(updates))
      ensures LoneZero(updates) ==> updates == old(updates)
      ensures old(updates) == [] ==> updates == []
      ensures |old(updates)| > 1 ==> forall a :: 0 <= a < |updates| ==> updates[a].1 != 0
      ensures |old(updates)| <= 1 || old(clean) == |old(updates)| ==> updates == old(updates)
    {
      if clean < |updates| && |updates| > 1 {
        SortBySorted(lt, updates);
        updates := SortBy(lt, updates);
        var n := |updates|;
        for i := 0 to n - 1
          modifies this
          invariant |updates| == n && clean == old(clean) && nonzero == old(nonzero)
          invariant SameTally(updates, old(updates))
          invariant SortedKeys(lt, updates) && Keys(updates) <= Keys(old(updates))
          invariant forall j :: 0 <= j < i && updates[j].1 != 0 ==> updates[j].0 != updates[j + 1].0
        {
          if updates[i].0 == updates[i + 1].0 {
            MergeNeighbours(updates, i);
            MergeKeys(updates, i);
            updates := updates[i + 1 := (updates[i + 1].0, updates[i + 1].1 + updates[i].1)];
            updates := updates[i := (updates[i].0, 0)];
          }
        }
        forall a, b | 0 <= a < b < n && updates[a].1 != 0 && updates[b].1 != 0
          ensures lt(updates[a].0, updates[b].0)
        {
          assert updates[a].0 != updates[a + 1].0;
        }
        RetainStrict(lt, updates);
        forall k ensures Tally(Retain(updates), k) == Tally(updates, k) { RetainTally(updates, k); }
        updates := Retain(updates);
        forall a | 0 <= a < |updates| ensures updates[a].1 != 0 { assert updates[a] in updates; }
      }
      clean := |updates|;
      assert updates[..clean] == updates;
    }

    method MaintainBounds()
      requires Valid()
      modifies this
      ensures Valid() && nonzero == old(nonzero)
      ensures SameTally(updates, old(updates)) && Keys(updates) <= Keys(old(updates))
      ensures LoneZero(updates) ==> updates == old(updates)
      ensures |old(updates)| <= 32 ==> updates == old(updates)
      ensures |old(updates)| > 32 && |old(updates)| / 2 >= old(clean) ==> clean == |updates|
    {
      if |updates| > 32 && |updates| / 2 >= clean {
        Compact();
      }
    }
  }

  /** The exception is real: after a single update by zero nothing has accumulated, yet the batch does
      not report itself empty. */
  method ZeroUpdateNotEmpty<K(==,!new)>(lt: (K, K) -> bool, key: K) returns (empty: bool)
    requires StrictTotal(lt)
    ensures AllZero([(key, 0)]) && !empty
  {
    var batch := new ChangeBatch<K>(lt);
    batch.Update(key, 0);
    assert [] + [(key, 0)] == [(key, 0)] && LoneZero([(key, 0)]);
    empty := batch.IsEmpty();
    forall k ensures Tally([(key, 0)], k) == 0 { assert [(key, 0)][1..] == []; }
  }

  lemma MergeNeighbours<K(!new)>(us: seq<Update<K>>, i: nat)
    requires i + 1 < |us| && us[i].0 == us[i + 1].0
    ensures SameTally(us[i + 1 := (us[i + 1].0, us[i + 1].1 + us[i].1)][i := (us[i].0, 0)], us)
  {
    var vs := us[i + 1 := (us[i + 1].0, us[i + 1].1 + us[i].1)];
    forall k ensures Tally(vs[i := (us[i].0, 0)], k) == Tally(us, k) {
      TallySet(us, i + 1, us[i + 1].1 + us[i].1, k);
      TallySet(vs, i, 0, k);
    }
  }

  lemma MergeKeys<K(!new)>(us: seq<Update<K>>, i: nat)
    requires i + 1 < |us| && us[i].0 == us[i + 1].0
    ensures Keys(us[i + 1 := (us[i + 1].0, us[i + 1].1 + us[i].1)][i := (us[i].0, 0)]) <= Keys(us)
  {
    var vs := us[i + 1 := (us[i + 1].0, us[i + 1].1 + us[i].1)][i := (us[i].0, 0)];
    forall k | k in Keys(vs) ensures k in Keys(us) {
      var j :| 0 <= j < |vs| && vs[j].0 == k;
      assert us[j] in us;
    }
  }
}
