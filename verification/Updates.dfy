/** Signed updates: sequences of (key, delta) pairs, read as the sum of deltas per key. Sorting by key and
    dropping zeros, as the library does. */
module Updates {

  type Update<K> = (K, int)

  /** The accumulated delta of `k`. */
  function Tally<K(==)>(us: seq<Update<K>>, k: K): int {
    if us == [] then 0
    else (if us[0].0 == k then us[0].1 else 0) + Tally(us[1..], k)
  }

  /** Every key accumulates to zero. */
  ghost predicate AllZero<K(!new)>(us: seq<Update<K>>) {
    forall k :: Tally(us, k) == 0
  }

  ghost predicate SameTally<K(!new)>(us: seq<Update<K>>, vs: seq<Update<K>>) {
    forall k :: Tally(us, k) == Tally(vs, k)
  }

  function Keys<K(==)>(us: seq<Update<K>>): (ks: set<K>) {
    set u | u in us :: u.0
  }

  lemma {:induction false} TallyAppend<K>(us: seq<Update<K>>, vs: seq<Update<K>>, k: K)
    ensures Tally(us + vs, k) == Tally(us, k) + Tally(vs, k)
  {
    if us == [] {
      assert us + vs == vs;
    } else {
      assert (us + vs)[1..] == us[1..] + vs;
      TallyAppend(us[1..], vs, k);
    }
  }

  lemma TallyAppendAll<K(!new)>(us: seq<Update<K>>, vs: seq<Update<K>>)
    ensures forall k :: Tally(us + vs, k) == Tally(us, k) + Tally(vs, k)
  {
    forall k ensures Tally(us + vs, k) == Tally(us, k) + Tally(vs, k) {
      TallyAppend(us, vs, k);
    }
  }

  /** Only a listed key can accumulate to anything but zero. */
  lemma {:induction false} TallyAbsent<K>(us: seq<Update<K>>, k: K)
    requires forall i :: 0 <= i < |us| ==> us[i].0 != k
    ensures Tally(us, k) == 0
  {
    if us != [] {
      TallyAbsent(us[1..], k);
    }
  }

  lemma TallyListed<K>(us: seq<Update<K>>, k: K)
    requires Tally(us, k) != 0
    ensures k in Keys(us)
    ensures exists i :: 0 <= i < |us| && us[i].0 == k
  {
    if forall i :: 0 <= i < |us| ==> us[i].0 != k {
      TallyAbsent(us, k);
    }
    var i :| 0 <= i < |us| && us[i].0 == k;
    assert us[i] in us;
  }

  lemma {:induction false} TallySet<K>(us: seq<Update<K>>, i: nat, v: int, k: K)
    requires i < |us|
    ensures Tally(us[i := (us[i].0, v)], k) == Tally(us, k) + if k == us[i].0 then v - us[i].1 else 0
  {
    var ws := us[i := (us[i].0, v)];
    if i == 0 {
      assert ws[1..] == us[1..];
    } else {
      assert ws[1..] == us[1..][i - 1 := (us[i].0, v)];
      TallySet(us[1..], i - 1, v, k);
    }
  }

  /** With distinct keys, the tally of a listed key is its only delta. */
  lemma {:induction false} TallyDistinct<K>(us: seq<Update<K>>, i: nat)
    requires i < |us|
    requires forall a, b :: 0 <= a < b < |us| ==> us[a].0 != us[b].0
    ensures Tally(us, us[i].0) == us[i].1
  {
    var k := us[i].0;
    if i == 0 {
      TallyAbsent(us[1..], k);
    } else {
      TallyDistinct(us[1..], i - 1);
    }
  }

  /** Removes the entry at `i`. */
  function RemoveAt<E>(us: seq<E>, i: nat): seq<E>
    requires i < |us|
  {
    us[..i] + us[i + 1..]
  }

  lemma TallyRemoveAt<K>(us: seq<Update<K>>, i: nat, k: K)
    requires i < |us|
    ensures Tally(RemoveAt(us, i), k) == Tally(us, k) - if k == us[i].0 then us[i].1 else 0
  {
    assert us == us[..i] + ([us[i]] + us[i + 1..]);
    TallyAppend(us[..i], [us[i]] + us[i + 1..], k);
    TallyAppend(us[..i], us[i + 1..], k);
    assert ([us[i]] + us[i + 1..])[1..] == us[i + 1..];
  }

  // ---- sorting: the library sort, by a strict total order on keys ----

  ghost predicate StrictTotal<K(!new)>(lt: (K, K) -> bool) {
    && (forall x :: !lt(x, x))
    && (forall x, y, z :: lt(x, y) && lt(y, z) ==> lt(x, z))
    && (forall x, y :: x == y || lt(x, y) || lt(y, x))
  }

  ghost predicate SortedKeys<K(!new)>(lt: (K, K) -> bool, us: seq<Update<K>>) {
    forall a, b :: 0 <= a < b < |us| ==> us[a].0 == us[b].0 || lt(us[a].0, us[b].0)
  }

  ghost predicate StrictKeys<K(!new)>(lt: (K, K) -> bool, us: seq<Update<K>>) {
    forall a, b :: 0 <= a < b < |us| ==> lt(us[a].0, us[b].0)
  }

  function Insert<K(==,!new)>(lt: (K, K) -> bool, u: Update<K>, us: seq<Update<K>>): (vs: seq<Update<K>>)
    ensures |vs| == |us| + 1
    ensures forall v :: v in vs <==> v == u || v in us
    ensures forall k {:trigger Tally(vs, k)} :: Tally(vs, k) == (if u.0 == k then u.1 else 0) + Tally(us, k)
  {
    if us == [] then [u]
    else if lt(us[0].0, u.0) then
      var rest := Insert(lt, u, us[1..]);
      assert us == [us[0]] + us[1..];
      [us[0]] + rest
    else [u] + us
  }

  function SortBy<K(==,!new)>(lt: (K, K) -> bool, us: seq<Update<K>>): (vs: seq<Update<K>>)
    ensures |vs| == |us|
    ensures forall v :: v in vs <==> v in us
    ensures forall k {:trigger Tally(vs, k)} :: Tally(vs, k) == Tally(us, k)
  {
    if us == [] then []
    else
      assert us == [us[0]] + us[1..];
      Insert(lt, us[0], SortBy(lt, us[1..]))
  }

  lemma {:induction false} InsertSorted<K(!new)>(lt: (K, K) -> bool, u: Update<K>, us: seq<Update<K>>)
    requires StrictTotal(lt) && SortedKeys(lt, us)
    ensures SortedKeys(lt, Insert(lt, u, us))
  {
    if us != [] && lt(us[0].0, u.0) {
      InsertSorted(lt, u, us[1..]);
      var rest := Insert(lt, u, us[1..]);
      forall b | 0 <= b < |rest| ensures us[0].0 == rest[b].0 || lt(us[0].0, rest[b].0) {
        assert rest[b] in rest;
      }
    }
  }

  lemma {:induction false} SortBySorted<K(!new)>(lt: (K, K) -> bool, us: seq<Update<K>>)
    requires StrictTotal(lt)
    ensures SortedKeys(lt, SortBy(lt, us))
  {
    if us != [] {
      SortBySorted(lt, us[1..]);
      InsertSorted(lt, us[0], SortBy(lt, us[1..]));
    }
  }

  /** Keeps the entries whose delta is not zero. */
  function Retain<K(!new)>(us: seq<Update<K>>): (vs: seq<Update<K>>)
    ensures |vs| <= |us|
    ensures forall v :: v in vs <==> v in us && v.1 != 0
  {
    if us == [] then []
    else
      assert us == [us[0]] + us[1..];
      (if us[0].1 != 0 then [us[0]] else []) + Retain(us[1..])
  }

  lemma {:induction false} RetainTally<K(!new)>(us: seq<Update<K>>, k: K)
    ensures Tally(Retain(us), k) == Tally(us, k)
  {
    if us != [] {
      RetainTally(us[1..], k);
      if us[0].1 != 0 {
        assert Retain(us)[1..] == Retain(us[1..]);
      } else {
        assert Retain(us) == Retain(us[1..]);
      }
    }
  }

  lemma {:induction false} RetainStrict<K(!new)>(lt: (K, K) -> bool, us: seq<Update<K>>)
    requires forall a, b :: 0 <= a < b < |us| && us[a].1 != 0 && us[b].1 != 0 ==> lt(us[a].0, us[b].0)
    ensures StrictKeys(lt, Retain(us))
  {
    if us != [] {
      RetainStrict(lt, us[1..]);
      var rest := Retain(us[1..]);
      if us[0].1 != 0 {
        forall b | 0 <= b < |rest| ensures lt(us[0].0, rest[b].0) {
          assert rest[b] in us[1..];
        }
      }
    }
  }

  /** `after` is `before` with the updates `more`. */
  ghost predicate Gained<K(!new)>(after: seq<Update<K>>, before: seq<Update<K>>, more: seq<Update<K>>) {
    forall k :: Tally(after, k) == Tally(before, k) + Tally(more, k)
  }

  /** `vs` counts what `us` does, and `delta` more of `t`. */
  ghost predicate CountsPlus<T(!new)>(vs: seq<Update<T>>, us: seq<Update<T>>, t: T, delta: int) {
    forall x :: Tally(vs, x) == Tally(us, x) + (if x == t then delta else 0)
  }

  lemma TallyOne<T(!new)>(us: seq<Update<T>>, t: T, delta: int)
    ensures CountsPlus(us + [(t, delta)], us, t, delta)
  {
    TallyAppendAll(us, [(t, delta)]);
    forall x ensures Tally([(t, delta)], x) == (if x == t then delta else 0) {
      assert [(t, delta)][1..] == [];
    }
  }
}
