/** Bytes of keys, and sorting byte by byte from either end: what one pass over a byte makes of elements
    that are sorted by the bytes below, or share those above. */
module Radix {
  import opened Basics
  import opened StableSorts

  function Pow256(d: nat): (p: nat)
    ensures p > 0
  {
    if d == 0 then 1 else 256 * Pow256(d - 1)
  }

  /** A key shifted right by `d` bytes. */
  function HighBytes(k: nat, d: nat): nat {
    if d == 0 then k else HighBytes(k, d - 1) / 256
  }

  /** Byte `d` of a key, counting from the least significant one. */
  function ByteOf(k: nat, d: nat): (b: nat)
    ensures b < 256
  {
    HighBytes(k, d) % 256
  }

  /** The bytes of a key below byte `d`. */
  function LowBytes(k: nat, d: nat): nat {
    if d == 0 then 0 else ByteOf(k, d - 1) * Pow256(d - 1) + LowBytes(k, d - 1)
  }

  lemma LowLess(a: nat, b: nat, x: nat, y: nat, p: nat)
    requires x < p && a < b
    ensures a * p + x < b * p + y
  {
    assert (a + 1) * p <= b * p;
  }

  lemma {:induction false} LowBytesBound(k: nat, d: nat)
    ensures LowBytes(k, d) < Pow256(d)
  {
    if d > 0 {
      LowBytesBound(k, d - 1);
      LowLess(ByteOf(k, d - 1), 256, LowBytes(k, d - 1), 0, Pow256(d - 1));
    }
  }

  /** The high and the low bytes make up the key. */
  lemma {:induction false} BytesMakeKey(k: nat, d: nat)
    ensures k == HighBytes(k, d) * Pow256(d) + LowBytes(k, d)
  {
    if d > 0 {
      BytesMakeKey(k, d - 1);
      Regroup(HighBytes(k, d), ByteOf(k, d - 1), Pow256(d - 1));
    }
  }

  lemma Regroup(h: nat, b: nat, p: nat)
    ensures (256 * h + b) * p == h * (256 * p) + b * p
  {
  }

  lemma {:induction false} HighLess(j: nat, k: nat, d: nat)
    requires HighBytes(j, d) < HighBytes(k, d)
    ensures j < k
  {
    if d > 0 {
      HighLess(j, k, d - 1);
    }
  }

  /** A key below `256^d` has no bytes from `d` on. */
  lemma KeyFits(k: nat, d: nat)
    requires k < Pow256(d)
    ensures HighBytes(k, d) == 0 && LowBytes(k, d) == k
  {
    BytesMakeKey(k, d);
    if HighBytes(k, d) > 0 {
      LowLess(0, HighBytes(k, d), k, LowBytes(k, d), Pow256(d));
    }
  }

  ghost function ByteOn<T>(key: T -> nat, d: nat): T -> nat {
    x => ByteOf(key(x), d)
  }

  ghost function LowOn<T>(key: T -> nat, d: nat): T -> nat {
    x => LowBytes(key(x), d)
  }

  /** The elements whose byte `d` is `c`. */
  ghost function Bucket<T>(key: T -> nat, d: nat, s: seq<T>, c: nat): seq<T> {
    Select(s, WithDigit(ByteOn(key, d), c))
  }

  // ---- from the least significant byte ----

  lemma StartLow<T(!new)>(key: T -> nat, s: seq<T>)
    ensures IsStableSort(LowOn(key, 0), s, s)
  {
  }

  /** One pass: sorting by byte `d` what is sorted by the bytes below. */
  lemma LowPass<T(!new)>(key: T -> nat, d: nat, s: seq<T>, r: seq<T>, parts: seq<seq<T>>)
    requires IsStableSort(LowOn(key, d), r, s) && |parts| == 256
    requires forall c :: 0 <= c < 256 ==> parts[c] == Bucket(key, d, r, c)
    ensures IsStableSort(LowOn(key, d + 1), Flatten(parts), s)
  {
    hide IsStableSort;
    var low, digit := LowOn(key, d + 1), ByteOn(key, d);
    forall x, y | x in s && y in s
      ensures (digit(x) < digit(y) ==> low(x) < low(y)) && (low(x) == low(y) ==> digit(x) == digit(y))
    {
      LowLeads(key(x), key(y), d);
      LowLeads(key(y), key(x), d);
    }
    forall c | 0 <= c < 256 ensures IsStableSort(low, parts[c], Select(s, WithDigit(digit, c))) {
      PartSorted(key, d, s, r, c);
    }
    RadixJoin(low, digit, s, parts);
  }

  lemma LowLeads(j: nat, k: nat, d: nat)
    ensures ByteOf(j, d) < ByteOf(k, d) ==> LowBytes(j, d + 1) < LowBytes(k, d + 1)
  {
    LowBytesBound(j, d);
    if ByteOf(j, d) < ByteOf(k, d) {
      LowLess(ByteOf(j, d), ByteOf(k, d), LowBytes(j, d), LowBytes(k, d), Pow256(d));
    }
  }

  /** A bucket of what is sorted by the lower bytes is sorted by them and the bucket's byte. */
  lemma PartSorted<T(!new)>(key: T -> nat, d: nat, s: seq<T>, r: seq<T>, c: nat)
    requires IsStableSort(LowOn(key, d), r, s)
    ensures IsStableSort(LowOn(key, d + 1), Bucket(key, d, r, c), Bucket(key, d, s, c))
  {
    var part, low := Bucket(key, d, r, c), LowOn(key, d + 1);
    SelectIn(r, WithDigit(ByteOn(key, d), c));
    SelectSorted(LowOn(key, d), r, WithDigit(ByteOn(key, d), c));
    forall i, j | 0 <= i < j < |part| ensures low(part[i]) <= low(part[j]) {
      assert part[i] in part && part[j] in part;
    }
    forall k: nat ensures Select(part, WithKey(low, k)) == Select(Bucket(key, d, s, c), WithKey(low, k)) {
      PartSelect(key, d, r, c, k);
      PartSelect(key, d, s, c, k);
    }
  }

  /** Within a bucket, the low bytes with the bucket's byte are determined by the low bytes without. */
  lemma PartSelect<T(!new)>(key: T -> nat, d: nat, s: seq<T>, c: nat, k: nat)
    ensures Select(Bucket(key, d, s, c), WithKey(LowOn(key, d + 1), k)) ==
            if k >= c * Pow256(d) then Select(Select(s, WithKey(LowOn(key, d), k - c * Pow256(d))),
                                              WithDigit(ByteOn(key, d), c)) else []
  {
    var digit, low := WithDigit(ByteOn(key, d), c), WithKey(LowOn(key, d + 1), k);
    forall x ensures digit(x) ==> LowBytes(key(x), d + 1) == c * Pow256(d) + LowBytes(key(x), d) {
    }
    if k >= c * Pow256(d) {
      var lower := WithKey(LowOn(key, d), k - c * Pow256(d));
      var both := x => digit(x) && lower(x);
      SelectBoth(s, digit, low, both);
      SelectBoth(s, lower, digit, both);
    } else {
      SelectIn(s, digit);
      SelectNone(Select(s, digit), low);
    }
  }

  /** Selecting in turn is selecting by both conditions. */
  lemma {:induction false} SelectBoth<T(!new)>(s: seq<T>, p: T -> bool, q: T -> bool, both: T -> bool)
    requires forall x :: both(x) == (p(x) && q(x))
    ensures Select(Select(s, p), q) == Select(s, both)
  {
    if s != [] {
      SelectBoth(s[1..], p, q, both);
      SelectAppend(if p(s[0]) then [s[0]] else [], Select(s[1..], p), q);
      SelectOne(s[0], q);
    }
  }

  lemma {:induction false} SelectSorted<T(!new)>(key: T -> nat, s: seq<T>, p: T -> bool)
    requires SortedBy(key, s)
    ensures SortedBy(key, Select(s, p))
  {
    if s != [] {
      SelectSorted(key, s[1..], p);
      var rest := Select(s[1..], p);
      SelectIn(s[1..], p);
      forall j | 0 <= j < |rest| ensures key(s[0]) <= key(rest[j]) {
        assert rest[j] in rest;
        var i :| 0 <= i < |s[1..]| && s[1..][i] == rest[j];
        assert s[i + 1] == rest[j];
      }
    }
  }

  /** After as many passes as keys have bytes, the whole key has been sorted by. */
  lemma LowWhole<T(!new)>(key: T -> nat, d: nat, r: seq<T>, s: seq<T>)
    requires IsStableSort(LowOn(key, d), r, s) && forall x :: key(x) < Pow256(d)
    ensures r == StableSort(key, s)
  {
    forall x ensures LowBytes(key(x), d) == key(x) {
      KeyFits(key(x), d);
    }
    forall k: nat ensures Select(r, WithKey(key, k)) == Select(s, WithKey(key, k)) {
      SelectSame(r, WithKey(key, k), WithKey(LowOn(key, d), k));
      SelectSame(s, WithKey(key, k), WithKey(LowOn(key, d), k));
    }
    IsTheStableSort(key, r, s);
  }

  // ---- passes over what was there before ----

  /** A key without its lowest byte. */
  ghost function Upper<T>(key: T -> nat): T -> nat {
    x => HighBytes(key(x), 1)
  }

  lemma {:induction false} UpperBytes(k: nat, d: nat)
    ensures HighBytes(HighBytes(k, 1), d) == HighBytes(k, d + 1)
  {
    if d > 0 {
      UpperBytes(k, d - 1);
    }
  }

  lemma UpperBucket<T(!new)>(key: T -> nat, d: nat, s: seq<T>, c: nat)
    ensures Bucket(Upper(key), d, s, c) == Bucket(key, d + 1, s, c)
  {
    forall x ensures ByteOf(HighBytes(key(x), 1), d) == ByteOf(key(x), d + 1) {
      UpperBytes(key(x), d);
    }
    SelectSame(s, WithDigit(ByteOn(Upper(key), d), c), WithDigit(ByteOn(key, d + 1), c));
  }

  /** What some elements, behind others that were there before, have become after `d` passes: the first
      pass has left the earlier ones alone. */
  ghost predicate Passed<T(!new)>(key: T -> nat, d: nat, before: seq<T>, s: seq<T>, r: seq<T>)
    requires d >= 1
  {
    && IsStableSort(LowOn(Upper(key), d - 1), r, before + StableSort(LowOn(key, 1), s))
    && (before == [] ==> IsStableSort(LowOn(key, d), r, s))
  }

  lemma FirstPass<T(!new)>(key: T -> nat, before: seq<T>, s: seq<T>, parts: seq<seq<T>>)
    requires |parts| == 256 && forall c :: 0 <= c < 256 ==> parts[c] == Bucket(key, 0, s, c)
    ensures Passed(key, 1, before, s, before + Flatten(parts))
  {
    hide IsStableSort;
    StartLow(key, s);
    LowPass(key, 0, s, s, parts);
    IsTheStableSort(LowOn(key, 1), Flatten(parts), s);
    StartLow(Upper(key), before + Flatten(parts));
    if before == [] {
      assert before + Flatten(parts) == Flatten(parts);
    }
  }

  lemma NextPass<T(!new)>(key: T -> nat, d: nat, before: seq<T>, s: seq<T>, r: seq<T>, parts: seq<seq<T>>)
    requires d >= 1 && Passed(key, d, before, s, r)
    requires |parts| == 256 && forall c :: 0 <= c < 256 ==> parts[c] == Bucket(key, d, r, c)
    ensures Passed(key, d + 1, before, s, Flatten(parts))
  {
    hide IsStableSort;
    hide Bucket;
    forall c | 0 <= c < 256 ensures parts[c] == Bucket(Upper(key), d - 1, r, c) {
      UpperBucket(key, d - 1, r, c);
    }
    LowPass(Upper(key), d - 1, before + StableSort(LowOn(key, 1), s), r, parts);
    if before == [] {
      LowPass(key, d, s, r, parts);
    }
  }

  /** All passes sort by the key; elements that were there before miss the first of them. */
  lemma LastPass<T(!new)>(key: T -> nat, bytes: nat, before: seq<T>, s: seq<T>, r: seq<T>)
    requires bytes >= 1 && Passed(key, bytes, before, s, r) && forall x :: key(x) < Pow256(bytes)
    ensures r == StableSort(Upper(key), before + StableSort(LowOn(key, 1), s))
    ensures before == [] ==> r == StableSort(key, s)
  {
    hide IsStableSort;
    forall x ensures HighBytes(key(x), 1) < Pow256(bytes - 1) {
      assert HighBytes(key(x), 1) == key(x) / 256;
    }
    LowWhole(Upper(key), bytes - 1, r, before + StableSort(LowOn(key, 1), s));
    if before == [] {
      LowWhole(key, bytes, r, s);
    }
  }

  // ---- from the most significant byte ----

  /** All elements agree on the bytes from `d` on. */
  ghost predicate SharesHigh<T(!new)>(key: T -> nat, d: nat, s: seq<T>) {
    forall x, y :: x in s && y in s ==> HighBytes(key(x), d) == HighBytes(key(y), d)
  }

  /** Elements that agree on the bytes above `d` are sorted by sorting the buckets of byte `d`. */
  lemma HighSplit<T(!new)>(key: T -> nat, d: nat, s: seq<T>, parts: seq<seq<T>>)
    requires SharesHigh(key, d + 1, s) && |parts| == 256
    requires forall c :: 0 <= c < 256 ==> parts[c] == StableSort(key, Bucket(key, d, s, c))
    ensures StableSort(key, s) == Flatten(parts)
  {
    hide IsStableSort;
    var digit := ByteOn(key, d);
    forall x, y | x in s && y in s
      ensures (digit(x) < digit(y) ==> key(x) < key(y)) && (key(x) == key(y) ==> digit(x) == digit(y))
    {
      if digit(x) < digit(y) {
        HighLess(key(x), key(y), d);
      }
    }
    forall c | 0 <= c < 256 ensures IsStableSort(key, parts[c], Select(s, WithDigit(digit, c))) {
      StableSortIs(key, Bucket(key, d, s, c));
    }
    RadixJoin(key, digit, s, parts);
    IsTheStableSort(key, Flatten(parts), s);
  }

  lemma BucketShares<T(!new)>(key: T -> nat, d: nat, s: seq<T>, c: nat)
    requires SharesHigh(key, d + 1, s)
    ensures SharesHigh(key, d, Bucket(key, d, s, c))
  {
    SelectIn(s, WithDigit(ByteOn(key, d), c));
    forall x, y | x in Bucket(key, d, s, c) && y in Bucket(key, d, s, c)
      ensures HighBytes(key(x), d) == HighBytes(key(y), d)
    {
    }
  }

  lemma AllShare<T(!new)>(key: T -> nat, d: nat, s: seq<T>)
    requires forall x :: key(x) < Pow256(d)
    ensures SharesHigh(key, d, s)
  {
    forall x ensures HighBytes(key(x), d) == 0 {
      KeyFits(key(x), d);
    }
  }
}
