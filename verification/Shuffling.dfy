/** Distributing elements over 256 buckets by a byte of their keys: each bucket receives the elements with
    its byte in the order in which they were pushed. */
module Shuffling {
  import opened Basics
  import opened StableSorts
  import opened Radix
  import opened Buffers

  /** Each bucket spells the elements with its digit, in order of arrival. */
  ghost predicate Shuffled<T(!new)>(buckets: seq<Batched<T>>, digit: T -> nat, pushed: seq<T>) {
    |buckets| == 256 && forall c :: 0 <= c < 256 ==> Spelled(buckets[c]) == Select(pushed, WithDigit(digit, c))
  }

  ghost predicate AllKept<T>(buckets: seq<Batched<T>>, line: nat) {
    forall c :: 0 <= c < |buckets| ==> Kept(buckets[c], line)
  }

  lemma NothingShuffled<T(!new)>(buckets: seq<Batched<T>>, digit: T -> nat)
    requires |buckets| == 256 && forall c :: 0 <= c < 256 ==> Spelled(buckets[c]) == []
    ensures Shuffled(buckets, digit, [])
  {
  }

  lemma OneShuffled<T(!new)>(buckets: seq<Batched<T>>, digit: T -> nat, pushed: seq<T>, x: T, b: Batched<T>)
    requires Shuffled(buckets, digit, pushed) && digit(x) < 256 && Spelled(b) == Spelled(buckets[digit(x)]) + [x]
    ensures Shuffled(buckets[digit(x) := b], digit, pushed + [x])
  {
    forall c | 0 <= c < 256 ensures Spelled(buckets[digit(x) := b][c]) == Select(pushed + [x], WithDigit(digit, c)) {
      SelectAppend(pushed, [x], WithDigit(digit, c));
      SelectOne(x, WithDigit(digit, c));
    }
  }

  /** The buckets of `s`, in order of their digits, up to digit `n`. */
  ghost function Parts<T>(key: T -> nat, d: nat, s: seq<T>, n: nat): (parts: seq<seq<T>>)
    ensures |parts| == n && forall c :: 0 <= c < n ==> parts[c] == Bucket(key, d, s, c)
  {
    if n == 0 then [] else Parts(key, d, s, n - 1) + [Bucket(key, d, s, n - 1)]
  }

  lemma PartsMore<T(!new)>(key: T -> nat, d: nat, s: seq<T>, n: nat)
    ensures Flatten(Parts(key, d, s, n + 1)) == Flatten(Parts(key, d, s, n)) + Bucket(key, d, s, n)
  {
    FlattenAppend(Parts(key, d, s, n), [Bucket(key, d, s, n)]);
    assert Flatten([Bucket(key, d, s, n)]) == Bucket(key, d, s, n) + Flatten([]);
  }

  lemma ShuffledSize<T(!new)>(buckets: seq<Batched<T>>, digit: T -> nat, pushed: seq<T>)
    requires Shuffled(buckets, digit, pushed)
    ensures |buckets| == 256
  {
  }

  lemma NoParts<T>(key: T -> nat, d: nat, s: seq<T>)
    ensures Flatten(Parts(key, d, s, 0)) == []
  {
  }
}
