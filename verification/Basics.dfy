/** A few facts about numbers, sets and sequences. */
module Basics {

  function Pow2(n: nat): (p: nat)
    ensures p > n
  {
    if n == 0 then 1 else 2 * Pow2(n - 1)
  }

  lemma {:induction false} Pow2Monotone(m: nat, n: nat)
    requires m <= n
    ensures Pow2(m) <= Pow2(n)
  {
    if m < n {
      Pow2Monotone(m, n - 1);
    }
  }

  lemma SmallerSet<E>(a: set<E>, b: set<E>)
    requires a < b
    ensures |a| < |b|
  {
    assert b == a + (b - a);
    assert b - a != {};
  }

  lemma SubsetSize<P>(a: set<P>, b: set<P>)
    requires a <= b
    ensures |a| <= |b|
  {
    assert b == a + (b - a);
  }

  lemma Associative<T>(a: seq<T>, b: seq<T>, c: seq<T>)
    ensures a + b + c == a + (b + c)
  {
  }

  function Flatten<T>(parts: seq<seq<T>>): seq<T> {
    if parts == [] then [] else parts[0] + Flatten(parts[1..])
  }

  lemma {:induction false} FlattenAppend<T>(a: seq<seq<T>>, b: seq<seq<T>>)
    ensures Flatten(a + b) == Flatten(a) + Flatten(b)
  {
    if a == [] {
      assert a + b == b;
    } else {
      assert (a + b)[1..] == a[1..] + b;
      FlattenAppend(a[1..], b);
    }
  }

  lemma {:induction false} FlattenIn<T(!new)>(parts: seq<seq<T>>, x: T)
    ensures x in Flatten(parts) <==> exists c :: 0 <= c < |parts| && x in parts[c]
  {
    if parts != [] {
      FlattenIn(parts[1..], x);
      if x in Flatten(parts[1..]) {
        var c :| 0 <= c < |parts[1..]| && x in parts[1..][c];
        assert x in parts[c + 1];
      }
      if c :| 0 < c < |parts| && x in parts[c] {
        assert x in parts[1..][c - 1];
      }
    }
  }
}
