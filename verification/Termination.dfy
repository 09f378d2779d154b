/** A weight that falls when an element is traded for any number of strictly later ones. */
module Trading {
  import opened Basics
  import opened Orders
  import opened Sums

  ghost predicate StrictPartial<P(!new)>(later: (P, P) -> bool) {
    && (forall x :: !later(x, x))
    && (forall x, y, z :: later(x, y) && later(y, z) ==> later(x, z))
  }

  /** The elements of `all` after `p`. */
  ghost function After<P(!new)>(later: (P, P) -> bool, all: set<P>, p: P): set<P> {
    set x | x in all && later(p, x)
  }

  ghost function WeightOf<P(!new)>(later: (P, P) -> bool, all: set<P>): P -> int {
    p => Pow2(|After(later, all, p)|)
  }

  ghost function Weight<P(!new)>(later: (P, P) -> bool, all: set<P>, s: set<P>): int {
    Sum(s, WeightOf(later, all))
  }

  lemma WeightPositive<P(!new)>(later: (P, P) -> bool, all: set<P>, s: set<P>)
    ensures Weight(later, all, s) >= 0
  {
    SumBounds(s, WeightOf(later, all));
  }

  lemma {:induction false} FirstOf<P(!new)>(later: (P, P) -> bool, a: set<P>, y: P) returns (x: P)
    requires StrictPartial(later) && y in a
    ensures x in a && forall z :: z in a ==> !later(z, x)
    decreases |set z | z in a && later(z, y)|
  {
    if z :| z in a && later(z, y) {
      var below, below' := (set w | w in a && later(w, y)), (set w | w in a && later(w, z));
      assert below' <= below && z in below && z !in below';
      SmallerSet(below', below);
      x := FirstOf(later, a, z);
    } else {
      x := y;
    }
  }

  /** A set containing everything after its members weighs less than two to the power of its size. */
  lemma {:induction false} ClosedWeight<P(!new)>(later: (P, P) -> bool, all: set<P>, a: set<P>)
    requires StrictPartial(later) && a <= all
    requires forall x, y :: x in a && y in all && later(x, y) ==> y in a
    ensures Weight(later, all, a) < Pow2(|a|)
    decreases |a|
  {
    if a != {} {
      var y :| y in a;
      var x := FirstOf(later, a, y);
      var f := WeightOf(later, all);
      var rest := a - {x};
      SumRemove(a, f, x);
      ClosedWeight(later, all, rest);
      assert f(x) <= Pow2(|rest|) by {
        SubsetSize(After(later, all, x), rest);
        Pow2Monotone(|After(later, all, x)|, |rest|);
      }
      assert Weight(later, all, a) < 2 * Pow2(|rest|);
      assert |a| == |rest| + 1;
    }
  }

  lemma {:induction false} SumUnion<P(!new)>(a: set<P>, b: set<P>, c: set<P>, f: P -> int)
    requires a <= b + c && forall x :: f(x) >= 0
    ensures Sum(a, f) <= Sum(b, f) + Sum(c, f)
    decreases |a|
  {
    if a == {} {
      SumBounds(b, f);
      SumBounds(c, f);
    } else {
      var x :| x in a;
      SumRemove(a, f, x);
      if x in b {
        SumRemove(b, f, x);
        SumUnion(a - {x}, b - {x}, c - {x}, f);
        if x in c { SumRemove(c, f, x); }
        if x !in c { assert c - {x} == c; }
      } else {
        SumRemove(c, f, x);
        SumUnion(a - {x}, b, c - {x}, f);
      }
    }
  }

  /** Trading `p` for later elements lowers the weight. */
  lemma TradeDown<P(!new)>(later: (P, P) -> bool, all: set<P>, s: set<P>, p: P, s': set<P>)
    requires StrictPartial(later) && p in s && p in all
    requires s' <= (s - {p}) + After(later, all, p)
    ensures Weight(later, all, s') < Weight(later, all, s)
  {
    var f := WeightOf(later, all);
    ClosedWeight(later, all, After(later, all, p));
    SumUnion(s', s - {p}, After(later, all, p), f);
    SumRemove(s, f, p);
  }
}
