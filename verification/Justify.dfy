/** Increments explained by what is held or consumed. */
module Justify {
  import opened Basics
  import opened Updates
  import opened Orders

  /** How pointstamps relate: `le` is "could result in", `message` tells messages from capabilities. */
  datatype Points<!P> = Points(le: (P, P) -> bool, message: P -> bool)

  /** `q` explains an increment of `p`: a held capability, or a message whose count falls. */
  ghost predicate Explains<P>(o: Points<P>, held: P -> int, change: P -> int, p: P, q: P) {
    && o.le(q, p)
    && (if o.message(q) then change(q) < 0 && q != p else held(q) > 0)
  }

  ghost predicate Explained<P(!new)>(o: Points<P>, held: P -> int, change: P -> int, p: P) {
    exists q :: Explains(o, held, change, p, q)
  }

  /** Every increment is explained. */
  ghost predicate Justified<P(!new)>(o: Points<P>, held: P -> int, change: P -> int) {
    forall p :: change(p) > 0 ==> Explained(o, held, change, p)
  }

  /** The keys strictly below `p`. */
  ghost function Below<P(!new)>(o: Points<P>, keys: set<P>, p: P): set<P> {
    set k | k in keys && o.le(k, p) && k != p
  }

  lemma BelowFewer<P(!new)>(o: Points<P>, keys: set<P>, q: P, p: P)
    requires PartialOrder(o.le) && q in keys && o.le(q, p) && q != p
    ensures |Below(o, keys, q)| < |Below(o, keys, p)|
  {
    assert q in Below(o, keys, p) && q !in Below(o, keys, q);
    forall k | k in Below(o, keys, q) ensures k in Below(o, keys, p) {
      assert o.le(k, p);
    }
    SmallerSet(Below(o, keys, q), Below(o, keys, p));
  }

  /** What explains something below `p` explains `p`. */
  lemma ExplainedAbove<P(!new)>(o: Points<P>, held: P -> int, change: P -> int, q: P, p: P)
    requires PartialOrder(o.le) && o.le(q, p) && Explained(o, held, change, q)
    ensures Explained(o, held, change, p)
  {
    var r :| Explains(o, held, change, q, r);
    assert o.le(r, p);
    assert Explains(o, held, change, p, r);
  }

  /** Two changes made one after the other, the second justified by what is held after the first,
      are justified together. */
  lemma {:induction false} SumExplained<P(!new)>(o: Points<P>, held: P -> int, first: P -> int, held': P -> int,
                                                 second: P -> int, both: P -> int, keys: set<P>, p: P)
    requires PartialOrder(o.le)
    requires Justified(o, held, first) && Justified(o, held', second)
    requires forall q :: !o.message(q) ==> held'(q) == held(q) + first(q)
    requires forall q :: both(q) == first(q) + second(q)
    requires forall q :: first(q) != 0 || second(q) != 0 ==> q in keys
    requires first(p) > 0 || second(p) > 0
    ensures Explained(o, held, both, p)
    decreases |Below(o, keys, p)|
  {
    if first(p) > 0 {
      assert Explained(o, held, first, p);
      FirstExplained(o, held, first, held', second, both, keys, p, p);
    } else {
      assert Explained(o, held', second, p);
      var q :| Explains(o, held', second, p, q);
      if o.message(q) {
        if both(q) < 0 {
          assert Explains(o, held, both, p, q);
        } else {
          BelowFewer(o, keys, q, p);
          SumExplained(o, held, first, held', second, both, keys, q);
          ExplainedAbove(o, held, both, q, p);
        }
      } else if held(q) > 0 {
        assert Explains(o, held, both, p, q);
      } else {
        assert first(q) > 0;
        assert Explained(o, held, first, q);
        FirstExplained(o, held, first, held', second, both, keys, q, p);
        ExplainedAbove(o, held, both, q, p);
      }
    }
  }

  /** The case of an increment in the first change, at or below the point under consideration. */
  lemma {:induction false} FirstExplained<P(!new)>(o: Points<P>, held: P -> int, first: P -> int, held': P -> int,
                                                   second: P -> int, both: P -> int, keys: set<P>, q: P, p: P)
    requires PartialOrder(o.le)
    requires Justified(o, held, first) && Justified(o, held', second)
    requires forall q :: !o.message(q) ==> held'(q) == held(q) + first(q)
    requires forall q :: both(q) == first(q) + second(q)
    requires forall q :: first(q) != 0 || second(q) != 0 ==> q in keys
    requires o.le(q, p) && Explained(o, held, first, q)
    ensures Explained(o, held, both, q)
    decreases |Below(o, keys, p)|, 0
  {
    var r :| Explains(o, held, first, q, r);
    if o.message(r) && both(r) >= 0 {
      assert o.le(r, p) && r != p;
      BelowFewer(o, keys, r, p);
      SumExplained(o, held, first, held', second, both, keys, r);
      ExplainedAbove(o, held, both, r, q);
    } else {
      assert Explains(o, held, both, q, r);
    }
  }

  lemma SumJustified<P(!new)>(o: Points<P>, held: P -> int, first: P -> int, held': P -> int, second: P -> int,
                              both: P -> int, keys: set<P>)
    requires PartialOrder(o.le)
    requires Justified(o, held, first) && Justified(o, held', second)
    requires forall q :: !o.message(q) ==> held'(q) == held(q) + first(q)
    requires forall q :: both(q) == first(q) + second(q)
    requires forall q :: first(q) != 0 || second(q) != 0 ==> q in keys
    ensures Justified(o, held, both)
  {
    forall p | both(p) > 0 ensures Explained(o, held, both, p) {
      SumExplained(o, held, first, held', second, both, keys, p);
    }
  }
}
