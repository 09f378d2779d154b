/** Partial orders with a compatible total order, and minimal elements under them. */
module Orders {
  import opened Basics
  import opened Updates

  /** `le` is the partial order of `PartialOrder`, `lt` the strict total order of `Ord`. */
  datatype Order<!T> = Order(le: (T, T) -> bool, lt: (T, T) -> bool)

  ghost predicate PartialOrder<T(!new)>(le: (T, T) -> bool) {
    && (forall x :: le(x, x))
    && (forall x, y :: le(x, y) && le(y, x) ==> x == y)
    && (forall x, y, z :: le(x, y) && le(y, z) ==> le(x, z))
  }

  /** `le` is a partial order and `lt` a strict total order that extends it. */
  ghost predicate Lawful<T(!new)>(o: Order<T>) {
    && PartialOrder(o.le)
    && StrictTotal(o.lt)
    && (forall x, y :: o.le(x, y) && x != y ==> o.lt(x, y))
  }

  predicate LessThan<T(==)>(le: (T, T) -> bool, x: T, y: T) {
    le(x, y) && x != y
  }

  ghost predicate Distinct<E>(s: seq<E>) {
    forall a, b :: 0 <= a < b < |s| ==> s[a] != s[b]
  }

  /** Some element of `f` is less than or equal to `t`. */
  predicate AnyLessEqual<T>(le: (T, T) -> bool, f: seq<T>, t: T) {
    exists i :: 0 <= i < |f| && le(f[i], t)
  }

  predicate AnyLessThan<T(==)>(le: (T, T) -> bool, f: seq<T>, t: T) {
    exists i :: 0 <= i < |f| && LessThan(le, f[i], t)
  }

  /** `t` has a positive count, and no other element with a positive count is below it. */
  ghost predicate MinimalPositive<T(!new)>(o: Order<T>, us: seq<Update<T>>, t: T) {
    Tally(us, t) > 0 && forall x :: Tally(us, x) > 0 && o.le(x, t) ==> x == t
  }

  /** `f` lists exactly the minimal elements with positive count, once each. */
  ghost predicate IsFrontier<T(!new)>(o: Order<T>, us: seq<Update<T>>, f: seq<T>) {
    Distinct(f) && forall t :: t in f <==> MinimalPositive(o, us, t)
  }

  /** Below every element with a positive count lies a minimal one. */
  lemma {:induction false} MinimalExists<T(!new)>(o: Order<T>, us: seq<Update<T>>, t: T) returns (m: T)
    requires Lawful(o) && Tally(us, t) > 0
    ensures MinimalPositive(o, us, m) && o.le(m, t)
    decreases |set k | k in Keys(us) && o.lt(k, t)|
  {
    if MinimalPositive(o, us, t) {
      m := t;
    } else {
      var x :| Tally(us, x) > 0 && o.le(x, t) && x != t;
      TallyListed(us, x);
      var below, below' := (set k | k in Keys(us) && o.lt(k, t)), (set k | k in Keys(us) && o.lt(k, x));
      assert x in below && x !in below' && below' <= below;
      SmallerSet(below', below);
      m := MinimalExists(o, us, x);
    }
  }

  lemma FrontierCovers<T(!new)>(o: Order<T>, us: seq<Update<T>>, f: seq<T>, t: T)
    requires Lawful(o) && IsFrontier(o, us, f) && Tally(us, t) > 0
    ensures AnyLessEqual(o.le, f, t)
  {
    var m := MinimalExists(o, us, t);
    assert m in f;
  }

  /** Two frontiers of the same counts list the same elements. */
  lemma FrontierUnique<T(!new)>(o: Order<T>, us: seq<Update<T>>, vs: seq<Update<T>>, f: seq<T>, g: seq<T>)
    requires SameTally(us, vs) && IsFrontier(o, us, f) && IsFrontier(o, vs, g)
    ensures forall t :: t in f <==> t in g
  {
    forall t ensures MinimalPositive(o, us, t) <==> MinimalPositive(o, vs, t) {
    }
  }
}
