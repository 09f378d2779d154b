/** Timestamps, and summaries of what happens to them along a path. */
module Timestamps {
  import opened Orders
  import opened Updates

  datatype Option<+T> = None | Some(value: T)

  /** A timestamp type with its summaries.

      `times` and `summaries` are all the values of the types, of which machine types have finitely
      many. `results` is
      `PathSummary::results_in`, `followed` is `PathSummary::followed_by` and `zero` the default
      summary. */
  datatype Domain<!T(==), !S(==)> = Domain(
    order: Order<T>,
    times: set<T>,
    results: (S, T) -> Option<T>,
    below: (S, S) -> bool,
    summaries: set<S>,
    followed: (S, S) -> Option<S>,
    zero: S)

  /** `y` is no later than `x`, and there if `x` is. */
  predicate NoLater<X>(le: (X, X) -> bool, y: Option<X>, x: Option<X>) {
    x.Some? ==> y.Some? && le(y.value, x.value)
  }

  /** How a summary acts on a time it may push over the edge. */
  function Then<T, S>(d: Domain<T, S>, s: S, t: Option<T>): Option<T> {
    if t.None? then None else d.results(s, t.value)
  }

  /** What progress tracking relies on of times and the action of summaries on them. */
  ghost predicate LawfulTimes<T(!new), S(!new)>(d: Domain<T, S>) {
    && Lawful(d.order)
    && (forall t :: d.results(d.zero, t) == Some(t))
    && (forall s, t :: s != d.zero && d.results(s, t).Some? ==>
          d.order.le(t, d.results(s, t).value) && t != d.results(s, t).value)
    && (forall s, t, u :: d.order.le(t, u) ==> NoLater(d.order.le, d.results(s, t), d.results(s, u)))
    && (forall t :: t in d.times)
  }

  /** What compiling path summaries relies on. */
  ghost predicate LawfulSummaries<T(!new), S(!new)>(d: Domain<T, S>) {
    && PartialOrder(d.below)
    && (forall s :: d.followed(s, d.zero) == Some(s))
    && (forall s :: d.followed(d.zero, s) == Some(s))
    && (forall s, a, b :: d.below(a, b) ==> NoLater(d.below, d.followed(s, a), d.followed(s, b)))
    && (forall s :: s in d.summaries)
  }

  /** Composed summaries act as their parts do in turn, and smaller summaries act no later. */
  ghost predicate Compatible<T(!new), S(!new)>(d: Domain<T, S>) {
    && (forall a, b, t ::
          Then(d, b, d.results(a, t)) ==
            if d.followed(a, b).Some? then d.results(d.followed(a, b).value, t) else None)
    && (forall a, b, t :: d.below(a, b) ==> NoLater(d.order.le, d.results(a, t), d.results(b, t)))
  }

  ghost predicate ActsSometime<T(!new), S(!new)>(d: Domain<T, S>, s: S) {
    exists t :: d.results(s, t).Some?
  }

  ghost predicate NeverLater<T(!new), S(!new)>(d: Domain<T, S>, r: S, s: S) {
    forall t :: NoLater(d.order.le, d.results(r, t), d.results(s, t))
  }

  /** A summary that acts no later than another at all times is below it, and each acts at some time. */
  ghost predicate Faithful<T(!new), S(!new)>(d: Domain<T, S>) {
    && (forall s :: ActsSometime(d, s))
    && (forall r, s :: NeverLater(d, r, s) ==> d.below(r, s))
  }

  const TWO_TO_64: nat := 0x1_0000_0000_0000_0000

  type u64 = n: nat | n < TWO_TO_64

  function Word(n: nat): u64
    requires n < TWO_TO_64
  {
    n
  }

  /** Unsigned 64-bit integers with checked addition; other widths differ only in the constant. */
  function Unsigned(): Domain<u64, u64> {
    var all := set n: nat | n < TWO_TO_64 :: Word(n);
    var checkedAdd := (a: u64, b: u64) => if a + b < TWO_TO_64 then Some((a + b) as u64) else None;
    Domain(
      Order((x: u64, y: u64) => x <= y, (x: u64, y: u64) => x < y),
      all, checkedAdd,
      (x: u64, y: u64) => x <= y,
      all, checkedAdd,
      0)
  }

  /** What acting on words means: a result is as far after the time as the summary says, and missing
      exactly if no word is. */
  lemma UnsignedExact(s: u64, t: u64, u: u64)
    ensures Unsigned().results(s, t) == Some(u) <==> t <= u && u - t == s
    ensures Unsigned().followed(s, t) == Some(u) <==> t <= u && u - t == s
    ensures Unsigned().order.le(t, u) <==> t <= u
    ensures Unsigned().order.lt(t, u) <==> t < u
    ensures Unsigned().below(t, u) <==> t <= u
  {
  }

  /** Word by word: the default summary leaves a time as it is, and the next one takes it to the next time
      after what this one does, as long as there is one. */
  lemma UnsignedSteps(s: u64, t: u64)
    ensures Unsigned().results(0, t) == Some(t)
    ensures s + 1 < TWO_TO_64 ==>
              Unsigned().results(s + 1, t) ==
                match Unsigned().results(s, t)
                case None => None
                case Some(u) => if u + 1 < TWO_TO_64 then Some(u + 1) else None
  {
  }

  lemma UnsignedOrder()
    ensures Lawful(Unsigned().order) && PartialOrder(Unsigned().below)
  {
  }

  lemma UnsignedLawfulTimes()
    ensures LawfulTimes(Unsigned())
  {
    var d := Unsigned();
    UnsignedOrder();
    forall t: u64 ensures t in d.times {
      assert Word(t) == t;
    }
    forall s: u64, t: u64, u: u64 | d.order.le(t, u) ensures NoLater(d.order.le, d.results(s, t), d.results(s, u)) {}
    forall t: u64 ensures d.results(d.zero, t) == Some(t) {}
  }

  lemma UnsignedLawfulSummaries()
    ensures LawfulSummaries(Unsigned())
  {
    var d := Unsigned();
    forall s: u64 ensures s in d.summaries {
      assert Word(s) == s;
    }
    UnsignedOrder();
    forall s: u64, a: u64, b: u64 | d.below(a, b) ensures NoLater(d.below, d.followed(s, a), d.followed(s, b)) {}
  }

  lemma UnsignedCompatible()
    ensures Compatible(Unsigned())
  {
  }

  lemma UnsignedFaithful()
    ensures Faithful(Unsigned())
  {
    var d := Unsigned();
    forall s: u64 ensures ActsSometime(d, s) {
      assert d.results(s, 0).Some?;
    }
    forall r: u64, s: u64 | NeverLater(d, r, s) ensures d.below(r, s) {
      assert NoLater(d.order.le, d.results(r, 0), d.results(s, 0));
    }
  }

  const TWO_TO_63: int := 0x8000_0000_0000_0000

  type i64 = n: int | -TWO_TO_63 <= n < TWO_TO_63

  /** Checked addition of signed 64-bit integers. */
  function SignedResult(s: i64, t: i64): Option<i64> {
    if -TWO_TO_63 <= s + t < TWO_TO_63 then Some((s + t) as i64) else None
  }

  /** A result is as far from the time as the summary says, in its direction, and missing exactly if no
      word is. */
  lemma SignedExact(s: i64, t: i64, u: i64)
    ensures SignedResult(s, t) == Some(u) <==> u - t == s
  {
  }

  /** Under `s` no time becomes earlier, nor stays what it is unless `s` is the default summary. */
  ghost predicate Advances(s: i64) {
    forall t: i64 :: SignedResult(s, t).Some? ==>
        t <= SignedResult(s, t).value && (s != 0 ==> t != SignedResult(s, t).value)
  }

  /** Signed summaries are what progress tracking relies on exactly when they are not negative. */
  lemma SignedAdvances(s: i64)
    ensures Advances(s) <==> s >= 0
  {
    if s < 0 {
      assert SignedResult(s, 0) == Some(s);
    }
  }

  /** A nested pair. */
  datatype Product<+A, +B> = Product(outer: A, inner: B)

  /** Pairs componentwise, except for `Ord`, which is lexicographic. */
  function Nested<T, S, U, R>(a: Domain<T, S>, b: Domain<U, R>): Domain<Product<T, U>, Product<S, R>> {
    Domain(
      Order((x: Product<T, U>, y: Product<T, U>) => a.order.le(x.outer, y.outer) && b.order.le(x.inner, y.inner),
            (x: Product<T, U>, y: Product<T, U>) => a.order.lt(x.outer, y.outer) ||
            (x.outer == y.outer && b.order.lt(x.inner, y.inner))),
      set x, y | x in a.times && y in b.times :: Product(x, y),
      (s: Product<S, R>, t: Product<T, U>) => Both(a.results(s.outer, t.outer), b.results(s.inner, t.inner)),
      (r: Product<S, R>, s: Product<S, R>) => a.below(r.outer, s.outer) && b.below(r.inner, s.inner),
      set r, s | r in a.summaries && s in b.summaries :: Product(r, s),
      (r: Product<S, R>, s: Product<S, R>) => Both(a.followed(r.outer, s.outer), b.followed(r.inner, s.inner)),
      Product(a.zero, b.zero))
  }

  function Both<A, B>(x: Option<A>, y: Option<B>): Option<Product<A, B>> {
    if x.Some? && y.Some? then Some(Product(x.value, y.value)) else None
  }

  /** The componentwise order is a partial order. */
  lemma PairOrder<A(!new), B(!new)>(p: (A, A) -> bool, q: (B, B) -> bool, le: (Product<A, B>, Product<A, B>) -> bool)
    requires PartialOrder(p) && PartialOrder(q)
    requires forall x, y :: le(x, y) <==> p(x.outer, y.outer) && q(x.inner, y.inner)
    ensures PartialOrder(le)
  {
    forall x ensures le(x, x) {
      assert p(x.outer, x.outer) && q(x.inner, x.inner);
    }
    forall x, y | le(x, y) && le(y, x) ensures x == y {
      assert p(x.outer, y.outer) && p(y.outer, x.outer) && q(x.inner, y.inner) && q(y.inner, x.inner);
    }
    forall x, y, z | le(x, y) && le(y, z) ensures le(x, z) {
      assert p(x.outer, y.outer) && p(y.outer, z.outer) && q(x.inner, y.inner) && q(y.inner, z.inner);
    }
  }

  /** The lexicographic order is a strict total order. */
  lemma PairTotal<A(!new), B(!new)>(p: (A, A) -> bool, q: (B, B) -> bool, lt: (Product<A, B>, Product<A, B>) -> bool)
    requires StrictTotal(p) && StrictTotal(q)
    requires forall x, y :: lt(x, y) <==> p(x.outer, y.outer) || (x.outer == y.outer && q(x.inner, y.inner))
    ensures StrictTotal(lt)
  {
    forall x, y, z | lt(x, y) && lt(y, z) ensures lt(x, z) {
      if p(x.outer, y.outer) && p(y.outer, z.outer) {
        assert p(x.outer, z.outer);
      } else if x.outer == y.outer && y.outer == z.outer {
        assert q(x.inner, y.inner) && q(y.inner, z.inner);
      }
    }
    forall x, y ensures x == y || lt(x, y) || lt(y, x) {
      assert x.outer == y.outer || p(x.outer, y.outer) || p(y.outer, x.outer);
      assert x.inner == y.inner || q(x.inner, y.inner) || q(y.inner, x.inner);
    }
  }

  lemma NestedOrder<T(!new), S(!new), U(!new), R(!new)>(a: Domain<T, S>, b: Domain<U, R>)
    requires Lawful(a.order) && Lawful(b.order)
    ensures Lawful(Nested(a, b).order)
  {
    var o := Nested(a, b).order;
    PairOrder(a.order.le, b.order.le, o.le);
    PairTotal(a.order.lt, b.order.lt, o.lt);
    forall x, y | o.le(x, y) && x != y ensures o.lt(x, y) {
      assert a.order.le(x.outer, y.outer) && b.order.le(x.inner, y.inner);
    }
  }

  /** Nesting keeps every law. */
  lemma NestedLawful<T(!new), S(!new), U(!new), R(!new)>(a: Domain<T, S>, b: Domain<U, R>)
    requires LawfulTimes(a) && LawfulTimes(b)
    ensures LawfulTimes(Nested(a, b))
  {
    var d := Nested(a, b);
    NestedOrder(a, b);
    forall t ensures d.results(d.zero, t) == Some(t) {
      assert a.results(a.zero, t.outer) == Some(t.outer) && b.results(b.zero, t.inner) == Some(t.inner);
    }
    forall s, t | s != d.zero && d.results(s, t).Some?
      ensures d.order.le(t, d.results(s, t).value) && t != d.results(s, t).value
    {
      assert s.outer != a.zero || s.inner != b.zero;
      assert a.order.le(t.outer, t.outer) && b.order.le(t.inner, t.inner);
    }
    forall s, t, u | d.order.le(t, u) ensures NoLater(d.order.le, d.results(s, t), d.results(s, u)) {
      assert NoLater(a.order.le, a.results(s.outer, t.outer), a.results(s.outer, u.outer));
      assert NoLater(b.order.le, b.results(s.inner, t.inner), b.results(s.inner, u.inner));
    }
    forall t ensures t in d.times {
      assert t.outer in a.times && t.inner in b.times && t == Product(t.outer, t.inner);
    }
  }

  lemma NestedSummaries<T(!new), S(!new), U(!new), R(!new)>(a: Domain<T, S>, b: Domain<U, R>)
    requires LawfulSummaries(a) && LawfulSummaries(b)
    ensures LawfulSummaries(Nested(a, b))
  {
    var d := Nested(a, b);
    forall s, x, y | d.below(x, y) ensures NoLater(d.below, d.followed(s, x), d.followed(s, y)) {
      assert NoLater(a.below, a.followed(s.outer, x.outer), a.followed(s.outer, y.outer));
      assert NoLater(b.below, b.followed(s.inner, x.inner), b.followed(s.inner, y.inner));
    }
    forall s ensures s in d.summaries {
      assert s.outer in a.summaries && s.inner in b.summaries && s == Product(s.outer, s.inner);
    }
    PairOrder(a.below, b.below, d.below);
  }

  lemma NestedCompatible<T(!new), S(!new), U(!new), R(!new)>(a: Domain<T, S>, b: Domain<U, R>)
    requires Compatible(a) && Compatible(b)
    ensures Compatible(Nested(a, b))
  {
    var d := Nested(a, b);
    forall x, y, t
      ensures Then(d, y, d.results(x, t)) ==
                (if d.followed(x, y).Some? then d.results(d.followed(x, y).value, t) else None)
    {
      assert Then(a, y.outer, a.results(x.outer, t.outer)) ==
        (if a.followed(x.outer, y.outer).Some? then a.results(a.followed(x.outer, y.outer).value, t.outer) else None);
      assert Then(b, y.inner, b.results(x.inner, t.inner)) ==
        (if b.followed(x.inner, y.inner).Some? then b.results(b.followed(x.inner, y.inner).value, t.inner) else None);
    }
    forall x, y, t | d.below(x, y) ensures NoLater(d.order.le, d.results(x, t), d.results(y, t)) {
      assert NoLater(a.order.le, a.results(x.outer, t.outer), a.results(y.outer, t.outer));
      assert NoLater(b.order.le, b.results(x.inner, t.inner), b.results(y.inner, t.inner));
    }
  }

  /** Each component is taken where its summary takes it, and the pair nowhere if one of them is. */
  lemma NestedExact<T(!new), S(!new), U(!new), R(!new)>(a: Domain<T, S>, b: Domain<U, R>, s: Product<S, R>,
                                                        t: Product<T, U>, u: Product<T, U>)
    requires Lawful(a.order)
    ensures Nested(a, b).results(s, t) == Some(u) <==>
              a.results(s.outer, t.outer) == Some(u.outer) && b.results(s.inner, t.inner) == Some(u.inner)
    ensures Nested(a, b).order.le(t, u) <==> a.order.le(t.outer, u.outer) && b.order.le(t.inner, u.inner)
    ensures a.order.lt(t.outer, u.outer) ==> Nested(a, b).order.lt(t, u)
    ensures t.outer == u.outer ==> (Nested(a, b).order.lt(t, u) <==> b.order.lt(t.inner, u.inner))
  {
  }

  lemma NestedFollowed<T(!new), S(!new), U(!new), R(!new)>(a: Domain<T, S>, b: Domain<U, R>, r: Product<S, R>,
                                                           s: Product<S, R>, q: Product<S, R>)
    ensures Nested(a, b).followed(r, s) == Some(q) <==>
              a.followed(r.outer, s.outer) == Some(q.outer) && b.followed(r.inner, s.inner) == Some(q.inner)
  {
  }

  /** In products, too, a summary is below another exactly when it acts no later at all times. */
  lemma NestedFaithful<T(!new), S(!new), U(!new), R(!new)>(a: Domain<T, S>, b: Domain<U, R>)
    requires Faithful(a) && Faithful(b)
    ensures Faithful(Nested(a, b))
  {
    var d := Nested(a, b);
    forall s: Product<S, R> ensures ActsSometime(d, s) {
      assert ActsSometime(a, s.outer) && ActsSometime(b, s.inner);
      var t :| a.results(s.outer, t).Some?;
      var u :| b.results(s.inner, u).Some?;
      assert d.results(s, Product(t, u)).Some?;
    }
    forall r, s | NeverLater(d, r, s) ensures d.below(r, s) {
      NestedBelow(a, b, r, s);
    }
  }

  lemma NestedBelow<T(!new), S(!new), U(!new), R(!new)>(a: Domain<T, S>, b: Domain<U, R>, r: Product<S, R>,
                                                        s: Product<S, R>)
    requires Faithful(a) && Faithful(b)
    requires NeverLater(Nested(a, b), r, s)
    ensures a.below(r.outer, s.outer) && b.below(r.inner, s.inner)
  {
    var d := Nested(a, b);
    assert ActsSometime(a, s.outer) && ActsSometime(b, s.inner);
    var x :| a.results(s.outer, x).Some?;
    var y :| b.results(s.inner, y).Some?;
    forall t ensures NoLater(a.order.le, a.results(r.outer, t), a.results(s.outer, t)) {
      assert NoLater(d.order.le, d.results(r, Product(t, y)), d.results(s, Product(t, y)));
    }
    forall u ensures NoLater(b.order.le, b.results(r.inner, u), b.results(s.inner, u)) {
      assert NoLater(d.order.le, d.results(r, Product(x, u)), d.results(s, Product(x, u)));
    }
  }

  /** Dominance is just what the actions say: with lawful and faithful summaries, one is below another if
      and only if it acts no later at all times. */
  lemma BelowExactly<T(!new), S(!new)>(d: Domain<T, S>, r: S, s: S)
    requires Compatible(d) && Faithful(d)
    ensures d.below(r, s) <==> NeverLater(d, r, s)
  {
  }
}
