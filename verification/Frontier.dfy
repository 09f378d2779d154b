/** Antichains: fixed ones, and ones maintained over a multiset of changing counts. */
module Frontiers {
  import opened Updates
  import opened ChangeBatches
  import opened Orders

  /** Membership as a count. */
  function Mem<T(==)>(s: seq<T>, t: T): int {
    if t in s then 1 else 0
  }

  /** No two listed elements are comparable. */
  ghost predicate IsAntichain<T(!new)>(le: (T, T) -> bool, s: seq<T>) {
    forall a, b :: 0 <= a < |s| && 0 <= b < |s| && le(s[a], s[b]) ==> a == b
  }

  /** Those elements of `s` that are not above `x`. */
  function NotAbove<T(==,!new)>(le: (T, T) -> bool, x: T, s: seq<T>): (r: seq<T>)
    ensures |r| <= |s|
    ensures forall y :: y in r <==> y in s && !le(x, y)
  {
    if s == [] then []
    else
      assert s == [s[0]] + s[1..];
      (if le(x, s[0]) then [] else [s[0]]) + NotAbove(le, x, s[1..])
  }

  lemma {:induction false} NotAboveAntichain<T(!new)>(le: (T, T) -> bool, x: T, s: seq<T>)
    requires PartialOrder(le) && IsAntichain(le, s)
    ensures IsAntichain(le, NotAbove(le, x, s))
  {
    if s != [] {
      assert forall a, b :: 0 <= a < |s[1..]| && 0 <= b < |s[1..]| ==> s[1..][a] == s[a + 1] && s[1..][b] == s[b + 1];
      NotAboveAntichain(le, x, s[1..]);
      var rest := NotAbove(le, x, s[1..]);
      forall b | 0 <= b < |rest| ensures !le(s[0], rest[b]) && !le(rest[b], s[0]) {
        assert rest[b] in rest;
        var j :| 0 <= j < |s[1..]| && s[1..][j] == rest[b];
        assert s[j + 1] == rest[b];
      }
    }
  }

  lemma AnyAppend<T(!new)>(le: (T, T) -> bool, s: seq<T>, x: T)
    ensures forall t :: AnyLessEqual(le, s + [x], t) <==> AnyLessEqual(le, s, t) || le(x, t)
  {
    var r := s + [x];
    forall t | AnyLessEqual(le, s, t) || le(x, t) ensures AnyLessEqual(le, r, t) {
      if AnyLessEqual(le, s, t) {
        var i :| 0 <= i < |s| && le(s[i], t);
        assert r[i] == s[i];
      } else {
        assert r[|s|] == x;
      }
    }
  }

  /** Every element of `xs` is above some element of `f`: `PartialOrder::less_equal` on antichains. */
  predicate Dominates<T>(le: (T, T) -> bool, f: seq<T>, xs: seq<T>) {
    forall i :: 0 <= i < |xs| ==> AnyLessEqual(le, f, xs[i])
  }

  lemma DominatesAppend<T>(le: (T, T) -> bool, f: seq<T>, xs: seq<T>, x: T)
    ensures Dominates(le, f, xs + [x]) <==> Dominates(le, f, xs) && AnyLessEqual(le, f, x)
  {
    var ys := xs + [x];
    assert ys[|xs|] == x;
    assert forall i :: 0 <= i < |xs| ==> ys[i] == xs[i];
  }

  /** The elements of an antichain after `Antichain::insert`. */
  function Inserted<T(==,!new)>(le: (T, T) -> bool, s: seq<T>, x: T): seq<T> {
    if AnyLessEqual(le, s, x) then s else NotAbove(le, x, s) + [x]
  }

  /** Inserting keeps an antichain, and what it dominates grows by exactly what `x` dominates. */
  lemma InsertedAntichain<T(!new)>(le: (T, T) -> bool, s: seq<T>, x: T)
    requires PartialOrder(le) && IsAntichain(le, s)
    ensures IsAntichain(le, Inserted(le, s, x))
    ensures forall t :: AnyLessEqual(le, Inserted(le, s, x), t) <==> AnyLessEqual(le, s, t) || le(x, t)
    ensures forall y :: y in Inserted(le, s, x) ==> y in s || y == x
  {
    var r := Inserted(le, s, x);
    if !AnyLessEqual(le, s, x) {
      NotAboveAntichain(le, x, s);
      var kept := NotAbove(le, x, s);
      assert r[|kept|] == x;
      forall b | 0 <= b < |kept| ensures !le(kept[b], x) && !le(x, kept[b]) {
        assert kept[b] in kept;
      }
      forall t | AnyLessEqual(le, s, t) || le(x, t) ensures AnyLessEqual(le, r, t) {
        if le(x, t) {
          assert le(r[|kept|], t);
        } else {
          var i :| 0 <= i < |s| && le(s[i], t);
          assert s[i] in kept;
          var j :| 0 <= j < |kept| && kept[j] == s[i];
          assert r[j] == s[i];
        }
      }
      forall t | AnyLessEqual(le, r, t) ensures AnyLessEqual(le, s, t) || le(x, t) {
        var j :| 0 <= j < |r| && le(r[j], t);
        if j < |kept| {
          assert kept[j] in s;
        }
      }
    }
  }

  /** `s` is `s0` after inserting `xs`, some of which were added if `added`. */
  ghost predicate Extended<T(!new)>(le: (T, T) -> bool, s0: seq<T>, xs: seq<T>, s: seq<T>, added: bool) {
    && IsAntichain(le, s)
    && (forall t :: AnyLessEqual(le, s, t) <==> AnyLessEqual(le, s0, t) || AnyLessEqual(le, xs, t))
    && (added <==> !Dominates(le, s0, xs))
    && (!added ==> s == s0)
  }

  lemma ExtendedStep<T(!new)>(le: (T, T) -> bool, s0: seq<T>, xs: seq<T>, s: seq<T>, added: bool, x: T)
    requires PartialOrder(le) && Extended(le, s0, xs, s, added)
    ensures Extended(le, s0, xs + [x], Inserted(le, s, x), !AnyLessEqual(le, s, x) || added)
  {
    InsertedAntichain(le, s, x);
    AnyAppend(le, xs, x);
    DominatesAppend(le, s0, xs, x);
  }

  /** A set of mutually incomparable elements. */
  class Antichain<T(==,!new)> {
    const le: (T, T) -> bool
    var elements: seq<T>

    ghost predicate Valid()
      reads this
    {
      PartialOrder(le) && IsAntichain(le, elements)
    }

    constructor (le: (T, T) -> bool)
      requires PartialOrder(le)
      ensures Valid() && elements == [] && this.le == le
    {
      this.le := le;
      elements := [];
    }

    method Insert(x: T) returns (added: bool)
      requires Valid()
      modifies this
      ensures Valid() && elements == Inserted(le, old(elements), x)
      ensures added <==> !AnyLessEqual(le, old(elements), x)
      ensures forall t :: AnyLessEqual(le, elements, t) <==> AnyLessEqual(le, old(elements), t) || le(x, t)
    {
      InsertedAntichain(le, elements, x);
      if !AnyLessEqual(le, elements, x) {
        elements := NotAbove(le, x, elements);
        elements := elements + [x];
        added := true;
      } else {
        added := false;
      }
    }

    /** Inserts a sequence of elements; true iff any insertion took place. */
    method Extend(xs: seq<T>) returns (added: bool)
      requires Valid()
      modifies this
      ensures Valid()
      ensures forall t :: AnyLessEqual(le, elements, t) <==>
                AnyLessEqual(le, old(elements), t) || AnyLessEqual(le, xs, t)
      ensures added <==> !Dominates(le, old(elements), xs)
    {
      added := false;
      ghost var start := elements;
      for i := 0 to |xs|
        invariant Extended(le, start, xs[..i], elements, added)
      {
        assert xs[..i + 1] == xs[..i] + [xs[i]];
        ExtendedStep(le, start, xs[..i], elements, added, xs[i]);
        var b := Insert(xs[i]);
        added := b || added;
      }
      assert xs[..|xs|] == xs;
    }
  }

  /** An antichain of the minimal elements of a multiset whose counts change. */
  class MutableAntichain<T(==,!new)> {
    const order: Order<T>
    var dirty: nat                       // how many trailing updates have not been looked at
    var updates: seq<Update<T>>
    var frontier: seq<T>
    const changes: ChangeBatch<T>        // scratch space, empty between calls

    ghost predicate Valid()
      reads this, changes
    {
      && Lawful(order)
      && changes.Valid() && changes.updates == []
      && dirty <= |updates|
      && Distinct(frontier)
      && IsAntichain(order.le, frontier)
      && (Current(updates[..|updates| - dirty]) || Forced())
    }

    /** `frontier` is that of the counts `us`. */
    ghost predicate Current(us: seq<Update<T>>)
      reads this
    {
      IsFrontier(order, us, frontier)
    }

    /** An unexamined update touches the frontier, so that the next clean-up has to rebuild. */
    ghost predicate Forced()
      reads this
      requires dirty <= |updates|
    {
      Touched(updates, |updates| - dirty, frontier)
    }

    constructor (order: Order<T>)
      requires Lawful(order)
      ensures Valid() && fresh(changes)
      ensures updates == [] && frontier == [] && dirty == 0 && this.order == order
    {
      this.order := order;
      dirty := 0;
      updates := [];
      frontier := [];
      changes := new ChangeBatch<T>(order.lt);
    }

    /** Pushes a single update, to be looked at later. */
    method UpdateDirty(time: T, delta: int)
      requires Valid()
      modifies this
      ensures Valid() && updates == old(updates) + [(time, delta)] && dirty == old(dirty) + 1
      ensures frontier == old(frontier)
    {
      updates := updates + [(time, delta)];
      dirty := dirty + 1;
      assert updates[..|updates| - dirty] == old(updates[..|updates| - dirty]);
      TouchedAppend(old(updates), [(time, delta)], |updates| - dirty, frontier);
    }

    /** Zeroes all counts, leaving the frontier to be repaired by the next `UpdateIter`. */
    method Empty()
      requires Valid()
      modifies this
      ensures Valid() && dirty == |updates|
      ensures frontier == old(frontier)
      ensures |updates| == |old(updates)| && forall k :: 0 <= k < |updates| ==> updates[k] == (old(updates)[k].0, 0)
      ensures AllZero(updates)
    {
      ghost var was, base := updates, |updates| - dirty;
      for index := 0 to |updates|
        invariant |updates| == |was| && frontier == old(frontier) && dirty == old(dirty)
        invariant forall j :: 0 <= j < |was| ==> updates[j].0 == was[j].0
        invariant forall j :: 0 <= j < index ==> updates[j].1 == 0
      {
        updates := updates[index := (updates[index].0, 0)];
      }
      dirty := |updates|;
      ZeroTally(updates);
      if frontier == [] {
        assert updates[..|updates| - dirty] == [];
        assert IsFrontier(order, [], frontier);
      } else if Touched(was, base, frontier) {
        ghost var i :| base <= i < |was| && was[i].0 in frontier;
        assert updates[i].0 in frontier;
      } else {
        assert frontier[0] in frontier;
        TallyListed(was[..base], frontier[0]);
        ghost var i :| 0 <= i < base && was[..base][i].0 == frontier[0];
        assert updates[i].0 in frontier;
      }
    }

    /** Applies updates; returns exactly the frontier's changes, at most one per element. */
    method UpdateIter(us: seq<Update<T>>) returns (cs: seq<Update<T>>)
      requires Valid()
      modifies this, changes
      ensures Valid() && dirty == 0
      ensures SameTally(updates, old(updates) + us)
      ensures IsFrontier(order, updates, frontier)
      ensures forall t :: Tally(cs, t) == Mem(frontier, t) - Mem(old(frontier), t)
      ensures forall a, b :: 0 <= a < b < |cs| ==> cs[a].0 != cs[b].0
      ensures forall a :: 0 <= a < |cs| ==> cs[a].1 == 1 || cs[a].1 == -1
    {
      hide ChangeBatch.Valid;
      hide Lawful;
      hide Skippable;
      updates := updates + us;
      dirty := dirty + |us|;
      ghost var base, all := |updates| - dirty, updates;
      assert all[..base] == old(updates)[..base];
      TouchedAppend(old(updates), us, base, frontier);

      var rebuildRequired := false;
      while dirty > 0 && !rebuildRequired
        modifies this
        invariant dirty <= |updates| && updates == all && frontier == old(frontier)
        invariant base <= |updates| - dirty
        invariant !rebuildRequired ==> forall i :: base <= i < |updates| - dirty ==> Skippable(order, frontier, all[i])
        decreases dirty, !rebuildRequired
      {
        var u := updates[|updates| - dirty];
        rebuildRequired := !Skippable(order, frontier, u);
        dirty := dirty - 1;
      }
      dirty := 0;

      if rebuildRequired {
        Rebuild();
      } else {
        SkipSound(order, all, base, frontier);
      }
      FrontierAntichain(order, updates, frontier);
      assert updates[..|updates| - 0] == updates;
      ghost var pending := changes.updates;
      cs := changes.Drain();
      SmallDeltas(cs, pending, frontier, old(frontier));
    }

    /** Consolidates `updates` and computes the frontier from scratch, recording the difference. */
    method Rebuild()
      requires Lawful(order) && changes.Valid() && changes.updates == [] && dirty == 0
      requires Distinct(frontier)
      modifies this, changes
      ensures changes.Valid() && dirty == 0
      ensures SameTally(updates, old(updates))
      ensures IsFrontier(order, updates, frontier)
      ensures forall t :: Tally(changes.updates, t) == Mem(frontier, t) - Mem(old(frontier), t)
      ensures !LoneZero(changes.updates)
    {
      var sorted := Consolidate(order.lt, updates);
      updates := sorted;

      ghost var f0 := frontier;
      for i := 0 to |frontier|
        modifies changes
        invariant changes.Valid() && !LoneZero(changes.updates)
        invariant forall t :: Tally(changes.updates, t) == -Mem(f0[..i], t)
      {
        assert f0[..i + 1] == f0[..i] + [f0[i]];
        ghost var before := changes.updates;
        changes.Update(frontier[i], -1);
        forall t ensures Tally(changes.updates, t) == -Mem(f0[..i + 1], t) {
          TallyAppend(before, [(f0[i], -1)], t);
        }
      }
      assert f0[..|f0|] == f0;

      frontier := [];
      for i := 0 to |updates|
        modifies this`frontier
        invariant PrefixFrontier(order, sorted[..i], frontier)
      {
        var u := updates[i];
        assert sorted[..i + 1] == sorted[..i] + [u];
        ghost var before := frontier;
        if u.1 > 0 && !AnyLessEqual(order.le, frontier, u.0) {
          frontier := frontier + [u.0];
        }
        PrefixFrontierStep(order, sorted[..i], u, before, frontier);
      }
      assert sorted[..|sorted|] == sorted;
      PrefixFrontierWhole(order, sorted, frontier);

      ghost var f1 := frontier;
      for i := 0 to |frontier|
        modifies changes
        invariant changes.Valid() && !LoneZero(changes.updates)
        invariant forall t :: Tally(changes.updates, t) == Mem(f1[..i], t) - Mem(f0, t)
      {
        assert f1[..i + 1] == f1[..i] + [f1[i]];
        ghost var before := changes.updates;
        changes.Update(frontier[i], 1);
        forall t ensures Tally(changes.updates, t) == Mem(f1[..i + 1], t) - Mem(f0, t) {
          TallyAppend(before, [(f1[i], 1)], t);
        }
      }
      assert f1[..|f1|] == f1;
    }

    /** The accumulated count of `t`. */
    function CountFor(t: T): (n: int)
      reads this
    {
      Tally(updates, t)
    }
  }

  lemma {:induction false} ZeroTally<T(!new)>(us: seq<Update<T>>)
    requires forall i :: 0 <= i < |us| ==> us[i].1 == 0
    ensures AllZero(us)
  {
    if us != [] {
      ZeroTally(us[1..]);
    }
  }

  lemma SmallDeltas<T(!new)>(cs: seq<Update<T>>, pending: seq<Update<T>>, f: seq<T>, g: seq<T>)
    requires SameTally(cs, pending)
    requires forall t :: Tally(pending, t) == Mem(f, t) - Mem(g, t)
    requires forall a, b :: 0 <= a < b < |cs| ==> cs[a].0 != cs[b].0
    requires forall a :: 0 <= a < |cs| ==> cs[a].1 != 0
    ensures forall a :: 0 <= a < |cs| ==> cs[a].1 == 1 || cs[a].1 == -1
  {
    forall a | 0 <= a < |cs| ensures cs[a].1 == 1 || cs[a].1 == -1 {
      TallyDistinct(cs, a);
      assert Tally(cs, cs[a].0) == Tally(pending, cs[a].0);
    }
  }

  /** Some update from `base` on is of a frontier element. */
  ghost predicate Touched<T>(us: seq<Update<T>>, base: nat, f: seq<T>) {
    exists i :: base <= i < |us| && us[i].0 in f
  }

  lemma TouchedAppend<T>(us: seq<Update<T>>, vs: seq<Update<T>>, base: nat, f: seq<T>)
    ensures Touched(us, base, f) ==> Touched(us + vs, base, f)
  {
    if Touched(us, base, f) {
      var i :| base <= i < |us| && us[i].0 in f;
      assert (us + vs)[i] == us[i];
    }
  }

  /** If no update from `base` on asks for a rebuild, the frontier is right as it is. */
  lemma SkipSound<T(!new)>(o: Order<T>, us: seq<Update<T>>, base: nat, f: seq<T>)
    requires Lawful(o) && IsAntichain(o.le, f) && base <= |us|
    requires IsFrontier(o, us[..base], f) || Touched(us, base, f)
    requires forall i :: base <= i < |us| ==> Skippable(o, f, us[i])
    ensures IsFrontier(o, us, f)
  {
    if Touched(us, base, f) {
      var i :| base <= i < |us| && us[i].0 in f;
      NotSkippable(o, f, us[i]);
    } else {
      assert us == us[..base] + us[base..];
      SkippedKeepFrontier(o, us[..base], us[base..], f);
    }
  }

  /** Sorts, adds up neighbours with equal keys, and drops zeros. */
  method Consolidate<T(==,!new)>(lt: (T, T) -> bool, us: seq<Update<T>>) returns (vs: seq<Update<T>>)
    requires StrictTotal(lt)
    ensures SameTally(vs, us) && StrictKeys(lt, vs)
    ensures forall a :: 0 <= a < |vs| ==> vs[a].1 != 0
  {
    vs := us;
    if |vs| > 0 {
      SortBySorted(lt, vs);
      vs := SortBy(lt, vs);
      for i := 0 to |vs| - 1
        invariant |vs| == |us|
        invariant SameTally(vs, us) && SortedKeys(lt, vs)
        invariant forall j :: 0 <= j < i && vs[j].1 != 0 ==> vs[j].0 != vs[j + 1].0
      {
        if vs[i].0 == vs[i + 1].0 {
          MergeNeighbours(vs, i);
          vs := vs[i + 1 := (vs[i + 1].0, vs[i + 1].1 + vs[i].1)];
          vs := vs[i := (vs[i].0, 0)];
        }
      }
      forall a, b | 0 <= a < b < |vs| && vs[a].1 != 0 && vs[b].1 != 0 ensures lt(vs[a].0, vs[b].0) {
        assert vs[a].0 != vs[a + 1].0;
      }
      RetainStrict(lt, vs);
      forall k ensures Tally(Retain(vs), k) == Tally(vs, k) { RetainTally(vs, k); }
      vs := Retain(vs);
      forall a | 0 <= a < |vs| ensures vs[a].1 != 0 { assert vs[a] in vs; }
    }
  }

  /** An update that cannot change the frontier: strictly beyond it, or a decrement not beyond it. */
  predicate Skippable<T(==)>(o: Order<T>, f: seq<T>, u: Update<T>) {
    AnyLessThan(o.le, f, u.0) || (u.1 < 0 && !AnyLessEqual(o.le, f, u.0))
  }

  lemma NotSkippable<T(!new)>(o: Order<T>, f: seq<T>, u: Update<T>)
    requires Lawful(o) && IsAntichain(o.le, f) && u.0 in f
    ensures !Skippable(o, f, u)
  {
    var j :| 0 <= j < |f| && f[j] == u.0;
    assert o.le(f[j], u.0);
  }

  lemma FrontierAntichain<T(!new)>(o: Order<T>, us: seq<Update<T>>, f: seq<T>)
    requires Lawful(o) && IsFrontier(o, us, f)
    ensures IsAntichain(o.le, f)
  {
    forall a, b | 0 <= a < |f| && 0 <= b < |f| && o.le(f[a], f[b]) ensures a == b {
      assert f[a] in f && f[b] in f;
    }
  }

  /** Decrements of elements outside the frontier's reach only lower tallies that stay non-positive. */
  lemma {:induction false} SkippedTally<T(!new)>(o: Order<T>, skipped: seq<Update<T>>, f: seq<T>, t: T)
    requires Lawful(o) && IsAntichain(o.le, f)
    requires forall i :: 0 <= i < |skipped| ==> Skippable(o, f, skipped[i])
    ensures t in f ==> Tally(skipped, t) == 0
    ensures !AnyLessThan(o.le, f, t) ==> Tally(skipped, t) <= 0
  {
    if skipped != [] {
      SkippedTally(o, skipped[1..], f, t);
      var u := skipped[0];
      if u.0 == t && t in f {
        NotSkippable(o, f, u);
      }
    }
  }

  /** Updates that ask for no rebuild leave the frontier the minimal positive elements. */
  lemma SkippedKeepFrontier<T(!new)>(o: Order<T>, us: seq<Update<T>>, skipped: seq<Update<T>>, f: seq<T>)
    requires Lawful(o) && IsFrontier(o, us, f)
    requires forall i :: 0 <= i < |skipped| ==> Skippable(o, f, skipped[i])
    ensures IsFrontier(o, us + skipped, f)
  {
    FrontierAntichain(o, us, f);
    TallyAppendAll(us, skipped);
    var all := us + skipped;
    forall t ensures t in f ==> Tally(all, t) > 0
      ensures Tally(all, t) > 0 ==> AnyLessEqual(o.le, f, t)
    {
      SkippedTally(o, skipped, f, t);
      if t in f {
        assert MinimalPositive(o, us, t);
      }
      if Tally(all, t) > 0 && !AnyLessEqual(o.le, f, t) {
        if Tally(us, t) > 0 {
          FrontierCovers(o, us, f, t);
        }
      }
    }
    MinimalsOf(o, all, f);
  }

  /** An antichain of positive elements that reaches below every positive element is the frontier. */
  lemma MinimalsOf<T(!new)>(o: Order<T>, us: seq<Update<T>>, f: seq<T>)
    requires Lawful(o) && IsAntichain(o.le, f)
    requires forall t :: t in f ==> Tally(us, t) > 0
    requires forall t :: Tally(us, t) > 0 ==> AnyLessEqual(o.le, f, t)
    ensures IsFrontier(o, us, f)
  {
    forall a, b | 0 <= a < b < |f| ensures f[a] != f[b] {
      assert o.le(f[a], f[a]);
    }
    forall t ensures t in f <==> MinimalPositive(o, us, t) {
      if t in f {
        var k :| 0 <= k < |f| && f[k] == t;
        forall x | Tally(us, x) > 0 && o.le(x, t) ensures x == t {
          var j :| 0 <= j < |f| && o.le(f[j], x);
          assert o.le(f[j], f[k]);
        }
      }
      if MinimalPositive(o, us, t) {
        var j :| 0 <= j < |f| && o.le(f[j], t);
        assert f[j] in f;
      }
    }
  }

  ghost predicate ListedPositive<T>(us: seq<Update<T>>, t: T) {
    exists i :: 0 <= i < |us| && us[i].0 == t && us[i].1 > 0
  }

  /** `f` is the frontier of the positive entries of `us`, a consolidated prefix. */
  ghost predicate PrefixFrontier<T(!new)>(o: Order<T>, us: seq<Update<T>>, f: seq<T>) {
    && IsAntichain(o.le, f)
    && (forall j :: 0 <= j < |f| ==> ListedPositive(us, f[j]))
    && (forall i :: 0 <= i < |us| && us[i].1 > 0 ==> AnyLessEqual(o.le, f, us[i].0))
  }

  /** In key order, a later element is never below an earlier one. */
  lemma LaterNotBelow<T(!new)>(o: Order<T>, us: seq<Update<T>>, u: Update<T>, t: T)
    requires Lawful(o) && StrictKeys(o.lt, us + [u]) && ListedPositive(us, t)
    ensures ListedPositive(us + [u], t) && !o.le(u.0, t)
  {
    var i :| 0 <= i < |us| && us[i].0 == t && us[i].1 > 0;
    var vs := us + [u];
    assert vs[i] == us[i] && vs[|us|] == u;
    assert o.lt(vs[i].0, vs[|us|].0);
  }

  /** So a new minimal element displaces nothing. */
  lemma PrefixFrontierStep<T(!new)>(o: Order<T>, us: seq<Update<T>>, u: Update<T>, f: seq<T>, g: seq<T>)
    requires Lawful(o) && PrefixFrontier(o, us, f) && StrictKeys(o.lt, us + [u])
    requires g == if u.1 > 0 && !AnyLessEqual(o.le, f, u.0) then f + [u.0] else f
    ensures PrefixFrontier(o, us + [u], g)
  {
    forall j | 0 <= j < |f| ensures ListedPositive(us + [u], f[j]) && !o.le(u.0, f[j]) {
      LaterNotBelow(o, us, u, f[j]);
    }
    AnyAppend(o.le, f, u.0);
    if u.1 > 0 && !AnyLessEqual(o.le, f, u.0) {
      assert ListedPositive(us + [u], u.0) by {
        assert (us + [u])[|us|] == u;
      }
      forall a, b | 0 <= a < |g| && 0 <= b < |g| && o.le(g[a], g[b]) ensures a == b {
        if a < |f| && b < |f| {
          assert g[a] == f[a] && g[b] == f[b];
        }
      }
    }
  }

  lemma PrefixFrontierWhole<T(!new)>(o: Order<T>, us: seq<Update<T>>, f: seq<T>)
    requires Lawful(o) && PrefixFrontier(o, us, f) && StrictKeys(o.lt, us)
    ensures IsFrontier(o, us, f)
  {
    forall t ensures t in f ==> Tally(us, t) > 0
      ensures Tally(us, t) > 0 ==> AnyLessEqual(o.le, f, t)
    {
      if t in f {
        assert ListedPositive(us, t);
        var i :| 0 <= i < |us| && us[i].0 == t && us[i].1 > 0;
        TallyDistinct(us, i);
      }
      if Tally(us, t) > 0 {
        TallyListed(us, t);
        var i :| 0 <= i < |us| && us[i].0 == t;
        TallyDistinct(us, i);
      }
    }
    MinimalsOf(o, us, f);
  }
}
