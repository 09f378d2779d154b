/** What a radix sort makes of any action. */
module Groupings {
  // A radix sort from the most significant byte promises this of an action that it does not know: the
  // action is applied to groups of elements, which leave no element out, have no key in common, come in
  // the order of their keys, and list their elements in order of arrival.

  import opened Basics
  import opened StableSorts
  import opened Radix

  /** Some element of `group` has the key of `x`. */
  ghost predicate HasKey<T(!new)>(key: T -> nat, group: seq<T>, x: T) {
    exists y :: y in group && key(y) == key(x)
  }

  ghost function Like<T(!new)>(key: T -> nat, group: seq<T>): T -> bool {
    x => HasKey(key, group, x)
  }

  ghost predicate Apart<T(!new)>(key: T -> nat, a: seq<T>, b: seq<T>) {
    forall x, y :: x in a && y in b ==> key(x) < key(y)
  }

  /** The elements of `s` with certain keys, in order. */
  ghost predicate IsGroup<T(!new)>(key: T -> nat, s: seq<T>, group: seq<T>) {
    group == Select(s, Like(key, group))
  }

  ghost predicate Covered<T(!new)>(groups: seq<seq<T>>, x: T) {
    exists i :: 0 <= i < |groups| && x in groups[i]
  }

  /** Each group lists all elements of `s` with certain keys, and later groups have greater keys. */
  ghost predicate Groups<T(!new)>(key: T -> nat, s: seq<T>, groups: seq<seq<T>>) {
    && (forall i :: 0 <= i < |groups| ==> IsGroup(key, s, groups[i]))
    && (forall i, j :: 0 <= i < j < |groups| ==> Apart(key, groups[i], groups[j]))
    && (forall x :: x in s ==> Covered(groups, x))
  }

  ghost function Acted<T>(action: seq<T> -> seq<T>, groups: seq<seq<T>>): seq<T> {
    if groups == [] then [] else action(groups[0]) + Acted(action, groups[1..])
  }

  /** `r` is what the action makes of some groups of `s`, one after the other. */
  ghost predicate Outcome<T(!new)>(key: T -> nat, action: seq<T> -> seq<T>, s: seq<T>, r: seq<T>) {
    exists groups :: Groups(key, s, groups) && r == Acted(action, groups)
  }

  lemma {:induction false} ActedAppend<T>(action: seq<T> -> seq<T>, a: seq<seq<T>>, b: seq<seq<T>>)
    ensures Acted(action, a + b) == Acted(action, a) + Acted(action, b)
  {
    if a == [] {
      assert a + b == b;
    } else {
      assert (a + b)[1..] == a[1..] + b;
      ActedAppend(action, a[1..], b);
    }
  }

  /** All elements may be one group. */
  lemma OutcomeWhole<T(!new)>(key: T -> nat, action: seq<T> -> seq<T>, s: seq<T>)
    ensures Outcome(key, action, s, action(s))
  {
    hide Select;
    SelectAll(s, Like(key, s));
    assert forall x :: x in s ==> x in [s][0];
    assert Groups(key, s, [s]);
    assert Acted(action, [s]) == action(s) + Acted(action, []);
  }

  lemma OutcomeNothing<T(!new)>(key: T -> nat, action: seq<T> -> seq<T>)
    ensures Outcome(key, action, [], [])
  {
    assert Groups<T>(key, [], []) && Acted(action, []) == [];
  }

  ghost function Not<T>(p: T -> bool): T -> bool {
    x => !p(x)
  }

  /** Groups of elements with lesser keys are followed by groups of those with greater keys. */
  lemma GroupsJoin<T(!new)>(key: T -> nat, s: seq<T>, p: T -> bool, a: seq<seq<T>>, b: seq<seq<T>>)
    requires Groups(key, Select(s, p), a) && Groups(key, Select(s, Not(p)), b)
    requires Apart(key, Select(s, p), Select(s, Not(p)))
    ensures Groups(key, s, a + b)
  {
    hide Select;
    hide IsGroup;
    hide Like;
    SelectIn(s, p);
    SelectIn(s, Not(p));
    forall i | 0 <= i < |a| ensures IsGroup(key, s, a[i]) {
      GroupSelected(key, s, p, Not(p), a[i]);
    }
    forall i | 0 <= i < |b| ensures IsGroup(key, s, b[i]) {
      GroupSelected(key, s, Not(p), p, b[i]);
    }
    forall i, j | 0 <= i < |a| && 0 <= j < |b| ensures Apart(key, a[i], b[j]) {
      GroupIn(key, Select(s, p), a[i]);
      GroupIn(key, Select(s, Not(p)), b[j]);
    }
    forall x | x in s ensures Covered(a + b, x) {
      if p(x) {
        var i :| 0 <= i < |a| && x in a[i];
        assert x in (a + b)[i];
      } else {
        assert x in Select(s, Not(p));
        var i :| 0 <= i < |b| && x in b[i];
        assert x in (a + b)[|a| + i];
      }
    }
  }

  lemma GroupIn<T(!new)>(key: T -> nat, s: seq<T>, group: seq<T>)
    requires IsGroup(key, s, group)
    ensures forall x :: x in group <==> x in s && Like(key, group)(x)
  {
    SelectIn(s, Like(key, group));
  }

  /** A group of some elements is one of all, if no other element has a key like one of them. */
  lemma GroupSelected<T(!new)>(key: T -> nat, s: seq<T>, p: T -> bool, others: T -> bool, group: seq<T>)
    requires IsGroup(key, Select(s, p), group) && forall x :: p(x) || others(x)
    requires Apart(key, Select(s, p), Select(s, others)) || Apart(key, Select(s, others), Select(s, p))
    ensures IsGroup(key, s, group)
  {
    GroupIn(key, Select(s, p), group);
    SelectIn(s, p);
    SelectIn(s, others);
    forall x | x in s && Like(key, group)(x) ensures p(x) {
      var y :| y in group && key(y) == key(x);
      assert y in Select(s, p) && (!p(x) ==> x in Select(s, others));
    }
    SelectTwice(s, p, Like(key, group));
  }

  lemma OutcomeJoin<T(!new)>(key: T -> nat, action: seq<T> -> seq<T>, s: seq<T>, p: T -> bool, a: seq<T>, b: seq<T>)
    requires Outcome(key, action, Select(s, p), a) && Outcome(key, action, Select(s, Not(p)), b)
    requires Apart(key, Select(s, p), Select(s, Not(p)))
    ensures Outcome(key, action, s, a + b)
  {
    var x :| Groups(key, Select(s, p), x) && a == Acted(action, x);
    var y :| Groups(key, Select(s, Not(p)), y) && b == Acted(action, y);
    GroupsJoin(key, s, p, x, y);
    ActedAppend(action, x, y);
  }

  // ---- splitting by a byte ----

  ghost function AtLeast<T>(digit: T -> nat, c: nat): T -> bool {
    x => digit(x) >= c
  }

  /** The elements in the buckets of byte `d` from `c` on. */
  ghost function From<T>(key: T -> nat, d: nat, s: seq<T>, c: nat): seq<T> {
    Select(s, AtLeast(ByteOn(key, d), c))
  }

  lemma {:induction false} SelectAll<T(!new)>(s: seq<T>, p: T -> bool)
    requires forall x :: x in s ==> p(x)
    ensures Select(s, p) == s
  {
    if s != [] {
      SelectAll(s[1..], p);
    }
  }

  lemma {:induction false} SelectSizes<T(!new)>(s: seq<T>, p: T -> bool)
    ensures |Select(s, p)| + |Select(s, Not(p))| == |s|
  {
    if s != [] {
      SelectSizes(s[1..], p);
    }
  }

  lemma FromAll<T(!new)>(key: T -> nat, d: nat, s: seq<T>)
    ensures From(key, d, s, 0) == s && From(key, d, s, 256) == []
  {
    SelectAll(s, AtLeast(ByteOn(key, d), 0));
    SelectNone(s, AtLeast(ByteOn(key, d), 256));
  }

  lemma FromParts<T(!new)>(key: T -> nat, d: nat, s: seq<T>, c: nat)
    ensures Select(From(key, d, s, c), WithDigit(ByteOn(key, d), c)) == Bucket(key, d, s, c)
    ensures Select(From(key, d, s, c), Not(WithDigit(ByteOn(key, d), c))) == From(key, d, s, c + 1)
    ensures |From(key, d, s, c)| == |Bucket(key, d, s, c)| + |From(key, d, s, c + 1)|
  {
    var rest, p := AtLeast(ByteOn(key, d), c), WithDigit(ByteOn(key, d), c);
    SelectTwice(s, rest, p);
    SelectBoth(s, rest, Not(p), AtLeast(ByteOn(key, d), c + 1));
    SelectSizes(From(key, d, s, c), p);
  }

  lemma {:induction false} SelectBoth<T(!new)>(s: seq<T>, p: T -> bool, q: T -> bool, both: T -> bool)
    requires forall x :: both(x) <==> p(x) && q(x)
    ensures Select(Select(s, p), q) == Select(s, both)
  {
    if s != [] {
      SelectBoth(s[1..], p, q, both);
      SelectAppend(if p(s[0]) then [s[0]] else [], Select(s[1..], p), q);
      SelectOne(s[0], q);
    }
  }

  /** What becomes of one bucket, and then of those above it, is what becomes of them together. */
  lemma OutcomeFrom<T(!new)>(key: T -> nat, action: seq<T> -> seq<T>, d: nat, s: seq<T>, c: nat, a: seq<T>, b: seq<T>)
    requires SharesHigh(key, d + 1, s)
    requires Outcome(key, action, Bucket(key, d, s, c), a) && Outcome(key, action, From(key, d, s, c + 1), b)
    ensures Outcome(key, action, From(key, d, s, c), a + b)
  {
    hide Outcome;
    FromParts(key, d, s, c);
    SelectIn(s, WithDigit(ByteOn(key, d), c));
    SelectIn(s, AtLeast(ByteOn(key, d), c + 1));
    forall x, y | x in Bucket(key, d, s, c) && y in From(key, d, s, c + 1) ensures key(x) < key(y) {
      HighLess(key(x), key(y), d);
    }
    OutcomeJoin(key, action, From(key, d, s, c), WithDigit(ByteOn(key, d), c), a, b);
  }

  // ---- actions that sort, and actions that work key by key ----

  lemma {:induction false} ActedFlat<T>(action: seq<T> -> seq<T>, groups: seq<seq<T>>, parts: seq<seq<T>>)
    requires |parts| == |groups| && forall i :: 0 <= i < |groups| ==> parts[i] == action(groups[i])
    ensures Acted(action, groups) == Flatten(parts)
  {
    if groups != [] {
      ActedFlat(action, groups[1..], parts[1..]);
    }
  }

  /** The action sorts each group by `fine`, and makes of the elements with each key what `per` says. */
  ghost predicate KeyByKey<T(!new)>(fine: T -> nat, action: seq<T> -> seq<T>, per: (nat, seq<T>) -> seq<T>) {
    && (forall group :: SortedBy(fine, action(group)))
    && (forall group, k: nat :: Select(action(group), WithKey(fine, k)) == per(k, Select(group, WithKey(fine, k))))
    && (forall k: nat :: per(k, []) == [])
  }

  /** Keys in the order of `key` are in that of `fine`, which may tell more elements apart. */
  ghost predicate Refines<T(!new)>(fine: T -> nat, key: T -> nat) {
    forall x, y :: key(x) < key(y) ==> fine(x) < fine(y)
  }

  /** An action that works key by key does so for all elements, whatever the groups. The key may be one of
      which the radix key is but a part. */
  lemma OutcomeByKey<T(!new)>(key: T -> nat, fine: T -> nat, action: seq<T> -> seq<T>, per: (nat, seq<T>) -> seq<T>,
                              s: seq<T>, r: seq<T>)
    requires KeyByKey(fine, action, per) && Refines(fine, key) && Outcome(key, action, s, r)
    ensures SortedBy(fine, r) && forall k: nat :: Select(r, WithKey(fine, k)) == per(k, Select(s, WithKey(fine, k)))
  {
    hide *;
    var groups := GroupsOf(key, action, s, r);
    var parts := seq(|groups|, i requires 0 <= i < |groups| => action(groups[i]));
    ActedFlat(action, groups, parts);
    forall i, x | 0 <= i < |groups| && x in parts[i] ensures HasKey(fine, groups[i], x) {
      NoNewKey(fine, action, per, groups[i], x);
    }
    PartsSorted(key, fine, action, per, s, groups, parts);
    forall k: nat ensures Select(r, WithKey(fine, k)) == per(k, Select(s, WithKey(fine, k))) {
      SelectGroups(key, fine, action, per, s, groups, parts, k);
    }
  }

  lemma GroupsOf<T(!new)>(key: T -> nat, action: seq<T> -> seq<T>, s: seq<T>, r: seq<T>) returns (groups: seq<seq<T>>)
    requires Outcome(key, action, s, r)
    ensures Groups(key, s, groups) && r == Acted(action, groups)
  {
    groups :| Groups(key, s, groups) && r == Acted(action, groups);
  }

  lemma PartsSorted<T(!new)>(key: T -> nat, fine: T -> nat, action: seq<T> -> seq<T>, per: (nat, seq<T>) -> seq<T>,
                             s: seq<T>, groups: seq<seq<T>>, parts: seq<seq<T>>)
    requires KeyByKey(fine, action, per) && Refines(fine, key) && Groups(key, s, groups) && |parts| == |groups|
    requires forall i :: 0 <= i < |groups| ==> parts[i] == action(groups[i])
    requires forall i, x :: 0 <= i < |groups| && x in parts[i] ==> HasKey(fine, groups[i], x)
    ensures SortedBy(fine, Flatten(parts))
  {
    hide Select;
    hide IsGroup;
    forall b, c, x, y | 0 <= b < c < |parts| && x in parts[b] && y in parts[c] ensures fine(x) <= fine(y) {
      var u :| u in groups[b] && fine(u) == fine(x);
      var w :| w in groups[c] && fine(w) == fine(y);
      assert Apart(key, groups[b], groups[c]);
    }
    FlattenSorted(fine, parts);
  }

  lemma NoNewKey<T(!new)>(fine: T -> nat, action: seq<T> -> seq<T>, per: (nat, seq<T>) -> seq<T>, group: seq<T>, x: T)
    requires KeyByKey(fine, action, per) && x in action(group)
    ensures HasKey(fine, group, x)
  {
    var p := WithKey(fine, fine(x));
    SelectIn(action(group), p);
    SelectIn(group, p);
    assert x in Select(action(group), p);
    assert Select(group, p) != [];
    assert Select(group, p)[0] in Select(group, p);
  }

  /** The elements with one key are in one group. */
  lemma SelectGroups<T(!new)>(key: T -> nat, fine: T -> nat, action: seq<T> -> seq<T>, per: (nat, seq<T>) -> seq<T>,
                              s: seq<T>, groups: seq<seq<T>>, parts: seq<seq<T>>, k: nat)
    requires KeyByKey(fine, action, per) && Refines(fine, key) && Groups(key, s, groups) && |parts| == |groups|
    requires forall i :: 0 <= i < |groups| ==> parts[i] == action(groups[i])
    requires forall i, x :: 0 <= i < |groups| && x in parts[i] ==> HasKey(fine, groups[i], x)
    ensures Select(Flatten(parts), WithKey(fine, k)) == per(k, Select(s, WithKey(fine, k)))
  {
    hide Select;
    if y :| y in s && fine(y) == k {
      assert Covered(groups, y);
      var c :| 0 <= c < |groups| && y in groups[c];
      forall b, x | 0 <= b < |parts| && b != c && x in parts[b] ensures !WithKey(fine, k)(x) {
        assert Apart(key, groups[if b < c then b else c], groups[if b < c then c else b]);
      }
      FlattenSelect(parts, WithKey(fine, k), c);
      GroupKey(key, fine, groups[c], y);
      assert IsGroup(key, s, groups[c]);
      SelectTwice(s, Like(key, groups[c]), WithKey(fine, k));
    } else {
      SelectNone(s, WithKey(fine, k));
      forall x | x in Flatten(parts) ensures fine(x) != k {
        FlattenIn(parts, x);
        var i :| 0 <= i < |parts| && x in parts[i];
        GroupIn(key, s, groups[i]);
      }
      SelectNone(Flatten(parts), WithKey(fine, k));
    }
  }

  lemma GroupKey<T(!new)>(key: T -> nat, fine: T -> nat, group: seq<T>, y: T)
    requires y in group && Refines(fine, key)
    ensures forall x :: fine(x) == fine(y) ==> Like(key, group)(x)
  {
    forall x | fine(x) == fine(y) ensures Like(key, group)(x) {
      assert !(key(x) < key(y)) && !(key(y) < key(x));
    }
  }

  /** An action that finishes a batch by sorting it. */
  ghost predicate Sorts<T(!new)>(action: seq<T> -> seq<T>, key: T -> nat) {
    forall s :: action(s) == StableSort(key, s)
  }

  /** If the action sorts by the key, or by one of which the radix key is but a part, all is sorted by that. */
  lemma OutcomeSorted<T(!new)>(key: T -> nat, fine: T -> nat, action: seq<T> -> seq<T>, s: seq<T>, r: seq<T>)
    requires Sorts(action, fine) && Refines(fine, key) && Outcome(key, action, s, r)
    ensures r == StableSort(fine, s)
  {
    var per: (nat, seq<T>) -> seq<T> := (k, x) => x;
    forall group ensures IsStableSort(fine, action(group), group) {
      StableSortIs(fine, group);
    }
    assert KeyByKey(fine, action, per);
    OutcomeByKey(key, fine, action, per, s, r);
    StableSortMade(fine, r, s);
    IsTheStableSort(fine, r, s);
  }
}
