/** Stable sorting by a key, and how splitting by a digit of the key composes into it. There is only one
    stable sort of a sequence. */
module StableSorts {
  import opened Basics

  /** The elements that satisfy `p`, in order. */
  ghost function Select<T>(s: seq<T>, p: T -> bool): (r: seq<T>)
    ensures |r| <= |s|
  {
    if s == [] then [] else (if p(s[0]) then [s[0]] else []) + Select(s[1..], p)
  }

  ghost function WithKey<T>(key: T -> nat, k: nat): T -> bool {
    x => key(x) == k
  }

  ghost function WithDigit<T>(digit: T -> nat, c: nat): T -> bool {
    x => digit(x) == c
  }

  lemma {:induction false} SelectAppend<T>(s: seq<T>, t: seq<T>, p: T -> bool)
    ensures Select(s + t, p) == Select(s, p) + Select(t, p)
  {
    if s == [] {
      assert s + t == t;
    } else {
      assert (s + t)[1..] == s[1..] + t;
      SelectAppend(s[1..], t, p);
      var head := if p(s[0]) then [s[0]] else [];
      assert head + (Select(s[1..], p) + Select(t, p)) == head + Select(s[1..], p) + Select(t, p);
    }
  }

  lemma SelectOne<T>(x: T, p: T -> bool)
    ensures Select([x], p) == if p(x) then [x] else []
  {
    assert Select([x][1..], p) == [];
  }

  lemma {:induction false} SelectIn<T(!new)>(s: seq<T>, p: T -> bool)
    ensures forall x :: x in Select(s, p) <==> x in s && p(x)
  {
    if s != [] {
      SelectIn(s[1..], p);
      assert s == [s[0]] + s[1..];
    }
  }

  /** Selecting twice, when the second condition implies the first. */
  lemma {:induction false} SelectTwice<T(!new)>(s: seq<T>, p: T -> bool, q: T -> bool)
    requires forall x :: x in s && q(x) ==> p(x)
    ensures Select(Select(s, p), q) == Select(s, q)
  {
    if s != [] {
      SelectTwice(s[1..], p, q);
      SelectAppend(if p(s[0]) then [s[0]] else [], Select(s[1..], p), q);
      SelectOne(s[0], q);
    }
  }

  lemma {:induction false} SelectNone<T(!new)>(s: seq<T>, p: T -> bool)
    requires forall x :: x in s ==> !p(x)
    ensures Select(s, p) == []
  {
    if s != [] {
      SelectNone(s[1..], p);
    }
  }

  lemma {:induction false} SelectSame<T(!new)>(s: seq<T>, p: T -> bool, q: T -> bool)
    requires forall x :: x in s ==> p(x) == q(x)
    ensures Select(s, p) == Select(s, q)
  {
    if s != [] {
      SelectSame(s[1..], p, q);
    }
  }

  // ---- stable sorting ----

  ghost predicate SortedBy<T>(key: T -> nat, s: seq<T>) {
    forall i, j :: 0 <= i < j < |s| ==> key(s[i]) <= key(s[j])
  }

  /** `r` is sorted, and lists the elements with each key just as `s` does. */
  ghost predicate IsStableSort<T(!new)>(key: T -> nat, r: seq<T>, s: seq<T>) {
    SortedBy(key, r) && forall k :: Select(r, WithKey(key, k)) == Select(s, WithKey(key, k))
  }

  function InsertByKey<T>(key: T -> nat, x: T, s: seq<T>): seq<T> {
    if s != [] && key(s[0]) < key(x) then [s[0]] + InsertByKey(key, x, s[1..]) else [x] + s
  }

  /** The library's stable sort. */
  function StableSort<T>(key: T -> nat, s: seq<T>): seq<T> {
    if s == [] then [] else InsertByKey(key, s[0], StableSort(key, s[1..]))
  }

  lemma {:induction false} InsertByKeyIn<T(!new)>(key: T -> nat, x: T, s: seq<T>)
    ensures |InsertByKey(key, x, s)| == |s| + 1
    ensures forall y :: y in InsertByKey(key, x, s) <==> y == x || y in s
  {
    if s != [] && key(s[0]) < key(x) {
      InsertByKeyIn(key, x, s[1..]);
      assert s == [s[0]] + s[1..];
    }
  }

  lemma {:induction false} InsertByKeySorted<T(!new)>(key: T -> nat, x: T, s: seq<T>)
    requires SortedBy(key, s)
    ensures SortedBy(key, InsertByKey(key, x, s))
  {
    if s != [] && key(s[0]) < key(x) {
      InsertByKeySorted(key, x, s[1..]);
      InsertByKeyIn(key, x, s[1..]);
      var rest := InsertByKey(key, x, s[1..]);
      forall j | 0 <= j < |rest| ensures key(s[0]) <= key(rest[j]) {
        assert rest[j] in rest;
        if rest[j] != x {
          var i :| 0 <= i < |s[1..]| && s[1..][i] == rest[j];
          assert s[i + 1] == rest[j];
        }
      }
    }
  }

  lemma {:induction false} InsertByKeySelect<T(!new)>(key: T -> nat, x: T, s: seq<T>, k: nat)
    ensures Select(InsertByKey(key, x, s), WithKey(key, k)) ==
              (if key(x) == k then [x] else []) + Select(s, WithKey(key, k))
  {
    var r := InsertByKey(key, x, s);
    if s != [] && key(s[0]) < key(x) {
      InsertByKeySelect(key, x, s[1..], k);
      assert r[1..] == InsertByKey(key, x, s[1..]);
    } else {
      assert r[1..] == s;
    }
  }

  lemma {:induction false} StableSortIs<T(!new)>(key: T -> nat, s: seq<T>)
    ensures IsStableSort(key, StableSort(key, s), s) && |StableSort(key, s)| == |s|
  {
    if s != [] {
      StableSortIs(key, s[1..]);
      InsertByKeySorted(key, s[0], StableSort(key, s[1..]));
      InsertByKeyIn(key, s[0], StableSort(key, s[1..]));
      forall k ensures Select(StableSort(key, s), WithKey(key, k)) == Select(s, WithKey(key, k)) {
        InsertByKeySelect(key, s[0], StableSort(key, s[1..]), k);
      }
    }
  }

  /** A sorted sequence begins with the first of its elements with the least key. */
  lemma SortedHead<T(!new)>(key: T -> nat, r: seq<T>, s: seq<T>)
    requires SortedBy(key, r) && SortedBy(key, s) && r != []
    requires forall k :: Select(r, WithKey(key, k)) == Select(s, WithKey(key, k))
    ensures s != [] && key(s[0]) <= key(r[0])
  {
    var k := key(r[0]);
    assert Select(r, WithKey(key, k)) != [];
    SelectIn(s, WithKey(key, k));
    var x := Select(s, WithKey(key, k))[0];
    assert x in Select(s, WithKey(key, k));
    var i :| 0 <= i < |s| && s[i] == x;
  }

  /** There is only one stable sort. */
  lemma {:induction false} StableSortUnique<T(!new)>(key: T -> nat, r: seq<T>, s: seq<T>)
    requires SortedBy(key, r) && SortedBy(key, s)
    requires forall k :: Select(r, WithKey(key, k)) == Select(s, WithKey(key, k))
    ensures r == s
    decreases |r|
  {
    if r == [] {
      if s != [] {
        SortedHead(key, s, r);
      }
    } else {
      SortedHead(key, r, s);
      SortedHead(key, s, r);
      var k := key(r[0]);
      assert Select(r, WithKey(key, k))[0] == r[0] && Select(s, WithKey(key, k))[0] == s[0];
      forall j ensures Select(r[1..], WithKey(key, j)) == Select(s[1..], WithKey(key, j)) {
        var a, b := Select(r, WithKey(key, j)), Select(s, WithKey(key, j));
        assert Select(r[1..], WithKey(key, j)) == if j == k then a[1..] else a;
        assert Select(s[1..], WithKey(key, j)) == if j == k then b[1..] else b;
      }
      StableSortUnique(key, r[1..], s[1..]);
    }
  }

  lemma IsTheStableSort<T(!new)>(key: T -> nat, r: seq<T>, s: seq<T>)
    requires IsStableSort(key, r, s)
    ensures r == StableSort(key, s)
  {
    StableSortIs(key, s);
    StableSortUnique(key, r, StableSort(key, s));
  }

  /** The elements of a stable sort are those sorted. */
  lemma StableSortIn<T(!new)>(key: T -> nat, r: seq<T>, s: seq<T>, x: T)
    requires IsStableSort(key, r, s)
    ensures x in r <==> x in s
  {
    SelectIn(r, WithKey(key, key(x)));
    SelectIn(s, WithKey(key, key(x)));
    assert x in r <==> x in Select(r, WithKey(key, key(x)));
  }

  // ---- splitting by a digit ----

  /** Parts are sorted by the digit that determines where the elements of `s` go. */
  ghost predicate Split<T(!new)>(key: T -> nat, digit: T -> nat, s: seq<T>, parts: seq<seq<T>>) {
    && (forall c :: 0 <= c < |parts| ==> IsStableSort(key, parts[c], Select(s, WithDigit(digit, c))))
    && (forall x :: x in s ==> digit(x) < |parts|)
  }

  /** The digit leads the order of keys. */
  ghost predicate DigitFirst<T(!new)>(key: T -> nat, digit: T -> nat, s: seq<T>) {
    forall x, y :: x in s && y in s ==>
      (digit(x) < digit(y) ==> key(x) < key(y)) && (key(x) == key(y) ==> digit(x) == digit(y))
  }

  lemma PartDigit<T(!new)>(key: T -> nat, digit: T -> nat, s: seq<T>, parts: seq<seq<T>>, c: nat, x: T)
    requires Split(key, digit, s, parts) && c < |parts|
    ensures x in parts[c] <==> x in s && digit(x) == c
  {
    StableSortIn(key, parts[c], Select(s, WithDigit(digit, c)), x);
    SelectIn(s, WithDigit(digit, c));
  }

  lemma {:induction false} FlattenSorted<T(!new)>(key: T -> nat, parts: seq<seq<T>>)
    requires forall c :: 0 <= c < |parts| ==> SortedBy(key, parts[c])
    requires forall b, c, x, y :: 0 <= b < c < |parts| && x in parts[b] && y in parts[c] ==> key(x) <= key(y)
    ensures SortedBy(key, Flatten(parts))
  {
    if parts != [] {
      var rest := Flatten(parts[1..]);
      FlattenSorted(key, parts[1..]);
      forall j | 0 <= j < |rest| ensures forall x :: x in parts[0] ==> key(x) <= key(rest[j]) {
        FlattenIn(parts[1..], rest[j]);
        var c :| 0 <= c < |parts[1..]| && rest[j] in parts[1..][c];
        assert rest[j] in parts[c + 1];
      }
    }
  }

  lemma {:induction false} FlattenSelect<T(!new)>(parts: seq<seq<T>>, p: T -> bool, c: nat)
    requires c < |parts| && forall b, x :: 0 <= b < |parts| && b != c && x in parts[b] ==> !p(x)
    ensures Select(Flatten(parts), p) == Select(parts[c], p)
  {
    SelectAppend(parts[0], Flatten(parts[1..]), p);
    if c == 0 {
      forall x | x in Flatten(parts[1..]) ensures !p(x) {
        FlattenIn(parts[1..], x);
        var b :| 0 <= b < |parts[1..]| && x in parts[1..][b];
        assert x in parts[b + 1];
      }
      SelectNone(Flatten(parts[1..]), p);
    } else {
      SelectNone(parts[0], p);
      forall b, x | 0 <= b < |parts[1..]| && b != c - 1 && x in parts[1..][b] ensures !p(x) {
        assert x in parts[b + 1];
      }
      FlattenSelect(parts[1..], p, c - 1);
    }
  }

  /** Sorting by the leading digit first, and each part by the key, is sorting by the key. */
  lemma RadixJoin<T(!new)>(key: T -> nat, digit: T -> nat, s: seq<T>, parts: seq<seq<T>>)
    requires Split(key, digit, s, parts) && DigitFirst(key, digit, s)
    ensures IsStableSort(key, Flatten(parts), s)
  {
    hide IsStableSort;
    forall c, x | 0 <= c < |parts| ensures x in parts[c] <==> x in s && digit(x) == c {
      PartDigit(key, digit, s, parts, c, x);
    }
    forall c | 0 <= c < |parts| ensures SortedBy(key, parts[c]) {
      StableSortParts(key, parts[c], Select(s, WithDigit(digit, c)), 0);
    }
    FlattenSorted(key, parts);
    forall k: nat ensures Select(Flatten(parts), WithKey(key, k)) == Select(s, WithKey(key, k)) {
      JoinSelect(key, digit, s, parts, k);
    }
    StableSortMade(key, Flatten(parts), s);
  }

  lemma StableSortParts<T(!new)>(key: T -> nat, r: seq<T>, s: seq<T>, k: nat)
    requires IsStableSort(key, r, s)
    ensures SortedBy(key, r) && Select(r, WithKey(key, k)) == Select(s, WithKey(key, k))
  {
  }

  lemma StableSortMade<T(!new)>(key: T -> nat, r: seq<T>, s: seq<T>)
    requires SortedBy(key, r) && forall k: nat :: Select(r, WithKey(key, k)) == Select(s, WithKey(key, k))
    ensures IsStableSort(key, r, s)
  {
  }

  lemma JoinSelect<T(!new)>(key: T -> nat, digit: T -> nat, s: seq<T>, parts: seq<seq<T>>, k: nat)
    requires Split(key, digit, s, parts) && DigitFirst(key, digit, s)
    requires forall c, x :: 0 <= c < |parts| ==> (x in parts[c] <==> x in s && digit(x) == c)
    ensures Select(Flatten(parts), WithKey(key, k)) == Select(s, WithKey(key, k))
  {
    hide IsStableSort;
    hide Flatten;
    hide Select;
    if y :| y in s && key(y) == k {
      var c := digit(y);
      FlattenSelect(parts, WithKey(key, k), c);
      StableSortParts(key, parts[c], Select(s, WithDigit(digit, c)), k);
      SelectTwice(s, WithDigit(digit, c), WithKey(key, k));
    } else {
      SelectNone(s, WithKey(key, k));
      forall x | x in Flatten(parts) ensures key(x) != k {
        FlattenIn(parts, x);
      }
      SelectNone(Flatten(parts), WithKey(key, k));
    }
  }
}
