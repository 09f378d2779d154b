/** Sums of a function over a finite set: how they change with the set and the function, and what their
    sign tells of the values. */
module Sums {

  ghost function Sum<K(!new)>(s: set<K>, f: K -> int): int {
    if s == {} then 0
    else
      var x :| x in s;
      f(x) + Sum(s - {x}, f)
  }

  lemma {:induction false} SumRemove<K(!new)>(s: set<K>, f: K -> int, x: K)
    requires x in s
    ensures Sum(s, f) == f(x) + Sum(s - {x}, f)
    decreases |s|
  {
    var y :| y in s && Sum(s, f) == f(y) + Sum(s - {y}, f);
    if y != x {
      SumRemove(s - {y}, f, x);
      SumRemove(s - {x}, f, y);
      assert s - {y} - {x} == s - {x} - {y};
    }
  }

  lemma SumAdd<K(!new)>(s: set<K>, f: K -> int, x: K)
    requires x !in s
    ensures Sum(s + {x}, f) == f(x) + Sum(s, f)
  {
    SumRemove(s + {x}, f, x);
    assert s + {x} - {x} == s;
  }

  /** Functions that agree everywhere on `s` but at `x`. */
  lemma {:induction false} SumChange<K(!new)>(s: set<K>, f: K -> int, g: K -> int, x: K)
    requires forall y :: y in s && y != x ==> f(y) == g(y)
    ensures Sum(s, g) == Sum(s, f) + if x in s then g(x) - f(x) else 0
    decreases |s|
  {
    if s != {} {
      var y :| y in s;
      SumRemove(s, f, y);
      SumRemove(s, g, y);
      SumChange(s - {y}, f, g, x);
    }
  }

  lemma {:induction false} SumBounds<K(!new)>(s: set<K>, f: K -> int)
    requires forall y :: y in s ==> f(y) >= 0
    ensures Sum(s, f) >= 0
    ensures forall y :: y in s ==> f(y) <= Sum(s, f)
    decreases |s|
  {
    if s != {} {
      var y :| y in s;
      SumRemove(s, f, y);
      SumBounds(s - {y}, f);
    }
  }

  lemma {:induction false} SumConstant<K(!new)>(s: set<K>, f: K -> int, c: int)
    requires forall y :: y in s ==> f(y) == c
    ensures Sum(s, f) == |s| * c
    decreases |s|
  {
    if s != {} {
      var y :| y in s;
      SumRemove(s, f, y);
      SumConstant(s - {y}, f, c);
    }
  }

  lemma {:induction false} SumSame<K(!new)>(s: set<K>, f: K -> int, g: K -> int)
    requires forall y :: y in s ==> f(y) == g(y)
    ensures Sum(s, g) == Sum(s, f)
    decreases |s|
  {
    if s != {} {
      var y :| y in s;
      SumRemove(s, f, y);
      SumRemove(s, g, y);
      SumSame(s - {y}, f, g);
    }
  }

  lemma {:induction false} SumMinus<K(!new)>(s: set<K>, f: K -> int, g: K -> int, h: K -> int)
    requires forall y :: y in s ==> h(y) == f(y) - g(y)
    ensures Sum(s, h) == Sum(s, f) - Sum(s, g)
    decreases |s|
  {
    if s != {} {
      var y :| y in s;
      SumRemove(s, f, y);
      SumRemove(s, g, y);
      SumRemove(s, h, y);
      SumMinus(s - {y}, f, g, h);
    }
  }

  /** A positive sum has a positive term. */
  lemma {:induction false} SumPositive<K(!new)>(s: set<K>, f: K -> int) returns (x: K)
    requires Sum(s, f) > 0
    ensures x in s && f(x) > 0
    decreases |s|
  {
    x :| x in s;
    SumRemove(s, f, x);
    if f(x) <= 0 {
      x := SumPositive(s - {x}, f);
    }
  }
}
