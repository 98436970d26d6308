/** Sorting by a key, largest first, as sort.Sort and sort.Slice promise it: elements of equal keys in any order. */
module Sorting {

  ghost predicate Descending<T>(s: seq<T>, key: T -> int) {
    forall i, j :: 0 <= i < j < |s| ==> key(s[i]) >= key(s[j])
  }

  ghost predicate Sorts<T>(out: seq<T>, s: seq<T>, key: T -> int) {
    Descending(out, key) && multiset(out) == multiset(s)
  }

  /** All that callers rely on is `Sorts`. */
  method Sort<T>(s: seq<T>, key: T -> int) returns (out: seq<T>)
    ensures Sorts(out, s, key)
  {
    out := [];
    var i := 0;
    while i < |s|
      invariant i <= |s| && Sorts(out, s[..i], key)
    {
      InsertHolds(out, key, s[i]);
      InsertDescends(out, key, s[i]);
      assert s[..i + 1] == s[..i] + [s[i]];
      out := Insert(out, key, s[i]);
      i := i + 1;
    }
    assert s[..i] == s;
  }

  function Insert<T>(s: seq<T>, key: T -> int, x: T): seq<T> {
    if s == [] || key(s[0]) < key(x) then [x] + s else [s[0]] + Insert(s[1..], key, x)
  }

  lemma {:induction false} InsertHolds<T>(s: seq<T>, key: T -> int, x: T)
    ensures multiset(Insert(s, key, x)) == multiset{x} + multiset(s)
  {
    if s != [] && key(s[0]) >= key(x) {
      assert s == [s[0]] + s[1..];
      InsertHolds(s[1..], key, x);
    }
  }

  lemma {:induction false} InsertDescends<T>(s: seq<T>, key: T -> int, x: T)
    requires Descending(s, key)
    ensures Descending(Insert(s, key, x), key)
  {
    if s != [] && key(s[0]) >= key(x) {
      InsertDescends(s[1..], key, x);
      InsertHolds(s[1..], key, x);
      var rest := Insert(s[1..], key, x);
      forall i | 0 <= i < |rest| ensures key(rest[i]) <= key(s[0]) {
        assert rest[i] in multiset{x} + multiset(s[1..]);
      }
    }
  }

  // Counting ------------------------------------------------------------------------------------

  function CountGE<T>(s: seq<T>, key: T -> int, t: int): (n: nat)
    ensures n <= |s|
  {
    if s == [] then 0 else CountGE(s[..|s| - 1], key, t) + if key(s[|s| - 1]) >= t then 1 else 0
  }

  lemma {:induction false} CountConcat<T>(x: seq<T>, y: seq<T>, key: T -> int, t: int)
    ensures CountGE(x + y, key, t) == CountGE(x, key, t) + CountGE(y, key, t)
  {
    if y == [] {
      assert x + y == x;
    } else {
      assert (x + y)[..|x + y| - 1] == x + y[..|y| - 1];
      CountConcat(x, y[..|y| - 1], key, t);
    }
  }

  /** Counts do not depend on the order. */
  lemma {:induction false} CountPermuted<T>(x: seq<T>, y: seq<T>, key: T -> int, t: int)
    requires multiset(x) == multiset(y)
    ensures CountGE(x, key, t) == CountGE(y, key, t)
    decreases |x|
  {
    if x == [] {
      assert |multiset(y)| == 0;
    } else {
      var i, x', y' := Aligned(x, y);
      hide CountGE;
      CountWithout(x, key, t, 0);
      CountWithout(y, key, t, i);
      CountPermuted(x', y', key, t);
    }
  }

  lemma {:induction false} Aligned<T>(x: seq<T>, y: seq<T>) returns (i: nat, x': seq<T>, y': seq<T>)
    requires multiset(x) == multiset(y) && x != []
    ensures i < |y| && y[i] == x[0]
    ensures x' == x[..0] + x[1..] && y' == y[..i] + y[i + 1..]
    ensures |x'| < |x| && multiset(x') == multiset(y')
  {
    assert x[0] in multiset(y);
    i :| 0 <= i < |y| && y[i] == x[0];
    x', y' := x[..0] + x[1..], y[..i] + y[i + 1..];
    Without(x, 0);
    Without(y, i);
  }

  lemma {:induction false} CountWithout<T>(y: seq<T>, key: T -> int, t: int, i: nat)
    requires i < |y|
    ensures CountGE(y, key, t) == CountGE(y[..i] + y[i + 1..], key, t) + if key(y[i]) >= t then 1 else 0
  {
    assert y == y[..i + 1] + y[i + 1..] && y[..i + 1][..i] == y[..i];
    CountConcat(y[..i + 1], y[i + 1..], key, t);
    CountConcat(y[..i], y[i + 1..], key, t);
  }

  lemma {:induction false} Without<T>(y: seq<T>, i: nat)
    requires i < |y|
    ensures y == y[..i] + [y[i]] + y[i + 1..]
    ensures multiset(y[..i] + y[i + 1..]) == multiset(y) - multiset{y[i]}
  {
    assert y == y[..i] + [y[i]] + y[i + 1..];
    assert multiset(y) == multiset(y[..i]) + multiset{y[i]} + multiset(y[i + 1..]);
  }

  /** More than `i` elements reach the key at position `i`, and at most `i` exceed it. */
  lemma {:induction false} CountAt<T>(s: seq<T>, key: T -> int, i: nat)
    requires i < |s| && Descending(s, key)
    ensures CountGE(s, key, key(s[i])) > i
    ensures CountGE(s, key, key(s[i]) + 1) <= i
  {
    var t := key(s[i]);
    assert s == s[..i] + s[i..] && s == s[..i + 1] + s[i + 1..];
    CountConcat(s[..i], s[i..], key, t + 1);
    CountConcat(s[..i + 1], s[i + 1..], key, t);
    CountAll(s[..i + 1], key, t);
    CountNone(s[i..], key, t + 1);
  }

  lemma {:induction false} CountAll<T>(s: seq<T>, key: T -> int, t: int)
    requires forall x :: x in s ==> key(x) >= t
    ensures CountGE(s, key, t) == |s|
  {
    if s != [] {
      CountAll(s[..|s| - 1], key, t);
    }
  }

  lemma {:induction false} CountNone<T>(s: seq<T>, key: T -> int, t: int)
    requires forall x :: x in s ==> key(x) < t
    ensures CountGE(s, key, t) == 0
  {
    if s != [] {
      CountNone(s[..|s| - 1], key, t);
    }
  }
}
