/** A stable sort by a numeric key, largest key first, as list.sort(key=..., reverse=True)
    orders a list. */
module Sorting {

  predicate NonIncreasing<T>(s: seq<T>, key: T -> int) {
    forall i, j :: 0 <= i < j < |s| ==> key(s[i]) >= key(s[j])
  }

  predicate NoneAbove<T>(k: int, s: seq<T>, key: T -> int) {
    forall i :: 0 <= i < |s| ==> key(s[i]) <= k
  }

  /** The elements of s with key t, in order. */
  function WithKey<T>(s: seq<T>, key: T -> int, t: int): seq<T> {
    if s == [] then [] else (if key(s[0]) == t then [s[0]] else []) + WithKey(s[1..], key, t)
  }

  /** Insert x after every element whose key is at least x's. */
  function InsertDesc<T>(x: T, s: seq<T>, key: T -> int): seq<T> {
    if s == [] then [x]
    else if key(s[0]) >= key(x) then [s[0]] + InsertDesc(x, s[1..], key)
    else [x] + s
  }

  function SortDesc<T>(xs: seq<T>, key: T -> int): seq<T> {
    if xs == [] then [] else InsertDesc(xs[|xs| - 1], SortDesc(xs[..|xs| - 1], key), key)
  }

  lemma WithKeyCons<T>(x: T, s: seq<T>, key: T -> int, t: int)
    ensures WithKey([x] + s, key, t) == (if key(x) == t then [x] else []) + WithKey(s, key, t)
  {
    var r := [x] + s;
    assert r[0] == x && r[1..] == s;
  }

  lemma {:induction false} WithKeyAppend<T>(a: seq<T>, b: seq<T>, key: T -> int, t: int)
    ensures WithKey(a + b, key, t) == WithKey(a, key, t) + WithKey(b, key, t)
  {
    if a != [] {
      assert (a + b)[1..] == a[1..] + b;
      WithKeyAppend(a[1..], b, key, t);
    } else {
      assert a + b == b;
    }
  }

  lemma {:induction false} WithKeyNone<T>(s: seq<T>, key: T -> int, t: int)
    requires forall i :: 0 <= i < |s| ==> key(s[i]) != t
    ensures WithKey(s, key, t) == []
  {
    if s != [] {
      assert forall i :: 0 <= i < |s[1..]| ==> s[1..][i] == s[i + 1];
      WithKeyNone(s[1..], key, t);
    }
  }

  lemma NonIncreasingTail<T>(s: seq<T>, key: T -> int)
    requires s != [] && NonIncreasing(s, key)
    ensures NonIncreasing(s[1..], key) && NoneAbove(key(s[0]), s, key)
  {
    var t := s[1..];
    forall i, j | 0 <= i < j < |t| ensures key(t[i]) >= key(t[j]) {
      assert t[i] == s[i + 1] && t[j] == s[j + 1];
    }
    forall i | 0 <= i < |s| ensures key(s[i]) <= key(s[0]) {
      assert i == 0 || key(s[0]) >= key(s[i]);
    }
  }

  lemma NonIncreasingCons<T>(a: T, s: seq<T>, key: T -> int)
    requires NonIncreasing(s, key) && NoneAbove(key(a), s, key)
    ensures NonIncreasing([a] + s, key)
  {
    var r := [a] + s;
    forall i, j | 0 <= i < j < |r| ensures key(r[i]) >= key(r[j]) {
      assert r[j] == s[j - 1];
      if i > 0 { assert r[i] == s[i - 1]; }
    }
  }

  lemma {:induction false} InsertDescMultiset<T>(x: T, s: seq<T>, key: T -> int)
    ensures multiset(InsertDesc(x, s, key)) == multiset(s) + multiset{x}
  {
    if s != [] && key(s[0]) >= key(x) {
      InsertDescMultiset(x, s[1..], key);
      assert s == [s[0]] + s[1..];
    }
  }

  lemma {:induction false} InsertDescBound<T>(x: T, s: seq<T>, key: T -> int, k: int)
    requires NoneAbove(k, s, key) && key(x) <= k
    ensures NoneAbove(k, InsertDesc(x, s, key), key)
  {
    if s != [] && key(s[0]) >= key(x) {
      assert NoneAbove(k, s[1..], key) by {
        forall i | 0 <= i < |s[1..]| ensures key(s[1..][i]) <= k {
          assert s[1..][i] == s[i + 1];
        }
      }
      InsertDescBound(x, s[1..], key, k);
      var r' := InsertDesc(x, s[1..], key);
      assert forall i :: 0 < i < |r'| + 1 ==> ([s[0]] + r')[i] == r'[i - 1];
    } else if s != [] {
      assert forall i :: 0 < i < |s| + 1 ==> ([x] + s)[i] == s[i - 1];
    }
  }

  lemma {:induction false} InsertDescSorted<T>(x: T, s: seq<T>, key: T -> int)
    requires NonIncreasing(s, key)
    ensures NonIncreasing(InsertDesc(x, s, key), key)
  {
    if s == [] {
    } else if key(s[0]) >= key(x) {
      NonIncreasingTail(s, key);
      assert NoneAbove(key(s[0]), s[1..], key) by {
        forall i | 0 <= i < |s[1..]| ensures key(s[1..][i]) <= key(s[0]) {
          assert s[1..][i] == s[i + 1];
        }
      }
      InsertDescSorted(x, s[1..], key);
      InsertDescBound(x, s[1..], key, key(s[0]));
      NonIncreasingCons(s[0], InsertDesc(x, s[1..], key), key);
    } else {
      NonIncreasingTail(s, key);
      NonIncreasingCons(x, s, key);
    }
  }

  lemma {:induction false} InsertDescWithKey<T>(x: T, s: seq<T>, key: T -> int, t: int)
    requires NonIncreasing(s, key)
    ensures WithKey(InsertDesc(x, s, key), key, t) == WithKey(s, key, t) + WithKey([x], key, t)
  {
    WithKeyCons(x, [], key, t);
    assert [x] + [] == [x];
    if s == [] {
    } else if key(s[0]) >= key(x) {
      NonIncreasingTail(s, key);
      InsertDescWithKey(x, s[1..], key, t);
      var h := if key(s[0]) == t then [s[0]] else [];
      var a := WithKey(s[1..], key, t);
      var b := WithKey([x], key, t);
      WithKeyCons(s[0], InsertDesc(x, s[1..], key), key, t);
      assert WithKey(s, key, t) == h + a;
      assert h + (a + b) == (h + a) + b;
    } else {
      WithKeyCons(x, s, key, t);
      if key(x) == t {
        NonIncreasingTail(s, key);
        WithKeyNone(s, key, t);
      }
    }
  }

  /** The sort is a stable permutation ordered by descending key: the same elements,
      keys never increase along the result, and elements with equal keys keep their
      relative order. */
  lemma {:induction false} SortDescSpec<T>(xs: seq<T>, key: T -> int)
    ensures multiset(SortDesc(xs, key)) == multiset(xs)
    ensures NonIncreasing(SortDesc(xs, key), key)
    ensures forall t :: WithKey(SortDesc(xs, key), key, t) == WithKey(xs, key, t)
  {
    if xs != [] {
      var ys := xs[..|xs| - 1];
      var y := xs[|xs| - 1];
      assert xs == ys + [y];
      SortDescSpec(ys, key);
      InsertDescMultiset(y, SortDesc(ys, key), key);
      InsertDescSorted(y, SortDesc(ys, key), key);
      forall t ensures WithKey(SortDesc(xs, key), key, t) == WithKey(xs, key, t) {
        InsertDescWithKey(y, SortDesc(ys, key), key, t);
        WithKeyAppend(ys, [y], key, t);
      }
    }
  }
}
