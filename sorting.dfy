/**
 * `Array.prototype.sort` with a comparator `(a, b) => key(b) - key(a)`:
 * a stable sort into non-increasing order of an integer key, written as
 * an insertion sort.
 */
module Sorting {

  /** Non-increasing by `key`. */
  ghost predicate SortedDesc<T>(s: seq<T>, key: T -> int) {
    forall i, j :: 0 <= i < j < |s| ==> key(s[i]) >= key(s[j])
  }

  /** Puts `x` into the sorted `s` after every element whose key is at least `x`'s. */
  function InsertDesc<T>(s: seq<T>, x: T, key: T -> int): (r: seq<T>)
    requires SortedDesc(s, key)
    ensures SortedDesc(r, key)
    ensures multiset(r) == multiset(s) + multiset{x}
    ensures |r| == |s| + 1
  {
    if s == [] then [x]
    else if key(x) > key(s[0]) then [x] + s
    else
      var rest := InsertDesc(s[1..], x, key);
      assert s == [s[0]] + s[1..];
      BoundedByHead(s, x, rest, key);
      [s[0]] + rest
  }

  /** Every element of an insertion into the tail of `s` has a key at most `s[0]`'s. */
  lemma BoundedByHead<T>(s: seq<T>, x: T, rest: seq<T>, key: T -> int)
    requires s != [] && SortedDesc(s, key) && key(x) <= key(s[0])
    requires multiset(rest) == multiset(s[1..]) + multiset{x}
    ensures forall j :: 0 <= j < |rest| ==> key(rest[j]) <= key(s[0])
  {
    forall j | 0 <= j < |rest| ensures key(rest[j]) <= key(s[0]) {
      assert rest[j] in multiset(rest);
      if rest[j] != x {
        assert rest[j] in multiset(s[1..]);
        var i :| 0 <= i < |s[1..]| && s[1..][i] == rest[j];
        assert s[i + 1] == rest[j];
      }
    }
  }

  /** The sorted arrangement of `s`: non-increasing keys, same elements with the same multiplicities. */
  function SortDesc<T>(s: seq<T>, key: T -> int): (r: seq<T>)
    ensures SortedDesc(r, key)
    ensures multiset(r) == multiset(s)
    ensures |r| == |s|
  {
    if s == [] then []
    else
      assert s == s[..|s| - 1] + [s[|s| - 1]];
      InsertDesc(SortDesc(s[..|s| - 1], key), s[|s| - 1], key)
  }

  /** A prefix of a sorted sequence is sorted, and its first element bounds every element. */
  lemma SortedPrefix<T>(s: seq<T>, n: nat, key: T -> int)
    requires SortedDesc(s, key) && n <= |s|
    ensures SortedDesc(s[..n], key)
    ensures forall x :: x in s ==> key(x) <= key(s[0])
  {
    forall x | x in s ensures key(x) <= key(s[0]) {
      var i :| 0 <= i < |s| && s[i] == x;
    }
  }

  /** The elements of `s` whose key is `k`, in their order in `s`. */
  function WithKey<T>(s: seq<T>, key: T -> int, k: int): seq<T> {
    if s == [] then []
    else (if key(s[0]) == k then [s[0]] else []) + WithKey(s[1..], key, k)
  }

  lemma {:induction false} WithKeyAppend<T>(a: seq<T>, b: seq<T>, key: T -> int, k: int)
    ensures WithKey(a + b, key, k) == WithKey(a, key, k) + WithKey(b, key, k)
  {
    if a != [] {
      assert (a + b)[1..] == a[1..] + b;
      WithKeyAppend(a[1..], b, key, k);
    } else {
      assert a + b == b;
    }
  }

  /** No element of `s` has a key as large as `k`, so none has key `k`. */
  lemma {:induction false} WithKeyNone<T>(s: seq<T>, key: T -> int, k: int)
    requires forall i :: 0 <= i < |s| ==> key(s[i]) < k
    ensures WithKey(s, key, k) == []
  {
    if s != [] {
      assert forall i :: 0 <= i < |s[1..]| ==> s[1..][i] == s[i + 1];
      WithKeyNone(s[1..], key, k);
    }
  }

  /** Inserting `x` puts it after every element with the same key. */
  lemma {:induction false} InsertStable<T>(s: seq<T>, x: T, key: T -> int, k: int)
    requires SortedDesc(s, key)
    ensures WithKey(InsertDesc(s, x, key), key, k) == WithKey(s, key, k) + (if key(x) == k then [x] else [])
  {
    if s == [] {
      assert InsertDesc(s, x, key) == [x];
      assert WithKey([x], key, k) == (if key(x) == k then [x] else []) + WithKey([x][1..], key, k);
    } else if key(x) > key(s[0]) {
      InsertFront(s, x, key, k);
    } else {
      InsertStable(s[1..], x, key, k);
      InsertBehind(s, x, key, k);
    }
  }

  /** An `x` with a larger key than every element goes in front, where no element shares its key. */
  lemma InsertFront<T>(s: seq<T>, x: T, key: T -> int, k: int)
    requires s != [] && SortedDesc(s, key) && key(x) > key(s[0])
    ensures WithKey(InsertDesc(s, x, key), key, k) == WithKey(s, key, k) + (if key(x) == k then [x] else [])
  {
    var r := [x] + s;
    assert InsertDesc(s, x, key) == r;
    assert r[1..] == s;
    assert WithKey(r, key, k) == (if key(x) == k then [x] else []) + WithKey(s, key, k);
    if key(x) == k {
      WithKeyNone(s, key, k);
    }
  }

  /** An `x` whose key is at most the head's goes behind the head, into the tail. */
  lemma InsertBehind<T>(s: seq<T>, x: T, key: T -> int, k: int)
    requires s != [] && SortedDesc(s, key) && key(x) <= key(s[0])
    requires WithKey(InsertDesc(s[1..], x, key), key, k) == WithKey(s[1..], key, k) + (if key(x) == k then [x] else [])
    ensures WithKey(InsertDesc(s, x, key), key, k) == WithKey(s, key, k) + (if key(x) == k then [x] else [])
  {
    ConsKeepsTail(s, InsertDesc(s[1..], x, key), x, key, k);
  }

  /** Putting the head of `s` in front of `rest` relates it to `s` as `rest` is related to the tail of `s`. */
  lemma ConsKeepsTail<T>(s: seq<T>, rest: seq<T>, x: T, key: T -> int, k: int)
    requires s != []
    requires WithKey(rest, key, k) == WithKey(s[1..], key, k) + (if key(x) == k then [x] else [])
    ensures WithKey([s[0]] + rest, key, k) == WithKey(s, key, k) + (if key(x) == k then [x] else [])
  {
    var head: seq<T> := if key(s[0]) == k then [s[0]] else [];
    var tail: seq<T> := if key(x) == k then [x] else [];
    assert ([s[0]] + rest)[1..] == rest;
    assert WithKey(s, key, k) == head + WithKey(s[1..], key, k);
    assert head + (WithKey(s[1..], key, k) + tail) == (head + WithKey(s[1..], key, k)) + tail;
  }

  /** The sort is stable: elements with equal keys keep their relative order. */
  lemma {:induction false} SortStable<T>(s: seq<T>, key: T -> int, k: int)
    ensures WithKey(SortDesc(s, key), key, k) == WithKey(s, key, k)
  {
    if s != [] {
      var init, last := s[..|s| - 1], s[|s| - 1];
      SortStable(init, key, k);
      InsertStable(SortDesc(init, key), last, key, k);
      WithKeySnoc(s, key, k);
    }
  }

  /** The same-key elements of `s` are those of all but its last element, then possibly the last. */
  lemma WithKeySnoc<T>(s: seq<T>, key: T -> int, k: int)
    requires s != []
    ensures WithKey(s, key, k) == WithKey(s[..|s| - 1], key, k) + (if key(s[|s| - 1]) == k then [s[|s| - 1]] else [])
  {
    var init, last := s[..|s| - 1], s[|s| - 1];
    assert s == init + [last];
    WithKeyAppend(init, [last], key, k);
    assert ([last])[1..] == [];
  }

  /** The sum of `w` over the elements. */
  function SumBy<T>(s: seq<T>, w: T -> int): int {
    if s == [] then 0 else w(s[0]) + SumBy(s[1..], w)
  }

  lemma {:induction false} SumByAppend<T>(a: seq<T>, b: seq<T>, w: T -> int)
    ensures SumBy(a + b, w) == SumBy(a, w) + SumBy(b, w)
  {
    if a != [] {
      assert (a + b)[1..] == a[1..] + b;
      SumByAppend(a[1..], b, w);
    } else {
      assert a + b == b;
    }
  }

  lemma {:induction false} InsertSum<T>(s: seq<T>, x: T, key: T -> int, w: T -> int)
    requires SortedDesc(s, key)
    ensures SumBy(InsertDesc(s, x, key), w) == SumBy(s, w) + w(x)
  {
    if s != [] && key(x) <= key(s[0]) {
      InsertSum(s[1..], x, key, w);
      assert ([s[0]] + InsertDesc(s[1..], x, key))[1..] == InsertDesc(s[1..], x, key);
    } else if s != [] {
      assert ([x] + s)[1..] == s;
    }
  }

  /** Sorting does not change a sum over the elements. */
  lemma {:induction false} SortSum<T>(s: seq<T>, key: T -> int, w: T -> int)
    ensures SumBy(SortDesc(s, key), w) == SumBy(s, w)
  {
    if s != [] {
      var init, last := s[..|s| - 1], s[|s| - 1];
      assert s == init + [last];
      var sortedInit := SortDesc(init, key);
      assert SortDesc(s, key) == InsertDesc(sortedInit, last, key);
      SortSum(init, key, w);
      InsertSum(sortedInit, last, key, w);
      SumByAppend(init, [last], w);
      assert SumBy([last], w) == w(last);
    }
  }
}
