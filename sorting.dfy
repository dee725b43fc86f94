/**
 * Stable sorting of a sequence by a string key in the default order of JavaScript
 * strings. `Array.prototype.sort` is stable; insertion sort is the reference
 * algorithm here, and the lemmas below state what any stable sort delivers:
 * the result is ordered, is a permutation of the input, and keeps the input
 * order among elements with the same key.
 */
module Sorting {
  import opened JsStrings

  /** `s` is in ascending order of `key` (equal keys allowed). */
  predicate SortedBy<T(==)>(s: seq<T>, key: T -> string) {
    forall i, j :: 0 <= i < j < |s| ==> !Less(key(s[j]), key(s[i]))
  }

  /** Every element of `s` has a key no smaller than `k`. */
  predicate AllAtLeast<T(==)>(s: seq<T>, key: T -> string, k: string) {
    forall y :: y in s ==> !Less(key(y), k)
  }

  /** Puts `x` after every element whose key does not exceed its own. */
  function Insert<T(==)>(x: T, s: seq<T>, key: T -> string): seq<T>
    decreases |s|
  {
    if |s| == 0 then [x]
    else if Less(key(x), key(s[0])) then [x] + s
    else [s[0]] + Insert(x, s[1..], key)
  }

  /** Sorts `s` by `key`, inserting the elements one after another. */
  function SortBy<T(==)>(s: seq<T>, key: T -> string): seq<T>
    decreases |s|
  {
    if |s| == 0 then [] else Insert(s[|s| - 1], SortBy(s[..|s| - 1], key), key)
  }

  /** The elements of `s` whose key is `k`, in their order in `s`. */
  function WithKey<T(==)>(s: seq<T>, key: T -> string, k: string): seq<T>
    decreases |s|
  {
    if |s| == 0 then [] else (if key(s[0]) == k then [s[0]] else []) + WithKey(s[1..], key, k)
  }

  // ---------------------------------------------------------------- permutation and order

  lemma {:induction false} InsertPermutes<T>(x: T, s: seq<T>, key: T -> string)
    ensures multiset(Insert(x, s, key)) == multiset(s) + multiset{x}
    decreases |s|
  {
    if |s| > 0 && !Less(key(x), key(s[0])) {
      InsertPermutes(x, s[1..], key);
      assert s == [s[0]] + s[1..];
    }
  }

  lemma SortedTail<T>(s: seq<T>, key: T -> string)
    requires SortedBy(s, key) && |s| > 0
    ensures AllAtLeast(s[1..], key, key(s[0]))
  {
    forall y | y in s[1..] ensures !Less(key(y), key(s[0])) {
      var m :| 0 <= m < |s[1..]| && s[1..][m] == y;
      assert s[m + 1] == y;
    }
  }

  /** If `a` sorts before `b` and `c` does not sort before `b`, then `c` does not sort before `a`. */
  lemma NotBeforeSmaller(a: string, b: string, c: string)
    requires Less(a, b) && !Less(c, b)
    ensures !Less(c, a)
  {
    if Less(c, a) {
      LessTransitive(c, a, b);
    }
  }

  lemma {:induction false} InsertSorted<T>(x: T, s: seq<T>, key: T -> string)
    requires SortedBy(s, key)
    ensures SortedBy(Insert(x, s, key), key)
    decreases |s|
  {
    if |s| == 0 {
    } else if Less(key(x), key(s[0])) {
      var r := [x] + s;
      SortedTail(s, key);
      forall i, j | 0 <= i < j < |r| ensures !Less(key(r[j]), key(r[i])) {
        if i == 0 {
          if j == 1 {
            LessAsymmetric(key(x), key(s[0]));
          } else {
            assert s[j - 1] in s[1..];
            NotBeforeSmaller(key(x), key(s[0]), key(s[j - 1]));
          }
        }
      }
    } else {
      var t := Insert(x, s[1..], key);
      InsertSorted(x, s[1..], key);
      InsertPermutes(x, s[1..], key);
      SortedTail(s, key);
      var r := [s[0]] + t;
      forall i, j | 0 <= i < j < |r| ensures !Less(key(r[j]), key(r[i])) {
        if i == 0 {
          assert r[j] in multiset(t);
        }
      }
    }
  }

  lemma {:induction false} SortByOrdersAndPermutes<T>(s: seq<T>, key: T -> string)
    ensures SortedBy(SortBy(s, key), key)
    ensures multiset(SortBy(s, key)) == multiset(s)
    decreases |s|
  {
    if |s| > 0 {
      var p := s[..|s| - 1];
      SortByOrdersAndPermutes(p, key);
      InsertSorted(s[|s| - 1], SortBy(p, key), key);
      InsertPermutes(s[|s| - 1], SortBy(p, key), key);
      assert s == p + [s[|s| - 1]];
    }
  }

  // ---------------------------------------------------------------- stability

  lemma {:induction false} WithKeyConcat<T>(a: seq<T>, b: seq<T>, key: T -> string, k: string)
    ensures WithKey(a + b, key, k) == WithKey(a, key, k) + WithKey(b, key, k)
    decreases |a|
  {
    if |a| > 0 {
      WithKeyConcat(a[1..], b, key, k);
      assert (a + b)[1..] == a[1..] + b;
    } else {
      assert a + b == b;
    }
  }

  lemma {:induction false} WithKeyNone<T>(s: seq<T>, key: T -> string, k: string)
    requires forall y :: y in s ==> key(y) != k
    ensures WithKey(s, key, k) == []
    decreases |s|
  {
    if |s| > 0 {
      assert s[0] in s;
      WithKeyNone(s[1..], key, k);
    }
  }

  lemma {:induction false} InsertWithKey<T>(x: T, s: seq<T>, key: T -> string, k: string)
    requires SortedBy(s, key)
    ensures WithKey(Insert(x, s, key), key, k)
         == WithKey(s, key, k) + (if key(x) == k then [x] else [])
    decreases |s|
  {
    if |s| == 0 {
    } else if Less(key(x), key(s[0])) {
      assert ([x] + s)[1..] == s;
      if key(x) == k {
        SortedTail(s, key);
        forall y | y in s ensures key(y) != k {
          if y == s[0] {
            LessIrreflexive(key(x));
          } else {
            assert y in s[1..] by { assert s == [s[0]] + s[1..]; }
          }
        }
        WithKeyNone(s, key, k);
      }
    } else {
      var t := Insert(x, s[1..], key);
      InsertWithKey(x, s[1..], key, k);
      assert ([s[0]] + t)[1..] == t;
    }
  }

  /** The sort keeps, for every key, the input order of the elements with that key. */
  lemma {:induction false} SortByStable<T>(s: seq<T>, key: T -> string, k: string)
    ensures WithKey(SortBy(s, key), key, k) == WithKey(s, key, k)
    decreases |s|
  {
    if |s| > 0 {
      var p := s[..|s| - 1];
      var x := s[|s| - 1];
      SortByStable(p, key, k);
      SortByOrdersAndPermutes(p, key);
      InsertWithKey(x, SortBy(p, key), key, k);
      assert s == p + [x];
      WithKeyConcat(p, [x], key, k);
      assert WithKey([x], key, k) == (if key(x) == k then [x] else []) + WithKey([], key, k);
    }
  }

  // ---------------------------------------------------------------- already sorted input

  lemma {:induction false} InsertLast<T>(x: T, s: seq<T>, key: T -> string)
    requires forall y :: y in s ==> !Less(key(x), key(y))
    ensures Insert(x, s, key) == s + [x]
    decreases |s|
  {
    if |s| > 0 {
      assert s[0] in s;
      InsertLast(x, s[1..], key);
      assert s == [s[0]] + s[1..];
    }
  }

  /** Sorting a sequence that is already in order changes nothing. */
  lemma {:induction false} SortBySortedIsIdentity<T>(s: seq<T>, key: T -> string)
    requires SortedBy(s, key)
    ensures SortBy(s, key) == s
    decreases |s|
  {
    if |s| > 0 {
      var p := s[..|s| - 1];
      var x := s[|s| - 1];
      assert SortedBy(p, key) by {
        forall i, j | 0 <= i < j < |p| ensures !Less(key(p[j]), key(p[i])) {
          assert p[i] == s[i] && p[j] == s[j];
        }
      }
      SortBySortedIsIdentity(p, key);
      forall y | y in p ensures !Less(key(x), key(y)) {
        var i :| 0 <= i < |p| && p[i] == y;
        assert s[i] == y;
      }
      InsertLast(x, p, key);
      assert s == p + [x];
    }
  }
}
