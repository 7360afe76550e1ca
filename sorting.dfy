/** Python's `sorted(xs, key=...)` with string keys: a stable sort under
    Python's ordering of `str` values. */
module Sorting {

  /** `a < b` on Python strings: lexicographic by code point, a proper prefix first. */
  predicate StrLt(a: string, b: string)
    decreases |a|
  {
    if b == [] then false
    else if a == [] then true
    else if a[0] == b[0] then StrLt(a[1..], b[1..])
    else a[0] < b[0]
  }

  /** `a <= b` on Python strings. */
  predicate StrLe(a: string, b: string) {
    !StrLt(b, a)
  }

  lemma {:induction false} StrLtIrreflexive(a: string)
    ensures !StrLt(a, a)
    decreases |a|
  {
    if a != [] { StrLtIrreflexive(a[1..]); }
  }

  lemma {:induction false} StrLtTransitive(a: string, b: string, c: string)
    requires StrLt(a, b) && StrLt(b, c)
    ensures StrLt(a, c)
    decreases |a|
  {
    if a != [] && a[0] == b[0] && b[0] == c[0] {
      StrLtTransitive(a[1..], b[1..], c[1..]);
    }
  }

  lemma {:induction false} StrLtTrichotomy(a: string, b: string)
    ensures StrLt(a, b) || a == b || StrLt(b, a)
    decreases |a|
  {
    if a != [] && b != [] && a[0] == b[0] {
      StrLtTrichotomy(a[1..], b[1..]);
      if a[1..] == b[1..] {
        assert a == [a[0]] + a[1..] && b == [b[0]] + b[1..];
      }
    }
  }

  /** `<=` is a total order on strings. */
  lemma StrLeTotalOrder(a: string, b: string, c: string)
    ensures StrLe(a, a)
    ensures StrLe(a, b) || StrLe(b, a)
    ensures StrLe(a, b) && StrLe(b, a) ==> a == b
    ensures StrLe(a, b) && StrLe(b, c) ==> StrLe(a, c)
  {
    StrLtIrreflexive(a);
    StrLtTrichotomy(a, b);
    StrLtTrichotomy(a, c);
    if StrLe(a, b) && StrLe(b, c) && StrLt(c, a) {
      if StrLt(a, b) { StrLtTransitive(c, a, b); }
    }
    if StrLt(a, b) && StrLt(b, a) { StrLtTransitive(a, b, a); StrLtIrreflexive(a); }
  }

  /** Every key of `s` is less than or equal to every later key. */
  ghost predicate SortedBy<T>(s: seq<T>, key: T -> string) {
    forall i, j :: 0 <= i < j < |s| ==> StrLe(key(s[i]), key(s[j]))
  }

  /** The elements of `s` whose key is `k`, in their order in `s`. */
  function Filter<T>(s: seq<T>, key: T -> string, k: string): seq<T> {
    if s == [] then []
    else (if key(s[0]) == k then [s[0]] else []) + Filter(s[1..], key, k)
  }

  /** Places `x` before the first element whose key is not smaller than its own. */
  function Insert<T>(x: T, ys: seq<T>, key: T -> string): seq<T> {
    if ys == [] || !StrLt(key(ys[0]), key(x)) then [x] + ys
    else [ys[0]] + Insert(x, ys[1..], key)
  }

  /** `sorted(s, key=key)`: an insertion sort that keeps equal keys in input order. */
  function SortBy<T>(s: seq<T>, key: T -> string): seq<T> {
    if s == [] then [] else Insert(s[0], SortBy(s[1..], key), key)
  }

  lemma {:induction false} InsertPermutes<T>(x: T, ys: seq<T>, key: T -> string)
    ensures multiset(Insert(x, ys, key)) == multiset([x] + ys)
  {
    if ys != [] && StrLt(key(ys[0]), key(x)) {
      InsertPermutes(x, ys[1..], key);
      assert ys == [ys[0]] + ys[1..];
    }
  }

  lemma {:induction false} InsertSorted<T>(x: T, ys: seq<T>, key: T -> string)
    requires SortedBy(ys, key)
    ensures SortedBy(Insert(x, ys, key), key)
  {
    var r := Insert(x, ys, key);
    if ys == [] {
    } else if !StrLt(key(ys[0]), key(x)) {
      forall i, j | 0 <= i < j < |r| ensures StrLe(key(r[i]), key(r[j])) {
        if i > 0 {
          assert r[i] == ys[i - 1] && r[j] == ys[j - 1];
        } else {
          assert r[j] == ys[j - 1];
          StrLeTotalOrder(key(x), key(ys[0]), key(ys[j - 1]));
        }
      }
    } else {
      var rest := Insert(x, ys[1..], key);
      InsertSorted(x, ys[1..], key);
      InsertPermutes(x, ys[1..], key);
      assert r == [ys[0]] + rest;
      forall i, j | 0 <= i < j < |r| ensures StrLe(key(r[i]), key(r[j])) {
        if i > 0 {
          assert r[i] == rest[i - 1] && r[j] == rest[j - 1];
        } else {
          var z := rest[j - 1];
          assert z in multiset(rest);
          assert z in multiset([x] + ys[1..]);
          assert z == x || z in ys[1..];
          StrLeTotalOrder(key(ys[0]), key(x), key(x));
          if z != x {
            var k :| 0 <= k < |ys[1..]| && ys[1..][k] == z;
            assert ys[k + 1] == z;
          }
        }
      }
    }
  }

  /** Inserting `x` adds it to the front of its key class and leaves the other classes alone. */
  lemma {:induction false} InsertFilter<T>(x: T, ys: seq<T>, key: T -> string, k: string)
    ensures Filter(Insert(x, ys, key), key, k) == (if key(x) == k then [x] else []) + Filter(ys, key, k)
  {
    var r := Insert(x, ys, key);
    if ys == [] || !StrLt(key(ys[0]), key(x)) {
      assert r == [x] + ys;
      assert r[1..] == ys;
    } else {
      var rest := Insert(x, ys[1..], key);
      assert r == [ys[0]] + rest;
      assert r[1..] == rest;
      InsertFilter(x, ys[1..], key, k);
      StrLtIrreflexive(key(x));
      var head := if key(ys[0]) == k then [ys[0]] else [];
      var mine := if key(x) == k then [x] else [];
      assert Filter(r, key, k) == head + Filter(rest, key, k);
      assert Filter(ys, key, k) == head + Filter(ys[1..], key, k);
      assert head == [] || mine == [];
    }
  }

  /** The result of `SortBy` is a permutation of its input. */
  lemma {:induction false} SortByPermutes<T>(s: seq<T>, key: T -> string)
    ensures multiset(SortBy(s, key)) == multiset(s)
  {
    if s != [] {
      SortByPermutes(s[1..], key);
      InsertPermutes(s[0], SortBy(s[1..], key), key);
      assert s == [s[0]] + s[1..];
    }
  }

  /** The result of `SortBy` is in non-decreasing key order. */
  lemma {:induction false} SortBySorted<T>(s: seq<T>, key: T -> string)
    ensures SortedBy(SortBy(s, key), key)
  {
    if s != [] {
      SortBySorted(s[1..], key);
      InsertSorted(s[0], SortBy(s[1..], key), key);
    }
  }

  /** Stability: elements with equal keys keep their relative input order. */
  lemma {:induction false} SortByStable<T>(s: seq<T>, key: T -> string, k: string)
    ensures Filter(SortBy(s, key), key, k) == Filter(s, key, k)
  {
    if s != [] {
      SortByStable(s[1..], key, k);
      InsertFilter(s[0], SortBy(s[1..], key), key, k);
    }
  }
}
