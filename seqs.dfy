/**
 * The two list primitives the workspace logic is built from: `filter`, and a
 * stable sort by an integer key (what `Array.prototype.sort` with a comparator
 * `(a, b) => key(a) - key(b)` computes, the sort being stable since
 * ECMAScript 2019).
 */
module Seqs {

  /** The elements of `s` that satisfy `keep`, in their original order. */
  function Filter<T(!new)>(s: seq<T>, keep: T -> bool): (out: seq<T>)
    ensures |out| <= |s|
    ensures forall x :: x in out <==> x in s && keep(x)
  {
    if s == [] then []
    else
      assert s == [s[0]] + s[1..];
      (if keep(s[0]) then [s[0]] else []) + Filter(s[1..], keep)
  }

  /** Filtering a sequence all of whose elements pass changes nothing (so filtering twice is filtering once). */
  lemma {:induction false} FilterKeepsAll<T(!new)>(s: seq<T>, keep: T -> bool)
    requires forall x :: x in s ==> keep(x)
    ensures Filter(s, keep) == s
  {
    if s != [] {
      FilterKeepsAll(s[1..], keep);
      assert s == [s[0]] + s[1..];
    }
  }

  /** Filtering distributes over concatenation, so the kept elements stay in their relative order. */
  lemma {:induction false} FilterAppend<T(!new)>(s: seq<T>, t: seq<T>, keep: T -> bool)
    ensures Filter(s + t, keep) == Filter(s, keep) + Filter(t, keep)
  {
    if s == [] {
      assert s + t == t;
    } else {
      var x, rest := s[0], s[1..];
      var head := if keep(x) then [x] else [];
      calc {
        Filter(s + t, keep);
        == { assert s + t == [x] + (rest + t); FilterCons(x, rest + t, keep); }
        head + Filter(rest + t, keep);
        == { FilterAppend(rest, t, keep); }
        head + (Filter(rest, keep) + Filter(t, keep));
        == { assert head + (Filter(rest, keep) + Filter(t, keep)) == (head + Filter(rest, keep)) + Filter(t, keep); }
        (head + Filter(rest, keep)) + Filter(t, keep);
        == { assert s == [x] + rest; FilterCons(x, rest, keep); }
        Filter(s, keep) + Filter(t, keep);
      }
    }
  }

  /** Every occurrence of a kept element survives filtering, and no occurrence of a dropped one. */
  lemma {:induction false} FilterCounts<T(!new)>(s: seq<T>, keep: T -> bool)
    ensures forall x :: multiset(Filter(s, keep))[x] == if keep(x) then multiset(s)[x] else 0
  {
    if s != [] {
      FilterCounts(s[1..], keep);
      assert s == [s[0]] + s[1..];
      assert multiset(s) == multiset{s[0]} + multiset(s[1..]);
    }
  }

  /** Inserts `x` before the first element whose key is not smaller. */
  function Insert<T>(x: T, s: seq<T>, key: T -> int): (out: seq<T>)
    ensures |out| == |s| + 1
    ensures multiset(out) == multiset(s) + multiset{x}
  {
    if s == [] || key(x) <= key(s[0]) then [x] + s
    else
      assert s == [s[0]] + s[1..];
      [s[0]] + Insert(x, s[1..], key)
  }

  /** Insertion sort, ascending by `key`. */
  function SortBy<T>(s: seq<T>, key: T -> int): (out: seq<T>)
    ensures |out| == |s|
    ensures multiset(out) == multiset(s)
  {
    if s == [] then []
    else
      assert s == [s[0]] + s[1..];
      Insert(s[0], SortBy(s[1..], key), key)
  }

  ghost predicate SortedBy<T>(s: seq<T>, key: T -> int) {
    forall i, j :: 0 <= i < j < |s| ==> key(s[i]) <= key(s[j])
  }

  /** The predicate "has key `k`", as a value, so that every use denotes the same function. */
  function HasKey<T>(key: T -> int, k: int): T -> bool {
    x => key(x) == k
  }

  lemma {:induction false} InsertSorted<T>(x: T, s: seq<T>, key: T -> int)
    requires SortedBy(s, key)
    ensures SortedBy(Insert(x, s, key), key)
  {
    if s == [] || key(x) <= key(s[0]) {
    } else {
      InsertSorted(x, s[1..], key);
      var out := Insert(x, s, key);
      var tail := Insert(x, s[1..], key);
      assert out == [s[0]] + tail;
      forall i, j | 0 <= i < j < |out| ensures key(out[i]) <= key(out[j]) {
        if i == 0 {
          assert out[j] in multiset(tail);
          assert out[j] in multiset(s[1..]) + multiset{x};
          if out[j] == x {
          } else {
            assert out[j] in s[1..];
            var m :| 0 <= m < |s[1..]| && s[1..][m] == out[j];
            assert s[m + 1] == out[j];
          }
        }
      }
    }
  }

  /** The sorted output is ordered by `key`. */
  lemma {:induction false} SortBySorted<T>(s: seq<T>, key: T -> int)
    ensures SortedBy(SortBy(s, key), key)
  {
    if s != [] {
      SortBySorted(s[1..], key);
      InsertSorted(s[0], SortBy(s[1..], key), key);
    }
  }

  lemma FilterCons<T(!new)>(x: T, s: seq<T>, keep: T -> bool)
    ensures Filter([x] + s, keep) == (if keep(x) then [x] else []) + Filter(s, keep)
  {
    assert ([x] + s)[1..] == s;
  }

  lemma {:induction false} FilterInsert<T(!new)>(x: T, s: seq<T>, key: T -> int, k: int)
    ensures Filter(Insert(x, s, key), HasKey(key, k))
         == (if key(x) == k then [x] else []) + Filter(s, HasKey(key, k))
  {
    var p := HasKey(key, k);
    if s == [] || key(x) <= key(s[0]) {
      FilterCons(x, s, p);
    } else {
      var tail := Insert(x, s[1..], key);
      var rest := Filter(s[1..], p);
      var cx: seq<T> := if key(x) == k then [x] else [];
      var c0: seq<T> := if p(s[0]) then [s[0]] else [];
      assert Insert(x, s, key) == [s[0]] + tail;
      FilterInsert(x, s[1..], key, k);
      assert Filter(tail, p) == cx + rest;
      FilterCons(s[0], tail, p);
      assert Filter(Insert(x, s, key), p) == c0 + (cx + rest);
      assert s == [s[0]] + s[1..];
      FilterCons(s[0], s[1..], p);
      assert Filter(s, p) == c0 + rest;
      assert c0 == [] || cx == [] by {
        assert p(s[0]) <==> key(s[0]) == k;
      }
    }
  }

  /**
   * Stability: the elements of any one key keep their relative order, so the
   * sort only moves elements of different keys past each other.
   */
  lemma {:induction false} SortByStable<T(!new)>(s: seq<T>, key: T -> int, k: int)
    ensures Filter(SortBy(s, key), HasKey(key, k)) == Filter(s, HasKey(key, k))
  {
    if s != [] {
      SortByStable(s[1..], key, k);
      FilterInsert(s[0], SortBy(s[1..], key), key, k);
      FilterCons(s[0], s[1..], HasKey(key, k));
      assert [s[0]] + s[1..] == s;
    }
  }

  function Min(a: int, b: int): int {
    if a <= b then a else b
  }
}
