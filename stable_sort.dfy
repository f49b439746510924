/**
 * `Array.prototype.sort` with a consistent comparator, which ECMAScript
 * requires to be stable. Every comparator the app passes orders elements by
 * a numeric key (a rate, a timestamp, a collation rank), so the sort is
 * modelled as a stable insertion sort by a key.
 */
module StableSort {
  import opened Seqs

  /** Non-decreasing by `key`. */
  ghost predicate SortedBy<T>(s: seq<T>, key: T -> real)
  {
    forall i, j :: 0 <= i < j < |s| ==> key(s[i]) <= key(s[j])
  }

  /** The elements whose key is exactly `k`. */
  function HasKey<T>(key: T -> real, k: real): T -> bool
  {
    (x: T) => key(x) == k
  }

  /** Puts `x` after every element whose key is at most `key(x)`. */
  function Insert<T>(s: seq<T>, x: T, key: T -> real): (r: seq<T>)
    ensures |r| == |s| + 1
  {
    if s == [] then [x]
    else if key(x) < key(s[0]) then [x] + s
    else [s[0]] + Insert(s[1..], x, key)
  }

  /** Stable sort by `key`: each element is inserted behind its equals. */
  function SortByKey<T>(s: seq<T>, key: T -> real): (r: seq<T>)
    ensures |r| == |s|
  {
    if s == [] then [] else Insert(SortByKey(s[..|s| - 1], key), s[|s| - 1], key)
  }

  lemma {:induction false} InsertPermutes<T>(s: seq<T>, x: T, key: T -> real)
    ensures multiset(Insert(s, x, key)) == multiset(s) + multiset{x}
  {
    if s != [] && key(s[0]) <= key(x) {
      InsertPermutes(s[1..], x, key);
      assert s == [s[0]] + s[1..];
    }
  }

  lemma {:induction false} InsertSorted<T>(s: seq<T>, x: T, key: T -> real)
    requires SortedBy(s, key)
    ensures SortedBy(Insert(s, x, key), key)
  {
    if s != [] && key(s[0]) <= key(x) {
      InsertSorted(s[1..], x, key);
      InsertPermutes(s[1..], x, key);
      var r := Insert(s, x, key);
      forall i | 1 <= i < |r| ensures key(s[0]) <= key(r[i]) {
        assert r[i] in multiset(Insert(s[1..], x, key));
        assert r[i] in multiset(s[1..]) + multiset{x};
      }
    }
  }

  /** Inserting into a sorted list appends `x` to the elements that share its key. */
  lemma {:induction false} InsertKeepsTies<T>(s: seq<T>, x: T, key: T -> real, k: real)
    requires SortedBy(s, key)
    ensures Filter(Insert(s, x, key), HasKey(key, k))
         == Filter(s, HasKey(key, k)) + (if key(x) == k then [x] else [])
  {
    var p := HasKey(key, k);
    if s == [] {
      assert Filter([x], p) == (if p(x) then [x] else []) + Filter([x][1..], p);
    } else if key(x) < key(s[0]) {
      assert Filter([x] + s, p) == (if p(x) then [x] else []) + Filter(s, p) by {
        assert ([x] + s)[1..] == s;
      }
      if key(x) == k {
        FilterDropsAll(s, p);
      }
    } else {
      InsertKeepsTies(s[1..], x, key, k);
      assert Filter(s, p) == (if p(s[0]) then [s[0]] else []) + Filter(s[1..], p);
      assert ([s[0]] + Insert(s[1..], x, key))[1..] == Insert(s[1..], x, key);
    }
  }

  /** The sort returns a permutation of its input. */
  lemma {:induction false} SortPermutes<T>(s: seq<T>, key: T -> real)
    ensures multiset(SortByKey(s, key)) == multiset(s)
  {
    if s != [] {
      var init, last := s[..|s| - 1], s[|s| - 1];
      SortPermutes(init, key);
      InsertPermutes(SortByKey(init, key), last, key);
      assert s == init + [last];
    }
  }

  /** The sort's output is non-decreasing by key. */
  lemma {:induction false} SortSorted<T>(s: seq<T>, key: T -> real)
    ensures SortedBy(SortByKey(s, key), key)
  {
    if s != [] {
      SortSorted(s[..|s| - 1], key);
      InsertSorted(SortByKey(s[..|s| - 1], key), s[|s| - 1], key);
    }
  }

  /** Stability: elements with equal keys keep their relative order. */
  lemma {:induction false} SortStable<T>(s: seq<T>, key: T -> real, k: real)
    ensures Filter(SortByKey(s, key), HasKey(key, k)) == Filter(s, HasKey(key, k))
  {
    if s != [] {
      var init, last, p := s[..|s| - 1], s[|s| - 1], HasKey(key, k);
      var tail := if key(last) == k then [last] else [];
      calc {
        Filter(SortByKey(s, key), p);
        Filter(Insert(SortByKey(init, key), last, key), p);
        { SortSorted(init, key); InsertKeepsTies(SortByKey(init, key), last, key, k); }
        Filter(SortByKey(init, key), p) + tail;
        { SortStable(init, key, k); }
        Filter(init, p) + tail;
        { FilterSnoc(init, last, p); }
        Filter(init + [last], p);
        { assert init + [last] == s; }
        Filter(s, p);
      }
    }
  }

  /** When every key is the same (a comparator that always answers 0) the order is unchanged. */
  lemma SortConstantKey<T>(s: seq<T>, key: T -> real, k: real)
    requires forall i :: 0 <= i < |s| ==> key(s[i]) == k
    ensures SortByKey(s, key) == s
  {
    var r := SortByKey(s, key);
    SortStable(s, key, k);
    SortPermutes(s, key);
    FilterKeepsAll(s, HasKey(key, k));
    forall i | 0 <= i < |r| ensures HasKey(key, k)(r[i]) {
      assert r[i] in multiset(s);
    }
    FilterKeepsAll(r, HasKey(key, k));
  }
}
