/** The "most recent first" ordering both list pages use: `Array.filter`
    and a stable `Array.sort` with the comparator `(a, b) => key(b) - key(a)`,
    timestamps being integers. One sort, shared by the restaurant page and
    the dish grouping, parameterised by the key. */
module Recency {

  /** `s.filter(p)` */
  function Filter<T(!new)>(s: seq<T>, p: T -> bool): (r: seq<T>)
    ensures |r| <= |s|
    ensures forall x :: x in r <==> x in s && p(x)
    ensures forall i :: 0 <= i < |r| ==> p(r[i])
    ensures multiset(r) <= multiset(s)
  {
    if s == [] then []
    else
      var rest := Filter(s[1..], p);
      assert s == [s[0]] + s[1..];
      if p(s[0]) then [s[0]] + rest else rest
  }

  /** Every element passing the test is kept as often as it occurs, and
      no other element is kept. */
  lemma {:induction false} FilterCount<T(!new)>(s: seq<T>, p: T -> bool)
    ensures forall x :: multiset(Filter(s, p))[x] == if p(x) then multiset(s)[x] else 0
  {
    if s != [] {
      FilterCount(s[1..], p);
      assert s == [s[0]] + s[1..];
      assert multiset(s) == multiset{s[0]} + multiset(s[1..]);
      var rest := Filter(s[1..], p);
      if p(s[0]) {
        assert multiset(Filter(s, p)) == multiset{s[0]} + multiset(rest);
      } else {
        assert Filter(s, p) == rest;
      }
    }
  }

  /** Filtering a concatenation filters each part and keeps them in order. */
  lemma {:induction false} FilterAppend<T(!new)>(a: seq<T>, b: seq<T>, p: T -> bool)
    ensures Filter(a + b, p) == Filter(a, p) + Filter(b, p)
  {
    if a == [] {
      assert a + b == b;
    } else {
      var t := a[1..];
      ConsAppend(a, b);
      var head := if p(a[0]) then [a[0]] else [];
      FilterCons(a[0], t + b, p);
      FilterCons(a[0], t, p);
      FilterAppend(t, b, p);
      SeqAssoc3(head, Filter(t, p), Filter(b, p));
    }
  }

  lemma FilterCons<T(!new)>(y: T, t: seq<T>, p: T -> bool)
    ensures Filter([y] + t, p) == (if p(y) then [y] else []) + Filter(t, p)
  {
    assert ([y] + t)[1..] == t;
  }

  lemma ConsAppend<T>(a: seq<T>, b: seq<T>)
    requires a != []
    ensures a == [a[0]] + a[1..] && a + b == [a[0]] + (a[1..] + b)
  {
  }

  lemma SeqAssoc3<T>(x: seq<T>, y: seq<T>, z: seq<T>)
    ensures x + (y + z) == (x + y) + z
  {
  }

  /** Non-increasing by key: the order the comparator `key(b) - key(a)` asks for. */
  predicate SortedDesc<T(!new)>(s: seq<T>, key: T -> int)
  {
    forall i, j :: 0 <= i < j < |s| ==> key(s[i]) >= key(s[j])
  }

  /** The elements of `s` whose key is `k`, in their order in `s`. */
  function WithKey<T(!new)>(s: seq<T>, key: T -> int, k: int): seq<T>
  {
    if s == [] then []
    else (if key(s[0]) == k then [s[0]] else []) + WithKey(s[1..], key, k)
  }

  /** Puts `x` in front of the first element whose key is not larger. */
  function Insert<T(!new)>(x: T, s: seq<T>, key: T -> int): (r: seq<T>)
    ensures |r| == |s| + 1
    ensures multiset(r) == multiset(s) + multiset{x}
  {
    if s == [] then [x]
    else if key(s[0]) <= key(x) then [x] + s
    else
      var rest := Insert(x, s[1..], key);
      assert s == [s[0]] + s[1..];
      [s[0]] + rest
  }

  /** The stable descending sort: insertion sort from the back, so that
      of two elements with equal keys the earlier one stays in front. */
  function SortDesc<T(!new)>(s: seq<T>, key: T -> int): (r: seq<T>)
    ensures |r| == |s|
    ensures multiset(r) == multiset(s)
    ensures SortedDesc(r, key)
  {
    if s == [] then []
    else
      assert s == [s[0]] + s[1..];
      var t := SortDesc(s[1..], key);
      InsertSorted(s[0], t, key);
      Insert(s[0], t, key)
  }

  /** Inserting into an ordered list keeps it ordered. */
  lemma {:induction false} InsertSorted<T(!new)>(x: T, s: seq<T>, key: T -> int)
    requires SortedDesc(s, key)
    ensures SortedDesc(Insert(x, s, key), key)
  {
    if s == [] || key(s[0]) <= key(x) {
      forall i | 0 <= i < |s| ensures key(s[i]) <= key(x) {
        if i > 0 { assert key(s[0]) >= key(s[i]); }
      }
      assert Insert(x, s, key) == [x] + s;
      ConsSorted(x, s, key);
    } else {
      var t := s[1..];
      SortedTail(s, key);
      var rest := Insert(x, t, key);
      InsertSorted(x, t, key);
      InsertBounded(x, t, key, key(s[0]));
      assert Insert(x, s, key) == [s[0]] + rest;
      ConsSorted(s[0], rest, key);
    }
  }

  /** An element no smaller than every key of an ordered list can go in front. */
  lemma ConsSorted<T(!new)>(y: T, t: seq<T>, key: T -> int)
    requires SortedDesc(t, key)
    requires forall i :: 0 <= i < |t| ==> key(t[i]) <= key(y)
    ensures SortedDesc([y] + t, key)
  {
    var r := [y] + t;
    forall i, j | 0 <= i < j < |r| ensures key(r[i]) >= key(r[j]) {
      assert r[j] == t[j - 1];
      if i > 0 {
        assert r[i] == t[i - 1];
      }
    }
  }

  /** Inserting an element under a bound into a list under that bound
      keeps every element under it. */
  lemma {:induction false} InsertBounded<T(!new)>(x: T, s: seq<T>, key: T -> int, b: int)
    requires key(x) <= b
    requires forall i :: 0 <= i < |s| ==> key(s[i]) <= b
    ensures forall i :: 0 <= i < |Insert(x, s, key)| ==> key(Insert(x, s, key)[i]) <= b
  {
    if s != [] && key(s[0]) > key(x) {
      var t := s[1..];
      assert forall i :: 0 <= i < |t| ==> t[i] == s[i + 1];
      InsertBounded(x, t, key, b);
      var r := Insert(x, s, key);
      assert r == [s[0]] + Insert(x, t, key);
      forall i | 0 <= i < |r| ensures key(r[i]) <= b {
        if i > 0 {
          assert r[i] == Insert(x, t, key)[i - 1];
        }
      }
    }
  }

  /** Inserting keeps, for every key, the relative order of the elements
      with that key, with the inserted element in front of them. */
  lemma {:induction false} InsertStable<T(!new)>(x: T, s: seq<T>, key: T -> int, k: int)
    ensures WithKey(Insert(x, s, key), key, k) == WithKey([x] + s, key, k)
  {
    if s == [] || key(s[0]) <= key(x) {
      assert Insert(x, s, key) == [x] + s;
    } else {
      var t := s[1..];
      var rest := Insert(x, t, key);
      assert s == [s[0]] + t;
      calc {
        WithKey(Insert(x, s, key), key, k);
        { assert Insert(x, s, key) == [s[0]] + rest; }
        WithKey([s[0]] + rest, key, k);
        { WithKeyCons(s[0], rest, key, k); }
        KeyPart(s[0], key, k) + WithKey(rest, key, k);
        { InsertStable(x, t, key, k); WithKeyCons(x, t, key, k); }
        KeyPart(s[0], key, k) + (KeyPart(x, key, k) + WithKey(t, key, k));
        { assert KeyPart(s[0], key, k) == [] || KeyPart(x, key, k) == []; }
        KeyPart(x, key, k) + (KeyPart(s[0], key, k) + WithKey(t, key, k));
        { WithKeyCons(s[0], t, key, k); }
        KeyPart(x, key, k) + WithKey(s, key, k);
        { WithKeyCons(x, s, key, k); }
        WithKey([x] + s, key, k);
      }
    }
  }

  /** `[y]` when `y` carries the key `k`, else nothing. */
  function KeyPart<T>(y: T, key: T -> int, k: int): seq<T>
  {
    if key(y) == k then [y] else []
  }

  lemma WithKeyCons<T(!new)>(y: T, t: seq<T>, key: T -> int, k: int)
    ensures WithKey([y] + t, key, k) == KeyPart(y, key, k) + WithKey(t, key, k)
  {
    assert ([y] + t)[1..] == t;
  }

  /** The sort is stable: for every key the elements carrying it keep
      their input order. */
  lemma {:induction false} SortDescStable<T(!new)>(s: seq<T>, key: T -> int, k: int)
    ensures WithKey(SortDesc(s, key), key, k) == WithKey(s, key, k)
  {
    if s != [] {
      var t := SortDesc(s[1..], key);
      InsertStable(s[0], t, key, k);
      SortDescStable(s[1..], key, k);
      assert ([s[0]] + t)[1..] == t;
    }
  }

  /** An already ordered list is left as it is. */
  lemma {:induction false} SortDescOfSorted<T(!new)>(s: seq<T>, key: T -> int)
    requires SortedDesc(s, key)
    ensures SortDesc(s, key) == s
  {
    if s != [] {
      assert SortedDesc(s[1..], key);
      SortDescOfSorted(s[1..], key);
      assert s == [s[0]] + s[1..];
    }
  }

  /** A prefix of an ordered list is ordered. */
  lemma PrefixSorted<T(!new)>(s: seq<T>, n: nat, key: T -> int)
    requires SortedDesc(s, key) && n <= |s|
    ensures SortedDesc(s[..n], key)
  {
  }

  /** How many elements of `s` have a key larger than `k`. */
  function CountAbove<T(!new)>(s: seq<T>, key: T -> int, k: int): nat
  {
    if s == [] then 0 else (if key(s[0]) > k then 1 else 0) + CountAbove(s[1..], key, k)
  }

  lemma {:induction false} CountAboveNone<T(!new)>(s: seq<T>, key: T -> int, k: int)
    requires forall i :: 0 <= i < |s| ==> key(s[i]) <= k
    ensures CountAbove(s, key, k) == 0
  {
    if s != [] {
      CountAboveNone(s[1..], key, k);
    }
  }

  /** Sorting moves elements but does not change how many lie above a key. */
  lemma {:induction false} SortDescCountAbove<T(!new)>(s: seq<T>, key: T -> int, k: int)
    ensures CountAbove(SortDesc(s, key), key, k) == CountAbove(s, key, k)
  {
    if s != [] {
      var t := SortDesc(s[1..], key);
      InsertCountAbove(s[0], t, key, k);
      SortDescCountAbove(s[1..], key, k);
      assert ([s[0]] + t)[1..] == t;
    }
  }

  lemma {:induction false} InsertCountAbove<T(!new)>(x: T, s: seq<T>, key: T -> int, k: int)
    ensures CountAbove(Insert(x, s, key), key, k) == CountAbove([x] + s, key, k)
  {
    assert ([x] + s)[1..] == s;
    if s != [] && key(s[0]) > key(x) {
      var rest := Insert(x, s[1..], key);
      assert ([s[0]] + rest)[1..] == rest;
      InsertCountAbove(x, s[1..], key, k);
      assert ([x] + s[1..])[1..] == s[1..];
    }
  }

  /** In an ordered list the inserted element lands right behind the
      elements whose key is larger than its own, and nowhere else. */
  lemma {:induction false} InsertPosition<T(!new)>(x: T, s: seq<T>, key: T -> int)
    requires SortedDesc(s, key)
    ensures CountAbove(s, key, key(x)) <= |s|
    ensures var n := CountAbove(s, key, key(x)); Insert(x, s, key) == s[..n] + [x] + s[n..]
  {
    if s == [] {
    } else if key(s[0]) <= key(x) {
      InsertInFront(x, s, key);
    } else {
      var t := s[1..];
      SortedTail(s, key);
      InsertPosition(x, t, key);
      InsertBehindFirst(x, s, key, CountAbove(t, key, key(x)));
    }
  }

  /** The tail of an ordered list is ordered. */
  lemma SortedTail<T(!new)>(s: seq<T>, key: T -> int)
    requires SortedDesc(s, key) && s != []
    ensures SortedDesc(s[1..], key)
  {
    var t := s[1..];
    forall i, j | 0 <= i < j < |t| ensures key(t[i]) >= key(t[j]) {
      assert t[i] == s[i + 1] && t[j] == s[j + 1];
    }
  }

  /** An element at least as large as the head of an ordered list goes in front. */
  lemma InsertInFront<T(!new)>(x: T, s: seq<T>, key: T -> int)
    requires SortedDesc(s, key) && s != [] && key(s[0]) <= key(x)
    ensures CountAbove(s, key, key(x)) == 0
    ensures Insert(x, s, key) == [x] + s
  {
    forall i | 0 <= i < |s| ensures key(s[i]) <= key(x) {
      if i > 0 { assert key(s[0]) >= key(s[i]); }
    }
    CountAboveNone(s, key, key(x));
  }

  /** The step of `InsertPosition` past a head larger than the element. */
  lemma InsertBehindFirst<T(!new)>(x: T, s: seq<T>, key: T -> int, m: nat)
    requires s != [] && key(s[0]) > key(x)
    requires m == CountAbove(s[1..], key, key(x)) && m <= |s| - 1
    requires Insert(x, s[1..], key) == s[1..][..m] + [x] + s[1..][m..]
    ensures CountAbove(s, key, key(x)) == m + 1
    ensures Insert(x, s, key) == s[..m + 1] + [x] + s[m + 1..]
  {
    var t := s[1..];
    var a, b := t[..m], t[m..];
    assert s[..m + 1] == [s[0]] + a;
    assert s[m + 1..] == b;
    calc {
      Insert(x, s, key);
      [s[0]] + Insert(x, t, key);
      [s[0]] + (a + [x] + b);
      { SeqAssoc([s[0]], a, [x], b); }
      ([s[0]] + a) + [x] + b;
    }
  }

  lemma SeqAssoc<T>(p: seq<T>, a: seq<T>, y: seq<T>, b: seq<T>)
    ensures p + (a + y + b) == (p + a) + y + b
  {
  }
}
