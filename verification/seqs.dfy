/**
 * The two list operations both page controllers are built from:
 * `Array.prototype.filter` (keep the elements a predicate accepts, in order)
 * and `Array.prototype.sort` with a comparator of the form
 * `(a, b) => key(a) - key(b)`, which ECMAScript requires to be stable.
 */
module Seqs {

  /** The elements of `s` accepted by `p`, in their original relative order. */
  function Filter<T>(s: seq<T>, p: T -> bool): (r: seq<T>)
    ensures |r| <= |s|
    ensures forall i :: 0 <= i < |r| ==> p(r[i])
  {
    if s == [] then [] else (if p(s[0]) then [s[0]] else []) + Filter(s[1..], p)
  }

  /** `r` is obtained from `s` by deleting some elements and keeping the order of the rest. */
  predicate IsSubsequence<T(==)>(r: seq<T>, s: seq<T>)
    decreases |s|
  {
    if s == [] then r == []
    else (r != [] && r[0] == s[0] && IsSubsequence(r[1..], s[1..])) || IsSubsequence(r, s[1..])
  }

  lemma {:induction false} FilterIsSubsequence<T>(s: seq<T>, p: T -> bool)
    ensures IsSubsequence(Filter(s, p), s)
  {
    if s != [] {
      FilterIsSubsequence(s[1..], p);
      if p(s[0]) {
        assert Filter(s, p) == [s[0]] + Filter(s[1..], p);
        assert Filter(s, p)[1..] == Filter(s[1..], p);
      } else {
        assert Filter(s, p) == Filter(s[1..], p);
      }
    }
  }

  /** Every occurrence of an accepted value survives, every rejected value disappears. */
  lemma {:induction false} FilterCount<T>(s: seq<T>, p: T -> bool, x: T)
    ensures multiset(Filter(s, p))[x] == if p(x) then multiset(s)[x] else 0
  {
    if s != [] {
      FilterCount(s[1..], p, x);
      assert s == [s[0]] + s[1..];
      assert multiset(s) == multiset([s[0]]) + multiset(s[1..]);
      var head := if p(s[0]) then [s[0]] else [];
      assert multiset(Filter(s, p)) == multiset(head) + multiset(Filter(s[1..], p));
    }
  }

  lemma {:induction false} FilterMembership<T>(s: seq<T>, p: T -> bool, x: T)
    ensures x in Filter(s, p) <==> x in s && p(x)
  {
    FilterCount(s, p, x);
    assert x in Filter(s, p) <==> x in multiset(Filter(s, p));
    assert x in s <==> x in multiset(s);
  }

  /** A predicate that accepts every element leaves the sequence as it is. */
  lemma {:induction false} FilterKeepsAll<T>(s: seq<T>, p: T -> bool)
    requires forall i :: 0 <= i < |s| ==> p(s[i])
    ensures Filter(s, p) == s
  {
    if s != [] {
      FilterKeepsAll(s[1..], p);
    }
  }

  // ---------------------------------------------------------------------------
  // Sorting by an integer key

  /** Non-decreasing in `key`: what a comparator `key(a) - key(b)` asks of the result. */
  ghost predicate SortedBy<T>(s: seq<T>, key: T -> int)
  {
    forall i, j :: 0 <= i < j < |s| ==> key(s[i]) <= key(s[j])
  }

  /** The elements of `s` whose key is `k`, in order: one run of ties. */
  function WithKey<T>(s: seq<T>, key: T -> int, k: int): seq<T>
  {
    Filter(s, x => key(x) == k)
  }

  lemma WithKeyCons<T>(s: seq<T>, key: T -> int, k: int)
    requires s != []
    ensures WithKey(s, key, k) == (if key(s[0]) == k then [s[0]] else []) + WithKey(s[1..], key, k)
  {
  }

  /** When every element has key `k`, the run of `k` is the whole sequence. */
  lemma {:induction false} WithKeyAll<T>(s: seq<T>, key: T -> int, k: int)
    requires forall i :: 0 <= i < |s| ==> key(s[i]) == k
    ensures WithKey(s, key, k) == s
  {
    if s != [] {
      WithKeyCons(s, key, k);
      WithKeyAll(s[1..], key, k);
    }
  }

  /** `r` lists every run of equal keys in the same order as `s` does. */
  ghost predicate SameTies<T>(r: seq<T>, s: seq<T>, key: T -> int)
  {
    forall k :: WithKey(r, key, k) == WithKey(s, key, k)
  }

  /** Puts `x` before the first element whose key is not smaller than its own. */
  function Insert<T>(x: T, s: seq<T>, key: T -> int): seq<T>
  {
    if s == [] then [x]
    else if key(x) <= key(s[0]) then [x] + s
    else [s[0]] + Insert(x, s[1..], key)
  }

  /**
   * Stable sort, ascending by `key`. It is the result ECMAScript's stable
   * `sort` produces for the comparator `(a, b) => key(a) - key(b)`
   * (see StableSortUnique).
   */
  function SortByKey<T>(s: seq<T>, key: T -> int): (r: seq<T>)
    ensures multiset(r) == multiset(s)
  {
    if s == [] then []
    else
      var rest := SortByKey(s[1..], key);
      InsertCount(s[0], rest, key);
      assert s == [s[0]] + s[1..];
      Insert(s[0], rest, key)
  }

  lemma {:induction false} InsertCount<T>(x: T, s: seq<T>, key: T -> int)
    ensures multiset(Insert(x, s, key)) == multiset(s) + multiset{x}
  {
    if s != [] && key(x) > key(s[0]) {
      InsertCount(x, s[1..], key);
      assert s == [s[0]] + s[1..];
    }
  }

  lemma {:induction false} InsertSorted<T>(x: T, s: seq<T>, key: T -> int)
    requires SortedBy(s, key)
    ensures SortedBy(Insert(x, s, key), key)
  {
    if s != [] && key(x) > key(s[0]) {
      var tail := Insert(x, s[1..], key);
      InsertSorted(x, s[1..], key);
      InsertCount(x, s[1..], key);
      forall j | 0 <= j < |tail| ensures key(s[0]) <= key(tail[j]) {
        assert tail[j] in multiset(tail);
        if tail[j] != x {
          assert tail[j] in multiset(s[1..]);
          var m :| 0 <= m < |s[1..]| && s[1..][m] == tail[j];
          assert s[1 + m] == tail[j];
        }
      }
      assert Insert(x, s, key) == [s[0]] + tail;
    }
  }

  /** Inserting `x` adds it at the front of its own run and touches no other run. */
  lemma {:induction false} InsertWithKey<T>(x: T, s: seq<T>, key: T -> int, k: int)
    ensures WithKey(Insert(x, s, key), key, k)
         == (if key(x) == k then [x] else []) + WithKey(s, key, k)
  {
    if s == [] {
    } else if key(x) <= key(s[0]) {
      var ins := Insert(x, s, key);
      assert ins == [x] + s;
      assert ins[1..] == s;
      WithKeyCons(ins, key, k);
    } else {
      var ins := Insert(x, s, key);
      InsertWithKey(x, s[1..], key, k);
      assert ins[0] == s[0];
      assert ins[1..] == Insert(x, s[1..], key);
      WithKeyCons(ins, key, k);
      WithKeyCons(s, key, k);
    }
  }

  /** SortByKey orders its input by key and keeps elements of equal key in input order. */
  lemma {:induction false} SortByKeyCorrect<T>(s: seq<T>, key: T -> int)
    ensures SortedBy(SortByKey(s, key), key)
    ensures SameTies(SortByKey(s, key), s, key)
  {
    if s != [] {
      var rest := SortByKey(s[1..], key);
      SortByKeyCorrect(s[1..], key);
      InsertSorted(s[0], rest, key);
      forall k ensures WithKey(SortByKey(s, key), key, k) == WithKey(s, key, k) {
        InsertWithKey(s[0], rest, key, k);
        WithKeyCons(s, key, k);
      }
    }
  }

  /** Dropping the head of a sequence removes one copy of it from the multiset. */
  lemma MultisetTail<T>(a: seq<T>)
    requires a != []
    ensures multiset(a[1..]) == multiset(a) - multiset{a[0]}
  {
    assert a == [a[0]] + a[1..];
  }

  lemma HeadTailEqual<T>(a: seq<T>, b: seq<T>)
    requires a != [] && b != [] && a[0] == b[0] && a[1..] == b[1..]
    ensures a == b
  {
    assert a == [a[0]] + a[1..];
    assert b == [b[0]] + b[1..];
  }

  /** Two sorted sequences with the same elements start with the same key. */
  lemma SortedHeadsTie<T>(a: seq<T>, b: seq<T>, key: T -> int)
    requires a != [] && multiset(a) == multiset(b)
    requires SortedBy(a, key) && SortedBy(b, key)
    ensures b != [] && key(a[0]) == key(b[0])
  {
    assert a[0] in multiset(b);
    var ia :| 0 <= ia < |b| && b[ia] == a[0];
    assert b[0] in multiset(a);
    var ib :| 0 <= ib < |a| && a[ib] == b[0];
    if ia > 0 { assert key(b[0]) <= key(b[ia]); }
    if ib > 0 { assert key(a[0]) <= key(a[ib]); }
  }

  /** Two sequences with one head and the same runs keep the same runs after the head. */
  lemma WithKeyTail<T>(a: seq<T>, b: seq<T>, key: T -> int, k: int)
    requires a != [] && b != [] && a[0] == b[0]
    requires WithKey(a, key, k) == WithKey(b, key, k)
    ensures WithKey(a[1..], key, k) == WithKey(b[1..], key, k)
  {
    WithKeyCons(a, key, k);
    WithKeyCons(b, key, k);
    var wa, wb := WithKey(a[1..], key, k), WithKey(b[1..], key, k);
    if key(a[0]) == k {
      assert [a[0]] + wa == [a[0]] + wb;
      assert ([a[0]] + wa)[1..] == wa;
      assert ([a[0]] + wb)[1..] == wb;
    } else {
      assert [] + wa == wa && [] + wb == wb;
    }
  }

  /** Sorted sequences with the same elements and the same runs start with the same element. */
  lemma SameHeads<T>(a: seq<T>, b: seq<T>, key: T -> int)
    requires a != [] && multiset(a) == multiset(b)
    requires SortedBy(a, key) && SortedBy(b, key)
    requires WithKey(a, key, key(a[0])) == WithKey(b, key, key(a[0]))
    ensures b != [] && a[0] == b[0]
  {
    SortedHeadsTie(a, b, key);
    var m := key(a[0]);
    WithKeyCons(a, key, m);
    WithKeyCons(b, key, m);
    assert WithKey(a, key, m)[0] == a[0];
    assert WithKey(b, key, m)[0] == b[0];
  }

  /**
   * A comparator of the form `key(a) - key(b)` fixes the result of a stable
   * sort completely: two sequences with the same elements, both ordered by
   * `key`, whose runs of equal keys agree, are equal.
   */
  lemma {:induction false} StableSortUnique<T>(a: seq<T>, b: seq<T>, key: T -> int)
    requires multiset(a) == multiset(b)
    requires SortedBy(a, key) && SortedBy(b, key)
    requires SameTies(a, b, key)
    ensures a == b
  {
    if a == [] {
      assert |b| == |multiset(b)| == 0;
    } else {
      SameHeads(a, b, key);
      forall k ensures WithKey(a[1..], key, k) == WithKey(b[1..], key, k) {
        WithKeyTail(a, b, key, k);
      }
      MultisetTail(a);
      MultisetTail(b);
      StableSortUnique(a[1..], b[1..], key);
      HeadTailEqual(a, b);
    }
  }

  /** With a constant key every element ties, so a stable sort returns its input unchanged. */
  lemma {:induction false} SortByConstantKey<T>(s: seq<T>, key: T -> int, c: int)
    requires forall x :: key(x) == c
    ensures SortByKey(s, key) == s
  {
    SortByKeyCorrect(s, key);
    var r := SortByKey(s, key);
    forall i | 0 <= i < |r| ensures key(r[i]) == c {
      assert r[i] in multiset(s);
      var j :| 0 <= j < |s| && s[j] == r[i];
    }
    WithKeyAll(s, key, c);
    WithKeyAll(r, key, c);
    assert WithKey(r, key, c) == WithKey(s, key, c);
  }

  // ---------------------------------------------------------------------------
  // Opposite criteria

  function Reverse<T>(s: seq<T>): (r: seq<T>)
    ensures |r| == |s| && forall i :: 0 <= i < |s| ==> r[i] == s[|s| - 1 - i]
  {
    seq(|s|, i requires 0 <= i < |s| => s[|s| - 1 - i])
  }

  lemma {:induction false} ReverseCount<T>(s: seq<T>)
    ensures multiset(Reverse(s)) == multiset(s)
  {
    if s != [] {
      ReverseCount(s[1..]);
      assert Reverse(s) == Reverse(s[1..]) + [s[0]];
      assert s == [s[0]] + s[1..];
    }
  }

  /** No two positions of `s` share a key. */
  ghost predicate DistinctKeys<T>(s: seq<T>, key: T -> int)
  {
    forall i, j :: 0 <= i < j < |s| ==> key(s[i]) != key(s[j])
  }

  ghost predicate StrictlySortedBy<T>(s: seq<T>, key: T -> int)
  {
    forall i, j :: 0 <= i < j < |s| ==> key(s[i]) < key(s[j])
  }

  lemma StrictHeads<T>(a: seq<T>, b: seq<T>, key: T -> int)
    requires multiset(a) == multiset(b) && a != []
    requires StrictlySortedBy(a, key) && StrictlySortedBy(b, key)
    ensures b != [] && a[0] == b[0]
  {
    assert |b| == |multiset(b)| == |multiset(a)| == |a|;
    assert a[0] in multiset(b) && b[0] in multiset(a);
    var ia :| 0 <= ia < |b| && b[ia] == a[0];
    var ib :| 0 <= ib < |a| && a[ib] == b[0];
    if ia != 0 {
      assert false;
    }
  }

  lemma StrictTail<T>(a: seq<T>, key: T -> int)
    requires a != [] && StrictlySortedBy(a, key)
    ensures StrictlySortedBy(a[1..], key)
  {
    forall i, j | 0 <= i < j < |a| - 1 ensures key(a[1..][i]) < key(a[1..][j]) {
      assert a[1..][i] == a[i + 1] && a[1..][j] == a[j + 1];
    }
  }

  /** Two strictly ordered arrangements of the same elements are the same sequence. */
  lemma {:induction false} StrictlySortedUnique<T>(a: seq<T>, b: seq<T>, key: T -> int)
    requires multiset(a) == multiset(b)
    requires StrictlySortedBy(a, key) && StrictlySortedBy(b, key)
    ensures a == b
  {
    if a == [] {
      assert |b| == |multiset(b)| == 0;
    } else {
      StrictHeads(a, b, key);
      MultisetTail(a);
      MultisetTail(b);
      StrictTail(a, key);
      StrictTail(b, key);
      StrictlySortedUnique(a[1..], b[1..], key);
      HeadTailEqual(a, b);
    }
  }

  lemma {:induction false} WithKeyNone<T>(s: seq<T>, key: T -> int, k: int)
    requires forall i :: 0 <= i < |s| ==> key(s[i]) != k
    ensures WithKey(s, key, k) == []
  {
    if s != [] {
      WithKeyCons(s, key, k);
      WithKeyNone(s[1..], key, k);
    }
  }

  lemma {:induction false} WithKeyDistinct<T>(s: seq<T>, key: T -> int, k: int)
    requires DistinctKeys(s, key)
    ensures |WithKey(s, key, k)| <= 1
  {
    if s != [] {
      WithKeyCons(s, key, k);
      if key(s[0]) == k {
        WithKeyNone(s[1..], key, k);
      } else {
        WithKeyDistinct(s[1..], key, k);
      }
    }
  }

  lemma {:induction false} WithKeyTwo<T>(s: seq<T>, key: T -> int, i: int, j: int)
    requires 0 <= i < j < |s| && key(s[i]) == key(s[j])
    ensures |WithKey(s, key, key(s[i]))| >= 2
  {
    var k := key(s[i]);
    WithKeyCons(s, key, k);
    if i == 0 {
      WithKeyHas(s[1..], key, j - 1);
    } else {
      WithKeyTwo(s[1..], key, i - 1, j - 1);
    }
  }

  lemma {:induction false} WithKeyHas<T>(s: seq<T>, key: T -> int, j: int)
    requires 0 <= j < |s|
    ensures |WithKey(s, key, key(s[j]))| >= 1
  {
    WithKeyCons(s, key, key(s[j]));
    if j > 0 {
      WithKeyHas(s[1..], key, j - 1);
    }
  }

  /** With no two keys equal, the stable sort is strictly increasing. */
  lemma SortByKeyStrict<T>(s: seq<T>, key: T -> int)
    requires DistinctKeys(s, key)
    ensures StrictlySortedBy(SortByKey(s, key), key)
  {
    var t := SortByKey(s, key);
    SortByKeyCorrect(s, key);
    forall i, j | 0 <= i < j < |t| ensures key(t[i]) < key(t[j]) {
      if key(t[i]) == key(t[j]) {
        WithKeyTwo(t, key, i, j);
        WithKeyDistinct(s, key, key(t[i]));
        assert false;
      }
    }
  }

  /** Reversing a strictly increasing sequence makes it strictly increasing in the opposite key. */
  lemma ReverseStrict<T>(s: seq<T>, key: T -> int, opposite: T -> int)
    requires StrictlySortedBy(s, key)
    requires forall i :: 0 <= i < |s| ==> opposite(s[i]) == -key(s[i])
    ensures StrictlySortedBy(Reverse(s), opposite)
  {
    var r := Reverse(s);
    forall i, j | 0 <= i < j < |r| ensures opposite(r[i]) < opposite(r[j]) {
      assert r[i] == s[|s| - 1 - i] && r[j] == s[|s| - 1 - j];
    }
  }

  /**
   * When no two elements tie, sorting by the opposite key gives exactly the
   * reverse order.
   */
  lemma OppositeSorts<T>(s: seq<T>, key: T -> int, opposite: T -> int)
    requires forall i :: 0 <= i < |s| ==> opposite(s[i]) == -key(s[i])
    requires DistinctKeys(s, key)
    ensures SortByKey(s, opposite) == Reverse(SortByKey(s, key))
  {
    var up := SortByKey(s, key);
    SortByKeyCorrect(s, key);
    SortByKeyCorrect(s, opposite);
    SortByKeyStrict(s, key);
    assert DistinctKeys(s, opposite);
    SortByKeyStrict(s, opposite);
    forall m | 0 <= m < |up| ensures opposite(up[m]) == -key(up[m]) {
      assert up[m] in multiset(s);
      var q :| 0 <= q < |s| && s[q] == up[m];
    }
    ReverseStrict(up, key, opposite);
    ReverseCount(up);
    StrictlySortedUnique(SortByKey(s, opposite), Reverse(up), opposite);
  }
}
