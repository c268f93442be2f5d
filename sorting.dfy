/**
 * Python's `sorted(xs, key=..., reverse=...)`: a stable sort on the values of a
 * key function. Keys are the values the key lambdas of tidal_tool.py return:
 * integers, strings, pairs of keys (tuples) and `datetime.min`, the fallback
 * for a missing timestamp, which is below every real timestamp.
 */
module Sorting {
  import opened Text

  datatype Key = Bottom | Num(n: int) | Str(s: string) | Pair(fst: Key, snd: Key)

  function Rank(k: Key): nat {
    match k
    case Bottom => 0
    case Num(_) => 1
    case Str(_) => 2
    case Pair(_, _) => 3
  }

  /** Python's `<=` on keys; tuples compare on their first differing component. */
  predicate KeyLe(a: Key, b: Key)
    decreases a
  {
    match (a, b)
    case (Bottom, _) => true
    case (Num(x), Num(y)) => x <= y
    case (Str(x), Str(y)) => LexLe(x, y)
    case (Pair(a1, a2), Pair(b1, b2)) => if a1 == b1 then KeyLe(a2, b2) else KeyLe(a1, b1)
    case _ => Rank(a) < Rank(b)
  }

  lemma {:induction false} KeyLeTotal(a: Key, b: Key)
    ensures KeyLe(a, b) || KeyLe(b, a)
    decreases a
  {
    match (a, b)
    case (Str(x), Str(y)) => LexLeTotal(x, y);
    case (Pair(a1, a2), Pair(b1, b2)) =>
      if a1 == b1 { KeyLeTotal(a2, b2); } else { KeyLeTotal(a1, b1); }
    case _ =>
  }

  lemma {:induction false} KeyLeAntisymmetric(a: Key, b: Key)
    requires KeyLe(a, b) && KeyLe(b, a)
    ensures a == b
    decreases a
  {
    match (a, b)
    case (Str(x), Str(y)) => LexLeAntisymmetric(x, y);
    case (Pair(a1, a2), Pair(b1, b2)) =>
      if a1 == b1 { KeyLeAntisymmetric(a2, b2); } else { KeyLeAntisymmetric(a1, b1); }
    case _ =>
  }

  lemma {:induction false} KeyLeTransitive(a: Key, b: Key, c: Key)
    requires KeyLe(a, b) && KeyLe(b, c)
    ensures KeyLe(a, c)
    decreases a
  {
    match (a, b, c)
    case (Str(x), Str(y), Str(z)) => LexLeTransitive(x, y, z);
    case (Pair(a1, a2), Pair(b1, b2), Pair(c1, c2)) =>
      if a1 == b1 && b1 == c1 {
        KeyLeTransitive(a2, b2, c2);
      } else if a1 == b1 {
        assert KeyLe(a1, c1);
      } else if b1 == c1 {
        assert KeyLe(a1, c1);
      } else {
        KeyLeTransitive(a1, b1, c1);
        if a1 == c1 {
          KeyLeAntisymmetric(a1, b1);
        }
      }
    case _ =>
  }

  lemma KeyLeReflexive(a: Key)
    ensures KeyLe(a, a)
  {
    KeyLeTotal(a, a);
  }

  /** The order `sorted` arranges by: ascending keys, or descending ones when `reverse`. */
  predicate Le<T>(key: T -> Key, reverse: bool, a: T, b: T) {
    if reverse then KeyLe(key(b), key(a)) else KeyLe(key(a), key(b))
  }

  lemma LeTotal<T>(key: T -> Key, reverse: bool, a: T, b: T)
    ensures Le(key, reverse, a, b) || Le(key, reverse, b, a)
  {
    KeyLeTotal(key(a), key(b));
  }

  lemma LeTransitive<T>(key: T -> Key, reverse: bool, a: T, b: T, c: T)
    requires Le(key, reverse, a, b) && Le(key, reverse, b, c)
    ensures Le(key, reverse, a, c)
  {
    if reverse {
      KeyLeTransitive(key(c), key(b), key(a));
    } else {
      KeyLeTransitive(key(a), key(b), key(c));
    }
  }

  lemma LeBothWays<T>(key: T -> Key, reverse: bool, a: T, b: T)
    requires Le(key, reverse, a, b) && Le(key, reverse, b, a)
    ensures key(a) == key(b)
  {
    KeyLeAntisymmetric(key(a), key(b));
  }

  ghost predicate Sorted<T>(s: seq<T>, key: T -> Key, reverse: bool) {
    forall i, j :: 0 <= i < j < |s| ==> Le(key, reverse, s[i], s[j])
  }

  /** The elements of `s` whose key is `k`, in their order in `s`. */
  function WithKey<T>(s: seq<T>, key: T -> Key, k: Key): seq<T> {
    if |s| == 0 then []
    else (if key(s[0]) == k then [s[0]] else []) + WithKey(s[1..], key, k)
  }

  /** Stability: each group of equal keys keeps its relative order. */
  ghost predicate Stable<T>(r: seq<T>, s: seq<T>, key: T -> Key) {
    forall k :: WithKey(r, key, k) == WithKey(s, key, k)
  }

  /** Places `x` before the first element it may precede. */
  function Insert<T>(x: T, s: seq<T>, key: T -> Key, reverse: bool): (r: seq<T>)
    ensures multiset(r) == multiset(s) + multiset{x}
  {
    if |s| == 0 then [x]
    else if Le(key, reverse, x, s[0]) then [x] + s
    else
      assert s == [s[0]] + s[1..];
      [s[0]] + Insert(x, s[1..], key, reverse)
  }

  /** Insertion sort; stable because each element goes in front of the later ones with its key. */
  function SortBy<T>(s: seq<T>, key: T -> Key, reverse: bool): (r: seq<T>)
    ensures multiset(r) == multiset(s)
  {
    if |s| == 0 then []
    else
      assert s == [s[0]] + s[1..];
      Insert(s[0], SortBy(s[1..], key, reverse), key, reverse)
  }

  lemma {:induction false} InsertSorted<T>(x: T, s: seq<T>, key: T -> Key, reverse: bool)
    requires Sorted(s, key, reverse)
    ensures Sorted(Insert(x, s, key, reverse), key, reverse)
  {
    if |s| > 0 && !Le(key, reverse, x, s[0]) {
      var t := s[1..];
      assert Sorted(t, key, reverse);
      InsertSorted(x, t, key, reverse);
      var it := Insert(x, t, key, reverse);
      LeTotal(key, reverse, x, s[0]);
      forall j | 0 <= j < |it|
        ensures Le(key, reverse, s[0], it[j])
      {
        assert it[j] in multiset(it);
        assert it[j] == x || it[j] in multiset(t);
        if it[j] != x {
          var m :| 0 <= m < |t| && t[m] == it[j];
          assert s[m + 1] == t[m];
        }
      }
      SortedCons(s[0], it, key, reverse);
    } else if |s| > 0 {
      forall j | 0 <= j < |s|
        ensures Le(key, reverse, x, s[j])
      {
        if j > 0 {
          LeTransitive(key, reverse, x, s[0], s[j]);
        }
      }
      SortedCons(x, s, key, reverse);
    }
  }

  /** A sorted sequence stays sorted under a new head that is below all of it. */
  lemma SortedCons<T>(y: T, r: seq<T>, key: T -> Key, reverse: bool)
    requires Sorted(r, key, reverse)
    requires forall j :: 0 <= j < |r| ==> Le(key, reverse, y, r[j])
    ensures Sorted([y] + r, key, reverse)
  {
    var c := [y] + r;
    forall i, j | 0 <= i < j < |c|
      ensures Le(key, reverse, c[i], c[j])
    {
      if i > 0 {
        assert c[i] == r[i - 1] && c[j] == r[j - 1];
      } else {
        assert c[j] == r[j - 1];
      }
    }
  }

  lemma {:induction false} SortBySorted<T>(s: seq<T>, key: T -> Key, reverse: bool)
    ensures Sorted(SortBy(s, key, reverse), key, reverse)
  {
    if |s| > 0 {
      SortBySorted(s[1..], key, reverse);
      InsertSorted(s[0], SortBy(s[1..], key, reverse), key, reverse);
    }
  }

  lemma {:induction false} WithKeyInsert<T>(x: T, s: seq<T>, key: T -> Key, reverse: bool, k: Key)
    ensures WithKey(Insert(x, s, key, reverse), key, k)
      == (if key(x) == k then [x] else []) + WithKey(s, key, k)
  {
    if |s| > 0 && !Le(key, reverse, x, s[0]) {
      WithKeyInsert(x, s[1..], key, reverse, k);
      NotLeDistinctKeys(key, reverse, x, s[0]);
      assert Insert(x, s, key, reverse) == [s[0]] + Insert(x, s[1..], key, reverse);
      assert s == [s[0]] + s[1..];
      WithKeySkip(s[0], Insert(x, s[1..], key, reverse), s[1..], key, k, if key(x) == k then [x] else []);
    } else if |s| > 0 {
      WithKeyCons(x, s, key, k);
    }
  }

  /** An element that is not in the group of `k` can pass an element of that group. */
  lemma WithKeySkip<T>(y: T, it: seq<T>, rest: seq<T>, key: T -> Key, k: Key, hx: seq<T>)
    requires WithKey(it, key, k) == hx + WithKey(rest, key, k)
    requires hx == [] || key(y) != k
    ensures WithKey([y] + it, key, k) == hx + WithKey([y] + rest, key, k)
  {
    WithKeyCons(y, it, key, k);
    WithKeyCons(y, rest, key, k);
    if key(y) == k {
      assert [y] + ([] + WithKey(rest, key, k)) == [] + ([y] + WithKey(rest, key, k));
    }
  }

  lemma NotLeDistinctKeys<T>(key: T -> Key, reverse: bool, a: T, b: T)
    requires !Le(key, reverse, a, b)
    ensures key(a) != key(b)
  {
    KeyLeReflexive(key(a));
  }

  lemma WithKeyCons<T>(y: T, t: seq<T>, key: T -> Key, k: Key)
    ensures WithKey([y] + t, key, k) == (if key(y) == k then [y] else []) + WithKey(t, key, k)
  {
    assert ([y] + t)[1..] == t;
  }

  lemma {:induction false} SortByStable<T>(s: seq<T>, key: T -> Key, reverse: bool)
    ensures Stable(SortBy(s, key, reverse), s, key)
  {
    if |s| > 0 {
      SortByStable(s[1..], key, reverse);
      forall k
        ensures WithKey(SortBy(s, key, reverse), key, k) == WithKey(s, key, k)
      {
        WithKeyInsert(s[0], SortBy(s[1..], key, reverse), key, reverse, k);
      }
    }
  }

  /** A sequence already in order is returned as it is. */
  lemma {:induction false} SortBySortedInput<T>(s: seq<T>, key: T -> Key, reverse: bool)
    requires Sorted(s, key, reverse)
    ensures SortBy(s, key, reverse) == s
  {
    if |s| > 0 {
      assert Sorted(s[1..], key, reverse);
      SortBySortedInput(s[1..], key, reverse);
      if |s| > 1 {
        assert Le(key, reverse, s[0], s[1]);
      }
      assert s == [s[0]] + s[1..];
    }
  }

  lemma WithKeyHead<T>(s: seq<T>, key: T -> Key)
    requires |s| > 0
    ensures |WithKey(s, key, key(s[0]))| > 0 && WithKey(s, key, key(s[0]))[0] == s[0]
    ensures forall k :: WithKey(s[1..], key, k) == if k == key(s[0]) then WithKey(s, key, k)[1..] else WithKey(s, key, k)
  {
    forall k
      ensures WithKey(s[1..], key, k) == if k == key(s[0]) then WithKey(s, key, k)[1..] else WithKey(s, key, k)
    {
      var w := WithKey(s, key, k);
      assert w == (if key(s[0]) == k then [s[0]] else []) + WithKey(s[1..], key, k);
      if k == key(s[0]) {
        assert w[1..] == WithKey(s[1..], key, k);
      }
    }
  }

  lemma {:induction false} WithKeyMultiset<T>(s: seq<T>, key: T -> Key, x: T)
    requires x in s
    ensures x in WithKey(s, key, key(x))
  {
    if s[0] != x {
      WithKeyMultiset(s[1..], key, x);
    }
  }

  lemma {:induction false} StableSameElements<T>(a: seq<T>, b: seq<T>, key: T -> Key, x: T)
    requires Stable(a, b, key) && x in b
    ensures x in a
  {
    WithKeyMultiset(b, key, x);
    assert x in WithKey(a, key, key(x));
    WithKeySubset(a, key, key(x));
  }

  lemma {:induction false} WithKeySubset<T>(s: seq<T>, key: T -> Key, k: Key)
    ensures forall y :: y in WithKey(s, key, k) ==> y in s
  {
    if |s| > 0 {
      WithKeySubset(s[1..], key, k);
    }
  }

  lemma StableNonEmpty<T>(a: seq<T>, b: seq<T>, key: T -> Key)
    requires Stable(a, b, key)
    ensures |a| == 0 <==> |b| == 0
  {
    if |b| > 0 {
      WithKeyHead(b, key);
      assert WithKey(a, key, key(b[0])) == WithKey(b, key, key(b[0]));
    }
    if |a| > 0 {
      WithKeyHead(a, key);
      assert WithKey(a, key, key(a[0])) == WithKey(b, key, key(a[0]));
    }
  }

  /**
   * Any sorted rearrangement that keeps every group of equal keys in order is
   * SortBy's result: so SortBy stands for Python's Timsort, whatever algorithm
   * produces it.
   */
  lemma {:induction false} StableSortUnique<T>(a: seq<T>, b: seq<T>, key: T -> Key, reverse: bool)
    requires Sorted(a, key, reverse) && Sorted(b, key, reverse) && Stable(a, b, key)
    ensures a == b
    decreases |a| + |b|
  {
    StableNonEmpty(a, b, key);
    if |a| > 0 {
      StableHeads(a, b, key, reverse);
      StableTails(a, b, key);
      assert Sorted(a[1..], key, reverse) && Sorted(b[1..], key, reverse);
      StableSortUnique(a[1..], b[1..], key, reverse);
      assert a == [a[0]] + a[1..] && b == [b[0]] + b[1..];
    }
  }

  /** Two sorted, stably equivalent sequences start with the same element. */
  lemma StableHeads<T>(a: seq<T>, b: seq<T>, key: T -> Key, reverse: bool)
    requires Sorted(a, key, reverse) && Sorted(b, key, reverse) && Stable(a, b, key)
    requires |a| > 0 && |b| > 0
    ensures a[0] == b[0]
  {
    StableSameElements(a, b, key, b[0]);
    assert Stable(b, a, key);
    StableSameElements(b, a, key, a[0]);
    var i :| 0 <= i < |a| && a[i] == b[0];
    var j :| 0 <= j < |b| && b[j] == a[0];
    assert Le(key, reverse, a[0], b[0]) by {
      if i > 0 { assert Le(key, reverse, a[0], a[i]); }
      else { LeTotal(key, reverse, a[0], a[0]); }
    }
    assert Le(key, reverse, b[0], a[0]) by {
      if j > 0 { assert Le(key, reverse, b[0], b[j]); }
      else { LeTotal(key, reverse, b[0], b[0]); }
    }
    LeBothWays(key, reverse, a[0], b[0]);
    var k0 := key(a[0]);
    WithKeyHead(a, key);
    WithKeyHead(b, key);
    assert a[0] == WithKey(a, key, k0)[0] == WithKey(b, key, k0)[0] == b[0];
  }

  /** Dropping a common head keeps the groups of equal keys equal. */
  lemma StableTails<T>(a: seq<T>, b: seq<T>, key: T -> Key)
    requires Stable(a, b, key) && |a| > 0 && |b| > 0 && a[0] == b[0]
    ensures Stable(a[1..], b[1..], key)
  {
    WithKeyHead(a, key);
    WithKeyHead(b, key);
    forall k
      ensures WithKey(a[1..], key, k) == WithKey(b[1..], key, k)
    {
      assert WithKey(a, key, k) == WithKey(b, key, k);
    }
  }
}
