/**
 * The collection operations the handlers ask of the database: filtering,
 * counting, summing, sorting on an integer key and taking a prefix. The sort
 * is a stable insertion sort, so equal keys keep their store order.
 */
module Sequences {

  function Filter<T>(s: seq<T>, keep: T -> bool): (r: seq<T>)
    ensures |r| <= |s|
    ensures forall i :: 0 <= i < |r| ==> keep(r[i])
    ensures forall i :: 0 <= i < |r| ==> r[i] in s
    ensures forall i :: 0 <= i < |s| && keep(s[i]) ==> s[i] in r
  {
    if s == [] then []
    else if keep(s[0]) then [s[0]] + Filter(s[1..], keep)
    else Filter(s[1..], keep)
  }

  /** An element survives the filter exactly when it occurs and is kept. */
  lemma FilterMembers<T>(s: seq<T>, keep: T -> bool)
    ensures forall x :: x in Filter(s, keep) <==> x in s && keep(x)
  {
    forall x | x in s && keep(x) ensures x in Filter(s, keep) {
      var i :| 0 <= i < |s| && s[i] == x;
    }
  }

  /** A kept element keeps its multiplicity; a dropped one disappears. */
  lemma {:induction false} FilterMultiplicity<T>(s: seq<T>, keep: T -> bool, x: T)
    ensures multiset(Filter(s, keep))[x] == if keep(x) then multiset(s)[x] else 0
  {
    if s != [] {
      FilterMultiplicity(s[1..], keep, x);
      assert s == [s[0]] + s[1..];
      assert multiset(s) == multiset{s[0]} + multiset(s[1..]);
      if keep(s[0]) {
        assert multiset(Filter(s, keep)) == multiset{s[0]} + multiset(Filter(s[1..], keep));
      }
    }
  }

  function Count<T>(s: seq<T>, holds: T -> bool): (n: nat)
    ensures n <= |s|
    ensures n == 0 <==> forall i :: 0 <= i < |s| ==> !holds(s[i])
  {
    if s == [] then 0
    else (if holds(s[0]) then 1 else 0) + Count(s[1..], holds)
  }

  /** Counting is filtering and measuring. */
  lemma {:induction false} CountIsFilterLength<T>(s: seq<T>, holds: T -> bool)
    ensures Count(s, holds) == |Filter(s, holds)|
  {
    if s != [] {
      CountIsFilterLength(s[1..], holds);
    }
  }

  /** Two conditions that never hold together count no more than the whole. */
  lemma {:induction false} DisjointCounts<T>(s: seq<T>, a: T -> bool, b: T -> bool)
    requires forall i :: 0 <= i < |s| ==> !(a(s[i]) && b(s[i]))
    ensures Count(s, a) + Count(s, b) <= |s|
  {
    if s != [] {
      DisjointCounts(s[1..], a, b);
    }
  }

  function Sum<T>(s: seq<T>, f: T -> int): int
  {
    if s == [] then 0 else f(s[0]) + Sum(s[1..], f)
  }

  lemma {:induction false} SumAppend<T>(a: seq<T>, b: seq<T>, f: T -> int)
    ensures Sum(a + b, f) == Sum(a, f) + Sum(b, f)
  {
    if a != [] {
      assert (a + b)[0] == a[0] && (a + b)[1..] == a[1..] + b;
      SumAppend(a[1..], b, f);
    } else {
      assert a + b == b;
    }
  }

  /** `key` never increases along `s`. */
  predicate SortedDesc<T>(s: seq<T>, key: T -> int)
  {
    forall i, j :: 0 <= i < j < |s| ==> key(s[i]) >= key(s[j])
  }

  /** Puts `x` before the first element whose key is not larger. */
  function Insert<T>(x: T, s: seq<T>, key: T -> int): (r: seq<T>)
    requires SortedDesc(s, key)
    ensures SortedDesc(r, key)
    ensures multiset(r) == multiset{x} + multiset(s)
    ensures |r| == |s| + 1
  {
    if s == [] || key(x) >= key(s[0]) then [x] + s
    else
      var rest := Insert(x, s[1..], key);
      assert multiset(s) == multiset{s[0]} + multiset(s[1..]) by {
        assert s == [s[0]] + s[1..];
      }
      HeadBoundsInsert(x, s, key, rest);
      [s[0]] + rest
  }

  /**
   * When `x` goes after the head, the head's key bounds every key of the
   * rest with `x` inserted, so the head can stay in front.
   */
  lemma HeadBoundsInsert<T>(x: T, s: seq<T>, key: T -> int, rest: seq<T>)
    requires s != [] && SortedDesc(s, key) && key(x) < key(s[0])
    requires SortedDesc(rest, key) && multiset(rest) == multiset{x} + multiset(s[1..])
    ensures SortedDesc([s[0]] + rest, key)
  {
    forall k | 0 <= k < |rest| ensures key(rest[k]) <= key(s[0]) {
      assert rest[k] in multiset(rest);
      if rest[k] != x {
        assert rest[k] in multiset(s[1..]);
        var m := IndexOf(rest[k], s[1..]);
        assert s[1..][m] == s[m + 1];
      }
    }
    var r := [s[0]] + rest;
    forall i, j | 0 <= i < j < |r| ensures key(r[i]) >= key(r[j]) {
      assert r[j] == rest[j - 1];
      if i > 0 {
        assert r[i] == rest[i - 1];
      }
    }
  }

  /** A property of every element survives appending one more that has it. */
  lemma AppendAll<T>(s: seq<T>, x: T, holds: T -> bool)
    requires forall i :: 0 <= i < |s| ==> holds(s[i])
    requires holds(x)
    ensures forall i :: 0 <= i < |s + [x]| ==> holds((s + [x])[i])
  {
    forall i | 0 <= i < |s + [x]| ensures holds((s + [x])[i]) {
      if i < |s| {
        assert (s + [x])[i] == s[i];
      }
    }
  }

  /** Sorted by `key`, largest first, ties in their original order. */
  function SortDesc<T>(s: seq<T>, key: T -> int): (r: seq<T>)
    ensures SortedDesc(r, key)
    ensures multiset(r) == multiset(s)
    ensures |r| == |s|
  {
    if s == [] then []
    else
      assert s == [s[0]] + s[1..];
      Insert(s[0], SortDesc(s[1..], key), key)
  }

  lemma {:induction false} SumInsert<T>(x: T, s: seq<T>, key: T -> int, f: T -> int)
    requires SortedDesc(s, key)
    ensures Sum(Insert(x, s, key), f) == f(x) + Sum(s, f)
  {
    if s != [] && key(x) < key(s[0]) {
      SumInsert(x, s[1..], key, f);
    }
  }

  /** Sorting does not change a sum over the elements. */
  lemma {:induction false} SumSortDesc<T>(s: seq<T>, key: T -> int, f: T -> int)
    ensures Sum(SortDesc(s, key), f) == Sum(s, f)
  {
    if s != [] {
      SumSortDesc(s[1..], key, f);
      SumInsert(s[0], SortDesc(s[1..], key), key, f);
    }
  }

  /** The first `n` elements, or all of them when there are fewer (`limit(n)`). */
  function Take<T>(s: seq<T>, n: nat): (r: seq<T>)
    ensures |r| == if |s| <= n then |s| else n
    ensures r == s[..|r|]
  {
    if |s| <= n then s else s[..n]
  }

  /** All but the first `n` elements (`skip(n)`). */
  function Drop<T>(s: seq<T>, n: nat): (r: seq<T>)
    ensures |r| == if |s| <= n then 0 else |s| - n
    ensures forall i :: 0 <= i < |r| ==> r[i] == s[n + i]
  {
    if |s| <= n then [] else s[n..]
  }

  /**
   * The first `n` of `s` sorted by `key`: still sorted, drawn from `s`, and
   * nothing left out has a larger key than one kept.
   */
  lemma TakeOfSortDesc<T>(s: seq<T>, key: T -> int, n: nat)
    ensures var sorted := SortDesc(s, key);
            var top := Take(sorted, n);
            && SortedDesc(top, key)
            && (forall i :: 0 <= i < |top| ==> top[i] in s)
            && (forall i, j :: 0 <= i < |top| <= j < |sorted| ==> key(top[i]) >= key(sorted[j]))
  {
    var sorted := SortDesc(s, key);
    var top := Take(sorted, n);
    forall i | 0 <= i < |top| ensures top[i] in s {
      assert top[i] == sorted[i] && sorted[i] in multiset(sorted);
    }
    forall i, j | 0 <= i < j < |top| ensures key(top[i]) >= key(top[j]) {
      assert top[i] == sorted[i] && top[j] == sorted[j];
    }
    forall i, j | 0 <= i < |top| <= j < |sorted| ensures key(top[i]) >= key(sorted[j]) {
      assert top[i] == sorted[i];
    }
  }

  /** No two elements of `s` share a `name`. */
  predicate DistinctBy<T, K(==)>(s: seq<T>, name: T -> K)
  {
    forall i, j :: 0 <= i < j < |s| ==> name(s[i]) != name(s[j])
  }

  /** An element of a sequence sits at some index of it. */
  lemma IndexOf<T>(x: T, s: seq<T>) returns (k: nat)
    requires x in multiset(s)
    ensures k < |s| && s[k] == x
  {
    assert x in s;
    k :| 0 <= k < |s| && s[k] == x;
  }

  /** Inserting an element with a fresh name keeps the names distinct. */
  lemma {:induction false} InsertDistinctBy<T, K>(x: T, s: seq<T>, key: T -> int, name: T -> K)
    requires SortedDesc(s, key) && DistinctBy(s, name)
    requires forall i :: 0 <= i < |s| ==> name(s[i]) != name(x)
    ensures DistinctBy(Insert(x, s, key), name)
  {
    var r := Insert(x, s, key);
    if s == [] || key(x) >= key(s[0]) {
      forall i, j | 0 <= i < j < |r| ensures name(r[i]) != name(r[j]) {
        assert r[j] == s[j - 1];
        if i > 0 {
          assert r[i] == s[i - 1];
        }
      }
    } else {
      var rest := Insert(x, s[1..], key);
      InsertDistinctBy(x, s[1..], key, name);
      assert r == [s[0]] + rest;
      forall i, j | 0 <= i < j < |r| ensures name(r[i]) != name(r[j]) {
        if i == 0 {
          var y := rest[j - 1];
          assert y in multiset(rest);
          if y != x {
            var k := IndexOf(y, s[1..]);
            assert s[k + 1] == y;
          }
        } else {
          assert r[i] == rest[i - 1] && r[j] == rest[j - 1];
        }
      }
    }
  }

  /** Sorting keeps distinct names distinct. */
  lemma {:induction false} SortDescDistinctBy<T, K>(s: seq<T>, key: T -> int, name: T -> K)
    requires DistinctBy(s, name)
    ensures DistinctBy(SortDesc(s, key), name)
  {
    if s != [] {
      var tail := SortDesc(s[1..], key);
      SortDescDistinctBy(s[1..], key, name);
      forall i | 0 <= i < |tail| ensures name(tail[i]) != name(s[0]) {
        var k := IndexOf(tail[i], s[1..]);
        assert s[k + 1] == tail[i];
      }
      InsertDistinctBy(s[0], tail, key, name);
    }
  }
}
