/** `Array.prototype.sort` with a comparator, as the components use it on
    copies of their arrays. The engine's sort is stable: elements the
    comparator does not separate keep their relative order. `SortBy` is a
    reference definition of that behaviour (a stable insertion sort); for a
    comparator that is a total preorder on the elements, every stable sort
    gives this same result. */
module Sorting {

  /** `x` placed after the leading elements that do not compare greater than it. */
  function Insert<T>(x: T, s: seq<T>, cmp: (T, T) -> int): (r: seq<T>)
    ensures multiset(r) == multiset(s) + multiset{x}
    ensures |r| == |s| + 1
  {
    if s == [] then [x]
    else if cmp(s[0], x) <= 0 then
      assert s == [s[0]] + s[1..];
      [s[0]] + Insert(x, s[1..], cmp)
    else [x] + s
  }

  /** `s.sort(cmp)` on a copy of `s`: a permutation of `s`. */
  function SortBy<T>(s: seq<T>, cmp: (T, T) -> int): (r: seq<T>)
    ensures multiset(r) == multiset(s)
    ensures |r| == |s|
  {
    if s == [] then []
    else
      assert s == s[..|s| - 1] + [s[|s| - 1]];
      Insert(s[|s| - 1], SortBy(s[..|s| - 1], cmp), cmp)
  }

  /** The comparator orders the elements of `s` consistently: any two are
      comparable one way or the other, and "not after" is transitive. */
  ghost predicate TotalPreorderOn<T>(s: seq<T>, cmp: (T, T) -> int) {
    && (forall a, b :: a in s && b in s ==> cmp(a, b) <= 0 || cmp(b, a) <= 0)
    && (forall a, b, c :: a in s && b in s && c in s && cmp(a, b) <= 0 && cmp(b, c) <= 0 ==> cmp(a, c) <= 0)
  }

  /** No element comes after one that should follow it. */
  ghost predicate SortedBy<T>(s: seq<T>, cmp: (T, T) -> int) {
    forall i, j :: 0 <= i < j < |s| ==> cmp(s[i], s[j]) <= 0
  }

  /** Dropping the head keeps a sequence sorted. */
  lemma SortedTail<T>(s: seq<T>, cmp: (T, T) -> int)
    requires s != [] && SortedBy(s, cmp)
    ensures SortedBy(s[1..], cmp)
  {
    forall i, j | 0 <= i < j < |s[1..]|
      ensures cmp(s[1..][i], s[1..][j]) <= 0
    {
      assert s[1..][i] == s[i + 1] && s[1..][j] == s[j + 1];
    }
  }

  /** An element that comes no later than every element of a sorted
      sequence can go in front of it. */
  lemma SortedCons<T>(a: T, t: seq<T>, cmp: (T, T) -> int)
    requires SortedBy(t, cmp)
    requires forall j :: 0 <= j < |t| ==> cmp(a, t[j]) <= 0
    ensures SortedBy([a] + t, cmp)
  {
    var r := [a] + t;
    forall i, j | 0 <= i < j < |r|
      ensures cmp(r[i], r[j]) <= 0
    {
      assert r[j] == t[j - 1];
      if i > 0 {
        assert r[i] == t[i - 1];
      }
    }
  }

  /** The head of a sorted sequence comes no later than anything in the
      insertion of a later element into its tail. */
  lemma HeadPrecedesInsert<T>(x: T, s: seq<T>, cmp: (T, T) -> int)
    requires s != [] && SortedBy(s, cmp) && cmp(s[0], x) <= 0
    ensures forall j :: 0 <= j < |Insert(x, s[1..], cmp)| ==> cmp(s[0], Insert(x, s[1..], cmp)[j]) <= 0
  {
    var tail := s[1..];
    var rest := Insert(x, tail, cmp);
    forall j | 0 <= j < |rest|
      ensures cmp(s[0], rest[j]) <= 0
    {
      assert rest[j] in multiset(rest);
      if rest[j] != x {
        assert rest[j] in multiset(tail);
        var k :| 0 <= k < |tail| && tail[k] == rest[j];
        assert s[k + 1] == rest[j];
      }
    }
  }

  /** An element that comes before the head of a sorted sequence comes
      before all of it. */
  lemma FrontPrecedesAll<T>(x: T, s: seq<T>, cmp: (T, T) -> int)
    requires s != [] && SortedBy(s, cmp) && TotalPreorderOn(s + [x], cmp)
    requires cmp(s[0], x) > 0
    ensures forall j :: 0 <= j < |s| ==> cmp(x, s[j]) <= 0
  {
    var all := s + [x];
    assert x in all && s[0] in all;
    forall j | 0 <= j < |s|
      ensures cmp(x, s[j]) <= 0
    {
      assert s[j] in all;
      assert cmp(s[0], s[j]) <= 0;
    }
  }

  lemma {:induction false} InsertSorted<T>(x: T, s: seq<T>, cmp: (T, T) -> int)
    requires SortedBy(s, cmp)
    requires TotalPreorderOn(s + [x], cmp)
    ensures SortedBy(Insert(x, s, cmp), cmp)
  {
    if s != [] {
      if cmp(s[0], x) <= 0 {
        var tail := s[1..];
        assert TotalPreorderOn(tail + [x], cmp) by {
          assert forall e :: e in tail + [x] ==> e in s + [x];
        }
        SortedTail(s, cmp);
        InsertSorted(x, tail, cmp);
        assert Insert(x, s, cmp) == [s[0]] + Insert(x, tail, cmp);
        HeadPrecedesInsert(x, s, cmp);
        SortedCons(s[0], Insert(x, tail, cmp), cmp);
      } else {
        assert Insert(x, s, cmp) == [x] + s;
        FrontPrecedesAll(x, s, cmp);
        SortedCons(x, s, cmp);
      }
    }
  }

  /** Under a total preorder the result is sorted. */
  lemma {:induction false} SortBySorted<T>(s: seq<T>, cmp: (T, T) -> int)
    requires TotalPreorderOn(s, cmp)
    ensures SortedBy(SortBy(s, cmp), cmp)
  {
    if s != [] {
      var init := s[..|s| - 1];
      assert s == init + [s[|s| - 1]];
      assert forall e :: e in init ==> e in s;
      SortBySorted(init, cmp);
      var sorted := SortBy(init, cmp);
      forall e | e in sorted + [s[|s| - 1]]
        ensures e in s
      {
        if e in sorted {
          assert e in multiset(sorted);
          assert e in multiset(init);
        }
      }
      InsertSorted(s[|s| - 1], sorted, cmp);
    }
  }

  /** A property every element has survives the sort. */
  lemma SortByKeepsAll<T>(s: seq<T>, cmp: (T, T) -> int, p: T -> bool)
    requires forall i :: 0 <= i < |s| ==> p(s[i])
    ensures forall i :: 0 <= i < |SortBy(s, cmp)| ==> p(SortBy(s, cmp)[i])
  {
    var r := SortBy(s, cmp);
    forall i | 0 <= i < |r|
      ensures p(r[i])
    {
      assert r[i] in multiset(s);
    }
  }

  // ---------------------------------------------------------------------
  // Sorting by a numeric key, largest first

  /** `(a, b) => key(b) - key(a)`: larger keys first. */
  function ByKeyDesc<T>(key: T -> int): (T, T) -> int {
    (a: T, b: T) => key(b) - key(a)
  }

  lemma KeyDescIsTotalPreorder<T>(s: seq<T>, key: T -> int)
    ensures TotalPreorderOn(s, ByKeyDesc(key))
  {
  }

  /** The elements whose key is `k`, in order. */
  function WithKey<T>(s: seq<T>, key: T -> int, k: int): (r: seq<T>)
    ensures |r| <= |s|
  {
    if s == [] then []
    else (if key(s[0]) == k then [s[0]] else []) + WithKey(s[1..], key, k)
  }

  lemma {:induction false} WithKeyAppend<T>(a: seq<T>, b: seq<T>, key: T -> int, k: int)
    ensures WithKey(a + b, key, k) == WithKey(a, key, k) + WithKey(b, key, k)
  {
    if a == [] {
      assert a + b == b;
    } else {
      var ab := a + b;
      assert ab[0] == a[0];
      assert ab[1..] == a[1..] + b;
      WithKeyAppend(a[1..], b, key, k);
      assert WithKey(ab, key, k) == (if key(a[0]) == k then [a[0]] else []) + WithKey(a[1..] + b, key, k);
    }
  }

  /** Keys in non-increasing order. */
  ghost predicate KeysDescending<T>(s: seq<T>, key: T -> int) {
    forall i, j :: 0 <= i < j < |s| ==> key(s[i]) >= key(s[j])
  }

  lemma KeysDescendingTail<T>(s: seq<T>, key: T -> int)
    requires s != [] && KeysDescending(s, key)
    ensures KeysDescending(s[1..], key)
  {
    forall i, j | 0 <= i < j < |s[1..]|
      ensures key(s[1..][i]) >= key(s[1..][j])
    {
      assert s[1..][i] == s[i + 1] && s[1..][j] == s[j + 1];
    }
  }

  /** In a sequence with keys in non-increasing order whose head's key is
      below `k`, no element has key `k`. */
  lemma {:induction false} WithKeyBelow<T>(s: seq<T>, key: T -> int, k: int)
    requires KeysDescending(s, key)
    requires s != [] ==> key(s[0]) < k
    ensures WithKey(s, key, k) == []
  {
    if s != [] {
      KeysDescendingTail(s, key);
      if |s| > 1 {
        assert key(s[0]) >= key(s[1]);
      }
      WithKeyBelow(s[1..], key, k);
    }
  }

  lemma WithKeySingle<T>(x: T, key: T -> int, k: int)
    ensures WithKey([x], key, k) == if key(x) == k then [x] else []
  {
    assert [x][1..] == [];
  }

  /** Inserting `x` in front of elements of smaller keys. */
  lemma InsertStableFront<T>(x: T, s: seq<T>, key: T -> int, k: int)
    requires KeysDescending(s, key)
    requires s != [] && key(s[0]) < key(x)
    ensures WithKey([x] + s, key, k) == WithKey(s, key, k) + WithKey([x], key, k)
  {
    WithKeySingle(x, key, k);
    WithKeyAppend([x], s, key, k);
    if key(x) == k {
      WithKeyBelow(s, key, k);
    }
  }

  /** Inserting `x` after the head. */
  lemma InsertStableAfter<T>(x: T, s: seq<T>, rest: seq<T>, key: T -> int, k: int)
    requires s != []
    requires WithKey(rest, key, k) == WithKey(s[1..], key, k) + WithKey([x], key, k)
    ensures WithKey([s[0]] + rest, key, k) == WithKey(s, key, k) + WithKey([x], key, k)
  {
    var head := WithKey([s[0]], key, k);
    WithKeyAppend([s[0]], rest, key, k);
    WithKeyAppend([s[0]], s[1..], key, k);
    assert [s[0]] + s[1..] == s;
    calc {
      WithKey([s[0]] + rest, key, k);
      head + WithKey(rest, key, k);
      head + (WithKey(s[1..], key, k) + WithKey([x], key, k));
      (head + WithKey(s[1..], key, k)) + WithKey([x], key, k);
    }
  }

  lemma {:induction false} InsertStable<T>(x: T, s: seq<T>, key: T -> int, k: int)
    requires KeysDescending(s, key)
    ensures WithKey(Insert(x, s, ByKeyDesc(key)), key, k) == WithKey(s, key, k) + WithKey([x], key, k)
  {
    var cmp := ByKeyDesc(key);
    if s == [] {
      assert Insert(x, s, cmp) == [x];
      assert s + [x] == [x];
    } else if key(x) <= key(s[0]) {
      var rest := Insert(x, s[1..], cmp);
      assert Insert(x, s, cmp) == [s[0]] + rest;
      KeysDescendingTail(s, key);
      InsertStable(x, s[1..], key, k);
      InsertStableAfter(x, s, rest, key, k);
    } else {
      assert Insert(x, s, cmp) == [x] + s;
      InsertStableFront(x, s, key, k);
    }
  }

  /** Sorting by key keeps the elements of each key in their original order:
      the sort is stable. */
  lemma {:induction false} SortByKeyDescStable<T>(s: seq<T>, key: T -> int, k: int)
    ensures WithKey(SortBy(s, ByKeyDesc(key)), key, k) == WithKey(s, key, k)
  {
    if s != [] {
      var init := s[..|s| - 1];
      var last := s[|s| - 1];
      assert s == init + [last];
      SortByKeyDescStable(init, key, k);
      SortByKeyDescSorted(init, key);
      InsertStable(last, SortBy(init, ByKeyDesc(key)), key, k);
      WithKeyAppend(init, [last], key, k);
    }
  }

  /** Sorting by key yields keys in non-increasing order. */
  lemma SortByKeyDescSorted<T>(s: seq<T>, key: T -> int)
    ensures KeysDescending(SortBy(s, ByKeyDesc(key)), key)
  {
    KeyDescIsTotalPreorder(s, key);
    SortBySorted(s, ByKeyDesc(key));
    var r := SortBy(s, ByKeyDesc(key));
    forall i, j | 0 <= i < j < |r|
      ensures key(r[i]) >= key(r[j])
    {
      assert ByKeyDesc(key)(r[i], r[j]) <= 0;
    }
  }
}
