/** Facts about sequences that several components share. */
module Sequences {

  function Concat<T>(parts: seq<seq<T>>): seq<T> {
    if parts == [] then [] else parts[0] + Concat(parts[1..])
  }

  /** Fields of equal widths are recovered from their concatenation. */
  lemma {:induction false} ConcatInjective<T>(p: seq<seq<T>>, q: seq<seq<T>>)
    requires |p| == |q|
    requires forall i :: 0 <= i < |p| ==> |p[i]| == |q[i]|
    requires Concat(p) == Concat(q)
    ensures p == q
  {
    if p == [] {
    } else {
      assert Concat(p)[..|p[0]|] == p[0];
      assert Concat(q)[..|q[0]|] == q[0];
      assert Concat(p)[|p[0]|..] == Concat(p[1..]);
      assert Concat(q)[|q[0]|..] == Concat(q[1..]);
      ConcatInjective(p[1..], q[1..]);
      assert p == [p[0]] + p[1..];
      assert q == [q[0]] + q[1..];
    }
  }

  lemma ConcatAssociative<T>(a: seq<T>, b: seq<T>, c: seq<T>)
    ensures (a + b) + c == a + (b + c)
  {
  }

  function SumBy<T>(size: T -> nat, s: seq<T>): nat {
    if s == [] then 0 else size(s[0]) + SumBy(size, s[1..])
  }

  lemma {:induction false} SumByAppend<T>(size: T -> nat, s: seq<T>, t: seq<T>)
    ensures SumBy(size, s + t) == SumBy(size, s) + SumBy(size, t)
  {
    if s == [] {
      assert s + t == t;
    } else {
      SumByAppend(size, s[1..], t);
      assert (s + t)[1..] == s[1..] + t;
    }
  }

  lemma BagRemove<T>(s: seq<T>, i: nat)
    requires i < |s|
    ensures multiset(s[..i] + s[i + 1..]) == multiset(s) - multiset{s[i]}
  {
    assert s == s[..i] + [s[i]] + s[i + 1..];
  }

  lemma PrefixMore<T>(s: seq<T>, i: nat)
    requires i < |s|
    ensures s[..i + 1] == s[..i] + [s[i]]
  {
  }

  lemma SplitAround<T>(s: seq<T>, i: nat)
    requires i < |s|
    ensures s == s[..i] + ([s[i]] + s[i + 1..])
  {
  }

  /** The list without its element `i`. */
  function Without<T>(s: seq<T>, i: nat): (r: seq<T>)
    requires i < |s|
    ensures r == s[..i] + s[i + 1..] && |r| < |s|
    ensures forall t :: t in s ==> t == s[i] || t in r
    ensures forall t :: t in r ==> t in s
  {
    SplitAround(s, i);
    s[..i] + s[i + 1..]
  }

  lemma SumByCons<T>(size: T -> nat, x: T, t: seq<T>)
    ensures SumBy(size, [x] + t) == size(x) + SumBy(size, t)
  {
    assert ([x] + t)[1..] == t;
  }

  lemma SumByRemove<T>(size: T -> nat, s: seq<T>, i: nat)
    requires i < |s|
    ensures SumBy(size, s) == size(s[i]) + SumBy(size, s[..i] + s[i + 1..])
  {
    SplitAround(s, i);
    SumByAppend(size, s[..i], [s[i]] + s[i + 1..]);
    SumByCons(size, s[i], s[i + 1..]);
    SumByAppend(size, s[..i], s[i + 1..]);
  }

  /** A sum over part of a collection is at most the whole sum, in whatever order both are listed. */
  lemma {:induction false} SumByPart<T>(size: T -> nat, s: seq<T>, t: seq<T>)
    requires multiset(s) <= multiset(t)
    ensures SumBy(size, s) <= SumBy(size, t)
    ensures multiset(s) == multiset(t) ==> SumBy(size, s) == SumBy(size, t)
    decreases |s|
  {
    if s == [] {
      assert multiset(s) == multiset(t) ==> |multiset(t)| == 0;
    } else {
      RemoveFirst(s);
      assert s[0] in t;
      var i :| 0 <= i < |t| && t[i] == s[0];
      SumByRemove(size, t, i);
      BagRemove(t, i);
      SumByPart(size, s[1..], t[..i] + t[i + 1..]);
    }
  }

  /** A sum does not depend on the order of its terms. */
  lemma SumByPermutation<T>(size: T -> nat, s: seq<T>, t: seq<T>)
    requires multiset(s) == multiset(t)
    ensures SumBy(size, s) == SumBy(size, t)
  {
    SumByPart(size, s, t);
  }

  lemma SumByPrefix<T>(size: T -> nat, s: seq<T>, i: nat)
    requires i < |s|
    ensures SumBy(size, s[..i + 1]) == SumBy(size, s[..i]) + size(s[i])
    ensures SumBy(size, s[..i + 1]) <= SumBy(size, s)
  {
    assert s[..i + 1] == s[..i] + [s[i]];
    SumByAppend(size, s[..i], [s[i]]);
    assert s == s[..i + 1] + s[i + 1..];
    SumByAppend(size, s[..i + 1], s[i + 1..]);
  }

  // ---------- Stable sorting by a key, as slice::sort_by_key does ----------

  ghost predicate InOrder<T(!new)>(key: T -> int, s: seq<T>, i: nat, j: nat)
    requires i < |s| && j < |s|
  {
    key(s[i]) <= key(s[j])
  }

  ghost predicate Sorted<T(!new)>(key: T -> int, s: seq<T>) {
    forall i, j :: 0 <= i < j < |s| ==> InOrder(key, s, i, j)
  }

  /** Puts `x` in front of the first element whose key is not smaller. */
  function InsertByKey<T>(key: T -> int, x: T, s: seq<T>): seq<T> {
    if s == [] then [x]
    else if key(x) <= key(s[0]) then [x] + s
    else [s[0]] + InsertByKey(key, x, s[1..])
  }

  function SortByKey<T>(key: T -> int, s: seq<T>): seq<T> {
    if s == [] then [] else InsertByKey(key, s[0], SortByKey(key, s[1..]))
  }

  lemma {:induction false} InsertByKeyElements<T>(key: T -> int, x: T, s: seq<T>)
    ensures multiset(InsertByKey(key, x, s)) == multiset(s) + multiset{x}
  {
    if s == [] || key(x) <= key(s[0]) {
    } else {
      InsertByKeyElements(key, x, s[1..]);
      assert s == [s[0]] + s[1..];
    }
  }

  lemma SortedTail<T(!new)>(key: T -> int, s: seq<T>)
    requires s != [] && Sorted(key, s)
    ensures Sorted(key, s[1..]) && forall x :: x in s ==> key(s[0]) <= key(x)
  {
    forall i, j | 0 <= i < j < |s| - 1 ensures InOrder(key, s[1..], i, j) {
      assert InOrder(key, s, i + 1, j + 1);
    }
    forall i | 0 < i < |s| ensures key(s[0]) <= key(s[i]) {
      assert InOrder(key, s, 0, i);
    }
  }

  lemma SortedCons<T(!new)>(key: T -> int, x: T, s: seq<T>)
    requires Sorted(key, s) && forall y :: y in s ==> key(x) <= key(y)
    ensures Sorted(key, [x] + s)
  {
    forall i, j | 0 <= i < j < |s| + 1 ensures InOrder(key, [x] + s, i, j) {
      if i > 0 { assert InOrder(key, s, i - 1, j - 1); } else { assert s[j - 1] in s; }
    }
  }

  lemma {:induction false} InsertByKeySorted<T(!new)>(key: T -> int, x: T, s: seq<T>)
    requires Sorted(key, s)
    ensures Sorted(key, InsertByKey(key, x, s))
  {
    if s != [] {
      SortedTail(key, s);
      if key(x) <= key(s[0]) {
        SortedCons(key, x, s);
      } else {
        var r := InsertByKey(key, x, s[1..]);
        InsertByKeySorted(key, x, s[1..]);
        InsertByKeyElements(key, x, s[1..]);
        forall y | y in r ensures key(s[0]) <= key(y) {
          assert y in multiset(r);
          assert y == x || y in s[1..];
        }
        SortedCons(key, s[0], r);
      }
    }
  }

  /** Sorting keeps every element and orders them by key. */
  lemma {:induction false} SortByKeySorted<T(!new)>(key: T -> int, s: seq<T>)
    ensures Sorted(key, SortByKey(key, s))
    ensures multiset(SortByKey(key, s)) == multiset(s)
  {
    if s == [] {
    } else {
      SortByKeySorted(key, s[1..]);
      InsertByKeySorted(key, s[0], SortByKey(key, s[1..]));
      InsertByKeyElements(key, s[0], SortByKey(key, s[1..]));
      assert s == [s[0]] + s[1..];
    }
  }

  /** Stability: a list already in order, ties included, is left alone. */
  lemma {:induction false} SortByKeyIdentity<T(!new)>(key: T -> int, s: seq<T>)
    requires Sorted(key, s)
    ensures SortByKey(key, s) == s
  {
    if s == [] {
    } else {
      SortedTail(key, s);
      SortByKeyIdentity(key, s[1..]);
      if |s| > 1 { assert s[1] in s; }
    }
  }

  lemma RemoveFirst<T>(s: seq<T>)
    requires s != []
    ensures s[0] in multiset(s) && multiset(s[1..]) == multiset(s) - multiset{s[0]}
    ensures forall x :: x in s[1..] ==> x in s
  {
    assert s == [s[0]] + s[1..];
  }

  lemma SortedHeads<T(!new)>(key: T -> int, s: seq<T>, t: seq<T>)
    requires s != [] && t != [] && Sorted(key, t)
    requires s[0] in t
    ensures key(t[0]) <= key(s[0])
  {
    SortedTail(key, t);
  }

  /** With distinct keys a sorted list is determined by its elements. */
  lemma {:induction false} SortedUnique<T(!new)>(key: T -> int, s: seq<T>, t: seq<T>)
    requires Sorted(key, s) && Sorted(key, t)
    requires multiset(s) == multiset(t)
    requires forall x, y :: x in s && y in s && key(x) == key(y) ==> x == y
    ensures s == t
    decreases |s|
  {
    assert |s| == |multiset(s)| == |multiset(t)| == |t|;
    if s != [] {
      RemoveFirst(s);
      RemoveFirst(t);
      assert s[0] in multiset(t) && t[0] in multiset(s);
      SortedHeads(key, s, t);
      SortedHeads(key, t, s);
      SortedTail(key, s);
      SortedTail(key, t);
      SortedUnique(key, s[1..], t[1..]);
    }
  }
}
