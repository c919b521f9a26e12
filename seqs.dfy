/** Sequence helpers shared by both repositories and both services:
    order-preserving filtering (PHP's array_filter / array_intersect and a
    SQL WHERE), projection (array_column / pluck), and a stable sort by a
    date key in descending order (SQL ORDER BY ... DESC). */
module Seqs {

  /** Keeps the elements for which `keep` holds, in their original order. */
  function Filter<T>(s: seq<T>, keep: T -> bool): (r: seq<T>)
    ensures |r| <= |s|
  {
    if s == [] then []
    else (if keep(s[0]) then [s[0]] else []) + Filter(s[1..], keep)
  }

  /** An element is selected iff it occurs in the input and passes `keep`. */
  lemma {:induction false} FilterMembership<T>(s: seq<T>, keep: T -> bool, x: T)
    ensures x in Filter(s, keep) <==> x in s && keep(x)
  {
    if s != [] {
      assert s == [s[0]] + s[1..];
      FilterMembership(s[1..], keep, x);
    }
  }

  lemma FilterMembershipAll<T(!new)>(s: seq<T>, keep: T -> bool)
    ensures forall x :: x in Filter(s, keep) <==> x in s && keep(x)
  {
    forall x {
      FilterMembership(s, keep, x);
    }
  }

  lemma {:induction false} FilterAppend<T(!new)>(a: seq<T>, b: seq<T>, keep: T -> bool)
    ensures Filter(a + b, keep) == Filter(a, keep) + Filter(b, keep)
  {
    if a == [] {
      assert a + b == b;
    } else {
      var ab := a + b;
      assert ab[0] == a[0] && ab[1..] == a[1..] + b;
      FilterAppend(a[1..], b, keep);
      assert Filter(ab, keep) == (if keep(a[0]) then [a[0]] else []) + Filter(a[1..] + b, keep);
    }
  }

  lemma FilterCons<T>(y: T, s: seq<T>, keep: T -> bool)
    ensures Filter([y] + s, keep) == (if keep(y) then [y] else []) + Filter(s, keep)
  {
    assert ([y] + s)[0] == y && ([y] + s)[1..] == s;
  }

  /** A filter that drops nothing is the identity. */
  lemma {:induction false} FilterKeepsLength<T(!new)>(s: seq<T>, keep: T -> bool)
    requires |Filter(s, keep)| == |s|
    ensures Filter(s, keep) == s
  {
    if s != [] {
      FilterKeepsLength(s[1..], keep);
    }
  }

  /** Filtering by `q` after `p` is filtering by `q` alone when `q` implies `p`. */
  lemma {:induction false} FilterSubsumed<T>(s: seq<T>, p: T -> bool, q: T -> bool)
    requires forall x :: q(x) ==> p(x)
    ensures Filter(Filter(s, p), q) == Filter(s, q)
  {
    if s != [] {
      FilterSubsumed(s[1..], p, q);
      FilterCons(s[0], s[1..], p);
      assert s == [s[0]] + s[1..];
      FilterCons(s[0], s[1..], q);
      if p(s[0]) {
        FilterCons(s[0], Filter(s[1..], p), q);
      } else {
        assert !q(s[0]);
        assert Filter(s, p) == Filter(s[1..], p);
      }
    }
  }

  lemma {:induction false} FilterAllKept<T>(s: seq<T>, keep: T -> bool)
    requires forall x :: x in s ==> keep(x)
    ensures Filter(s, keep) == s
  {
    if s != [] {
      assert s[0] in s;
      assert forall x :: x in s[1..] ==> x in s;
      FilterAllKept(s[1..], keep);
      assert s == [s[0]] + s[1..];
    }
  }

  lemma {:induction false} FilterNoneKept<T>(s: seq<T>, keep: T -> bool)
    requires forall x :: x in s ==> !keep(x)
    ensures Filter(s, keep) == []
  {
    if s != [] {
      assert s[0] in s;
      assert forall x :: x in s[1..] ==> x in s;
      FilterNoneKept(s[1..], keep);
    }
  }

  /** A predicate and its complement split a sequence's length. */
  lemma {:induction false} FilterComplement<T>(s: seq<T>, p: T -> bool, q: T -> bool)
    requires forall x :: q(x) == !p(x)
    ensures |Filter(s, p)| + |Filter(s, q)| == |s|
  {
    if s != [] {
      FilterComplement(s[1..], p, q);
    }
  }

  /** Applies `f` to every element, keeping the order. */
  function Map<A(!new), B(!new)>(s: seq<A>, f: A -> B): (r: seq<B>)
    ensures |r| == |s|
    ensures forall i :: 0 <= i < |s| ==> r[i] == f(s[i])
  {
    if s == [] then [] else [f(s[0])] + Map(s[1..], f)
  }

  lemma MapAppend<A(!new), B(!new)>(a: seq<A>, b: seq<A>, f: A -> B)
    ensures Map(a + b, f) == Map(a, f) + Map(b, f)
  {
    assert forall i :: 0 <= i < |a + b| ==> Map(a + b, f)[i] == (Map(a, f) + Map(b, f))[i];
  }

  lemma MapCompose<A(!new), B(!new), C(!new)>(s: seq<A>, f: A -> B, g: B -> C, h: A -> C)
    requires forall x :: h(x) == g(f(x))
    ensures Map(s, h) == Map(Map(s, f), g)
  {
  }

  lemma MapMembership<A(!new), B(!new)>(s: seq<A>, f: A -> B, x: A)
    requires x in s
    ensures f(x) in Map(s, f)
  {
    var i :| 0 <= i < |s| && s[i] == x;
    assert Map(s, f)[i] == f(x);
  }

  /** Every key is at least as large as every key after it. */
  ghost predicate SortedDesc<T(!new)>(s: seq<T>, key: T -> int)
  {
    forall i, j :: 0 <= i < j < |s| ==> key(s[i]) >= key(s[j])
  }

  /** Inserts `x` in front of the first element whose key does not exceed
      its own; on a descending sequence the result is descending and `x`
      goes before the elements with an equal key. */
  function InsertDesc<T(!new)>(x: T, s: seq<T>, key: T -> int): (r: seq<T>)
    ensures |r| == |s| + 1
  {
    if s == [] then [x]
    else if key(x) >= key(s[0]) then [x] + s
    else
      assert s == [s[0]] + s[1..];
      [s[0]] + InsertDesc(x, s[1..], key)
  }

  /** Insertion adds `x` and loses nothing. */
  lemma {:induction false} InsertPermutes<T(!new)>(x: T, s: seq<T>, key: T -> int)
    ensures multiset(InsertDesc(x, s, key)) == multiset(s) + multiset{x}
  {
    if s != [] && key(x) < key(s[0]) {
      InsertPermutes(x, s[1..], key);
      assert s == [s[0]] + s[1..];
    }
  }

  lemma {:induction false} InsertSorted<T(!new)>(x: T, s: seq<T>, key: T -> int)
    requires SortedDesc(s, key)
    ensures SortedDesc(InsertDesc(x, s, key), key)
  {
    if s != [] && key(x) < key(s[0]) {
      SortedTail(s, key);
      InsertSorted(x, s[1..], key);
      var t := InsertDesc(x, s[1..], key);
      InsertBelowHead(x, s, key);
      ConsSorted(s[0], t, key);
    }
  }

  /** When `x` goes after the head, everything in the insertion into the tail
      has a key no larger than the head's. */
  lemma InsertBelowHead<T(!new)>(x: T, s: seq<T>, key: T -> int)
    requires s != [] && SortedDesc(s, key) && key(x) < key(s[0])
    ensures forall k :: 0 <= k < |InsertDesc(x, s[1..], key)| ==> key(s[0]) >= key(InsertDesc(x, s[1..], key)[k])
  {
    var t := InsertDesc(x, s[1..], key);
    InsertPermutes(x, s[1..], key);
    forall k | 0 <= k < |t| ensures key(s[0]) >= key(t[k]) {
      assert t[k] in multiset(t);
      if t[k] != x {
        assert t[k] in multiset(s[1..]);
        var m :| 0 <= m < |s[1..]| && s[1..][m] == t[k];
        assert s[m + 1] == t[k];
      }
    }
  }

  /** A head at least as large as every key of a descending tail keeps it
      descending. */
  lemma ConsSorted<T(!new)>(h: T, t: seq<T>, key: T -> int)
    requires SortedDesc(t, key)
    requires forall k :: 0 <= k < |t| ==> key(h) >= key(t[k])
    ensures SortedDesc([h] + t, key)
  {
    var r := [h] + t;
    forall i, j | 0 <= i < j < |r| ensures key(r[i]) >= key(r[j]) {
      assert r[j] == t[j - 1];
      if i > 0 {
        assert r[i] == t[i - 1];
      }
    }
  }

  /** Stable insertion sort by `key`, largest key first: among equal keys the
      earlier element of `s` stays first. */
  function SortDesc<T(!new)>(s: seq<T>, key: T -> int): (r: seq<T>)
    ensures |r| == |s|
  {
    if s == [] then []
    else
      assert s == [s[0]] + s[1..];
      InsertDesc(s[0], SortDesc(s[1..], key), key)
  }

  /** The sort is a permutation. */
  lemma {:induction false} SortPermutes<T(!new)>(s: seq<T>, key: T -> int)
    ensures multiset(SortDesc(s, key)) == multiset(s)
  {
    if s != [] {
      SortPermutes(s[1..], key);
      InsertPermutes(s[0], SortDesc(s[1..], key), key);
      assert s == [s[0]] + s[1..];
    }
  }

  /** The sort orders by descending key. */
  lemma {:induction false} SortIsSorted<T(!new)>(s: seq<T>, key: T -> int)
    ensures SortedDesc(SortDesc(s, key), key)
  {
    if s != [] {
      SortIsSorted(s[1..], key);
      InsertSorted(s[0], SortDesc(s[1..], key), key);
    }
  }

  lemma SortedMembership<T(!new)>(s: seq<T>, key: T -> int, x: T)
    ensures x in SortDesc(s, key) <==> x in s
  {
    SortPermutes(s, key);
    assert x in SortDesc(s, key) <==> x in multiset(SortDesc(s, key));
  }

  /** Sorting is the identity on a sequence that is already in order: the
      sort is stable. */
  lemma {:induction false} SortSorted<T(!new)>(s: seq<T>, key: T -> int)
    requires SortedDesc(s, key)
    ensures SortDesc(s, key) == s
  {
    if s != [] {
      SortedTail(s, key);
      SortSorted(s[1..], key);
      assert SortDesc(s, key) == InsertDesc(s[0], s[1..], key);
      if |s| > 1 {
        assert key(s[0]) >= key(s[1..][0]) by {
          assert key(s[0]) >= key(s[1]);
        }
      }
      assert InsertDesc(s[0], s[1..], key) == [s[0]] + s[1..];
    }
  }

  lemma {:induction false} InsertFilter<T(!new)>(x: T, t: seq<T>, key: T -> int, keep: T -> bool)
    requires SortedDesc(t, key)
    ensures Filter(InsertDesc(x, t, key), keep)
         == if keep(x) then InsertDesc(x, Filter(t, keep), key) else Filter(t, keep)
  {
    if t == [] {
    } else if key(x) >= key(t[0]) {
      InsertFilterFront(x, t, key, keep);
    } else {
      SortedTail(t, key);
      InsertFilter(x, t[1..], key, keep);
      InsertFilterBehind(x, t, key, keep);
    }
  }

  lemma InsertFilterFront<T(!new)>(x: T, t: seq<T>, key: T -> int, keep: T -> bool)
    requires SortedDesc(t, key)
    requires t != [] && key(x) >= key(t[0])
    ensures Filter(InsertDesc(x, t, key), keep)
         == if keep(x) then InsertDesc(x, Filter(t, keep), key) else Filter(t, keep)
  {
    assert InsertDesc(x, t, key) == [x] + t;
    FilterAppend([x], t, keep);
    var ft := Filter(t, keep);
    if keep(x) && ft != [] {
      assert ft[0] in ft;
      FilterMembership(t, keep, ft[0]);
      var m :| 0 <= m < |t| && t[m] == ft[0];
      assert key(t[0]) >= key(t[m]);
      assert InsertDesc(x, ft, key) == [x] + ft;
    }
  }

  lemma InsertFilterBehind<T(!new)>(x: T, t: seq<T>, key: T -> int, keep: T -> bool)
    requires t != [] && key(x) < key(t[0])
    requires Filter(InsertDesc(x, t[1..], key), keep)
          == if keep(x) then InsertDesc(x, Filter(t[1..], keep), key) else Filter(t[1..], keep)
    ensures Filter(InsertDesc(x, t, key), keep)
         == if keep(x) then InsertDesc(x, Filter(t, keep), key) else Filter(t, keep)
  {
    var rest := InsertDesc(x, t[1..], key);
    var f1 := Filter(t[1..], keep);
    var head := if keep(t[0]) then [t[0]] else [];
    assert InsertDesc(x, t, key) == [t[0]] + rest;
    FilterCons(t[0], rest, keep);
    assert t == [t[0]] + t[1..];
    FilterCons(t[0], t[1..], keep);
    assert L: Filter(InsertDesc(x, t, key), keep) == head + Filter(rest, keep);
    assert Filter(t, keep) == head + f1;
    if !keep(x) {
      assert Filter(rest, keep) == f1;
      assert Filter(InsertDesc(x, t, key), keep) == Filter(t, keep);
    } else if keep(t[0]) {
      InsertBehind(x, t[0], f1, key);
      assert Filter(rest, keep) == InsertDesc(x, f1, key);
      assert Filter(InsertDesc(x, t, key), keep) == [t[0]] + InsertDesc(x, f1, key);
      assert Filter(t, keep) == [t[0]] + f1;
      assert Filter(InsertDesc(x, t, key), keep) == InsertDesc(x, Filter(t, keep), key);
    } else {
      assert Filter(t, keep) == f1;
      assert Filter(InsertDesc(x, t, key), keep) == Filter(rest, keep);
      assert Filter(InsertDesc(x, t, key), keep) == InsertDesc(x, Filter(t, keep), key);
    }
  }

  lemma InsertBehind<T(!new)>(x: T, y: T, s: seq<T>, key: T -> int)
    requires key(x) < key(y)
    ensures InsertDesc(x, [y] + s, key) == [y] + InsertDesc(x, s, key)
  {
    assert ([y] + s)[0] == y && ([y] + s)[1..] == s;
  }

  lemma SortedTail<T(!new)>(t: seq<T>, key: T -> int)
    requires t != [] && SortedDesc(t, key)
    ensures SortedDesc(t[1..], key)
  {
    forall i, j | 0 <= i < j < |t[1..]| ensures key(t[1..][i]) >= key(t[1..][j]) {
      assert t[1..][i] == t[i + 1] && t[1..][j] == t[j + 1];
    }
  }

  /** A subsequence of a sorted sequence is sorted. */
  lemma {:induction false} SortedFilter<T(!new)>(t: seq<T>, key: T -> int, keep: T -> bool)
    requires SortedDesc(t, key)
    ensures SortedDesc(Filter(t, keep), key)
  {
    if t != [] {
      SortedTail(t, key);
      SortedFilter(t[1..], key, keep);
      var f1 := Filter(t[1..], keep);
      if keep(t[0]) {
        var f := [t[0]] + f1;
        forall j | 0 < j < |f| ensures key(f[0]) >= key(f[j]) {
          assert f[j] == f1[j - 1];
          assert f1[j - 1] in f1;
          FilterMembership(t[1..], keep, f1[j - 1]);
          var m :| 0 <= m < |t[1..]| && t[1..][m] == f1[j - 1];
          assert t[m + 1] == f[j];
        }
      }
    }
  }

  /** Filtering commutes with the stable sort: the sorted selection is the
      selection of the sorted sequence. */
  lemma {:induction false} SortFilterCommute<T(!new)>(s: seq<T>, key: T -> int, keep: T -> bool)
    ensures SortDesc(Filter(s, keep), key) == Filter(SortDesc(s, key), keep)
  {
    if s != [] {
      SortFilterCommute(s[1..], key, keep);
      assert s == [s[0]] + s[1..];
      FilterAppend([s[0]], s[1..], keep);
      var f1 := Filter(s[1..], keep);
      SortIsSorted(s[1..], key);
      InsertFilter(s[0], SortDesc(s[1..], key), key, keep);
      if keep(s[0]) {
        assert Filter(s, keep) == [s[0]] + f1;
        assert ([s[0]] + f1)[1..] == f1;
      } else {
        assert Filter(s, keep) == f1;
      }
    }
  }

  lemma {:induction false} InsertMap<A(!new), B(!new)>(x: A, t: seq<A>, ka: A -> int, f: A -> B, kb: B -> int)
    requires forall y :: kb(f(y)) == ka(y)
    ensures Map(InsertDesc(x, t, ka), f) == InsertDesc(f(x), Map(t, f), kb)
  {
    if t == [] {
    } else if ka(x) >= ka(t[0]) {
      assert kb(f(x)) >= kb(Map(t, f)[0]);
      MapAppend([x], t, f);
    } else {
      var rest := InsertDesc(x, t[1..], ka);
      InsertMap(x, t[1..], ka, f, kb);
      assert kb(f(x)) < kb(Map(t, f)[0]);
      assert ([t[0]] + rest)[0] == t[0] && ([t[0]] + rest)[1..] == rest;
      assert Map(t, f)[1..] == Map(t[1..], f);
    }
  }

  /** Sorting commutes with a projection that keeps the sort key. */
  lemma {:induction false} SortMapCommute<A(!new), B(!new)>(s: seq<A>, ka: A -> int, f: A -> B, kb: B -> int)
    requires forall y :: kb(f(y)) == ka(y)
    ensures Map(SortDesc(s, ka), f) == SortDesc(Map(s, f), kb)
  {
    if s != [] {
      SortMapCommute(s[1..], ka, f, kb);
      InsertMap(s[0], SortDesc(s[1..], ka), ka, f, kb);
      assert Map(s, f)[1..] == Map(s[1..], f);
    }
  }
}
