/**
 * The table operations pandas provides and the dashboard uses: boolean-mask
 * row selection, column sums, `unique()`, group-by sums, arg-max over groups,
 * and sorting (of distinct keys, and of groups by their sums).
 */
module Seqs {
  import opened Wrappers

  /** A boolean-mask selection `df[mask]`: the rows satisfying `p`, in their original order. */
  function Select<T(!new)>(s: seq<T>, p: T -> bool): (r: seq<T>)
    ensures |r| <= |s|
    ensures forall x :: x in r <==> x in s && p(x)
    decreases |s|
  {
    if s == [] then []
    else (if p(s[0]) then [s[0]] else []) + Select(s[1..], p)
  }

  /** `a` is `b` with some elements left out, the rest kept in order. */
  predicate SubseqOf<T(==)>(a: seq<T>, b: seq<T>)
    decreases |b|
  {
    if a == [] then true
    else if b == [] then false
    else (a[0] == b[0] && SubseqOf(a[1..], b[1..])) || SubseqOf(a, b[1..])
  }

  lemma {:induction false} SelectIsSubseq<T(!new)>(s: seq<T>, p: T -> bool)
    ensures SubseqOf(Select(s, p), s)
    decreases |s|
  {
    if s != [] {
      SelectIsSubseq(s[1..], p);
      var r := Select(s, p);
      if p(s[0]) {
        assert r == [s[0]] + Select(s[1..], p);
        assert r[0] == s[0] && r[1..] == Select(s[1..], p);
      } else {
        assert r == Select(s[1..], p);
      }
    }
  }

  /** Selecting with a predicate every element meets keeps the sequence whole. */
  lemma {:induction false} SelectAll<T(!new)>(s: seq<T>, p: T -> bool)
    requires forall x :: x in s ==> p(x)
    ensures Select(s, p) == s
    decreases |s|
  {
    if s != [] {
      SelectAll(s[1..], p);
      assert s == [s[0]] + s[1..];
    }
  }

  /** Two predicates that agree on the elements select the same rows. */
  lemma {:induction false} SelectExt<T(!new)>(s: seq<T>, p: T -> bool, q: T -> bool)
    requires forall x :: x in s ==> p(x) == q(x)
    ensures Select(s, p) == Select(s, q)
    decreases |s|
  {
    if s != [] {
      SelectExt(s[1..], p, q);
    }
  }

  /** Narrowing twice is narrowing once by the conjunction. */
  lemma {:induction false} SelectSelect<T(!new)>(s: seq<T>, p: T -> bool, q: T -> bool)
    ensures Select(Select(s, p), q) == Select(s, x => p(x) && q(x))
    decreases |s|
  {
    if s != [] {
      SelectSelect(s[1..], p, q);
      var pq := x => p(x) && q(x);
      var rest := Select(s[1..], p);
      assert Select(s, pq) == (if pq(s[0]) then [s[0]] else []) + Select(s[1..], pq);
      if p(s[0]) {
        var t := [s[0]] + rest;
        assert Select(s, p) == t;
        assert t[0] == s[0] && t[1..] == rest;
        assert Select(t, q) == (if q(s[0]) then [s[0]] else []) + Select(rest, q);
      } else {
        assert Select(s, p) == rest;
      }
    }
  }

  /** Narrowing twice is narrowing once by any predicate that is the conjunction of the two. */
  lemma SelectSelectExt<T(!new)>(s: seq<T>, p: T -> bool, q: T -> bool, pq: T -> bool)
    requires forall x :: pq(x) == (p(x) && q(x))
    ensures Select(Select(s, p), q) == Select(s, pq)
  {
    SelectSelect(s, p, q);
    SelectExt(s, x => p(x) && q(x), pq);
  }

  /** Projection of a column: `df[col]` as a sequence. */
  function Map<T, U>(s: seq<T>, f: T -> U): (r: seq<U>)
    ensures |r| == |s| && forall i :: 0 <= i < |s| ==> r[i] == f(s[i])
  {
    seq(|s|, i requires 0 <= i < |s| => f(s[i]))
  }

  /**
   * Projecting a selection keeps one entry per selected element: a value occurs
   * as many times as there are elements that are selected and project to it.
   */
  lemma {:induction false} MapSelectCount<T(!new), U>(s: seq<T>, p: T -> bool, f: T -> U, v: U, q: T -> bool)
    requires forall x :: q(x) == (p(x) && f(x) == v)
    ensures multiset(Map(Select(s, p), f))[v] == |Select(s, q)|
    decreases |s|
  {
    if s != [] {
      MapSelectCount(s[1..], p, f, v, q);
      MapSelectFirst(s, p, f);
      assert |Select(s, q)| == (if q(s[0]) then 1 else 0) + |Select(s[1..], q)|;
    }
  }

  /** The projected selection of a non-empty sequence, split at its first element. */
  lemma MapSelectFirst<T(!new), U>(s: seq<T>, p: T -> bool, f: T -> U)
    requires s != []
    ensures Map(Select(s, p), f) == (if p(s[0]) then [f(s[0])] else []) + Map(Select(s[1..], p), f)
  {
    var head := if p(s[0]) then [s[0]] else [];
    assert Select(s, p) == head + Select(s[1..], p);
    MapConcat(head, Select(s[1..], p), f);
    assert Map(head, f) == if p(s[0]) then [f(s[0])] else [];
  }

  /** Projection distributes over concatenation. */
  lemma MapConcat<T, U>(a: seq<T>, b: seq<T>, f: T -> U)
    ensures Map(a + b, f) == Map(a, f) + Map(b, f)
  {
  }

  /** `df[col].sum()` over the column `f`. */
  function SumBy<T(!new)>(s: seq<T>, f: T -> real): real
    decreases |s|
  {
    if s == [] then 0.0 else f(s[0]) + SumBy(s[1..], f)
  }

  lemma {:induction false} SumByNonneg<T(!new)>(s: seq<T>, f: T -> real)
    requires forall x :: x in s ==> f(x) >= 0.0
    ensures SumBy(s, f) >= 0.0
    decreases |s|
  {
    if s != [] {
      SumByNonneg(s[1..], f);
    }
  }

  /** With a non-negative column, the sum over a selection is at most the sum over all rows. */
  lemma {:induction false} SumBySelectLe<T(!new)>(s: seq<T>, p: T -> bool, f: T -> real)
    requires forall x :: x in s ==> f(x) >= 0.0
    ensures 0.0 <= SumBy(Select(s, p), f) <= SumBy(s, f)
    decreases |s|
  {
    if s != [] {
      SumBySelectLe(s[1..], p, f);
      var t := Select(s, p);
      if p(s[0]) {
        assert t == [s[0]] + Select(s[1..], p);
        assert t[0] == s[0] && t[1..] == Select(s[1..], p);
        assert SumBy(t, f) == f(s[0]) + SumBy(Select(s[1..], p), f);
      } else {
        assert t == Select(s[1..], p);
      }
    }
  }

  /** Sums of the same column over sequences that agree on it are equal. */
  lemma {:induction false} SumByExt<T(!new)>(s: seq<T>, f: T -> real, g: T -> real)
    requires forall x :: x in s ==> f(x) == g(x)
    ensures SumBy(s, f) == SumBy(s, g)
    decreases |s|
  {
    if s != [] {
      SumByExt(s[1..], f, g);
    }
  }

  predicate NoDup<T(==)>(s: seq<T>) {
    forall i, j :: 0 <= i < j < |s| ==> s[i] != s[j]
  }

  /** Selecting rows from a sequence without repeats gives one without repeats. */
  lemma {:induction false} NoDupSelect<T(!new)>(s: seq<T>, p: T -> bool)
    requires NoDup(s)
    ensures NoDup(Select(s, p))
    decreases |s|
  {
    if s != [] {
      assert NoDup(s[1..]) by {
        forall i, j | 0 <= i < j < |s[1..]| ensures s[1..][i] != s[1..][j] {
          assert s[1..][i] == s[i + 1] && s[1..][j] == s[j + 1];
        }
      }
      NoDupSelect(s[1..], p);
      var rest := Select(s[1..], p);
      assert s[0] !in s[1..] by {
        forall j | 0 <= j < |s[1..]| ensures s[1..][j] != s[0] {
          assert s[1..][j] == s[j + 1];
        }
      }
      var r := Select(s, p);
      if p(s[0]) {
        assert r == [s[0]] + rest;
        forall i, j | 0 <= i < j < |r| ensures r[i] != r[j] {
          if i == 0 {
            assert r[j] == rest[j - 1];
          } else {
            assert r[i] == rest[i - 1] && r[j] == rest[j - 1];
          }
        }
      } else {
        assert r == rest;
      }
    }
  }

  /** `Series.unique()`: each value once, in order of first appearance. */
  function Distinct<T(==,!new)>(s: seq<T>): (r: seq<T>)
    ensures NoDup(r)
    ensures forall x :: x in r <==> x in s
    decreases |s|
  {
    if s == [] then []
    else
      var d := Distinct(s[..|s| - 1]);
      assert forall x :: x in s <==> x in s[..|s| - 1] || x == s[|s| - 1] by {
        assert s == s[..|s| - 1] + [s[|s| - 1]];
      }
      if s[|s| - 1] in d then d else d + [s[|s| - 1]]
  }

  /** `df.groupby(key)[val].sum()` for the group of key `k`. */
  function GroupSum<T(!new), K(==)>(s: seq<T>, key: T -> K, val: T -> real, k: K): real {
    SumBy(Select(s, KeyIs(key, k)), val)
  }

  /** The rows of the group of key `k`. */
  function KeyIs<T, K(==)>(key: T -> K, k: K): T -> bool {
    x => key(x) == k
  }

  /** Narrowing first to rows that include a whole group leaves that group's sum as it was. */
  lemma GroupSumSelect<T(!new), K>(s: seq<T>, p: T -> bool, key: T -> K, val: T -> real, k: K)
    requires forall x :: key(x) == k ==> p(x)
    ensures GroupSum(Select(s, p), key, val, k) == GroupSum(s, key, val, k)
  {
    SelectSelectExt(s, p, KeyIs(key, k), KeyIs(key, k));
  }

  /** The keys of `df.groupby(key)`: every value the key column takes, once. */
  function GroupKeys<T, K(==,!new)>(s: seq<T>, key: T -> K): (r: seq<K>)
    ensures NoDup(r)
    ensures forall k :: k in r <==> exists i :: 0 <= i < |s| && key(s[i]) == k
  {
    var m := Map(s, key);
    assert forall k :: k in m <==> exists i :: 0 <= i < |s| && key(s[i]) == k by {
      forall k | k in m ensures exists i :: 0 <= i < |s| && key(s[i]) == k {
        var i :| 0 <= i < |m| && m[i] == k;
      }
    }
    Distinct(m)
  }

  /**
   * `sort_values(ascending=False)` then `index[0]`: a key of largest score.
   * Among equal scores the earliest key is taken; pandas' default sort fixes no tie order.
   */
  function ArgMax<K>(keys: seq<K>, score: K -> real): (r: Option<K>)
    ensures r.None? <==> keys == []
    ensures r.Some? ==> r.value in keys && forall k :: k in keys ==> score(k) <= score(r.value)
    decreases |keys|
  {
    if keys == [] then None
    else
      var rest := ArgMax(keys[1..], score);
      assert forall k :: k in keys ==> k == keys[0] || k in keys[1..];
      if rest.None? || score(keys[0]) >= score(rest.value) then Some(keys[0]) else rest
  }

  ghost predicate StrictTotalOrder<T(!new)>(lt: (T, T) -> bool) {
    && (forall a :: !lt(a, a))
    && (forall a, b, c :: lt(a, b) && lt(b, c) ==> lt(a, c))
    && (forall a, b :: a == b || lt(a, b) || lt(b, a))
  }

  predicate StrictlyAscending<T(!new)>(s: seq<T>, lt: (T, T) -> bool) {
    forall i, j :: 0 <= i < j < |s| ==> lt(s[i], s[j])
  }

  function InsertDistinct<T(==,!new)>(s: seq<T>, x: T, lt: (T, T) -> bool): (r: seq<T>)
    requires StrictTotalOrder(lt) && StrictlyAscending(s, lt)
    ensures StrictlyAscending(r, lt)
    ensures forall y :: y in r <==> y in s || y == x
    decreases |s|
  {
    if s == [] then [x]
    else if x == s[0] then s
    else if lt(x, s[0]) then [x] + s
    else
      var rest := InsertDistinct(s[1..], x, lt);
      assert forall y :: y in rest ==> lt(s[0], y);
      [s[0]] + rest
  }

  /** `sorted(set_of_values)`: the distinct elements of `s`, strictly ascending by `lt`. */
  function SortedDistinct<T(==,!new)>(s: seq<T>, lt: (T, T) -> bool): (r: seq<T>)
    requires StrictTotalOrder(lt)
    ensures StrictlyAscending(r, lt)
    ensures forall y :: y in r <==> y in s
    decreases |s|
  {
    if s == [] then []
    else
      var init := s[..|s| - 1];
      assert s == init + [s[|s| - 1]];
      InsertDistinct(SortedDistinct(init, lt), s[|s| - 1], lt)
  }

  lemma StrictlyAscendingNoDup<T(!new)>(s: seq<T>, lt: (T, T) -> bool)
    requires StrictTotalOrder(lt) && StrictlyAscending(s, lt)
    ensures NoDup(s)
  {
  }

  lemma HeadIn<T>(s: seq<T>)
    requires s != []
    ensures s[0] in s
  {
  }

  /** The head of a strictly ascending sequence is below every other element. */
  lemma HeadIsLeast<T(!new)>(s: seq<T>, lt: (T, T) -> bool, x: T)
    requires StrictlyAscending(s, lt) && x in s
    ensures x == s[0] || lt(s[0], x)
  {
    var i :| 0 <= i < |s| && s[i] == x;
    if i > 0 {
      assert lt(s[0], s[i]);
    }
  }

  /** A strictly ascending sequence is fixed by its elements: `sorted(set(...))` has one answer. */
  lemma {:induction false} StrictlyAscendingUnique<T(!new)>(a: seq<T>, b: seq<T>, lt: (T, T) -> bool)
    requires StrictTotalOrder(lt) && StrictlyAscending(a, lt) && StrictlyAscending(b, lt)
    requires forall x :: x in a <==> x in b
    ensures a == b
    decreases |a|
  {
    if a != [] && b != [] {
      HeadIsLeast(b, lt, a[0]);
      HeadIsLeast(a, lt, b[0]);
      assert a[0] == b[0];
      forall x
        ensures x in a[1..] <==> x in b[1..]
      {
        if x in a[1..] {
          var i :| 1 <= i < |a| && a[i] == x;
          assert lt(a[0], x) && x != a[0] && x in b;
          var k :| 0 <= k < |b| && b[k] == x;
          assert b[1..][k - 1] == x;
        }
        if x in b[1..] {
          var i :| 1 <= i < |b| && b[i] == x;
          assert lt(b[0], x) && x != b[0] && x in a;
          var k :| 0 <= k < |a| && a[k] == x;
          assert a[1..][k - 1] == x;
        }
      }
      StrictlyAscendingUnique(a[1..], b[1..], lt);
      assert a == [a[0]] + a[1..] && b == [b[0]] + b[1..];
    } else if a != [] {
      HeadIn(a);
    } else if b != [] {
      HeadIn(b);
    }
  }

  predicate AscendingBy<T(!new)>(s: seq<T>, key: T -> real) {
    forall i, j :: 0 <= i < j < |s| ==> key(s[i]) <= key(s[j])
  }

  /** One step of insertion sort: `x` placed before the first element whose key is not below it. */
  function InsertBy<T(!new)>(s: seq<T>, x: T, key: T -> real): (r: seq<T>)
    ensures |r| == |s| + 1
    decreases |s|
  {
    if s == [] || key(x) <= key(s[0]) then [x] + s
    else [s[0]] + InsertBy(s[1..], x, key)
  }

  lemma {:induction false} InsertByPermutes<T(!new)>(s: seq<T>, x: T, key: T -> real)
    ensures multiset(InsertBy(s, x, key)) == multiset(s) + multiset{x}
    decreases |s|
  {
    if s != [] && key(x) > key(s[0]) {
      InsertByPermutes(s[1..], x, key);
      assert s == [s[0]] + s[1..];
    }
  }

  lemma {:induction false} InsertByAscending<T(!new)>(s: seq<T>, x: T, key: T -> real)
    requires AscendingBy(s, key)
    ensures AscendingBy(InsertBy(s, x, key), key)
    decreases |s|
  {
    if s != [] && key(x) > key(s[0]) {
      var rest := InsertBy(s[1..], x, key);
      InsertByAscending(s[1..], x, key);
      InsertByMembers(s[1..], x, key);
      var r := [s[0]] + rest;
      assert InsertBy(s, x, key) == r;
      forall i, j | 0 <= i < j < |r|
        ensures key(r[i]) <= key(r[j])
      {
        assert r[j] == rest[j - 1];
        if i == 0 {
          assert rest[j - 1] in rest;
          if rest[j - 1] != x {
            var k :| 0 <= k < |s[1..]| && s[1..][k] == rest[j - 1];
            assert s[k + 1] == r[j];
          }
        } else {
          assert r[i] == rest[i - 1];
        }
      }
    }
  }

  /** Inserting adds `x` and nothing else. */
  lemma {:induction false} InsertByMembers<T(!new)>(s: seq<T>, x: T, key: T -> real)
    ensures forall y :: y in InsertBy(s, x, key) ==> y == x || y in s
    decreases |s|
  {
    if s != [] && key(x) > key(s[0]) {
      InsertByMembers(s[1..], x, key);
      assert forall y :: y in s[1..] ==> y in s;
    }
  }

  /** `sort_values(key)`: a permutation of `s` in ascending order of `key`. */
  function SortBy<T(!new)>(s: seq<T>, key: T -> real): (r: seq<T>)
    ensures AscendingBy(r, key)
    ensures multiset(r) == multiset(s)
    decreases |s|
  {
    if s == [] then []
    else
      var init := s[..|s| - 1];
      assert s == init + [s[|s| - 1]];
      InsertByAscending(SortBy(init, key), s[|s| - 1], key);
      InsertByPermutes(SortBy(init, key), s[|s| - 1], key);
      InsertBy(SortBy(init, key), s[|s| - 1], key)
  }

  /** An element of a sequence without repeats occurs in it at most once. */
  lemma {:induction false} NoDupCount<T>(s: seq<T>, x: T)
    requires NoDup(s)
    ensures multiset(s)[x] <= 1
    decreases |s|
  {
    if s != [] {
      var rest := s[1..];
      assert NoDup(rest) by {
        forall i, j | 0 <= i < j < |rest| ensures rest[i] != rest[j] {
          assert rest[i] == s[i + 1] && rest[j] == s[j + 1];
        }
      }
      NoDupCount(rest, x);
      assert s == [s[0]] + rest;
      assert s[0] !in rest by {
        forall i | 0 <= i < |rest| ensures rest[i] != s[0] {
          assert rest[i] == s[i + 1];
        }
      }
    }
  }

  /** Two positions holding the same element count it twice. */
  lemma CountAtLeast<T>(s: seq<T>, i: int, j: int)
    requires 0 <= i < j < |s|
    ensures multiset(s)[s[i]] >= 1 + (if s[j] == s[i] then 1 else 0)
  {
    assert s == s[..i] + [s[i]] + s[i + 1..j] + [s[j]] + s[j + 1..];
  }

  /** Reordering a sequence without repeats leaves it without repeats. */
  lemma NoDupPermutation<T>(a: seq<T>, b: seq<T>)
    requires multiset(a) == multiset(b) && NoDup(a)
    ensures NoDup(b)
  {
    forall i, j | 0 <= i < j < |b|
      ensures b[i] != b[j]
    {
      CountAtLeast(b, i, j);
      NoDupCount(a, b[i]);
    }
  }

  /** The keys of the groups are exactly the key values the rows hold. */
  lemma GroupKeysMembers<T, K(!new)>(s: seq<T>, key: T -> K)
    ensures forall x :: x in s ==> key(x) in GroupKeys(s, key)
    ensures forall k :: k in GroupKeys(s, key) ==> exists x :: x in s && key(x) == k
  {
    var r := GroupKeys(s, key);
    forall x | x in s
      ensures key(x) in r
    {
      var i :| 0 <= i < |s| && s[i] == x;
      assert key(s[i]) in r;
    }
    forall k | k in r
      ensures exists x :: x in s && key(x) == k
    {
      var i :| 0 <= i < |s| && key(s[i]) == k;
      assert s[i] in s;
    }
  }

  /** Sorting keeps the elements. */
  lemma SortByMembers<T(!new)>(s: seq<T>, key: T -> real)
    ensures forall x :: x in SortBy(s, key) <==> x in s
  {
    var r := SortBy(s, key);
    forall x
      ensures x in r <==> x in s
    {
      assert x in r <==> x in multiset(r);
      assert x in s <==> x in multiset(s);
    }
  }

  /** Elements whose field `name` takes no value twice are themselves without repeats. */
  lemma NoDupByNoDup<T, K>(s: seq<T>, name: T -> K)
    requires NoDup(Map(s, name))
    ensures NoDup(s)
  {
    forall i, j | 0 <= i < j < |s|
      ensures s[i] != s[j]
    {
      assert Map(s, name)[i] != Map(s, name)[j];
    }
  }

  /** Reordering elements whose field `name` takes no value twice leaves it so. */
  lemma NoDupByPermutation<T, K>(a: seq<T>, b: seq<T>, name: T -> K)
    requires multiset(a) == multiset(b) && NoDup(Map(a, name))
    ensures NoDup(Map(b, name))
  {
    NoDupByNoDup(a, name);
    NoDupPermutation(a, b);
    var na, nb := Map(a, name), Map(b, name);
    forall i, j | 0 <= i < j < |b|
      ensures nb[i] != nb[j]
    {
      assert b[i] in multiset(a) && b[j] in multiset(a);
      var p :| 0 <= p < |a| && a[p] == b[i];
      var q :| 0 <= q < |a| && a[q] == b[j];
      assert p != q;
      assert na[p] != na[q];
    }
  }

  /**
   * Making one record per key, each carrying its key in the field `name`, then
   * sorting the records: each key gets exactly one record.
   */
  lemma RankedRecords<K(!new), B(!new)>(keys: seq<K>, mk: K -> B, name: B -> K, sortKey: B -> real)
    requires NoDup(keys)
    requires forall k :: name(mk(k)) == k
    ensures var r := SortBy(Map(keys, mk), sortKey);
      && NoDup(Map(r, name))
      && (forall b :: b in r ==> b == mk(name(b)) && name(b) in keys)
      && (forall k :: k in keys ==> mk(k) in r)
  {
    var groups := Map(keys, mk);
    var r := SortBy(groups, sortKey);
    SortByMembers(groups, sortKey);
    assert Map(groups, name) == keys;
    NoDupByPermutation(groups, r, name);
    forall b | b in r
      ensures b == mk(name(b)) && name(b) in keys
    {
      var i :| 0 <= i < |groups| && groups[i] == b;
    }
    forall k | k in keys
      ensures mk(k) in r
    {
      var i :| 0 <= i < |keys| && keys[i] == k;
      assert groups[i] in groups;
    }
  }

  /** An element a descending sequence holds past its first `m` places scores no more than any of those. */
  lemma PastPrefixOfDescending<T(!new)>(s: seq<T>, m: nat, score: T -> real, x: T)
    requires m <= |s|
    requires forall i, j :: 0 <= i < j < |s| ==> score(s[i]) >= score(s[j])
    requires x in s && x !in s[..m]
    ensures m < |s| && forall b :: b in s[..m] ==> score(x) <= score(b)
  {
    var k :| 0 <= k < |s| && s[k] == x;
    assert k >= m;
    forall b | b in s[..m]
      ensures score(x) <= score(b)
    {
      var i :| 0 <= i < m && s[..m][i] == b;
    }
  }

  /** A prefix of a sequence without repeats in the field `name` has none either. */
  lemma NoDupByPrefix<T, K>(s: seq<T>, m: nat, name: T -> K)
    requires m <= |s| && NoDup(Map(s, name))
    ensures NoDup(Map(s[..m], name))
  {
    assert Map(s[..m], name) == Map(s, name)[..m];
  }
}
