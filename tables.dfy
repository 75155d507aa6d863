/** The few table operations the sampling engine needs from a data-frame library:
    sums over rows, distinct values in order of first appearance, filters,
    grouped sums, a descending sort by a key and "the n largest rows". */
module Tables {
  import opened Numeric

  datatype Option<T> = None | Some(value: T)

  /** Sum of f over the rows of s. */
  function Sum<T>(s: seq<T>, f: T -> int): int
  {
    if s == [] then 0 else Sum(s[..|s| - 1], f) + f(s[|s| - 1])
  }

  lemma {:induction false} SumAppend<T>(a: seq<T>, b: seq<T>, f: T -> int)
    ensures Sum(a + b, f) == Sum(a, f) + Sum(b, f)
  {
    if b == [] {
      assert a + b == a;
    } else {
      assert (a + b)[..|a + b| - 1] == a + b[..|b| - 1];
      SumAppend(a, b[..|b| - 1], f);
    }
  }

  /** Reordering the rows does not change a sum. */
  lemma {:induction false} SumPermutation<T>(a: seq<T>, b: seq<T>, f: T -> int)
    requires multiset(a) == multiset(b)
    ensures Sum(a, f) == Sum(b, f)
  {
    if a != [] {
      var x, a' := a[|a| - 1], a[..|a| - 1];
      assert a == a' + [x];
      assert x in multiset(b);
      var j :| 0 <= j < |b| && b[j] == x;
      assert b == b[..j] + [x] + b[j + 1..];
      var b' := b[..j] + b[j + 1..];
      assert multiset(b') == multiset(b) - multiset{x};
      SumPermutation(a', b', f);
      SumAppend(b[..j] + [x], b[j + 1..], f);
      SumAppend(b[..j], [x], f);
      SumAppend(b[..j], b[j + 1..], f);
    }
  }

  /** With non-negative terms a longer prefix never has a smaller sum. */
  lemma {:induction false} SumPrefixMonotone<T>(s: seq<T>, f: T -> int, i: nat, j: nat)
    requires forall k :: 0 <= k < |s| ==> f(s[k]) >= 0
    requires i <= j <= |s|
    ensures Sum(s[..i], f) <= Sum(s[..j], f)
  {
    if i < j {
      SumPrefixMonotone(s, f, i, j - 1);
      assert s[..j][..j - 1] == s[..j - 1];
    }
  }

  function Map<T, U>(s: seq<T>, f: T -> U): (r: seq<U>)
    ensures |r| == |s| && forall i :: 0 <= i < |s| ==> r[i] == f(s[i])
  {
    seq(|s|, i requires 0 <= i < |s| => f(s[i]))
  }

  lemma MapAppend<T, U>(s: seq<T>, x: T, f: T -> U)
    ensures Map(s + [x], f) == Map(s, f) + [f(x)]
  {
  }

  predicate NoDup<T(==)>(s: seq<T>)
  {
    forall i, j :: 0 <= i < j < |s| ==> s[i] != s[j]
  }

  lemma MapConcat<T, U>(a: seq<T>, b: seq<T>, f: T -> U)
    ensures Map(a + b, f) == Map(a, f) + Map(b, f)
  {
  }

  lemma MultisetMiddle<U>(p: seq<U>, y: U, q: seq<U>)
    ensures multiset(p + [y] + q) == multiset(p + q) + multiset{y}
  {
  }

  lemma MultisetCancel<U>(p: multiset<U>, q: multiset<U>, y: U)
    requires p + multiset{y} == q + multiset{y}
    ensures p == q
  {
    assert forall z :: p[z] == (p + multiset{y})[z] - multiset{y}[z];
    assert forall z :: q[z] == (q + multiset{y})[z] - multiset{y}[z];
  }

  /** Reordering the rows reorders their images the same way. */
  lemma {:induction false} MapPermutation<T, U>(a: seq<T>, b: seq<T>, f: T -> U)
    requires multiset(a) == multiset(b)
    ensures multiset(Map(a, f)) == multiset(Map(b, f))
  {
    if a == [] {
      assert |b| == |multiset(b)| == 0;
    } else {
      var x, a' := a[|a| - 1], a[..|a| - 1];
      assert a == a' + [x];
      assert multiset(a) == multiset(a') + multiset{x};
      assert x in multiset(b);
      var j :| 0 <= j < |b| && b[j] == x;
      var b1, b2 := b[..j], b[j + 1..];
      assert b == b1 + [x] + b2;
      MultisetMiddle(b1, x, b2);
      MultisetCancel(multiset(a'), multiset(b1 + b2), x);
      MapPermutation(a', b1 + b2, f);
      MapAppend(a', x, f);
      MapAppend(b1, x, f);
      MapConcat(b1 + [x], b2, f);
      MapConcat(b1, b2, f);
      MultisetMiddle(Map(b1, f), f(x), Map(b2, f));
    }
  }

  /** Two sequences whose terms agree position by position have the same sum. */
  lemma {:induction false} SumPointwise<T, U>(a: seq<T>, f: T -> int, b: seq<U>, g: U -> int)
    requires |a| == |b| && forall i :: 0 <= i < |a| ==> f(a[i]) == g(b[i])
    ensures Sum(a, f) == Sum(b, g)
  {
    if a != [] {
      SumPointwise(a[..|a| - 1], f, b[..|b| - 1], g);
    }
  }

  lemma {:induction false} NoDupCounts<T>(a: seq<T>, x: T)
    requires NoDup(a)
    ensures multiset(a)[x] <= 1
  {
    if a != [] {
      var a' := a[..|a| - 1];
      assert a == a' + [a[|a| - 1]];
      NoDupCounts(a', x);
      if x == a[|a| - 1] {
        assert x !in a';
      }
    }
  }

  /** A reordering of a duplicate-free sequence is duplicate-free. */
  lemma NoDupPermutation<T>(a: seq<T>, b: seq<T>)
    requires NoDup(a) && multiset(a) == multiset(b)
    ensures NoDup(b)
  {
    forall i, j | 0 <= i < j < |b| ensures b[i] != b[j] {
      if b[i] == b[j] {
        assert b == b[..i] + [b[i]] + b[i + 1..j] + [b[j]] + b[j + 1..];
        assert multiset(b)[b[i]] >= 2;
        NoDupCounts(a, b[i]);
      }
    }
  }

  /** The distinct values of s in order of first appearance (pandas unique()). */
  function Distinct<T(==,!new)>(s: seq<T>): (r: seq<T>)
    ensures NoDup(r)
    ensures forall x :: x in r <==> x in s
    ensures |r| <= |s|
  {
    if s == [] then []
    else
      var d := Distinct(s[..|s| - 1]);
      assert forall x :: x in s <==> x in s[..|s| - 1] || x == s[|s| - 1] by {
        assert s == s[..|s| - 1] + [s[|s| - 1]];
      }
      if s[|s| - 1] in d then d else d + [s[|s| - 1]]
  }

  /** The rows of s that satisfy p, in their order (boolean indexing). */
  function Filter<T(!new)>(s: seq<T>, p: T -> bool): (r: seq<T>)
    ensures forall x :: x in r <==> x in s && p(x)
    ensures forall i :: 0 <= i < |r| ==> p(r[i])
    ensures |r| <= |s|
  {
    if s == [] then []
    else
      var f := Filter(s[..|s| - 1], p);
      assert s == s[..|s| - 1] + [s[|s| - 1]];
      if p(s[|s| - 1]) then f + [s[|s| - 1]] else f
  }

  /** Filtering keeps a sub-multiset of the rows. */
  lemma {:induction false} FilterSubMultiset<T(!new)>(s: seq<T>, p: T -> bool)
    ensures multiset(Filter(s, p)) <= multiset(s)
  {
    if s != [] {
      var s' := s[..|s| - 1];
      FilterSubMultiset(s', p);
      assert s == s' + [s[|s| - 1]];
    }
  }

  /** Filtering a concatenation filters each part. */
  lemma {:induction false} FilterConcat<T(!new)>(a: seq<T>, b: seq<T>, p: T -> bool)
    ensures Filter(a + b, p) == Filter(a, p) + Filter(b, p)
    decreases |b|
  {
    if b != [] {
      var b' := b[..|b| - 1];
      assert a + b == (a + b') + [b[|b| - 1]];
      assert (a + b)[..|a + b| - 1] == a + b';
      FilterConcat(a, b', p);
    } else {
      assert a + b == a;
    }
  }

  lemma {:induction false} FilterNone<T(!new)>(s: seq<T>, p: T -> bool)
    requires forall x :: x in s ==> !p(x)
    ensures Filter(s, p) == []
  {
    if Filter(s, p) != [] {
      assert Filter(s, p)[0] in Filter(s, p);
    }
  }

  /** Filtering s keeps the rows the filter of its front keeps, then its last row if that passes. */
  lemma FilterSnoc<T(!new)>(s: seq<T>, p: T -> bool)
    requires s != []
    ensures Filter(s, p) == Filter(s[..|s| - 1], p) + if p(s[|s| - 1]) then [s[|s| - 1]] else []
  {
  }

  lemma {:induction false} FilterAll<T(!new)>(s: seq<T>, p: T -> bool)
    requires forall i :: 0 <= i < |s| ==> p(s[i])
    ensures Filter(s, p) == s
  {
    if s != [] {
      var s' := s[..|s| - 1];
      assert forall i :: 0 <= i < |s'| ==> p(s'[i]) by {
        forall i | 0 <= i < |s'| ensures p(s'[i]) { assert s'[i] == s[i]; }
      }
      FilterAll(s', p);
      assert s == s' + [s[|s| - 1]];
    }
  }

  /** Filters that agree on every row of s select the same rows. */
  lemma {:induction false} FilterExt<T(!new)>(s: seq<T>, p: T -> bool, q: T -> bool)
    requires forall x :: x in s ==> (p(x) <==> q(x))
    ensures Filter(s, p) == Filter(s, q)
  {
    if s != [] {
      assert s == s[..|s| - 1] + [s[|s| - 1]];
      FilterExt(s[..|s| - 1], p, q);
    }
  }

  /** Filtering first by a weaker condition changes nothing. */
  lemma {:induction false} FilterImplied<T(!new)>(s: seq<T>, p: T -> bool, q: T -> bool)
    requires forall x :: x in s && p(x) ==> q(x)
    ensures Filter(Filter(s, q), p) == Filter(s, p)
  {
    if s != [] {
      var s' := s[..|s| - 1];
      assert s == s' + [s[|s| - 1]];
      FilterImplied(s', p, q);
    }
  }

  /** The length of the longest prefix of s whose rows all satisfy p. */
  function PrefixWhile<T>(s: seq<T>, p: T -> bool): (k: nat)
    ensures k <= |s|
    ensures forall i :: 0 <= i < k ==> p(s[i])
    ensures k < |s| ==> !p(s[k])
  {
    if s == [] || !p(s[0]) then 0
    else
      var k := PrefixWhile(s[1..], p);
      assert forall i :: 1 <= i < k + 1 ==> s[i] == s[1..][i - 1];
      k + 1
  }

  /** A condition that holds on the first k rows and on no later row selects exactly those k rows. */
  lemma FilterPrefix<T(!new)>(s: seq<T>, p: T -> bool, k: nat)
    requires k <= |s|
    requires forall i :: 0 <= i < k ==> p(s[i])
    requires forall i :: k <= i < |s| ==> !p(s[i])
    ensures Filter(s, p) == s[..k]
  {
    FilterTake(s, p, k);
    FilterDrop(s, p, k);
    FilterSplit(s, p, k);
  }

  lemma FilterSplit<T(!new)>(s: seq<T>, p: T -> bool, k: nat)
    requires k <= |s|
    requires Filter(s[..k], p) == s[..k] && Filter(s[k..], p) == []
    ensures Filter(s, p) == s[..k]
  {
    SplitAt(s, k);
    FilterConcat(s[..k], s[k..], p);
  }

  lemma SplitAt<T>(s: seq<T>, k: nat)
    requires k <= |s|
    ensures s[..k] + s[k..] == s
  {
  }

  lemma FilterTake<T(!new)>(s: seq<T>, p: T -> bool, k: nat)
    requires k <= |s|
    requires forall i :: 0 <= i < k ==> p(s[i])
    ensures Filter(s[..k], p) == s[..k]
  {
    var a := s[..k];
    forall i | 0 <= i < |a| ensures p(a[i]) {
      assert a[i] == s[i];
    }
    FilterAll(a, p);
  }

  lemma FilterDrop<T(!new)>(s: seq<T>, p: T -> bool, k: nat)
    requires k <= |s|
    requires forall i :: k <= i < |s| ==> !p(s[i])
    ensures Filter(s[k..], p) == []
  {
    var b := s[k..];
    forall x | x in b ensures !p(x) {
      var i :| 0 <= i < |b| && b[i] == x;
      assert b[i] == s[k + i];
    }
    FilterNone(b, p);
  }

  /** On rows whose values f never decrease, the rows of value at most c, where c is the
      value of some row, are a non-empty prefix that ends at a row of value c. */
  lemma MonotoneCut<T(!new)>(s: seq<T>, f: T -> int, p: T -> bool, c: int, j: nat) returns (k: nat)
    requires j < |s| && f(s[j]) == c
    requires forall x :: p(x) <==> f(x) <= c
    requires forall a, b :: 0 <= a <= b < |s| ==> f(s[a]) <= f(s[b])
    ensures 1 <= k <= |s| && Filter(s, p) == s[..k] && f(s[k - 1]) == c
  {
    k := PrefixWhile(s, p);
    forall i | 0 <= i <= j ensures p(s[i]) {
      assert f(s[i]) <= f(s[j]);
    }
    assert k > j;
    forall i | k <= i < |s| ensures !p(s[i]) {
      assert f(s[k]) <= f(s[i]);
    }
    FilterPrefix(s, p, k);
    assert f(s[j]) <= f(s[k - 1]);
  }

  /** The rows of a sequence of sequences, one after the other (pd.concat). */
  function Flatten<T>(ss: seq<seq<T>>): seq<T>
  {
    if ss == [] then [] else Flatten(ss[..|ss| - 1]) + ss[|ss| - 1]
  }

  lemma {:induction false} FlattenMember<T>(ss: seq<seq<T>>, x: T)
    ensures x in Flatten(ss) <==> exists i :: 0 <= i < |ss| && x in ss[i]
  {
    if ss != [] {
      var ss' := ss[..|ss| - 1];
      FlattenMember(ss', x);
      assert forall i :: 0 <= i < |ss'| ==> ss'[i] == ss[i];
    }
  }

  predicate Increasing(s: seq<int>)
  {
    forall i, j :: 0 <= i < j < |s| ==> s[i] < s[j]
  }

  function InsertAscending(x: int, s: seq<int>): (r: seq<int>)
    requires Increasing(s)
    ensures Increasing(r)
    ensures forall y :: y in r <==> y in s || y == x
  {
    if s == [] || x < s[0] then [x] + s
    else if x == s[0] then s
    else
      assert forall y :: y in s <==> y == s[0] || y in s[1..] by { assert s == [s[0]] + s[1..]; }
      var t := InsertAscending(x, s[1..]);
      assert forall j :: 0 <= j < |t| ==> s[0] < t[j] by {
        forall j | 0 <= j < |t| ensures s[0] < t[j] {
          if t[j] != x {
            var rest := s[1..];
            assert t[j] in rest;
            var k :| 0 <= k < |rest| && rest[k] == t[j];
            assert s[k + 1] == t[j];
          }
        }
      }
      [s[0]] + t
  }

  /** The distinct values of s in ascending order (the group order of groupby on one column). */
  function SortedDistinct(s: seq<int>): (r: seq<int>)
    ensures Increasing(r)
    ensures forall y :: y in r <==> y in s
  {
    if s == [] then []
    else
      assert forall y :: y in s <==> y in s[..|s| - 1] || y == s[|s| - 1] by {
        assert s == s[..|s| - 1] + [s[|s| - 1]];
      }
      InsertAscending(s[|s| - 1], SortedDistinct(s[..|s| - 1]))
  }

  /** Sum of g over the rows of s whose key is k (one cell of a group-by sum). */
  function KeySum<T, K(==)>(s: seq<T>, key: T -> K, k: K, g: T -> int): int
  {
    if s == [] then 0
    else KeySum(s[..|s| - 1], key, k, g) + (if key(s[|s| - 1]) == k then g(s[|s| - 1]) else 0)
  }

  /** Sum over the keys ks of their group sums. */
  function KeysSum<T, K(==)>(s: seq<T>, key: T -> K, ks: seq<K>, g: T -> int): int
  {
    if ks == [] then 0 else KeysSum(s, key, ks[..|ks| - 1], g) + KeySum(s, key, ks[|ks| - 1], g)
  }

  lemma {:induction false} KeySumAbsent<T, K>(s: seq<T>, key: T -> K, k: K, g: T -> int)
    requires k !in Map(s, key)
    ensures KeySum(s, key, k, g) == 0
  {
    if s != [] {
      assert Map(s[..|s| - 1], key) == Map(s, key)[..|s| - 1];
      KeySumAbsent(s[..|s| - 1], key, k, g);
    }
  }

  /** The group sum of k is the last entry of a running count that adds each row's value
      when its key is k. */
  lemma {:induction false} RunningKeySum<T, K>(s: seq<T>, key: T -> K, k: K, g: T -> int, c: seq<int>)
    requires |c| == |s| + 1 && c[0] == 0
    requires forall i :: 0 <= i < |s| ==> c[i + 1] == c[i] + (if key(s[i]) == k then g(s[i]) else 0)
    ensures KeySum(s, key, k, g) == c[|s|]
  {
    if s != [] {
      var s', c' := s[..|s| - 1], c[..|c| - 1];
      forall i | 0 <= i < |s'| ensures c'[i + 1] == c'[i] + (if key(s'[i]) == k then g(s'[i]) else 0) {
        assert s'[i] == s[i];
      }
      RunningKeySum(s', key, k, g, c');
    }
  }

  /** Appending a row adds its value to exactly one group, if its key is listed once. */
  lemma {:induction false} KeysSumSnoc<T, K>(s: seq<T>, x: T, key: T -> K, ks: seq<K>, g: T -> int)
    requires NoDup(ks)
    ensures KeysSum(s + [x], key, ks, g) == KeysSum(s, key, ks, g) + (if key(x) in ks then g(x) else 0)
  {
    if ks != [] {
      var ks', k := ks[..|ks| - 1], ks[|ks| - 1];
      assert ks == ks' + [k];
      assert (s + [x])[..|s|] == s;
      KeysSumSnoc(s, x, key, ks', g);
      assert key(x) in ks <==> key(x) in ks' || key(x) == k;
      assert key(x) == k ==> key(x) !in ks';
    }
  }

  /** Grouping by key and summing the groups gives back the total. */
  lemma {:induction false} DistinctKeysSum<T, K(!new)>(s: seq<T>, key: T -> K, g: T -> int)
    ensures KeysSum(s, key, Distinct(Map(s, key)), g) == Sum(s, g)
  {
    if s != [] {
      var s', x := s[..|s| - 1], s[|s| - 1];
      assert s == s' + [x];
      MapAppend(s', x, key);
      assert Map(s, key)[..|s| - 1] == Map(s', key);
      var d' := Distinct(Map(s', key));
      DistinctKeysSum(s', key, g);
      KeysSumSnoc(s', x, key, d', g);
      if key(x) !in d' {
        KeySumAbsent(s', key, key(x), g);
        assert (s' + [x])[..|s'|] == s';
      }
    }
  }

  lemma {:induction false} KeysSumOfNothing<T, K>(s: seq<T>, key: T -> K, ks: seq<K>, g: T -> int)
    requires s == []
    ensures KeysSum(s, key, ks, g) == 0
  {
    if ks != [] {
      KeysSumOfNothing(s, key, ks[..|ks| - 1], g);
    }
  }

  predicate NonIncreasing<T>(s: seq<T>, key: T -> int)
  {
    forall i, j :: 0 <= i < j < |s| ==> key(s[i]) >= key(s[j])
  }

  /** Insert x into a sequence sorted by descending key, before the first row whose key is not larger. */
  function Insert<T(!new)>(x: T, s: seq<T>, key: T -> int): (r: seq<T>)
    requires NonIncreasing(s, key)
    ensures NonIncreasing(r, key)
    ensures multiset(r) == multiset(s) + multiset{x}
    ensures |r| == |s| + 1
  {
    if s == [] || key(s[0]) <= key(x) then
      assert forall j :: 0 <= j < |s| ==> key(x) >= key(s[j]) by {
        forall j | 0 <= j < |s| ensures key(x) >= key(s[j]) {
          assert j == 0 || key(s[0]) >= key(s[j]);
        }
      }
      ConsNonIncreasing(x, s, key);
      [x] + s
    else
      var rest := s[1..];
      TailNonIncreasing(s, key);
      var t := Insert(x, rest, key);
      assert s == [s[0]] + rest;
      HeadBound(x, s, key, t);
      ConsNonIncreasing(s[0], t, key);
      [s[0]] + t
  }

  /** The head of s bounds a reordering of its tail and x, when it is larger than x. */
  lemma HeadBound<T>(x: T, s: seq<T>, key: T -> int, t: seq<T>)
    requires s != [] && NonIncreasing(s, key) && key(s[0]) > key(x)
    requires multiset(t) == multiset(s[1..]) + multiset{x}
    ensures forall j :: 0 <= j < |t| ==> key(s[0]) >= key(t[j])
  {
    forall j | 0 <= j < |t| ensures key(s[0]) >= key(t[j]) {
      assert t[j] in multiset(t);
      if t[j] != x {
        assert t[j] in multiset(s[1..]);
        var k :| 0 <= k < |s[1..]| && s[1..][k] == t[j];
        assert s[k + 1] == t[j];
      }
    }
  }

  lemma ConsNonIncreasing<T>(y: T, t: seq<T>, key: T -> int)
    requires NonIncreasing(t, key) && forall j :: 0 <= j < |t| ==> key(y) >= key(t[j])
    ensures NonIncreasing([y] + t, key)
  {
    var u := [y] + t;
    forall i, j | 0 <= i < j < |u| ensures key(u[i]) >= key(u[j]) {
      assert u[j] == t[j - 1];
      if i > 0 {
        assert u[i] == t[i - 1];
      }
    }
  }

  lemma TailNonIncreasing<T>(s: seq<T>, key: T -> int)
    requires s != [] && NonIncreasing(s, key)
    ensures NonIncreasing(s[1..], key)
  {
    var t := s[1..];
    forall i, j | 0 <= i < j < |t| ensures key(t[i]) >= key(t[j]) {
      assert t[i] == s[i + 1] && t[j] == s[j + 1];
    }
  }

  /** Stable sort by descending key (pandas sort_values(..., ascending=False)). */
  function SortDescending<T(!new)>(s: seq<T>, key: T -> int): (r: seq<T>)
    ensures NonIncreasing(r, key)
    ensures multiset(r) == multiset(s)
    ensures |r| == |s|
  {
    if s == [] then []
    else
      assert s == [s[0]] + s[1..];
      Insert(s[0], SortDescending(s[1..], key), key)
  }

  lemma TakeDrop<T>(s: seq<T>, m: nat)
    requires m <= |s|
    ensures multiset(s) - multiset(s[..m]) == multiset(s[m..])
    ensures multiset(s[..m]) <= multiset(s)
  {
    assert s == s[..m] + s[m..];
  }

  /** A prefix of a sequence sorted by descending key holds rows whose keys are at least
      those of every row left out. */
  lemma SortedPrefix<T>(sorted: seq<T>, m: nat, key: T -> int)
    requires NonIncreasing(sorted, key) && m <= |sorted|
    ensures NonIncreasing(sorted[..m], key)
    ensures forall x, y :: x in sorted[..m] && y in multiset(sorted[m..]) ==> key(y) <= key(x)
  {
    var rest := sorted[m..];
    forall x, y | x in sorted[..m] && y in multiset(rest) ensures key(y) <= key(x) {
      var i :| 0 <= i < m && sorted[i] == x;
      assert y in rest;
      var j :| 0 <= j < |rest| && rest[j] == y;
      assert rest[j] == sorted[m + j];
    }
  }

  /** The n rows with the largest key, largest first (pandas nlargest(n) with keep='first');
      a non-positive n selects nothing. */
  function Largest<T(!new)>(s: seq<T>, n: int, key: T -> int): (r: seq<T>)
    ensures |r| == if n <= 0 then 0 else if n < |s| then n else |s|
    ensures multiset(r) <= multiset(s)
    ensures NonIncreasing(r, key)
    ensures forall x, y :: x in r && y in multiset(s) - multiset(r) ==> key(y) <= key(x)
  {
    var sorted := SortDescending(s, key);
    var m := if n <= 0 then 0 else if n < |s| then n else |s|;
    TakeDrop(sorted, m);
    SortedPrefix(sorted, m, key);
    sorted[..m]
  }

  /** The rows whose key is k. */
  function KeyIs<T>(key: T -> int, k: int): T -> bool
  {
    (x: T) => key(x) == k
  }

  /** Filter of a single row. */
  lemma FilterOne<T(!new)>(x: T, p: T -> bool)
    ensures Filter([x], p) == if p(x) then [x] else []
  {
    assert [x][..0] == [];
  }

  /** Insert places x before every row of the same key: among the rows of any one key,
      x comes first and the others keep their order. */
  lemma {:induction false} InsertStable<T(!new)>(x: T, s: seq<T>, key: T -> int, k: int)
    requires NonIncreasing(s, key)
    ensures Filter(Insert(x, s, key), KeyIs(key, k)) == Filter([x], KeyIs(key, k)) + Filter(s, KeyIs(key, k))
    decreases |s|
  {
    var p := KeyIs(key, k);
    if s == [] || key(s[0]) <= key(x) {
      FilterConcat([x], s, p);
    } else {
      var rest := s[1..];
      TailNonIncreasing(s, key);
      InsertStable(x, rest, key, k);
      assert s == [s[0]] + rest;
      FilterConcat([s[0]], Insert(x, rest, key), p);
      FilterConcat([s[0]], rest, p);
      FilterOne(x, p);
      FilterOne(s[0], p);
      StableStep(Filter([s[0]], p), Filter([x], p), Filter(rest, p), key(s[0]) == k, key(x) == k);
    }
  }

  lemma StableStep<T>(head: seq<T>, ins: seq<T>, rest: seq<T>, headIs: bool, insIs: bool)
    requires !(headIs && insIs) && (headIs || head == []) && (insIs || ins == [])
    ensures head + (ins + rest) == ins + (head + rest)
  {
  }

  /** The sort is stable: among the rows of any one key, the sorted sequence keeps the
      input order. */
  lemma {:induction false} SortStable<T(!new)>(s: seq<T>, key: T -> int, k: int)
    ensures Filter(SortDescending(s, key), KeyIs(key, k)) == Filter(s, KeyIs(key, k))
  {
    if s != [] {
      SortStable(s[1..], key, k);
      InsertStable(s[0], SortDescending(s[1..], key), key, k);
      assert s == [s[0]] + s[1..];
      FilterConcat([s[0]], s[1..], KeyIs(key, k));
    }
  }

  /** nlargest keeps the first occurrences among equal keys: the chosen rows of any one
      key are the first rows of that key in the input, in input order. */
  lemma LargestKeepsFirst<T(!new)>(s: seq<T>, n: int, key: T -> int, k: int)
    ensures Filter(Largest(s, n, key), KeyIs(key, k)) <= Filter(s, KeyIs(key, k))
  {
    var sorted := SortDescending(s, key);
    var m := if n <= 0 then 0 else if n < |s| then n else |s|;
    SortStable(s, key, k);
    SplitAt(sorted, m);
    FilterConcat(sorted[..m], sorted[m..], KeyIs(key, k));
  }

  /** Sum of the real-valued f over the rows of s. */
  function RealSum<T>(s: seq<T>, f: T -> real): real
  {
    if s == [] then 0.0 else RealSum(s[..|s| - 1], f) + f(s[|s| - 1])
  }

  /** Terms that are integers times one factor sum to the integer sum times that factor. */
  lemma {:induction false} RealSumScaled<T>(s: seq<T>, a: T -> int, k: real, f: T -> real)
    requires forall i :: 0 <= i < |s| ==> f(s[i]) == a(s[i]) as real * k
    ensures RealSum(s, f) == Sum(s, a) as real * k
  {
    if s != [] {
      RealSumScaled(s[..|s| - 1], a, k, f);
    }
  }

  /** Rounding each term to the nearest integer moves the sum by at most half a unit per term. */
  lemma {:induction false} RoundingDrift<T>(s: seq<T>, f: T -> real, g: T -> int)
    requires forall i :: 0 <= i < |s| ==> g(s[i]) == RoundHalfEven(f(s[i]))
    ensures RealSum(s, f) - |s| as real / 2.0 <= Sum(s, g) as real <= RealSum(s, f) + |s| as real / 2.0
  {
    if s != [] {
      RoundingDrift(s[..|s| - 1], f, g);
    }
  }

  /** The real-valued column a * k. */
  function Scaled<T>(a: T -> int, k: real): T -> real
  {
    x => Scale(a(x), k)
  }

  /** Scaling every term by k scales the sum by k. */
  lemma ScaledSum<T>(s: seq<T>, a: T -> int, k: real)
    ensures RealSum(s, Scaled(a, k)) == Scale(Sum(s, a), k)
  {
    forall i | 0 <= i < |s| ensures Scaled(a, k)(s[i]) == a(s[i]) as real * k {
      ScaleIsProduct(a(s[i]), k);
    }
    RealSumScaled(s, a, k, Scaled(a, k));
    ScaleIsProduct(Sum(s, a), k);
  }

  /** Rounding each term a * k keeps the total within half a unit per term of k times the sum of a. */
  lemma ScaledDrift<T>(s: seq<T>, a: T -> int, k: real, g: T -> int)
    requires forall i :: 0 <= i < |s| ==> g(s[i]) == RoundHalfEven(Scaled(a, k)(s[i]))
    ensures Scale(Sum(s, a), k) - |s| as real / 2.0 <= Sum(s, g) as real <= Scale(Sum(s, a), k) + |s| as real / 2.0
  {
    ScaledSum(s, a, k);
    RoundingDrift(s, Scaled(a, k), g);
  }

  /** The integer column round(a * k). */
  function Rounded<T>(a: T -> int, k: real): T -> int
  {
    x => RoundHalfEven(Scale(a(x), k))
  }

  /** Each row's share of the total of a applied to a target: the exact shares add up to
      the target, and rounded ones to within half a unit per row of it. */
  lemma ShareDrift<T>(s: seq<T>, a: T -> int, target: int)
    requires Sum(s, a) != 0
    ensures var k := target as real / Sum(s, a) as real;
      && RealSum(s, Scaled(a, k)) == target as real
      && target as real - |s| as real / 2.0 <= Sum(s, Rounded(a, k)) as real <= target as real + |s| as real / 2.0
  {
    var w := Sum(s, a);
    var k := target as real / w as real;
    ScaledSum(s, a, k);
    ScaledDrift(s, a, k, Rounded(a, k));
    ScaleOfQuotient(w, target as real);
  }
}
