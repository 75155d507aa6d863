/** What the drift correction of the sampling page achieves: with the fill restricted to
    strata that still have rows outside the pre-sample, a stratified sample of n <= N
    rows is always taken and holds exactly n rows. */
module SampleSize {
  import opened Numeric
  import opened Tables
  import opened Allocation

  // ---- counting with Where ----

  lemma WhereMember<T(!new)>(s: seq<T>, p: T -> bool, x: T)
    ensures x in Where(s, p) <==> x in s && p(x)
  {
    WhereIsFilter(s, p);
  }

  /** A weaker condition keeps at least as many elements. */
  lemma {:induction false} WhereMonotone<T>(s: seq<T>, p: T -> bool, q: T -> bool)
    requires forall x :: x in s && p(x) ==> q(x)
    ensures |Where(s, p)| <= |Where(s, q)|
  {
    if s != [] {
      var s' := s[..|s| - 1];
      assert forall x :: x in s' ==> x in s;
      WhereMonotone(s', p, q);
    }
  }

  /** A condition and its negation split the elements between them. */
  lemma {:induction false} WhereSplit<T>(s: seq<T>, p: T -> bool, q: T -> bool)
    requires forall x :: x in s ==> (q(x) <==> !p(x))
    ensures |Where(s, p)| + |Where(s, q)| == |s|
  {
    if s != [] {
      var s' := s[..|s| - 1];
      assert forall x :: x in s' ==> x in s;
      WhereSplit(s', p, q);
    }
  }

  /** Pigeonhole: a list without duplicates whose elements all occur in b is no longer than b. */
  lemma {:induction false} NoDupSubsetSize<T>(a: seq<T>, b: seq<T>)
    requires NoDup(a) && forall x :: x in a ==> x in b
    ensures |a| <= |b|
  {
    if a != [] {
      var a', x := a[..|a| - 1], a[|a| - 1];
      assert x in a;
      var i :| 0 <= i < |b| && b[i] == x;
      var b' := b[..i] + b[i + 1..];
      forall y | y in a' ensures y in b' {
        var t :| 0 <= t < |a'| && a'[t] == y;
        assert a[t] == y && y in a;
        var u :| 0 <= u < |b| && b[u] == y;
        if u < i {
          assert b'[u] == y;
        } else {
          assert u != i;
          assert b'[u - 1] == y;
        }
      }
      assert NoDup(a') by {
        assert forall t :: 0 <= t < |a'| ==> a'[t] == a[t];
      }
      NoDupSubsetSize(a', b');
    }
  }

  lemma {:induction false} RealSumMinusFrom<T>(s: seq<T>, d: T -> real, a: T -> int, f: T -> real)
    requires forall x :: d(x) == a(x) as real - f(x)
    ensures RealSum(s, d) == Sum(s, a) as real - RealSum(s, f)
  {
    if s != [] {
      RealSumMinusFrom(s[..|s| - 1], d, a, f);
    }
  }

  // ---- the strata and the pre-sample ----

  /** What a stratum of the table knows about itself. */
  lemma StratumFacts(rows: seq<Row>, n: nat, s: Stratum)
    requires rows != [] && s in Strata(rows, n)
    ensures s.count == |Members(rows, s.key)| && 0 <= s.count
    ensures s.alloc == RoundHalfEven(Scale(s.count, Fraction(rows, n))) && 0 <= s.alloc
    ensures n <= |rows| ==> s.alloc <= s.count
  {
    var strata := Strata(rows, n);
    var keys := Distinct(Map(rows, RowKey));
    var i :| 0 <= i < |strata| && strata[i] == s;
    assert s == StratumOf(rows, n, keys[i]);
    AllocationBounds(rows, n, i);
    MembersCount(rows, s.key);
  }

  /** When n <= N every stratum fits, so the pre-sample is taken, with Sum(alloc) rows. */
  lemma PreSampleTaken(rows: seq<Row>, n: nat, picks: seq<seq<nat>>)
    requires rows != [] && n <= |rows| && PreDraws(rows, Strata(rows, n), picks)
    ensures var r := PreSampleOf(rows, Strata(rows, n), picks);
      r.Ok? && |r.value| == Sum(Strata(rows, n), Alloc)
  {
    var strata := Strata(rows, n);
    forall j | 0 <= j < |strata| ensures Fits(rows, strata[j]) {
      StratumFacts(rows, n, strata[j]);
    }
    DrawnWhenAllFit(rows, strata, picks, |strata|);
    DrawnSize(rows, strata, picks, |strata|);
    assert strata[..|strata|] == strata;
  }

  /** A stratum allocated fewer rows than it has. */
  predicate Short(s: Stratum) { s.alloc < s.count }

  /** A stratum allocated at least one row. */
  predicate Allocated(s: Stratum) { s.alloc > 0 }

  /** A stratum's allocation falls short of its exact share by at most half a row, and
      only when it is short; it exceeds the share by at most half a row, and only when it
      is allocated. */
  lemma StratumGap(rows: seq<Row>, n: nat, s: Stratum)
    requires rows != [] && s in Strata(rows, n)
    ensures n <= |rows| ==> Exact(Fraction(rows, n))(s) - s.alloc as real <= if Short(s) then 0.5 else 0.0
    ensures s.alloc as real - Exact(Fraction(rows, n))(s) <= if Allocated(s) then 0.5 else 0.0
  {
    StratumFacts(rows, n, s);
    QuotientNonNegative(n as real, |rows| as real);
    if n <= |rows| {
      QuotientAtMostOne(n, |rows|);
    }
    RoundedGap(s.count, Fraction(rows, n), s.alloc, n <= |rows|);
  }

  /** The gap between c * k and its rounding a, for 0 <= k (and k <= 1 when atMostOne). */
  lemma RoundedGap(c: int, k: real, a: int, atMostOne: bool)
    requires 0 <= c && 0.0 <= k && (atMostOne ==> k <= 1.0) && a == RoundHalfEven(Scale(c, k))
    ensures Scale(c, k) - a as real <= 0.5 && a as real - Scale(c, k) <= 0.5
    ensures atMostOne && c <= a ==> Scale(c, k) - a as real <= 0.0
    ensures a <= 0 ==> a as real - Scale(c, k) <= 0.0
  {
    ScaleBetween(c, k);
  }

  lemma QuotientNonNegative(x: real, y: real)
    requires 0.0 <= x && 0.0 < y
    ensures 0.0 <= x / y
  {
  }

  /** Gaps of at most half a row where p holds and none elsewhere: twice their sum is at
      most the number of strata where p holds. */
  lemma GapCount(strata: seq<Stratum>, d: Stratum -> real, p: Stratum -> bool)
    requires forall s :: s in strata ==> d(s) <= if p(s) then 0.5 else 0.0
    ensures 2.0 * RealSum(strata, d) <= |Where(strata, p)| as real
  {
    RealSumBound(strata, d, p);
    WhereIsFilter(strata, p);
  }

  /** A shortfall of m rows after the pre-sample needs 2m short strata. */
  lemma ShortfallBound(rows: seq<Row>, n: nat)
    requires rows != [] && n <= |rows|
    ensures 2 * (n - Sum(Strata(rows, n), Alloc)) <= |Where(Strata(rows, n), Short)|
  {
    var strata := Strata(rows, n);
    var k := Fraction(rows, n);
    var d := (s: Stratum) => Exact(k)(s) - s.alloc as real;
    forall s | s in strata ensures d(s) <= if Short(s) then 0.5 else 0.0 {
      StratumGap(rows, n, s);
    }
    GapCount(strata, d, Short);
    RealSumMinus(strata, d, Exact(k), Alloc);
    AllocationDrift(rows, n);
  }

  /** An overshoot of m rows after the pre-sample needs 2m allocated strata. */
  lemma OvershootBound(rows: seq<Row>, n: nat)
    requires rows != []
    ensures 2 * (Sum(Strata(rows, n), Alloc) - n) <= |Where(Strata(rows, n), Allocated)|
  {
    var strata := Strata(rows, n);
    var k := Fraction(rows, n);
    var d := (s: Stratum) => s.alloc as real - Exact(k)(s);
    forall s | s in strata ensures d(s) <= if Allocated(s) then 0.5 else 0.0 {
      StratumGap(rows, n, s);
    }
    GapCount(strata, d, Allocated);
    RealSumMinusFrom(strata, d, Alloc, Exact(k));
    AllocationDrift(rows, n);
  }

  // ---- the fill ----

  /** A stratum with fewer rows in the pre-sample than it has has a row outside it. */
  lemma MissedMember(rows: seq<Row>, pre: seq<nat>, k: seq<string>)
    requires |Where(pre, InStratum(rows, k))| < |Members(rows, k)|
    ensures exists x: nat :: x < |rows| && rows[x].key == k && x !in pre
  {
    var mem := Members(rows, k);
    var got := Where(pre, InStratum(rows, k));
    if forall x :: x in mem ==> x in got {
      MembersNoDup(rows, k);
      NoDupSubsetSize(mem, got);
      assert false;
    }
    var x :| x in mem && x !in got;
    WhereMember(Positions(|rows|), InStratum(rows, k), x);
    WhereMember(pre, InStratum(rows, k), x);
  }

  /** A row outside the pre-sample is in o_minus_pre_est_df when no two rows are equal. */
  lemma SpareRow(rows: seq<Row>, pre: seq<nat>, x: nat)
    requires NoDup(rows) && (forall y :: y in pre ==> y < |rows|) && x < |rows| && x !in pre
    ensures RowsOf(rows, Unsampled(rows, pre), rows[x].key) != []
  {
    forall t | 0 <= t < |pre| ensures Map(pre, RowAt(rows))[t] != rows[x] {
      assert pre[t] in pre;
    }
    assert RowAt(rows)(x) == rows[x];
    assert rows[x] !in Map(pre, RowAt(rows));
    assert NotDrawn(rows, pre)(x);
    assert Positions(|rows|)[x] == x;
    WhereMember(Positions(|rows|), NotDrawn(rows, pre), x);
    WhereMember(Unsampled(rows, pre), InStratum(rows, rows[x].key), x);
  }

  /** A short stratum keeps a row outside the pre-sample, as long as no two rows of the
      table are equal (the anti-join compares whole rows). */
  lemma ShortHasRows(rows: seq<Row>, n: nat, picks: seq<seq<nat>>, j: nat)
    requires rows != [] && n <= |rows| && NoDup(rows)
    requires PreDraws(rows, Strata(rows, n), picks)
    requires j < |Strata(rows, n)| && Short(Strata(rows, n)[j])
    ensures PreSampleOf(rows, Strata(rows, n), picks).Ok?
    ensures HasRows(rows, Unsampled(rows, PreSampleOf(rows, Strata(rows, n), picks).value))(Strata(rows, n)[j])
  {
    var strata := Strata(rows, n);
    PreSampleTaken(rows, n, picks);
    StrataDistinct(rows, n);
    var pre := PreSampleOf(rows, strata, picks).value;
    var s := strata[j];
    DrawnOfStratum(rows, strata, picks, |strata|, j);
    DrawnDistinct(rows, strata, picks, |strata|);
    StratumFacts(rows, n, s);
    assert DrawFor(rows, s, picks[j]);
    MissedMember(rows, pre, s.key);
    var x: nat :| x < |rows| && rows[x].key == s.key && x !in pre;
    SpareRow(rows, pre, x);
  }

  /** Every short stratum is in the corrected fill pool. */
  lemma FillPoolSize(rows: seq<Row>, n: nat, picks: seq<seq<nat>>)
    requires rows != [] && n <= |rows| && NoDup(rows)
    requires PreDraws(rows, Strata(rows, n), picks)
    ensures PreSampleOf(rows, Strata(rows, n), picks).Ok?
    ensures |FillPool(rows, Strata(rows, n), PreSampleOf(rows, Strata(rows, n), picks).value, true)|
         >= |Where(Strata(rows, n), Short)|
  {
    var strata := Strata(rows, n);
    PreSampleTaken(rows, n, picks);
    var pre := PreSampleOf(rows, strata, picks).value;
    forall s | s in strata && Short(s) ensures HasRows(rows, Unsampled(rows, pre))(s) {
      var j :| 0 <= j < |strata| && strata[j] == s;
      ShortHasRows(rows, n, picks, j);
    }
    WhereMonotone(strata, Short, HasRows(rows, Unsampled(rows, pre)));
  }

  /** With at least m strata in the pool, the ascending walk admits at least m of them. */
  lemma FillEnough(rows: seq<Row>, strata: seq<Stratum>, pre: seq<nat>, m: int)
    requires |FillPool(rows, strata, pre, true)| >= m
    ensures |FillEligible(rows, strata, pre, m, true)| >= m
  {
    var pool := FillPool(rows, strata, pre, true);
    var sizes := SortedDistinct(Map(pool, Alloc));
    IncreasingNoDup(sizes);
    forall s | s in pool ensures s.alloc in sizes {
      var i :| 0 <= i < |pool| && pool[i] == s;
      assert Map(pool, Alloc)[i] == s.alloc;
    }
    WalkEnough(pool, sizes, m);
  }

  /** One row is drawn from each chosen stratum as long as each has a row in the frame;
      the row drawn for a stratum is one of its rows in the frame. */
  lemma {:induction false} OnePerStratumOk(rows: seq<Row>, frame: seq<nat>, chosen: seq<Stratum>, picks: seq<nat>, j: nat)
    requires j <= |chosen| == |picks|
    requires forall i :: 0 <= i < j ==> RowsOf(rows, frame, chosen[i].key) != []
    ensures var r := OnePerStratum(rows, frame, chosen, picks, j);
      && r.Ok? && |r.value| == j
      && forall i :: 0 <= i < j ==> r.value[i] in RowsOf(rows, frame, chosen[i].key)
  {
    if j > 0 {
      OnePerStratumOk(rows, frame, chosen, picks, j - 1);
    }
  }

  /** At least as many strata are eligible for the corrected fill as rows are missing. */
  lemma FillHasEnough(rows: seq<Row>, n: nat, picks: seq<seq<nat>>, strata: seq<Stratum>, pre: seq<nat>, m: nat)
    requires rows != [] && n <= |rows| && NoDup(rows) && PreDraws(rows, Strata(rows, n), picks)
    requires strata == Strata(rows, n) && PreSampleOf(rows, strata, picks) == Ok(pre) && m == n - |pre|
    ensures |FillEligible(rows, strata, pre, m, true)| >= m
  {
    PreSampleTaken(rows, n, picks);
    ShortfallBound(rows, n);
    FillPoolSize(rows, n, picks);
    ShortfallCovered(|pre|, Sum(strata, Alloc), n, |Where(strata, Short)|, |FillPool(rows, strata, pre, true)|, m);
    FillEnough(rows, strata, pre, m);
  }

  /** The arithmetic that joins the bounds: a shortfall at most half the short strata is
      covered by a pool at least as large as those strata. */
  lemma ShortfallCovered(taken: int, alloc: int, n: int, short: int, pool: int, m: int)
    requires taken == alloc && 2 * (n - alloc) <= short && pool >= short && m == n - taken && m >= 0
    ensures pool >= m
  {
  }

  /** Every stratum the corrected fill draws has a row outside the pre-sample, so one row
      is taken from each. */
  lemma FillDrawsSpare(rows: seq<Row>, strata: seq<Stratum>, pre: seq<nat>, m: nat, choice: seq<nat>, picks: seq<nat>)
    requires IsDraw(choice, |FillEligible(rows, strata, pre, m, true)|, m) && |picks| == |choice|
    ensures var chosen := Select(FillEligible(rows, strata, pre, m, true), choice);
      var r := OnePerStratum(rows, Unsampled(rows, pre), chosen, picks, m);
      r.Ok? && |r.value| == m
  {
    var pool := FillPool(rows, strata, pre, true);
    var eligible := FillEligible(rows, strata, pre, m, true);
    var chosen := Select(eligible, choice);
    var spare := Unsampled(rows, pre);
    forall i | 0 <= i < m ensures RowsOf(rows, spare, chosen[i].key) != [] {
      var vs := AuxValues(ValueCounts(pool), m);
      WhereMember(pool, Chosen(vs), chosen[i]);
      WhereMember(strata, HasRows(rows, spare), chosen[i]);
    }
    OnePerStratumOk(rows, spare, chosen, picks, m);
  }

  /** The corrected fill is taken and brings the sample to n rows. */
  lemma FillSize(rows: seq<Row>, n: nat, picks: seq<seq<nat>>, strata: seq<Stratum>, pre: seq<nat>,
                 m: nat, choice: seq<nat>, rowPicks: seq<nat>)
    requires rows != [] && n <= |rows| && NoDup(rows) && PreDraws(rows, Strata(rows, n), picks)
    requires strata == Strata(rows, n) && PreSampleOf(rows, strata, picks) == Ok(pre)
    requires m == n - |pre| && |rowPicks| == |choice|
    requires |FillEligible(rows, strata, pre, m, true)| >= m ==> IsDraw(choice, |FillEligible(rows, strata, pre, m, true)|, m)
    ensures FillOf(rows, strata, pre, m, choice, rowPicks, true).Ok?
    ensures |FillOf(rows, strata, pre, m, choice, rowPicks, true).value| == n
  {
    FillHasEnough(rows, n, picks, strata, pre, m);
    FillDrawsSpare(rows, strata, pre, m, choice, rowPicks);
  }

  // ---- the removal ----

  /** The allocation sizes in descending order: the rows of d_auxiliar_df. */
  function DescendingSizes(strata: seq<Stratum>): seq<int>
  {
    Reversed(SortedDistinct(Map(strata, Alloc)))
  }

  /** d_auxiliar_df lists every allocation size once, in descending order. */
  lemma DescendingLevels(strata: seq<Stratum>)
    ensures Reversed(ValueCounts(strata)) == Map(DescendingSizes(strata), LevelOf(strata))
    ensures NoDup(DescendingSizes(strata))
    ensures forall s :: s in strata ==> s.alloc in DescendingSizes(strata)
  {
    var sizes := SortedDistinct(Map(strata, Alloc));
    ReversedMap(sizes, LevelOf(strata));
    IncreasingNoDup(sizes);
    forall s | s in strata ensures s.alloc in DescendingSizes(strata) {
      var i :| 0 <= i < |strata| && strata[i] == s;
      assert Map(strata, Alloc)[i] == s.alloc;
      assert s.alloc in sizes;
      var j :| 0 <= j < |sizes| && sizes[j] == s.alloc;
      assert DescendingSizes(strata)[|sizes| - 1 - j] == s.alloc;
    }
  }

  /** With at least m strata, the descending walk admits at least m of them. */
  lemma RemoveEnough(strata: seq<Stratum>, m: int)
    requires |strata| >= m
    ensures |RemoveEligible(strata, m)| >= m
  {
    DescendingLevels(strata);
    WalkEnough(strata, DescendingSizes(strata), m);
  }

  /** Every descending size but the last is positive. */
  lemma DescendingPositive(strata: seq<Stratum>, i: nat)
    requires forall s :: s in strata ==> s.alloc >= 0
    requires i < |DescendingSizes(strata)| - 1
    ensures DescendingSizes(strata)[i] > 0
  {
    var sizes := SortedDistinct(Map(strata, Alloc));
    assert sizes[0] in Map(strata, Alloc);
    var t :| 0 <= t < |strata| && Map(strata, Alloc)[t] == sizes[0];
    assert strata[t] in strata;
    assert DescendingSizes(strata)[i] == sizes[|sizes| - 1 - i];
  }

  /** When at least m >= 1 strata are allocated rows and some stratum none, the
      descending walk stops before the size 0. */
  lemma WalkBeforeZero(strata: seq<Stratum>, m: int)
    requires 0 < m <= |Where(strata, Allocated)|
    ensures var sizes := DescendingSizes(strata);
      sizes != [] && sizes[|sizes| - 1] == 0 ==> WalkStop(Map(sizes, LevelOf(strata)), m) < |sizes|
  {
    var sizes := DescendingSizes(strata);
    var levels := Map(sizes, LevelOf(strata));
    if sizes != [] && sizes[|sizes| - 1] == 0 {
      DescendingLevels(strata);
      WalkStopSpec(levels, m);
      AllocatedCounted(strata, sizes);
    }
  }

  /** A prefix of the descending sizes that leaves out a trailing size 0 holds no 0. */
  lemma PrefixNonZero(strata: seq<Stratum>, w: nat)
    requires forall s :: s in strata ==> s.alloc >= 0
    requires w <= |DescendingSizes(strata)|
    requires 0 < w == |DescendingSizes(strata)| ==> DescendingSizes(strata)[w - 1] != 0
    ensures forall v :: v in DescendingSizes(strata)[..w] ==> v != 0
  {
    var sizes := DescendingSizes(strata);
    forall v | v in sizes[..w] ensures v != 0 {
      var i :| 0 <= i < w && sizes[..w][i] == v;
      if i < |sizes| - 1 {
        DescendingPositive(strata, i);
      }
    }
  }

  /** When at least m >= 1 strata are allocated rows, the descending walk admits only
      strata allocated some. */
  lemma DescendingWalkSkipsZero(strata: seq<Stratum>, m: int)
    requires forall s :: s in strata ==> s.alloc >= 0
    requires 0 < m <= |Where(strata, Allocated)|
    ensures forall s :: s in RemoveEligible(strata, m) ==> s.alloc > 0
  {
    var sizes := DescendingSizes(strata);
    var levels := Map(sizes, LevelOf(strata));
    DescendingLevels(strata);
    var w := WalkStop(levels, m);
    LevelsPrefix(strata, sizes, w);
    WalkBeforeZero(strata, m);
    PrefixNonZero(strata, w);
    forall s | s in RemoveEligible(strata, m) ensures s.alloc > 0 {
      WhereMember(strata, Chosen(sizes[..w]), s);
    }
  }

  /** When the last descending size is 0, the sizes before it cover every allocated stratum. */
  lemma AllocatedCounted(strata: seq<Stratum>, sizes: seq<int>)
    requires sizes == DescendingSizes(strata) && sizes != [] && sizes[|sizes| - 1] == 0
    requires forall s :: s in strata ==> s.alloc in sizes
    requires NoDup(sizes)
    ensures |Where(strata, Allocated)| <= Sum(Map(sizes, LevelOf(strata))[..|sizes| - 1], LevelCount)
  {
    var k := |sizes| - 1;
    var vs := sizes[..k];
    forall s | s in strata && Allocated(s) ensures Chosen(vs)(s) {
      var i :| 0 <= i < |sizes| && sizes[i] == s.alloc;
      assert i != k;
      assert vs[i] == s.alloc;
    }
    WhereMonotone(strata, Allocated, Chosen(vs));
    assert NoDup(vs) by {
      assert forall i :: 0 <= i < k ==> vs[i] == sizes[i];
    }
    EligibleSize(strata, vs);
    LevelsPrefix(strata, sizes, k);
  }

  /** A filter of strata with distinct keys has distinct keys. */
  lemma {:induction false} WhereKeysDistinct(s: seq<Stratum>, p: Stratum -> bool)
    requires NoDup(Map(s, StratumKey))
    ensures NoDup(Map(Where(s, p), StratumKey))
  {
    if s != [] {
      var s', x := s[..|s| - 1], s[|s| - 1];
      assert NoDup(Map(s', StratumKey)) by {
        assert forall i :: 0 <= i < |s'| ==> Map(s', StratumKey)[i] == Map(s, StratumKey)[i];
      }
      WhereKeysDistinct(s', p);
      var w := Where(s', p);
      if p(x) {
        forall i | 0 <= i < |w| ensures w[i].key != x.key {
          assert w[i] in w;
          WhereMember(s', p, w[i]);
          var t :| 0 <= t < |s'| && s'[t] == w[i];
          assert Map(s, StratumKey)[t] == w[i].key;
          assert Map(s, StratumKey)[|s| - 1] == x.key;
        }
        MapAppend(w, x, StratumKey);
      }
    }
  }

  /** The rows removed come from distinct strata, so they are distinct rows of the
      pre-sample. */
  lemma RemovedDistinct(rows: seq<Row>, pre: seq<nat>, eligible: seq<Stratum>, choice: seq<nat>, picks: seq<nat>, removed: seq<nat>)
    requires NoDup(Map(eligible, StratumKey))
    requires IsDraw(choice, |eligible|, |choice|) && |picks| == |choice| && |removed| == |choice|
    requires forall i :: 0 <= i < |removed| ==> removed[i] in RowsOf(rows, pre, Select(eligible, choice)[i].key)
    ensures NoDup(removed) && forall x :: x in removed ==> x in pre
  {
    var chosen := Select(eligible, choice);
    forall x | x in removed ensures x in pre {
      var i :| 0 <= i < |removed| && removed[i] == x;
      WhereMember<nat>(pre, InStratum(rows, chosen[i].key), x);
    }
    forall i, j | 0 <= i < j < |removed| ensures removed[i] != removed[j] {
      WhereMember<nat>(pre, InStratum(rows, chosen[i].key), removed[i]);
      WhereMember<nat>(pre, InStratum(rows, chosen[j].key), removed[j]);
      assert Map(eligible, StratumKey)[choice[i]] == chosen[i].key;
      assert Map(eligible, StratumKey)[choice[j]] == chosen[j].key;
    }
  }

  /** The anti-join on whole rows drops exactly the removed labels when no two rows of the
      table are equal. */
  lemma AntiJoinSize(rows: seq<Row>, pre: seq<nat>, removed: seq<nat>)
    requires NoDup(rows) && NoDup(pre) && NoDup(removed)
    requires forall x :: x in pre ==> x < |rows|
    requires forall x :: x in removed ==> x in pre
    ensures |Where(pre, NotDrawn(rows, removed))| == |pre| - |removed|
  {
    var gone := (x: nat) => x in removed;
    forall x | x in pre ensures gone(x) <==> !NotDrawn(rows, removed)(x) {
      assert RowAt(rows)(x) == rows[x];
      if x in removed {
        var t :| 0 <= t < |removed| && removed[t] == x;
        assert Map(removed, RowAt(rows))[t] == rows[x];
      } else {
        forall t | 0 <= t < |removed| ensures Map(removed, RowAt(rows))[t] != rows[x] {
          assert removed[t] in removed;
        }
      }
    }
    WhereSplit(pre, NotDrawn(rows, removed), gone);
    var hit := Where(pre, gone);
    WhereIsFilter(pre, gone);
    FilterNoDup(pre, gone);
    NoDupSubsetSize(hit, removed);
    forall x | x in removed ensures x in hit {
      WhereMember(pre, gone, x);
    }
    NoDupSubsetSize(removed, hit);
  }

  /** For strata with distinct keys, each eligible one with a row in the pre-sample, the
      removal takes m distinct rows out of a pre-sample without duplicates. */
  lemma RemovalTaken(rows: seq<Row>, strata: seq<Stratum>, pre: seq<nat>, m: nat, choice: seq<nat>, picks: seq<nat>)
    requires NoDup(rows) && NoDup(pre) && (forall x :: x in pre ==> x < |rows|)
    requires NoDup(Map(strata, StratumKey))
    requires |RemoveEligible(strata, m)| >= m && IsDraw(choice, |RemoveEligible(strata, m)|, m) && |picks| == m
    requires forall s :: s in RemoveEligible(strata, m) ==> RowsOf(rows, pre, s.key) != []
    ensures var r := RemoveOf(rows, strata, pre, m, choice, picks);
      r.Ok? && |r.value| == |pre| - m
  {
    var eligible := RemoveEligible(strata, m);
    var chosen := Select(eligible, choice);
    forall i | 0 <= i < m ensures RowsOf(rows, pre, chosen[i].key) != [] {
      assert chosen[i] == eligible[choice[i]];
      assert chosen[i] in eligible;
    }
    OnePerStratumOk(rows, pre, chosen, picks, m);
    var removed := OnePerStratum(rows, pre, chosen, picks, m).value;
    WhereKeysDistinct(strata, Chosen(AuxValues(Reversed(ValueCounts(strata)), m)));
    RemovedDistinct(rows, pre, eligible, choice, picks, removed);
    AntiJoinSize(rows, pre, removed);
  }

  /** The removal admits enough strata, and each of them has a row in the pre-sample. */
  lemma RemovalHasRows(rows: seq<Row>, n: nat, picks: seq<seq<nat>>, m: int)
    requires rows != [] && n <= |rows| && PreDraws(rows, Strata(rows, n), picks)
    requires PreSampleOf(rows, Strata(rows, n), picks).Ok?
    requires m == |PreSampleOf(rows, Strata(rows, n), picks).value| - n && m > 0
    ensures PreSampleOf(rows, Strata(rows, n), picks).Ok?
    ensures |RemoveEligible(Strata(rows, n), m)| >= m
    ensures forall s :: s in RemoveEligible(Strata(rows, n), m) ==>
      RowsOf(rows, PreSampleOf(rows, Strata(rows, n), picks).value, s.key) != []
  {
    var strata := Strata(rows, n);
    PreSampleTaken(rows, n, picks);
    OvershootBound(rows, n);
    WhereIsFilter(strata, Allocated);
    RemoveEnough(strata, m);
    forall s | s in strata ensures s.alloc >= 0 {
      StratumFacts(rows, n, s);
    }
    DescendingWalkSkipsZero(strata, m);
    forall s | s in RemoveEligible(strata, m)
      ensures RowsOf(rows, PreSampleOf(rows, strata, picks).value, s.key) != []
    {
      WhereMember(strata, Chosen(AuxValues(Reversed(ValueCounts(strata)), m)), s);
      AllocatedInPreSample(rows, n, picks, s);
    }
  }

  /** The pre-sample is taken and holds distinct labels of the table; the strata have distinct keys. */
  lemma PreSampleFacts(rows: seq<Row>, n: nat, picks: seq<seq<nat>>)
    requires rows != [] && n <= |rows| && PreDraws(rows, Strata(rows, n), picks)
    ensures PreSampleOf(rows, Strata(rows, n), picks).Ok?
    ensures var pre := PreSampleOf(rows, Strata(rows, n), picks).value;
      NoDup(pre) && forall x :: x in pre ==> x < |rows|
    ensures NoDup(Map(Strata(rows, n), StratumKey))
  {
    var strata := Strata(rows, n);
    PreSampleTaken(rows, n, picks);
    StrataKeys(rows, n);
    StrataDistinct(rows, n);
    DrawnDistinct(rows, strata, picks, |strata|);
  }

  /** An overshooting pre-sample: the removal is taken and brings the sample to n rows,
      whenever the draws of the removal are valid. */
  lemma RemoveSize(rows: seq<Row>, n: nat, picks: seq<seq<nat>>, strata: seq<Stratum>, pre: seq<nat>,
                   m: nat, choice: seq<nat>, rowPicks: seq<nat>)
    requires rows != [] && n <= |rows| && NoDup(rows) && PreDraws(rows, Strata(rows, n), picks)
    requires strata == Strata(rows, n) && PreSampleOf(rows, strata, picks) == Ok(pre)
    requires m == |pre| - n && m > 0 && |rowPicks| == |choice|
    requires |RemoveEligible(strata, m)| >= m ==> IsDraw(choice, |RemoveEligible(strata, m)|, m)
    ensures RemoveOf(rows, strata, pre, m, choice, rowPicks).Ok?
    ensures |RemoveOf(rows, strata, pre, m, choice, rowPicks).value| == n
  {
    PreSampleFacts(rows, n, picks);
    RemovalHasRows(rows, n, picks, m);
    RemovalTaken(rows, strata, pre, m, choice, rowPicks);
  }

  /** An eligible stratum of the removal was allocated rows, so it has rows in the pre-sample. */
  lemma AllocatedInPreSample(rows: seq<Row>, n: nat, picks: seq<seq<nat>>, s: Stratum)
    requires rows != [] && n <= |rows| && PreDraws(rows, Strata(rows, n), picks)
    requires s in Strata(rows, n) && s.alloc > 0
    ensures PreSampleOf(rows, Strata(rows, n), picks).Ok?
    ensures RowsOf(rows, PreSampleOf(rows, Strata(rows, n), picks).value, s.key) != []
  {
    var strata := Strata(rows, n);
    PreSampleTaken(rows, n, picks);
    StrataDistinct(rows, n);
    var j :| 0 <= j < |strata| && strata[j] == s;
    DrawnOfStratum(rows, strata, picks, |strata|, j);
    StratumFacts(rows, n, s);
    assert DrawFor(rows, s, picks[j]);
  }

  // ---- the size of the sample ----

  /** A short pre-sample is filled to n rows. */
  lemma FilledSample(rows: seq<Row>, n: nat, d: Draws)
    requires rows != [] && n <= |rows| && NoDup(rows) && ValidDraws(rows, n, d, true)
    requires PreSampleOf(rows, Strata(rows, n), d.pre).Ok?
    requires |PreSampleOf(rows, Strata(rows, n), d.pre).value| < n
    ensures SampleOf(rows, n, d, true).Ok? && |SampleOf(rows, n, d, true).value| == n
  {
    var strata := Strata(rows, n);
    var pre := PreSampleOf(rows, strata, d.pre).value;
    assert CorrectionDraws(rows, strata, pre, n, d, true);
    var m := n - |pre|;
    FillSize(rows, n, d.pre, strata, pre, m, d.strata, d.rows);
    assert CorrectionOf(rows, strata, pre, n, d, true) == FillOf(rows, strata, pre, m, d.strata, d.rows, true);
  }

  /** An overshooting pre-sample is cut to n rows. */
  lemma CutSample(rows: seq<Row>, n: nat, d: Draws)
    requires rows != [] && n <= |rows| && NoDup(rows) && ValidDraws(rows, n, d, true)
    requires PreSampleOf(rows, Strata(rows, n), d.pre).Ok?
    requires |PreSampleOf(rows, Strata(rows, n), d.pre).value| > n
    ensures SampleOf(rows, n, d, true).Ok? && |SampleOf(rows, n, d, true).value| == n
  {
    var strata := Strata(rows, n);
    var pre := PreSampleOf(rows, strata, d.pre).value;
    assert CorrectionDraws(rows, strata, pre, n, d, true);
    var m := |pre| - n;
    RemoveSize(rows, n, d.pre, strata, pre, m, d.strata, d.rows);
    assert CorrectionOf(rows, strata, pre, n, d, true) == RemoveOf(rows, strata, pre, m, d.strata, d.rows);
  }

  /** For n <= N and a table without two equal rows, the corrected stratified sample is
      always taken, whatever the random draws, and holds exactly n rows. */
  lemma SampleHasSize(rows: seq<Row>, n: nat, d: Draws)
    requires rows != [] && n <= |rows| && NoDup(rows) && ValidDraws(rows, n, d, true)
    ensures SampleOf(rows, n, d, true).Ok? && |SampleOf(rows, n, d, true).value| == n
  {
    PreSampleTaken(rows, n, d.pre);
    var pre := PreSampleOf(rows, Strata(rows, n), d.pre).value;
    if |pre| < n {
      FilledSample(rows, n, d);
    } else if |pre| > n {
      CutSample(rows, n, d);
    }
  }
}
