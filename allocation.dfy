/** Proportional stratified sampling of an uploaded table (pages/1_Sampling.py):
    every stratum, a distinct combination of the chosen parameter columns, gets the
    rounded share round(count / N * n) of the sample size n; the strata are sampled
    without replacement, and the rounding drift is then corrected one row per stratum,
    adding rows from the strata with the smallest allocations or removing rows from the
    strata with the largest ones. The random draws are supplied by the caller. */
module Allocation {
  import opened Numeric
  import opened Tables

  /** A row of the uploaded table: the values of the parameter columns that define the
      strata, and the values of its other columns. Rows compare by all their values. */
  datatype Row = Row(key: seq<string>, rest: seq<string>)

  function RowKey(r: Row): seq<string> { r.key }
  function RowOne(r: Row): int { 1 }

  /** One row of w_pivot_df: a stratum, its row count, its weight in millionths
      (np.round(count / N * 100, 4) percent) and its allocation. */
  datatype Stratum = Stratum(key: seq<string>, count: int, weight: int, alloc: int)

  function StratumKey(s: Stratum): seq<string> { s.key }
  function Count(s: Stratum): int { s.count }
  function Alloc(s: Stratum): int { s.alloc }
  function StratumOne(s: Stratum): int { 1 }

  /** The number of rows of key k (the Count column of groupby(...).size()). */
  function StratumSize(rows: seq<Row>, k: seq<string>): int { KeySum(rows, RowKey, k, RowOne) }

  function SizeIn(rows: seq<Row>): seq<string> -> int { k => StratumSize(rows, k) }

  /** The fraction n / N of every stratum that goes into the sample. */
  function Fraction(rows: seq<Row>, n: nat): real
    requires rows != []
  {
    n as real / |rows| as real
  }

  function StratumOf(rows: seq<Row>, n: nat, k: seq<string>): Stratum
    requires rows != []
  {
    var c := StratumSize(rows, k);
    Stratum(k, c, RoundQuotient(c * 1000000, |rows|), RoundHalfEven(Scale(c, Fraction(rows, n))))
  }

  /** w_pivot_df: one row per stratum, in order of first appearance. */
  function Strata(rows: seq<Row>, n: nat): seq<Stratum>
    requires rows != []
  {
    Map(Distinct(Map(rows, RowKey)), k => StratumOf(rows, n, k))
  }

  /** The exact, unrounded share count * n / N of a stratum. */
  function Exact(k: real): Stratum -> real { (s: Stratum) => Scale(s.count, k) }

  // ---- generic facts about sums ----

  lemma {:induction false} KeysSumIsSum<T, K>(s: seq<T>, key: T -> K, ks: seq<K>, g: T -> int, h: K -> int)
    requires forall k :: h(k) == KeySum(s, key, k, g)
    ensures KeysSum(s, key, ks, g) == Sum(ks, h)
  {
    if ks != [] {
      KeysSumIsSum(s, key, ks[..|ks| - 1], g, h);
    }
  }

  lemma {:induction false} SumOfOnes<T>(s: seq<T>, f: T -> int)
    requires forall x :: f(x) == 1
    ensures Sum(s, f) == |s|
  {
    if s != [] {
      SumOfOnes(s[..|s| - 1], f);
    }
  }

  lemma {:induction false} KeySumNonNegative<T, K>(s: seq<T>, key: T -> K, k: K, g: T -> int)
    requires forall x :: g(x) >= 0
    ensures KeySum(s, key, k, g) >= 0
  {
    if s != [] {
      KeySumNonNegative(s[..|s| - 1], key, k, g);
    }
  }

  lemma {:induction false} RealSumPointwise<T, U>(a: seq<T>, f: T -> real, b: seq<U>, g: U -> real)
    requires |a| == |b| && forall i :: 0 <= i < |a| ==> f(a[i]) == g(b[i])
    ensures RealSum(a, f) == RealSum(b, g)
  {
    if a != [] {
      RealSumPointwise(a[..|a| - 1], f, b[..|b| - 1], g);
    }
  }

  /** A sum of terms each at most 1/2 where p holds and at most 0 elsewhere is at most
      half the number of terms where p holds. */
  lemma {:induction false} RealSumBound<T(!new)>(s: seq<T>, d: T -> real, p: T -> bool)
    requires forall x :: x in s ==> d(x) <= (if p(x) then 0.5 else 0.0)
    ensures 2.0 * RealSum(s, d) <= |Filter(s, p)| as real
  {
    if s != [] {
      var s', x := s[..|s| - 1], s[|s| - 1];
      assert s == s' + [x];
      RealSumBound(s', d, p);
    }
  }

  lemma QuotientAtMostOne(n: nat, m: nat)
    requires 0 < m && n <= m
    ensures 0.0 <= n as real / m as real <= 1.0
  {
  }

  /** Summing differences term by term. */
  lemma {:induction false} RealSumMinus<T>(s: seq<T>, d: T -> real, f: T -> real, a: T -> int)
    requires forall x :: d(x) == f(x) - a(x) as real
    ensures RealSum(s, d) == RealSum(s, f) - Sum(s, a) as real
  {
    if s != [] {
      RealSumMinus(s[..|s| - 1], d, f, a);
    }
  }

  // ---- the allocation ----

  /** The strata list every key of the table once, and each Count is its number of rows. */
  lemma StrataKeys(rows: seq<Row>, n: nat)
    requires rows != []
    ensures Map(Strata(rows, n), StratumKey) == Distinct(Map(rows, RowKey))
    ensures NoDup(Map(Strata(rows, n), StratumKey))
    ensures forall k :: k in Map(Strata(rows, n), StratumKey) <==> exists r :: r in rows && r.key == k
    ensures forall i :: 0 <= i < |Strata(rows, n)| ==> Strata(rows, n)[i].count == StratumSize(rows, Strata(rows, n)[i].key)
  {
    var s := Strata(rows, n);
    var keys := Distinct(Map(rows, RowKey));
    assert Map(s, StratumKey) == keys;
    forall k | k in keys ensures exists r :: r in rows && r.key == k {
      var j :| 0 <= j < |rows| && Map(rows, RowKey)[j] == k;
      assert rows[j] in rows;
    }
    forall k | exists r :: r in rows && r.key == k ensures k in keys {
      var r :| r in rows && r.key == k;
      var j :| 0 <= j < |rows| && rows[j] == r;
      assert Map(rows, RowKey)[j] == k;
    }
  }

  /** The counts of the strata add up to N. */
  lemma StrataCover(rows: seq<Row>, n: nat)
    requires rows != []
    ensures Sum(Strata(rows, n), Count) == |rows|
    ensures Sum(Distinct(Map(rows, RowKey)), SizeIn(rows)) == |rows|
  {
    var keys := Distinct(Map(rows, RowKey));
    KeysSumIsSum(rows, RowKey, keys, RowOne, SizeIn(rows));
    DistinctKeysSum(rows, RowKey, RowOne);
    SumOfOnes(rows, RowOne);
    SumPointwise(Strata(rows, n), Count, keys, SizeIn(rows));
  }

  /** The exact shares of the strata add up to n, and the rounded allocations stay within
      half a row per stratum of n: |aux_eval| <= (number of strata) / 2. */
  lemma AllocationDrift(rows: seq<Row>, n: nat)
    requires rows != []
    ensures var s := Strata(rows, n);
      && RealSum(s, Exact(Fraction(rows, n))) == n as real
      && n as real - |s| as real / 2.0 <= Sum(s, Alloc) as real <= n as real + |s| as real / 2.0
  {
    var s := Strata(rows, n);
    var keys := Distinct(Map(rows, RowKey));
    var k := Fraction(rows, n);
    StrataCover(rows, n);
    ShareDrift(keys, SizeIn(rows), n);
    forall i | 0 <= i < |s| ensures Alloc(s[i]) == Rounded(SizeIn(rows), k)(keys[i]) {
      assert s[i] == StratumOf(rows, n, keys[i]);
    }
    SumPointwise(s, Alloc, keys, Rounded(SizeIn(rows), k));
    forall i | 0 <= i < |s| ensures Exact(k)(s[i]) == Scaled(SizeIn(rows), k)(keys[i]) {
      assert s[i] == StratumOf(rows, n, keys[i]);
    }
    RealSumPointwise(s, Exact(k), keys, Scaled(SizeIn(rows), k));
  }

  /** Every allocation is at least 0, and at most the stratum's count when n <= N. */
  lemma AllocationBounds(rows: seq<Row>, n: nat, i: nat)
    requires rows != [] && i < |Strata(rows, n)|
    ensures var s := Strata(rows, n)[i];
      && 0 <= s.count && 0 <= s.alloc
      && (n <= |rows| ==> s.alloc <= s.count)
  {
    var keys := Distinct(Map(rows, RowKey));
    var s := Strata(rows, n)[i];
    assert s == StratumOf(rows, n, keys[i]);
    KeySumNonNegative(rows, RowKey, s.key, RowOne);
    if n <= |rows| {
      QuotientAtMostOne(n, |rows|);
    }
    RoundedShare(s.count, Fraction(rows, n));
  }

  /** A non-negative count times a fraction rounds to between 0 and the count. */
  lemma RoundedShare(c: int, k: real)
    requires 0 <= c && 0.0 <= k
    ensures 0 <= RoundHalfEven(Scale(c, k))
    ensures k <= 1.0 ==> RoundHalfEven(Scale(c, k)) <= c
  {
    ScaleBetween(c, k);
    RoundAtLeastZero(Scale(c, k));
    if k <= 1.0 {
      RoundAtMost(Scale(c, k), c);
    }
  }

  // ---- pre-sampling without replacement ----

  /** Why a draw raises: sample(n) of a frame with fewer than n rows. */
  datatype DrawError =
    | LargerThanStratum(key: seq<string>)      // the pre-sample of one stratum
    | TooFewStrata(wanted: int, available: int) // the strata drawn for the correction
    | EmptyStratum(key: seq<string>)            // the single row drawn from a stratum

  datatype Drawn<T> = Ok(value: T) | Raises(error: DrawError)

  /** 0, 1, ..., n - 1: the index labels of a table of n rows. */
  function Positions(n: nat): (r: seq<nat>)
    ensures |r| == n && forall i :: 0 <= i < n ==> r[i] == i
  {
    seq(n, i => i)
  }

  function InStratum(rows: seq<Row>, k: seq<string>): nat -> bool
  {
    (i: nat) => i < |rows| && rows[i].key == k
  }

  function NotIn(s: seq<nat>): nat -> bool { (i: nat) => i !in s }

  /** The elements of s that satisfy p, in order: the .loc[mask] lookups of the loops.
      It is Filter again, built from the back as the loops build their results, and without
      Filter's contracts, so that unfolding it in the loop proofs stays cheap; WhereIsFilter
      shows that the two agree. */
  function Where<T>(s: seq<T>, p: T -> bool): seq<T>
  {
    if s == [] then []
    else
      var w := Where(s[..|s| - 1], p);
      if p(s[|s| - 1]) then w + [s[|s| - 1]] else w
  }

  lemma {:induction false} WhereIsFilter<T(!new)>(s: seq<T>, p: T -> bool)
    ensures Where(s, p) == Filter(s, p)
  {
    if s != [] {
      WhereIsFilter(s[..|s| - 1], p);
    }
  }

  /** Only the first element passes p: Where keeps just that one. */
  lemma {:induction false} WhereOnlyFirst<T>(s: seq<T>, p: T -> bool)
    requires s != [] && p(s[0])
    requires forall i :: 1 <= i < |s| ==> !p(s[i])
    ensures Where(s, p) == [s[0]]
  {
    var s' := s[..|s| - 1];
    if |s| == 1 {
      assert s' == [];
    } else {
      forall i | 1 <= i < |s'| ensures !p(s'[i]) {
        assert s'[i] == s[i];
      }
      WhereOnlyFirst(s', p);
    }
  }

  /** The index labels of the rows of stratum k. */
  function Members(rows: seq<Row>, k: seq<string>): seq<nat>
  {
    Where(Positions(|rows|), InStratum(rows, k))
  }

  /** m distinct positions below size: what sample(n=m) of a frame of that size picks. */
  predicate IsDraw(picks: seq<nat>, size: nat, m: int)
  {
    |picks| == m && NoDup(picks) && forall j :: 0 <= j < |picks| ==> picks[j] < size
  }

  /** The labels of s at the chosen positions, in the order chosen (a position past the
      end, which no draw holds, stands for label 0). */
  function Pick(s: seq<nat>, picks: seq<nat>): (r: seq<nat>)
    ensures |r| == |picks| && forall j :: 0 <= j < |picks| && picks[j] < |s| ==> r[j] == s[picks[j]]
  {
    seq(|picks|, j requires 0 <= j < |picks| => if picks[j] < |s| then s[picks[j]] else 0)
  }

  /** sample(n=alloc) of the stratum's rows can be taken. */
  predicate Fits(rows: seq<Row>, s: Stratum)
  {
    0 <= s.alloc <= |Members(rows, s.key)|
  }

  /** The caller's random draws for the pre-sample: for every stratum whose allocation
      fits, that many distinct positions among its rows. */
  predicate PreDraws(rows: seq<Row>, strata: seq<Stratum>, picks: seq<seq<nat>>)
  {
    && |picks| == |strata|
    && forall i {:trigger DrawFor(rows, strata[i], picks[i])} :: 0 <= i < |strata| ==> DrawFor(rows, strata[i], picks[i])
  }

  /** The draw for one stratum: distinct positions among its rows, as many as its
      allocation, whenever the allocation fits. */
  predicate DrawFor(rows: seq<Row>, s: Stratum, pick: seq<nat>)
  {
    Fits(rows, s) ==> IsDraw(pick, |Members(rows, s.key)|, s.alloc)
  }

  /** The rows of every stratum, as index labels. */
  function StratumFrames(rows: seq<Row>, strata: seq<Stratum>): (r: seq<seq<nat>>)
    ensures |r| == |strata| && forall i :: 0 <= i < |strata| ==> r[i] == Members(rows, strata[i].key)
  {
    Map(strata, (s: Stratum) => Members(rows, s.key))
  }

  /** pre_est_samp_df after the first i strata, as index labels of the table: each
      stratum's drawn rows in turn; the first stratum too small for its allocation raises. */
  function DrawFrames(frames: seq<seq<nat>>, strata: seq<Stratum>, picks: seq<seq<nat>>, i: nat): Drawn<seq<nat>>
    requires i <= |strata| && |frames| == |strata| && |picks| == |strata|
  {
    if i == 0 then Ok([])
    else
      match DrawFrames(frames, strata, picks, i - 1)
      case Raises(e) => Raises(e)
      case Ok(acc) =>
        if !(0 <= strata[i - 1].alloc <= |frames[i - 1]|) then Raises(LargerThanStratum(strata[i - 1].key))
        else Ok(acc + Pick(frames[i - 1], picks[i - 1]))
  }

  /** The whole pre-sample. */
  function PreSampleOf(rows: seq<Row>, strata: seq<Stratum>, picks: seq<seq<nat>>): Drawn<seq<nat>>
    requires |picks| == |strata|
  {
    DrawFrames(StratumFrames(rows, strata), strata, picks, |strata|)
  }

  lemma {:induction false} DrawRaisesOnward(frames: seq<seq<nat>>, strata: seq<Stratum>, picks: seq<seq<nat>>, i: nat, j: nat)
    requires i <= j <= |strata| && |frames| == |strata| && |picks| == |strata|
    requires DrawFrames(frames, strata, picks, i).Raises?
    ensures DrawFrames(frames, strata, picks, j) == DrawFrames(frames, strata, picks, i)
    decreases j
  {
    if i < j {
      DrawRaisesOnward(frames, strata, picks, i, j - 1);
    }
  }

  /** Filtering twice is filtering by both conditions. */
  lemma {:induction false} FilterTwice<T(!new)>(s: seq<T>, p: T -> bool, q: T -> bool, pq: T -> bool)
    requires forall x :: pq(x) == (p(x) && q(x))
    ensures Filter(Filter(s, p), q) == Filter(s, pq)
  {
    if s != [] {
      var s' := s[..|s| - 1];
      assert s == s' + [s[|s| - 1]];
      FilterTwice(s', p, q, pq);
    }
  }

  /** A key listed once does not occur before its position. */
  lemma NoDupBefore<T>(s: seq<T>, i: nat)
    requires NoDup(s) && i < |s|
    ensures s[i] !in s[..i]
  {
    assert forall j :: 0 <= j < i ==> s[..i][j] != s[i];
  }

  /** The key of stratum j is not the key of any stratum before it. */
  predicate KeyFresh(strata: seq<Stratum>, j: nat)
    requires j < |strata|
  {
    strata[j].key !in Map(strata[..j], StratumKey)
  }

  /** No two strata share a key. */
  predicate DistinctStrata(strata: seq<Stratum>)
  {
    forall j {:trigger KeyFresh(strata, j)} :: 0 <= j < |strata| ==> KeyFresh(strata, j)
  }

  lemma DistinctStrataOf(strata: seq<Stratum>)
    requires NoDup(Map(strata, StratumKey))
    ensures DistinctStrata(strata)
  {
    forall j | 0 <= j < |strata| ensures KeyFresh(strata, j) {
      NoDupBefore(Map(strata, StratumKey), j);
      assert Map(strata[..j], StratumKey) == Map(strata, StratumKey)[..j];
    }
  }

  /** Dropping the rows drawn so far leaves the rows of every later stratum in place. */
  lemma LiveFrame(rows: seq<Row>, strata: seq<Stratum>, i: nat, pre: seq<nat>)
    requires i < |strata| && KeyFresh(strata, i)
    requires forall x :: x in pre ==> x < |rows| && rows[x].key in Map(strata[..i], StratumKey)
    ensures Filter(Filter(Positions(|rows|), NotIn(pre)), InStratum(rows, strata[i].key)) == Members(rows, strata[i].key)
  {
    WhereIsFilter(Positions(|rows|), InStratum(rows, strata[i].key));
    FilterImplied(Positions(|rows|), InStratum(rows, strata[i].key), NotIn(pre));
  }

  lemma LiveAfterDrop(n: nat, pre: seq<nat>, chosen: seq<nat>)
    ensures Filter(Filter(Positions(n), NotIn(pre)), NotIn(chosen)) == Filter(Positions(n), NotIn(pre + chosen))
  {
    var both := (x: nat) => NotIn(pre)(x) && NotIn(chosen)(x);
    FilterTwice(Positions(n), NotIn(pre), NotIn(chosen), both);
    FilterExt(Positions(n), both, NotIn(pre + chosen));
  }

  /** The drawn labels of a stratum whose allocation fits are rows of that stratum. */
  lemma ChosenInStratum(rows: seq<Row>, s: Stratum, picks: seq<nat>)
    requires Fits(rows, s) && DrawFor(rows, s, picks)
    ensures forall x :: x in Pick(Members(rows, s.key), picks) ==> x < |rows| && rows[x].key == s.key
  {
    var m := Members(rows, s.key);
    WhereIsFilter(Positions(|rows|), InStratum(rows, s.key));
    forall x | x in Pick(m, picks) ensures x < |rows| && rows[x].key == s.key {
      var j :| 0 <= j < |picks| && Pick(m, picks)[j] == x;
      assert x in m;
    }
  }

  lemma MapPrefixSnoc<T, U>(s: seq<T>, i: nat, f: T -> U)
    requires i < |s|
    ensures Map(s[..i + 1], f) == Map(s[..i], f) + [f(s[i])]
  {
    assert s[..i + 1] == s[..i] + [s[i]];
    MapAppend(s[..i], s[i], f);
  }

  /** The state of the pre-sampling loop: the labels still in o_l_df, and
      pre_est_samp_df so far (or the error that ended the loop). */
  datatype PreState = PreState(live: seq<nat>, drawn: Drawn<seq<nat>>)

  /** One pass of the loop: stratum s is looked up among the live rows, its draw is
      appended, and the drawn rows are dropped. */
  function PreStep(rows: seq<Row>, s: Stratum, pick: seq<nat>, st: PreState): PreState
  {
    match st.drawn
    case Raises(_) => st
    case Ok(pre) =>
      var frame := Where(st.live, InStratum(rows, s.key));
      if !(0 <= s.alloc <= |frame|) then PreState(st.live, Raises(LargerThanStratum(s.key)))
      else
        var chosen := Pick(frame, pick);
        PreState(Where(st.live, NotIn(chosen)), Ok(pre + chosen))
  }

  /** The state after the first i strata. */
  function PreLoop(rows: seq<Row>, strata: seq<Stratum>, picks: seq<seq<nat>>, i: nat): PreState
    requires i <= |strata| && |picks| == |strata|
  {
    if i == 0 then PreState(Positions(|rows|), Ok([]))
    else PreStep(rows, strata[i - 1], picks[i - 1], PreLoop(rows, strata, picks, i - 1))
  }

  /** Before any draw every label is left over. */
  lemma NothingDrawnYet(size: nat)
    ensures Where(Positions(size), NotIn([])) == Positions(size)
  {
    FilterAll(Positions(size), NotIn([]));
    WhereIsFilter(Positions(size), NotIn([]));
  }

  /** Looking every stratum up among the rows left over gives the same pre-sample as
      looking it up in the whole table, and what is left over is what was not drawn. */
  lemma {:induction false} PreLoopInvariant(rows: seq<Row>, strata: seq<Stratum>, picks: seq<seq<nat>>, i: nat)
    requires i <= |strata| && DistinctStrata(strata) && PreDraws(rows, strata, picks)
    ensures PreLoop(rows, strata, picks, i).drawn == DrawFrames(StratumFrames(rows, strata), strata, picks, i)
    ensures PreLoop(rows, strata, picks, i).drawn.Ok? ==>
      var pre := PreLoop(rows, strata, picks, i).drawn.value;
      && PreLoop(rows, strata, picks, i).live == Where(Positions(|rows|), NotIn(pre))
      && forall x :: x in pre ==> x < |rows| && rows[x].key in Map(strata[..i], StratumKey)
  {
    if i == 0 {
      NothingDrawnYet(|rows|);
    } else {
      var j := i - 1;
      PreLoopInvariant(rows, strata, picks, j);
      var st := PreLoop(rows, strata, picks, j);
      if st.drawn.Ok? {
        PreLoopAdvance(rows, strata, picks, j, st.live, st.drawn.value);
      } else {
        assert PreLoop(rows, strata, picks, j + 1) == st;
      }
    }
  }

  /** The invariant carried from i to i + 1 strata. */
  lemma PreLoopAdvance(rows: seq<Row>, strata: seq<Stratum>, picks: seq<seq<nat>>, i: nat, live: seq<nat>, pre: seq<nat>)
    requires i < |strata| && DistinctStrata(strata) && PreDraws(rows, strata, picks)
    requires PreLoop(rows, strata, picks, i) == PreState(live, Ok(pre))
    requires DrawFrames(StratumFrames(rows, strata), strata, picks, i) == Ok(pre)
    requires live == Where(Positions(|rows|), NotIn(pre))
    requires forall x :: x in pre ==> x < |rows| && rows[x].key in Map(strata[..i], StratumKey)
    ensures PreLoop(rows, strata, picks, i + 1).drawn == DrawFrames(StratumFrames(rows, strata), strata, picks, i + 1)
    ensures PreLoop(rows, strata, picks, i + 1).drawn.Ok? ==>
      var pre' := PreLoop(rows, strata, picks, i + 1).drawn.value;
      && PreLoop(rows, strata, picks, i + 1).live == Where(Positions(|rows|), NotIn(pre'))
      && forall x :: x in pre' ==> x < |rows| && rows[x].key in Map(strata[..i + 1], StratumKey)
  {
    PreLoopStep(rows, strata, picks, i, live, pre);
  }

  /** One stratum of the loop: its rows among those left over are all its rows, and
      dropping the drawn ones keeps the loop's invariant. */
  lemma PreLoopStep(rows: seq<Row>, strata: seq<Stratum>, picks: seq<seq<nat>>, i: nat, live: seq<nat>, pre: seq<nat>)
    requires i < |strata| && DistinctStrata(strata) && PreDraws(rows, strata, picks)
    requires live == Where(Positions(|rows|), NotIn(pre))
    requires forall x :: x in pre ==> x < |rows| && rows[x].key in Map(strata[..i], StratumKey)
    ensures Where(live, InStratum(rows, strata[i].key)) == StratumFrames(rows, strata)[i]
    ensures Fits(rows, strata[i]) ==>
      var chosen := Pick(Where(live, InStratum(rows, strata[i].key)), picks[i]);
      && Where(live, NotIn(chosen)) == Where(Positions(|rows|), NotIn(pre + chosen))
      && forall x :: x in pre + chosen ==> x < |rows| && rows[x].key in Map(strata[..i + 1], StratumKey)
  {
    WhereIsFilter(Positions(|rows|), NotIn(pre));
    LiveFrame(rows, strata, i, pre);
    WhereIsFilter(live, InStratum(rows, strata[i].key));
    if Fits(rows, strata[i]) {
      var chosen := Pick(Members(rows, strata[i].key), picks[i]);
      ChosenInStratum(rows, strata[i], picks[i]);
      MapPrefixSnoc(strata, i, StratumKey);
      LiveAfterDrop(|rows|, pre, chosen);
      WhereIsFilter(live, NotIn(chosen));
      WhereIsFilter(Positions(|rows|), NotIn(pre + chosen));
    }
  }

  lemma {:induction false} PreLoopRaises(rows: seq<Row>, strata: seq<Stratum>, picks: seq<seq<nat>>, i: nat, j: nat)
    requires i <= j <= |strata| && |picks| == |strata|
    requires PreLoop(rows, strata, picks, i).drawn.Raises?
    ensures PreLoop(rows, strata, picks, j).drawn == PreLoop(rows, strata, picks, i).drawn
    decreases j
  {
    if i < j {
      PreLoopRaises(rows, strata, picks, i, j - 1);
    }
  }

  /** The loop computes the pre-sample. */
  lemma PreLoopDraws(rows: seq<Row>, strata: seq<Stratum>, picks: seq<seq<nat>>, i: nat)
    requires i <= |strata| && DistinctStrata(strata) && PreDraws(rows, strata, picks)
    ensures PreLoop(rows, strata, picks, i).drawn == DrawFrames(StratumFrames(rows, strata), strata, picks, i)
  {
    PreLoopInvariant(rows, strata, picks, i);
  }

  /** The pre-sampling loop: each stratum's rows are looked up among the rows not drawn
      yet (o_l_df), its allocation is drawn from them, and the drawn rows are dropped. */
  method PreSample(rows: seq<Row>, strata: seq<Stratum>, picks: seq<seq<nat>>) returns (r: Drawn<seq<nat>>)
    requires DistinctStrata(strata) && PreDraws(rows, strata, picks)
    ensures r == PreSampleOf(rows, strata, picks)
  {
    r := PreSampleLoop(rows, strata, picks);
    PreLoopDraws(rows, strata, picks, |strata|);
  }

  method PreSampleLoop(rows: seq<Row>, strata: seq<Stratum>, picks: seq<seq<nat>>) returns (r: Drawn<seq<nat>>)
    requires |picks| == |strata|
    ensures r == PreLoop(rows, strata, picks, |strata|).drawn
  {
    var live := Positions(|rows|);
    var pre: seq<nat> := [];
    for i := 0 to |strata|
      invariant PreLoop(rows, strata, picks, i) == PreState(live, Ok(pre))
    {
      var frame := Where(live, InStratum(rows, strata[i].key));
      if !(0 <= strata[i].alloc <= |frame|) {
        PreLoopRaises(rows, strata, picks, i + 1, |strata|);
        return Raises(LargerThanStratum(strata[i].key));
      }
      var chosen := Pick(frame, picks[i]);
      pre := pre + chosen;
      live := Where(live, NotIn(chosen));
    }
    r := Ok(pre);
  }

  // ---- what the pre-sample holds ----

  /** A filter keeps no duplicates. */
  lemma {:induction false} FilterNoDup<T(!new)>(s: seq<T>, p: T -> bool)
    requires NoDup(s)
    ensures NoDup(Filter(s, p))
  {
    if s != [] {
      var s' := s[..|s| - 1];
      assert NoDup(s') by {
        assert forall i :: 0 <= i < |s'| ==> s'[i] == s[i];
      }
      FilterNoDup(s', p);
      assert s[|s| - 1] !in s' by {
        NoDupBefore(s, |s| - 1);
      }
    }
  }

  lemma MembersNoDup(rows: seq<Row>, k: seq<string>)
    ensures NoDup(Members(rows, k))
  {
    WhereIsFilter(Positions(|rows|), InStratum(rows, k));
    FilterNoDup(Positions(|rows|), InStratum(rows, k));
  }

  /** Distinct positions of a list without duplicates pick distinct labels. */
  lemma PickNoDup(s: seq<nat>, picks: seq<nat>)
    requires NoDup(s) && NoDup(picks) && forall j :: 0 <= j < |picks| ==> picks[j] < |s|
    ensures NoDup(Pick(s, picks))
  {
  }

  lemma NoDupConcat<T>(a: seq<T>, b: seq<T>)
    requires NoDup(a) && NoDup(b) && forall x :: x in a ==> x !in b
    ensures NoDup(a + b)
  {
    forall i, j | 0 <= i < j < |a + b| ensures (a + b)[i] != (a + b)[j] {
      if i < |a| && |a| <= j {
        assert (a + b)[i] in a && (a + b)[j] == b[j - |a|];
      }
    }
  }

  /** A pre-sample that is taken draws every one of its strata in full. */
  lemma {:induction false} DrawnFits(rows: seq<Row>, strata: seq<Stratum>, picks: seq<seq<nat>>, i: nat, j: nat)
    requires j < i <= |strata| && |picks| == |strata|
    requires DrawFrames(StratumFrames(rows, strata), strata, picks, i).Ok?
    ensures Fits(rows, strata[j])
    decreases i
  {
    if j < i - 1 {
      DrawnFits(rows, strata, picks, i - 1, j);
    }
  }

  /** The pre-sample up to stratum i holds as many rows as those strata's allocations. */
  lemma {:induction false} DrawnSize(rows: seq<Row>, strata: seq<Stratum>, picks: seq<seq<nat>>, i: nat)
    requires i <= |strata| && PreDraws(rows, strata, picks)
    requires DrawFrames(StratumFrames(rows, strata), strata, picks, i).Ok?
    ensures |DrawFrames(StratumFrames(rows, strata), strata, picks, i).value| == Sum(strata[..i], Alloc)
  {
    if i > 0 {
      DrawnSize(rows, strata, picks, i - 1);
      var s := strata[i - 1];
      assert DrawFor(rows, s, picks[i - 1]);
      assert strata[..i] == strata[..i - 1] + [s];
      SumAppend(strata[..i - 1], [s], Alloc);
    }
  }

  /** The pre-sample up to stratum i draws no row twice, and only rows of those strata. */
  lemma {:induction false} DrawnDistinct(rows: seq<Row>, strata: seq<Stratum>, picks: seq<seq<nat>>, i: nat)
    requires i <= |strata| && DistinctStrata(strata) && PreDraws(rows, strata, picks)
    requires DrawFrames(StratumFrames(rows, strata), strata, picks, i).Ok?
    ensures var pre := DrawFrames(StratumFrames(rows, strata), strata, picks, i).value;
      && NoDup(pre)
      && forall x :: x in pre ==> x < |rows| && rows[x].key in Map(strata[..i], StratumKey)
  {
    if i > 0 {
      var frames := StratumFrames(rows, strata);
      DrawnDistinct(rows, strata, picks, i - 1);
      var acc := DrawFrames(frames, strata, picks, i - 1).value;
      var s := strata[i - 1];
      var chosen := Pick(Members(rows, s.key), picks[i - 1]);
      assert DrawFor(rows, s, picks[i - 1]);
      ChosenInStratum(rows, s, picks[i - 1]);
      MembersNoDup(rows, s.key);
      PickNoDup(Members(rows, s.key), picks[i - 1]);
      assert KeyFresh(strata, i - 1);
      NoDupConcat(acc, chosen);
      MapPrefixSnoc(strata, i - 1, StratumKey);
    }
  }

  lemma {:induction false} WhereConcat<T>(a: seq<T>, b: seq<T>, p: T -> bool)
    ensures Where(a + b, p) == Where(a, p) + Where(b, p)
    decreases |b|
  {
    if b != [] {
      var b' := b[..|b| - 1];
      assert (a + b)[..|a + b| - 1] == a + b';
      WhereConcat(a, b', p);
    } else {
      assert a + b == a;
    }
  }

  lemma {:induction false} WhereAll<T>(s: seq<T>, p: T -> bool)
    requires forall x :: x in s ==> p(x)
    ensures Where(s, p) == s
  {
    if s != [] {
      WhereAll(s[..|s| - 1], p);
    }
  }

  lemma {:induction false} WhereNone<T>(s: seq<T>, p: T -> bool)
    requires forall x :: x in s ==> !p(x)
    ensures Where(s, p) == []
  {
    if s != [] {
      WhereNone(s[..|s| - 1], p);
    }
  }

  /** The strata are drawn in turn: stratum j's rows in the pre-sample are exactly the
      rows drawn for it. */
  lemma {:induction false} DrawnOfStratum(rows: seq<Row>, strata: seq<Stratum>, picks: seq<seq<nat>>, i: nat, j: nat)
    requires j < |strata| && i <= |strata| && DistinctStrata(strata) && PreDraws(rows, strata, picks)
    requires DrawFrames(StratumFrames(rows, strata), strata, picks, i).Ok?
    ensures Where(DrawFrames(StratumFrames(rows, strata), strata, picks, i).value, InStratum(rows, strata[j].key))
         == if j < i then Pick(Members(rows, strata[j].key), picks[j]) else []
  {
    if i > 0 {
      var frames := StratumFrames(rows, strata);
      DrawnOfStratum(rows, strata, picks, i - 1, j);
      var acc := DrawFrames(frames, strata, picks, i - 1).value;
      var s := strata[i - 1];
      var chosen := Pick(Members(rows, s.key), picks[i - 1]);
      var p := InStratum(rows, strata[j].key);
      assert DrawFor(rows, s, picks[i - 1]);
      ChosenInStratum(rows, s, picks[i - 1]);
      WhereConcat(acc, chosen, p);
      if j == i - 1 {
        WhereAll(chosen, p);
      } else {
        StrataDiffer(strata, i - 1, j);
        WhereNone(chosen, p);
      }
    }
  }

  lemma StrataDiffer(strata: seq<Stratum>, i: nat, j: nat)
    requires i < |strata| && j < |strata| && i != j && DistinctStrata(strata)
    ensures strata[i].key != strata[j].key
  {
    if i < j {
      assert KeyFresh(strata, j);
      assert strata[..j][i] == strata[i];
    } else {
      assert KeyFresh(strata, i);
      assert strata[..i][j] == strata[j];
    }
  }

  /** If every stratum fits, the pre-sample is taken. */
  lemma {:induction false} DrawnWhenAllFit(rows: seq<Row>, strata: seq<Stratum>, picks: seq<seq<nat>>, i: nat)
    requires i <= |strata| && |picks| == |strata|
    requires forall j :: 0 <= j < i ==> Fits(rows, strata[j])
    ensures DrawFrames(StratumFrames(rows, strata), strata, picks, i).Ok?
  {
    if i > 0 {
      DrawnWhenAllFit(rows, strata, picks, i - 1);
      assert Fits(rows, strata[i - 1]);
    }
  }

  /** A stratum has as many rows as its Count. */
  lemma MembersCount(rows: seq<Row>, k: seq<string>)
    ensures |Members(rows, k)| == StratumSize(rows, k)
  {
    MembersCountPrefix(rows, k, |rows|);
    assert rows[..|rows|] == rows;
  }

  lemma {:induction false} MembersCountPrefix(rows: seq<Row>, k: seq<string>, m: nat)
    requires m <= |rows|
    ensures |Where(Positions(m), InStratum(rows, k))| == KeySum(rows[..m], RowKey, k, RowOne)
  {
    if m > 0 {
      MembersCountPrefix(rows, k, m - 1);
      assert Positions(m)[..m - 1] == Positions(m - 1);
      assert rows[..m][..m - 1] == rows[..m - 1];
    }
  }

  // ---- the drift correction: the walk over allocation sizes ----

  /** One row of a_auxiliar_df: an allocation size and how many strata have it. */
  datatype Level = Level(size: int, count: int)

  function LevelSize(l: Level): int { l.size }
  function LevelCount(l: Level): int { l.count }

  /** How many strata of pool are allocated v rows. */
  function Frequency(pool: seq<Stratum>): int -> int { v => KeySum(pool, Alloc, v, StratumOne) }

  /** value_counts().sort_index() of the allocations: the sizes in ascending order, each
      with its number of strata. */
  function ValueCounts(pool: seq<Stratum>): seq<Level>
  {
    Map(SortedDistinct(Map(pool, Alloc)), LevelOf(pool))
  }

  function LevelOf(pool: seq<Stratum>): int -> Level { v => Level(v, Frequency(pool)(v)) }

  function Reversed<T>(s: seq<T>): (r: seq<T>)
    ensures |r| == |s| && forall i :: 0 <= i < |s| ==> r[i] == s[|s| - 1 - i]
  {
    seq(|s|, i requires 0 <= i < |s| => s[|s| - 1 - i])
  }

  /** Where the walk from row k on stops: after the first row at which the running total
      of counts reaches the target, or after the last row. */
  function WalkFrom(levels: seq<Level>, target: int, k: nat): (w: nat)
    requires k <= |levels|
    ensures k <= w <= |levels|
    decreases |levels| - k
  {
    if k == |levels| then k
    else if Sum(levels[..k + 1], LevelCount) >= target then k + 1
    else WalkFrom(levels, target, k + 1)
  }

  /** The number of rows of the walk that end up in sub_a_auxiliar (or sub_d_auxiliar). */
  function WalkStop(levels: seq<Level>, target: int): (w: nat)
    ensures w <= |levels|
  {
    WalkFrom(levels, target, 0)
  }

  lemma {:induction false} WalkFromBounds(levels: seq<Level>, target: int, k: nat)
    requires k <= |levels| && forall j :: 0 < j <= k ==> Sum(levels[..j], LevelCount) < target
    ensures var w := WalkFrom(levels, target, k);
      && k <= w <= |levels|
      && (w == |levels| || Sum(levels[..w], LevelCount) >= target)
      && (forall j :: 0 < j < w ==> Sum(levels[..j], LevelCount) < target)
      && (k < |levels| ==> k < w)
    decreases |levels| - k
  {
    if k < |levels| && Sum(levels[..k + 1], LevelCount) < target {
      WalkFromBounds(levels, target, k + 1);
    }
  }

  /** The walk takes the shortest non-empty prefix whose counts reach the target, or every
      row when none does. */
  lemma WalkStopSpec(levels: seq<Level>, target: int)
    ensures var w := WalkStop(levels, target);
      && w <= |levels|
      && (levels != [] ==> 1 <= w)
      && (w == |levels| || Sum(levels[..w], LevelCount) >= target)
      && (forall j :: 0 < j < w ==> Sum(levels[..j], LevelCount) < target)
  {
    WalkFromBounds(levels, target, 0);
  }

  /** The loop over a_auxiliar_df (or d_auxiliar_df) that adds up the counts and breaks once
      the total reaches the target. */
  method Walk(levels: seq<Level>, target: int) returns (k: nat)
    ensures k == WalkStop(levels, target)
  {
    var total := 0;
    k := 0;
    while k < |levels|
      invariant k <= |levels| && total == Sum(levels[..k], LevelCount)
      invariant WalkFrom(levels, target, k) == WalkStop(levels, target)
    {
      total := total + levels[k].count;
      assert levels[..k + 1][..k] == levels[..k];
      k := k + 1;
      if total >= target {
        break;
      }
    }
  }

  // ---- the strata the correction draws from ----

  /** The isin(values) mask over the strata's allocations. */
  function Chosen(values: seq<int>): Stratum -> bool { (s: Stratum) => s.alloc in values }

  /** a_filt_w_pivot (d_filt_w_pivot) before its sample: the strata of the pool whose
      allocation is among the values the walk took. */
  function Eligible(pool: seq<Stratum>, values: seq<int>): seq<Stratum>
  {
    Where(pool, Chosen(values))
  }

  /** values_a_filter (values_d_filter): the sizes of the rows the walk took. */
  function AuxValues(levels: seq<Level>, target: int): seq<int>
  {
    Map(levels[..WalkStop(levels, target)], LevelSize)
  }

  /** The strata allocated any of the listed sizes number the sum of their frequencies. */
  lemma EligibleSize(pool: seq<Stratum>, vs: seq<int>)
    requires NoDup(vs)
    ensures |Eligible(pool, vs)| == Sum(vs, Frequency(pool))
  {
    KeysSumIsSum(pool, Alloc, vs, StratumOne, Frequency(pool));
    EligibleKeysSum(pool, vs);
  }

  lemma {:induction false} EligibleKeysSum(pool: seq<Stratum>, vs: seq<int>)
    requires NoDup(vs)
    ensures |Where(pool, Chosen(vs))| == KeysSum(pool, Alloc, vs, StratumOne)
  {
    if pool == [] {
      KeysSumOfNothing(pool, Alloc, vs, StratumOne);
    } else {
      var p', x := pool[..|pool| - 1], pool[|pool| - 1];
      assert pool == p' + [x];
      EligibleKeysSum(p', vs);
      KeysSumSnoc(p', x, Alloc, vs, StratumOne);
    }
  }

  /** The first k levels built from a list of sizes are those sizes with their frequencies. */
  lemma LevelsPrefix(pool: seq<Stratum>, sizes: seq<int>, k: nat)
    requires k <= |sizes|
    ensures Map(Map(sizes, LevelOf(pool))[..k], LevelSize) == sizes[..k]
    ensures Sum(Map(sizes, LevelOf(pool))[..k], LevelCount) == Sum(sizes[..k], Frequency(pool))
  {
    var levels := Map(sizes, LevelOf(pool));
    SumPointwise(levels[..k], LevelCount, sizes[..k], Frequency(pool));
  }

  /** When the pool holds at least target strata and the sizes list every allocation of the
      pool once, the walk takes enough sizes for target strata to be drawn. */
  lemma WalkEnough(pool: seq<Stratum>, sizes: seq<int>, target: int)
    requires NoDup(sizes) && (forall s :: s in pool ==> s.alloc in sizes) && |pool| >= target
    ensures |Eligible(pool, AuxValues(Map(sizes, LevelOf(pool)), target))| >= target
  {
    var levels := Map(sizes, LevelOf(pool));
    var k := WalkStop(levels, target);
    WalkStopSpec(levels, target);
    LevelsPrefix(pool, sizes, k);
    var vs := sizes[..k];
    assert NoDup(vs) by {
      assert forall i :: 0 <= i < k ==> vs[i] == sizes[i];
    }
    EligibleSize(pool, vs);
    if k == |levels| {
      assert vs == sizes;
      WhereAll(pool, Chosen(vs));
    }
  }

  lemma IncreasingNoDup(s: seq<int>)
    requires Increasing(s)
    ensures NoDup(s) && NoDup(Reversed(s))
  {
  }

  lemma ReversedMap<T, U>(s: seq<T>, f: T -> U)
    ensures Reversed(Map(s, f)) == Map(Reversed(s), f)
  {
  }

  // ---- the drift correction: fill and remove ----

  /** The row at label x (every label the model draws is below |rows|). */
  function RowAt(rows: seq<Row>): nat -> Row
  {
    (x: nat) => if x < |rows| then rows[x] else Row([], [])
  }

  /** Whether the row at a label equals none of the rows at the given labels: the
      left_only rows of a merge on all columns. */
  function NotDrawn(rows: seq<Row>, drawn: seq<nat>): nat -> bool
  {
    (x: nat) => RowAt(rows)(x) !in Map(drawn, RowAt(rows))
  }

  /** o_minus_pre_est_df: the rows of the table equal to no row of the pre-sample. */
  function Unsampled(rows: seq<Row>, pre: seq<nat>): seq<nat>
  {
    Where(Positions(|rows|), NotDrawn(rows, pre))
  }

  /** The labels of the frame that belong to stratum k. */
  function RowsOf(rows: seq<Row>, frame: seq<nat>, k: seq<string>): seq<nat>
  {
    Where(frame, InStratum(rows, k))
  }

  /** Whether a stratum has any row in the frame. */
  function HasRows(rows: seq<Row>, frame: seq<nat>): Stratum -> bool
  {
    (s: Stratum) => RowsOf(rows, frame, s.key) != []
  }

  /** The strata at the caller's chosen positions: what .sample(n=m) of a table of strata
      returns. */
  function Select(s: seq<Stratum>, choice: seq<nat>): (r: seq<Stratum>)
    requires forall j :: 0 <= j < |choice| ==> choice[j] < |s|
    ensures |r| == |choice| && forall j :: 0 <= j < |choice| ==> r[j] == s[choice[j]]
  {
    seq(|choice|, j requires 0 <= j < |choice| => s[choice[j]])
  }

  /** One row of the frame from each of the first j chosen strata (.sample(n=1) of the
      stratum's rows in the frame; the caller's number picks the row, modulo their number);
      a stratum with no row in the frame raises. */
  function OnePerStratum(rows: seq<Row>, frame: seq<nat>, chosen: seq<Stratum>, picks: seq<nat>, j: nat): Drawn<seq<nat>>
    requires j <= |chosen| == |picks|
  {
    if j == 0 then Ok([])
    else
      match OnePerStratum(rows, frame, chosen, picks, j - 1)
      case Raises(e) => Raises(e)
      case Ok(acc) =>
        var rowsOf := RowsOf(rows, frame, chosen[j - 1].key);
        if rowsOf == [] then Raises(EmptyStratum(chosen[j - 1].key))
        else Ok(acc + [rowsOf[picks[j - 1] % |rowsOf|]])
  }

  /** The strata the shortfall is filled from: as written, every stratum; corrected
      (spareOnly), only the strata that still have a row outside the pre-sample. */
  function FillPool(rows: seq<Row>, strata: seq<Stratum>, pre: seq<nat>, spareOnly: bool): seq<Stratum>
  {
    if spareOnly then Where(strata, HasRows(rows, Unsampled(rows, pre))) else strata
  }

  /** a_filt_w_pivot before its sample: the walk runs over the ascending allocation sizes. */
  function FillEligible(rows: seq<Row>, strata: seq<Stratum>, pre: seq<nat>, m: int, spareOnly: bool): seq<Stratum>
  {
    var pool := FillPool(rows, strata, pre, spareOnly);
    Eligible(pool, AuxValues(ValueCounts(pool), m))
  }

  /** d_filt_w_pivot before its sample: the walk runs over the descending allocation sizes. */
  function RemoveEligible(strata: seq<Stratum>, m: int): seq<Stratum>
  {
    Eligible(strata, AuxValues(Reversed(ValueCounts(strata)), m))
  }

  /** The shortfall case: m eligible strata are drawn and one row outside the pre-sample
      is added from each. */
  function FillOf(rows: seq<Row>, strata: seq<Stratum>, pre: seq<nat>, m: nat, choice: seq<nat>, picks: seq<nat>, spareOnly: bool): Drawn<seq<nat>>
    requires |FillEligible(rows, strata, pre, m, spareOnly)| >= m ==> IsDraw(choice, |FillEligible(rows, strata, pre, m, spareOnly)|, m)
    requires |picks| == |choice|
  {
    var eligible := FillEligible(rows, strata, pre, m, spareOnly);
    if |eligible| < m then Raises(TooFewStrata(m, |eligible|))
    else
      match OnePerStratum(rows, Unsampled(rows, pre), Select(eligible, choice), picks, m)
      case Raises(e) => Raises(e)
      case Ok(fill) => Ok(pre + fill)
  }

  /** The overshoot case: m eligible strata are drawn, one pre-sampled row of each is
      chosen, and the rows equal to a chosen one leave the pre-sample. */
  function RemoveOf(rows: seq<Row>, strata: seq<Stratum>, pre: seq<nat>, m: nat, choice: seq<nat>, picks: seq<nat>): Drawn<seq<nat>>
    requires |RemoveEligible(strata, m)| >= m ==> IsDraw(choice, |RemoveEligible(strata, m)|, m)
    requires |picks| == |choice|
  {
    var eligible := RemoveEligible(strata, m);
    if |eligible| < m then Raises(TooFewStrata(m, |eligible|))
    else
      match OnePerStratum(rows, pre, Select(eligible, choice), picks, m)
      case Raises(e) => Raises(e)
      case Ok(removed) => Ok(Where(pre, NotDrawn(rows, removed)))
  }

  /** The caller's random draws: the pre-sample of every stratum, the strata of the
      correction, and the row taken from each of them. */
  datatype Draws = Draws(pre: seq<seq<nat>>, strata: seq<nat>, rows: seq<nat>)

  /** The draws of the correction are valid for a pre-sample: as many distinct positions
      as the shortfall or overshoot, within the eligible strata, whenever there are enough. */
  predicate CorrectionDraws(rows: seq<Row>, strata: seq<Stratum>, pre: seq<nat>, n: nat, d: Draws, spareOnly: bool)
  {
    && |d.rows| == |d.strata|
    && (|pre| < n ==> var e := FillEligible(rows, strata, pre, n - |pre|, spareOnly);
          |e| >= n - |pre| ==> IsDraw(d.strata, |e|, n - |pre|))
    && (|pre| > n ==> var e := RemoveEligible(strata, |pre| - n);
          |e| >= |pre| - n ==> IsDraw(d.strata, |e|, |pre| - n))
  }

  /** The correction of a pre-sample to n rows (aux_eval = |pre| - n). */
  function CorrectionOf(rows: seq<Row>, strata: seq<Stratum>, pre: seq<nat>, n: nat, d: Draws, spareOnly: bool): Drawn<seq<nat>>
    requires CorrectionDraws(rows, strata, pre, n, d, spareOnly)
  {
    if |pre| < n then FillOf(rows, strata, pre, n - |pre|, d.strata, d.rows, spareOnly)
    else if |pre| > n then RemoveOf(rows, strata, pre, |pre| - n, d.strata, d.rows)
    else Ok(pre)
  }

  /** What sample() can return at each step: distinct positions within the frame, as
      many as asked for, whenever the frame is large enough. */
  predicate ValidDraws(rows: seq<Row>, n: nat, d: Draws, spareOnly: bool)
    requires rows != []
  {
    var strata := Strata(rows, n);
    && PreDraws(rows, strata, d.pre)
    && (PreSampleOf(rows, strata, d.pre).Ok? ==>
          CorrectionDraws(rows, strata, PreSampleOf(rows, strata, d.pre).value, n, d, spareOnly))
  }

  /** The stratified sample of n rows from the table (est_samp_df, as labels): the
      pre-sample, then the fill or the removal that corrects its drift from n. */
  function SampleOf(rows: seq<Row>, n: nat, d: Draws, spareOnly: bool): Drawn<seq<nat>>
    requires rows != [] && ValidDraws(rows, n, d, spareOnly)
  {
    var strata := Strata(rows, n);
    match PreSampleOf(rows, strata, d.pre)
    case Raises(e) => Raises(e)
    case Ok(pre) => CorrectionOf(rows, strata, pre, n, d, spareOnly)
  }

  /** The loops over a_filt_w_pivot and d_filt_w_pivot: one row of the frame is taken
      from each chosen stratum in turn. */
  method DrawOnePerStratum(rows: seq<Row>, frame: seq<nat>, chosen: seq<Stratum>, picks: seq<nat>) returns (r: Drawn<seq<nat>>)
    requires |chosen| == |picks|
    ensures r == OnePerStratum(rows, frame, chosen, picks, |chosen|)
  {
    var taken: seq<nat> := [];
    for j := 0 to |chosen|
      invariant OnePerStratum(rows, frame, chosen, picks, j) == Ok(taken)
    {
      var rowsOf := RowsOf(rows, frame, chosen[j].key);
      if rowsOf == [] {
        OnePerStratumRaises(rows, frame, chosen, picks, j + 1, |chosen|);
        return Raises(EmptyStratum(chosen[j].key));
      }
      taken := taken + [rowsOf[picks[j] % |rowsOf|]];
    }
    r := Ok(taken);
  }

  lemma {:induction false} OnePerStratumRaises(rows: seq<Row>, frame: seq<nat>, chosen: seq<Stratum>, picks: seq<nat>, i: nat, j: nat)
    requires i <= j <= |chosen| == |picks|
    requires OnePerStratum(rows, frame, chosen, picks, i).Raises?
    ensures OnePerStratum(rows, frame, chosen, picks, j) == OnePerStratum(rows, frame, chosen, picks, i)
    decreases j
  {
    if i < j {
      OnePerStratumRaises(rows, frame, chosen, picks, i, j - 1);
    }
  }

  /** The aux_eval < 0 branch: the walk over a_auxiliar_df up to the shortfall, the
      sample of m eligible strata, and one unsampled row from each. */
  method Fill(rows: seq<Row>, strata: seq<Stratum>, pre: seq<nat>, m: nat, choice: seq<nat>, picks: seq<nat>, spareOnly: bool) returns (r: Drawn<seq<nat>>)
    requires |FillEligible(rows, strata, pre, m, spareOnly)| >= m ==> IsDraw(choice, |FillEligible(rows, strata, pre, m, spareOnly)|, m)
    requires |picks| == |choice|
    ensures r == FillOf(rows, strata, pre, m, choice, picks, spareOnly)
  {
    var pool := FillPool(rows, strata, pre, spareOnly);
    var levels := ValueCounts(pool);
    var k := Walk(levels, m);
    var eligible := Eligible(pool, Map(levels[..k], LevelSize));
    if |eligible| < m {
      return Raises(TooFewStrata(m, |eligible|));
    }
    var fill := DrawOnePerStratum(rows, Unsampled(rows, pre), Select(eligible, choice), picks);
    match fill {
      case Raises(e) => r := Raises(e);
      case Ok(f) => r := Ok(pre + f);
    }
  }

  /** The aux_eval > 0 branch: the walk over d_auxiliar_df up to the overshoot, the
      sample of m eligible strata, one pre-sampled row of each, and the anti-join. */
  method Remove(rows: seq<Row>, strata: seq<Stratum>, pre: seq<nat>, m: nat, choice: seq<nat>, picks: seq<nat>) returns (r: Drawn<seq<nat>>)
    requires |RemoveEligible(strata, m)| >= m ==> IsDraw(choice, |RemoveEligible(strata, m)|, m)
    requires |picks| == |choice|
    ensures r == RemoveOf(rows, strata, pre, m, choice, picks)
  {
    var levels := Reversed(ValueCounts(strata));
    var k := Walk(levels, m);
    var eligible := Eligible(strata, Map(levels[..k], LevelSize));
    if |eligible| < m {
      return Raises(TooFewStrata(m, |eligible|));
    }
    var removed := DrawOnePerStratum(rows, pre, Select(eligible, choice), picks);
    match removed {
      case Raises(e) => r := Raises(e);
      case Ok(gone) => r := Ok(Where(pre, NotDrawn(rows, gone)));
    }
  }

  /** The strata of a table have distinct keys. */
  lemma StrataDistinct(rows: seq<Row>, n: nat)
    requires rows != []
    ensures DistinctStrata(Strata(rows, n))
  {
    StrataKeys(rows, n);
    DistinctStrataOf(Strata(rows, n));
  }

  /** Lines 302-389 of the sampling page: the drift aux_eval of the pre-sample from n
      decides between the fill, the removal and keeping the pre-sample. With spareOnly
      false the fill pool is the page's as written; with spareOnly true it is restricted
      to strata that have rows left. */
  method Correct(rows: seq<Row>, strata: seq<Stratum>, pre: seq<nat>, n: nat, d: Draws, spareOnly: bool)
    returns (r: Drawn<seq<nat>>)
    requires CorrectionDraws(rows, strata, pre, n, d, spareOnly)
    ensures r == CorrectionOf(rows, strata, pre, n, d, spareOnly)
  {
    var aux := |pre| - n;
    if aux < 0 {
      r := Fill(rows, strata, pre, -aux, d.strata, d.rows, spareOnly);
    } else if aux > 0 {
      r := Remove(rows, strata, pre, aux, d.strata, d.rows);
    } else {
      r := Ok(pre);
    }
  }

  /** Lines 266-402 of the sampling page: the allocation, the pre-sample, and the
      correction of its size to n; spareOnly chooses the fill pool as in Correct. */
  method StratifiedSample(rows: seq<Row>, n: nat, d: Draws, spareOnly: bool) returns (r: Drawn<seq<nat>>)
    requires rows != [] && ValidDraws(rows, n, d, spareOnly)
    ensures r == SampleOf(rows, n, d, spareOnly)
  {
    var strata := Strata(rows, n);
    StrataDistinct(rows, n);
    var drawn := PreSample(rows, strata, d.pre);
    match drawn {
      case Raises(e) => r := Raises(e);
      case Ok(pre) => r := Correct(rows, strata, pre, n, d, spareOnly);
    }
  }
}
