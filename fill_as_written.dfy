/** The fill of the sampling page as written draws the shortfall from every stratum of the
    smallest allocation sizes, including strata the pre-sample has already taken in full.
    On a table whose strata hold 1, 3, 3 and 3 rows, a sample of n = 8 rows raises,
    whatever the random draws. */
module FillAsWritten {
  import opened Numeric
  import opened Tables
  import opened Allocation
  import opened SampleSize

  /** Ten rows in four strata A, B, C and D of 1, 3, 3 and 3 rows. */
  function Table(): seq<Row>
  {
    [Row(["A"], ["0"]), Row(["B"], ["1"]), Row(["B"], ["2"]), Row(["B"], ["3"]),
     Row(["C"], ["4"]), Row(["C"], ["5"]), Row(["C"], ["6"]),
     Row(["D"], ["7"]), Row(["D"], ["8"]), Row(["D"], ["9"])]
  }

  /** The key column of the table. */
  function Keys(): seq<seq<string>>
  {
    [["A"], ["B"], ["B"], ["B"], ["C"], ["C"], ["C"], ["D"], ["D"], ["D"]]
  }

  lemma KeysUpTo4()
    ensures Distinct(Keys()[..4]) == [["A"], ["B"]]
  {
    var k := Keys();
    assert k[..0] == [];
    assert Distinct(k[..1]) == [["A"]] by {
      assert k[..1][..0] == k[..0];
    }
    assert Distinct(k[..2]) == [["A"], ["B"]] by {
      assert k[..2][..1] == k[..1];
    }
    assert Distinct(k[..3]) == [["A"], ["B"]] by {
      assert k[..3][..2] == k[..2];
    }
    assert Distinct(k[..4]) == [["A"], ["B"]] by {
      assert k[..4][..3] == k[..3];
    }
  }

  lemma KeysUpTo7()
    ensures Distinct(Keys()[..7]) == [["A"], ["B"], ["C"]]
  {
    var k := Keys();
    KeysUpTo4();
    assert Distinct(k[..5]) == [["A"], ["B"], ["C"]] by {
      assert k[..5][..4] == k[..4];
    }
    assert Distinct(k[..6]) == [["A"], ["B"], ["C"]] by {
      assert k[..6][..5] == k[..5];
    }
    assert Distinct(k[..7]) == [["A"], ["B"], ["C"]] by {
      assert k[..7][..6] == k[..6];
    }
  }

  lemma KeysUpTo10()
    ensures Distinct(Keys()[..10]) == [["A"], ["B"], ["C"], ["D"]]
  {
    var k := Keys();
    KeysUpTo7();
    assert Distinct(k[..8]) == [["A"], ["B"], ["C"], ["D"]] by {
      assert k[..8][..7] == k[..7];
    }
    assert Distinct(k[..9]) == [["A"], ["B"], ["C"], ["D"]] by {
      assert k[..9][..8] == k[..8];
    }
    assert Distinct(k[..10]) == [["A"], ["B"], ["C"], ["D"]] by {
      assert k[..10][..9] == k[..9];
    }
  }

  lemma TableKeys()
    ensures Distinct(Map(Table(), RowKey)) == [["A"], ["B"], ["C"], ["D"]]
  {
    assert Map(Table(), RowKey) == Keys();
    KeysUpTo10();
    assert Keys()[..10] == Keys();
  }

  lemma TableSizes()
    ensures StratumSize(Table(), ["A"]) == 1 && StratumSize(Table(), ["B"]) == 3
    ensures StratumSize(Table(), ["C"]) == 3 && StratumSize(Table(), ["D"]) == 3
  {
    var t := Table();
    RunningKeySum(t, RowKey, ["A"], RowOne, [0, 1, 1, 1, 1, 1, 1, 1, 1, 1, 1]);
    RunningKeySum(t, RowKey, ["B"], RowOne, [0, 0, 1, 2, 3, 3, 3, 3, 3, 3, 3]);
    RunningKeySum(t, RowKey, ["C"], RowOne, [0, 0, 0, 0, 0, 1, 2, 3, 3, 3, 3]);
    RunningKeySum(t, RowKey, ["D"], RowOne, [0, 0, 0, 0, 0, 0, 0, 0, 1, 2, 3]);
  }

  /** The fraction of the table for n = 8 is 0.8. */
  lemma TableFraction()
    ensures Fraction(Table(), 8) == 0.8
  {
  }

  /** A stratum of one row is allocated its row at the fraction 0.8. */
  lemma OneRowStratum(k: seq<string>)
    requires StratumSize(Table(), k) == 1
    ensures StratumOf(Table(), 8, k).count == 1 && StratumOf(Table(), 8, k).alloc == 1
  {
    TableFraction();
    assert Scale(1, 0.8) == 0.8;
  }

  /** A stratum of three rows is allocated two (2.4 rounded) at the fraction 0.8. */
  lemma ThreeRowStratum(k: seq<string>)
    requires StratumSize(Table(), k) == 3
    ensures StratumOf(Table(), 8, k).count == 3 && StratumOf(Table(), 8, k).alloc == 2
  {
    TableFraction();
    assert Scale(3, 0.8) == 2.4;
  }

  /** w_pivot_df of the table for n = 8 lists the strata A, B, C and D in that order. */
  lemma StrataList()
    ensures Strata(Table(), 8) == [StratumOf(Table(), 8, ["A"]), StratumOf(Table(), 8, ["B"]),
                                   StratumOf(Table(), 8, ["C"]), StratumOf(Table(), 8, ["D"])]
  {
    TableKeys();
  }

  /** The strata of the table for n = 8: the fraction is 0.8, so stratum A is allocated
      its one row and B, C and D two of their three (2.4 rounded). */
  lemma TableStrata()
    ensures var s := Strata(Table(), 8);
      && Map(s, StratumKey) == [["A"], ["B"], ["C"], ["D"]]
      && Map(s, Count) == [1, 3, 3, 3]
      && Map(s, Alloc) == [1, 2, 2, 2]
  {
    StrataList();
    TableSizes();
    OneRowStratum(["A"]);
    ThreeRowStratum(["B"]);
    ThreeRowStratum(["C"]);
    ThreeRowStratum(["D"]);
  }

  /** Allocations 1, 2, 2 and 2 make a pre-sample of 7 rows. */
  lemma AllocatedSeven(s: seq<Stratum>)
    requires Map(s, Alloc) == [1, 2, 2, 2]
    ensures Sum(s, Alloc) == 7
  {
    assert s[..0] == [];
    assert Sum(s[..1], Alloc) == 1 by {
      assert s[..1][..0] == s[..0];
      assert s[0].alloc == Map(s, Alloc)[0];
    }
    assert Sum(s[..2], Alloc) == 3 by {
      assert s[..2][..1] == s[..1];
      assert s[1].alloc == Map(s, Alloc)[1];
    }
    assert Sum(s[..3], Alloc) == 5 by {
      assert s[..3][..2] == s[..2];
      assert s[2].alloc == Map(s, Alloc)[2];
    }
    assert Sum(s[..4], Alloc) == 7 by {
      assert s[..4][..3] == s[..3];
      assert s[3].alloc == Map(s, Alloc)[3];
    }
    assert s[..4] == s;
  }

  /** With allocations 1, 2, 2 and 2, exactly one stratum is allocated one row, and it is
      the first. */
  lemma OneOfSizeOne(s: seq<Stratum>)
    requires Map(s, Alloc) == [1, 2, 2, 2]
    ensures Frequency(s)(1) == 1
    ensures Eligible(s, [1]) == [s[0]]
  {
    RunningKeySum(s, Alloc, 1, StratumOne, [0, 1, 1, 1, 1]);
    WhereOnlyFirst(s, Chosen([1]));
  }

  /** a_auxiliar_df starts with size 1 and one stratum: the walk to a shortfall of 1
      stops after it, and only the first stratum is eligible. */
  lemma WalkToOne(s: seq<Stratum>)
    requires Map(s, Alloc) == [1, 2, 2, 2]
    ensures AuxValues(ValueCounts(s), 1) == [1]
    ensures Eligible(s, AuxValues(ValueCounts(s), 1)) == [s[0]]
  {
    var allocs := Map(s, Alloc);
    var sizes := SortedDistinct(allocs);
    assert allocs[0] == 1;
    assert 1 in sizes;
    assert sizes[0] in allocs;
    OneOfSizeOne(s);
    var levels := ValueCounts(s);
    assert levels[0] == Level(1, 1);
    assert levels[..1] == [Level(1, 1)];
    assert Sum(levels[..1], LevelCount) == 1 by {
      assert levels[..1][..0] == [];
    }
    assert WalkStop(levels, 1) == 1;
  }

  /** Stratum A's one row is label 0. */
  lemma MembersOfA()
    ensures Members(Table(), ["A"]) == [0]
  {
    var t := Table();
    var mem := Members(t, ["A"]);
    TableSizes();
    MembersCount(t, ["A"]);
    assert mem[0] in mem;
    WhereMember<nat>(Positions(|t|), InStratum(t, ["A"]), mem[0]);
  }

  /** A stratum of one row allocated one row draws that row. */
  lemma SoleDraw(rows: seq<Row>, st: Stratum, pick: seq<nat>)
    requires |Members(rows, st.key)| == 1 && st.alloc == 1 && DrawFor(rows, st, pick)
    ensures pick == [0]
  {
  }

  /** The pre-sample draw of stratum A, the first stratum, takes its row 0. */
  lemma FirstDrawIsA(picks: seq<seq<nat>>)
    requires PreDraws(Table(), Strata(Table(), 8), picks)
    ensures Strata(Table(), 8)[0].key == ["A"]
    ensures Pick(Members(Table(), ["A"]), picks[0]) == [0]
  {
    var t, s := Table(), Strata(Table(), 8);
    TableStrata();
    assert s[0].key == ["A"] && s[0].alloc == 1;
    MembersOfA();
    assert DrawFor(t, s[0], picks[0]);
    SoleDraw(t, s[0], picks[0]);
  }

  /** The pre-sample takes stratum A's only row. */
  lemma PreTakesA(picks: seq<seq<nat>>)
    requires PreDraws(Table(), Strata(Table(), 8), picks)
    ensures PreSampleOf(Table(), Strata(Table(), 8), picks).Ok?
    ensures 0 in PreSampleOf(Table(), Strata(Table(), 8), picks).value
  {
    var t, s := Table(), Strata(Table(), 8);
    PreSampleTaken(t, 8, picks);
    StrataDistinct(t, 8);
    var pre := PreSampleOf(t, s, picks).value;
    FirstDrawIsA(picks);
    DrawnOfStratum(t, s, picks, |s|, 0);
    assert Where(pre, InStratum(t, ["A"])) == [0];
    WhereMember<nat>(pre, InStratum(t, ["A"]), 0);
  }

  /** No row of stratum A is left outside the pre-sample. */
  lemma NoSpareA(pre: seq<nat>)
    requires 0 in pre
    ensures RowsOf(Table(), Unsampled(Table(), pre), ["A"]) == []
  {
    var t := Table();
    var i :| 0 <= i < |pre| && pre[i] == 0;
    assert Map(pre, RowAt(t))[i] == t[0];
    assert !NotDrawn(t, pre)(0);
    forall x | x in Unsampled(t, pre) ensures !InStratum(t, ["A"])(x) {
      WhereMember<nat>(Positions(|t|), NotDrawn(t, pre), x);
    }
    WhereNone(Unsampled(t, pre), InStratum(t, ["A"]));
  }

  /** As written, a fill of one row whose only eligible stratum has no row left outside
      the pre-sample raises. */
  lemma FillFromFullStratum(rows: seq<Row>, strata: seq<Stratum>, pre: seq<nat>, choice: seq<nat>, picks: seq<nat>, a: Stratum)
    requires FillEligible(rows, strata, pre, 1, false) == [a]
    requires RowsOf(rows, Unsampled(rows, pre), a.key) == []
    requires IsDraw(choice, 1, 1) && |picks| == 1
    ensures FillOf(rows, strata, pre, 1, choice, picks, false) == Raises(EmptyStratum(a.key))
  {
    assert choice == [0];
    assert Select([a], choice) == [a];
    assert OnePerStratum(rows, Unsampled(rows, pre), [a], picks, 0) == Ok([]);
    assert OnePerStratum(rows, Unsampled(rows, pre), [a], picks, 1) == Raises(EmptyStratum(a.key));
  }

  /** As written, the fill of one row from this table's strata raises once the pre-sample
      holds stratum A's row: only A is eligible. */
  lemma FillRaises(pre: seq<nat>, choice: seq<nat>, picks: seq<nat>)
    requires 0 in pre
    requires |FillEligible(Table(), Strata(Table(), 8), pre, 1, false)| >= 1 ==>
      IsDraw(choice, |FillEligible(Table(), Strata(Table(), 8), pre, 1, false)|, 1)
    requires |picks| == |choice|
    ensures FillOf(Table(), Strata(Table(), 8), pre, 1, choice, picks, false) == Raises(EmptyStratum(["A"]))
  {
    var s := Strata(Table(), 8);
    TableStrata();
    WalkToOne(s);
    assert s[0].key == ["A"];
    NoSpareA(pre);
    FillFromFullStratum(Table(), s, pre, choice, picks, s[0]);
  }

  /** As written, the sample of 8 rows from this table raises whatever the draws: the fill
      can only draw stratum A, which has no row left outside the pre-sample. */
  lemma AsWrittenFillRaises(d: Draws)
    requires ValidDraws(Table(), 8, d, false)
    ensures SampleOf(Table(), 8, d, false) == Raises(EmptyStratum(["A"]))
  {
    var t, s := Table(), Strata(Table(), 8);
    PreSampleTaken(t, 8, d.pre);
    TableStrata();
    AllocatedSeven(s);
    PreTakesA(d.pre);
    var pre := PreSampleOf(t, s, d.pre).value;
    assert |pre| == 7;
    FillRaises(pre, d.strata, d.rows);
  }
}
