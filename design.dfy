/** The design of a reduced sample (class NIV_Structure_Design of
    app_modules/niv_sample_selection.py): choose the principal cities that cover a share
    of the universe, give each of them a store and an ACV target, and cascade those
    targets down to the chains of each city in proportion to their weight in it. */
module Design {
  import opened Numeric
  import opened Tables
  import opened Universe

  // ---- modes ----

  function LowerChar(ch: char): char
  {
    if 'A' <= ch <= 'Z' then (ch as int + 32) as char else ch
  }

  /** str.lower() on ASCII letters only. No other character lower-cases to a letter of the
      mode words (the Kelvin sign gives 'k', which none of them has), so which texts are
      modes does not depend on it. */
  function Lower(s: string): (r: string)
    ensures |r| == |s|
    ensures forall i :: 0 <= i < |r| ==> !('A' <= r[i] <= 'Z')
  {
    seq(|s|, i requires 0 <= i < |s| => LowerChar(s[i]))
  }

  /** The structures a sample can preserve, spelled in any case. */
  predicate IsStructureMode(s: string)
  {
    Lower(s) == "cities" || Lower(s) == "universe"
  }

  /** The criteria by which the principal cities are chosen, spelled in any case. */
  predicate IsReductionMode(s: string)
  {
    Lower(s) == "acv" || Lower(s) == "stores"
  }

  /** set_reduction_method's title: the criterion with its canonical capitals. */
  function ReductionTitle(reduction: string): (title: string)
    requires IsReductionMode(reduction)
    ensures title == "ACV" || title == "Stores"
    ensures Lower(title) == Lower(reduction)
  {
    assert Lower("ACV") == "acv" && Lower("Stores") == "stores";
    if Lower(reduction) == "acv" then "ACV" else "Stores"
  }

  /** The modes are read case-insensitively and nothing else is a mode. */
  lemma ModeSpellings()
    ensures IsStructureMode("Cities") && IsStructureMode("UNIVERSE") && !IsStructureMode("city")
    ensures IsReductionMode("Acv") && ReductionTitle("sToReS") == "Stores" && !IsReductionMode("store")
  {
    assert Lower("Cities") == "cities" && Lower("UNIVERSE") == "universe";
    assert Lower("Acv") == "acv" && Lower("sToReS") == "stores";
    assert Lower("city")[3] == 'y' && Lower("store")[4] == 'e';
  }

  /** w, a word of lower-case letters, with any of its letters capitalised. */
  predicate CaseVariant(s: string, w: string)
  {
    |s| == |w| && forall i :: 0 <= i < |s| ==> s[i] == w[i] || s[i] as int == w[i] as int - 32
  }

  predicate LowerWord(w: string)
  {
    forall i :: 0 <= i < |w| ==> 'a' <= w[i] <= 'z'
  }

  /** Lower-casing gives a lower-case word exactly when the text is that word with some
      of its letters capitalised. */
  lemma LowerMatches(s: string, w: string)
    requires LowerWord(w)
    ensures Lower(s) == w <==> CaseVariant(s, w)
  {
    if Lower(s) == w {
      forall i | 0 <= i < |s| ensures s[i] == w[i] || s[i] as int == w[i] as int - 32 {
        assert Lower(s)[i] == LowerChar(s[i]);
      }
    }
    if CaseVariant(s, w) {
      forall i | 0 <= i < |s| ensures Lower(s)[i] == w[i] {
        assert 'a' <= w[i] <= 'z';
      }
      assert Lower(s) == w;
    }
  }

  /** The modes are read case-insensitively: a text is a structure mode exactly when it
      is "cities" or "universe" in any mixture of cases, a reduction mode exactly when it
      is "acv" or "stores" so, and two texts equal but for case are both modes or neither. */
  lemma ModeCaseVariants(s: string)
    ensures IsStructureMode(s) <==> CaseVariant(s, "cities") || CaseVariant(s, "universe")
    ensures IsReductionMode(s) <==> CaseVariant(s, "acv") || CaseVariant(s, "stores")
    ensures forall t :: Lower(t) == Lower(s) ==>
      (IsStructureMode(t) <==> IsStructureMode(s)) && (IsReductionMode(t) <==> IsReductionMode(s))
  {
    assert LowerWord("cities") && LowerWord("universe") && LowerWord("acv") && LowerWord("stores");
    LowerMatches(s, "cities");
    LowerMatches(s, "universe");
    LowerMatches(s, "acv");
    LowerMatches(s, "stores");
  }

  // ---- get_closest ----

  /** abs_diff_func: |target - v|. */
  function Distance(target: real, v: int): (d: real)
    ensures 0.0 <= d
    ensures d == target - v as real || d == v as real - target
  {
    if v as real <= target then target - v as real else v as real - target
  }

  /** The position min() settles on: nearest to the target, the first such on ties. */
  function ClosestIndex(values: seq<int>, target: real): (k: nat)
    requires values != []
    ensures k < |values|
    ensures forall j :: 0 <= j < |values| ==> Distance(target, values[k]) <= Distance(target, values[j])
    ensures forall j :: 0 <= j < k ==> Distance(target, values[k]) < Distance(target, values[j])
  {
    if |values| == 1 then 0
    else
      var k := ClosestIndex(values[..|values| - 1], target);
      if Distance(target, values[|values| - 1]) < Distance(target, values[k]) then |values| - 1 else k
  }

  /** get_closest: a member of the list nearest to the target, the first one on ties;
      min() of an empty list raises, reported as None. */
  function GetClosest(values: seq<int>, target: real): (r: Option<int>)
    ensures r.None? <==> values == []
    ensures r.Some? ==> r.value in values
    ensures r.Some? ==> forall v :: v in values ==> Distance(target, r.value) <= Distance(target, v)
    ensures r.Some? ==>
      exists k :: 0 <= k < |values| && values[k] == r.value
        && forall j :: 0 <= j < k ==> Distance(target, values[j]) > Distance(target, r.value)
  {
    if values == [] then None else Some(values[ClosestIndex(values, target)])
  }

  // ---- get_principal_cities ----

  /** The column 'City <title> Cumm Sum (%)'. */
  function CumColumn(title: string): StratumRow -> int
  {
    if title == "ACV" then RowAcvCum else RowStoreCum
  }

  function AtMost(title: string, bound: int): StratumRow -> bool
  {
    r => CumColumn(title)(r) <= bound
  }

  /** The distinct cumulative values of the city table, in order (unique().tolist()). */
  function CumValues(cityStc: seq<StratumRow>, title: string): seq<int>
  {
    Distinct(Map(cityStc, CumColumn(title)))
  }

  /** The city rows whose cumulative share is at most the cumulative value closest to
      citiesWeight (a fraction, so citiesWeight * 10000 hundredths of a percent). */
  function PrincipalCities(cityStc: seq<StratumRow>, title: string, citiesWeight: real): Option<seq<StratumRow>>
  {
    match GetClosest(CumValues(cityStc, title), citiesWeight * 10000.0)
    case None => None
    case Some(c) => Some(Filter(cityStc, AtMost(title, c)))
  }

  /** On a city table whose cumulative column never decreases, the principal cities are a
      non-empty prefix of the table: they always include the heaviest city, and the last of
      them carries exactly the closest cumulative value. */
  lemma PrincipalCitiesPrefix(cityStc: seq<StratumRow>, title: string, citiesWeight: real)
    requires cityStc != []
    requires forall i, j :: 0 <= i <= j < |cityStc| ==> CumColumn(title)(cityStc[i]) <= CumColumn(title)(cityStc[j])
    ensures var r := PrincipalCities(cityStc, title, citiesWeight);
      && r.Some?
      && exists k :: 1 <= k <= |cityStc| && r.value == cityStc[..k] &&
           CumColumn(title)(cityStc[k - 1]) == GetClosest(CumValues(cityStc, title), citiesWeight * 10000.0).value
  {
    var cum := CumColumn(title);
    var vals := Map(cityStc, cum);
    var c := GetClosest(CumValues(cityStc, title), citiesWeight * 10000.0).value;
    assert c in vals;
    var j :| 0 <= j < |vals| && vals[j] == c;
    var k := MonotoneCut(cityStc, cum, AtMost(title, c), c, j);
  }

  /** On the city breakdown of a universe with non-negative ACV, the principal cities by
      either criterion are a non-empty prefix of the breakdown. */
  lemma PrincipalCitiesOfUniverse(stores: seq<Store>, title: string, citiesWeight: real)
    requires stores != [] && Sum(stores, Acv) != 0
    requires forall i :: 0 <= i < |stores| ==> stores[i].acv >= 0
    ensures var cityStc := AllStructures(stores).city;
      var r := PrincipalCities(cityStc, title, citiesWeight);
      r.Some? && exists k :: 1 <= k <= |cityStc| && r.value == cityStc[..k]
  {
    var u, n := Sum(stores, Acv), |stores|;
    var cityStc := AllStructures(stores).city;
    CumulativeColumns(City, stores);
    SampleStructureNonEmpty(City, stores, u, n);
    PrincipalCitiesPrefix(cityStc, title, citiesWeight);
  }

  // ---- target_parameters_df ----

  /** A row of the city table of the selected cities with its two targets. */
  datatype CityTarget = CityTarget(row: StratumRow, targetStores: int, targetAcv: int)

  /** The targets of one city. In 'cities' mode: the city's own store count and ACV times
      the target fractions. In 'universe' mode: the city's weights in the reduced universe
      times the reduced universe's rounded targets. Both rounded half to even. */
  function CityTargetOf(structure: string, r: StratumRow, targetStores: real, targetAcv: real,
                        uStoreSample: int, uAcvSample: int): CityTarget
  {
    if Lower(structure) == "cities" then
      CityTarget(r, RoundHalfEven(Scale(r.storeCount, targetStores)), RoundHalfEven(Scale(r.acv, targetAcv)))
    else
      CityTarget(r, RoundHalfEven(Scale(uStoreSample, r.storeWeight as real / 10000.0)),
                 RoundHalfEven(Scale(uAcvSample, r.acvWeight as real / 10000.0)))
  }

  function CityTargets(structure: string, rows: seq<StratumRow>, targetStores: real, targetAcv: real,
                       uStoreSample: int, uAcvSample: int): (r: seq<CityTarget>)
  {
    seq(|rows|, i requires 0 <= i < |rows| =>
      CityTargetOf(structure, rows[i], targetStores, targetAcv, uStoreSample, uAcvSample))
  }

  function RowCityId(r: StratumRow): int { r.key.cityId }

  /** selected_cities_df['City_ID'].unique(). */
  function SelectedCityIds(rows: seq<StratumRow>): seq<int>
  {
    Distinct(Map(rows, RowCityId))
  }

  function InCities(ids: seq<int>): RawStore -> bool
  {
    (x: RawStore) => x.cityId in ids
  }

  /** data[data.City_ID.isin(ids)]. */
  function CitiesTable(t: RawTable, ids: seq<int>): RawTable
  {
    t.(rows := Filter(t.rows, InCities(ids)))
  }

  /** target_parameters_df: the city breakdown of the stores of the principal cities, with
      the store and ACV targets of each city; None when there are no cities or the reduced
      universe has no defined share. */
  function TargetParameters(data: RawTable, cityStc: seq<StratumRow>, structure: string, reduction: string,
                            citiesWeight: real, parameterAcv: real, parameterStores: real): Option<seq<CityTarget>>
    requires IsReductionMode(reduction)
  {
    match PrincipalCities(cityStc, ReductionTitle(reduction), citiesWeight)
    case None => None
    case Some(sel) => TargetsFor(data, sel, structure, parameterAcv, parameterStores)
  }

  /** The targets of the given principal cities: u_store_sample and u_acv_sample are the
      reduced universe's totals times the target fractions, rounded. */
  function TargetsFor(data: RawTable, sel: seq<StratumRow>, structure: string,
                      parameterAcv: real, parameterStores: real): Option<seq<CityTarget>>
  {
    var uStoreSample := RoundHalfEven(Scale(Sum(sel, RowCount), parameterStores));
    var uAcvSample := RoundHalfEven(Scale(Sum(sel, RowAcv), parameterAcv));
    match StructuresOf(RequiredColumns, CitiesTable(data, SelectedCityIds(sel)))
    case None => None
    case Some(s) => Some(CityTargets(structure, s.city, parameterStores, parameterAcv, uStoreSample, uAcvSample))
  }

  function TargetStores(t: CityTarget): int { t.targetStores }
  function TargetAcv(t: CityTarget): int { t.targetAcv }
  function TargetCount(t: CityTarget): int { t.row.storeCount }
  function TargetRowAcv(t: CityTarget): int { t.row.acv }

  /** In 'cities' mode, with target fractions between 0 and 1, each city keeps its row
      and its targets lie between 0 and its own store count and ACV. */
  lemma CitiesModeBounds(structure: string, rows: seq<StratumRow>, targetStores: real, targetAcv: real,
                         uStoreSample: int, uAcvSample: int)
    requires Lower(structure) == "cities"
    requires 0.0 <= targetStores <= 1.0 && 0.0 <= targetAcv <= 1.0
    requires forall i :: 0 <= i < |rows| ==> 0 <= rows[i].storeCount && 0 <= rows[i].acv
    ensures var t := CityTargets(structure, rows, targetStores, targetAcv, uStoreSample, uAcvSample);
      |t| == |rows| && forall i :: 0 <= i < |t| ==>
        && t[i].row == rows[i]
        && 0 <= t[i].targetStores <= rows[i].storeCount
        && 0 <= t[i].targetAcv <= rows[i].acv
  {
    var t := CityTargets(structure, rows, targetStores, targetAcv, uStoreSample, uAcvSample);
    forall i | 0 <= i < |t|
      ensures t[i].row == rows[i]
      ensures 0 <= t[i].targetStores <= rows[i].storeCount && 0 <= t[i].targetAcv <= rows[i].acv
    {
      var r := rows[i];
      ScaleBetween(r.storeCount, targetStores);
      RoundAtLeastZero(Scale(r.storeCount, targetStores));
      RoundAtMost(Scale(r.storeCount, targetStores), r.storeCount);
      ScaleBetween(r.acv, targetAcv);
      RoundAtLeastZero(Scale(r.acv, targetAcv));
      RoundAtMost(Scale(r.acv, targetAcv), r.acv);
    }
  }

  /** In 'universe' mode, with weights between 0 and 100.00 %, each city keeps its row and
      its targets lie between 0 and the reduced universe's rounded targets. */
  lemma UniverseModeBounds(structure: string, rows: seq<StratumRow>, targetStores: real, targetAcv: real,
                           uStoreSample: int, uAcvSample: int)
    requires Lower(structure) != "cities"
    requires 0 <= uStoreSample && 0 <= uAcvSample
    requires forall i :: 0 <= i < |rows| ==>
      0 <= rows[i].storeWeight <= 10000 && 0 <= rows[i].acvWeight <= 10000
    ensures var t := CityTargets(structure, rows, targetStores, targetAcv, uStoreSample, uAcvSample);
      |t| == |rows| && forall i :: 0 <= i < |t| ==>
        && t[i].row == rows[i]
        && 0 <= t[i].targetStores <= uStoreSample
        && 0 <= t[i].targetAcv <= uAcvSample
  {
    var t := CityTargets(structure, rows, targetStores, targetAcv, uStoreSample, uAcvSample);
    forall i | 0 <= i < |t|
      ensures t[i].row == rows[i]
      ensures 0 <= t[i].targetStores <= uStoreSample && 0 <= t[i].targetAcv <= uAcvSample
    {
      var r := rows[i];
      var ks, ka := r.storeWeight as real / 10000.0, r.acvWeight as real / 10000.0;
      ScaleBetween(uStoreSample, ks);
      RoundAtLeastZero(Scale(uStoreSample, ks));
      RoundAtMost(Scale(uStoreSample, ks), uStoreSample);
      ScaleBetween(uAcvSample, ka);
      RoundAtLeastZero(Scale(uAcvSample, ka));
      RoundAtMost(Scale(uAcvSample, ka), uAcvSample);
    }
  }

  /** In 'cities' mode each city's targets are its own store count and ACV times the
      target fractions, rounded. */
  lemma CitiesModeTargets(structure: string, rows: seq<StratumRow>, targetStores: real, targetAcv: real,
                          uStoreSample: int, uAcvSample: int)
    requires Lower(structure) == "cities"
    ensures var t := CityTargets(structure, rows, targetStores, targetAcv, uStoreSample, uAcvSample);
      forall i :: 0 <= i < |t| ==>
        && TargetStores(t[i]) == RoundHalfEven(Scaled(TargetCount, targetStores)(t[i]))
        && TargetAcv(t[i]) == RoundHalfEven(Scaled(TargetRowAcv, targetAcv)(t[i]))
  {
    var t := CityTargets(structure, rows, targetStores, targetAcv, uStoreSample, uAcvSample);
    forall i | 0 <= i < |t|
      ensures TargetStores(t[i]) == RoundHalfEven(Scaled(TargetCount, targetStores)(t[i]))
      ensures TargetAcv(t[i]) == RoundHalfEven(Scaled(TargetRowAcv, targetAcv)(t[i]))
    {
      var r := rows[i];
      assert t[i] == CityTargetOf(structure, r, targetStores, targetAcv, uStoreSample, uAcvSample);
      assert t[i].targetStores == RoundHalfEven(Scale(r.storeCount, targetStores));
      assert t[i].targetAcv == RoundHalfEven(Scale(r.acv, targetAcv));
      assert Scaled(TargetCount, targetStores)(t[i]) == Scale(TargetCount(t[i]), targetStores);
      assert Scaled(TargetRowAcv, targetAcv)(t[i]) == Scale(TargetRowAcv(t[i]), targetAcv);
      assert TargetCount(t[i]) == r.storeCount && TargetRowAcv(t[i]) == r.acv;
    }
  }

  /** In 'universe' mode each city's targets are its weights times the rounded targets of
      the reduced universe, rounded. */
  lemma UniverseModeTargets(structure: string, rows: seq<StratumRow>, targetStores: real, targetAcv: real,
                            uStoreSample: int, uAcvSample: int)
    requires Lower(structure) != "cities"
    ensures var t := CityTargets(structure, rows, targetStores, targetAcv, uStoreSample, uAcvSample);
      forall i :: 0 <= i < |t| ==>
        && TargetStores(t[i]) == RoundHalfEven(Scaled(TargetStoreWeight, uStoreSample as real / 10000.0)(t[i]))
        && TargetAcv(t[i]) == RoundHalfEven(Scaled(TargetAcvWeight, uAcvSample as real / 10000.0)(t[i]))
  {
    var t := CityTargets(structure, rows, targetStores, targetAcv, uStoreSample, uAcvSample);
    forall i | 0 <= i < |t|
      ensures TargetStores(t[i]) == RoundHalfEven(Scaled(TargetStoreWeight, uStoreSample as real / 10000.0)(t[i]))
      ensures TargetAcv(t[i]) == RoundHalfEven(Scaled(TargetAcvWeight, uAcvSample as real / 10000.0)(t[i]))
    {
      var r := rows[i];
      var ks, ka := uStoreSample as real / 10000.0, uAcvSample as real / 10000.0;
      assert t[i] == CityTargetOf(structure, r, targetStores, targetAcv, uStoreSample, uAcvSample);
      assert t[i].targetStores == RoundHalfEven(Scale(uStoreSample, r.storeWeight as real / 10000.0));
      assert t[i].targetAcv == RoundHalfEven(Scale(uAcvSample, r.acvWeight as real / 10000.0));
      ScaleSwap(uStoreSample, r.storeWeight);
      ScaleSwap(uAcvSample, r.acvWeight);
      assert Scaled(TargetStoreWeight, ks)(t[i]) == Scale(TargetStoreWeight(t[i]), ks);
      assert Scaled(TargetAcvWeight, ka)(t[i]) == Scale(TargetAcvWeight(t[i]), ka);
      assert TargetStoreWeight(t[i]) == r.storeWeight && TargetAcvWeight(t[i]) == r.acvWeight;
    }
  }

  /** u * (w / 10000) == w * (u / 10000). */
  lemma ScaleSwap(u: int, w: int)
    ensures Scale(u, w as real / 10000.0) == Scale(w, u as real / 10000.0)
  {
    ScaleTenThousandth(u, w as real);
    ScaleTenThousandth(w, u as real);
    ScaleOfInteger(u, w);
    ScaleOfInteger(w, u);
    assert u * w == w * u;
  }

  /** In 'cities' mode the city targets add up to the target fractions of the cities'
      store count and ACV, up to half a unit per city. */
  lemma CityTargetsDrift(structure: string, rows: seq<StratumRow>, targetStores: real, targetAcv: real,
                         uStoreSample: int, uAcvSample: int)
    requires Lower(structure) == "cities"
    ensures var t := CityTargets(structure, rows, targetStores, targetAcv, uStoreSample, uAcvSample);
      var half := |rows| as real / 2.0;
      && Scale(Sum(rows, RowCount), targetStores) - half <= Sum(t, TargetStores) as real
      && Sum(t, TargetStores) as real <= Scale(Sum(rows, RowCount), targetStores) + half
      && Scale(Sum(rows, RowAcv), targetAcv) - half <= Sum(t, TargetAcv) as real
      && Sum(t, TargetAcv) as real <= Scale(Sum(rows, RowAcv), targetAcv) + half
  {
    var t := CityTargets(structure, rows, targetStores, targetAcv, uStoreSample, uAcvSample);
    CitiesModeTargets(structure, rows, targetStores, targetAcv, uStoreSample, uAcvSample);
    Carried(t, rows, TargetCount, RowCount, targetStores, TargetStores);
    Carried(t, rows, TargetRowAcv, RowAcv, targetAcv, TargetAcv);
  }

  /** In 'universe' mode the city targets add up to the weights' share of the rounded
      reduced-universe targets, up to half a unit per city. */
  lemma UniverseTargetsDrift(structure: string, rows: seq<StratumRow>, targetStores: real, targetAcv: real,
                             uStoreSample: int, uAcvSample: int)
    requires Lower(structure) != "cities"
    ensures var t := CityTargets(structure, rows, targetStores, targetAcv, uStoreSample, uAcvSample);
      var half := |rows| as real / 2.0;
      var ws := Scale(Sum(rows, RowStoreWeight), uStoreSample as real / 10000.0);
      var wa := Scale(Sum(rows, RowAcvWeight), uAcvSample as real / 10000.0);
      ws - half <= Sum(t, TargetStores) as real <= ws + half && wa - half <= Sum(t, TargetAcv) as real <= wa + half
  {
    var t := CityTargets(structure, rows, targetStores, targetAcv, uStoreSample, uAcvSample);
    UniverseModeTargets(structure, rows, targetStores, targetAcv, uStoreSample, uAcvSample);
    Carried(t, rows, TargetStoreWeight, RowStoreWeight, uStoreSample as real / 10000.0, TargetStores);
    Carried(t, rows, TargetAcvWeight, RowAcvWeight, uAcvSample as real / 10000.0, TargetAcv);
  }

  /** The rounding drift of a column computed row by row from a column of another table. */
  lemma Carried<T, U>(t: seq<T>, rows: seq<U>, a: T -> int, b: U -> int, k: real, g: T -> int)
    requires |t| == |rows|
    requires forall i :: 0 <= i < |t| ==> a(t[i]) == b(rows[i])
    requires forall i :: 0 <= i < |t| ==> g(t[i]) == RoundHalfEven(Scaled(a, k)(t[i]))
    ensures Scale(Sum(rows, b), k) - |rows| as real / 2.0 <= Sum(t, g) as real <= Scale(Sum(rows, b), k) + |rows| as real / 2.0
  {
    SumPointwise(t, a, rows, b);
    ScaledDrift(t, a, k, g);
  }

  function RowStoreWeight(r: StratumRow): int { r.storeWeight }
  function RowAcvWeight(r: StratumRow): int { r.acvWeight }
  function TargetStoreWeight(t: CityTarget): int { t.row.storeWeight }
  function TargetAcvWeight(t: CityTarget): int { t.row.acvWeight }

  // ---- new_sample_structure ----

  function TargetCityId(t: CityTarget): int { t.row.key.cityId }

  /** The columns City_ID, Target Stores (City) and Target ACV (City) of a city target. */
  datatype CityParams = CityParams(cityId: int, targetStores: int, targetAcv: int)

  function ParamsOf(t: CityTarget): CityParams { CityParams(t.row.key.cityId, t.targetStores, t.targetAcv) }

  /** A row of the detailed breakdown joined with the targets of its city. */
  datatype Working = Working(row: StratumRow, cityStores: int, cityAcv: int)

  function Attach(l: StratumRow, p: CityParams): Working { Working(l, p.targetStores, p.targetAcv) }

  function WorkingCity(w: Working): int { w.row.key.cityId }
  function WorkingAcv(w: Working): int { w.row.acv }
  function WorkingCount(w: Working): int { w.row.storeCount }

  /** The rows the inner join on City_ID makes of one row of the left table. */
  function Joined(l: StratumRow, params: seq<CityParams>): (r: seq<Working>)
    ensures forall x :: x in r <==>
      exists j :: 0 <= j < |params| && params[j].cityId == l.key.cityId && x == Attach(l, params[j])
  {
    if params == [] then []
    else
      var init, p := params[..|params| - 1], params[|params| - 1];
      assert forall j :: 0 <= j < |init| ==> init[j] == params[j];
      Joined(l, init) + if p.cityId == l.key.cityId then [Attach(l, p)] else []
  }

  /** pd.merge(left, params, on='City_ID'): each left row joined with every target row of
      its city, left rows that find none dropped. */
  function MergeOnCity(left: seq<StratumRow>, params: seq<CityParams>): (r: seq<Working>)
    ensures forall x :: x in r <==>
      exists i, j :: 0 <= i < |left| && 0 <= j < |params| && params[j].cityId == left[i].key.cityId
        && x == Attach(left[i], params[j])
  {
    if left == [] then []
    else
      var init := left[..|left| - 1];
      assert forall i :: 0 <= i < |init| ==> init[i] == left[i];
      MergeOnCity(init, params) + Joined(left[|left| - 1], params)
  }

  function OfCity(id: int): Working -> bool { w => WorkingCity(w) == id }

  function FrameOf(working: seq<Working>): int -> seq<Working> { id => Filter(working, OfCity(id)) }

  /** city_df_ls: the rows of each city, cities in order of first appearance. */
  function CityFrames(working: seq<Working>): seq<seq<Working>>
  {
    Map(Distinct(Map(working, WorkingCity)), FrameOf(working))
  }

  /** part / whole * 100 / 100 * target, the share of a chain in its city applied to the
      city's target; None where pandas gets NaN or an infinity, a city whose total is zero. */
  function ShareOf(part: int, whole: int, target: int): Option<real>
  {
    if whole == 0 then None else Some(Scale(part, target as real / whole as real))
  }

  function RoundOption(x: Option<real>): Option<int>
  {
    match x
    case None => None
    case Some(v) => Some(RoundHalfEven(v))
  }

  /** A row of the new structure: the chain, its city and its two targets. */
  datatype ChainTarget = ChainTarget(key: Key, targetStores: Option<int>, targetAcv: Option<int>)

  function ChainTargetOf(w: Working, totalStores: int, totalAcv: int): ChainTarget
  {
    ChainTarget(w.row.key, RoundOption(ShareOf(w.row.storeCount, totalStores, w.cityStores)),
                RoundOption(ShareOf(w.row.acv, totalAcv, w.cityAcv)))
  }

  /** The targets of the chains of one city frame, rounded. */
  function FrameTargets(frame: seq<Working>): seq<ChainTarget>
  {
    var ts, ta := Sum(frame, WorkingCount), Sum(frame, WorkingAcv);
    seq(|frame|, i requires 0 <= i < |frame| => ChainTargetOf(frame[i], ts, ta))
  }

  /** pd.concat of the city frames. */
  function ChainTargets(frames: seq<seq<Working>>): seq<ChainTarget>
  {
    Flatten(Map(frames, FrameTargets))
  }

  /** new_sample_structure: the chains of the principal cities with their targets; None
      where the city targets are. */
  function NewStructure(data: RawTable, cityStc: seq<StratumRow>, structure: string, reduction: string,
                        citiesWeight: real, parameterAcv: real, parameterStores: real): Option<seq<ChainTarget>>
    requires IsReductionMode(reduction)
  {
    match TargetParameters(data, cityStc, structure, reduction, citiesWeight, parameterAcv, parameterStores)
    case None => None
    case Some(ct) => ChainsFor(data, ct)
  }

  /** The chains of the cities of the city targets ct, their city's targets cascaded down. */
  function ChainsFor(data: RawTable, ct: seq<CityTarget>): Option<seq<ChainTarget>>
  {
    match StructuresOf(RequiredColumns, CitiesTable(data, Distinct(Map(ct, TargetCityId))))
    case None => None
    case Some(s) => Some(ChainTargets(CityFrames(MergeOnCity(s.detailed, Map(ct, ParamsOf)))))
  }

  // ---- what the chain targets satisfy ----

  /** The chain targets summed as pandas sums them, skipping NaN. */
  function StoresOr0(c: ChainTarget): int { if c.targetStores.Some? then c.targetStores.value else 0 }
  function AcvOr0(c: ChainTarget): int { if c.targetAcv.Some? then c.targetAcv.value else 0 }

  /** Within a city frame whose rows carry the city's store target, every chain gets
      round(its store count / the city's store count * the target); these exact shares
      add up to the city target, and the rounded ones to within half a store per chain. */
  lemma FrameStoreTargets(frame: seq<Working>, target: int)
    requires forall i :: 0 <= i < |frame| ==> frame[i].cityStores == target
    requires Sum(frame, WorkingCount) != 0
    ensures var r := FrameTargets(frame);
      var k := target as real / Sum(frame, WorkingCount) as real;
      && |r| == |frame|
      && (forall i :: 0 <= i < |r| ==>
            r[i].key == frame[i].row.key && r[i].targetStores == Some(RoundHalfEven(Scale(frame[i].row.storeCount, k))))
      && RealSum(frame, Scaled(WorkingCount, k)) == target as real
      && target as real - |frame| as real / 2.0 <= Sum(r, StoresOr0) as real <= target as real + |frame| as real / 2.0
  {
    var r := FrameTargets(frame);
    var k := target as real / Sum(frame, WorkingCount) as real;
    forall i | 0 <= i < |r|
      ensures r[i].targetStores == Some(RoundHalfEven(Scale(frame[i].row.storeCount, k)))
      ensures StoresOr0(r[i]) == Rounded(WorkingCount, k)(frame[i])
    {
      var w := frame[i];
      assert r[i] == ChainTargetOf(w, Sum(frame, WorkingCount), Sum(frame, WorkingAcv));
      assert w.cityStores as real / Sum(frame, WorkingCount) as real == k;
      assert r[i].targetStores == Some(RoundHalfEven(Scale(w.row.storeCount, k)));
      assert Rounded(WorkingCount, k)(w) == RoundHalfEven(Scale(WorkingCount(w), k));
      assert WorkingCount(w) == w.row.storeCount;
    }
    SumPointwise(r, StoresOr0, frame, Rounded(WorkingCount, k));
    ShareDrift(frame, WorkingCount, target);
  }

  /** The same for ACV: within a city frame whose rows carry the city's ACV target and
      whose ACV total is not zero, the chains' exact ACV shares add up to the target and
      the rounded ones to within half a unit per chain. */
  lemma FrameAcvTargets(frame: seq<Working>, target: int)
    requires forall i :: 0 <= i < |frame| ==> frame[i].cityAcv == target
    requires Sum(frame, WorkingAcv) != 0
    ensures var r := FrameTargets(frame);
      var k := target as real / Sum(frame, WorkingAcv) as real;
      && |r| == |frame|
      && (forall i :: 0 <= i < |r| ==> r[i].targetAcv == Some(RoundHalfEven(Scale(frame[i].row.acv, k))))
      && RealSum(frame, Scaled(WorkingAcv, k)) == target as real
      && target as real - |frame| as real / 2.0 <= Sum(r, AcvOr0) as real <= target as real + |frame| as real / 2.0
  {
    var r := FrameTargets(frame);
    var k := target as real / Sum(frame, WorkingAcv) as real;
    forall i | 0 <= i < |r|
      ensures r[i].targetAcv == Some(RoundHalfEven(Scale(frame[i].row.acv, k)))
      ensures AcvOr0(r[i]) == Rounded(WorkingAcv, k)(frame[i])
    {
      var w := frame[i];
      assert r[i] == ChainTargetOf(w, Sum(frame, WorkingCount), Sum(frame, WorkingAcv));
      assert w.cityAcv as real / Sum(frame, WorkingAcv) as real == k;
      assert r[i].targetAcv == Some(RoundHalfEven(Scale(w.row.acv, k)));
      assert Rounded(WorkingAcv, k)(w) == RoundHalfEven(Scale(WorkingAcv(w), k));
      assert WorkingAcv(w) == w.row.acv;
    }
    SumPointwise(r, AcvOr0, frame, Rounded(WorkingAcv, k));
    ShareDrift(frame, WorkingAcv, target);
  }

  /** A city whose ACV total is zero gets no ACV target for any of its chains (NaN). */
  lemma FrameWithoutAcv(frame: seq<Working>)
    requires Sum(frame, WorkingAcv) == 0
    ensures forall c :: c in FrameTargets(frame) ==> c.targetAcv.None?
  {
    var r := FrameTargets(frame);
    forall c | c in r ensures c.targetAcv.None? {
      var i :| 0 <= i < |r| && r[i] == c;
      assert r[i] == ChainTargetOf(frame[i], Sum(frame, WorkingCount), 0);
    }
  }

  /** The city frames split the working table: each is a non-empty set of rows of one city,
      no two frames share a city, and together they hold exactly the rows of the table. */
  lemma CityFramesPartition(working: seq<Working>)
    ensures var frames := CityFrames(working);
      && (forall x :: x in Flatten(frames) <==> x in working)
      && (forall i :: 0 <= i < |frames| ==>
            frames[i] != [] && forall x :: x in frames[i] ==> WorkingCity(x) == WorkingCity(frames[i][0]))
      && (forall i, j :: 0 <= i < j < |frames| ==> WorkingCity(frames[i][0]) != WorkingCity(frames[j][0]))
  {
    var ids := Distinct(Map(working, WorkingCity));
    var frames := CityFrames(working);
    forall i | 0 <= i < |frames|
      ensures frames[i] != [] && forall x :: x in frames[i] ==> WorkingCity(x) == WorkingCity(frames[i][0])
      ensures WorkingCity(frames[i][0]) == ids[i]
    {
      CityFrame(working, i);
    }
    forall x
      ensures x in Flatten(frames) <==> x in working
    {
      FlattenMember(frames, x);
      if x in working {
        CityFrameOfRow(working, x);
      }
    }
  }

  /** The i-th frame is the non-empty set of rows of the i-th distinct city. */
  lemma CityFrame(working: seq<Working>, i: nat)
    requires i < |CityFrames(working)|
    ensures var ids := Distinct(Map(working, WorkingCity));
      var f := CityFrames(working)[i];
      && f == Filter(working, OfCity(ids[i]))
      && f != [] && WorkingCity(f[0]) == ids[i]
      && forall x :: x in f ==> WorkingCity(x) == ids[i]
  {
    var ids := Distinct(Map(working, WorkingCity));
    var f := CityFrames(working)[i];
    var cities := Map(working, WorkingCity);
    assert f == FrameOf(working)(ids[i]);
    assert ids[i] in cities;
    var j :| 0 <= j < |working| && cities[j] == ids[i];
    assert OfCity(ids[i])(working[j]);
    assert working[j] in f;
    assert OfCity(ids[i])(f[0]);
  }

  /** Every row lies in the frame of its city. */
  lemma CityFrameOfRow(working: seq<Working>, x: Working)
    requires x in working
    ensures exists i :: 0 <= i < |CityFrames(working)| && x in CityFrames(working)[i]
  {
    var ids := Distinct(Map(working, WorkingCity));
    var cities := Map(working, WorkingCity);
    var j :| 0 <= j < |working| && working[j] == x;
    assert cities[j] == WorkingCity(x);
    assert WorkingCity(x) in ids;
    var i :| 0 <= i < |ids| && ids[i] == WorkingCity(x);
    CityFrame(working, i);
    assert OfCity(ids[i])(x);
  }

  /** A joined row carries the targets of a target row of its own city. */
  lemma MergedTargets(left: seq<StratumRow>, params: seq<CityParams>, x: Working) returns (j: nat)
    requires x in MergeOnCity(left, params)
    ensures j < |params| && params[j].cityId == WorkingCity(x)
    ensures x.cityStores == params[j].targetStores && x.cityAcv == params[j].targetAcv
  {
    var i :| 0 <= i < |left| &&
      exists j :: 0 <= j < |params| && params[j].cityId == left[i].key.cityId && x == Attach(left[i], params[j]);
    j :| 0 <= j < |params| && params[j].cityId == left[i].key.cityId && x == Attach(left[i], params[j]);
  }

  /** Two joined rows of the same city carry the same targets when no city has two
      target rows. */
  lemma SameCitySameTargets(left: seq<StratumRow>, params: seq<CityParams>, x: Working, y: Working)
    requires NoDup(Map(params, ParamsCity))
    requires x in MergeOnCity(left, params) && y in MergeOnCity(left, params)
    requires WorkingCity(x) == WorkingCity(y)
    ensures x.cityStores == y.cityStores && x.cityAcv == y.cityAcv
  {
    var j1 := MergedTargets(left, params, x);
    var j2 := MergedTargets(left, params, y);
    var ids := Map(params, ParamsCity);
    assert ids[j1] == ids[j2];
    assert j1 == j2;
  }

  function ParamsCity(p: CityParams): int { p.cityId }

  /** When no city has two target rows, every row of a city frame of the join carries the
      same city targets, so the frame lemmas apply to every city. */
  lemma MergedFramesUniform(left: seq<StratumRow>, params: seq<CityParams>)
    requires NoDup(Map(params, ParamsCity))
    ensures var frames := CityFrames(MergeOnCity(left, params));
      forall i, a :: 0 <= i < |frames| && 0 <= a < |frames[i]| ==>
        frames[i][a].cityStores == frames[i][0].cityStores && frames[i][a].cityAcv == frames[i][0].cityAcv
  {
    var working := MergeOnCity(left, params);
    var frames: seq<seq<Working>> := CityFrames(working);
    CityFramesPartition(working);
    forall i: int, a: int | 0 <= i < |frames| && 0 <= a < |frames[i]|
      ensures frames[i][a].cityStores == frames[i][0].cityStores && frames[i][a].cityAcv == frames[i][0].cityAcv
    {
      var x, y := frames[i][a], frames[i][0];
      assert x in frames[i] && y in frames[i];
      FlattenMember(frames, x);
      FlattenMember(frames, y);
      SameCitySameTargets(left, params, x, y);
    }
  }

  // ---- only the principal cities reach the new structure ----

  /** Every store of the cities table lies in one of the listed cities. */
  lemma StoresOfCities(t: RawTable, ids: seq<int>)
    requires AcvCastable(CitiesTable(t, ids).rows)
    ensures var stores := CheckedStores(CitiesTable(t, ids));
      forall m :: 0 <= m < |stores| ==> stores[m].cityId in ids
  {
    var rows := CitiesTable(t, ids).rows;
    var stores := CheckedStores(CitiesTable(t, ids));
    CastPointwise(rows);
    TypedPointwise(CastAcv(rows));
    forall m | 0 <= m < |stores| ensures stores[m].cityId in ids {
      assert stores[m] == ToStore(CastAcv(rows)[m]);
      assert InCities(ids)(rows[m]);
    }
  }

  /** The city and detailed breakdowns of the cities table only hold the listed cities. */
  lemma BreakdownInCities(t: RawTable, ids: seq<int>)
    requires StructuresOf(RequiredColumns, CitiesTable(t, ids)).Some?
    ensures var s := StructuresOf(RequiredColumns, CitiesTable(t, ids)).value;
      && (forall i :: 0 <= i < |s.city| ==> s.city[i].key.cityId in ids)
      && (forall i :: 0 <= i < |s.detailed| ==> s.detailed[i].key.cityId in ids)
  {
    var stores := CheckedStores(CitiesTable(t, ids));
    StoresOfCities(t, ids);
    var u, n := Sum(stores, Acv), |stores|;
    RowsInCities(City, stores, u, n, ids);
    RowsInCities(Detailed, stores, u, n, ids);
  }

  /** Every City_ID of the table names one city: the city breakdown then has one row
      per City_ID. */
  predicate CityIdsNamed(rows: seq<RawStore>)
  {
    forall x, y :: x in rows && y in rows && x.cityId == y.cityId ==> x.city == y.city
  }

  predicate StoreCityIdsNamed(stores: seq<Store>)
  {
    forall a, b :: 0 <= a < |stores| && 0 <= b < |stores| && stores[a].cityId == stores[b].cityId ==>
      stores[a].city == stores[b].city
  }

  lemma StoresNamed(t: RawTable, ids: seq<int>)
    requires AcvCastable(CitiesTable(t, ids).rows) && CityIdsNamed(t.rows)
    ensures StoreCityIdsNamed(CheckedStores(CitiesTable(t, ids)))
  {
    var rows := CitiesTable(t, ids).rows;
    var stores := CheckedStores(CitiesTable(t, ids));
    CastPointwise(rows);
    TypedPointwise(CastAcv(rows));
    forall a, b | 0 <= a < |stores| && 0 <= b < |stores| && stores[a].cityId == stores[b].cityId
      ensures stores[a].city == stores[b].city
    {
      assert stores[a] == ToStore(CastAcv(rows)[a]) && stores[b] == ToStore(CastAcv(rows)[b]);
      assert rows[a] in rows && rows[b] in rows;
    }
  }

  /** The city breakdown of stores whose City_IDs each name one city lists each City_ID once. */
  lemma CityIdsOnce(stores: seq<Store>, u: int, n: int)
    requires (u != 0 && n != 0) || stores == []
    requires StoreCityIdsNamed(stores)
    ensures NoDup(Map(SampleStructure(City, stores, u, n), RowCityId))
  {
    SampleStructureKeys(City, stores, u, n);
    SampleStructureFromStores(City, stores, u, n);
    CityIdsOnceOf(SampleStructure(City, stores, u, n), stores);
  }

  lemma CityIdsOnceOf(r: seq<StratumRow>, stores: seq<Store>)
    requires NoDup(Map(r, RowKey)) && StoreCityIdsNamed(stores)
    requires forall i :: 0 <= i < |r| ==> exists j :: 0 <= j < |stores| && KeyOf(City, stores[j]) == r[i].key
    ensures NoDup(Map(r, RowCityId))
  {
    var ids := Map(r, RowCityId);
    forall a, b | 0 <= a < b < |ids| ensures ids[a] != ids[b] {
      var ja :| 0 <= ja < |stores| && KeyOf(City, stores[ja]) == r[a].key;
      var jb :| 0 <= jb < |stores| && KeyOf(City, stores[jb]) == r[b].key;
      assert Map(r, RowKey)[a] != Map(r, RowKey)[b];
    }
  }

  /** The city targets keep the City_IDs of the city rows, in order. */
  lemma CityTargetIds(structure: string, rows: seq<StratumRow>, targetStores: real, targetAcv: real,
                      uStoreSample: int, uAcvSample: int)
    ensures Map(Map(CityTargets(structure, rows, targetStores, targetAcv, uStoreSample, uAcvSample), ParamsOf), ParamsCity)
         == Map(rows, RowCityId)
  {
  }

  /** When every City_ID of the table names one city, target_parameters_df holds one row
      per city, so no city of the merge gets two sets of targets. */
  lemma TargetCityIdsDistinct(data: RawTable, sel: seq<StratumRow>, structure: string,
                              parameterAcv: real, parameterStores: real)
    requires TargetsFor(data, sel, structure, parameterAcv, parameterStores).Some?
    requires CityIdsNamed(data.rows)
    ensures var ct := TargetsFor(data, sel, structure, parameterAcv, parameterStores).value;
      NoDup(Map(Map(ct, ParamsOf), ParamsCity))
  {
    var ids := SelectedCityIds(sel);
    var t := CitiesTable(data, ids);
    StructuresAdmissible(RequiredColumns, t);
    var stores := CheckedStores(t);
    StoresNamed(data, ids);
    CityIdsOnce(stores, Sum(stores, Acv), |stores|);
    var s := StructuresOf(RequiredColumns, t).value;
    var uStoreSample := RoundHalfEven(Scale(Sum(sel, RowCount), parameterStores));
    var uAcvSample := RoundHalfEven(Scale(Sum(sel, RowAcv), parameterAcv));
    CityTargetIds(structure, s.city, parameterStores, parameterAcv, uStoreSample, uAcvSample);
  }

  /** For the targets the design computes, every row of a city frame carries its city's
      targets: the hypothesis of MergedFramesUniform holds. */
  lemma DesignFramesUniform(data: RawTable, sel: seq<StratumRow>, structure: string,
                            parameterAcv: real, parameterStores: real, left: seq<StratumRow>)
    requires TargetsFor(data, sel, structure, parameterAcv, parameterStores).Some?
    requires CityIdsNamed(data.rows)
    ensures var ct := TargetsFor(data, sel, structure, parameterAcv, parameterStores).value;
      var frames := CityFrames(MergeOnCity(left, Map(ct, ParamsOf)));
      forall i, a :: 0 <= i < |frames| && 0 <= a < |frames[i]| ==>
        frames[i][a].cityStores == frames[i][0].cityStores && frames[i][a].cityAcv == frames[i][0].cityAcv
  {
    var ct := TargetsFor(data, sel, structure, parameterAcv, parameterStores).value;
    TargetCityIdsDistinct(data, sel, structure, parameterAcv, parameterStores);
    MergedFramesUniform(left, Map(ct, ParamsOf));
  }

  lemma RowsInCities(c: Case, stores: seq<Store>, u: int, n: int, ids: seq<int>)
    requires c == City || c == Detailed
    requires (u != 0 && n != 0) || stores == []
    requires forall m :: 0 <= m < |stores| ==> stores[m].cityId in ids
    ensures var r := SampleStructure(c, stores, u, n);
      forall i :: 0 <= i < |r| ==> r[i].key.cityId in ids
  {
    SampleStructureFromStores(c, stores, u, n);
    KeysInCities(SampleStructure(c, stores, u, n), c, stores, ids);
  }

  lemma KeysInCities(r: seq<StratumRow>, c: Case, stores: seq<Store>, ids: seq<int>)
    requires c == City || c == Detailed
    requires forall m :: 0 <= m < |stores| ==> stores[m].cityId in ids
    requires forall i :: 0 <= i < |r| ==> exists j :: 0 <= j < |stores| && KeyOf(c, stores[j]) == r[i].key
    ensures forall i :: 0 <= i < |r| ==> r[i].key.cityId in ids
  {
    forall i | 0 <= i < |r| ensures r[i].key.cityId in ids {
      var j :| 0 <= j < |stores| && KeyOf(c, stores[j]) == r[i].key;
    }
  }

  /** A joined row belongs to a city that has a target row. */
  lemma MergedCity(left: seq<StratumRow>, params: seq<CityParams>, x: Working)
    requires x in MergeOnCity(left, params)
    ensures WorkingCity(x) in Map(params, ParamsCity)
  {
    var i, j :| 0 <= i < |left| && 0 <= j < |params| && params[j].cityId == left[i].key.cityId
      && x == Attach(left[i], params[j]);
    assert Map(params, ParamsCity)[j] == params[j].cityId;
  }

  /** Every chain target comes from a row of the working table. */
  lemma ChainFromRow(working: seq<Working>, c: ChainTarget)
    requires c in ChainTargets(CityFrames(working))
    ensures exists x :: x in working && c.key == x.row.key
  {
    var frames := CityFrames(working);
    FlattenMember(Map(frames, FrameTargets), c);
    var i :| 0 <= i < |frames| && c in Map(frames, FrameTargets)[i];
    var r := FrameTargets(frames[i]);
    var m :| 0 <= m < |r| && r[m] == c;
    CityFrame(working, i);
    assert frames[i][m] in frames[i];
  }

  /** The target cities of target_parameters_df are cities of its city breakdown. */
  lemma TargetCities(structure: string, rows: seq<StratumRow>, targetStores: real, targetAcv: real,
                     uStoreSample: int, uAcvSample: int, ids: seq<int>)
    requires forall i :: 0 <= i < |rows| ==> rows[i].key.cityId in ids
    ensures var params := Map(CityTargets(structure, rows, targetStores, targetAcv, uStoreSample, uAcvSample), ParamsOf);
      forall id :: id in Map(params, ParamsCity) ==> id in ids
  {
    var t := CityTargets(structure, rows, targetStores, targetAcv, uStoreSample, uAcvSample);
    var params := Map(t, ParamsOf);
    forall id | id in Map(params, ParamsCity) ensures id in ids {
      var j :| 0 <= j < |params| && Map(params, ParamsCity)[j] == id;
      assert t[j].row == rows[j];
    }
  }

  /** Chain targets of a join whose target rows all belong to the listed cities only
      belong to the listed cities. */
  lemma ChainsInCities(left: seq<StratumRow>, params: seq<CityParams>, ids: seq<int>)
    requires forall id :: id in Map(params, ParamsCity) ==> id in ids
    ensures forall c :: c in ChainTargets(CityFrames(MergeOnCity(left, params))) ==> c.key.cityId in ids
  {
    var working := MergeOnCity(left, params);
    forall c | c in ChainTargets(CityFrames(working)) ensures c.key.cityId in ids {
      ChainFromRow(working, c);
      var x :| x in working && c.key == x.row.key;
      MergedCity(left, params, x);
    }
  }

  /** The city targets only name the principal cities they were computed for. */
  lemma TargetsForCities(data: RawTable, sel: seq<StratumRow>, structure: string,
                         parameterAcv: real, parameterStores: real)
    requires TargetsFor(data, sel, structure, parameterAcv, parameterStores).Some?
    ensures var ct := TargetsFor(data, sel, structure, parameterAcv, parameterStores).value;
      forall id :: id in Map(Map(ct, ParamsOf), ParamsCity) ==> id in SelectedCityIds(sel)
  {
    var ids := SelectedCityIds(sel);
    var s := StructuresOf(RequiredColumns, CitiesTable(data, ids)).value;
    var uStoreSample := RoundHalfEven(Scale(Sum(sel, RowCount), parameterStores));
    var uAcvSample := RoundHalfEven(Scale(Sum(sel, RowAcv), parameterAcv));
    BreakdownInCities(data, ids);
    TargetCities(structure, s.city, parameterStores, parameterAcv, uStoreSample, uAcvSample, ids);
  }

  /** The chains only belong to cities that have targets. */
  lemma ChainsForCities(data: RawTable, ct: seq<CityTarget>, ids: seq<int>)
    requires ChainsFor(data, ct).Some?
    requires forall id :: id in Map(Map(ct, ParamsOf), ParamsCity) ==> id in ids
    ensures forall c :: c in ChainsFor(data, ct).value ==> c.key.cityId in ids
  {
    var s := StructuresOf(RequiredColumns, CitiesTable(data, Distinct(Map(ct, TargetCityId)))).value;
    ChainsInCities(s.detailed, Map(ct, ParamsOf), ids);
  }

  /** Rows for cities outside the principal cities never appear in the new structure. */
  lemma NewStructureInPrincipalCities(data: RawTable, cityStc: seq<StratumRow>, structure: string, reduction: string,
                                      citiesWeight: real, parameterAcv: real, parameterStores: real)
    requires IsReductionMode(reduction)
    requires NewStructure(data, cityStc, structure, reduction, citiesWeight, parameterAcv, parameterStores).Some?
    ensures var sel := PrincipalCities(cityStc, ReductionTitle(reduction), citiesWeight).value;
      forall c :: c in NewStructure(data, cityStc, structure, reduction, citiesWeight, parameterAcv, parameterStores).value
        ==> c.key.cityId in SelectedCityIds(sel)
  {
    var sel := PrincipalCities(cityStc, ReductionTitle(reduction), citiesWeight).value;
    var ct := TargetsFor(data, sel, structure, parameterAcv, parameterStores).value;
    TargetsForCities(data, sel, structure, parameterAcv, parameterStores);
    ChainsForCities(data, ct, SelectedCityIds(sel));
  }

  // ---- the NIV_Structure_Design object ----

  /** A universe table with its breakdowns, and the sampling parameters the methods read
      from and write to the object's fields. */
  class StructureDesign {
    var parameterAcv: real
    var parameterStores: real
    var structure: string
    var reduction: string
    var citiesWeight: real
    /** The table and its breakdowns are fixed once computed. */
    const data: RawTable
    const ustcDfLs: Structures
    const retailStc: seq<StratumRow>
    const stateStc: seq<StratumRow>
    const cityStc: seq<StratumRow>
    /** criteria, criteria_title and parameter only exist once a method sets them;
        they start empty here. */
    var criteria: string
    var criteriaTitle: string
    var parameter: real

    /** Computes the breakdowns of the universe. get_structure casts the ACV column of
        the very table the object holds, so the object keeps the cast table. A table
        that is rejected makes the source fail on the missing breakdowns. */
    constructor(data: RawTable, parameterAcv: real, parameterStores: real, structure: string,
                reduction: string, citiesWeight: real)
      requires StructuresOf(RequiredColumns, data).Some?
      ensures this.parameterAcv == parameterAcv && this.parameterStores == parameterStores
      ensures this.structure == structure && this.reduction == reduction && this.citiesWeight == citiesWeight
      ensures this.data == Checked(data)
      ensures ustcDfLs == StructuresOf(RequiredColumns, data).value
      ensures retailStc == ustcDfLs.retail && stateStc == ustcDfLs.state && cityStc == ustcDfLs.city
      ensures criteria == "" && criteriaTitle == "" && parameter == 0.0
    {
      var checked, structures := Breakdowns(data);
      this.data, ustcDfLs := checked, structures;
      retailStc, stateStc, cityStc := structures.retail, structures.state, structures.city;
      new;
      RecordParameters(parameterAcv, parameterStores, structure, reduction, citiesWeight);
    }

    method RecordParameters(parameterAcv: real, parameterStores: real, structure: string,
                            reduction: string, citiesWeight: real)
      modifies this`parameterAcv, this`parameterStores, this`structure, this`reduction, this`citiesWeight
      modifies this`criteria, this`criteriaTitle, this`parameter
      ensures this.parameterAcv == parameterAcv && this.parameterStores == parameterStores
      ensures this.structure == structure && this.reduction == reduction && this.citiesWeight == citiesWeight
      ensures criteria == "" && criteriaTitle == "" && parameter == 0.0
    {
      this.parameterAcv, this.parameterStores, this.structure := parameterAcv, parameterStores, structure;
      this.reduction, this.citiesWeight := reduction, citiesWeight;
      criteria, criteriaTitle, parameter := "", "", 0.0;
    }

    /** The table and breakdowns a fresh Universe_Structure leaves. */
    static method Breakdowns(data: RawTable) returns (checked: RawTable, s: Structures)
      requires StructuresOf(RequiredColumns, data).Some?
      ensures checked == Checked(data) && s == StructuresOf(RequiredColumns, data).value
    {
      StructuresAdmissible(RequiredColumns, data);
      var u := new UniverseStructure(data);
      var r := u.GetStructure();
      checked, s := u.data, r.value;
    }

    /** set_target_parameters: records the criterion and its target fraction and returns
        the fraction. */
    method SetTargetParameters(criteria: string, parameter: real) returns (r: real)
      modifies this`criteria, this`parameter
      ensures this.criteria == criteria && this.parameter == parameter && r == parameter
    {
      this.criteria := criteria;
      this.parameter := parameter;
      r := parameter;
    }

    /** set_structure_preservation: the argument is not read; the mode held by the object
        is returned once it is valid (an invalid one keeps the source looping). */
    method SetStructurePreservation(structure: string) returns (r: string)
      requires IsStructureMode(this.structure)
      ensures r == this.structure && IsStructureMode(r)
    {
      r := this.structure;
    }

    /** set_reduction_method: the argument is not read; the criterion held by the object,
        once valid, is returned with its canonical capitals. */
    method SetReductionMethod(reduction: string) returns (title: string)
      requires IsReductionMode(this.reduction)
      ensures title == ReductionTitle(this.reduction)
      ensures title == "ACV" <==> Lower(this.reduction) == "acv"
    {
      if Lower(this.reduction) == "acv" {
        title := "ACV";
      } else {
        title := "Stores";
      }
    }

    /** set_principal_cities: records the criterion and returns the coverage held by the
        object; its coverage argument is not read. */
    method SetPrincipalCities(criteria: string, citiesWeight: real) returns (w: real)
      modifies this`criteria
      ensures this.criteria == criteria && w == this.citiesWeight
    {
      this.criteria := criteria;
      w := this.citiesWeight;
    }

    method RecordReduction(reduction: string, citiesWeight: real)
      modifies this`reduction, this`citiesWeight
      ensures this.reduction == reduction && this.citiesWeight == citiesWeight
    {
      this.reduction, this.citiesWeight := reduction, citiesWeight;
    }

    /** get_principal_cities: the city rows whose cumulative share under the criterion is
        at most the cumulative value closest to the coverage; None where min() of an
        empty list raises. */
    method GetPrincipalCities(reduction: string, citiesWeight: real) returns (r: Option<seq<StratumRow>>)
      requires IsReductionMode(reduction)
      modifies this`reduction, this`citiesWeight, this`criteriaTitle, this`criteria
      ensures this.reduction == reduction && this.citiesWeight == citiesWeight
      ensures criteriaTitle == ReductionTitle(reduction) && criteria == criteriaTitle
      ensures r == PrincipalCities(cityStc, ReductionTitle(reduction), citiesWeight)
      ensures r.Some? <==> cityStc != []
    {
      RecordReduction(reduction, citiesWeight);
      criteriaTitle := SetReductionMethod(this.reduction);
      var w := SetPrincipalCities(criteriaTitle, this.citiesWeight);
      var values := CumValues(cityStc, criteriaTitle);
      var closest := GetClosest(values, w * 10000.0);
      if closest.None? {
        return None;
      }
      r := Some(Filter(cityStc, AtMost(criteriaTitle, closest.value)));
    }
  
    method RecordRequest(parameterAcv: real, parameterStores: real, reduction: string, citiesWeight: real)
      modifies this`parameterAcv, this`parameterStores, this`reduction, this`citiesWeight
      ensures this.parameterAcv == parameterAcv && this.parameterStores == parameterStores
      ensures this.reduction == reduction && this.citiesWeight == citiesWeight
    {
      this.parameterAcv, this.parameterStores := parameterAcv, parameterStores;
      this.reduction, this.citiesWeight := reduction, citiesWeight;
    }

    /** target_parameters_df: the city breakdown of the principal cities' stores with each
        city's store and ACV targets, under the preservation mode held by the object (the
        structure argument is not read). None where there are no cities to choose from or
        the principal cities' ACV adds up to zero. */
    method TargetParametersDf(parameterAcv: real, parameterStores: real, structure: string,
                              reduction: string, citiesWeight: real) returns (r: Option<seq<CityTarget>>)
      requires IsReductionMode(reduction) && IsStructureMode(this.structure)
      modifies this`parameterAcv, this`parameterStores, this`reduction, this`citiesWeight
      modifies this`criteriaTitle, this`criteria, this`parameter
      ensures this.parameterAcv == parameterAcv && this.parameterStores == parameterStores
      ensures this.reduction == reduction && this.citiesWeight == citiesWeight
      ensures criteriaTitle == ReductionTitle(reduction) && criteria == "Stores" && parameter == parameterStores
      ensures r == TargetParameters(data, cityStc, this.structure, reduction, citiesWeight, parameterAcv, parameterStores)
    {
      RecordRequest(parameterAcv, parameterStores, reduction, citiesWeight);
      var selected := GetPrincipalCities(this.reduction, this.citiesWeight);
      var mode := SetStructurePreservation(this.structure);
      var targetAcv := SetTargetParameters("ACV", this.parameterAcv);
      var targetStores := SetTargetParameters("Stores", this.parameterStores);
      r := TargetsOfSelection(data, cityStc, reduction, citiesWeight, selected, mode, targetAcv, targetStores);
    }

    /** The second half of target_parameters_df: None without principal cities, and
        otherwise the targets of the selected ones. */
    static method TargetsOfSelection(data: RawTable, cityStc: seq<StratumRow>, reduction: string, citiesWeight: real,
                                     selected: Option<seq<StratumRow>>, structure: string,
                                     targetAcv: real, targetStores: real) returns (r: Option<seq<CityTarget>>)
      requires IsReductionMode(reduction)
      requires selected == PrincipalCities(cityStc, ReductionTitle(reduction), citiesWeight)
      ensures r == TargetParameters(data, cityStc, structure, reduction, citiesWeight, targetAcv, targetStores)
    {
      if selected.None? {
        return None;
      }
      r := Targets(data, selected.value, structure, targetAcv, targetStores);
    }

    /** The targets of the given principal cities, as the second half of
        target_parameters_df computes them. */
    static method Targets(data: RawTable, sel: seq<StratumRow>, structure: string,
                          targetAcv: real, targetStores: real) returns (r: Option<seq<CityTarget>>)
      ensures r == TargetsFor(data, sel, structure, targetAcv, targetStores)
    {
      var storeUniverse, acvUniverse := Sum(sel, RowCount), Sum(sel, RowAcv);
      var uStoreSample := RoundHalfEven(Scale(storeUniverse, targetStores));
      var uAcvSample := RoundHalfEven(Scale(acvUniverse, targetAcv));
      var s := CityBreakdown(data, SelectedCityIds(sel));
      if s.None? {
        return None;
      }
      r := Some(CityTargets(structure, s.value, targetStores, targetAcv, uStoreSample, uAcvSample));
    }

    /** The city breakdown a fresh Universe_Structure computes for a slice of the table. */
    static method CityBreakdown(data: RawTable, ids: seq<int>) returns (r: Option<seq<StratumRow>>)
      ensures var s := StructuresOf(RequiredColumns, CitiesTable(data, ids));
        r == if s.Some? then Some(s.value.city) else None
    {
      var u := new UniverseStructure(CitiesTable(data, ids));
      var s := u.GetStructure();
      if s.None? {
        return None;
      }
      r := Some(u.cityStructure);
    }

    /** The detailed breakdown a fresh Universe_Structure computes for a slice of the table. */
    static method DetailedBreakdown(data: RawTable, ids: seq<int>) returns (r: Option<seq<StratumRow>>)
      ensures var s := StructuresOf(RequiredColumns, CitiesTable(data, ids));
        r == if s.Some? then Some(s.value.detailed) else None
    {
      var u := new UniverseStructure(CitiesTable(data, ids));
      var s := u.GetStructure();
      if s.None? {
        return None;
      }
      r := Some(u.detailedStructure);
    }

    /** new_sample_structure: records the request, computes the city targets, joins them
        to the detailed breakdown of the principal cities and, city by city, gives each
        chain its share of the city's targets. */
    method NewSampleStructure(parameterAcv: real, parameterStores: real, structure: string,
                              reduction: string, citiesWeight: real) returns (r: Option<seq<ChainTarget>>)
      requires IsReductionMode(reduction) && IsStructureMode(structure)
      modifies this`parameterAcv, this`parameterStores, this`structure, this`reduction, this`citiesWeight
      modifies this`criteriaTitle, this`criteria, this`parameter
      ensures this.parameterAcv == parameterAcv && this.parameterStores == parameterStores
      ensures this.structure == structure && this.reduction == reduction && this.citiesWeight == citiesWeight
      ensures criteriaTitle == ReductionTitle(reduction) && criteria == "Stores" && parameter == parameterStores
      ensures r == NewStructure(data, cityStc, structure, reduction, citiesWeight, parameterAcv, parameterStores)
    {
      this.structure := structure;
      var targets := TargetParametersDf(parameterAcv, parameterStores, structure, reduction, citiesWeight);
      if targets.None? {
        return None;
      }
      r := Chains(data, targets.value);
    }

    /** The second half of new_sample_structure: the chains of the target cities, each
        with its share of its city's targets. */
    static method Chains(data: RawTable, ct: seq<CityTarget>) returns (r: Option<seq<ChainTarget>>)
      ensures r == ChainsFor(data, ct)
    {
      var detailed := DetailedBreakdown(data, Distinct(Map(ct, TargetCityId)));
      if detailed.None? {
        return None;
      }
      var frames := CityFrames(MergeOnCity(detailed.value, Map(ct, ParamsOf)));
      var shared := ShareFrames(frames);
      r := Some(Flatten(shared));
    }

    /** The loop over city_df_ls: each city frame gets its chains' targets. */
    static method ShareFrames(frames: seq<seq<Working>>) returns (shared: seq<seq<ChainTarget>>)
      ensures shared == Map(frames, FrameTargets)
    {
      shared := [];
      for i := 0 to |frames|
        invariant shared == Map(frames[..i], FrameTargets)
      {
        shared := shared + [FrameTargets(frames[i])];
      }
      assert frames[..|frames|] == frames;
    }
  }
}
