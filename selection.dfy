/** The two ways of drawing the reduced sample (class NIV_Sample_Selection of
    app_modules/niv_sample_selection.py): the stores with the largest ACV in every
    (city, chain) group, as many as the group's target, or simply the stores with the
    largest ACV of the principal cities, as many as all chain targets together. */
module Selection {
  import opened Numeric
  import opened Tables
  import opened Universe
  import opened Design

  /** Why a structure-preserving draw raises. */
  datatype SampleError =
    | MissingTarget(cityId: int, subplayerId: int)   // .values[0] of an empty selection
    | UndefinedTarget(cityId: int, subplayerId: int) // int() of a NaN target
    | NothingToConcatenate                           // pd.concat of an empty list

  datatype Outcome<T> = Ok(value: T) | Failure(error: SampleError)

  /** The outcomes of step over xs, in order, concatenated; the first failure wins. */
  function Collect<K>(xs: seq<K>, step: K -> Outcome<seq<Store>>): Outcome<seq<Store>>
  {
    if xs == [] then Ok([])
    else
      match Collect(xs[..|xs| - 1], step)
      case Failure(e) => Failure(e)
      case Ok(acc) =>
        match step(xs[|xs| - 1])
        case Failure(e) => Failure(e)
        case Ok(g) => Ok(acc + g)
  }

  /** A failure in a prefix is the failure of the whole. */
  lemma {:induction false} CollectPrefixFailure<K>(xs: seq<K>, k: nat, step: K -> Outcome<seq<Store>>)
    requires k <= |xs| && Collect(xs[..k], step).Failure?
    ensures Collect(xs, step) == Collect(xs[..k], step)
    decreases |xs| - k
  {
    if k < |xs| {
      assert xs[..k + 1][..k] == xs[..k];
      CollectPrefixFailure(xs, k + 1, step);
    } else {
      assert xs[..k] == xs;
    }
  }

  /** One more step extends the collected prefix. */
  lemma CollectStep<K>(xs: seq<K>, k: nat, step: K -> Outcome<seq<Store>>)
    requires k < |xs|
    ensures Collect(xs[..k + 1], step) ==
      match Collect(xs[..k], step)
      case Failure(e) => Failure(e)
      case Ok(acc) =>
        match step(xs[k])
        case Failure(e) => Failure(e)
        case Ok(g) => Ok(acc + g)
  {
    assert xs[..k + 1][..k] == xs[..k];
  }

  /** Every collected row comes from a successful step. */
  lemma {:induction false} CollectMember<K>(xs: seq<K>, step: K -> Outcome<seq<Store>>, x: Store)
    requires Collect(xs, step).Ok? && x in Collect(xs, step).value
    ensures exists i :: 0 <= i < |xs| && step(xs[i]).Ok? && x in step(xs[i]).value
  {
    var init := xs[..|xs| - 1];
    var acc := Collect(init, step).value;
    if x in acc {
      CollectMember(init, step, x);
      var i :| 0 <= i < |init| && step(init[i]).Ok? && x in step(init[i]).value;
      assert init[i] == xs[i];
    }
  }

  /** A failing step makes the whole fail. */
  lemma {:induction false} CollectFails<K>(xs: seq<K>, step: K -> Outcome<seq<Store>>, i: nat)
    requires i < |xs| && step(xs[i]).Failure?
    ensures Collect(xs, step).Failure?
  {
    var init := xs[..|xs| - 1];
    if i < |init| {
      assert init[i] == xs[i];
      CollectFails(init, step, i);
    }
  }

  // ---- structure_preserving_sample ----

  function StoreCity(s: Store): int { s.cityId }
  function StoreSubplayer(s: Store): int { s.subplayerId }

  function StoreInCities(ids: seq<int>): Store -> bool { (s: Store) => s.cityId in ids }
  function StoreOfCity(city: int): Store -> bool { (s: Store) => s.cityId == city }
  function StoreOfSubplayer(sub: int): Store -> bool { (s: Store) => s.subplayerId == sub }

  function TargetOf(city: int, sub: int): ChainTarget -> bool
  {
    (t: ChainTarget) => t.key.cityId == city && t.key.subplayerId == sub
  }

  /** The first row of the new structure for the city and chain. */
  function FirstTarget(structure: seq<ChainTarget>, city: int, sub: int): (r: Option<ChainTarget>)
    ensures r.None? <==> forall t :: t in structure ==> !(t.key.cityId == city && t.key.subplayerId == sub)
    ensures r.Some? ==> r.value in structure && r.value.key.cityId == city && r.value.key.subplayerId == sub
  {
    var m := Filter(structure, TargetOf(city, sub));
    if m == [] then None
    else
      assert m[0] in m;
      Some(m[0])
  }

  /** sbpdf.nlargest(n, 'ACV') for one group, n its chain's first target. */
  function GroupSample(structure: seq<ChainTarget>, city: int, sub: int, group: seq<Store>): Outcome<seq<Store>>
  {
    match FirstTarget(structure, city, sub)
    case None => Failure(MissingTarget(city, sub))
    case Some(t) =>
      if t.targetStores.None? then Failure(UndefinedTarget(city, sub))
      else Ok(Largest(group, t.targetStores.value, Acv))
  }

  function SubplayerStep(structure: seq<ChainTarget>, cityStores: seq<Store>, city: int): int -> Outcome<seq<Store>>
  {
    sub => GroupSample(structure, city, sub, Filter(cityStores, StoreOfSubplayer(sub)))
  }

  /** groupby('Subplayer_ID') over the stores of one city, in ascending id order. */
  function CitySample(structure: seq<ChainTarget>, stores: seq<Store>, city: int): Outcome<seq<Store>>
  {
    var cityStores := Filter(stores, StoreOfCity(city));
    Collect(SortedDistinct(Map(cityStores, StoreSubplayer)), SubplayerStep(structure, cityStores, city))
  }

  function CityStep(structure: seq<ChainTarget>, stores: seq<Store>): int -> Outcome<seq<Store>>
  {
    city => CitySample(structure, stores, city)
  }

  /** structure_preserving_sample over the stores of the listed cities. */
  function PreservingSample(stores: seq<Store>, structure: seq<ChainTarget>, ids: seq<int>): Outcome<seq<Store>>
  {
    var nsdf := Filter(stores, StoreInCities(ids));
    if nsdf == [] then Failure(NothingToConcatenate)
    else Collect(SortedDistinct(Map(nsdf, StoreCity)), CityStep(structure, nsdf))
  }

  // ---- what the structure-preserving draw satisfies ----

  /** The first failing step decides the whole. */
  lemma CollectFailureAt<K>(xs: seq<K>, k: nat, step: K -> Outcome<seq<Store>>)
    requires k < |xs| && Collect(xs[..k], step).Ok? && step(xs[k]).Failure?
    ensures Collect(xs, step) == step(xs[k])
  {
    CollectStep(xs, k, step);
    CollectPrefixFailure(xs, k + 1, step);
  }

  /** A successful step extends a successful prefix by its rows. */
  lemma CollectSnoc<K>(xs: seq<K>, k: nat, step: K -> Outcome<seq<Store>>, acc: seq<Store>, g: seq<Store>)
    requires k < |xs| && Collect(xs[..k], step) == Ok(acc) && step(xs[k]) == Ok(g)
    ensures Collect(xs[..k + 1], step) == Ok(acc + g)
  {
    CollectStep(xs, k, step);
  }

  /** A successful collection succeeded at every step. */
  lemma {:induction false} CollectOk<K>(xs: seq<K>, step: K -> Outcome<seq<Store>>)
    requires Collect(xs, step).Ok?
    ensures forall i :: 0 <= i < |xs| ==> step(xs[i]).Ok?
  {
    if xs != [] {
      var init := xs[..|xs| - 1];
      CollectOk(init, step);
      assert forall i :: 0 <= i < |init| ==> init[i] == xs[i];
    }
  }

  /** Steps that yield no row satisfying p yield no such row together. */
  lemma {:induction false} CollectNone<K>(xs: seq<K>, step: K -> Outcome<seq<Store>>, p: Store -> bool)
    requires Collect(xs, step).Ok?
    requires forall i :: 0 <= i < |xs| && step(xs[i]).Ok? ==> forall y :: y in step(xs[i]).value ==> !p(y)
    ensures Filter(Collect(xs, step).value, p) == []
  {
    if xs != [] {
      var init := xs[..|xs| - 1];
      assert forall i :: 0 <= i < |init| ==> init[i] == xs[i];
      CollectNone(init, step, p);
      var g := step(xs[|xs| - 1]).value;
      FilterConcat(Collect(init, step).value, g, p);
      FilterNone(g, p);
    }
  }

  /** When only the step for k can yield rows satisfying p, the collected rows satisfying
      p are that step's. */
  lemma {:induction false} CollectFilter(xs: seq<int>, step: int -> Outcome<seq<Store>>, p: Store -> bool, k: int)
    requires Increasing(xs) && k in xs
    requires Collect(xs, step).Ok?
    requires forall i :: 0 <= i < |xs| && xs[i] != k && step(xs[i]).Ok? ==> forall y :: y in step(xs[i]).value ==> !p(y)
    ensures step(k).Ok? && Filter(Collect(xs, step).value, p) == Filter(step(k).value, p)
  {
    var init, last := xs[..|xs| - 1], xs[|xs| - 1];
    assert Collect(init, step).Ok? && step(last).Ok?;
    var acc, g := Collect(init, step).value, step(last).value;
    assert Collect(xs, step).value == acc + g;
    FilterConcat(acc, g, p);
    assert Increasing(init) by {
      forall i, j | 0 <= i < j < |init| ensures init[i] < init[j] {
        assert init[i] == xs[i] && init[j] == xs[j];
      }
    }
    if last == k {
      forall i | 0 <= i < |init| && step(init[i]).Ok? ensures forall y :: y in step(init[i]).value ==> !p(y) {
        assert init[i] == xs[i] && xs[i] < xs[|xs| - 1];
      }
      CollectNone(init, step, p);
    } else {
      var j :| 0 <= j < |xs| && xs[j] == k;
      assert j < |init| && init[j] == k;
      forall i | 0 <= i < |init| && init[i] != k && step(init[i]).Ok?
        ensures forall y :: y in step(init[i]).value ==> !p(y)
      {
        assert init[i] == xs[i];
      }
      CollectFilter(init, step, p, k);
      assert forall y :: y in g ==> !p(y);
      FilterNone(g, p);
    }
  }

  function InGroup(city: int, sub: int): Store -> bool
  {
    (s: Store) => s.cityId == city && s.subplayerId == sub
  }

  /** A mapped value of a row occurs in the ascending distinct values. */
  lemma MappedIndex(s: seq<Store>, f: Store -> int, x: Store) returns (i: nat)
    requires x in s
    ensures i < |SortedDistinct(Map(s, f))| && SortedDistinct(Map(s, f))[i] == f(x)
  {
    var j :| 0 <= j < |s| && s[j] == x;
    assert Map(s, f)[j] == f(x);
    assert f(x) in SortedDistinct(Map(s, f));
    i :| 0 <= i < |SortedDistinct(Map(s, f))| && SortedDistinct(Map(s, f))[i] == f(x);
  }

  lemma LargestMember<T(!new)>(s: seq<T>, n: int, key: T -> int, y: T)
    requires y in Largest(s, n, key)
    ensures y in s
  {
    assert y in multiset(Largest(s, n, key));
  }

  /** A chain's draw holds stores of that chain of the city's stores only. */
  lemma SubplayerStepMember(structure: seq<ChainTarget>, cityStores: seq<Store>, city: int, sub: int, y: Store)
    requires SubplayerStep(structure, cityStores, city)(sub).Ok?
    requires y in SubplayerStep(structure, cityStores, city)(sub).value
    ensures y in cityStores && y.subplayerId == sub
  {
    var group := Filter(cityStores, StoreOfSubplayer(sub));
    assert SubplayerStep(structure, cityStores, city)(sub) == GroupSample(structure, city, sub, group);
    var t := FirstTarget(structure, city, sub).value;
    LargestMember(group, t.targetStores.value, Acv, y);
  }

  /** A city's draw only holds stores of that city. */
  lemma CitySampleCity(structure: seq<ChainTarget>, stores: seq<Store>, city: int, y: Store)
    requires CitySample(structure, stores, city).Ok? && y in CitySample(structure, stores, city).value
    ensures y in stores && y.cityId == city
  {
    var cityStores := Filter(stores, StoreOfCity(city));
    var subs := SortedDistinct(Map(cityStores, StoreSubplayer));
    var step := SubplayerStep(structure, cityStores, city);
    CollectMember(subs, step, y);
    var i :| 0 <= i < |subs| && step(subs[i]).Ok? && y in step(subs[i]).value;
    SubplayerStepMember(structure, cityStores, city, subs[i], y);
  }

  /** The draw of one city, restricted to one of its chains, is that chain's draw. */
  lemma CitySampleGroup(structure: seq<ChainTarget>, stores: seq<Store>, city: int, x: Store)
    requires CitySample(structure, stores, city).Ok?
    requires x in stores && x.cityId == city
    ensures var group := Filter(Filter(stores, StoreOfCity(city)), StoreOfSubplayer(x.subplayerId));
      GroupSample(structure, city, x.subplayerId, group).Ok? &&
      Filter(CitySample(structure, stores, city).value, InGroup(city, x.subplayerId))
        == GroupSample(structure, city, x.subplayerId, group).value
  {
    var sub := x.subplayerId;
    var cityStores := Filter(stores, StoreOfCity(city));
    var subs := SortedDistinct(Map(cityStores, StoreSubplayer));
    var step := SubplayerStep(structure, cityStores, city);
    assert x in cityStores;
    var k := MappedIndex(cityStores, StoreSubplayer, x);
    forall i | 0 <= i < |subs| && subs[i] != sub && step(subs[i]).Ok?
      ensures forall y :: y in step(subs[i]).value ==> !InGroup(city, sub)(y)
    {
      forall y | y in step(subs[i]).value ensures !InGroup(city, sub)(y) {
        SubplayerStepMember(structure, cityStores, city, subs[i], y);
      }
    }
    CollectFilter(subs, step, InGroup(city, sub), sub);
    var group := Filter(cityStores, StoreOfSubplayer(sub));
    assert step(sub) == GroupSample(structure, city, sub, group);
    var g := step(sub).value;
    forall i | 0 <= i < |g| ensures InGroup(city, sub)(g[i]) {
      SubplayerStepMember(structure, cityStores, city, sub, g[i]);
    }
    FilterAll(g, InGroup(city, sub));
  }

  /** structure_preserving_sample yields, for every (city, chain) group of the stores of
      the listed cities, exactly the nlargest draw for that group's first target: the
      min(n, group size) stores of largest ACV. */
  lemma PreservingSampleGroups(stores: seq<Store>, structure: seq<ChainTarget>, ids: seq<int>, x: Store)
    requires PreservingSample(stores, structure, ids).Ok?
    requires x in stores && x.cityId in ids
    ensures var group := Filter(Filter(Filter(stores, StoreInCities(ids)), StoreOfCity(x.cityId)), StoreOfSubplayer(x.subplayerId));
      var t := FirstTarget(structure, x.cityId, x.subplayerId);
      && t.Some? && t.value.targetStores.Some?
      && Filter(PreservingSample(stores, structure, ids).value, InGroup(x.cityId, x.subplayerId))
           == Largest(group, t.value.targetStores.value, Acv)
  {
    var city := x.cityId;
    var nsdf := Filter(stores, StoreInCities(ids));
    var cities := SortedDistinct(Map(nsdf, StoreCity));
    var step := CityStep(structure, nsdf);
    assert x in nsdf;
    var k := MappedIndex(nsdf, StoreCity, x);
    forall i | 0 <= i < |cities| && cities[i] != city && step(cities[i]).Ok?
      ensures forall y :: y in step(cities[i]).value ==> !InGroup(city, x.subplayerId)(y)
    {
      forall y | y in step(cities[i]).value ensures !InGroup(city, x.subplayerId)(y) {
        CitySampleCity(structure, nsdf, cities[i], y);
      }
    }
    CollectFilter(cities, step, InGroup(city, x.subplayerId), city);
    assert step(city) == CitySample(structure, nsdf, city);
    CitySampleGroup(structure, nsdf, city, x);
  }

  /** Every store drawn is a store of the listed cities. */
  lemma PreservingSampleMembers(stores: seq<Store>, structure: seq<ChainTarget>, ids: seq<int>)
    requires PreservingSample(stores, structure, ids).Ok?
    ensures forall y :: y in PreservingSample(stores, structure, ids).value ==> y in stores && y.cityId in ids
  {
    var nsdf := Filter(stores, StoreInCities(ids));
    var cities := SortedDistinct(Map(nsdf, StoreCity));
    var step := CityStep(structure, nsdf);
    forall y | y in PreservingSample(stores, structure, ids).value ensures y in stores && y.cityId in ids {
      CollectMember(cities, step, y);
      var i :| 0 <= i < |cities| && step(cities[i]).Ok? && y in step(cities[i]).value;
      CitySampleCity(structure, nsdf, cities[i], y);
    }
  }

  /** A store's city draw raises when its chain has no row in the new structure. */
  lemma CitySampleFails(structure: seq<ChainTarget>, stores: seq<Store>, x: Store)
    requires x in stores
    requires FirstTarget(structure, x.cityId, x.subplayerId).None?
    ensures CitySample(structure, stores, x.cityId).Failure?
  {
    var cityStores := Filter(stores, StoreOfCity(x.cityId));
    assert x in cityStores;
    var k := MappedIndex(cityStores, StoreSubplayer, x);
    var subs := SortedDistinct(Map(cityStores, StoreSubplayer));
    var step := SubplayerStep(structure, cityStores, x.cityId);
    assert step(subs[k]).Failure?;
    CollectFails(subs, step, k);
  }

  /** A (city, chain) group of the listed cities without a row in the new structure makes
      the draw raise. */
  lemma PreservingSampleFails(stores: seq<Store>, structure: seq<ChainTarget>, ids: seq<int>, x: Store)
    requires x in stores && x.cityId in ids
    requires FirstTarget(structure, x.cityId, x.subplayerId).None?
    ensures PreservingSample(stores, structure, ids).Failure?
  {
    var nsdf := Filter(stores, StoreInCities(ids));
    assert x in nsdf;
    var k := MappedIndex(nsdf, StoreCity, x);
    CitySampleFails(structure, nsdf, x);
    var cities := SortedDistinct(Map(nsdf, StoreCity));
    assert CityStep(structure, nsdf)(cities[k]).Failure?;
    CollectFails(cities, CityStep(structure, nsdf), k);
  }

  // ---- NIV_Sample_Selection ----

  /** The new structure the design yields for the table; a design that yields nothing
      leaves no chain targets. */
  function Designed(data: RawTable, parameterAcv: real, parameterStores: real, structure: string,
                    reduction: string, citiesWeight: real): seq<ChainTarget>
    requires StructuresOf(RequiredColumns, data).Some? && IsReductionMode(reduction)
  {
    StructuresAdmissible(RequiredColumns, data);
    var ns := NewStructure(Checked(data), StructuresOf(RequiredColumns, data).value.city, structure,
                           reduction, citiesWeight, parameterAcv, parameterStores);
    if ns.Some? then ns.value else []
  }

  function ChainCity(t: ChainTarget): string { t.key.city }
  function ChainCityId(t: ChainTarget): int { t.key.cityId }
  function ChainInCities(ids: seq<int>): ChainTarget -> bool { (t: ChainTarget) => t.key.cityId in ids }

  class SampleSelection {
    const parameterAcv: real
    const parameterStores: real
    const structure: string
    const reduction: string
    const citiesWeight: real
    /** The uploaded table, with the ACV column the design cast in place. */
    const completeData: RawTable
    const newStructure: seq<ChainTarget>
    const cities: seq<string>
    const citiesId: seq<int>
    const nStores: int
    const citiesDataStc: seq<ChainTarget>
    const citiesData: seq<Store>

    /** Designs the new structure and keeps the stores of its cities. */
    constructor(data: RawTable, parameterAcv: real, parameterStores: real, structure: string,
                reduction: string, citiesWeight: real)
      requires StructuresOf(RequiredColumns, data).Some?
      requires IsReductionMode(reduction) && IsStructureMode(structure)
      ensures this.parameterAcv == parameterAcv && this.parameterStores == parameterStores
      ensures this.structure == structure && this.reduction == reduction && this.citiesWeight == citiesWeight
      ensures AcvIsNumeric(completeData.rows) && completeData == Checked(data)
      ensures newStructure == Designed(data, parameterAcv, parameterStores, structure, reduction, citiesWeight)
      ensures cities == Distinct(Map(newStructure, ChainCity))
      ensures citiesId == Distinct(Map(newStructure, ChainCityId))
      ensures nStores == Sum(newStructure, StoresOr0)
      ensures citiesDataStc == Filter(newStructure, ChainInCities(citiesId))
      ensures citiesData == Filter(Typed(completeData.rows), StoreInCities(citiesId))
    {
      var checked, ns := Design(data, parameterAcv, parameterStores, structure, reduction, citiesWeight);
      var ids := Distinct(Map(ns, ChainCityId));
      this.parameterAcv, this.parameterStores, this.structure := parameterAcv, parameterStores, structure;
      this.reduction, this.citiesWeight := reduction, citiesWeight;
      completeData, newStructure := checked, ns;
      cities, citiesId, nStores := Distinct(Map(ns, ChainCity)), ids, Sum(ns, StoresOr0);
      citiesDataStc := Filter(ns, ChainInCities(ids));
      citiesData := Filter(Typed(checked.rows), StoreInCities(ids));
    }

    /** An NIV_Structure_Design over the table and its new_sample_structure. */
    static method Design(data: RawTable, parameterAcv: real, parameterStores: real, structure: string,
                         reduction: string, citiesWeight: real) returns (checked: RawTable, ns: seq<ChainTarget>)
      requires StructuresOf(RequiredColumns, data).Some?
      requires IsReductionMode(reduction) && IsStructureMode(structure)
      ensures AcvIsNumeric(checked.rows) && checked == Checked(data)
      ensures ns == Designed(data, parameterAcv, parameterStores, structure, reduction, citiesWeight)
    {
      var design := new StructureDesign(data, parameterAcv, parameterStores, structure, reduction, citiesWeight);
      var r := design.NewSampleStructure(parameterAcv, parameterStores, structure, reduction, citiesWeight);
      checked := design.data;
      ns := if r.Some? then r.value else [];
    }

    /** structure_preserving_sample: for every city, then every chain of it, in ascending
        id order, the stores of largest ACV, as many as the chain's target. */
    method StructurePreservingSample() returns (r: Outcome<seq<Store>>)
      ensures r == PreservingSample(citiesData, newStructure, citiesId)
    {
      var nsdf := Filter(citiesData, StoreInCities(citiesId));
      if nsdf == [] {
        return Failure(NothingToConcatenate);
      }
      var ids := SortedDistinct(Map(nsdf, StoreCity));
      var picked: seq<Store> := [];
      var i := 0;
      while i < |ids|
        invariant 0 <= i <= |ids|
        invariant Collect(ids[..i], CityStep(newStructure, nsdf)) == Ok(picked)
      {
        var cityPicked := CityDraw(ids[i], nsdf);
        if cityPicked.Failure? {
          CollectFailureAt(ids, i, CityStep(newStructure, nsdf));
          return cityPicked;
        }
        CollectSnoc(ids, i, CityStep(newStructure, nsdf), picked, cityPicked.value);
        picked := picked + cityPicked.value;
        i := i + 1;
      }
      assert ids[..i] == ids;
      r := Ok(picked);
    }

    /** The inner loop of structure_preserving_sample, over the chains of one city. */
    method CityDraw(city: int, nsdf: seq<Store>) returns (r: Outcome<seq<Store>>)
      ensures r == CitySample(newStructure, nsdf, city)
    {
      var subdf := Filter(nsdf, StoreOfCity(city));
      var subs := SortedDistinct(Map(subdf, StoreSubplayer));
      ghost var step := SubplayerStep(newStructure, subdf, city);
      var cityPicked: seq<Store> := [];
      var j := 0;
      while j < |subs|
        invariant 0 <= j <= |subs|
        invariant Collect(subs[..j], step) == Ok(cityPicked)
      {
        var sub := subs[j];
        var sbpdf := Filter(subdf, StoreOfSubplayer(sub));
        assert step(sub) == GroupSample(newStructure, city, sub, sbpdf);
        var target := FirstTarget(newStructure, city, sub);
        if target.None? {
          CollectFailureAt(subs, j, step);
          return Failure(MissingTarget(city, sub));
        }
        if target.value.targetStores.None? {
          CollectFailureAt(subs, j, step);
          return Failure(UndefinedTarget(city, sub));
        }
        var chosen := Largest(sbpdf, target.value.targetStores.value, Acv);
        CollectSnoc(subs, j, step, cityPicked, chosen);
        cityPicked := cityPicked + chosen;
        j := j + 1;
      }
      assert subs[..j] == subs;
      r := Ok(cityPicked);
    }

    /** acv_maximizing_sample: the stores of largest ACV of the cities of the new
        structure, as many as all chain targets together. */
    method AcvMaximizingSample() returns (r: seq<Store>)
      ensures var pool := Filter(citiesData, StoreInCities(citiesId));
        && |r| == (if nStores <= 0 then 0 else if nStores < |pool| then nStores else |pool|)
        && multiset(r) <= multiset(citiesData)
        && (forall y :: y in r ==> y.cityId in citiesId)
        && NonIncreasing(r, Acv)
        && forall x, y :: x in r && y in multiset(pool) - multiset(r) ==> y.acv <= x.acv
    {
      var nsdf := Filter(citiesData, StoreInCities(citiesId));
      r := Largest(nsdf, nStores, Acv);
      FilterSubMultiset(citiesData, StoreInCities(citiesId));
      forall y | y in r ensures y.cityId in citiesId {
        LargestMember(nsdf, nStores, Acv, y);
      }
    }
  }

  /** Both draws work on citiesData, which already holds only the stores of the
      cities of the new structure; the repeated isin leaves it as it is. */
  lemma CitiesDataFiltered(stores: seq<Store>, ids: seq<int>)
    ensures Filter(Filter(stores, StoreInCities(ids)), StoreInCities(ids)) == Filter(stores, StoreInCities(ids))
  {
    var s := Filter(stores, StoreInCities(ids));
    FilterAll(s, StoreInCities(ids));
  }
}
