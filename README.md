# NIV sample selection and stratified sampling — a Dafny model

This project models the sampling engine of a retail-audit sampling application. It has two parts.

**The NIV design** (`app_modules/niv_sample_selection.py`) has three layers.

- *Universe breakdowns.* A universe of stores has a store code, an ACV (all-commodity volume), a chain ("player" / "subplayer"), a city and a state. It is broken down four ways: by retailer, by state, by city, and the detailed breakdown by all of them. Each breakdown row carries:
  - the group's ACV and its share;
  - the running cumulative share of ACV, in the order of descending ACV weight;
  - the group's store count, its share and its running cumulative share.
- *Reduced design.* The design picks the principal cities that cover a chosen share of the universe. It gives each city a store target and an ACV target. In "cities" mode these are the city's own totals times the target fractions. In "universe" mode they are the city's weights times the reduced universe's rounded targets. It then cascades the targets down to each chain of each city, in proportion to the chain's weight in its city.
- *Draw.* The sample is drawn in one of two ways:
  - for every (city, chain) group, the stores of largest ACV, as many as the chain's target;
  - or the stores of largest ACV of the principal cities, as many as all chain targets together.

**The stratified sample of the sampling page** (`pages/1_Sampling.py`, lines 266–402) has four steps.

- *Allocation.* The strata are the distinct combinations of the chosen parameter columns. Each stratum gets `round(count / N * n)` rows.
- *Pre-sample.* Each stratum's allocation is drawn without replacement, from the rows not drawn yet.
- *Drift.* The rounding drift `aux_eval = |pre-sample| - n` is then corrected.
- *Correction.* A walk over the allocation sizes (ascending to fill, descending to remove) decides which strata are eligible. That many eligible strata are drawn. One row is then added from each drawn stratum, or one removed from each.

Randomness is a parameter throughout. The caller supplies every draw (`Allocation.Draws`), and the predicates `PreDraws`, `CorrectionDraws` and `ValidDraws` state what pandas' `sample` can return: distinct positions within the frame, as many as asked.

Files:

- `numeric.dfy`: exact stand-ins for numpy rounding.
  - `RoundHalfEven` models `np.round`: ties go to the even neighbour.
  - `Pct` gives percentages in hundredths of a percent, as `np.round(x * 100, 2)` does.
- `tables.dfy`: the data-frame operations used. These are sums, maps, `unique()`, boolean filters, stable descending sort, `nlargest`, and group sums.
- `universe.dfy`: `Universe_Structure`.
- `design.dfy`: `NIV_Structure_Design`.
- `selection.dfy`: `NIV_Sample_Selection`.
- `allocation.dfy`: the stratified sample, with its loops as methods proved against specification functions.
- `sample_size.dfy`: the main theorem. With the corrected fill, the stratified sample always has exactly n rows.
- `fill_as_written.dfy`: a counterexample to the fill as the page writes it.

## Model

| member | source | states |
|---|---|---|
| Universe.MissingColumnsMeaning | app_modules/niv_sample_selection.py:58-64 | a required label is reported missing iff it is absent; nothing is reported iff every required label is present |
| Universe.UniverseStructure.constructor | app_modules/niv_sample_selection.py:11-39 | holds the table as given, the eleven required columns, and no breakdown yet |
| Universe.ParseFormat | app_modules/niv_sample_selection.py:94-96 | `int()` of a decimal numeral gives the number back, negative numbers included (Python's `int` is unbounded; the int64 bound of the cast is stated by CastNumeral) |
| Universe.ParsePadded | app_modules/niv_sample_selection.py:94-96 | as with `int()`, whitespace before or after a numeral is ignored |
| Universe.CastNumeral | app_modules/niv_sample_selection.py:94-103 | the int64 cast accepts a numeral, padded or not, exactly when its value lies in [-2^63, 2^63), and then gives that value; a larger one is the OverflowError that makes columns_check return False |
| Universe.ParseUnderscore | app_modules/niv_sample_selection.py:94-96 | as with `int()`, an underscore between digits is skipped: "1_000" casts to 1000 |
| Universe.ParseRefusesUnderscores | app_modules/niv_sample_selection.py:94-96 | a doubled, leading or trailing underscore makes the cast fail |
| Universe.ParseRefusesOthers | app_modules/niv_sample_selection.py:94-96 | a fraction, a sign apart from its digits, or empty text makes the cast fail |
| Universe.CastAcv | app_modules/niv_sample_selection.py:94-96 | the cast keeps every row and leaves a numeric ACV column |
| Universe.CastPointwise | app_modules/niv_sample_selection.py:95 | the cast changes each row's ACV cell to its integer and leaves every other cell alone |
| Universe.CastNumericIdentity | app_modules/niv_sample_selection.py:91-92 | an ACV column that is already numeric is accepted unchanged |
| Universe.TypedUntyped | app_modules/niv_sample_selection.py:389-392 | handing already-checked stores to a new Universe_Structure loses nothing |
| Universe.UniverseStructure.ColumnsCheck | app_modules/niv_sample_selection.py:56-103 | succeeds iff every required column is present and the ACV column is numeric or castable by `int()` (ASCII digits) to a value that fits int64; on success the ACV column is cast; a rejected table is left as it was |
| Universe.AcvStructureFacts | app_modules/niv_sample_selection.py:105-129 | acv_structure has one row per distinct group; each row has the group's ACV sum and its rounded share; rows are in non-increasing weight order; the cumulative column is the rounded running sum in that order; the ACV sums add up to the universe ACV |
| Universe.AcvStructureKeys | app_modules/niv_sample_selection.py:116-117 | the groupby yields every distinct group key exactly once |
| Universe.AcvStructureRows | app_modules/niv_sample_selection.py:116-120 | each row holds its group's ACV sum and that sum as a rounded share of the universe ACV |
| Universe.AcvStructureOrder | app_modules/niv_sample_selection.py:121-122 | rows are sorted by non-increasing ACV weight |
| Universe.AcvStructureCum | app_modules/niv_sample_selection.py:123-124 | the cumulative ACV column is accumulated after the sort, over the sorted order |
| Universe.JoinedStructure | app_modules/niv_sample_selection.py:149-155 | the inner join with the store counts keeps every ACV row, in ACV order, and attaches the group's store count and share |
| Universe.CountLookup | app_modules/niv_sample_selection.py:149-153 | every group of the table has a count row with its number of stores and their rounded share |
| Universe.SampleStructureRows | app_modules/niv_sample_selection.py:131-164 | sample_structure's rows are acv_structure's, in its order, each with the group's store count, its share and the running store share |
| Universe.SampleStructureKeys | app_modules/niv_sample_selection.py:149-155 | sample_structure has one row per distinct group key |
| Universe.SampleStructureAcv | app_modules/niv_sample_selection.py:133-158 | the ACV columns survive the join: group sums, shares, non-increasing weight, running cumulative share |
| Universe.SampleStructureTotals | app_modules/niv_sample_selection.py:116-158 | the ACV sums add up to the table's ACV and the store counts to its number of stores |
| Universe.SampleStructureNonEmpty | app_modules/niv_sample_selection.py:149-155 | a non-empty table has a non-empty breakdown |
| Universe.SampleStructureFromStores | app_modules/niv_sample_selection.py:149-155 | every breakdown row is the group of some store of the table |
| Universe.CumulativeColumns | app_modules/niv_sample_selection.py:123-124 | with non-negative ACV both cumulative columns never decrease and end at 100.00 % |
| Universe.RunningShares | app_modules/niv_sample_selection.py:157-158 | a running share of non-negative terms is monotone and reaches 100 % when the terms make up the whole |
| Universe.UniverseStructure.GetStructure | app_modules/niv_sample_selection.py:166-192 | on an admissible table, records the universe ACV and store count and the four breakdowns and returns them; otherwise returns nothing and leaves the breakdowns |
| Universe.AcvStructure | app_modules/niv_sample_selection.py:105-129 | definition of acv_structure: the ACV sum and rounded share of each group, stably sorted by descending share, then the rounded running share |
| Universe.SampleStructure | app_modules/niv_sample_selection.py:131-164 | definition of sample_structure: acv_structure joined on the group key with the store count and share of each group, then the rounded running store share |
| Universe.Checked | app_modules/niv_sample_selection.py:94-96 | the table as columns_check leaves it: its ACV column is numeric |
| Universe.StructuresOf | app_modules/niv_sample_selection.py:166-192 | definition of what get_structure returns: nothing when columns_check rejects the table or its ACV adds up to zero, the four breakdowns otherwise |
| Numeric.RoundHalfEven | app_modules/niv_sample_selection.py:119-120 | the result is within half a unit of x, and a tie goes to the even integer |
| Numeric.PctExact | app_modules/niv_sample_selection.py:119-120 | the integer percentage equals the exact share x100 rounded half-to-even to two decimals |
| Numeric.PctMonotone | app_modules/niv_sample_selection.py:123-124 | a larger part of the same whole never has a smaller percentage |
| Numeric.PctOfWhole | app_modules/niv_sample_selection.py:123-124 | the whole is 100.00 % of itself |
| Numeric.RoundOfInteger | pages/1_Sampling.py:281-282 | rounding leaves an integer unchanged |
| Numeric.RoundMonotone | pages/1_Sampling.py:281-282 | rounding never reverses the order of two values |
| Numeric.RoundQuotientExact | pages/1_Sampling.py:281-282 | the integer rounding of a quotient equals np.round of the exact quotient |
| Design.Lower | app_modules/niv_sample_selection.py:253 | ASCII lower-casing keeps the length and leaves no upper-case letter; `str.lower()` also maps other letters, but none of them to a letter of the mode words (the Kelvin sign gives 'k', which they lack), so mode tests agree |
| Design.StructureDesign.constructor | app_modules/niv_sample_selection.py:197-212 | records the request and the checked table, and holds the universe breakdowns get_structure returns |
| Design.ModeSpellings | app_modules/niv_sample_selection.py:242-253 | examples: "Cities", "UNIVERSE" and "Acv" are modes, "sToReS" has the title "Stores", and "city" and "store" are not modes |
| Design.ModeCaseVariants | app_modules/niv_sample_selection.py:242-253 | for every text: it is a structure mode iff it is "cities" or "universe" in any mixture of cases, and a reduction mode iff it is "acv" or "stores" so; two texts equal but for case are both modes or neither |
| Design.ReductionTitle | app_modules/niv_sample_selection.py:303-308 | the title is "ACV" or "Stores" and lower-cases to the mode it was given |
| Design.StructureDesign.SetReductionMethod | app_modules/niv_sample_selection.py:279-308 | returns the canonical title of the object's criterion ("ACV" iff the criterion is "acv" in any case) |
| Design.StructureDesign.SetStructurePreservation | app_modules/niv_sample_selection.py:241-277 | returns the object's own structure mode, not the argument |
| Design.StructureDesign.SetTargetParameters | app_modules/niv_sample_selection.py:219-239 | records the criterion and the fraction and returns the fraction |
| Design.StructureDesign.SetPrincipalCities | app_modules/niv_sample_selection.py:310-329 | records the criterion and returns the object's coverage, not the argument |
| Design.Distance | app_modules/niv_sample_selection.py:215 | the absolute difference: non-negative and one of the two signed differences |
| Design.ClosestIndex | app_modules/niv_sample_selection.py:214-217 | an index nearest the target, strictly nearer than any earlier index (min keeps the first on ties) |
| Design.GetClosest | app_modules/niv_sample_selection.py:214-217 | a member of the list at least as near the target as every member, the first such; nothing for an empty list |
| Design.PrincipalCitiesPrefix | app_modules/niv_sample_selection.py:340-346 | on a non-decreasing cumulative column, the principal cities are a non-empty prefix of the city table ending at the closest cumulative value |
| Design.PrincipalCitiesOfUniverse | app_modules/niv_sample_selection.py:331-359 | on a universe's city breakdown, the principal cities by ACV or stores are a non-empty prefix |
| Design.StructureDesign.GetPrincipalCities | app_modules/niv_sample_selection.py:331-359 | records the reduction and coverage, sets the criterion title, and returns the city rows at or below the closest cumulative value; fails iff the city table is empty |
| Design.CityTargets | app_modules/niv_sample_selection.py:396-408 | definition of the target columns of target_parameters_df: each city row with its store and ACV target for the structure mode, rounded half to even |
| Design.CitiesModeBounds | app_modules/niv_sample_selection.py:396-400 | in "cities" mode, with target fractions between 0 and 1, each city keeps its row and its targets lie between 0 and its own store count and ACV |
| Design.UniverseModeBounds | app_modules/niv_sample_selection.py:401-405 | in "universe" mode, with weights between 0 and 100.00 %, each city keeps its row and its targets lie between 0 and the reduced universe's rounded targets |
| Design.CityTargetsDrift | app_modules/niv_sample_selection.py:396-408 | in "cities" mode the city targets add up to the target fractions of the totals within half a unit per city |
| Design.UniverseTargetsDrift | app_modules/niv_sample_selection.py:401-408 | in "universe" mode the city targets add up to the weighted reduced targets within half a unit per city |
| Design.StructureDesign.TargetParametersDf | app_modules/niv_sample_selection.py:361-410 | records the request and returns the city breakdown of the principal cities' stores with the targets of the object's structure mode |
| Design.StructureDesign.Targets | app_modules/niv_sample_selection.py:381-410 | u_store_sample and u_acv_sample are the reduced totals times the fractions, rounded; the targets are computed on a new breakdown of the selected cities |
| Design.StructureDesign.CityBreakdown | app_modules/niv_sample_selection.py:387-394 | the city breakdown of a new Universe_Structure over the stores of the given cities, if that table is accepted |
| Design.TargetsForCities | app_modules/niv_sample_selection.py:387-410 | every city with targets is one of the selected cities |
| Design.Joined | app_modules/niv_sample_selection.py:435-436 | a row joins exactly the target rows of its own city |
| Design.MergeOnCity | app_modules/niv_sample_selection.py:435-436 | the merge on City_ID holds exactly the pairs of a left row and a target row of the same city |
| Design.SameCitySameTargets | app_modules/niv_sample_selection.py:435-436 | when each city has one target row, any two merged rows of one city carry the same city targets |
| Design.StructureDesign.DetailedBreakdown | app_modules/niv_sample_selection.py:428-433 | the detailed breakdown of a new Universe_Structure over the stores of the given cities, if that table is accepted |
| Design.CityFramesPartition | app_modules/niv_sample_selection.py:441-442 | the city frames are non-empty, one city each, distinct cities, and together hold exactly the rows of the working table |
| Design.TargetCityIdsDistinct | app_modules/niv_sample_selection.py:387-408 | when each City_ID of the table names one city, target_parameters_df holds one row per city |
| Design.DesignFramesUniform | app_modules/niv_sample_selection.py:435-442 | then every row of a city frame of the design's merge carries its city's targets |
| Design.MergedFramesUniform | app_modules/niv_sample_selection.py:435-442 | when each city has one target row, every row of a city frame carries the same city targets |
| Design.FrameStoreTargets | app_modules/niv_sample_selection.py:444-457 | each chain gets round(its share of the city's stores x the city target); the exact shares add up to the city target and the rounded ones to within half a store per chain |
| Design.FrameAcvTargets | app_modules/niv_sample_selection.py:444-457 | the same for ACV, in a city with non-zero ACV |
| Design.FrameWithoutAcv | app_modules/niv_sample_selection.py:445-450 | a city of zero ACV gets no (NaN) ACV target for any chain |
| Design.NewStructureInPrincipalCities | app_modules/niv_sample_selection.py:412-465 | every chain of the new structure lies in one of the principal cities |
| Design.ChainsForCities | app_modules/niv_sample_selection.py:428-465 | chains get targets only in cities that have city targets |
| Design.StructureDesign.Chains | app_modules/niv_sample_selection.py:428-457 | the detailed breakdown of the selected stores, merged with the city targets and shared out by city |
| Design.StructureDesign.ShareFrames | app_modules/niv_sample_selection.py:444-452 | the loop over city_df_ls gives each frame its chain targets |
| Design.StructureDesign.NewSampleStructure | app_modules/niv_sample_selection.py:412-465 | records the request and returns the chain targets: the city targets joined to the detailed breakdown and shared out city by city |
| Design.TargetsFor | app_modules/niv_sample_selection.py:381-410 | definition: u_store_sample and u_acv_sample from the selected cities, then the targets of the city breakdown of a new Universe_Structure on their stores |
| Design.FrameTargets | app_modules/niv_sample_selection.py:444-457 | definition: each chain of a city frame gets round(its share of the frame x the city target), or no ACV target when the frame has no ACV |
| Design.NewStructure | app_modules/niv_sample_selection.py:412-465 | definition of new_sample_structure: the city targets of target_parameters_df cascaded to the chains |
| Design.ChainsFor | app_modules/niv_sample_selection.py:421-457 | definition: the detailed breakdown of the target cities, merged with their targets on City_ID, split by city and shared out |
| Selection.FirstTarget | app_modules/niv_sample_selection.py:500-505 | the first new-structure row of the city and chain; none iff no row matches |
| Selection.PreservingSampleGroups | app_modules/niv_sample_selection.py:494-509 | for every (city, chain) group of the listed cities, the draw holds exactly that group's top-ACV stores, as many as its first target |
| Selection.PreservingSampleMembers | app_modules/niv_sample_selection.py:494-509 | every drawn store is a store of the listed cities |
| Selection.PreservingSampleFails | app_modules/niv_sample_selection.py:500-505 | a group without a row in the new structure makes the draw raise (`.values[0]` of an empty selection) |
| Selection.CitySampleGroup | app_modules/niv_sample_selection.py:499-507 | within one city, each chain's stores in the draw are exactly that chain's group draw |
| Selection.CitySampleFails | app_modules/niv_sample_selection.py:500-505 | a chain of the city without a target makes the city's draw raise |
| Selection.SampleSelection.StructurePreservingSample | app_modules/niv_sample_selection.py:494-509 | the nested loops over cities and chains, in ascending id order, compute the preserving sample |
| Selection.SampleSelection.CityDraw | app_modules/niv_sample_selection.py:499-507 | the inner loop over the chains of one city |
| Selection.SampleSelection.AcvMaximizingSample | app_modules/niv_sample_selection.py:511-516 | min(n_stores, pool) stores of the principal cities, in non-increasing ACV, none of them below any store left out |
| Selection.SampleSelection.constructor | app_modules/niv_sample_selection.py:470-492 | the new structure is the design's; cities, ids and n_stores are taken from it; the store data is restricted to its cities |
| Selection.SampleSelection.Design | app_modules/niv_sample_selection.py:481-484 | the checked table and the new structure of an NIV_Structure_Design built on the request |
| Selection.CitiesDataFiltered | app_modules/niv_sample_selection.py:495-496 | the repeated `isin` on cities_data changes nothing |
| Selection.GroupSample | app_modules/niv_sample_selection.py:500-507 | definition: the first target row of the group, and nlargest of that many stores; a group without a target row raises |
| Selection.CitySample | app_modules/niv_sample_selection.py:499-507 | definition: the group draws of one city's chains, in ascending Subplayer_ID order, concatenated |
| Selection.PreservingSample | app_modules/niv_sample_selection.py:494-509 | definition of structure_preserving_sample: the city draws in ascending City_ID order, concatenated; nothing to concatenate raises |
| Selection.Designed | app_modules/niv_sample_selection.py:481-484 | definition: the new structure of an NIV_Structure_Design built on the request |
| Tables.Largest | app_modules/niv_sample_selection.py:506 | nlargest: min(n, size) rows of the frame, largest first, none smaller than a row left out |
| Tables.SortDescending | app_modules/niv_sample_selection.py:121-122 | a permutation of the rows in non-increasing key order |
| Tables.SortStable | app_modules/niv_sample_selection.py:121-122 | the sort is stable: the rows of each key keep their input order |
| Tables.LargestKeepsFirst | app_modules/niv_sample_selection.py:506 | nlargest keeps the first occurrences on ties: the chosen rows of each key are the first rows of that key in the input, in input order |
| Tables.Distinct | app_modules/niv_sample_selection.py:340-341 | unique(): no duplicates and exactly the values of the column |
| Allocation.StrataKeys | pages/1_Sampling.py:266-267 | the strata list every key of the table once, each with its row count |
| Allocation.StrataCover | pages/1_Sampling.py:266-267 | the stratum counts add up to N |
| Allocation.StrataDistinct | pages/1_Sampling.py:266-267 | no two strata share a key |
| Allocation.MembersCount | pages/1_Sampling.py:289-290 | the rows matching a stratum's key number its count |
| Allocation.AllocationDrift | pages/1_Sampling.py:279-282 | the exact shares add up to n and the rounded allocations lie within half a row per stratum of n |
| Allocation.AllocationBounds | pages/1_Sampling.py:281-282 | every allocation is between 0 and, when n <= N, the stratum's count |
| Allocation.PreSample | pages/1_Sampling.py:286-297 | the loop that looks each stratum up among the rows not drawn yet computes the pre-sample of the whole table, raising on a stratum too small for its allocation |
| Allocation.PreLoopInvariant | pages/1_Sampling.py:286-297 | rows left over after each stratum are exactly those not drawn, so looking up later strata in them loses nothing |
| Allocation.PreSampleLoop | pages/1_Sampling.py:286-297 | the loop keeps the remaining rows and the pre-sample as the stepwise specification does |
| Allocation.DrawnSize | pages/1_Sampling.py:286-297 | the pre-sample holds as many rows as the allocations add up to |
| Allocation.DrawnDistinct | pages/1_Sampling.py:286-297 | the pre-sample holds no row twice, and only rows of the strata drawn |
| Allocation.DrawnOfStratum | pages/1_Sampling.py:286-297 | a stratum's rows in the pre-sample are exactly the rows drawn for it |
| Allocation.DrawnWhenAllFit | pages/1_Sampling.py:291-292 | when every allocation fits its stratum, the pre-sample is taken |
| Allocation.Walk | pages/1_Sampling.py:313-319 | the loop over a_auxiliar_df stops after the first row whose running count reaches the target |
| Allocation.WalkStopSpec | pages/1_Sampling.py:313-319 | the walk takes the shortest non-empty prefix whose counts reach the target, or all rows |
| Allocation.EligibleSize | pages/1_Sampling.py:324-325 | the strata allocated the walked sizes number the sum of those sizes' counts |
| Allocation.WalkEnough | pages/1_Sampling.py:313-325 | with at least m strata, the walk admits at least m eligible strata |
| Allocation.DrawOnePerStratum | pages/1_Sampling.py:327-331 | one row of the frame from each chosen stratum, raising on a stratum with none |
| Allocation.Fill | pages/1_Sampling.py:309-333 | the shortfall branch: walk, eligible strata, draw, one unsampled row from each, appended to the pre-sample |
| Allocation.Remove | pages/1_Sampling.py:348-374 | the overshoot branch: descending walk, eligible strata, draw, one pre-sampled row from each, and the anti-join |
| Allocation.Correct | pages/1_Sampling.py:308-389 | the sign of aux_eval chooses fill, removal or the pre-sample itself; the fill pool is the page's as written or the corrected one, as the caller chooses |
| Allocation.StratifiedSample | pages/1_Sampling.py:266-389 | allocation, pre-sample and correction compute SampleOf, with the fill as written or the corrected fill, as the caller chooses |
| Allocation.StratumOf | pages/1_Sampling.py:266-282 | definition of a row of w_pivot_df: its key, its row count, its weight and its allocation round(count / N x n) |
| Allocation.Strata | pages/1_Sampling.py:266-282 | definition of w_pivot_df: one stratum per distinct key, in first-appearance order |
| Allocation.DrawFrames | pages/1_Sampling.py:286-297 | definition: the pre-sample after each stratum in turn; a stratum smaller than its allocation raises |
| Allocation.PreSampleOf | pages/1_Sampling.py:286-297 | definition of pre_est_samp_df: DrawFrames over all strata |
| Allocation.ValueCounts | pages/1_Sampling.py:302-307 | definition of a_auxiliar_df: each allocation size, ascending, with its number of strata |
| Allocation.WalkStop | pages/1_Sampling.py:313-319 | the number of a_auxiliar_df rows the walk takes, at most all of them |
| Allocation.FillPool | pages/1_Sampling.py:298-325 | definition: the strata the fill may draw, every stratum as written, or only those with rows left when corrected |
| Allocation.FillOf | pages/1_Sampling.py:309-333 | definition of the fill branch: too few eligible strata raises, otherwise one unsampled row of each drawn stratum is appended |
| Allocation.RemoveOf | pages/1_Sampling.py:348-374 | definition of the removal branch: too few eligible strata raises, otherwise the rows equal to one chosen row of each drawn stratum leave the pre-sample |
| Allocation.CorrectionOf | pages/1_Sampling.py:308-389 | definition: the fill when the pre-sample is short of n, the removal when it overshoots, the pre-sample itself otherwise |
| Allocation.SampleOf | pages/1_Sampling.py:266-389 | definition of est_samp_df: the pre-sample, then its correction |
| SampleSize.StratumFacts | pages/1_Sampling.py:279-282 | a stratum's count is its number of rows and its allocation the rounded share, at most the count when n <= N |
| SampleSize.PreSampleTaken | pages/1_Sampling.py:286-297 | for n <= N the pre-sample is always taken and has Sum(alloc) rows |
| SampleSize.ShortfallBound | pages/1_Sampling.py:308-309 | a shortfall of m rows needs at least 2m strata allocated fewer rows than they have |
| SampleSize.OvershootBound | pages/1_Sampling.py:308-348 | an overshoot of m rows needs at least 2m strata allocated at least one row |
| SampleSize.ShortHasRows | pages/1_Sampling.py:298-301 | a stratum allocated fewer rows than it has keeps a row in o_minus_pre_est_df |
| SampleSize.SpareRow | pages/1_Sampling.py:298-301 | a row outside the pre-sample survives the left-only merge when rows are distinct |
| SampleSize.FillPoolSize | pages/1_Sampling.py:298-325 | the corrected fill pool holds every short stratum, so at least the shortfall |
| SampleSize.OnePerStratumOk | pages/1_Sampling.py:327-331 | when each chosen stratum has a row in the frame, the loop draws one row of each |
| SampleSize.FillHasEnough | pages/1_Sampling.py:309-325 | for n <= N, the corrected fill always admits at least as many eligible strata as rows are missing |
| SampleSize.FillSize | pages/1_Sampling.py:309-333 | the corrected fill is taken and brings the sample to exactly n rows |
| SampleSize.FilledSample | pages/1_Sampling.py:308-333 | a pre-sample short of n rows is filled to exactly n rows |
| SampleSize.RemoveEnough | pages/1_Sampling.py:352-364 | with at least m strata, the descending walk admits at least m |
| SampleSize.DescendingWalkSkipsZero | pages/1_Sampling.py:352-364 | when enough strata are allocated rows, the removal never draws a stratum allocated none |
| SampleSize.AllocatedInPreSample | pages/1_Sampling.py:366-368 | every stratum eligible for removal has a row in the pre-sample |
| SampleSize.RemovedDistinct | pages/1_Sampling.py:366-370 | the removed rows are distinct pre-sampled rows |
| SampleSize.AntiJoinSize | pages/1_Sampling.py:371-374 | the left-only merge on whole rows drops exactly the removed rows when rows are distinct |
| SampleSize.RemovalTaken | pages/1_Sampling.py:365-374 | when each eligible stratum has a pre-sampled row, the removal is taken and drops m rows |
| SampleSize.RemoveSize | pages/1_Sampling.py:348-374 | the removal is taken and brings the sample to exactly n rows |
| SampleSize.CutSample | pages/1_Sampling.py:348-374 | a pre-sample of more than n rows is cut to exactly n rows |
| SampleSize.SampleHasSize | pages/1_Sampling.py:266-389 | for n <= N and distinct rows, the corrected stratified sample never raises and has exactly n rows |
| FillAsWritten.AsWrittenFillRaises | pages/1_Sampling.py:309-333 | as written, strata of 1, 3, 3 and 3 rows with n = 8 make the fill raise for every possible draw |
| FillAsWritten.TableStrata | pages/1_Sampling.py:266-282 | the ten rows form strata A, B, C, D with counts 1, 3, 3, 3 and allocations 1, 2, 2, 2 at n = 8 |
| FillAsWritten.PreTakesA | pages/1_Sampling.py:286-297 | every pre-sample of that table takes the sole row of A |
| FillAsWritten.NoSpareA | pages/1_Sampling.py:298-301 | then no row of A is left in o_minus_pre_est_df |
| FillAsWritten.FillRaises | pages/1_Sampling.py:309-333 | as written, the fill of one row admits only stratum A and raises |
| FillAsWritten.FillFromFullStratum | pages/1_Sampling.py:326-331 | as written, a fill whose only eligible stratum is fully pre-sampled raises |

## Left out

- Streamlit widgets, file upload, CSV download and every `print` are left out; the model returns values instead.
- `players_help` and the descriptions of the required columns (text output only) are left out.
- Floating point is left out. Shares and targets are exact rationals (`real`), and rounding is written out as half-to-even. Percentages are integers in hundredths of a percent, and the stratum weight `np.round(x, 4)` is in millionths.
- pandas `groupby` lists groups in sorted key order. The structure tables and the strata follow first-appearance order instead. This only changes the order of rows with equal weights after the stable sort. For the strata of the sampling page it also changes which positions the caller's draws refer to, and the row order of `est_samp_df`, which is concatenated stratum by stratum. The structure-preserving draw does use ascending ids.
- The tie order of `sort_values` (an unstable quicksort) is not specified by pandas. The model uses a stable insertion sort.
- A universe whose ACV adds up to zero gives NaN shares in the source. The model reports failure (`None`) instead.
- The loops of `set_structure_preservation` and `set_reduction_method` never terminate on an invalid mode. The model requires a valid mode.
- The `NIV_Structure_Design` and `NIV_Sample_Selection` constructors require a table that `get_structure` accepts. On any other table the source fails on the missing breakdowns.
- Design.NewStructure and Selection.Designed: a reduced universe whose ACV adds up to zero is not modelled. In the source its ACV shares and ACV targets are NaN, but its store targets are valid, `new_sample_structure` returns its chains, and both draws run. In the model the design yields no chains: `Selection.Designed` is empty, so the structure-preserving draw raises and the ACV-maximizing draw returns no stores. A universe with no cities would fail in the source at `min([])` (app_modules/niv_sample_selection.py:217), but its table is refused before the design starts.
- The row order of `pd.merge` on `City_ID` is modelled as left-row order. pandas may regroup rows by key.
- `structure_preserving_sample` takes the first matching target row. A NaN target raises as `int()` does. A target that is not an integer is not modelled.
- The weight column `Weight(%)` of the sampling page is computed but never read by the sampling. It is modelled, and nothing is proved about it.
- The random choices of every `sample` call are parameters (`Allocation.Draws`).
  - `DrawOnePerStratum` models `sample(n=1)` as the caller's number taken modulo the frame size.
  - The sample size n and the table size N are inputs. The code that computes n (`SamplingMachine`) is not part of this model.
- `Allocation.StratifiedSample` requires a non-empty table. For an empty table (N = 0), the share count / N at pages/1_Sampling.py:279-282 divides by zero.
- SampleSize.SampleHasSize assumes no two rows of the table are equal. The page merges on whole rows, so equal rows would be removed together. The page asks for an identifier column that uniquely identifies the rows, which makes rows distinct.
- Lines 404–534 of the sampling page repeat lines 271–402, inside the `aux_eval == 0` branch. The repeat is not modelled separately.
- Universe.ParseInt: `int()` also accepts the decimal digits of other scripts (any Unicode digit, such as Arabic-Indic digits). The model accepts ASCII digits only, so an ACV column written in other digits is rejected.
- Design.TargetCityIdsDistinct: holds for tables in which each City_ID names one city. The source does not check this; a table with two city names under one City_ID gives target_parameters_df two rows for that id.
- NaN values in the parameter columns (dropped by `groupby`) are not modelled.
- Universe.UniverseStructure.ColumnsCheck and Universe.ParseInt: text ACV cells are cast with the int64 bound (Universe.CastNumeral), but a column that is already numeric is taken as unbounded integers. The group ACV sums of `acv_structure` and the universe ACV are unbounded too, where int64 sums in the source wrap around beyond 2^63. NaN in the key, SHO_ID or ACV columns of the universe table, which `groupby` and `count()` skip, is not modelled.
- The strata of the sampling page are keyed by their parameter values, and a row is a key plus its other values. Column types other than strings are not modelled.

## Findings

| source | as written | input that shows it | evidently intended | confidence | as-written member | corrected member |
|---|---|---|---|---|---|---|
| pages/1_Sampling.py:309-333 | the shortfall is filled from every stratum of the smallest allocation sizes, including strata whose rows are all in the pre-sample, and `sample(n=1)` of such a stratum's unsampled rows raises | 10 rows in strata of 1, 3, 3 and 3 rows, n = 8: the allocations are 1, 2, 2, 2 (7 rows), so one row is missing; the walk admits only size 1, whose only stratum was fully pre-sampled | fill only from strata that still have unsampled rows, which always yields exactly n rows | not executed | FillAsWritten.AsWrittenFillRaises | SampleSize.SampleHasSize |
