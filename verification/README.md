# Ocean temperature microbes: a verified model of the computational core

This project models in Dafny the discrete and arithmetic core of the analysis
code behind the study of how ocean temperature shapes the 16S rRNA copy numbers
and growth rates of marine bacterial communities. It covers four pieces.

- **Copy-number assignment** (`copynums.dfy`, module `CopyNumbers`). Every OTU
  row of a taxonomy table gets the rrnDB mean copy number of its finest
  classified rank. A row starts at its finest named rank: its species name in
  the species-aware variant, otherwise the first of genus, family, order, class
  and phylum that is not NaN. It falls back through every coarser rank, in
  that order, and moves to a coarser rank only when the current rank's partition of the reference table
  has no entry with that (whitespace-stripped) name. Exactly one match writes
  the mean and the rank label. Several matches write nothing (the source only
  prints a warning). When every rank is exhausted, the cell gets the text
  `'nan'` and the OTU ID and a numeric level code are appended to two parallel
  lists. `OtuTable` is the table whose columns the two source functions update
  in place.
- **Community metrics** (`metrics.dfy`, module `CommunityMetrics`). These are
  computed per sample. The weighted mean copy number (WMCN) is Σa / Σ(a/cn), the
  abundance-weighted harmonic mean copy number. The weighted mean growth rate
  (WMGR) is Σa·g / Σa. Each is computed over the whole community and over
  subsets: no SAR11 orders, copy number > 1, growth rate > 0.1386, or
  non-phototrophs. `SampleMetadata` is the metadata table: its metric columns
  are first set to NaN, then written by one loop per column.
- **Simulation kernels** (`modelfns.dfy`, module `ModelFns`). This covers:
  - the right-hand sides of the generalized Lotka–Volterra and the linear
    consumer–resource ODEs;
  - the normalised geometric copy-number weights;
  - forcing the competition matrix's diagonal to 1;
  - the aggregation of final abundances into WMCN and per-copy-number relative
    abundances;
  - the bootstrap's error accumulation and first-minimum choice of `p`;
  - the initial state of the consumer–resource sweep.
- **Nearest-value rounding** (`fitp.dfy`, module `FitP`): the closest list
  element to a number, the earliest one on ties. The first-minimum search it
  shares with the bootstrap is in `argmin.dfy` (module `ArgMin`).

Shared helpers:
- `wrappers.dfy` holds the `Option` type. A NaN cell, an absent result or a
  failed lookup is `None`.
- `realarith.dfy` holds small lemmas of real arithmetic.

Conventions:
- Numbers are exact `real`s. A quotient with a zero denominator is `None`; numpy
  gives NaN for 0/0 and ±inf for x/0.
- An OTU's taxonomy is one optional name per rank.
- The reference table is a sequence of (rank, name, mean) entries.
- The integrator output, random draws and transcendental rates are parameters.

The code's quirks are modelled as written:
- the species partition is built from the genus mask;
- a phylum match reached from a species-start row is labelled 'Class';
- both the species start and the genus start record code 1.

## Model

| member | source | states |
|---|---|---|
| CopyNumbers.Strip | code/assign_copynums_functions.py:315-319 | The result is the input with its leading and trailing whitespace removed: a contiguous slice, everything cut off is whitespace, and the result neither starts nor ends with whitespace. |
| CopyNumbers.StripIdempotent | code/assign_copynums_functions.py:25-30 | Stripping a stripped name changes nothing. |
| CopyNumbers.StripTaxonomy | code/assign_copynums_functions.py:25-30 | Definition: each rank name is stripped, a null name stays null, and the species column is stripped only by the species-aware variant. |
| CopyNumbers.StripAll | code/assign_copynums_functions.py:314-319 | Definition: the strip applies row by row and keeps the row count. |
| CopyNumbers.Partition | code/assign_copynums_functions.py:34-45 | The partition for a rank holds exactly the reference entries of that rank. |
| CopyNumbers.Matches | code/assign_copynums_functions.py:352 | The matches are exactly the partition entries whose name equals the row's name, never more than the partition holds, and a null name matches nothing (multiplicity: `MatchesMultiplicity`). |
| CopyNumbers.MatchesMultiplicity | code/assign_copynums_functions.py:352 | Each entry carrying the row's name occurs among the matches exactly as often as in the partition, and every other entry not at all. |
| CopyNumbers.Cascade | code/assign_copynums_functions.py:351-396 | An unresolved outcome carries the plan's code; the cascade's behaviour is stated by FirstHitDecides, UnresolvedIffNoHits and AssignedFromReference. |
| CopyNumbers.SpeciesBlindPlan | code/assign_copynums_functions.py:351-518 | The code is `FinestRankCode` (1 genus … 5 phylum, 6 none) and the steps are the ladder genus, family, order, class, phylum from that rank on, in that order, each looked up in its own rank's partition and labelled with its own rank; a row with no name has no steps and code 6. |
| CopyNumbers.WithSpeciesPlan | code/assign_copynums_functions.py:63-123 | A row with a species name gets code 1 and six steps: its species name looked up in the genus partition and labelled Species, then genus, family, order and class with their own labels, then phylum labelled Class. A row without a species name gets exactly the species-blind plan. |
| CopyNumbers.FirstHitDecides | code/assign_copynums_functions.py:353-358 | The first rank with any match decides: exactly one match assigns that entry's mean with the rank's label, several matches are ambiguous; coarser ranks are never consulted. |
| CopyNumbers.UnresolvedIffNoHits | code/assign_copynums_functions.py:391-396 | A row is unresolved exactly when every rank of its plan has zero matches. |
| CopyNumbers.AssignedFromReference | code/assign_copynums_functions.py:353-356 | An assigned mean is the mean of a reference entry of the step's rank whose name equals the row's name at that step, and the label is that step's. |
| CopyNumbers.FinestRankCode | code/assign_copynums_functions.py:391-518 | The code c lies in 1..6; the ranks of the ladder before position c are all null, and for c < 6 the rank at position c is named: c is the finest named rank, 6 when there is none. |
| CopyNumbers.UnresolvedCode | code/assign_copynums_functions.py:391-518 | An unresolved row records 1, 2, 3, 4, 5 or 6 for a finest non-null rank of genus, family, order, class, phylum or none; a species-start row records 1. |
| CopyNumbers.NoNamesUnresolved | code/assign_copynums_functions.py:513-518 | A row with no names at all is unresolved with code 6. |
| CopyNumbers.VariantsAgreeWithoutSpecies | code/assign_copynums_functions.py:307-310 | Without a species name the two functions resolve a row identically. |
| CopyNumbers.PartitionIgnoresDroppedRank | code/assign_copynums_functions.py:40-45 | Removing the entries of one rank leaves every other rank's partition unchanged. |
| CopyNumbers.PartitionAppend | code/assign_copynums_functions.py:34-45 | Partitioning distributes over concatenation of reference tables. |
| CopyNumbers.CascadeDependsOnlyOnHits | code/assign_copynums_functions.py:351-518 | Two reference tables with the same matches at every step give the same outcome. |
| CopyNumbers.SpeciesRowsNeverConsulted | code/assign_copynums_functions.py:40 | Because the species partition is built from the genus mask, reference rows of rank 'species' never affect any outcome. |
| CopyNumbers.GenusScenario | code/assign_copynums_functions.py:351-358 | For every reference table and every row without a species name whose genus partition holds its genus name: one entry assigns that entry's mean, labelled Genus, and several leave the row ambiguous, in both variants. |
| CopyNumbers.SpeciesMatchesGenusRow | code/assign_copynums_functions.py:63-68 | For every reference table and every row with a species name: exactly one genus-rank entry of that name assigns its mean, labelled Species. |
| CopyNumbers.PhylumViaSpeciesLabelledClass | code/assign_copynums_functions.py:63-123 | For every reference table and every row with a species name that matches nothing at species, genus, family, order and class and exactly one entry at phylum: the species-aware variant assigns that entry's mean labelled Class, the species-blind variant the same mean labelled Phylum. |
| CopyNumbers.LadderDecides | code/assign_copynums_functions.py:351-518 | In the species-blind variant, the first rank of the ladder whose partition holds the row's name decides: one entry assigns its mean with that rank's label, several make the row ambiguous. |
| CopyNumbers.SpeciesLadderDecides | code/assign_copynums_functions.py:63-291 | In the species-aware variant, for a row with a species name, the first of its six steps with any match decides in the same way, with that step's label. |
| CopyNumbers.SpeciesPlanFallsToPhylum | code/assign_copynums_functions.py:105-109 | The species-aware half of `PhylumViaSpeciesLabelledClass`: the single phylum match is labelled Class. |
| CopyNumbers.DuplicateNameAmbiguous | code/assign_copynums_functions.py:357-358 | Two entries with the row's name make the row ambiguous, and both columns keep their NaN; a concrete instance of GenusScenario. |
| CopyNumbers.Outcomes | code/assign_copynums_functions.py:348 | Definition: one outcome per row, each the resolution of that row. |
| CopyNumbers.Resolve | code/assign_copynums_functions.py:348-518 | An unresolved row records 1 when it has a species name in the species-aware variant and its finest-rank code otherwise; an assigned mean is the mean of a reference entry whose name is one of the row's names. |
| CopyNumbers.CellOf | code/assign_copynums_functions.py:353-396 | The Copy Number cell holds a mean exactly when the row was assigned, and then the assigned mean; it holds the text 'nan' exactly when the row is unresolved; an ambiguous row leaves it NaN. |
| CopyNumbers.LevelOf | code/assign_copynums_functions.py:353-356 | The Classification Level cell is written exactly when the row was assigned, with the assigned rank label. |
| CopyNumbers.UnresolvedRows | code/assign_copynums_functions.py:344-345 | Every listed row index is in range and unresolved. |
| CopyNumbers.UnresolvedRowsComplete | code/assign_copynums_functions.py:348-396 | The unresolved rows are listed in strictly increasing row order and every unresolved row is listed. |
| CopyNumbers.OtuTable.constructor | code/assign_copynums_functions.py:336-338 | The table holds the given IDs and taxonomies, with one cell per row in each result column. |
| CopyNumbers.OtuTable.AssignCopyNumsWithSpecies | code/assign_copynums_functions.py:15-294 | Strips the name columns (species included), then writes into each row's Copy Number and Classification Level cells what the species-aware cascade resolves for that row. Returns the IDs and codes of exactly the unresolved rows in row order, as two lists of equal length. |
| CopyNumbers.OtuTable.AssignCopyNums | code/assign_copynums_functions.py:307-522 | The same for the species-blind cascade, with the species column left as it is. |
| CopyNumbers.OtuTable.Assign | code/assign_copynums_functions.py:314-348 | The shared body: strip, reset both result columns to NaN, and resolve every row once. |
| CopyNumbers.OtuTable.FillRows | code/assign_copynums_functions.py:348-518 | The row loop: each row's cells hold the outcome's cell (mean and label, 'nan', or untouched NaN), and the two lists hold the IDs and codes of the unresolved rows in order. |
| CommunityMetrics.Filter | code/calc_WMCN_WMGR_functions.py:27-31 | A row is kept exactly when the mask keeps it, never more rows than the input; the no-SAR11 mask removes exactly the orders 'SAR11_clade', 'SAR11 clade' and 'Pelagibacterales'; the other masks keep exactly copy number > 1, growth rate > 0.1386 or Phototroph == 0 (multiplicity: `FilterMultiplicity`). |
| CommunityMetrics.FilterMultiplicity | code/calc_WMCN_WMGR_functions.py:27-31 | Each row the mask keeps occurs in the result exactly as often as in the table, and every other row not at all. |
| CommunityMetrics.Keeps | code/calc_WMCN_WMGR_functions.py:27-31 | A row kept by the copy-number masks has a copy number, one kept by the growth-rate masks has a growth rate, one kept as a heterotroph has a Phototroph value; a row with a NaN order passes the no-SAR11 mask. |
| CommunityMetrics.CnRows | code/calc_WMCN_WMGR_functions.py:34-37 | The WMCN rows are exactly the subset's rows whose copy number is not NaN (multiplicity: `MetricRowsMultiplicity`). |
| CommunityMetrics.GrowthRows | code/calc_WMCN_WMGR_functions.py:108-111 | The WMGR rows are exactly the subset's rows whose growth rate is not NaN (multiplicity: `MetricRowsMultiplicity`). |
| CommunityMetrics.MetricRowsMultiplicity | code/calc_WMCN_WMGR_functions.py:34-37 | Each row of the subset with a copy number (with a growth rate) occurs among the WMCN (WMGR) rows exactly as often as in the table, and every other row not at all. |
| CommunityMetrics.AbundanceSum | code/calc_WMCN_WMGR_functions.py:42 | Definition without a contract of its own: Σ of the sample column over the rows. Stated by `AbundanceSumScale`, `WmcnBounds` and `WmgrBounds`. |
| CommunityMetrics.PerCopySum | code/calc_WMCN_WMGR_functions.py:42 | Definition without a contract of its own: Σ a/cn over the rows. Stated by `PerCopySumBounds` and `PerCopySumScale`. |
| CommunityMetrics.GrowthWeightedSum | code/calc_WMCN_WMGR_functions.py:116 | Definition without a contract of its own: Σ a·g over the rows. Stated by `GrowthWeightedSumBounds` and `GrowthWeightedSumScale`. |
| CommunityMetrics.Quotient | code/calc_WMCN_WMGR_functions.py:42 | NaN exactly when the denominator is zero; otherwise the value times the denominator is the numerator. |
| CommunityMetrics.Wmcn | code/calc_WMCN_WMGR_functions.py:42 | NaN exactly when the summed abundance per copy is zero; otherwise WMCN times Σ(a/cn) equals Σa. |
| CommunityMetrics.Wmgr | code/calc_WMCN_WMGR_functions.py:116 | NaN exactly when the summed abundance is zero; otherwise WMGR times Σa equals Σa·g. |
| CommunityMetrics.SingleTaxonWmcn | code/calc_WMCN_WMGR_functions.py:42 | A single taxon's WMCN is its copy number, for any non-zero abundance (zero abundance gives 0/0, NaN, and is excluded by the requires). |
| CommunityMetrics.PerCopySumBounds | code/calc_WMCN_WMGR_functions.py:42 | With non-negative abundances and copy numbers in [lo, hi], Σa/hi ≤ Σ(a/cn) ≤ Σa/lo. |
| CommunityMetrics.WmcnBounds | code/calc_WMCN_WMGR_functions.py:42 | With non-negative abundances, positive total abundance and copy numbers in [lo, hi], WMCN is defined and lies in [lo, hi]. |
| CommunityMetrics.HarmonicBetween | code/calc_WMCN_WMGR_functions.py:42 | A positive total divided by a cell count between total/hi and total/lo lies in [lo, hi]. |
| CommunityMetrics.GrowthWeightedSumBounds | code/calc_WMCN_WMGR_functions.py:116 | With non-negative abundances and growth rates in [lo, hi], lo·Σa ≤ Σa·g ≤ hi·Σa. |
| CommunityMetrics.WmgrBounds | code/calc_WMCN_WMGR_functions.py:116 | With non-negative abundances, positive total abundance and growth rates in [lo, hi], WMGR is defined and lies in [lo, hi]. |
| CommunityMetrics.EqualAbundancesWmgr | code/calc_WMCN_WMGR_functions.py:116 | Two taxa of equal non-zero abundance have WMGR (g1 + g2)/2. |
| CommunityMetrics.EmptySubsetIsNan | code/calc_WMCN_WMGR_functions.py:54 | A subset with no rows gives 0/0, NaN, for both metrics. |
| CommunityMetrics.Scale | code/calc_WMCN_WMGR_functions.py:42 | Multiplies one sample's abundances by a constant and changes nothing else. |
| CommunityMetrics.FilterScale | code/calc_WMCN_WMGR_functions.py:27-37 | The filters commute with scaling a sample's abundances. |
| CommunityMetrics.AbundanceSumScale | code/calc_WMCN_WMGR_functions.py:42 | Scaling the abundances scales Σa by the same factor. |
| CommunityMetrics.PerCopySumScale | code/calc_WMCN_WMGR_functions.py:42 | Scaling the abundances scales Σ(a/cn) by the same factor. |
| CommunityMetrics.GrowthWeightedSumScale | code/calc_WMCN_WMGR_functions.py:116 | Scaling the abundances scales Σa·g by the same factor. |
| CommunityMetrics.WmcnDependsOnRelativeAbundance | code/calc_WMCN_WMGR_functions.py:42 | Multiplying every abundance of a sample by a positive constant leaves WMCN unchanged, NaN included. |
| CommunityMetrics.WmgrDependsOnRelativeAbundance | code/calc_WMCN_WMGR_functions.py:116 | Multiplying every abundance of a sample by a positive constant leaves WMGR unchanged, NaN included. |
| CommunityMetrics.ReadCopyNumber | code/calc_WMCN_WMGR_functions.py:34 | A copy-number cell reads as a number exactly when it holds a mean; NaN and the text 'nan' both read as NaN. |
| CommunityMetrics.ReadBackCounts | code/calc_WMCN_WMGR_functions.py:34 | An OTU enters the WMCN exactly when the copy-number assignment matched it, with the matched mean. |
| CommunityMetrics.WmcnColumn | code/calc_WMCN_WMGR_functions.py:39-43 | Definition: each metadata row's cell is the sample's WMCN when the sample is a column of the abundance table, and NaN otherwise. |
| CommunityMetrics.WmgrColumn | code/calc_WMCN_WMGR_functions.py:113-117 | Definition: each metadata row's cell is the sample's WMGR when the sample is a column of the abundance table, and NaN otherwise. |
| CommunityMetrics.SampleMetadata.NanColumn | code/calc_WMCN_WMGR_functions.py:21 | Definition: a column of NaN with one cell per sample. |
| CommunityMetrics.SampleMetadata.ResetColumn | code/calc_WMCN_WMGR_functions.py:21-24 | That column becomes all NaN; every other column is kept. |
| CommunityMetrics.SampleMetadata.WriteWmcn | code/calc_WMCN_WMGR_functions.py:39-43 | Over a NaN column, the loop leaves exactly `WmcnColumn` in it; every other column is kept. |
| CommunityMetrics.SampleMetadata.WriteWmgr | code/calc_WMCN_WMGR_functions.py:113-117 | Over a NaN column, the loop leaves exactly `WmgrColumn` in it; every other column is kept. |
| CommunityMetrics.SampleMetadata.CalcWmcnOnly | code/calc_WMCN_WMGR_functions.py:8-63 | The four WMCN columns (all, no SAR11, no CN1, heterotrophs) hold the subset WMCNs, and every other column is unchanged. |
| CommunityMetrics.SampleMetadata.CalcWmgrWmcn | code/calc_WMCN_WMGR_functions.py:69-167 | The four WMGR columns (all, no SAR11, copio, heterotrophs) and the four WMCN columns hold the subset metrics, and every other column is unchanged. |
| ArgMin.FirstMinIndex | code/modelSims/modelFns.py:157 | The index is in range, its value is no larger than any value, and every earlier value is strictly larger. |
| ArgMin.IncreasingKeepsFirstMin | code/modelSims/modelFns.py:156-158 | A strictly increasing transform of the errors (the root mean square of the accumulated squared error) has its first minimum at the same index. |
| FitP.Distances | code/modelSims/fit_p.py:47 | Definition: one distance per element, each the absolute difference from the number. |
| FitP.RoundToNearest | code/modelSims/fit_p.py:42-51 | None exactly when the list is empty; otherwise the element at the first position of minimum distance. |
| FitP.NearestIsClosest | code/modelSims/fit_p.py:46-50 | The result is an element of the list, and no element is closer to the number. |
| FitP.NearestIsEarliest | code/modelSims/fit_p.py:48 | Every element before the result is strictly farther away, so ties go to the earliest element. |
| FitP.ExactHitIsKept | code/modelSims/fit_p.py:47-50 | A number that occurs in the list rounds to itself. |
| ModelFns.DxDtGlv | code/modelSims/modelFns.py:12-36 | Returns N values, the k-th being X[k]·(r[k]·(1 − Σ_j alpha[k,j]·X[j]) − delta). |
| ModelFns.Competition | code/modelSims/modelFns.py:26-29 | With no species present among the first m, species k feels no competition. |
| ModelFns.GlvRate | code/modelSims/modelFns.py:34 | A species of zero abundance has zero growth, so an absent species stays absent. |
| ModelFns.CompetitionOfLoneSpecies | code/modelSims/modelFns.py:26-29 | When every other species is absent, the competition sum is alpha[k,k]·X[k]. |
| ModelFns.LoneSpeciesIsLogistic | code/modelSims/modelFns.py:26-34 | With unit self-competition and every other species absent, the GLV rate is the logistic X·(r·(1 − X) − delta). |
| ModelFns.SingleSpeciesEquilibrium | code/modelSims/modelFns.py:29-34 | With one species, alpha = [[1]], delta = 0 and X = [1], the derivative is 0; a concrete instance of LoneSpeciesIsLogistic. |
| ModelFns.DxDtGenSr | code/modelSims/modelFns.py:167-211 | Returns num_species + num_resource values: X[k]·(Σ_j r[k,j]·C[j] − delta) for species, delta·(Co[j] − C[j]) − C[j]·Σ_k r[k,j]·X[k] for resources, with C[j] = X[num_species + j]. |
| ModelFns.GenSrRate | code/modelSims/modelFns.py:204-209 | An absent species has zero derivative; an exhausted resource (C[j] = 0) is resupplied at delta·Co[j] and consumed by nobody. |
| ModelFns.Uptake | code/modelSims/modelFns.py:186-193 | Definition without a contract of its own: Σ_j r[k,j]·C[j]. Stated by `UptakeTotals` and `UptakeEqualsRemoval`. |
| ModelFns.Demand | code/modelSims/modelFns.py:195-202 | Definition without a contract of its own: Σ_k r[k,j]·X[k]. Stated by `DemandTotals` and `UptakeEqualsRemoval`. |
| ModelFns.ResourceVector | code/modelSims/modelFns.py:182-184 | C holds the resource entries of X. |
| ModelFns.UptakeTerms | code/modelSims/modelFns.py:186-189 | rpc[k,j] = r[k,j]·C[j]. |
| ModelFns.UptakeTotals | code/modelSims/modelFns.py:191-193 | Each species' row sum of rpc is its uptake Σ_j r[k,j]·C[j]. |
| ModelFns.ConsumptionTerms | code/modelSims/modelFns.py:195-198 | r_c[k,j] = r[k,j]·X[k]. |
| ModelFns.DemandTotals | code/modelSims/modelFns.py:200-202 | Each resource's column sum of r_c is Σ_k r[k,j]·X[k]. |
| ModelFns.UptakeEqualsRemoval | code/modelSims/modelFns.py:189-202 | Σ_k X[k]·Σ_j r[k,j]·C[j] equals Σ_j C[j]·Σ_k r[k,j]·X[k]: what the species take up is what the resources lose. |
| ModelFns.GenSrMassBalance | code/modelSims/modelFns.py:204-209 | For any output of the consumer–resource right-hand side, the species' total growth before death equals the resources' total consumption (mass balance). |
| ModelFns.GeomDist | code/modelSims/modelFns.py:67-69 | The list holds p·(1 − p)^n for n = 1..max_cn, in order, and its sum is their total. |
| ModelFns.GeomTerm | code/modelSims/modelFns.py:67-69 | Definition without a contract of its own: p·(1 − p)^n. Stated by `GeomTermDecreasing`. |
| ModelFns.GeomTotal | code/modelSims/modelFns.py:70 | Definition without a contract of its own: Σ_{n=1..max_cn} p·(1 − p)^n. Stated by `GeomDist` and `GeomTotalPositive`. |
| ModelFns.Normalize | code/modelSims/modelFns.py:70 | None exactly when the sum is zero; otherwise each weight times the sum is its entry. |
| ModelFns.GeomWeights | code/modelSims/modelFns.py:63-70 | The weights are p·(1 − p)^n divided by their total, one per copy number 1..max_cn. |
| ModelFns.NormalizedSumsToOne | code/modelSims/modelFns.py:70 | Normalized weights sum to 1. |
| ModelFns.GeomWeightsSumToOne | code/modelSims/modelFns.py:63-70 | The geometric weights sum to 1. |
| ModelFns.GeomTermDecreasing | code/modelSims/modelFns.py:69 | For 0 < p < 1, each term p·(1 − p)^n is positive and strictly larger than the next. |
| ModelFns.GeomTotalPositive | code/modelSims/modelFns.py:70 | For 0 < p < 1 and at least one copy number, the total is positive, so the weights exist. |
| ModelFns.GeomWeightsDecreasing | code/modelSims/modelFns.py:63-70 | For 0 < p < 1 the weights are positive and strictly decreasing in the copy number. |
| ModelFns.SetDiagonal | code/modelSims/modelFns.py:97-98 | Every diagonal entry below N is exactly 1, and every other entry is untouched. |
| ModelFns.AggregateTrial | code/modelSims/modelFns.py:109-115 | None exactly when the biomass is zero; otherwise the WMCN is Σ copynums[k]·X[k]/Biomass and the c-th relative abundance is the summed X/Biomass of the species of copy number c + 1. |
| ModelFns.RelativeTotal | code/modelSims/modelFns.py:113 | Definition without a contract of its own: Σ X[k]/Biomass. Stated by `RelativeTotalIsOne`. |
| ModelFns.MeanCopyNumber | code/modelSims/modelFns.py:110-111 | When every species has copy number 1, the WMCN sum equals the total relative abundance. |
| ModelFns.CopyNumberShare | code/modelSims/modelFns.py:114-115 | A copy number no species has gets share 0; when every species has copy number c, the share of c is the total relative abundance. |
| ModelFns.RelativeTotalIsOne | code/modelSims/modelFns.py:109-113 | The relative abundances sum to 1. |
| ModelFns.MeanCopyNumberBetween | code/modelSims/modelFns.py:110-111 | With non-negative abundances and copy numbers in [lo, hi], the WMCN sum lies between lo and hi times the total relative abundance. |
| ModelFns.TrialWmcnInRange | code/modelSims/modelFns.py:109-111 | With positive biomass, non-negative abundances and copy numbers in 1..max_cn, 1 ≤ WMCN ≤ max_cn. |
| ModelFns.SharesCoverAll | code/modelSims/modelFns.py:114-115 | With copy numbers in 1..max_cn, the per-copy-number shares together account for every species' relative abundance. |
| ModelFns.SumOfShares | code/modelSims/modelFns.py:114-115 | The first c per-copy-number relative abundances sum to the shares of copy numbers 1..c. |
| ModelFns.CnRelAbundSumToOne | code/modelSims/modelFns.py:113-115 | With copy numbers in 1..max_cn, the per-copy-number relative abundances sum to 1. |
| ModelFns.Errors | code/modelSims/modelFns.py:143-154 | Definition: one accumulated squared error per p, each summed over the replicate's draws. |
| ModelFns.SquaredError | code/modelSims/modelFns.py:143-154 | Definition without a contract of its own: Σ over the draws of (observed − simulated WMCN)². Stated by `Errors` and `BootstrapReplicate`. |
| ModelFns.ReplicateFit | code/modelSims/modelFns.py:151-158 | None exactly when p_range is empty or a lookup fails; otherwise the estimate is a p of the range whose error is the minimum, and every earlier p has strictly larger error. |
| ModelFns.BootstrapReplicate | code/modelSims/modelFns.py:143-158 | The accumulation loops return exactly `ReplicateFit`: the first-minimum p and its error. |
| ModelFns.BootstrapP | code/modelSims/modelFns.py:142-158 | None exactly when some replicate fails; otherwise one (estimate, error) pair per replicate, each that replicate's fit. |
| ModelFns.InitialAbundances | code/modelSims/modelFns.py:234 | Every entry holds start_density. |
| ModelFns.SupplyResources | code/modelSims/modelFns.py:254-255 | Every resource entry becomes the supply concentration, and the species entries are untouched. |
| ModelFns.SweepInitialStates | code/modelSims/modelFns.py:234-255 | At each step of the sweep, the species entries hold start_density and the resource entries hold that step's supply concentration. |

## Left out

- Reading CSV files and building dataframes. Tables are passed in as sequences, maps and records.
- ODE integration by `solve_ivp`. Only the right-hand sides are modelled; final abundances are inputs.
- Random draws are inputs chosen by the caller, within the ranges the draws would have:
  - the copy numbers and competition coefficients;
  - the consumer–resource rates;
  - the bootstrap's sample indices.
- The Arrhenius rates (`np.exp`). Rates are inputs.
- The summary statistics of `bootstrap_p` (`np.mean`, `np.std`) and the tick marks of `get_WMGR_ave`.
- ModelFns.ReplicateFit: the error is the accumulated squared error, not its root mean. `np.sqrt` is not modelled. `ArgMin.IncreasingKeepsFirstMin` shows that any strictly increasing transform picks the same p. With zero draws the source divides 0 by 0, so its error is NaN; the model gives 0.
- The rounding of temperatures (2 decimals) and p (4 decimals) in the bootstrap's lookups. The simulation table is a map from (temperature, p) to WMCN, and a missing key gives `None` where pandas raises.
- The WMGR aggregation of `get_WMGR_ave` (code/modelSims/modelFns.py:264-265). It needs the Arrhenius rate sums and the integrator output.
- Floating-point rounding, overflow, and the difference between NaN and ±inf: every quotient with a zero denominator is `None`.
- CommunityMetrics.Wmcn: requires that no copy number is zero (`NonzeroCopyNumbers`). Copy numbers are rrnDB means of at least 1, and a zero would give an infinite term.
- CopyNumbers.StripTaxonomy: models a name column of strings and NaN only. In the source, `str.strip` on a column that is entirely NaN (a float column) raises AttributeError, and any other non-string cell becomes NaN; a missing Species column makes `assign_copynums_with_species` raise KeyError. None of these errors is modelled.
- NaN abundances in the taxon table. numpy's sums skip them; the model has a number in every abundance cell.
- CopyNumbers.Cascade: the printed warning for several matches is not modelled. Its only effect is that nothing is written.
- CopyNumbers.OtuTable.Assign: the cascade outcomes are computed from the stripped names, then written by one loop. The source decides and writes row by row; the cells written are the same.
- Pandas chained-assignment semantics (`data['Copy Number'].iloc[k] = ...`). Each such statement is modelled as writing the cell.
- The plotting and dataset-selection scripts (`simLV.py`, `simCR.py`, `calc_plot_WMCN.py`) and the rest of `fit_p.py`.
