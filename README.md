# Stroke transport cost-effectiveness model in Dafny

This project models a decision-analytic model for acute stroke. It asks
where an ambulance should take a patient with a suspected stroke:

- **Primary**: the nearest primary stroke center, which can give
  thrombolysis (tPA);
- **Comprehensive**: a comprehensive center, which can also do thrombectomy
  (EVT);
- **Drip and Ship**: tPA at the primary center, then a transfer for EVT.

For one patient scenario (sex, age, RACE severity score and the travel and
door times), the model works in these steps:

1. It computes each strategy's probability of a good outcome (modified
   Rankin Scale 0-2) and the shares who get tPA, EVT and a transfer.
2. It splits a population of one stroke call over eight health states: the
   general population, mRS 0 to 5, and death.
3. It runs yearly Markov cycles until age 100; in each cycle every living
   state loses its share of deaths.
4. It discounts the yearly QALYs and costs and integrates them by a
   1/3-weighted (Simpson-style) sum.
5. It picks the cost-effective strategy from the efficiency frontier, at an
   ICER threshold. An ICER is an incremental cost-effectiveness ratio.

A probabilistic mode repeats the evaluation and reports, for each strategy,
the percentage of evaluations in which it was optimal.

There is one Dafny module per source file:

| module | source | what it holds |
|---|---|---|
| `Inflation` (inflation.dfy) | `inflation.py` | the CPI table and the conversion between currency years |
| `Constants` (constants.dfy) | `constants.py` | the health states, the time limits, the RACE/NIHSS regressions, the outcome breakdown, the hazard and utility tables, the cost tables (a class inflated in place) and the cost formulas |
| `AisOutcomes` (ais_outcomes.dfy) | `ais_outcomes.py` | the outcome probability curves, and the class `IschemicModel` (one patient) |
| `Cohort` (cohort.dfy) | `cohort.py` | the class `Population`; the Markov cycles run in place on an `array`; the discounted series; the 1/3 correction |
| `OptimalStrategy` (optimal_strategy.dfy) | `optimal_strategy.py` | formatting, the sort, the two dominance phases run as loops, the ICERs and the threshold choice |
| `Driver` (driver.dfy) | `main.py` | one model run, the maximum-benefit scan, the probabilistic tally (class `ProbabilisticModel`) and the name of the output file of a random-set run |
| `Numeric` (numeric.dfy) | — | `Option`, sums and powers of reals, and their lemmas |

All quantities are exact `real`s.

Each imperative operation is a `method`. Each method is proved equal to a
specification function, and the properties are proved about that function:

- `RemoveDominated` equals `Phase1`;
- `RemoveExtendedDominated` equals `Phase2`;
- `RunCycle` equals `Step`;
- `RunMarkov` equals `Trajectory`;
- `Tally` equals `Tallied`;
- and so on for the others.

For a positive ICER threshold the selected strategy is never strictly
dominated: no strategy has at least its QALYs at no higher cost while being
better in one of the two (`OptimalNotDominated`). The proof rests on a
property of the second dominance phase: every row it deletes lies above the
line through its neighbours, so all rows stay on or above the final
frontier. For a threshold of zero or less the property fails
(`NonPositiveThresholdExample`).

The `IschemicModel` fields are immutable (`const`), because the
program assigns them only while the object is constructed.

The model follows the code in two places where the obvious reading differs:

- **A single strategy.** With fewer than two rows left after the first
  dominance phase, choosing the optimal strategy never stops. One might
  expect the single label to be returned, but the code loops for ever. The
  model has a `NoTermination` outcome and proves it for one strategy
  (`SingleStrategyNeverEnds`).
- **The 1/3 correction with an odd end index.** The weights of the 1/3
  correction add up to the end index only when that index is even. When it
  is odd, they add up to the end index minus 1/3 (`WeightsTotal`).

## Model

| member | source | states |
|---|---|---|
| Inflation.CpiPositive | inflation.py:8-21 | the CPI table has one value per year from 1913 to 2016 (104 values), and every value is positive |
| Inflation.CpiOf | inflation.py:24-31 | the CPI of a covered year is positive |
| Inflation.Run | inflation.py:24-31 | a converted cost has the sign of the original: positive, zero or negative exactly when the original is |
| Inflation.RunSameYear | inflation.py:24-31 | converting to the same year changes nothing |
| Inflation.RunLinear | inflation.py:24-31 | conversion is additive and homogeneous in the cost |
| Inflation.RunCompose | inflation.py:24-31 | converting a to b and then b to c equals converting a to c |
| Inflation.RunRoundTrip | inflation.py:24-31 | converting there and back gives the original cost |
| Inflation.CpiSamples | inflation.py:8-19 | the table holds the published values for 1913, 2008, 2014 and 2016 |
| Constants.TimesFrom | constants.py:100-111 | the transfer-to-EVT delay plus door-to-needle at the primary center equals door-to-intra-arterial; the other three delays are the given ones |
| Constants.BaseCaseTimes | constants.py:49-97 | with the base-case door times (61, 52, 145), the transfer-to-EVT delay is 84 minutes |
| Constants.RaceRoundTrip | constants.py:134-173 | RACE to NIHSS and back is the identity, except at the one nonzero RACE that maps to NIHSS 1; that RACE comes back as 0 |
| Constants.NihssRoundTrip | constants.py:134-173 | NIHSS to RACE and back is the identity, except at NIHSS -0.39, which comes back as 1 |
| Constants.NoTxWhereToGo | constants.py:149-161 | "Comprehensive" exactly when RACE >= 5, and "Primary" exactly when RACE < 5 |
| Constants.DeathFraction | constants.py:204-212 | the death fraction by NIHSS band is strictly between 0 and 1 |
| Constants.DeathFractionMonotone | constants.py:204-212 | a more severe stroke never has a smaller death fraction |
| Constants.BreakUpAisPatients | constants.py:188-224 | eight non-negative shares: general population 0, death = the death fraction, mRS 0-2 summing to the good-outcome probability, and all summing to 1 |
| Constants.HazardMort | constants.py:227-243 | every mortality hazard ratio is at least 1 |
| Constants.UtilitiesMrs | constants.py:246-258 | every utility is in [0,1], and it is 1 exactly for the general population and mRS 0 |
| Constants.Costs.Current | constants.py:266-313 | the tables as a value have one entry per living state |
| Constants.Costs.constructor | constants.py:266-313 | the published 90-day ischemic, 90-day ICH and annual tables, and the death, IVT, EVT and transfer costs |
| Constants.Costs.Inflate | constants.py:316-330 | every cost is converted from its own currency year (2014, 2008 or 2010) to the target year, and the tables keep their length |
| Constants.InflatedTables | constants.py:266-330 | after inflation, general-population costs are still 0 and every other cost is still positive |
| Constants.FirstYearUnit | constants.py:345-358 | one first-year unit cost per living state |
| Constants.AnnualCostLinear | constants.py:362-365 | the annual cost is linear in the state vector |
| Constants.AnnualCostAllDead | constants.py:362-365 | a cohort that is all dead costs its mass times the death cost |
| Constants.AnnualCostNonNegative | constants.py:362-365 | non-negative masses and costs give a non-negative annual cost |
| Constants.FirstYearCostsDecomposition | constants.py:345-359 | the first-year cost is a quarter of the 90-day costs, plus three quarters of both annual costs, plus one more quarter of the death cost of the dead mass |
| Constants.DotAdd | constants.py:345-365 | the state-by-cost sum is additive in the masses |
| Constants.DotScale | constants.py:345-365 | the state-by-cost sum scales with the masses |
| Constants.DotOfBlend | constants.py:345-358 | a blended unit cost gives the same blend of the state-by-cost sums |
| Constants.DotNonNegative | constants.py:345-365 | non-negative masses and costs give a non-negative sum |
| Constants.DotOfZeroMass | constants.py:345-365 | zero mass gives a zero sum |
| AisOutcomes.PGoodOutcomeNoReperfusion | ais_outcomes.py:32-39 | exactly 5% from NIHSS 20 on, never below 5%, and at most 1.0071 for non-negative NIHSS |
| AisOutcomes.NoReperfusionNonIncreasing | ais_outcomes.py:32-39 | a more severe stroke never has a better outcome without reperfusion |
| AisOutcomes.PEarlyReperfusionThrombolysis | ais_outcomes.py:69-70 | at most 18%; exactly 18% from 70 minutes on; non-negative for non-negative times |
| AisOutcomes.EarlyReperfusionNonDecreasing | ais_outcomes.py:69-70 | it never decreases with the time to groin puncture |
| AisOutcomes.OddsRatioAboveOne | ais_outcomes.py:57 | inside the tPA window the odds ratio of tPA is above 1 |
| AisOutcomes.OddsPositive | ais_outcomes.py:58 | a probability strictly between 0 and 1 has positive odds |
| AisOutcomes.TpaOddsDefinedForProbabilities | ais_outcomes.py:53-61 | a baseline probability strictly between 0 and 1 makes the odds computation defined |
| AisOutcomes.PGoodOutcomeAisNoLvoGotTpa | ais_outcomes.py:42-61 | after the tPA window the result is the baseline probability |
| AisOutcomes.TpaAdjustment | ais_outcomes.py:53-61 | inside the window the result is strictly between the baseline and 1, and its odds are the baseline odds times the odds ratio |
| AisOutcomes.OddsToProbabilityIncreasing | ais_outcomes.py:60 | turning non-negative odds back into a probability is strictly increasing and stays below 1 |
| AisOutcomes.ReciprocalDecreasing | ais_outcomes.py:58 | for positive numbers, a larger number has a smaller reciprocal |
| AisOutcomes.TpaEarlierIsBetter | ais_outcomes.py:42-61 | inside the window, earlier tPA never gives a worse outcome |
| AisOutcomes.PGoodMixture | ais_outcomes.py:203-248 | without EVT the mixture is the baseline; with EVT it is the baseline plus the LVO share times the reperfused gain |
| AisOutcomes.PGoodMixtureAtLeastBaseline | ais_outcomes.py:203-248 | with an LVO share in [0,1] the mixture is never below the baseline |
| AisOutcomes.PGoodMixtureBounds | ais_outcomes.py:203-248 | with probabilities in range the mixture is a probability, and a larger LVO share never lowers it |
| AisOutcomes.IschemicModel.constructor | ais_outcomes.py:74-105 | the onset-to-needle and onset-to-EVT times are sums of the patient's times and the door delays; the model is needed exactly when some option exists; the cutoff location is set only when none does |
| AisOutcomes.IschemicModel.IsThereAnOption | ais_outcomes.py:107-121 | there is no option exactly when tPA at the primary center and EVT at the comprehensive center are both past their limits |
| AisOutcomes.IschemicModel.GetPGood | ais_outcomes.py:203-248 | the accumulated probability equals the mixture; EVT counts only when its time is present and nonzero |
| AisOutcomes.IschemicModel.RunPrimaryCenter | ais_outcomes.py:133-150 | everyone gets tPA, nobody gets EVT or a transfer, and the good-outcome probability is the tPA curve at onset-to-needle |
| AisOutcomes.IschemicModel.RunComprehensiveCenter | ais_outcomes.py:152-171 | tPA only strictly inside the window, EVT for the LVO share, no transfer, and the mixture with EVT at onset-to-EVT |
| AisOutcomes.IschemicModel.RunPrimaryThenShip | ais_outcomes.py:173-201 | unavailable exactly when EVT after the transfer is past its limit; otherwise everyone gets tPA and a transfer, and the LVO share gets EVT |
| AisOutcomes.IschemicModel.GetAisOutcomes | ais_outcomes.py:123-131 | dispatches on the three labels, with the outcomes of each; any other label gives nothing |
| Cohort.PopulationShares | cohort.py:42-45 | the mimic, hemorrhagic and ischemic shares are positive and sum to 1 |
| Cohort.MimicStates | cohort.py:47-49 | one entry per state |
| Cohort.InitialStatesEntries | cohort.py:40-92 | mimics sit in the general population; every other state holds the ischemic and hemorrhagic shares of the outcome breakdown |
| Cohort.InitialStatesSum | cohort.py:40-92 | the initial distribution sums to 1 |
| Cohort.InitialStatesNonNegative | cohort.py:40-92 | every initial share is non-negative |
| Cohort.FirstYearCostTreatments | cohort.py:76-85 | at equal good-outcome probability, first-year costs differ only by the IVT, EVT and transfer costs of the ischemic share |
| Cohort.DeathProbabilities | cohort.py:105-107 | one death probability per living state, from the mortality function and the hazard ratios |
| Cohort.Trajectory | cohort.py:94-114 | one distribution per year from the start age to 100, plus the final one, starting from the initial distribution |
| Cohort.StepConservesMass | cohort.py:105-110 | a cycle conserves the total mass |
| Cohort.StepMonotone | cohort.py:105-110 | with probabilities in [0,1], no living state grows, none goes negative, and death never shrinks |
| Cohort.TrajectoryConservesMass | cohort.py:94-114 | every recorded distribution has the initial mass |
| Cohort.TrajectoryMonotone | cohort.py:94-114 | every cycle of the trajectory moves mass only into death |
| Cohort.DiscountedSign | cohort.py:117-146 | discounting keeps a value non-negative, leaves cycle 0 unchanged and keeps zero at zero |
| Cohort.LiveUtilityBounds | cohort.py:139-141 | the utility-weighted living mass is between 0 and the living mass |
| Cohort.LiveUtilityOfDead | cohort.py:139-141 | with no living mass the utility is 0 |
| Cohort.QalySeriesBounds | cohort.py:131-146 | each yearly QALY is between 0 and the discounted living mass, and it is 0 once everyone is dead |
| Cohort.CostSeriesEntry | cohort.py:117-128 | cycle k >= 1 contributes its discounted annual cost; cycle 0 is skipped |
| Cohort.EndIndex | cohort.py:159-161 | the end index is the last index unless a horizon within range shortens it |
| Cohort.InteriorWeights | cohort.py:156-171 | the partial weight sums of the 1/3 correction alternate between 4/3 and 2/3 |
| Cohort.WeightsTotal | cohort.py:149-172 | the weights add up to the end index when it is even, to the end index minus 1/3 when it is odd, and to 1/3 when nothing follows the first value |
| Cohort.WeightedSumAdd | cohort.py:163-171 | the partial weighted sum is additive |
| Cohort.WeightedSumScale | cohort.py:163-171 | the partial weighted sum scales |
| Cohort.WeightedSumPrefix | cohort.py:163-171 | values after the summed terms do not matter |
| Cohort.WeightedSumNonNegative | cohort.py:163-171 | non-negative values give a non-negative sum |
| Cohort.SimpsonSumProperties | cohort.py:149-172 | the correction is linear, ignores values past the end index, and is non-negative for non-negative values |
| Cohort.SimpsonsOneThirdCorrection | cohort.py:149-172 | the loop computes the weighted sum up to the end index |
| Cohort.GetQalys | cohort.py:131-146 | the loop computes the discounted utility-weighted living mass of every cycle |
| Cohort.CohortStates | cohort.py:30-32 | the recorded distributions are non-empty and have eight states each |
| Cohort.RunCycle | cohort.py:101-111 | one in-place cycle of the array is the `Step` of the death probabilities at that age |
| Cohort.Population.constructor | cohort.py:16-38 | the pipeline records the trajectory, the QALY series, the first-year cost followed by the cost series, and their integrated QALYs and costs |
| Cohort.Population.BreakIntoStates | cohort.py:40-92 | a fresh array holds the initial distribution, and the first-year cost is appended to the costs |
| Cohort.Population.RunMarkov | cohort.py:94-114 | the recorded distributions are the trajectory, and the array ends as its last distribution |
| Cohort.Population.GetCostsPerYear | cohort.py:117-128 | the cost series is appended to the costs, and nothing else changes |
| OptimalStrategy.Names | optimal_strategy.py:18-24 | one name per row |
| OptimalStrategy.FormattedRows | optimal_strategy.py:18-24 | the rows carry the strategies' names in their order |
| OptimalStrategy.FormatResults | optimal_strategy.py:18-24 | the loop builds the formatted rows |
| OptimalStrategy.NamesMembership | optimal_strategy.py:18-24 | every row's name is among the names |
| OptimalStrategy.Insert | optimal_strategy.py:40 | an insertion adds one row |
| OptimalStrategy.InsertPermutes | optimal_strategy.py:40 | an insertion adds exactly that row |
| OptimalStrategy.SortByKey | optimal_strategy.py:40 | the sort keeps the number of rows |
| OptimalStrategy.InsertSorted | optimal_strategy.py:40 | inserting into a sorted list keeps it sorted |
| OptimalStrategy.SortSorted | optimal_strategy.py:40 | the sort orders the rows by (QALYs, cost) and is a permutation of them |
| OptimalStrategy.SortStable | optimal_strategy.py:40 | rows with equal keys keep their input order |
| OptimalStrategy.Without | optimal_strategy.py:46-90 | deleting a row shifts the later rows down by one |
| OptimalStrategy.WithoutMembers | optimal_strategy.py:46-90 | deleting adds no row |
| OptimalStrategy.WithoutSorted | optimal_strategy.py:56 | deleting keeps the rows sorted |
| OptimalStrategy.FirstDominated | optimal_strategy.py:48-58 | the scan stops at the first row that dominates its successor, or at the last row |
| OptimalStrategy.FirstDominatedAt | optimal_strategy.py:48-58 | any index with those properties is where the scan stops |
| OptimalStrategy.Phase1 | optimal_strategy.py:46-60 | the result is non-empty, keeps the first row, stays sorted, has no row dominated by its predecessor, and has only input rows |
| OptimalStrategy.CheapestRows | optimal_strategy.py:46-60 | selecting the cheapest rows never adds rows |
| OptimalStrategy.Phase1KeepsCheapest | optimal_strategy.py:46-60 | phase 1 keeps exactly the rows that are cheapest for their QALYs, in sorted order |
| OptimalStrategy.Phase1Membership | optimal_strategy.py:40-60 | a row survives the sort and phase 1 exactly when it is an input row that is cheapest for its QALYs |
| OptimalStrategy.RemoveDominated | optimal_strategy.py:46-60 | the delete-and-restart loop computes `Phase1` |
| OptimalStrategy.Icers | optimal_strategy.py:27-32 | one ICER per adjacent pair |
| OptimalStrategy.DistinctIsIncreasing | optimal_strategy.py:27-32 | for sorted rows, adjacent QALYs differ exactly when they strictly increase |
| OptimalStrategy.GetIcers | optimal_strategy.py:27-32 | the loop computes the ICERs |
| OptimalStrategy.FirstDecrease | optimal_strategy.py:68-84 | the scan stops at the first ICER above the next one, or at the last ICER |
| OptimalStrategy.Phase2 | optimal_strategy.py:64-90 | keeps at least two rows |
| OptimalStrategy.Phase2Frontier | optimal_strategy.py:64-90 | the result keeps the first and last rows, its QALYs strictly increase, and its ICERs never decrease |
| OptimalStrategy.Phase2Members | optimal_strategy.py:64-90 | phase 2 only deletes rows |
| OptimalStrategy.Phase2Done | optimal_strategy.py:68-90 | when no ICER decreases, every row is kept |
| OptimalStrategy.Phase2Step | optimal_strategy.py:73-84 | otherwise the row between the first decreasing pair is deleted and the phase restarts |
| OptimalStrategy.RemoveExtendedDominated | optimal_strategy.py:64-90 | the loop computes `Phase2` and also returns its ICERs |
| OptimalStrategy.ScanIcers | optimal_strategy.py:68-84 | one pass of the scan finds `FirstDecrease` |
| OptimalStrategy.TagRows | optimal_strategy.py:86-89 | the first row is tagged 'N/A'; every later row is tagged with its ICER against its predecessor |
| OptimalStrategy.Choose | optimal_strategy.py:92-98 | the chosen row, if not the first, has an ICER below the threshold; every ICER above it is at or above the threshold |
| OptimalStrategy.ChooseUnique | optimal_strategy.py:92-98 | any row with those properties is the chosen one |
| OptimalStrategy.SelectLocation | optimal_strategy.py:92-98 | the reverse scan returns the name of the chosen row |
| OptimalStrategy.Front | optimal_strategy.py:40-60 | after the sort and phase 1 the rows are sorted and non-empty |
| OptimalStrategy.Frontier | optimal_strategy.py:64-90 | the frontier has at least two rows with distinct QALYs |
| OptimalStrategy.GetOptimal | optimal_strategy.py:35-98 | returns the selection of the formatted rows, including the non-terminating and the division-by-zero ends; that the selection is never strictly dominated for a positive threshold is `OptimalNotDominated` |
| OptimalStrategy.SelectOnFront | optimal_strategy.py:64-98 | the part after phase 1 gives the selection of the front |
| OptimalStrategy.OptimalIsAStrategy | optimal_strategy.py:35-98 | a selected location is always one of the strategies |
| OptimalStrategy.OptimalTerminates | optimal_strategy.py:46-90 | the procedure runs for ever exactly when there are no rows or fewer than two survive phase 1; it divides by zero exactly when two adjacent survivors have equal QALYs |
| OptimalStrategy.SingleStrategyNeverEnds | optimal_strategy.py:46-71 | with one strategy the procedure never stops |
| OptimalStrategy.OptimalMeetsThreshold | optimal_strategy.py:92-98 | the selected row is on the frontier, its ICER is below the threshold, and every frontier row with more QALYs is at or above it |
| OptimalStrategy.OptimalThreshold | optimal_strategy.py:92-98 | any frontier row meeting that rule is the one selected |
| OptimalStrategy.PickMeets | optimal_strategy.py:92-98 | a row meeting the rule is the one picked |
| OptimalStrategy.WorkedExample | optimal_strategy.py:73-84 | on the commented example the ICERs are 100, 300 and 200; the third strategy is deleted, leaving ICERs 100 and 250 |
| OptimalStrategy.SupportedBySelf | optimal_strategy.py:64-90 | every row of the chain phase 2 starts from lies on or above the segments next to it |
| OptimalStrategy.ChordMerge | optimal_strategy.py:73-82 | a row deleted because its ICER exceeds the next lies above the line of its neighbours, so a row on or above its two segments is on or above the merged one |
| OptimalStrategy.DeleteKeepsSupport | optimal_strategy.py:73-82 | that deletion keeps every row that was on or above the chain on or above it |
| OptimalStrategy.Phase2KeepsSupport | optimal_strategy.py:64-90 | every row phase 2 starts from lies on or above the frontier it leaves |
| OptimalStrategy.Phase1Covers | optimal_strategy.py:46-60 | for every row, phase 1 keeps a row with its QALYs at no higher cost |
| OptimalStrategy.IcerSign | optimal_strategy.py:27-32 | a non-negative ICER means no lower cost |
| OptimalStrategy.DeletionCovers | optimal_strategy.py:46-60 | when phase 1 deletes a row, the row left in its place has its QALYs at no higher cost |
| OptimalStrategy.FrontCovers | optimal_strategy.py:35-60 | every strategy has a row of the front with its QALYs at no higher cost |
| OptimalStrategy.FrontCoversAll | optimal_strategy.py:35-60 | the front covers every strategy in that sense |
| OptimalStrategy.StepRises | optimal_strategy.py:27-32 | a frontier segment whose ICER is at or above a positive threshold rises strictly in cost |
| OptimalStrategy.ChosenCostsRise | optimal_strategy.py:92-98 | for a positive threshold, costs rise strictly along the frontier from the selected row on |
| OptimalStrategy.CostsRiseAfter | optimal_strategy.py:92-98 | where costs rise from a row on, no later frontier row costs less than it |
| OptimalStrategy.FindSegment | optimal_strategy.py:64-90 | a QALY value above a frontier row and not above the last lies within one segment after that row |
| OptimalStrategy.AboveSegmentRising | optimal_strategy.py:64-90 | a row on or above a segment with a positive ICER, with more QALYs than its start, costs more than that start |
| OptimalStrategy.ChainAbove | optimal_strategy.py:64-98 | for a positive threshold, a row on or above the frontier and with more QALYs than the selected row costs more than it |
| OptimalStrategy.LastIsHighest | optimal_strategy.py:64-90 | no row of a chain rising in QALYs has more QALYs than its last |
| OptimalStrategy.FrontierSupports | optimal_strategy.py:64-90 | the frontier rises in QALYs, reaches every row of the front and has that row on or above it |
| OptimalStrategy.FrontierSupportsAll | optimal_strategy.py:64-90 | the same for all rows of the front at once |
| OptimalStrategy.CoveredAbove | optimal_strategy.py:35-98 | for a positive threshold, every strategy with more QALYs than the selected row costs strictly more |
| OptimalStrategy.Undominated | optimal_strategy.py:46-60 | a strategy cheapest for its QALYs, with every strategy of more QALYs costing more, is strictly dominated by none |
| OptimalStrategy.SelectedRowUndominated | optimal_strategy.py:35-98 | for a positive threshold, no strategy strictly dominates the selected row (at least its QALYs at no higher cost, better in one) |
| OptimalStrategy.OptimalNotDominated | optimal_strategy.py:35-98 | for a positive threshold, the selected location names a strategy that no strategy strictly dominates |
| OptimalStrategy.NonPositiveThresholdExample | optimal_strategy.py:92-98 | with threshold -100, A(1 QALY, cost 100) is selected over B(2, 50), which dominates it: the positive threshold is needed |
| OptimalStrategy.TieExample | optimal_strategy.py:46-98 | X(5, 1000), Y(6, 1005), Z(6, 2000): phase 1 deletes Z, and at threshold 500 Y is selected |
| Driver.Strategies | main.py:230-235 | Primary and Comprehensive are evaluated first, in that order; drip and ship is evaluated exactly when the transfer still reaches EVT in time |
| Driver.CostsOf | main.py:236-240 | the integrated cohort cost of each outcome, in order |
| Driver.QalysOf | main.py:236-240 | the integrated cohort QALYs of each outcome, in order |
| Driver.OutcomeAtIsOutcomeFor | main.py:236-237 | the outcome of the j-th strategy is the patient model's outcome for that label |
| Driver.OutcomesAtEach | main.py:236-237 | every recorded outcome is the patient model's outcome for its strategy |
| Driver.RecordKeys | main.py:209-240 | recording adds exactly the recorded strategies to the keys of the table |
| Driver.RecordSets | main.py:209-240 | each of distinct recorded strategies ends up with its own value |
| Driver.RecordKeeps | main.py:209-240 | an entry of the initial table that is not recorded keeps its value |
| Driver.RecordLookup | main.py:209-240 | recording distinct strategies sets each one's value and leaves the other entries of the initial table unchanged |
| Driver.BestIndexIsFirstMaximum | main.py:231-243 | no strategy is found exactly when no QALYs are positive; otherwise the first strict maximum is found |
| Driver.BestIndexOfFirstMaximum | main.py:231-243 | the first maximum is what the scan finds |
| Driver.MaxBenefitSnoc | main.py:241-243 | the maximum-benefit scan over one more strategy |
| Driver.EvaluateStrategy | main.py:237-240 | a strategy's cost and QALYs are those of the cohort of its outcomes |
| Driver.ScanStep | main.py:239-243 | recording one more strategy keeps the scan state |
| Driver.EvaluateNext | main.py:236-243 | one loop step evaluates, records and compares the next strategy |
| Driver.EvaluatedAll | main.py:236-245 | after the loop, the tables and the maximum benefit are those of all the strategies |
| Driver.EvaluateStrategies | main.py:236-245 | the reported costs, QALYs and maximum benefit are those of the cohorts of the strategies' outcomes |
| Driver.RunModel | main.py:193-254 | for a cohort with the patient's age, sex and NIHSS: with no reachable option the RACE cutoff decides, with 'Based on cutoff' and the initial tables, and no outcome probability needs to be defined; otherwise every available strategy is evaluated and the optimal location is the cost-effectiveness selection, always a strategy label |
| Driver.LabelsDistinct | main.py:106 | the strategy labels are distinct and never 'N/A' |
| Driver.StrategiesPriced | main.py:236-240 | every evaluated strategy has a numeric cost and QALYs |
| Driver.UnavailableShipStaysNA | main.py:209-235 | when drip and ship is unavailable, its cost and QALYs stay 'N/A' |
| Driver.MaxBenefitIsFirstMaximum | main.py:231-245 | the maximum benefit is 'N/A' exactly when no QALYs are positive, and otherwise the first strict maximum |
| Driver.MaxBenefitOfRun | main.py:236-245 | in a run, each strategy's reported QALYs are its cohort's, and the maximum benefit is 'N/A' exactly when none is positive, otherwise the first with strictly the most |
| Driver.RecordedMaxBenefit | main.py:236-245 | the same, stated for recorded tables |
| Driver.Count | main.py:168-174 | a count never exceeds the number of results |
| Driver.RepeatAdd | main.py:166-174 | adding a share a times and then b times is adding it a+b times |
| Driver.RepeatIsProduct | main.py:166-174 | adding a share n times is n times the share |
| Driver.Bump | main.py:170-174 | adding to one entry changes only that entry |
| Driver.CountSnoc | main.py:168-174 | one more result adds one to its location's count |
| Driver.BumpStep | main.py:170-172 | adding one column of a result moves the tally on by one column |
| Driver.BumpEntry | main.py:170-172 | each entry after one column of a result is added |
| Driver.CountsPartition | main.py:168-174 | in each column, the three strategies' counts add up to the number of results |
| Driver.WholeSet | main.py:166 | a whole set of evaluations makes 100 percent |
| Driver.TalliedSumsToHundred | main.py:158-174 | when a whole set is tallied, each column's percentages add up to 100 |
| Driver.ColumnSumToHundred | main.py:158-174 | the same for one column |
| Driver.RepeatThree | main.py:168-174 | the three shares together are one share per result |
| Driver.SharesOfWholeSet | main.py:166-174 | three counts that make up a whole set give percentages adding to 100 |
| Driver.Tally | main.py:158-174 | the percentages start at zero, and each result adds one multiplier to its location in each of its columns |
| Driver.TallyResult | main.py:169-174 | one result adds one share in each of its columns |
| Driver.Draws | main.py:306-310 | the k-th gathered result is evaluation number from+k |
| Driver.ProbabilisticModel.constructor | main.py:302-311 | a model starts with no results and a zero counter |
| Driver.ProbabilisticModel.PrintProbabilisticModelOutput | main.py:146-190 | the percentages of the gathered results; the results are cleared and the counter reset |
| Driver.ProbabilisticModel.RunArgumentSet | main.py:302-311 | evaluations are gathered until the set is full, then tallied; every column adds up to 100 percent, and the model is ready for the next set |
| Driver.SplitWithoutSep | main.py:79 | a string without '-' splits into itself |
| Driver.SplitAfterFirst | main.py:79 | splitting after a first part without '-' |
| Driver.SplitJoin | main.py:79 | splitting at '-' undoes joining when no part contains '-' |
| Driver.OutNameParts | main.py:61-78 | one part for the sex and one for each of the six other options |
| Driver.RandomOutName | main.py:61-79 | the name is 'output/random_sets/', the parts joined by '-', then '.csv'; a random option appears as its own name, and the sex as M, F or B |
| Driver.OutNameDecodes | main.py:61-79 | when no rendered value contains '-', the parts can be recovered from the name |

## Left out

- The LVO probability (`p_lvo_given_ais`, its logistic helper and the random uncertainty band): these use `numpy.exp` and random draws. The LVO share enters `IschemicModel` as the input `pLvo`.
- The post-EVT outcome curve (`p_good_outcome_post_evt_success`): it is an exponential. It enters as the input function `postEvtSuccess`.
- `p_reperfusion_endovascular` is the constant `P_REPERFUSION_ENDOVASCULAR` (0.71); it needs no contract.
- The life-table mortality (`LifeTables.adjusted_mortality`): life_tables is not part of this model. It enters as a function; the monotonicity lemmas require its values to lie in [0,1].
- The discount rate e^0.03 − 1: it enters as a positive input `rate`, since the exponential is not computed.
- The random treatment times (`door_to_*` with random draws, `Times.get_random_set`): they are random. A run's `Times` value is an input, built by `TimesFrom`; the base case is `BaseCaseTimes`.
- `Times.set_to_default` and the global mutation of the `Times` class: these are the `Times` value passed to the constructor.
- `run_probabilistic_set` is modelled only through its results. It reconfigures the global settings and reruns `run_model` with random times and/or random LVO. `RunArgumentSet` takes the evaluation as a function `evaluate` from the evaluation number to its optimal locations.
- `setup_model` and the class-level settings of `Population` (start age, sex, NIHSS, horizon): these are the `Settings` value and the `IschemicModel` passed in.
- The global `SETTINGS` dictionary: the threshold, the evaluations per set and the comparison flag are parameters.
- File input and output: `read_input_file`, `print_model_output`, `setup_output_file`, `run`, and the writes of `print_probabilistic_model_output`. The tally returns the percentages rather than writing them.
- String formatting: `str()` and the `{race:.2}` f-string. `RandomOutName` takes the option values already rendered as strings.
- Driver.Tally: without the comparison, the source keeps one number per strategy; the model keeps a one-column sequence.
- Floating-point rounding: the model uses exact reals, so the tally adds up to exactly 100 and the odds algebra is exact.
- The branch of `run_argument_set` with the probabilistic model off: it is one `RunModel` followed by file output.
- AisOutcomes.PGoodOutcomeAisNoLvoGotTpa: requires the odds computation to be defined. The source divides by zero, or by a value that makes the odds meaningless, when the baseline probability is 1; the model does not represent that error.
- Inflation.Run: requires both years to lie in 1913..2016. The source indexes its list without a bounds check, so out-of-range years wrap around as negative indices or raise an error.
- OptimalStrategy.GetOptimal: requires every strategy to have numeric costs and QALYs. The source would raise a KeyError or a type error otherwise; `RunModel` always meets this requirement.
- Driver.Tally: requires at least one evaluation per set and a strategy label in every column. The source would divide by zero, or raise a KeyError.
- The sort (`list.sort` with a key): it is a library call, modelled by a stable insertion-sort function `SortByKey` rather than a loop.
- AisOutcomes.IschemicModel.GetAisOutcomes: the source returns `False` for an unavailable drip and ship and `None` for an unknown label. The model returns `None` for both.
- `Coordinates` (constants.py) and create_random_sets.py: they are not used by the modelled computation.
