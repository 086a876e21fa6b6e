# Traffic signal warrants, modelled in Dafny

The program decides whether the traffic counted at an intersection justifies a traffic signal
under three volume warrants of the MUTCD 2009, Chapter 4C. It works in these steps:

- It sums 15-minute directional counts (NB, SB, EB, WB) into hours.
- For each hour it derives the major-street total, the higher minor approach and their sum.
- It ranks the hours by that sum and keeps those ranked 8 or better.
- It evaluates three warrants on the kept hours:
  - Warrant 1, Eight-Hour Vehicle Volume: Condition A, then Condition B only if A fails, then
    their combination only if both fail.
  - Warrant 2, Four-Hour Vehicle Volume: meant to hold when at least four hours lie above a
    fitted curve. The loop as written decides after the first hour (see "## Findings").
  - Warrant 3, Peak Hour, category B: the same rule and the same loop, with the curves of its
    own figure.

Each threshold depends on the lane counts, capped at two, and on whether rural thresholds apply.

The model has one module per concern:

- `Wrappers`: Option, Result, and the exceptions the program can stop with.
- `Lanes`: lane capping and the four table keys.
- `Ranking`: pandas' descending average rank, with ranks doubled so that they stay integers.
- `Volumes`: hourly aggregation and the derived columns. `GetHourlyVols` is imperative: two
  loops build the table.
- `TopHours`: the sort and the rank filter.
- `Site`: the rural test and the Warrant 1 input.
- `WarrantOne`: the Table 4C-1 conditions and their ordered evaluation.
- `Curves`: the fitted curves of Figures 4C-1 and 4C-3, and the count of hours above them.
- `Engine`: the `__main__` block, with the interactive answers turned into parameters. It is
  built on the corrected rank filter and the corrected curve count of "## Findings"; the
  as-written behaviour of both is modelled beside them.

Choices the model makes:

- The rank is pandas' averaged rank, not a dense rank with a deterministic tie-break.
- Hours are built from any number of rows; the last hour may be short.
- No volume is validated.
- Any exception stops the whole run. There are no per-warrant partial results.

## Model

| member | source | states |
|---|---|---|
| Lanes.Cap | main.py:351 | `min(lanes, 2)`: never more than 2, exactly 2 for two or more lanes, unchanged below 2 |
| Lanes.PairOf | main.py:72-101 | a table key exists exactly when both lane values are 1 or 2, and it carries those values; every other pair is the raising catch-all case |
| Lanes.Resolve | main.py:351 | capping then matching succeeds exactly when both lane counts are at least 1; otherwise it is the unsupported-lanes error |
| Lanes.CapSaturates | main.py:351 | any count of two or more lanes selects the same key as 2, on either approach |
| Lanes.ResolveSupported | main.py:351 | a supported pair resolves to the key holding the capped counts |
| Volumes.HourlyTotals | main.py:41-50 | `groupby(index // 4).sum()` yields ceil(n/4) hours |
| Volumes.TotalAppend | main.py:50 | summing two runs separately and adding the sums equals summing their concatenation |
| Volumes.HourIsWindow | main.py:50 | hour k is the column sum of rows 4k to 4k+3, cut short at the end of the table |
| Volumes.HourlyTotalsConserve | main.py:50 | grouping neither loses nor invents vehicles: the hours add up to the whole table |
| Volumes.RolesFor | main.py:42-49 | 'NB' makes NB/SB the major pair and EB/WB the minor pair; every other first direction is paired with WB, with NB/SB minor |
| Volumes.RolesPartition | main.py:42-49 | the role assignment splits the four directions into a major and a minor pair exactly when the first major direction is NB or EB |
| Volumes.Combined | main.py:57 | the `SumMajor&HighMinor` column, one entry per hour |
| Volumes.GetHourlyVols | main.py:40-59 | one row per hour holding that hour's totals; SumMajor is the sum of the major pair; HighMinor is the larger minor approach, never the sum; the combined column; each hour's descending average rank among all hours |
| Ranking.Rank2 | main.py:58 | `rank(ascending=False)` with averaged ties, doubled: the hours above a value take ranks 1 to G, and the E hours tied with it share the mean of ranks G+1 to G+E; its meaning is pinned by RankBounds, RankOrder and RankOfMaximum |
| Ranking.CountGreater | main.py:58 | the number of hours above a value is at most the number of hours |
| Ranking.CountEqual | main.py:58 | the number of hours tied with a value is at most the number of hours |
| Ranking.CountsAppend | main.py:58 | both counts add up over a concatenation |
| Ranking.CountsPartition | main.py:58 | no hour is both above and tied; a value of the day is tied with at least itself |
| Ranking.RankBounds | main.py:58 | every hour's rank lies between 1 and the number of hours |
| Ranking.NothingAbove | main.py:58 | nothing ranks above a largest value |
| Ranking.RankOfMaximum | main.py:58 | a largest value has rank 1 exactly when no other hour ties with it |
| Ranking.AboveGrows | main.py:58 | every hour above or tied with u is above any v below u |
| Ranking.RankOrder | main.py:58 | the ranking is strictly descending: a larger combined volume always has a smaller rank |
| Ranking.CountTop | main.py:64 | the filter keeps at most the hours it is given |
| Ranking.CountTopAppend | main.py:64 | the number kept adds up over a concatenation |
| Ranking.CountTopSameRanks | main.py:64 | the number kept depends only on the ranks |
| Ranking.DistinctTopCount | main.py:58-64 | without ties, "rank <= 8" keeps exactly 8 hours, or all of them on a shorter day |
| Ranking.AllAbove | main.py:58 | when every hour is above v, all are counted above and none tied |
| Ranking.AllTied | main.py:58 | when every hour equals v, none is above and all are tied |
| Ranking.TiedTopCount | main.py:58-64 | when all hours tie, they share rank (n+1)/2: a day of 16 or more hours keeps none, a shorter one keeps all |
| TopHours.Insert | main.py:63 | inserting into a rank-sorted table keeps it sorted and adds exactly that hour |
| TopHours.InsertBelow | main.py:63 | an hour ranked no worse than everything inserted can go first |
| TopHours.SortByRank | main.py:63 | `sort_values('Rank')`: sorted by rank, a permutation of the table |
| TopHours.KeepTop | main.py:64 | the filter keeps each hour ranked 8 or better as often as it occurs, and nothing else |
| TopHours.KeepTopSorted | main.py:63-64 | filtering a sorted table keeps it sorted |
| TopHours.Highest8Hrs | main.py:61-68 | the kept hours are exactly the hours ranked 8 or better, each as often as in the table, in ascending rank order |
| TopHours.FilterAsWritten | main.py:64 | the filter raises exactly when some rank is shared by two hours; otherwise it keeps exactly the hours ranked 8 or better |
| TopHours.SharedRankIsTie | main.py:58-64 | in a ranked table, two hours share a rank exactly when their combined volumes tie |
| TopHours.TiedDayRaises | main.py:58-64 | a day with two tied hours stops with the filter's error |
| TopHours.KeepTopCount | main.py:64 | the number kept is the number of combined volumes ranked 8 or better |
| TopHours.KeptCount | main.py:58-64 | the number of selected hours is the number of combined volumes of the day ranked 8 or better |
| TopHours.DistinctDayKeepsEight | main.py:58-64 | without ties, exactly eight hours are selected, or the whole day when it is shorter |
| TopHours.TiedDayKeepsNone | main.py:58-64 | a day of 16 or more equal hours selects no hour |
| TopHours.TieAtEighthKeepsSeven | main.py:58-64 | seven hours tied at the top, then two tied below them and any number of quieter tied hours: the two share rank 8.5 and are dropped, so exactly 7 hours are kept |
| TopHours.TieAtSeventhKeepsNine | main.py:58-64 | six hours tied at the top, then three tied below them and any number of quieter tied hours: the three share rank 8 and are all kept, so exactly 9 hours are kept |
| Site.IsRural | main.py:456-476 | rural exactly when the posted or the 85th-percentile speed exceeds 40 mph, or the population is under 10,000 |
| Site.MaxOf | main.py:488-489 | Python's `max`: an element of the list that no element exceeds |
| Site.MajorTotals | main.py:484-487 | per selected hour, the sum of the two major direction columns |
| Site.HighMinors | main.py:486 | per selected hour, its HighMinor value |
| Site.Warrant1Input | main.py:484-489 | raises exactly for an empty selection; otherwise the largest major total and, separately, the largest HighMinor of the selected hours |
| Site.InputMixesHours | main.py:487-489 | the two maxima may come from different hours |
| WarrantOne.CondATable | main.py:70-101 | the Condition A volumes (100% and 70% columns of Table 4C-1) of each lane key and area type |
| WarrantOne.CondBTable | main.py:103-134 | the Condition B volumes of each lane key and area type |
| WarrantOne.ComboATable | main.py:136-201 | the reduced Condition A volumes of the combination, as the literals of `w1_cond_ab` |
| WarrantOne.ComboBTable | main.py:136-201 | the reduced Condition B volumes of the combination, as the literals of `w1_cond_ab` |
| WarrantOne.Warrant1Flags | main.py:353-371 | the ordered decision: A; B only when A fails; the combination only when both fail |
| WarrantOne.W1CondA | main.py:70-101 | succeeds exactly for a supported lane key and then holds exactly when both volumes exceed that key's Condition A pair for the area type; other keys raise |
| WarrantOne.W1CondB | main.py:103-134 | the same, with the Condition B pairs |
| WarrantOne.W1CondAB | main.py:136-201 | succeeds exactly for a supported key and then holds exactly when both the reduced A pair and the reduced B pair are exceeded |
| WarrantOne.FlagsDecideWarrant1 | main.py:352-371 | at most one flag is set, and one is set exactly when Condition A, Condition B or their combination holds |
| WarrantOne.EvaluateWarrant1 | main.py:340-371 | succeeds exactly when both lane counts are at least 1; the flags are A, then B only if A failed, then the combination only if both failed |
| WarrantOne.ConditionsMonotone | main.py:70-201 | more traffic never turns a satisfied condition into an unsatisfied one |
| WarrantOne.ConditionBTradesMinorForMajor | main.py:70-134 | for every key, Condition B asks for more major-street and less minor-street traffic than A |
| WarrantOne.RuralIsSeventyPercent | main.py:70-134 | the rural volumes of A and B are 70% of the urban ones, rounded up |
| WarrantOne.ComboIsEightyPercent | main.py:136-201 | on whole vehicle counts, the combination's literals mean "above 80% of both the A and the B volumes" |
| WarrantOne.ConditionAExample | main.py:72-74 | 550/160 vph on one lane each, urban, meets Condition A |
| WarrantOne.NoConditionExample | main.py:70-152 | 510/140 vph, urban, fails A and B; the combination meets its reduced A pair but not its reduced B pair |
| Curves.CurveAt | main.py:208-210 | the curve value at a major volume: the saturation literal from the breakpoint on, the fitted quadratic below it |
| Curves.Warrant2Curve | main.py:203-269 | breakpoint, saturation value and coefficients of each of the eight curves of `w2_cond` |
| Curves.Warrant3Curve | main.py:271-337 | breakpoint, saturation value and coefficients of each of the eight curves of `w3_cond` |
| Curves.SharedQuadratics | main.py:203-337 | in each figure, the (1,2) and (2,1) curves share their quadratic but not their breakpoint or saturation value |
| Curves.TablesWellShaped | main.py:203-337 | every stored curve is an upward parabola that keeps falling up to its breakpoint, where it is within 2 vph of the saturation value |
| Curves.QuadraticDecreasing | main.py:208 | below the breakpoint, more major-street traffic asks for less minor-street traffic |
| Curves.CurveFloor | main.py:203-337 | no curve asks for less than its saturation value minus 2 vph |
| Curves.SaturationExample | main.py:208 | from the breakpoint on, the curve is the saturation literal rather than the quadratic |
| Curves.HoursAbove | main.py:213-215 | the number of samples above the curve is at most the number of samples |
| Curves.HoursAboveCountsHours | main.py:213-215 | that count is the number of distinct hours above the curve, whatever their order |
| Curves.HoursAboveMonotone | main.py:213-215 | raising minor volumes never lowers the count |
| Curves.EveryHourAbove | main.py:213-215 | when every sample is above the curve, all are counted |
| Curves.CurveCondAsWritten | main.py:203-337 | as written: unsupported keys raise; any non-empty sample list gives False; an empty one gives None |
| Curves.CurveCond | main.py:203-337 | unsupported keys raise; otherwise the warrant holds exactly when at least four samples lie above the curve |
| Curves.EvaluateCurveWarrant | main.py:373-424 | corrected: succeeds exactly when both lane counts are at least 1; then it gives the four-hour verdict on the capped key |
| Curves.EvaluateCurveWarrantAsWritten | main.py:373-424 | as written: succeeds exactly when both lane counts are at least 1; then False for every non-empty selection and None for an empty one |
| Curves.FourHoursAboveCurve | main.py:206-219 | four samples of 600/300 vph on one lane each, urban, are all above the curve of Figure 4C-1 |
| Engine.MajorApproach | main.py:434-445 | "0" selects NB/SB, every other answer EB/WB, and the pair is the major roles used for the hourly table |
| Engine.MajorTotalsAreSumMajor | main.py:484-487 | the major totals read back for the selected hours are their SumMajor column |
| Engine.Run | main.py:428-501 | with the corrected filter and curve count: the hourly table as `get_hourly_vols` promises; an error exactly for an empty selection (checked first) or a lane count below 1; otherwise the rural test, the Warrant 1 input and flags, and both curve verdicts on the selected hours, and a curve warrant holds only with at least four selected hours |

## Left out

- Reading the CSV file, `input()`, `print` and plotting are not modelled. The count rows and the answers are parameters.
- The `Time` column is left out. No decision uses it.
- Floating-point rounding in the curves is not modelled. The curves are evaluated on exact reals with the source's literal coefficients.
- Counts are unbounded integers; pandas' int64 overflow is not modelled.
- The debug branch of the main block (main.py:479-482) is switched off by a constant and left out.
- TopHours.Highest8Hrs: tied hours keep their table order, while pandas' default `sort_values` is not stable. Only the order of the selected hours can differ. Neither the set of hours kept nor any verdict depends on that order.
- Engine.Run: it uses the corrected TopHours.Highest8Hrs and Curves.EvaluateCurveWarrant (built on Curves.CurveCond). The code as written behaves differently in two ways. Any day with two tied hours stops with the filter's TypeError, including an all-zero day, where Run reports NoHourSelected instead (TopHours.FilterAsWritten). Both curve warrants are reported as not satisfied for every non-empty selection (Curves.EvaluateCurveWarrantAsWritten).
- Curves.EvaluateCurveWarrant: it gives the corrected four-hour verdict of Curves.CurveCond. The code as written returns False for every non-empty selection; Curves.EvaluateCurveWarrantAsWritten models that.
- Curves.EvaluateCurveWarrant and Curves.EvaluateCurveWarrantAsWritten: the source reads the module-level `lanes_major` and `lanes_minor` instead of its `lanes` argument. The main block passes the same two values, so the model uses the argument.
- Curves.CurveCond, Curves.CurveCondAsWritten, Curves.EvaluateCurveWarrant and Curves.EvaluateCurveWarrantAsWritten: require as many major totals as minor volumes. The main block always builds both lists from the same selected hours.
- Warrant 3, category A (stopped-time delay and total entering volume) is in the docstring only. The code does not evaluate it.
- The message of Warrant 3's catch-all case names Warrant 2. Messages are not modelled; the model keeps only the error kind.
- Warrant 3's docstring speaks of one hour. Its code requires four samples above the curve, like Warrant 2, and the model keeps four.

## Findings

| source | as written | input that shows it | evidently intended | confidence | as-written member | corrected member |
|---|---|---|---|---|---|---|
| main.py:213-219 (and the same loop in every case of `w2_cond` and `w3_cond`) | the verdict `hrs_over >= 4` is returned inside the loop body, after the first sample | four hours of 600 vph major and 300 vph minor, one lane each, urban: all four are above the curve of Figure 4C-1, yet the loop returns False | count the samples above the curve over all hours, then return whether at least four are above | not executed | Curves.CurveCondAsWritten, Curves.EvaluateCurveWarrantAsWritten, Curves.FourHoursAboveCurve | Curves.CurveCond, Curves.EvaluateCurveWarrant, Engine.Run |
| main.py:58-64 | `groupby('Rank').filter(lambda x: x['Rank'] <= 8)`: for a rank shared by several hours the lambda returns a Series, and pandas' `filter` raises TypeError | a day with two hours of equal combined volume, such as an all-zero count | keep every hour ranked 8 or better | not executed | TopHours.FilterAsWritten, TopHours.TiedDayRaises | TopHours.Highest8Hrs, Engine.Run |
