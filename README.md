# Campaign impact analytics, modelled in Dafny

This project models the computational core of a Streamlit dashboard that
measures the effect of a one-month marketing campaign on client deposits.
The dashboard compares deposit behaviour over three periods: a baseline
(Month 1 and Month 2), the campaign month (Month 3) and the post-campaign
months (Month 4 and Month 5). It then projects a sixth month under growth
scenarios. The model covers:

- the sidebar filters that select deposits by inclusive date range and by
  the client's region and residence status (`Filters`);
- the nearest-date join of deposits onto the calendar (`merge_asof` with
  `direction='nearest'`), and the left join of the result onto the client
  table (`Join`);
- the groupby aggregations, which give sum, mean, count, variance and
  distinct clients per key. Keys come out in sorted order, rows with a
  missing key are dropped, and no zero rows are produced (`Order`,
  `Grouping`, `Tables`);
- the fixed right-closed age bins (`Buckets`);
- the KPI and ROI formulas over the five monthly rows: growth versus
  baseline, retention, client and average-deposit growth, incremental
  lift, ROI against the fixed 5,000,000 cost, the verdict, acquisition cost
  with its infinity sentinel, lifetime value, the LTV/CAC multiple and
  transaction frequency (`Kpi`);
- the alternative-timing heuristic for a Month 6 campaign (`Timing`);
- the what-if page: the growth-rate loop, the projection with its
  confidence band, the three slider scenarios and the per-scenario ROI
  loop (`WhatIf`);
- the best and worst segment picks (`Segments`).

Amounts, ages and rates are exact `real`s and dates are `int` day numbers.
Python's failure modes are made explicit:

- a `.loc` lookup of a missing month becomes `Err(MissingPeriod(month))`;
- an `.iloc` position past the end of the table becomes `Err(TooFewPeriods)`;
- an arg-max over no rows becomes `Err(EmptySelection)`;
- an unguarded division by zero becomes `Ratio.Undefined` or
  `Err(DivisionByZero)`.

Behaviour of the code that is easy to miss, and that the model keeps:

- With an empty calendar, `merge_asof` keeps every deposit, each with a
  missing month: the join does not come back empty. `Join.Attach` gives
  `entry == None`, and the groupby then drops those rows.
- `idxmax` and `nlargest(1, ..)` break ties by table order. That order is
  the sorted key order of the groupby result, not the order in which
  segments were first met (`Segments.Month3RowsBySegment`).
- An age outside (0, 100] gets a missing bucket silently. It is not
  reported as an error (`Buckets.AgeGroup`).
- Two picks do not maximise the total. The residence pick maximises the
  average deposit. The key-insight cadence pick maximises distinct clients.

## Model

| member | source | states |
|---|---|---|
| Filters.SelectClients | app.py:308-314 | a client is kept iff its region and its status are both selected, or every client is kept when either column is absent; the result is an order-preserving subsequence |
| Filters.SelectDeposits | app.py:300-318 | a deposit is kept iff start <= date <= end (both inclusive) and its client id belongs to a kept client; every copy of a kept deposit is kept and no copy of another (its multiplicity is that of the input, or zero); the result is an order-preserving subsequence of the deposits |
| Seqs.FilterCount | app.py:300-318 | a boolean-mask selection keeps each element exactly as many times as the input holds it when the mask is true, and never when it is false |
| Filters.MinDate | app.py:293-298 | the default start date is a deposit date no later than any deposit date |
| Filters.MaxDate | app.py:293-298 | the default end date is a deposit date no earlier than any deposit date |
| Filters.DefaultFiltersKeepKnownClients | app.py:293-318 | with every region, every status and the full date range selected, all clients are kept and the output is exactly the deposits whose client occurs in the client table, in order |
| Records.ClientIds | app.py:316-318 | the id set of a client table holds exactly the ids of its rows |
| Seqs.SortBy | analysis/campaign_analysis.py:17-18 | `sort_values` returns a permutation of its input, ordered by the date key |
| Join.Backward | analysis/campaign_analysis.py:16-22 | the backward candidate is the last calendar row dated on or before the deposit |
| Join.Forward | analysis/campaign_analysis.py:16-22 | the forward candidate is the first calendar row dated on or after the deposit |
| Join.Nearest | analysis/campaign_analysis.py:16-22 | on a non-empty date-sorted calendar the chosen row minimises the date distance, and no earlier-dated row is equally near (ties go to the earlier date) |
| Join.Attach | analysis/campaign_analysis.py:16-22 | a deposit keeps its fields and receives a calendar row iff the calendar is non-empty; that row comes from the calendar and is nearest in date, with ties going to the earlier row |
| Join.AttachAll | analysis/campaign_analysis.py:16-22 | every deposit gets exactly one output row, in input order, carrying its nearest calendar row |
| Join.SortKeepsRows | analysis/campaign_analysis.py:18 | sorting the calendar neither adds nor loses rows |
| Join.MergeAsofNearest | analysis/campaign_analysis.py:16-22 | one output row per deposit: the deposits are a permutation of the input, sorted by date, each paired with its nearest calendar row (ties to the earlier date), or with none on an empty calendar |
| Join.JoinedInDateOrder | analysis/campaign_analysis.py:17 | rows built one per date-sorted deposit, in order, are in deposit-date order |
| Join.ClientMatches | analysis/strategy_recommendations.py:18-23 | the output rows of one deposit row are non-empty and all carry that row; each pairs it with a client of its id, or with no client when none has that id; each client of its id appears as many times as the client table holds it, and no other client appears |
| Join.EachClientMatched | analysis/strategy_recommendations.py:18-23 | every client with the row's id is paired with the row |
| Join.LeftJoinClients | analysis/strategy_recommendations.py:18-23 | the left join keeps every joined row; each output row pairs an input row with a matching client or with no client when none matches |
| Join.AtMostOneMatch | analysis/strategy_recommendations.py:18-23 | with unique client ids, at most one client matches an id |
| Join.LeftJoinOneToOne | analysis/strategy_recommendations.py:18-23 | with unique client ids the left join is one-to-one: output row i is input row i |
| Join.OneMatch | analysis/strategy_recommendations.py:18-23 | with unique client ids every deposit row yields exactly one joined row |
| Order.StringLessTotal | analysis/campaign_analysis.py:25 | the order of groupby keys (strings) is total on distinct strings |
| Order.StringLessTransitive | analysis/campaign_analysis.py:25 | the string key order is transitive |
| Order.KeyLessTransitive | analysis/strategy_recommendations.py:27 | the order on multi-column groupby keys is transitive |
| Order.KeyLessTotal | analysis/strategy_recommendations.py:27 | the order on multi-column groupby keys is total on distinct keys |
| Grouping.ClientCountBounds | analysis/campaign_analysis.py:25-28 | a group's distinct client count is at most its row count, and at least one for a non-empty group |
| Grouping.Summarize | analysis/campaign_analysis.py:25-34 | a group's aggregates: total is the sum of amounts, count is the number of rows, mean times count is the total, unique clients is the number of distinct ids (1 <= unique <= count), and the variance exists iff there are two rows and is non-negative |
| Grouping.Members | analysis/campaign_analysis.py:25 | the members of group k are exactly the rows whose key is k, each as many times as the input holds it (so a group's count and total see duplicate rows) |
| Grouping.InsertKey | analysis/campaign_analysis.py:25 | inserting a key into a strictly sorted key list keeps it strictly sorted and adds only that key |
| Grouping.PresentKeys | analysis/campaign_analysis.py:25 | the group keys are strictly sorted and are exactly the keys some row carries (missing keys dropped) |
| Grouping.GroupBy | analysis/campaign_analysis.py:25-34 | one row per key present, in strictly ascending key order, none for absent keys; every row's aggregates summarise exactly the rows of its key and are valid |
| Grouping.Lookup | analysis/campaign_analysis.py:44-46 | `.loc[k]` finds a row iff some row has key k, and returns that row's aggregates |
| Grouping.LookupGroupBy | analysis/campaign_analysis.py:25-46 | looking key k up in a groupby result gives the summary of k's rows when k occurs, and nothing otherwise |
| Tables.FactsOf | analysis/strategy_recommendations.py:27-30 | each joined row contributes one aggregation input with its key, amount and client id, in order |
| Tables.MembersOfFacts | analysis/strategy_recommendations.py:27-30 | the group of key k is made of exactly the input rows whose key is k, in their order |
| Tables.PresentIff | analysis/strategy_recommendations.py:27-30 | a key occurs in the aggregation iff some joined row carries it |
| Tables.MonthOf | analysis/campaign_analysis.py:25 | a joined row has a month name iff it received a calendar row |
| Tables.MonthPresent | analysis/campaign_analysis.py:25-34 | month m has a key in the monthly aggregation iff some deposit was joined to m |
| Tables.MonthlyRow | analysis/campaign_analysis.py:25-34 | the monthly table has a row for m iff some deposit fell in m, and that row's count and total are the number and the amount sum of those deposits (no zero rows) |
| Tables.AgeKeyMissing | analysis/strategy_recommendations.py:65-74 | a row has an age-table key iff it has a month, a matching client and an age in (0, 100] |
| Tables.Aggregate | analysis/campaign_analysis.py:25-34 | a groupby over a key column: keys strictly ascending, a row for key k iff some input row carries k, and each row aggregates exactly the input rows of its key (a non-empty group) |
| Tables.MonthlyMetrics | analysis/campaign_analysis.py:25-34 | one row per month some deposit was joined to, in ascending order, each aggregating exactly that month's deposits |
| Tables.MonthKindMetrics | analysis/campaign_analysis.py:179-182 | one row per (month, deposit type) pair that occurs, in ascending key order, each aggregating exactly the deposits with that pair |
| Tables.MonthCadenceMetrics | analysis/campaign_analysis.py:197-200 | one row per (month, cadence) pair that occurs, in ascending key order, each aggregating exactly the deposits with that pair |
| Tables.Month3KindPerformance | analysis/campaign_analysis.py:337-342 | one row per deposit type among the Month 3 deposits, in ascending order, each aggregating exactly the Month 3 deposits of that type |
| Tables.Month3CadencePerformance | analysis/campaign_analysis.py:345-350 | one row per cadence among the Month 3 deposits, in ascending order, each aggregating exactly the Month 3 deposits of that cadence |
| Tables.RegionMetrics | analysis/strategy_recommendations.py:27-32 | one row per (month, region) pair of the rows with a month and a matching client, in ascending key order, each aggregating exactly those rows |
| Tables.StatusMetrics | analysis/strategy_recommendations.py:46-51 | one row per (month, residence status) pair of the rows with a month and a matching client, in ascending key order, each aggregating exactly those rows |
| Tables.AgeMetrics | analysis/strategy_recommendations.py:65-76 | one row per (month, age group) pair of the rows with a month, a matching client and a bucketed age, in ascending key order, each aggregating exactly those rows |
| Buckets.Bin | analysis/strategy_recommendations.py:65-69 | `pd.cut` with right-closed bins: a value lands in bin i iff edges[i] < x <= edges[i+1], and in no bin iff it is at or below the first edge or above the last |
| Buckets.BinUnique | analysis/strategy_recommendations.py:65-69 | a value inside bin i lands in no other bin |
| Buckets.BinMonotone | analysis/strategy_recommendations.py:65-69 | larger values never land in lower bins |
| Buckets.AgeEdgesIncreasing | analysis/strategy_recommendations.py:67 | the age edges 0, 25, 35, 45, 55, 100 are strictly increasing |
| Buckets.AgeGroup | analysis/strategy_recommendations.py:65-69 | an age has a label iff 0 < age <= 100, and the label is the one of the bin that contains it |
| Buckets.AgeLabelsAscending | analysis/strategy_recommendations.py:68 | the labels 18-25 .. 55+ are in ascending key order |
| Buckets.AgeGroupMonotone | analysis/strategy_recommendations.py:65-69 | for ages in range, an older age never gets an earlier label |
| Buckets.AgeGroupEdges | analysis/strategy_recommendations.py:65-69 | 25 maps to 18-25, 26 to 26-35, 100 to 55+, and 0 and 100.5 to no label |
| Kpi.PeriodsOf | analysis/campaign_analysis.py:40-46 | the five monthly rows are found iff Month 1 .. Month 5 all occur, and are then valid aggregates; otherwise the error names the first missing month |
| Kpi.FirstMissing | analysis/campaign_analysis.py:44-46 | the month the first failing `.loc` names: every month before it in the page's lookup order has a row, and it has none |
| Kpi.MeanOf2 | analysis/campaign_analysis.py:44 | the mean of two values lies halfway between them |
| Kpi.PctChange | analysis/campaign_analysis.py:54 | the percentage change is defined iff the reference is non-zero, and it grows the reference into the new value |
| Kpi.PctChangeSign | analysis/campaign_analysis.py:54 | against a positive reference, the change is positive iff the value grew and zero iff it stayed |
| Kpi.GrowthVsBaseline | analysis/campaign_analysis.py:44-54 | campaign growth is defined iff the baseline totals do not cancel, and it turns the baseline mean into the Month 3 total |
| Kpi.GrowthVsBaselineSign | analysis/campaign_analysis.py:44-54 | with a positive baseline, growth is positive iff the campaign total exceeds the baseline |
| Kpi.GrowthExample | analysis/campaign_analysis.py:44-54 | baseline totals 100 and 120 with campaign 200 give (200-110)/110*100 |
| Kpi.Retention | analysis/campaign_analysis.py:63 | retention is undefined exactly when the campaign total equals the baseline, and otherwise scales the campaign lift into the post-campaign lift |
| Kpi.ClientGrowth | analysis/campaign_analysis.py:70-73 | client growth is always defined (every baseline month has a client) and turns the baseline client mean into Month 3's clients |
| Kpi.AvgDepositGrowth | analysis/campaign_analysis.py:81-84 | average-deposit growth is defined iff the baseline means do not cancel, and turns their mean into Month 3's mean |
| Kpi.Baseline | analysis/campaign_analysis.py:40-44 | the baseline is the mean of the Month 1 and Month 2 totals: twice it is their sum |
| Kpi.IncrementalCampaign | analysis/campaign_analysis.py:219 | the campaign lift added to the baseline gives the Month 3 total; it is positive iff Month 3 beats the mean of Months 1 and 2 |
| Kpi.IncrementalPost | analysis/campaign_analysis.py:220 | the post-campaign lift plus two baselines gives the Month 4 and Month 5 totals; it is negative iff the post-campaign mean is below the baseline |
| Kpi.IncrementalClients | analysis/campaign_analysis.py:265-270 | the incremental clients plus the mean baseline client count give the Month 3 client count; it is positive iff twice the Month 3 count exceeds the baseline counts' sum |
| Kpi.TotalIncremental | analysis/campaign_analysis.py:219-221 | total incremental value is the Month 3 to 5 totals less three baselines |
| Kpi.TotalIncrementalByRetention | analysis/campaign_analysis.py:219-221 | total incremental value is the campaign lift times (1 + 2 * retention / 100) |
| Kpi.AverageMonthlyLift | analysis/campaign_analysis.py:477 | the average monthly lift is the mean of the Month 3, 4 and 5 totals less the baseline |
| Kpi.Roi | analysis/campaign_analysis.py:216-223 | the ROI percentage turns the 5,000,000 cost into the incremental value |
| Kpi.RoiStrictlyIncreasing | analysis/campaign_analysis.py:223 | ROI is strictly increasing in the incremental value |
| Kpi.RoiPositiveIff | analysis/campaign_analysis.py:223 | ROI is positive iff the incremental value exceeds the cost, and zero iff it equals it |
| Kpi.VerdictOf | analysis/campaign_analysis.py:328 | the verdict is "exceeds" iff ROI > 15, "falls below" iff ROI <= 0, and "meets" otherwise |
| Kpi.VerdictByLift | analysis/campaign_analysis.py:328 | "exceeds" iff the incremental value is above 5,750,000, "meets" iff it is in (5,000,000, 5,750,000], "falls below" iff it is at most 5,000,000 |
| Kpi.AcquisitionCost | analysis/campaign_analysis.py:270-273 | CAC is the infinity sentinel iff incremental clients <= 0; otherwise it is positive and equals cost / incremental clients |
| Kpi.LifetimeValue | analysis/campaign_analysis.py:276-277 | LTV is twelve times the mean of the Month 4 and Month 5 average deposits |
| Kpi.LifetimeValueNonnegative | analysis/campaign_analysis.py:276-277 | with non-negative post-campaign totals, LTV is non-negative |
| Kpi.RoiMultiple | analysis/campaign_analysis.py:280 | the multiple is 0 under the infinite CAC, and otherwise LTV / CAC |
| Kpi.RoiMultipleSign | analysis/campaign_analysis.py:280 | with LTV >= 0 the multiple is never negative, and is positive iff LTV > 0 and clients grew |
| Kpi.TransactionsPerClient | analysis/campaign_analysis.py:472 | transactions per client are at least one, and times the clients give the transactions |
| Kpi.FrequencyGrowth | analysis/campaign_analysis.py:472 | the frequency change turns Month 1's transactions per client into Month 3's |
| Timing.StepChangeOf | analysis/campaign_analysis.py:428 | one `pct_change` step is finite iff the previous total is non-zero, and then grows it into the current total |
| Timing.StepChanges | analysis/campaign_analysis.py:428 | the steps are one per consecutive pair of totals, in order |
| Timing.RatesAllFinite | analysis/campaign_analysis.py:428 | when every step is finite, the rates the mean sees are exactly the steps |
| Timing.MeanStepGrowth | analysis/campaign_analysis.py:428 | the mean growth is defined iff no step is infinite and at least one step is finite (nan steps are skipped), and it is then `Stats.Mean` of the finite steps, so its product with their number is their sum |
| Timing.MeanOfChanges | analysis/campaign_analysis.py:428 | `mean()` over a `pct_change` column: defined iff no entry is infinite and some entry is finite, and then the mean of the finite entries |
| Timing.CampaignTiming | analysis/campaign_analysis.py:428-452 | the page's projection is defined iff the mean step growth of the monthly totals is defined and the baseline is non-zero; "Postpone" is advised iff it is defined and exceeds the current total incremental value (its value is given by Timing.AlternativeTiming) |
| Timing.StepOfGrowth | analysis/campaign_analysis.py:428 | a total that grew by the factor 1 + r from a non-zero one is a step of rate r |
| Timing.ConstantSteps | analysis/campaign_analysis.py:428 | totals growing by a constant factor have that rate at every step |
| Timing.ConstantGrowth | analysis/campaign_analysis.py:428 | totals growing by a constant factor have exactly that rate as their mean step growth |
| Timing.Totals | analysis/campaign_analysis.py:428 | the total column lists each row's total, in row order |
| Timing.AlternativeTiming | analysis/campaign_analysis.py:428-452 | the projected impact is defined iff the growth is defined and the baseline non-zero, and is then (1+g)^5 times the campaign lift; "Postpone" is advised iff it is defined and exceeds the current total incremental value |
| Timing.FlatTrendTiming | analysis/campaign_analysis.py:428-452 | with zero growth, postponing is advised iff the post-campaign months fell below the baseline overall |
| Timing.PostponeNeedsGrowth | analysis/campaign_analysis.py:428-452 | with a positive lift that held afterwards, "Postpone" requires a compounded growth factor above one |
| Timing.PostponeIffHigherRoi | analysis/campaign_analysis.py:448-452 | "Postpone" is advised iff the projected ROI beats the current ROI |
| Stats.Mean | analysis/what_if_analysis.py:38 | the mean times the count is the sum |
| Stats.MeanBounds | analysis/what_if_analysis.py:38 | the mean lies between any lower and upper bound of the values |
| Stats.PopVariance | analysis/what_if_analysis.py:39 | the population (ddof = 0) variance of the rates is non-negative |
| Stats.PopVarianceZeroIffConstant | analysis/what_if_analysis.py:39 | the population variance is zero iff every value equals the mean |
| Stats.SampleVariance | analysis/campaign_analysis.py:26 | the sample (ddof = 1) variance of a group is non-negative |
| WhatIf.GrowthRate | analysis/what_if_analysis.py:35 | a growth rate is defined iff the previous total is non-zero, and grows it into the current total |
| WhatIf.GrowthRatesOf | analysis/what_if_analysis.py:31-36 | fewer than five rows is an IndexError; otherwise a zero total in rows 0 to 3 is a division by zero; otherwise exactly four rates, each growing row i-1 into row i |
| WhatIf.GrowthRates | analysis/what_if_analysis.py:31-36 | the loop over rows 1 to 4 returns exactly the rates, or the error, of the specification above |
| WhatIf.Project | analysis/what_if_analysis.py:38-51 | the projection grows the last total by the mean rate; upper - expected = expected - lower = z * std * last, so lower <= expected <= upper for a non-negative last total |
| WhatIf.MarginSign | analysis/what_if_analysis.py:48 | the margin is non-negative for a non-negative last total |
| WhatIf.BandCollapses | analysis/what_if_analysis.py:38-51 | with a positive last total the band is a single point iff all rates are equal |
| WhatIf.Scenarios | analysis/what_if_analysis.py:72-96 | exactly three scenarios, Pessimistic, Expected and Optimistic; the first and last change the last total by the slider percentages |
| WhatIf.ScaledChange | analysis/what_if_analysis.py:93-95 | a total scaled by 1 + pct/100 changed by pct percent |
| WhatIf.ScaledChangeNonzero | analysis/what_if_analysis.py:93-95 | the same, for a non-zero last total |
| WhatIf.ScenariosOrdered | analysis/what_if_analysis.py:72-96 | for a non-negative last total, half of it <= pessimistic <= last <= optimistic <= 1.5 times it |
| WhatIf.ScenarioNamesDistinct | analysis/what_if_analysis.py:92-96 | the three scenario names are distinct |
| WhatIf.ScenarioRoi | analysis/what_if_analysis.py:122-141 | a scenario's ROI turns the cost into the campaign's incremental value plus Month 6's lift over the baseline |
| WhatIf.ScenarioRoiMonotone | analysis/what_if_analysis.py:129-142 | scenario ROI is strictly increasing in the Month 6 value, and beats the campaign's own ROI iff Month 6 beats the baseline |
| WhatIf.ScenarioRois | analysis/what_if_analysis.py:128-142 | the ROI dict has exactly the scenario names as keys, each mapped to its own scenario's ROI |
| WhatIf.ScenarioRoisOrdered | analysis/what_if_analysis.py:128-142 | the pessimistic ROI never exceeds the optimistic one |
| Segments.ArgMax | analysis/campaign_analysis.py:354 | `idxmax` gives a position whose value is at least every other, and strictly above every earlier one |
| Segments.ArgMin | analysis/strategy_recommendations.py:93 | `nsmallest(1)` gives a position whose value is at most every other, and strictly below every earlier one |
| Segments.Column | analysis/campaign_analysis.py:353 | the selected column lists each row's metric, in row order |
| Segments.Best | analysis/campaign_analysis.py:353-359 | the pick fails iff there are no rows; otherwise it is a row with the largest metric, the first one on ties |
| Segments.Worst | analysis/strategy_recommendations.py:93 | the pick fails iff there are no rows; otherwise it is a row with the smallest metric, the first one on ties |
| Segments.BestIsMax | analysis/campaign_analysis.py:353-359 | a successful best pick is a row of the table whose metric no row exceeds |
| Segments.WorstIsMin | analysis/strategy_recommendations.py:93 | a successful worst pick is a row of the table whose metric no row undercuts |
| Segments.Month3BestIsMax | analysis/strategy_recommendations.py:92 | picking the best Month 3 row fails iff the table has no Month 3 row; otherwise it gives a Month 3 row of the table whose metric no Month 3 row exceeds |
| Segments.Month3WorstIsMin | analysis/strategy_recommendations.py:93 | picking the worst Month 3 row fails iff the table has no Month 3 row; otherwise it gives a Month 3 row of the table whose metric no Month 3 row undercuts |
| Segments.BestDepositType | analysis/campaign_analysis.py:352-355 | the best deposit type fails iff the Month 3 type table is empty; otherwise it is a row of that table whose total no row exceeds |
| Segments.BestCadence | analysis/campaign_analysis.py:357-359 | the best cadence fails iff the Month 3 cadence table is empty; otherwise it is a row of that table whose total no row exceeds |
| Segments.InsightDepositType | analysis/campaign_analysis.py:459 | the key-insight type fails iff the (month, type) table has no Month 3 row; otherwise it is a Month 3 row of it whose total no Month 3 row exceeds |
| Segments.InsightCadence | analysis/campaign_analysis.py:460 | the key-insight cadence fails iff the (month, cadence) table has no Month 3 row; otherwise it is a Month 3 row of it with the most distinct clients |
| Segments.MostClients | analysis/campaign_analysis.py:460 | among the Month 3 rows, the pick by distinct clients has at least as many clients as any of them |
| Segments.BestRegion | analysis/strategy_recommendations.py:92 | the best region fails iff the region table has no Month 3 row; otherwise it is a Month 3 row whose total no Month 3 row exceeds |
| Segments.WorstRegion | analysis/strategy_recommendations.py:93 | the worst region fails iff the region table has no Month 3 row; otherwise it is a Month 3 row whose total no Month 3 row undercuts |
| Segments.BestResidence | analysis/strategy_recommendations.py:100 | the best residence status fails iff the status table has no Month 3 row; otherwise it is a Month 3 row whose average deposit no Month 3 row exceeds |
| Segments.BestAgeGroup | analysis/strategy_recommendations.py:105 | the best age group fails iff the age table has no Month 3 row; otherwise it is a Month 3 row whose total no Month 3 row exceeds |
| Segments.BestAtLeastWorst | analysis/strategy_recommendations.py:92-93 | on the same rows, the best value is at least the worst |
| Segments.Month3Rows | analysis/strategy_recommendations.py:92 | the Month 3 mask keeps exactly the Month 3 rows, in table order |
| Segments.SameMonthOrder | analysis/campaign_analysis.py:459 | two (month, segment) keys of the same month are ordered as their segments |
| Segments.SubsequenceMembers | analysis/strategy_recommendations.py:92 | a masked table holds only rows of the table |
| Segments.SubsequenceSorted | analysis/strategy_recommendations.py:92 | masking a key-sorted table leaves it key-sorted |
| Segments.Month3RowsBySegment | analysis/campaign_analysis.py:459-460 | the Month 3 rows of a groupby result are in ascending segment order, so ties go to the alphabetically first segment |
| Segments.RegionPicks | analysis/strategy_recommendations.py:92-97 | the best region exists iff the worst does, and its Month 3 total is at least the worst one's |
| Segments.GroupByNonEmpty | analysis/campaign_analysis.py:337-342 | a groupby result has rows iff some row has a key |
| Segments.Month3RowsNonEmpty | analysis/campaign_analysis.py:459 | a groupby result has Month 3 rows iff some row has a (Month 3, segment) key |
| Segments.KeyedFacts | analysis/campaign_analysis.py:337-342 | some aggregation input has a key with a property iff some row's key has it |
| Segments.BestDepositTypeExists | analysis/campaign_analysis.py:337-354 | the best Month 3 deposit type exists iff some deposit was joined to Month 3 |
| Segments.InsightDepositTypeExists | analysis/campaign_analysis.py:459 | the key-insight deposit type exists under the same condition |
| Segments.Month3KindRow | analysis/campaign_analysis.py:178-182 | a deposit joined to Month 3 gives the (month, type) table a Month 3 row |
| Segments.Month3KindDeposit | analysis/campaign_analysis.py:178-182 | a Month 3 row of the (month, type) table comes from a deposit joined to Month 3 |

## Left out

- Rendering: every `st.*` call, the plotly figures and the f-string formatting are presentation only.
- CSV loading, the sidebar navigation, the CSS block and the dashboard overview page are I/O or static content.
- Widget state: the slider, multiselect and date-picker values are plain parameters. The slider range and step are stated as predicates.
- Conversion of dates to timestamps: dates are already `int` day numbers.
- `.round(2)` on the aggregate tables: arithmetic is exact.
- IEEE infinities and NaNs: an unguarded division by zero becomes `Ratio.Undefined`, or `Err(DivisionByZero)` in the what-if loop.
- WhatIf.GrowthRates: the source keeps going with an infinite or NaN rate; the model stops with `Err(DivisionByZero)`, and the figures after it are not modelled.
- WhatIf.Project: the standard deviation is a parameter, required to be a non-negative square root of the population variance. The square root is not computed.
- WhatIf.Project: the z quantile of `scipy.stats.norm.ppf` is a positive parameter.
- Grouping.Summarize: the `std` column is the sample variance (its square root is not computed), absent for a one-row group as pandas gives NaN.
- Timing.AlternativeTiming: an undefined growth or a zero baseline gives `Undefined` and "Keep". In floating point both cases give a NaN projection, which compares false. Overflow of `(1+g)**5` for a finite `g` is not modelled.
- Kpi.RoiMultiple: the source's `else 0` branch for a non-positive CAC cannot be reached, as CAC is either infinite or positive.
- Empty rows for unobserved age buckets: pandas emits them or not depending on its version, so only observed groups are modelled.
- Sorting cost: the join is specified by its result, not by the O(n log n) merge strategy.
- The campaign page's other `.loc` lookups, such as the chart annotation at line 150, are presentation only.
- The what-if page reads the Month 5 total as the last row (`iloc[-1]`). `WhatIf.Project` takes that total as `last`.
