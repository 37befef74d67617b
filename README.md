# Financial Research Assistant: the analytics core in Dafny

This project models the deterministic part of the Financial Research Assistant. That part is what turns fetched market data into the JSON summaries the assistant's tools return:

- **Quarter resolver** (`agent/utils.py`). It finds the most recently closed calendar quarter for today's year and month and writes it as `YYYYQn`.
- **RSI summary** (`agent/tools/analytics.py`, `get_rsi_summary`). The steps are:
  - day-over-day changes are split into gains and losses;
  - both series are smoothed with a non-adjusted exponential moving average, α = 2/(period+1);
  - the model computes RS = avgGain/avgLoss, where a zero loss is undefined, and then RSI = 100 − 100/(1+RS);
  - the latest value is classified into a signal band, and max, min and mean are taken over the defined values.
- **EPS year-over-year growth** (`agent/tools/analytics.py`, `get_eps_yoy_growth_summary`). The steps are:
  - the rows whose label contains "EPS" (ignoring case) are selected;
  - the report-date columns are put in date order;
  - each row's present values are grouped by report month in a dictionary (a map plus the key order);
  - each group list is sorted in place;
  - each neighbouring pair exactly one year apart gets a comparison, with a policy for a zero previous value;
  - statistics are taken over the defined growth values.
- **Ownership summaries** (`agent/tools/ownership.py`).
  - The insider summary looks up exact labels in a two-column table, scales fractions to percentages, derives a Buying/Selling bias and spots a placeholder header.
  - The institutional summary sorts holders by `pctHeld`, keeps the top five, totals every row, counts rising and falling stakes, derives an Accumulating/Trimming bias and takes the latest report date.

For the EPS and ownership tools, the provider fetch at the top of the tool is an input value: an `Option` of a table, where `None` is the `df is None` case (agent/tools/analytics.py:58, agent/tools/ownership.py:12 and 49). The RSI tool's price history is a plain sequence, empty when the provider returned no rows (agent/tools/analytics.py:14). Today's date is an input to the quarter resolver. A pandas NaN or NaT is `None`, and pandas' skip-NaN reductions work over the present values. Every error the code returns as `{"error": message}` is an `Err(message)` of `Wrappers.Result`, with the same message text.

The EPS engine is imperative, as in the source:

- `EpsGrowth.GroupByMonth` fills a `map<Month, seq<Entry>>` entry by entry, as `setdefault(...).append` does. It keeps the dictionary's insertion order in a sequence.
- `EpsGrowth.AppendGroupComparisons` copies each group into an array, sorts it in place with `Sorting.SortInPlace`, and appends the comparisons in a loop.
- `EpsGrowth.EpsYoYGrowthSummary` and `EpsGrowth.RowComparisons` run the outer loops.

Each method is proved equal to a specification function (`StatementComparisons`, `SeriesComparisons`, `GroupComparisons`, `Sorting.SortBy`). Lemmas then state what those functions mean. The other engines are pure in the source and are Dafny functions here.

Modules:

- `Wrappers`: Option and Result.
- `Text`: decimal digits, substring search, case folding.
- `Dates`: dates and their order.
- `Stats`: skip-NaN reductions.
- `Sorting`: stable insertion sort, functional and in place.
- `Quarters`: the quarter resolver.
- `Rsi`: the RSI summary.
- `EpsGrowth`: the EPS growth summary.
- `Ownership`: both ownership summaries.

The RSI of this code differs from the usual reading of the indicator, under which a strictly rising price series makes the RSI tend to 100 and the RSI is undefined only when both averages are zero. The code maps a zero average loss to NaN before dividing, so a series with no down move has no defined RSI at any row. `Rsi.NoDownMovesUndefined` proves this, and `Rsi.RisingHistoryIsNeutral` proves that such a history is then classified NEUTRAL.

## Model

Some functions are characterised by lemmas rather than by their own contracts. Each such function is covered by the row of the lemma below that states its property:

- `Rsi.Classify` (agent/tools/analytics.py:32-37): `Rsi.SignalBands` and `Rsi.SignalTextBands`.
- `Rsi.Ema` (the `ewm(span, adjust=False).mean()` of agent/tools/analytics.py:22-23): `Rsi.EmaRecurrence`, `Rsi.EmaBounds`, `Rsi.EmaNonNegative` and `Rsi.EmaPositive`.
- `Rsi.Gains` and `Rsi.Losses` (agent/tools/analytics.py:18-20): `Rsi.Split`.
- `EpsGrowth.Series` (the column sort and `dropna` of agent/tools/analytics.py:65-66 and 71): `EpsGrowth.DropMissing` and `EpsGrowth.GroupsArriveSorted`.
- `EpsGrowth.QuarterName` (agent/tools/analytics.py:69 and 77): `EpsGrowth.QuarterNameShape`.
- `EpsGrowth.PairsUpTo` (agent/tools/analytics.py:79-82): `EpsGrowth.PairsUpToSpec`.
- `EpsGrowth.Compare` (agent/tools/analytics.py:86-95): `EpsGrowth.GroupFacts` and `EpsGrowth.ComparisonFacts`.
- `Ownership.HeldSum` (agent/tools/ownership.py:55): `Ownership.HeldSumPermutation` and `Ownership.TotalCoversTop`.

| member | source | states |
|---|---|---|
| Quarters.Containing | agent/utils.py:9-17 | the month lies inside the three months of the quarter it is assigned to |
| Quarters.MostRecentQuarter | agent/utils.py:9-17 | the quarter number is in 1..4; the result is exactly the quarter before the one containing the month (Q1 wraps to Q4 of year−1); its last month is strictly before (year, month); no closed quarter is later |
| Quarters.MonthBands | agent/utils.py:9-17 | months 1–3 give Q4 of the previous year, 4–6 Q1, 7–9 Q2 and 10–12 Q3 of the same year; the year changes exactly when month ≤ 3 |
| Quarters.Label | agent/utils.py:18 | the label is the decimal year, then 'Q', then the quarter digit |
| Quarters.LabelRoundTrip | agent/utils.py:18 | reading a label back gives the quarter it was written from |
| Quarters.MostRecentQuarterLabel | agent/utils.py:3-18 | the returned string reads back as the most recently closed quarter |
| Text.ParseNatToString | agent/utils.py:18 | the decimal form of a natural number reads back as that number |
| Rsi.Split | agent/tools/analytics.py:18-20 | gain and loss are ≥ 0, at most one is non-zero, and gain − loss = delta; the first row has no delta and gives (0, 0) |
| Rsi.Alpha | agent/tools/analytics.py:22-23 | for a span ≥ 1 the smoothing factor 2/(span+1) lies in (0, 1] |
| Rsi.EmaRecurrence | agent/tools/analytics.py:22-23 | the average starts at the first input and then follows y_t = (1−α)·y_{t−1} + α·x_t |
| Rsi.EmaBounds | agent/tools/analytics.py:22-23 | inputs inside [lo, hi] keep every average inside [lo, hi] |
| Rsi.EmaNonNegative | agent/tools/analytics.py:22-23 | non-negative inputs give non-negative averages |
| Rsi.EmaPositive | agent/tools/analytics.py:22-23 | positive inputs after the first give positive averages after the first |
| Rsi.AverageGains | agent/tools/analytics.py:22 | the smoothed gains are non-negative, one per row |
| Rsi.AverageLosses | agent/tools/analytics.py:23 | the smoothed losses are non-negative, one per row |
| Rsi.RsiOf | agent/tools/analytics.py:25-26 | RSI is undefined exactly when the average loss is 0; otherwise it lies in [0, 100) and is 0 exactly when the average gain is 0 |
| Rsi.RsiSeries | agent/tools/analytics.py:25-26 | each row's RSI is undefined exactly where its average loss is 0, and lies in [0, 100) where defined |
| Rsi.NoDownMovesUndefined | agent/tools/analytics.py:25-26 | a series with no down move has no defined RSI at any row (it is not 100) |
| Rsi.StrictlyFallingIsZero | agent/tools/analytics.py:18-26 | a strictly falling series has RSI 0 from its second row on, and undefined at the first |
| Rsi.SignalBands | agent/tools/analytics.py:32-37 | OVERBOUGHT exactly when latest > 70, OVERSOLD exactly when latest < 30, NEUTRAL otherwise, including 30, 70 and an undefined latest value |
| Rsi.SignalTextBands | agent/tools/analytics.py:32-37 | the reported text is the OVERBOUGHT text exactly when latest > 70, the OVERSOLD text exactly when latest < 30, and the NEUTRAL text otherwise |
| Rsi.SignalTextsDistinct | agent/tools/analytics.py:33-37 | the three signal texts are different strings |
| Rsi.DefaultPeriodSummary | agent/tools/analytics.py:8-29 | with the default period of 14 a summary exists exactly when the history is non-empty, and its latest RSI is the last value of the 14-span series |
| Rsi.RsiSummaryOf | agent/tools/analytics.py:14-47 | an empty history, then a span < 1, are errors, and the result is a summary otherwise; the date is the last row's; the signal classifies the latest RSI; max, min and mean are over the defined values with 0 ≤ min ≤ max < 100 |
| Rsi.RisingHistoryIsNeutral | agent/tools/analytics.py:25-37 | a history that never falls has an undefined latest RSI and maximum, and the signal NEUTRAL |
| Stats.Present | agent/tools/analytics.py:101 | the defined values are exactly the values of the non-NaN entries, each kept as often as it occurs |
| Stats.PresentEmpty | agent/tools/analytics.py:101-105 | there are no defined values exactly when every entry is NaN |
| Stats.Max | agent/tools/analytics.py:106 | the maximum is one of the values and bounds all of them |
| Stats.Min | agent/tools/analytics.py:107 | the minimum is one of the values and is bounded by all of them |
| Stats.MeanBetween | agent/tools/analytics.py:105-107 | min ≤ mean ≤ max |
| Stats.AggregateOf | agent/tools/analytics.py:105-107 | mean, max and min are all undefined exactly when every entry is NaN; max and min are attained entries that bound every defined entry; min ≤ mean ≤ max |
| Stats.SampleVariance | agent/tools/analytics.py:108 | it is defined exactly for two or more values, and it is non-negative |
| Dates.KeyOrder | agent/tools/analytics.py:65-66 | the sort key orders dates chronologically, and equal keys mean equal dates |
| Sorting.SortByMultiset | agent/tools/analytics.py:78 | sorting is a permutation |
| Sorting.SortBySorted | agent/tools/analytics.py:78 | sorting yields key order |
| Sorting.SortByOfSorted | agent/tools/analytics.py:78 | sorting a list already in key order changes nothing (stability) |
| Sorting.SortInPlace | agent/tools/analytics.py:78 | the array ends as the stable sort of its old contents |
| EpsGrowth.EpsRows | agent/tools/analytics.py:61 | the selected rows are exactly the statement rows whose label contains "EPS", ignoring case; each such row appears as many times as in the statement, and no other row appears |
| EpsGrowth.DropMissing | agent/tools/analytics.py:71 | an entry is kept exactly when its cell holds a value |
| EpsGrowth.QuarterNameShape | agent/tools/analytics.py:77 | months 3, 6, 9 and 12 are labelled Q and their quarter number; any other month is labelled M and its number, which reads back as the month |
| EpsGrowth.Growth | agent/tools/analytics.py:83-85 | with a non-zero previous value the growth is defined and has the sign of current − previous; with a zero previous value it is null exactly when the current value is non-zero, and 0 otherwise |
| EpsGrowth.GrowthExamples | agent/tools/analytics.py:83-94 | 0 → 2 is null, 0 → 0 is 0, −2 → −1 is +50% (divided by the magnitude), 2 → 1 is −50% |
| EpsGrowth.PairsUpToSpec | agent/tools/analytics.py:79-82 | a sorted month group yields a comparison for each neighbouring pair exactly one year apart, and nothing else |
| EpsGrowth.PairingExample | agent/tools/analytics.py:79-95 | March 2022, 2023 and 2025 give the single 2022→2023 comparison, with change 0.5 and growth 50%; the two-year gap is not paired |
| EpsGrowth.MonthsInOrder | agent/tools/analytics.py:72-76 | the dictionary keys are exactly the months that occur in the series, each listed once |
| EpsGrowth.OfMonth | agent/tools/analytics.py:72-74 | the list under month m holds exactly the series entries of month m |
| EpsGrowth.GroupByMonth | agent/tools/analytics.py:72-74 | the filled dictionary has a key for exactly the months of the series, in order of first appearance, and under each the entries of that month in series order |
| EpsGrowth.AppendGroupComparisons | agent/tools/analytics.py:77-95 | after the in-place sort, the loop appends exactly the comparisons of the sorted group |
| EpsGrowth.RowComparisons | agent/tools/analytics.py:71-95 | one row's loop produces the comparisons of its month groups in key order |
| EpsGrowth.GroupFacts | agent/tools/analytics.py:76-95 | every comparison of a group pairs two of its entries of the same month, one year apart, under that month's label, with change = current − previous and the growth policy applied |
| EpsGrowth.SeriesComparisonsSpec | agent/tools/analytics.py:76-95 | a row's comparisons are exactly those of its month groups |
| EpsGrowth.StatementComparisonsSpec | agent/tools/analytics.py:70-95 | the statement's comparisons are exactly those of its EPS rows |
| EpsGrowth.ComparisonFacts | agent/tools/analytics.py:69-95 | every comparison comes from an EPS row; its dates share a month exactly one year apart, so a two-year gap is never paired; it carries that month's quarter label, change = current − previous and the growth policy |
| EpsGrowth.GroupsArriveSorted | agent/tools/analytics.py:65-78 | once the columns are in date order, each month group arrives sorted, so the sort at line 78 changes nothing |
| EpsGrowth.Summarize | agent/tools/analytics.py:100-110 | the total counts every comparison, including null growths; average, max, min and spread use only defined growths and are null when there are none; min ≤ average ≤ max; max and min bound every defined growth; average, max and min are the mean, maximum and minimum of the defined growths and the spread is their sample variance |
| EpsGrowth.EpsYoYGrowthSummary | agent/tools/analytics.py:58-111 | a missing or empty statement, no EPS row and no comparison are the three errors, checked in that order; otherwise the summary of exactly the statement's comparisons |
| Ownership.Percent | agent/tools/ownership.py:33-35 | a fraction is shown ×100, and a NaN stays NaN |
| Ownership.Truncate | agent/tools/ownership.py:30-36 | `int()` truncates toward zero: |n| ≤ |x| < |n| + 1, with the sign of x |
| Ownership.FirstIndex | agent/tools/ownership.py:17-23 | the position of the first row with the label, or the row count when there is none |
| Ownership.Lookup | agent/tools/ownership.py:17-23 | the lookup fails exactly when no row has the label; otherwise it gives the value of the first row with it |
| Ownership.ReportedHeader | agent/tools/ownership.py:25 | the date is absent exactly when the header contains "Unnamed", and is the header otherwise |
| Ownership.InsiderActivitySummary | agent/tools/ownership.py:12-41 | errors come in source order: no table or an empty one, then a missing Shares column, then any missing label, then a NaN share count; a summary is returned exactly when none of these occurs; the counts are the truncated values of the first matching rows and the percentages their fractions ×100; the bias is Buying exactly when net shares > 0 |
| Ownership.BiasAgreesWithNetShares | agent/tools/ownership.py:31-37 | a positive reported net share count is Buying and a negative one Selling |
| Ownership.BuyingExample | agent/tools/ownership.py:25-38 | a complete table with net shares 100 is Buying, with percentages ×100, a NaN percentage kept NaN and no date under a placeholder header |
| Ownership.SellingExample | agent/tools/ownership.py:37 | net shares 0 is Selling |
| Ownership.TopRows | agent/tools/ownership.py:52-53 | there are min(5, n) top rows |
| Ownership.TopRowsSpec | agent/tools/ownership.py:52-53 | the top rows are rows of the table in descending pctHeld order, and no row left out holds more than any row shown |
| Ownership.Display | agent/tools/ownership.py:65 | a top record carries the holder and pctHeld, and pctChange exactly when that column exists |
| Ownership.TopHolders | agent/tools/ownership.py:65 | one record per top row, in order |
| Ownership.HeldSumPermutation | agent/tools/ownership.py:55 | the total of pctHeld does not depend on row order |
| Ownership.TotalCoversTop | agent/tools/ownership.py:55 | the total is over every row: with non-negative holdings it is at least the total of the top rows |
| Ownership.CountIncreased | agent/tools/ownership.py:57 | the rising-stake count is at most n, and 0 exactly when no change is positive |
| Ownership.CountDecreased | agent/tools/ownership.py:58 | the falling-stake count is at most n, and 0 exactly when no change is negative |
| Ownership.CountsBound | agent/tools/ownership.py:57-58 | the two counts sum to at most n |
| Ownership.Dated | agent/tools/ownership.py:60 | the dates considered are exactly the non-NaT report dates |
| Ownership.Latest | agent/tools/ownership.py:60 | the latest date is one of the dates and none is later |
| Ownership.AverageChange | agent/tools/ownership.py:56 | without the column the average is 0.0; with it, it is NaN exactly when every change is NaN, and lies between the smallest and largest change otherwise |
| Ownership.InstitutionalOwnershipSummary | agent/tools/ownership.py:49-71 | no table or an empty one is an error, and so is a date column holding only NaT; otherwise it returns a summary with these fields: the top holders; 100 × the total over all rows; the average change ×100; the counts, which sum to at most n and are 0 without the column; Accumulating exactly when the average change is > 0; and the latest report date, absent exactly when there is no `Date Reported` column, otherwise the latest non-NaT date |
| Ownership.AccumulatingHasIncrease | agent/tools/ownership.py:56-70 | an Accumulating bias implies the change column exists and at least one stake rose |

## Left out

- The provider fetches (yfinance), `date.today()`, the agent framework's `@tool` wrapper and `json.dumps` are not modelled. The fetched tables and today's date are inputs, and the result is the summary value rather than its JSON text.
- `round(…, 2)` and `round(…, 4)`, and IEEE-754 arithmetic in general, are not modelled. The model computes over exact reals.
- Date formatting (`strftime('%Y-%m-%d')`, `str(...date())`, `pd.to_datetime`) is not modelled as text. Dates stay (year, month, day) values, and the conversion of the column headers to timestamps is assumed to succeed.
- EpsGrowth.Summarize: the standard deviation is kept as its square, the sample variance. A square root over the reals is not available, so the field is `variance`.
- Ownership.TopRows: `sort_values` uses an unstable quicksort, so the order of rows with equal `pctHeld` is not modelled. The model breaks ties by table order.
- Ownership.InstitutionalOwnershipSummary: `pctHeld` is taken as always present and never NaN, and the `Holder` and `pctHeld` columns as always there. The KeyError raised for a missing core column is not modelled.
- EpsGrowth.EpsYoYGrowthSummary: duplicate row labels are not modelled. For those, `df.loc[label]` would return a table. A label that is not a string is not modelled either; `na=False` excludes those.
- Rsi.RsiSummaryOf: close prices are taken as never NaN.
- Text.Fold: case-insensitive matching is modelled only for what the pattern "EPS" can match. That is ASCII letters and U+017F, which matches 's'. Full Unicode case folding is not modelled.
- Ownership.InsiderActivitySummary: the exact text of pandas' KeyError and IndexError messages is an assumption about the library. A table whose first column is itself `Shares` is not modelled.
- `agent/tools/transcripts.py`, `app.py`, `agent/agent.py`, `agent/prompts.py`, `services/` and `config/` are not part of this model. They are network clients, UI and LLM wiring with no logic of their own to prove.
