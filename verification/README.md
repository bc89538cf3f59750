# Quick metrics and regime diagnostics of the MRAS v5 dashboard

This project is a Dafny model of the computations in the LIGHTARK Multi-Regime
Alpha System dashboard (`streamlit_app.py`). The dashboard loads a strategy table
with a NAV column (`nav_v5`), a regime label column (`state_hmm`) and a lagged
position column (`final_pos_lag`). It then computes two things:

- **quick metrics** of the NAV series (`compute_simple_metrics`): total return,
  CAGR, annualised volatility, Sharpe ratio and maximum drawdown;
- **regime diagnostics**: for each regime label, in ascending order, the summed
  simple returns of that regime's rows, their annualised volatility, the share of
  rows carrying the label, and the truncated sum of positions.

It also models how the NAV column is chosen when `nav_v5` is missing.

NAV values are `real`s and must be positive. Timestamps are integer day numbers.
Arithmetic is exact. Metrics whose value is irrational are kept as their exact
operands:

- CAGR `growth^(1/years) - 1` is `CagrRoot(growth, years)`;
- a volatility `sqrt(annualVariance)` is `VolSqrt(annualVariance)`;
- a Sharpe ratio `annualMean / sqrt(annualVariance)` is
  `SharpeRatio(annualMean, annualVariance)`.

Each of these has an `Undefined` case that stands for pandas' NaN. The guards that
choose between the two cases are modelled exactly.

Modules:

- `Results`: the error values and the `Option`/`Result` wrappers.
- `Stats`: sum, mean, the ddof=1 sample variance behind pandas `std`, and `int()`
  truncation.
- `Returns`: `pct_change`, both with `dropna` and with `fillna(0)`, and the
  compounding of returns.
- `Drawdown`: `cummax`, the drawdown at each point, and the maximum drawdown.
- `Metrics`: `compute_simple_metrics`.
- `Regimes`: the diagnostics loop.
- `Columns`: the NAV column fallback.

Edge cases, as the code handles them:

- **One-point series.** `compute_simple_metrics` does not raise on a single point.
  It returns a total return of 0, a drawdown of 0, and NaN for CAGR, volatility and
  Sharpe (`Metrics.SinglePointMetrics`). Only an empty series fails, because
  `iloc[0]` raises on it.
- **Empty table.** The diagnostics loop appends nothing, and then
  `pd.DataFrame([]).set_index('state')` raises `KeyError`. The model returns
  `Failure(EmptyTable)`.
- **Non-positive NAV values.** The code does not check for them. The model makes
  positivity a precondition instead (see Left out).

## Model

| member | source | states |
|---|---|---|
| Returns.PctChange | streamlit_app.py:102 | The return series has one entry fewer than a non-empty NAV, and entry i is nav[i+1]/nav[i] - 1; the first point contributes no return |
| Returns.FilledPctChange | streamlit_app.py:121 | With `fillna(0)` there is one return per point, the leading one is 0, the others are the consecutive ratios minus 1, and the sum equals the sum of the `dropna` returns |
| Returns.CompoundedReturns | streamlit_app.py:99-102 | Compounding all period returns (product of 1 + r) gives exactly nav[last]/nav[first] |
| Stats.SampleVariance | streamlit_app.py:103 | The ddof=1 sample variance (the square of pandas `std`) is never negative |
| Stats.TwoPointVariance | streamlit_app.py:103 | The variance of two values is half their squared difference, which is the ddof=1 divisor n - 1 (ddof=0 would give a quarter) |
| Stats.VariancePositiveIffNotConstant | streamlit_app.py:104 | With two or more values, the ddof=1 sample variance is positive exactly when the values are not all equal |
| Stats.AnnualVolatility | streamlit_app.py:103 | Volatility is NaN exactly when there are fewer than two returns; otherwise its squared value is non-negative, and zero exactly when the returns are constant |
| Stats.Trunc | streamlit_app.py:124 | `int()` truncates toward zero: for x >= 0 the result is the largest integer <= x, for x < 0 the smallest integer >= x |
| Metrics.TotalReturn | streamlit_app.py:99 | The total return plus one equals the compounded period returns; it exceeds -1, and it is 0 for a constant NAV |
| Metrics.CagrOf | streamlit_app.py:100-101 | CAGR is NaN exactly when the last day is not after the first; otherwise its base is 1 + total return and its years are the elapsed days over 365.25, which is positive |
| Metrics.SharpeOf | streamlit_app.py:104 | Sharpe is defined exactly when there are at least two returns and they are not all equal; its denominator is the annualised volatility, and it is positive exactly when the returns sum above 0 |
| Metrics.ComputeSimpleMetrics | streamlit_app.py:98-106 | Fails only on an empty series. Otherwise: total + 1 = nav[last]/nav[first]. CAGR is `CagrOf` of the total and the first and last day numbers: NaN unless the last day is after the first, else base 1 + total and years equal to the elapsed days over 365.25. Volatility is NaN iff there are fewer than 3 points. Sharpe is defined iff there are at least 3 points and the returns vary. Max drawdown is `MaxDrawdown(nav)`, the smallest point of nav/cummax - 1; it lies in (-1, 0] and is 0 iff the NAV never falls |
| Metrics.FlatReturns | streamlit_app.py:102 | A constant NAV has every period return equal to 0 |
| Metrics.ConstantNavMetrics | streamlit_app.py:98-106 | A constant NAV has total return 0, drawdown 0, CAGR base 1 (CAGR 0), zero volatility where defined, and no Sharpe ratio |
| Metrics.SinglePointMetrics | streamlit_app.py:98-106 | A one-point series succeeds, with total return 0, drawdown 0, and NaN CAGR, volatility and Sharpe |
| Metrics.SteadyGrowthExample | streamlit_app.py:99-104 | For NAV 100, 110, 121 on any three days, the total return is 0.21, the volatility is 0 and the Sharpe ratio is NaN |
| Metrics.SteadyGrowthReturns | streamlit_app.py:102 | For NAV 100, 110, 121 both period returns are 0.1 |
| Metrics.HalvingTrough | streamlit_app.py:105 | When the NAV halves and then recovers to its first value, the drawdown at the middle point is -0.5 |
| Metrics.HalvingSummary | streamlit_app.py:98-106 | For a NAV that halves and recovers (for example 100, 50, 100), the quick metrics succeed with a max drawdown of -0.5 |
| Metrics.HalvingDrawdownExample | streamlit_app.py:105 | When the NAV halves and then recovers to its first value (for example 100, 50, 100), the maximum drawdown is -0.5 |
| Drawdown.RunningMax | streamlit_app.py:105 | `cummax` has one entry per point. Entry i is at least every value up to i and equals one of them, so it is the maximum of the prefix. The entries never decrease |
| Drawdown.AtPeakIffRunningHigh | streamlit_app.py:105 | The running maximum equals the NAV at i exactly when the NAV at i is at least every earlier value |
| Drawdown.DrawdownAt | streamlit_app.py:105 | A positive value at or below its peak falls by a fraction in (-1, 0], which is 0 exactly at the peak |
| Drawdown.DrawdownsBelow | streamlit_app.py:105 | Each point's drawdown below its peak lies in (-1, 0], is 0 exactly at the peak, and is the value over the peak minus 1 |
| Drawdown.Drawdowns | streamlit_app.py:105 | `nav / cummax - 1` has one entry per point, each being that point's drawdown below the running maximum. It lies in (-1, 0] and is 0 exactly where the NAV is at a running high |
| Drawdown.DeepestPointIsMaxDrawdown | streamlit_app.py:105 | A point whose drawdown is no larger than any other point's gives the maximum drawdown |
| Drawdown.MinOf | streamlit_app.py:105 | `min` returns an element of the series that is no larger than any element |
| Drawdown.MinDrawdownZeroIffNonDecreasing | streamlit_app.py:105 | The smallest drawdown is 0 exactly when the NAV is non-decreasing |
| Drawdown.MaxDrawdown | streamlit_app.py:105 | Max drawdown is the smallest point drawdown; it lies in (-1, 0] and is 0 iff the NAV never falls |
| Regimes.InsertLabel | streamlit_app.py:119 | Adding a label to a strictly ascending label list keeps it strictly ascending and adds exactly that label |
| Regimes.Labels | streamlit_app.py:119 | `sorted(unique())` is strictly ascending (each label once) and holds exactly the labels that occur in the table |
| Regimes.LabelsOfOneRegime | streamlit_app.py:119 | A table whose rows all carry one label has exactly that one label |
| Regimes.Select | streamlit_app.py:120 | The subset for a label holds only rows of the table with that label, contains every row with that label, is non-empty when the label occurs, and is the whole table when every row has the label |
| Regimes.SelectIsMaskFilter | streamlit_app.py:120 | The subset is the boolean-mask selection: some strictly ascending list of positions covers every row with the label, each listed position holds such a row, and the subset is those rows in that order. So table order is kept and each matching row appears exactly once |
| Regimes.Share | streamlit_app.py:123 | `len(sub)/len(master)` lies in [0, 1], is positive for a non-empty subset, and multiplied by the table size gives back the subset size |
| Regimes.RegimeOf | streamlit_app.py:120-125 | A regime line carries its label. total_ret is the sum of the subset's consecutive returns. Volatility is NaN iff the subset has fewer than two rows. days_frac times the table size is the subset size, in (0, 1] for an occurring label. days_invested is 0 without a position column, else the truncated position sum |
| Regimes.RegimesOf | streamlit_app.py:119-125 | One line per label, in the order of the labels. Line k carries label k. Its total_ret is the summed returns of that label's rows. Its days_frac times the table size is that label's row count, and lies in (0, 1] when the label occurs |
| Regimes.Diagnostics | streamlit_app.py:117-126 | Fails exactly on an empty table. Otherwise the lines are in strictly ascending label order and their labels are exactly the labels occurring in the table. Each line equals `RegimeOf` for its label, so its total_ret, volatility, days_frac and days_invested are those of lines 121-125. Every days_frac lies in (0, 1], and together they sum to 1 |
| Regimes.SelectedCountStep | streamlit_app.py:119-120 | With distinct labels, the first row is counted once if its label is listed and not at all otherwise |
| Regimes.PartitionCount | streamlit_app.py:119-123 | When every row's label is listed, the regimes' subset sizes add up to the number of rows |
| Regimes.TotalShareScales | streamlit_app.py:123 | The summed days_frac times the table size equals the summed subset sizes |
| Regimes.DaysFractionsSumToOne | streamlit_app.py:119-123 | The days_frac values of the regimes of all occurring labels sum to 1 |
| Regimes.RegimeLinesOfLabels | streamlit_app.py:119-125 | Each line computed over the occurring labels is the statistics line of its own label, with days_frac in (0, 1] |
| Regimes.RegimeLabelsExact | streamlit_app.py:119 | The lines computed over the occurring labels carry exactly those labels, in strictly ascending order |
| Regimes.RowInOwnRegime | streamlit_app.py:119-120 | Every row lies in the subset of the line that carries its own label |
| Regimes.RowInNoOtherRegime | streamlit_app.py:119-120 | A line whose subset holds a row carries that row's label |
| Regimes.EveryRowInExactlyOneRegime | streamlit_app.py:119-120 | Every row is in the subset of the line carrying its own label, in no other line's subset, and no label has two lines |
| Regimes.SingleRegime | streamlit_app.py:121-123 | With one label over all rows there is one line; its days_frac is 1 and its total_ret is the sum of all period returns of the full NAV series |
| Regimes.SteadyTableSummedReturn | streamlit_app.py:121 | For NAV 100, 110, 121 the period returns sum to 0.2 |
| Regimes.SummedNotCompounded | streamlit_app.py:121 | total_ret adds returns instead of compounding them: for NAV 100, 110, 121 it is 0.2, while the compounded return is 0.21 |
| Columns.FirstNavColumn | streamlit_app.py:58-60 | Finds the first column whose lower-cased name contains "nav", or reports that no column's name does |
| Columns.ResolveNavColumn | streamlit_app.py:56-64 | `nav_v5` is used when present. Otherwise the first column mentioning "nav" is used. When no column mentions "nav", the result is the NoNavColumn failure |
| Columns.ResolvedColumnMentionsNav | streamlit_app.py:56-61 | Whichever column is chosen, its lower-cased name contains "nav" |

## Left out

- fetch_data.py: a yfinance download followed by a CSV write. It is network and file I/O around a library that is not part of this model.
- Page setup, sidebar widgets, cached CSV loading and error display (streamlit_app.py:32-53), the NAV and regime charts (67-93), metric formatting (109-112), the recent-trades table and the download button (131-155): UI and I/O. The sidebar's resample and band options do not affect any computed value.
- Numeric values of the fractional power in CAGR, of `sqrt`, of `std` and of the Sharpe quotient: they are irrational in general. The model keeps their exact operands (`CagrRoot`, `VolSqrt`, `SharpeRatio`) and the guards that make them NaN.
- Floating point: all arithmetic is exact over reals. IEEE rounding, infinities and summation order are not modelled.
- pandas NaN handling: the `dropna` of the NAV column (line 71), NaN labels reaching `int(s)` (line 125), and the forward fill inside `pct_change`. Every row is required to have a NAV and an integer label, so the NAV series of the metrics and the table of the diagnostics have the same rows.
- Positive NAV: `ComputeSimpleMetrics`, `PctChange` and `Diagnostics` require NAV values > 0. A zero NAV gives infinities in pandas, which reals cannot represent.
- Timestamps: date parsing and `Timedelta.days` are not modelled. Timestamps are integer day numbers, so the elapsed days are the difference of the last and first day numbers.
- Columns.MentionsNav: case folding covers ASCII letters only; Python's `str.lower` also folds other Unicode letters.
- Purity: every Dafny function is deterministic, so repeated calls on the same input agree; no separate lemma states it.
- Missing `state_hmm` column (streamlit_app.py:117, 128-129): the dashboard shows a notice and computes no diagnostics. The model takes a table that has the label column, so `Diagnostics` is defined only in that case.
- Missing `final_pos_lag` column: the model does not look at column names here. It takes a flag `hasPositions` saying whether the column is present.
