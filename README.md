# Inventory forecast and order suggestion — a Dafny model

This project models the "Forecast & Order Suggestion" page of the Smart
Shopkeeper Assistant (`inventory_forecasting_app.py`) and proves properties
of that model. The page turns a log of sale events (date, product, quantity)
into the following, for every product:

- a daily sales series, one total per distinct sale date;
- a training set with the calendar features `Day`, `Month` and `Weekday` and
  the previous recorded day's sales `Lag_1`;
- a 7-day forecast, made one day at a time, in which each prediction becomes
  the lag of the next day;
- an average daily demand, a reorder point (3 days of lead time) and an
  economic order quantity (ordering cost 50, holding cost 1, 365 days a
  year);
- an "order now" decision, made against the stock the user types in.

A product that was sold on fewer than two distinct dates is skipped with
"not enough data". The page has one more skip branch, "not enough lag data",
which the model proves can never be taken.

The model has seven modules:

- `Calendar`
  - A date is a natural number: the days since 0001-01-01 in the proleptic
    Gregorian calendar, so day 0 is a Monday.
  - Day and month come from a recursive conversion of the day count to
    (year, month, day), and both directions of that conversion are proved to
    be round trips. The weekday is the day count modulo 7.
- `Aggregation`
  - Selects one product's events.
  - Groups them by date into a strictly ascending series of daily totals.
- `Features`
  - `shift(1)`, the feature rows, `dropna` and the training examples.
- `Forecasting`
  - The date range.
  - The recursive forecast, first as a specification function and then as a
    method with a loop that is proved against it.
- `Replenishment`
  - The mean, the reorder point, the EOQ and the decision.
  - The EOQ is a square root, so the model keeps its square and the
    predicate `IsEoq` says which non-negative real is the EOQ.
- `Pipeline`
  - One product's outcome and the whole page.
- `Scenarios`
  - Worked cases: a product sold once, two sales on the same day, and five
    consecutive days of sales.

These parts are parameters of the model:

- The random forest is code the model cannot see. A fitted regressor is any
  function from feature vectors to reals (`Forecasting.Regressor`).
- Fitting is any function from the training inputs and targets to a regressor
  (`Pipeline.Trainer`). It sees the feature vectors `(Day, Month, Weekday,
  Lag_1)` and the sales targets, not the dates (`Features.FitData`). The
  forest is seeded (`random_state=42`), so the same data always give the
  same regressor.
- The current stock is entered per product. It is a natural number (the
  input widget has minimum 0 and default 0), and the page takes it as a
  function `stockOf` from products to stock.

## Model

| member | source | states |
|---|---|---|
| Calendar.CivilFromDays | inventory_forecasting_app.py:96-98 | every day count names one valid calendar date, and converting that date back gives the same day count |
| Calendar.CivilRoundTrip | inventory_forecasting_app.py:96-97 | every valid calendar date converts to a day count and back to itself, so the `Day` and `Month` columns are the date's own day and month |
| Calendar.DayOf | inventory_forecasting_app.py:96 | the `Day` feature is between 1 and 31 |
| Calendar.MonthOf | inventory_forecasting_app.py:97 | the `Month` feature is between 1 and 12 |
| Calendar.WeekdayOf | inventory_forecasting_app.py:98 | the `Weekday` feature is between 0 (Monday) and 6 (Sunday) |
| Calendar.NextDay | inventory_forecasting_app.py:113 | the day count after `n` is the calendar successor of `n`'s date, across month and year ends and leap days, and its weekday is the next one modulo 7 |
| Calendar.NextCivilDays | inventory_forecasting_app.py:113 | the calendar successor of a valid date is a valid date and exactly one day count later |
| Calendar.WeekdayStep | inventory_forecasting_app.py:98 | the weekday of the next day is the next weekday, with Sunday followed by Monday (the weekday half of `Calendar.NextDay`, kept as its own step of that proof) |
| Calendar.LeapDaysStep | inventory_forecasting_app.py:96-98 | one more year adds 365 days, plus one if it is a leap year |
| Calendar.DaysBeforeYearClosedForm | inventory_forecasting_app.py:96-98 | the days before a year follow the Gregorian leap-year rule: 365 each year, plus one every fourth year, minus the centuries, plus every fourth century |
| Calendar.FirstOf2024IsMonday | inventory_forecasting_app.py:98 | on this day convention, 1 January 2024 has weekday 0 (Monday), as `weekday()` gives |
| Aggregation.OfProduct | inventory_forecasting_app.py:88 | the product filter keeps only events of that product, every one of them, and no more events than the log has |
| Aggregation.OfProductCounts | inventory_forecasting_app.py:88 | the product filter keeps every copy of each of the product's events, so a sale recorded twice stays twice, and no copy of another product's events |
| Aggregation.AddSale | inventory_forecasting_app.py:89 | adding one sale to a series adds its date to the series' dates |
| Aggregation.AddSaleSalesOn | inventory_forecasting_app.py:89 | adding a sale of `q` on date `d` raises the total on `d` by `q` and leaves every other date's total alone |
| Aggregation.AddSaleAscending | inventory_forecasting_app.py:89 | adding a sale keeps the series strictly ascending by date |
| Aggregation.GroupByDate | inventory_forecasting_app.py:89-90 | grouping by date never gives more rows than there are events; `Aggregation.GroupByDateCorrect` says which rows it gives |
| Aggregation.GroupByDateCorrect | inventory_forecasting_app.py:89-90 | grouping by date gives a strictly ascending series with one entry per distinct event date, and each entry's `Sales` is the sum of that date's quantities |
| Aggregation.DailySeries | inventory_forecasting_app.py:88-90 | a product's daily series never has more rows than the log; `Aggregation.DailySeriesCorrect` gives its content |
| Aggregation.TotalSold | inventory_forecasting_app.py:88-89 | reference definition: the total quantity of product `p` sold on date `d`, summed over the whole log; `Aggregation.DailySeriesCorrect` compares the series with it |
| Aggregation.SaleDates | inventory_forecasting_app.py:88-89 | reference definition: the set of dates on which product `p` was sold; `Aggregation.DailySeriesCorrect` compares the series' dates with it |
| Aggregation.QuantityOnOfProduct | inventory_forecasting_app.py:88-89 | summing the quantities of one date over the filtered events gives the product's total sold on that date in the whole log |
| Aggregation.DailySeriesCorrect | inventory_forecasting_app.py:88-90 | a product's series is strictly ascending, holds exactly the product's sale dates, and each entry is the total sold of that product on that date |
| Aggregation.SeriesAscending | inventory_forecasting_app.py:88-90 | a product's series is strictly ascending by date (the first clause of `Aggregation.DailySeriesCorrect`, for proofs that need only that) |
| Aggregation.SeriesLength | inventory_forecasting_app.py:88-92 | `len(df)` is the number of distinct dates on which the product was sold |
| Aggregation.GroupByDateOfAscending | inventory_forecasting_app.py:89 | events whose dates strictly increase are grouped one to one, each becoming a daily total of its own quantity |
| Aggregation.OfProductIdempotent | inventory_forecasting_app.py:88 | filtering a filtered log again changes nothing, so a product's series depends only on its own events |
| Aggregation.AscendingDetermined | inventory_forecasting_app.py:89-90 | two strictly ascending series with the same dates, and the same sales on every common date, are equal |
| Aggregation.TotalSoldPermutation | inventory_forecasting_app.py:80-89 | reordering the log leaves every product's total on every date unchanged |
| Aggregation.SaleDatesPermutation | inventory_forecasting_app.py:80-89 | reordering the log leaves every product's set of sale dates unchanged |
| Aggregation.SeriesOfPermutedLog | inventory_forecasting_app.py:80-90 | reordering the log, as the sort by date does, leaves every product's daily series unchanged |
| Features.Shift | inventory_forecasting_app.py:99 | `shift(1)` keeps the length, the first value is missing, and position `i` holds the value of position `i - 1` |
| Features.FeaturesAt | inventory_forecasting_app.py:119-123 | the feature vector of a date carries the day and month of that very date (with its year they form a valid calendar date whose day count is the date), its weekday, and the given lag; training rows and forecast steps use this one convention |
| Features.WithFeatures | inventory_forecasting_app.py:96-99 | the frame keeps each row's date and sales, adds that date's day, month and weekday, and a lag that is missing on the first row and is the previous row's sales on every other row |
| Features.DropMissing | inventory_forecasting_app.py:100 | `dropna` never adds rows |
| Features.DropMissingNoneMissing | inventory_forecasting_app.py:100 | a frame with no missing lag keeps every row, in order |
| Features.TrainingSet | inventory_forecasting_app.py:96-100 | the training set has one example fewer than the series has dates, and none for an empty series |
| Features.FitData | inventory_forecasting_app.py:106-110 | the regressor is given, per example and in order, the feature vector `X` and the target `y`, and nothing else |
| Features.LagAlignment | inventory_forecasting_app.py:96-100 | the training set has one example per series position `i >= 1`; its target is the sales at `i`, its calendar features are those of that date, and its lag is the sales at `i - 1`, whatever the gap between the two dates |
| Features.TrainingDates | inventory_forecasting_app.py:100-112 | example `i` is dated as series position `i + 1` (a case of `Features.LagAlignment`) |
| Features.EnoughLagData | inventory_forecasting_app.py:100-104 | a series with two or more dates leaves at least one training example (a corollary of the length clause of `Features.TrainingSet`) |
| Features.LastExample | inventory_forecasting_app.py:112-115 | the last training example is the last date of the series, together with that date's sales (the last position of `Features.LagAlignment`) |
| Forecasting.DateRange | inventory_forecasting_app.py:113 | the date range has `n` dates, the `k`-th being `start + k` |
| Forecasting.FutureDatesConsecutive | inventory_forecasting_app.py:112-113 | the first forecast date is the calendar day after the last date, and each later forecast date is the calendar day after the one before it |
| Forecasting.Predictions | inventory_forecasting_app.py:118-127 | the forecast makes one prediction per forecast date |
| Forecasting.PredictionsSnoc | inventory_forecasting_app.py:118-127 | one more forecast date appends one prediction, made with the last prediction so far as lag, and changes none of the earlier predictions |
| Forecasting.LagFeeding | inventory_forecasting_app.py:115-127 | a sequence of predicted values is the forecast exactly when day 0 was predicted with the last observed sales as lag and each day `k + 1` with the value of day `k` |
| Forecasting.RecursiveForecast | inventory_forecasting_app.py:112-127 | the loop gives the 7 dates after the last date and their forecast; `recent_sales` ends as the last observed sales followed by the 7 predictions; and every step after the first uses the previous prediction, never an observed value |
| Replenishment.Mean | inventory_forecasting_app.py:132 | the mean multiplied by the count is the sum |
| Replenishment.PolicyFor | inventory_forecasting_app.py:132-134 | the policy keeps the average demand, the reorder point is 3 days of it, and the EOQ's square is `2 * 365 * 50 / 1 = 36500` times it |
| Replenishment.ForecastPolicy | inventory_forecasting_app.py:132-134 | the policy of a forecast has the mean of its predictions as average demand (times the count it is their sum), the lead time of 3 days times it as reorder point, and `2 * avg * 365 * 50 / 1` as the EOQ's square |
| Replenishment.ShouldOrderNow | inventory_forecasting_app.py:141 | "order now" (the stock strictly below the reorder point) holds exactly when the whole-unit stock is below the reorder point rounded up to a whole unit |
| Replenishment.Ceiling | inventory_forecasting_app.py:141 | the rounded-up reorder point is the least integer not below it |
| Replenishment.SumBounds | inventory_forecasting_app.py:132 | values that lie in `[lo, hi]` have a sum between `n * lo` and `n * hi` |
| Replenishment.MeanBounds | inventory_forecasting_app.py:132 | the average demand lies between any lower and any upper bound of the predictions |
| Replenishment.EoqUnique | inventory_forecasting_app.py:134 | the EOQ, when one exists, is unique |
| Replenishment.NoEoqForNegativeDemand | inventory_forecasting_app.py:134 | a negative average demand has no real EOQ (`np.sqrt` of it is NaN) |
| Replenishment.EoqZero | inventory_forecasting_app.py:134 | the EOQ is zero exactly when the average demand is zero |
| Replenishment.PolicyMonotone | inventory_forecasting_app.py:133-134 | for non-negative demands, a larger average demand never gives a lower reorder point or a lower EOQ |
| Pipeline.LatestDate | inventory_forecasting_app.py:112 | `df['Date'].max()` is one of the examples' dates, and no example's date is later |
| Pipeline.Without | inventory_forecasting_app.py:85 | removing a product keeps exactly the other products |
| Pipeline.Products | inventory_forecasting_app.py:85 | the products iterated over are distinct, and they are exactly the products that appear in the log |
| Pipeline.SeriesOutcome | inventory_forecasting_app.py:92-141 | once the series is built, the outcome is about the product; it is "not enough data" exactly when the series has fewer than two dates; "not enough lag data" never happens; and a recommendation has 7 dates, 7 predictions, the entered stock, and "order now" exactly when that stock is strictly below its reorder point |
| Pipeline.ProductOutcome | inventory_forecasting_app.py:85-141 | the outcome for a product is about that product; it is "not enough data" exactly when the series has fewer than two rows; and "not enough lag data" never happens |
| Pipeline.SkipRule | inventory_forecasting_app.py:92-94 | a product is reported as "not enough data" exactly when it was sold on fewer than two distinct dates |
| Pipeline.LatestDateIsLast | inventory_forecasting_app.py:112 | the latest training date is the last date of the series |
| Pipeline.SeriesRecommendation | inventory_forecasting_app.py:92-127 | once the series is built, a strictly ascending series of two or more dates gives a recommendation whose dates are the 7 days after its last date and whose predictions are the forecast of the regressor fitted on its training set, starting from the last day's sales |
| Pipeline.RecommendationOf | inventory_forecasting_app.py:106-134 | a series of two or more dates gives a recommendation, forecast for the 7 days after the series' last date by the regressor fitted on its training set, with that last day's sales as the first lag |
| Pipeline.LastOfSeries | inventory_forecasting_app.py:112-115 | the series' last date is the product's latest sale date, and its sales are the total sold on that date |
| Pipeline.ForecastShape | inventory_forecasting_app.py:92-127 | a product sold on two or more dates gets exactly 7 forecast dates, `last + 1` to `last + 7`, with `last` its latest sale date, and 7 predictions that follow the lag-feeding rule, starting from the total sold on `last` |
| Pipeline.PolicyDecision | inventory_forecasting_app.py:132-144 | the average demand is the sum of the 7 predictions divided by 7; the reorder point is 3 times it; the EOQ's square is `2 * avg * 365 * 50 / 1`; and "order now" holds exactly when the integer stock is strictly below the reorder point, which means 7 times the stock is below 3 times the predicted sum |
| Pipeline.ProductIndependence | inventory_forecasting_app.py:85-88 | a product's outcome is the same whether it is computed from the whole log or from that product's events alone |
| Pipeline.ForecastPage | inventory_forecasting_app.py:74-86 | an empty log shows only the prompt for sales; otherwise the page has one outcome per product, about that product, in the order the products are iterated |
| Pipeline.PageOutcomes | inventory_forecasting_app.py:85-141 | each outcome on the page is the outcome of its own product's pipeline |
| Pipeline.ReorderedLog | inventory_forecasting_app.py:80-88 | reordering the log, as the sort by date does, changes no product's outcome and not which products are on the page |
| Pipeline.PageProductsSold | inventory_forecasting_app.py:85-86 | every outcome on the page is about a product that was sold, and no product gets two outcomes |
| Pipeline.PageCoversProducts | inventory_forecasting_app.py:85-104 | every sold product's own pipeline outcome is on the page, whether or not other products were skipped (`continue`) |
| Scenarios.SingleSaleIsSkipped | inventory_forecasting_app.py:92-94 | a product sold once is reported as "not enough data" |
| Scenarios.SameDaySalesAddUp | inventory_forecasting_app.py:89 | two sales on the same day become one daily total of their sum |
| Scenarios.FiveDaySeries | inventory_forecasting_app.py:88-100 | five consecutive days of sales of 10, 12, 9, 11 and 13 units give those five daily totals and four training examples |
| Scenarios.FiveDayForecast | inventory_forecasting_app.py:112-113 | those five days give a recommendation whose 7 forecast dates are the 7 days after the fifth day |

## Left out

- The Streamlit interface is not modelled: titles, warnings, markdown, the forecast table (lines 129-130) and `st.stop`. The model returns the page's content as values (`Outcome`, `Page`).
- The "Sales Entry" page and the session-state sales log (lines 10-66) are not modelled. The log is an input sequence of sale events.
- Random-forest training and prediction (lines 106-110, 125) are foreign code. They are the parameters `Trainer` and `Regressor`, and nothing is assumed of them.
- Floating point is not modelled. Sales, lags, predictions and the policy are exact reals and integers. `np.round` of the shown predictions and the `:.0f` formatting are left out.
- `np.sqrt` in the EOQ (line 134) is not computed. The model keeps the EOQ's square and the predicate `IsEoq`, with the lemmas on uniqueness, zero, negative demand and monotonicity.
- `pd.to_datetime` (line 80) is not modelled: dates are day counts from the start. Times of day and pandas' limited Timestamp range (years 1677 to 2262) are left out.
- The sort by date (line 81) is not modelled as a step. Any reordering of the log leaves each product's series and outcome unchanged (`Aggregation.SeriesOfPermutedLog`, `Pipeline.ReorderedLog`), so the sort can only change the order of products on the page. The model lists products in order of first appearance in the log as given, not in the order the sorted frame yields.
- Aggregation.GroupByDate: its own contract states only a length bound; what it computes is stated by `Aggregation.GroupByDateCorrect`.
- Aggregation.DailySeries: its own contract states only a length bound; what it computes is stated by `Aggregation.DailySeriesCorrect`.
- Features.DropMissing: its own contract states only that no row is added; which rows stay is stated by `Features.DropMissingNoneMissing` and `Features.LagAlignment`.
- Missing quantities are not modelled: the entry form always supplies one. So `dropna` removes exactly the first row, the one with no lag.
- `Calendar.WeekdayOf` states only the range of the weekday. The successor rule is in `Calendar.NextDay`, which keeps a recursive contract off the function itself.
