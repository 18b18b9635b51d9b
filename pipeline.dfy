/** The "Forecast & Order Suggestion" pipeline: for every product of the
    sales log, its daily series, training set, 7-day forecast, policy and
    order decision, or the reason it was skipped. */
module Pipeline {
  import opened Calendar
  import opened Aggregation
  import opened Features
  import opened Forecasting
  import opened Replenishment

  /** Fitting the regressor to a product's feature vectors and targets (a
      seeded random forest, so the same data always give the same regressor). */
  type Trainer = seq<(FeatureVector, int)> -> Regressor

  /** What the page shows for one product. */
  datatype Outcome =
    | NotEnoughData(product: string)
    | NotEnoughLagData(product: string)
    | Recommendation(product: string, dates: seq<Date>, predictions: seq<real>,
                     policy: Policy, currentStock: int, orderNow: bool)

  /** What the page shows: a prompt for sales when the log is empty, or one
      outcome per product. */
  datatype Page = NoSalesYet | Outcomes(outcomes: seq<Outcome>)

  /** `df['Date'].max()` over the training examples. */
  function LatestDate(examples: seq<Example>): (r: Date)
    requires examples != []
    ensures exists k :: 0 <= k < |examples| && examples[k].date == r
    ensures forall k :: 0 <= k < |examples| ==> examples[k].date <= r
  {
    if |examples| == 1 then examples[0].date
    else
      var rest := LatestDate(examples[1..]);
      assert forall k :: 1 <= k < |examples| ==> examples[k] == examples[1..][k - 1];
      if examples[0].date >= rest then examples[0].date else rest
  }

  /** The pipeline for product `p` with the user's `currentStock`. */
  function ProductOutcome(log: seq<SaleEvent>, p: string, fit: Trainer, currentStock: nat): (r: Outcome)
    ensures r.product == p
    ensures r.NotEnoughData? <==> |DailySeries(log, p)| < 2
    ensures !r.NotEnoughLagData?
  {
    SeriesOutcome(p, DailySeries(log, p), fit, currentStock)
  }

  /** The pipeline once product `p`'s daily series is built: the two-date
      check, the training set, the forecast, the policy and the decision. */
  function SeriesOutcome(p: string, series: seq<DailyTotal>, fit: Trainer, currentStock: nat): (r: Outcome)
    ensures r.product == p
    ensures r.NotEnoughData? <==> |series| < 2
    ensures !r.NotEnoughLagData?
    ensures r.Recommendation? ==>
      && |r.dates| == Horizon && |r.predictions| == Horizon
      && r.currentStock == currentStock
      && (r.orderNow <==> (currentStock as real) < r.policy.reorderPoint)
  {
    if |series| < 2 then NotEnoughData(p)
    else
      var examples := TrainingSet(series);
      if examples == [] then NotEnoughLagData(p)
      else
        var predict := fit(FitData(examples));
        var lastDate := LatestDate(examples);
        var lastSales := examples[|examples| - 1].y as real;
        var dates := DateRange(lastDate + 1, Horizon);
        var preds := Predictions(predict, dates, lastSales);
        var policy := ForecastPolicy(preds);
        Recommendation(p, dates, preds, policy, currentStock, ShouldOrderNow(currentStock, policy.reorderPoint))
  }

  /** The products of `s` other than `x`, in order. */
  function Without(s: seq<string>, x: string): (r: seq<string>)
    ensures forall y :: y in r <==> y in s && y != x
  {
    if s == [] then [] else (if s[0] == x then [] else [s[0]]) + Without(s[1..], x)
  }

  lemma {:induction false} WithoutDistinct(s: seq<string>, x: string)
    requires Distinct(s)
    ensures Distinct(Without(s, x))
  {
    if s != [] {
      assert Distinct(s[1..]) by {
        forall i, j | 0 <= i < j < |s| - 1 ensures s[1..][i] != s[1..][j] {
          assert s[1..][i] == s[i + 1] && s[1..][j] == s[j + 1];
        }
      }
      WithoutDistinct(s[1..], x);
      if s[0] != x {
        assert s[0] !in s[1..];
        DistinctCons(s[0], Without(s[1..], x));
      }
    }
  }

  predicate Distinct(s: seq<string>) {
    forall i, j :: 0 <= i < j < |s| ==> s[i] != s[j]
  }

  lemma DistinctCons(x: string, s: seq<string>)
    requires Distinct(s) && x !in s
    ensures Distinct([x] + s)
  {
    forall i, j | 0 <= i < j < |s| + 1 ensures ([x] + s)[i] != ([x] + s)[j] {
      if i == 0 {
        assert ([x] + s)[j] == s[j - 1];
      } else {
        assert ([x] + s)[i] == s[i - 1] && ([x] + s)[j] == s[j - 1];
      }
    }
  }

  /** `data['Product'].unique()`: each product of the log once, in order of
      first appearance. */
  function Products(log: seq<SaleEvent>): (r: seq<string>)
    ensures Distinct(r)
    ensures forall p :: p in r <==> exists e :: e in log && e.product == p
  {
    if log == [] then []
    else
      var rest := Products(log[1..]);
      assert forall e :: e in log <==> e == log[0] || e in log[1..];
      WithoutDistinct(rest, log[0].product);
      DistinctCons(log[0].product, Without(rest, log[0].product));
      [log[0].product] + Without(rest, log[0].product)
  }

  /** The whole page for the sales log, with `stockOf(p)` the stock the user
      entered for product `p`. */
  function ForecastPage(log: seq<SaleEvent>, fit: Trainer, stockOf: string -> nat): (r: Page)
    ensures r.NoSalesYet? <==> log == []
    ensures r.Outcomes? ==>
      && |r.outcomes| == |Products(log)|
      && forall i :: 0 <= i < |r.outcomes| ==> r.outcomes[i].product == Products(log)[i]
  {
    if log == [] then NoSalesYet
    else
      var products := Products(log);
      Outcomes(seq(|products|, i requires 0 <= i < |products| =>
        ProductOutcome(log, products[i], fit, stockOf(products[i]))))
  }

  /** The latest training date is the last date of the series. */
  lemma LatestDateIsLast(s: seq<DailyTotal>)
    requires |s| >= 2 && StrictlyAscending(s)
    ensures TrainingSet(s) != []
    ensures LatestDate(TrainingSet(s)) == s[|s| - 1].date
  {
    var examples, n := TrainingSet(s), |s| - 1;
    TrainingDates(s);
    assert examples[n - 1].date == s[n].date;
    forall j | 0 <= j < |examples| ensures examples[j].date <= s[n].date {
      assert examples[j].date == s[j + 1].date;
    }
  }

  /** `o` is a recommendation for the 7 days after the last date of series
      `s`, forecast by the regressor fitted on the training set of `s`, with
      the last day's sales as the first lag. */
  predicate ForecastFrom(o: Outcome, s: seq<DailyTotal>, fit: Trainer) {
    && s != []
    && o.Recommendation?
    && o.dates == DateRange(s[|s| - 1].date + 1, Horizon)
    && o.predictions == Predictions(fit(FitData(TrainingSet(s))), o.dates, s[|s| - 1].sales as real)
  }

  /** A product with a series of two or more dates gets a recommendation
      forecast from its last date and last day's sales. */
  lemma RecommendationOf(log: seq<SaleEvent>, p: string, fit: Trainer, currentStock: nat)
    requires |DailySeries(log, p)| >= 2
    ensures ForecastFrom(ProductOutcome(log, p, fit, currentStock), DailySeries(log, p), fit)
  {
    var s := DailySeries(log, p);
    SeriesAscending(log, p);
    SeriesRecommendation(p, s, fit, currentStock);
    assert ProductOutcome(log, p, fit, currentStock) == SeriesOutcome(p, s, fit, currentStock);
  }

  /** A strictly ascending series of two or more dates gets a recommendation
      forecast from its last date and last day's sales. */
  lemma SeriesRecommendation(p: string, s: seq<DailyTotal>, fit: Trainer, currentStock: nat)
    requires |s| >= 2 && StrictlyAscending(s)
    ensures ForecastFrom(SeriesOutcome(p, s, fit, currentStock), s, fit)
  {
    LatestDateIsLast(s);
    LastExample(s);
    var examples := TrainingSet(s);
    var lastDate, lastSales := LatestDate(examples), examples[|examples| - 1].y as real;
    assert lastDate == s[|s| - 1].date && lastSales == s[|s| - 1].sales as real;
    var dates := DateRange(lastDate + 1, Horizon);
    assert SeriesOutcome(p, s, fit, currentStock).dates == dates;
    assert SeriesOutcome(p, s, fit, currentStock).predictions == Predictions(fit(FitData(examples)), dates, lastSales);
  }

  /** The last date of the series is the latest sale date of the product,
      and its sales are the total sold on that date. */
  lemma LastOfSeries(log: seq<SaleEvent>, p: string)
    requires DailySeries(log, p) != []
    ensures var s := DailySeries(log, p);
      var last := s[|s| - 1].date;
      && last in SaleDates(log, p)
      && (forall d :: d in SaleDates(log, p) ==> d <= last)
      && s[|s| - 1].sales == TotalSold(log, p, last)
  {
    var s := DailySeries(log, p);
    DailySeriesCorrect(log, p);
    var last := s[|s| - 1].date;
    assert s[|s| - 1] in s;
    forall d | d in SaleDates(log, p) ensures d <= last {
      var t :| t in s && t.date == d;
      var i :| 0 <= i < |s| && s[i] == t;
    }
  }

  /** The forecast of a product sold on two or more dates: exactly 7
      consecutive dates starting the day after its latest sale date; 7
      predictions made by the regressor fitted on its training set, the first
      with the total sold on that latest date as lag and each later one with
      the prediction before it. */
  lemma ForecastShape(log: seq<SaleEvent>, p: string, fit: Trainer, currentStock: nat)
    requires |SaleDates(log, p)| >= 2
    ensures var o := ProductOutcome(log, p, fit, currentStock);
      var s := DailySeries(log, p);
      var last := s[|s| - 1].date;
      && o.Recommendation?
      && last in SaleDates(log, p)
      && (forall d :: d in SaleDates(log, p) ==> d <= last)
      && |o.dates| == Horizon
      && (forall k :: 0 <= k < Horizon ==> o.dates[k] == last + 1 + k)
      && |o.predictions| == Horizon
      && LagFed(fit(FitData(TrainingSet(s))), o.dates, TotalSold(log, p, last) as real, o.predictions)
  {
    var s := DailySeries(log, p);
    SeriesLength(log, p);
    SeriesAscending(log, p);
    LastOfSeries(log, p);
    SeriesForecastShape(p, s, fit, currentStock);
    var o, last := ProductOutcome(log, p, fit, currentStock), s[|s| - 1].date;
    assert o == SeriesOutcome(p, s, fit, currentStock);
    assert TotalSold(log, p, last) as real == s[|s| - 1].sales as real;
  }

  /** `ForecastShape` once the series is built: the 7 days after its last
      date, forecast from its last day's sales by the lag-feeding rule. */
  lemma SeriesForecastShape(p: string, s: seq<DailyTotal>, fit: Trainer, currentStock: nat)
    requires |s| >= 2 && StrictlyAscending(s)
    ensures var o := SeriesOutcome(p, s, fit, currentStock);
      var last := s[|s| - 1].date;
      && o.Recommendation?
      && |o.dates| == Horizon
      && (forall k :: 0 <= k < Horizon ==> o.dates[k] == last + 1 + k)
      && |o.predictions| == Horizon
      && LagFed(fit(FitData(TrainingSet(s))), o.dates, s[|s| - 1].sales as real, o.predictions)
  {
    SeriesRecommendation(p, s, fit, currentStock);
    var o := SeriesOutcome(p, s, fit, currentStock);
    var predict, lag0 := fit(FitData(TrainingSet(s))), s[|s| - 1].sales as real;
    LagFeeding(predict, o.dates, lag0, o.predictions);
  }

  /** The skip rule in terms of the log: a product is reported as "not enough
      data" exactly when it was sold on fewer than two distinct dates. */
  lemma SkipRule(log: seq<SaleEvent>, p: string, fit: Trainer, currentStock: nat)
    ensures ProductOutcome(log, p, fit, currentStock).NotEnoughData? <==> |SaleDates(log, p)| < 2
  {
    SeriesLength(log, p);
  }

  /** The policy and decision of a forecast: the average demand is the mean of
      the 7 predictions, the reorder point three times it, the EOQ's square
      `2 * avg * 365 * 50 / 1`, and "order now" holds exactly when the current
      stock is strictly below the reorder point. */
  lemma PolicyDecision(log: seq<SaleEvent>, p: string, fit: Trainer, currentStock: nat)
    requires ProductOutcome(log, p, fit, currentStock).Recommendation?
    ensures var o := ProductOutcome(log, p, fit, currentStock);
      && |o.predictions| == Horizon
      && o.policy.averageDemand * 7.0 == Sum(o.predictions)
      && o.policy.reorderPoint == 3.0 * o.policy.averageDemand
      && o.policy.eoqSquare == 2.0 * o.policy.averageDemand * 365.0 * 50.0 / 1.0
      && o.currentStock == currentStock
      && (o.orderNow <==> (currentStock as real) < o.policy.reorderPoint)
      && (o.orderNow <==> 7.0 * (currentStock as real) < 3.0 * Sum(o.predictions))
  {
    var o := ProductOutcome(log, p, fit, currentStock);
    var avg := o.policy.averageDemand;
    assert 7.0 * (currentStock as real) < 3.0 * Sum(o.predictions)
       <==> (currentStock as real) < 3.0 * avg;
  }

  /** Products are independent: a product's outcome depends only on its own
      sales, not on those of any other product. */
  lemma ProductIndependence(log: seq<SaleEvent>, p: string, fit: Trainer, currentStock: nat)
    ensures ProductOutcome(log, p, fit, currentStock) == ProductOutcome(OfProduct(log, p), p, fit, currentStock)
  {
    OfProductIdempotent(log, p);
  }

  /** Reordering the log, as the sort by date does, changes no product's
      outcome and not which products are on the page; only their order. */
  lemma ReorderedLog(a: seq<SaleEvent>, b: seq<SaleEvent>, p: string, fit: Trainer, currentStock: nat)
    requires multiset(a) == multiset(b)
    ensures ProductOutcome(a, p, fit, currentStock) == ProductOutcome(b, p, fit, currentStock)
    ensures forall q :: q in Products(a) <==> q in Products(b)
  {
    SeriesOfPermutedLog(a, b, p);
    forall e ensures e in a <==> e in b {
      assert e in a <==> e in multiset(a);
      assert e in b <==> e in multiset(b);
    }
  }

  /** Each outcome on the page is the outcome of its own product's pipeline. */
  lemma PageOutcomes(log: seq<SaleEvent>, fit: Trainer, stockOf: string -> nat)
    requires log != []
    ensures var outs := ForecastPage(log, fit, stockOf).outcomes;
      forall i :: 0 <= i < |outs| ==>
        outs[i] == ProductOutcome(log, Products(log)[i], fit, stockOf(Products(log)[i]))
  {
  }

  /** No outcome is about a product that was never sold, and no product gets
      two outcomes. */
  lemma PageProductsSold(log: seq<SaleEvent>, fit: Trainer, stockOf: string -> nat)
    requires log != []
    ensures var outs := ForecastPage(log, fit, stockOf).outcomes;
      && (forall i :: 0 <= i < |outs| ==> exists e :: e in log && e.product == outs[i].product)
      && (forall i, j :: 0 <= i < j < |outs| ==> outs[i].product != outs[j].product)
  {
    var products := Products(log);
    var outs := ForecastPage(log, fit, stockOf).outcomes;
    PageOutcomes(log, fit, stockOf);
    forall i | 0 <= i < |outs| ensures exists e :: e in log && e.product == outs[i].product {
      assert products[i] in products;
    }
  }

  /** Every product of the log gets the outcome of its own pipeline, whether
      other products were skipped or not. */
  lemma PageCoversProducts(log: seq<SaleEvent>, fit: Trainer, stockOf: string -> nat)
    requires log != []
    ensures forall e :: e in log ==>
      ProductOutcome(log, e.product, fit, stockOf(e.product)) in ForecastPage(log, fit, stockOf).outcomes
  {
    var products := Products(log);
    var outs := ForecastPage(log, fit, stockOf).outcomes;
    PageOutcomes(log, fit, stockOf);
    forall e | e in log
      ensures ProductOutcome(log, e.product, fit, stockOf(e.product)) in outs
    {
      assert e.product in products;
      var i :| 0 <= i < |products| && products[i] == e.product;
      assert outs[i] == ProductOutcome(log, e.product, fit, stockOf(e.product));
    }
  }
}
