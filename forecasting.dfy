/** The recursive 7-day forecast: one fitted regressor predicts each future
    day in turn, and each prediction becomes the lag of the next day. */
module Forecasting {
  import opened Calendar
  import opened Features

  /** A fitted regressor (the random forest is foreign code: any function of
      the features stands for it). */
  type Regressor = FeatureVector -> real

  /** The number of days forecast. */
  const Horizon: nat := 7

  /** `pd.date_range(start, periods=n)`: `n` consecutive days from `start`. */
  function DateRange(start: Date, n: nat): (r: seq<Date>)
    ensures |r| == n
    ensures forall k :: 0 <= k < n ==> r[k] == start + k
  {
    seq(n, k requires 0 <= k => start + k)
  }

  /** The forecast dates are consecutive calendar days, the first being the
      calendar day after `last`. */
  lemma FutureDatesConsecutive(last: Date, n: nat)
    ensures var r := DateRange(last + 1, n);
      (n > 0 ==> CivilFromDays(r[0]) == NextCivil(CivilFromDays(last))) &&
      forall k :: 0 <= k < n - 1 ==> CivilFromDays(r[k + 1]) == NextCivil(CivilFromDays(r[k]))
  {
    var r := DateRange(last + 1, n);
    NextDay(last);
    forall k | 0 <= k < n - 1 ensures CivilFromDays(r[k + 1]) == NextCivil(CivilFromDays(r[k])) {
      assert r[k + 1] == r[k] + 1;
      NextDay(r[k]);
    }
  }

  /** The lag of the next forecast step, given the predictions made so far. */
  function NextLag(prev: seq<real>, lag0: real): real {
    if prev == [] then lag0 else prev[|prev| - 1]
  }

  /** Specification of the recursive forecast: the predictions for `dates`,
      where the first date's lag is `lag0` and every later date's lag is the
      prediction made just before it. */
  function Predictions(predict: Regressor, dates: seq<Date>, lag0: real): (r: seq<real>)
    ensures |r| == |dates|
    decreases |dates|
  {
    if dates == [] then []
    else
      var prev := Predictions(predict, dates[..|dates| - 1], lag0);
      prev + [predict(FeaturesAt(dates[|dates| - 1], NextLag(prev, lag0)))]
  }

  /** One more forecast day appends one prediction and changes none before it. */
  lemma PredictionsSnoc(predict: Regressor, dates: seq<Date>, d: Date, lag0: real)
    ensures Predictions(predict, dates + [d], lag0) ==
      Predictions(predict, dates, lag0) + [predict(FeaturesAt(d, NextLag(Predictions(predict, dates, lag0), lag0)))]
  {
    assert (dates + [d])[..|dates|] == dates;
  }

  /** Extending a prefix of the forecast dates by one date extends its predictions by one. */
  lemma PredictionsPrefix(predict: Regressor, dates: seq<Date>, k: nat, lag0: real)
    requires k < |dates|
    ensures Predictions(predict, dates[..k + 1], lag0) ==
      Predictions(predict, dates[..k], lag0)
        + [predict(FeaturesAt(dates[k], NextLag(Predictions(predict, dates[..k], lag0), lag0)))]
  {
    assert dates[..k + 1] == dates[..k] + [dates[k]];
    PredictionsSnoc(predict, dates[..k], dates[k], lag0);
  }

  /** `ys` obeys the lag-feeding rule over `dates`: the value of day `k` is
      predicted with `lag0` as lag on the first day and with the value of day
      `k - 1` on every later day. */
  predicate LagFed(predict: Regressor, dates: seq<Date>, lag0: real, ys: seq<real>)
    requires |ys| == |dates|
  {
    forall k {:trigger dates[k]} :: 0 <= k < |dates| ==>
      ys[k] == predict(FeaturesAt(dates[k], if k == 0 then lag0 else ys[k - 1]))
  }

  /** Lag feeding: the forecast's first step is predicted from the last
      observed sales and step `k + 1` from the prediction of step `k`, never
      from an observed value; and the forecast is the only sequence that
      follows this rule. */
  lemma LagFeeding(predict: Regressor, dates: seq<Date>, lag0: real, ys: seq<real>)
    requires |ys| == |dates|
    ensures LagFed(predict, dates, lag0, ys) <==> ys == Predictions(predict, dates, lag0)
  {
    if LagFed(predict, dates, lag0, ys) {
      LagFedUnique(predict, dates, lag0, ys);
    }
    PredictionsLagFed(predict, dates, lag0);
  }

  /** The forecast follows the lag-feeding rule. */
  lemma {:induction false} PredictionsLagFed(predict: Regressor, dates: seq<Date>, lag0: real)
    ensures LagFed(predict, dates, lag0, Predictions(predict, dates, lag0))
    decreases |dates|
  {
    if dates != [] {
      var n := |dates| - 1;
      var init := dates[..n];
      var ys, prev := Predictions(predict, dates, lag0), Predictions(predict, init, lag0);
      assert dates == init + [dates[n]];
      PredictionsSnoc(predict, init, dates[n], lag0);
      PredictionsLagFed(predict, init, lag0);
      assert NextLag(prev, lag0) == if n == 0 then lag0 else ys[n - 1];
      forall k | 0 <= k < |dates|
        ensures ys[k] == predict(FeaturesAt(dates[k], if k == 0 then lag0 else ys[k - 1]))
      {
        if k < n {
          assert init[k] == dates[k] && prev[k] == ys[k];
        }
      }
    }
  }

  /** No other sequence follows the lag-feeding rule. */
  lemma LagFedUnique(predict: Regressor, dates: seq<Date>, lag0: real, ys: seq<real>)
    requires |ys| == |dates|
    requires LagFed(predict, dates, lag0, ys)
    ensures ys == Predictions(predict, dates, lag0)
  {
    var zs := Predictions(predict, dates, lag0);
    PredictionsLagFed(predict, dates, lag0);
    forall k | 0 <= k < |dates| ensures ys[k] == zs[k] {
      LagFedAgree(predict, dates, lag0, ys, zs, k);
    }
  }

  /** Two sequences that both follow the lag-feeding rule agree at every step. */
  lemma {:induction false} LagFedAgree(predict: Regressor, dates: seq<Date>, lag0: real, ys: seq<real>, zs: seq<real>, k: nat)
    requires |ys| == |dates| && |zs| == |dates|
    requires LagFed(predict, dates, lag0, ys) && LagFed(predict, dates, lag0, zs)
    requires k < |dates|
    ensures ys[k] == zs[k]
  {
    if k > 0 {
      LagFedAgree(predict, dates, lag0, ys, zs, k - 1);
    }
    var d := dates[k];
  }

  /** The forecast loop: `recentSales` starts with the last observed sales
      and, like the predictions, grows by one value per forecast day. */
  method RecursiveForecast(predict: Regressor, lastDate: Date, lastSales: real)
    returns (futureDates: seq<Date>, futurePreds: seq<real>, recentSales: seq<real>)
    ensures futureDates == DateRange(lastDate + 1, Horizon)
    ensures futurePreds == Predictions(predict, futureDates, lastSales)
    ensures |futurePreds| == Horizon && recentSales == [lastSales] + futurePreds
    ensures LagFed(predict, futureDates, lastSales, futurePreds)
  {
    futureDates := DateRange(lastDate + 1, Horizon);
    recentSales := [lastSales];
    futurePreds := [];
    for k := 0 to |futureDates|
      invariant |futurePreds| == k
      invariant recentSales == [lastSales] + futurePreds
      invariant futurePreds == Predictions(predict, futureDates[..k], lastSales)
    {
      var date := futureDates[k];
      var features := FeaturesAt(date, recentSales[|recentSales| - 1]);
      var pred := predict(features);
      assert recentSales[|recentSales| - 1] == NextLag(futurePreds, lastSales);
      PredictionsPrefix(predict, futureDates, k, lastSales);
      futurePreds := futurePreds + [pred];
      recentSales := recentSales + [pred];
    }
    assert futureDates[..|futureDates|] == futureDates;
    LagFeeding(predict, futureDates, lastSales, futurePreds);
  }
}
