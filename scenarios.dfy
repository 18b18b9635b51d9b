/** Two worked cases of the pipeline: a product sold once is skipped, and a
    product sold on five consecutive days is forecast for the next seven. */
module Scenarios {
  import opened Calendar
  import opened Aggregation
  import opened Features
  import opened Forecasting
  import opened Pipeline

  /** A single sale of a product (say "Salt") gives "not enough data" and no forecast. */
  lemma SingleSaleIsSkipped(e: SaleEvent, fit: Trainer, currentStock: nat)
    ensures ProductOutcome([e], e.product, fit, currentStock) == NotEnoughData(e.product)
  {
    assert SaleDates([e], e.product) == {e.date};
  }

  /** Two sales of one product on the same day add up to one daily total. */
  lemma SameDaySalesAddUp(d: Date, p: string, q1: int, q2: int)
    ensures DailySeries([SaleEvent(d, p, q1), SaleEvent(d, p, q2)], p) == [DailyTotal(d, q1 + q2)]
  {
    var log := [SaleEvent(d, p, q1), SaleEvent(d, p, q2)];
    assert OfProduct(log, p) == log;
    assert log[1..] == [SaleEvent(d, p, q2)];
    assert GroupByDate(log[1..]) == [DailyTotal(d, q2)];
  }

  /** The five-day sales of a product (say "Milk"): 10, 12, 9, 11 and 13 units. */
  function FiveDayLog(d: Date, p: string): seq<SaleEvent> {
    [SaleEvent(d, p, 10), SaleEvent(d + 1, p, 12), SaleEvent(d + 2, p, 9),
     SaleEvent(d + 3, p, 11), SaleEvent(d + 4, p, 13)]
  }

  /** Five consecutive days of sales give five daily totals and four training examples. */
  lemma FiveDaySeries(d: Date, p: string)
    ensures var s := DailySeries(FiveDayLog(d, p), p);
      && |s| == 5
      && s[0] == DailyTotal(d, 10) && s[1] == DailyTotal(d + 1, 12) && s[2] == DailyTotal(d + 2, 9)
      && s[3] == DailyTotal(d + 3, 11) && s[4] == DailyTotal(d + 4, 13)
      && |TrainingSet(s)| == 4
  {
    FiveDayTotals(d, p);
  }

  /** The five events of `FiveDayLog` become one daily total each. */
  lemma FiveDayTotals(d: Date, p: string)
    ensures DailySeries(FiveDayLog(d, p), p) ==
      [DailyTotal(d, 10), DailyTotal(d + 1, 12), DailyTotal(d + 2, 9), DailyTotal(d + 3, 11), DailyTotal(d + 4, 13)]
  {
    var log := FiveDayLog(d, p);
    OfProductOfOwn(log, p);
    FiveDayGroups(d, p);
    assert DailySeries(log, p) == GroupByDate(log);
  }

  /** Grouping `FiveDayLog` by date keeps its five events, one total each. */
  lemma FiveDayGroups(d: Date, p: string)
    ensures GroupByDate(FiveDayLog(d, p)) ==
      [DailyTotal(d, 10), DailyTotal(d + 1, 12), DailyTotal(d + 2, 9), DailyTotal(d + 3, 11), DailyTotal(d + 4, 13)]
  {
    GroupByDateOfAscending(FiveDayLog(d, p));
  }

  /** Five consecutive days of sales are forecast for the seven following days. */
  lemma FiveDayForecast(d: Date, p: string, fit: Trainer, currentStock: nat)
    ensures var o := ProductOutcome(FiveDayLog(d, p), p, fit, currentStock);
      && o.Recommendation?
      && |o.dates| == 7
      && forall k :: 0 <= k < 7 ==> o.dates[k] == d + 5 + k
  {
    FiveDaySeries(d, p);
    RecommendationOf(FiveDayLog(d, p), p, fit, currentStock);
  }
}
