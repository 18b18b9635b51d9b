/** Feature construction for one product's daily series: calendar columns
    (`Day`, `Month`, `Weekday`), the previous recorded day's sales (`Lag_1`),
    and the removal of the row that has no lag. */
module Features {
  import opened Calendar
  import opened Aggregation

  /** A value that may be missing (a NaN cell of the frame). */
  datatype Option<T> = None | Some(value: T)

  /** The regressor's input `(Day, Month, Weekday, Lag_1)`. */
  datatype FeatureVector = FeatureVector(day: int, month: int, weekday: int, lag: real)

  /** The calendar features of date `d` with lag value `lag`; training and
      prediction both use this one convention. */
  function FeaturesAt(d: Date, lag: real): (r: FeatureVector)
    ensures var c := Civil(CivilFromDays(d).year, r.month, r.day);
      ValidCivil(c) && DaysFromCivil(c) == d
    ensures r.weekday == WeekdayOf(d) && r.lag == lag
  {
    FeatureVector(DayOf(d), MonthOf(d), WeekdayOf(d), lag)
  }

  /** One row of the frame once its feature columns are added; `lag` is
      missing on the first row. */
  datatype FeatureRow = FeatureRow(date: Date, sales: int, day: int, month: int, weekday: int, lag: Option<real>)

  /** One training example: the feature vector and the target `Sales`. */
  datatype Example = Example(date: Date, x: FeatureVector, y: int)

  /** `Series.shift(1)`: every value moves down one position; the first is missing. */
  function Shift(col: seq<int>): (r: seq<Option<real>>)
    ensures |r| == |col|
    ensures col != [] ==> r[0] == None
    ensures forall i :: 1 <= i < |col| ==> r[i] == Some(col[i - 1] as real)
  {
    if col == [] then []
    else [None] + seq(|col| - 1, i requires 0 <= i < |col| - 1 => Some(col[i] as real))
  }

  function SalesColumn(s: seq<DailyTotal>): (r: seq<int>)
    ensures |r| == |s|
    ensures forall i :: 0 <= i < |s| ==> r[i] == s[i].sales
  {
    seq(|s|, i requires 0 <= i < |s| => s[i].sales)
  }

  /** The series with its `Day`, `Month`, `Weekday` and `Lag_1` columns added. */
  function WithFeatures(s: seq<DailyTotal>): (r: seq<FeatureRow>)
    ensures |r| == |s|
    ensures forall i :: 0 <= i < |s| ==>
      && r[i].date == s[i].date && r[i].sales == s[i].sales
      && r[i].day == DayOf(s[i].date) && r[i].month == MonthOf(s[i].date) && r[i].weekday == WeekdayOf(s[i].date)
      && r[i].lag == if i == 0 then None else Some(s[i - 1].sales as real)
  {
    var lag := Shift(SalesColumn(s));
    assert forall i :: 0 <= i < |s| ==> lag[i] == if i == 0 then None else Some(s[i - 1].sales as real);
    seq(|s|, i requires 0 <= i < |s| =>
      FeatureRow(s[i].date, s[i].sales, DayOf(s[i].date), MonthOf(s[i].date), WeekdayOf(s[i].date), lag[i]))
  }

  /** `dropna`: keeps the rows whose every column is present, as examples. */
  function DropMissing(rows: seq<FeatureRow>): (r: seq<Example>)
    ensures |r| <= |rows|
  {
    if rows == [] then []
    else
      var row := rows[0];
      (match row.lag
       case None => []
       case Some(l) => [Example(row.date, FeatureVector(row.day, row.month, row.weekday, l), row.sales)])
      + DropMissing(rows[1..])
  }

  /** The training examples of a daily series (the frame after `dropna`):
      every position but the first, the only one without a lag. */
  function TrainingSet(s: seq<DailyTotal>): (r: seq<Example>)
    ensures |r| == if s == [] then 0 else |s| - 1
  {
    DropFirstRow(WithFeatures(s));
    DropMissing(WithFeatures(s))
  }

  /** The regressor's inputs and targets: `X = df[['Day', 'Month', 'Weekday',
      'Lag_1']]` and `y = df['Sales']`, without the date. */
  function FitData(examples: seq<Example>): (r: seq<(FeatureVector, int)>)
    ensures |r| == |examples|
    ensures forall i :: 0 <= i < |examples| ==> r[i] == (examples[i].x, examples[i].y)
  {
    seq(|examples|, i requires 0 <= i < |examples| => (examples[i].x, examples[i].y))
  }

  /** A frame whose first row alone misses its lag loses exactly that row. */
  lemma DropFirstRow(rows: seq<FeatureRow>)
    requires rows != [] ==> rows[0].lag == None
    requires forall i :: 1 <= i < |rows| ==> rows[i].lag.Some?
    ensures |DropMissing(rows)| == if rows == [] then 0 else |rows| - 1
  {
    if rows != [] {
      assert DropMissing(rows) == DropMissing(rows[1..]);
      DropMissingNoneMissing(rows[1..]);
    }
  }

  /** When no row misses its lag, `dropna` keeps every row in order. */
  lemma {:induction false} DropMissingNoneMissing(rows: seq<FeatureRow>)
    requires forall i :: 0 <= i < |rows| ==> rows[i].lag.Some?
    ensures |DropMissing(rows)| == |rows|
    ensures forall i :: 0 <= i < |rows| ==>
      DropMissing(rows)[i] == Example(rows[i].date,
        FeatureVector(rows[i].day, rows[i].month, rows[i].weekday, rows[i].lag.value), rows[i].sales)
  {
    if rows != [] {
      DropMissingNoneMissing(rows[1..]);
    }
  }

  /** Lag alignment: the training set has one example per series position
      `i >= 1`; its target is the sales of position `i`, its calendar features
      are those of that date, and its lag is the sales of position `i - 1`,
      whatever the calendar gap between the two dates. */
  lemma LagAlignment(s: seq<DailyTotal>)
    ensures |TrainingSet(s)| == if s == [] then 0 else |s| - 1
    ensures forall i :: 1 <= i < |s| ==>
      TrainingSet(s)[i - 1] == Example(s[i].date, FeaturesAt(s[i].date, s[i - 1].sales as real), s[i].sales)
  {
    var rows := WithFeatures(s);
    if s != [] {
      assert DropMissing(rows) == DropMissing(rows[1..]);
      DropMissingNoneMissing(rows[1..]);
    }
  }

  /** Example `i` is dated as series position `i + 1`. */
  lemma TrainingDates(s: seq<DailyTotal>)
    ensures forall i :: 0 <= i < |TrainingSet(s)| ==> TrainingSet(s)[i].date == s[i + 1].date
  {
    LagAlignment(s);
    forall i | 0 <= i < |TrainingSet(s)| ensures TrainingSet(s)[i].date == s[i + 1].date {
      assert 1 <= i + 1 < |s|;
    }
  }

  /** Two or more distinct dates always leave at least one training example,
      so the "not enough lag data" case cannot follow the two-date check (a
      corollary of the length clause of `TrainingSet`). */
  lemma EnoughLagData(s: seq<DailyTotal>)
    requires |s| >= 2
    ensures TrainingSet(s) != []
  {
    LagAlignment(s);
  }

  /** The last training example is the series' last position (the case
      `i = |s| - 1` of `LagAlignment`). */
  lemma LastExample(s: seq<DailyTotal>)
    requires |s| >= 2
    ensures |TrainingSet(s)| == |s| - 1
    ensures TrainingSet(s)[|TrainingSet(s)| - 1].date == s[|s| - 1].date
    ensures TrainingSet(s)[|TrainingSet(s)| - 1].y == s[|s| - 1].sales
  {
    LagAlignment(s);
  }
}
