/** The sales log and its per-product daily series: the log filtered to one
    product, grouped by date with quantities summed, ascending by date. */
module Aggregation {
  import opened Calendar

  /** One recorded sale: the date, the product name and the quantity sold. */
  datatype SaleEvent = SaleEvent(date: Date, product: string, quantity: int)

  /** One point of a daily series: a date and the total quantity sold on it. */
  datatype DailyTotal = DailyTotal(date: Date, sales: int)

  /** The events of the log for product `p`, in log order. */
  function OfProduct(log: seq<SaleEvent>, p: string): (r: seq<SaleEvent>)
    ensures |r| <= |log|
    ensures forall e :: e in r <==> e in log && e.product == p
  {
    if log == [] then []
    else (if log[0].product == p then [log[0]] else []) + OfProduct(log[1..], p)
  }

  /** The product filter keeps every copy of each of the product's events
      (a sale recorded twice stays twice) and no event of another product. */
  lemma {:induction false} OfProductCounts(log: seq<SaleEvent>, p: string)
    ensures forall e :: multiset(OfProduct(log, p))[e] == if e.product == p then multiset(log)[e] else 0
  {
    if log != [] {
      OfProductCounts(log[1..], p);
      assert log == [log[0]] + log[1..];
    }
  }

  /** Dates strictly increase along the series: they are sorted and unique. */
  predicate StrictlyAscending(s: seq<DailyTotal>) {
    forall i, j :: 0 <= i < j < |s| ==> s[i].date < s[j].date
  }

  function DatesOf(s: seq<DailyTotal>): set<Date> {
    set t | t in s :: t.date
  }

  /** The sum of the series' entries dated `d`. */
  function SalesOn(s: seq<DailyTotal>, d: Date): int {
    if s == [] then 0 else (if s[0].date == d then s[0].sales else 0) + SalesOn(s[1..], d)
  }

  /** Adds `q` units sold on `d` to a series: to the entry dated `d` if there
      is one, otherwise as a new entry at its place in date order. */
  function AddSale(s: seq<DailyTotal>, d: Date, q: int): (r: seq<DailyTotal>)
    ensures DatesOf(r) == DatesOf(s) + {d}
    ensures |r| <= |s| + 1
  {
    if s == [] then [DailyTotal(d, q)]
    else if d == s[0].date then [DailyTotal(d, s[0].sales + q)] + s[1..]
    else if d < s[0].date then [DailyTotal(d, q)] + s
    else
      var rest := AddSale(s[1..], d, q);
      assert DatesOf(s) == {s[0].date} + DatesOf(s[1..]);
      assert DatesOf([s[0]] + rest) == {s[0].date} + DatesOf(rest);
      [s[0]] + rest
  }

  /** Adding a sale adds its quantity to its own date and to no other. */
  lemma {:induction false} AddSaleSalesOn(s: seq<DailyTotal>, d: Date, q: int, x: Date)
    ensures SalesOn(AddSale(s, d, q), x) == SalesOn(s, x) + (if x == d then q else 0)
  {
    if s != [] && d > s[0].date {
      AddSaleSalesOn(s[1..], d, q, x);
      assert ([s[0]] + AddSale(s[1..], d, q))[1..] == AddSale(s[1..], d, q);
    } else if s != [] && d == s[0].date {
      assert ([DailyTotal(d, s[0].sales + q)] + s[1..])[1..] == s[1..];
    } else if s != [] {
      assert ([DailyTotal(d, q)] + s)[1..] == s;
    }
  }

  /** Adding a sale keeps the dates strictly ascending. */
  lemma {:induction false} AddSaleAscending(s: seq<DailyTotal>, d: Date, q: int)
    requires StrictlyAscending(s)
    ensures StrictlyAscending(AddSale(s, d, q))
  {
    if s != [] {
      var tail := s[1..];
      assert StrictlyAscending(tail) && forall k :: 0 <= k < |tail| ==> s[0].date < tail[k].date by {
        forall k | 0 <= k < |tail| ensures tail[k] == s[k + 1] { }
      }
      if d == s[0].date {
        ConsAscending(DailyTotal(d, s[0].sales + q), tail);
      } else if d < s[0].date {
        ConsAscending(DailyTotal(d, q), s);
      } else {
        var rest := AddSale(tail, d, q);
        AddSaleAscending(tail, d, q);
        forall k | 0 <= k < |rest| ensures s[0].date < rest[k].date {
          assert rest[k] in rest;
          assert rest[k].date in DatesOf(tail) + {d};
        }
        ConsAscending(s[0], rest);
      }
    }
  }

  /** A total dated before every entry of an ascending series can be put in front of it. */
  lemma ConsAscending(t: DailyTotal, s: seq<DailyTotal>)
    requires StrictlyAscending(s)
    requires forall k :: 0 <= k < |s| ==> t.date < s[k].date
    ensures StrictlyAscending([t] + s)
  {
    var r := [t] + s;
    forall i, j | 0 <= i < j < |r| ensures r[i].date < r[j].date {
      assert r[j] == s[j - 1];
      if i > 0 {
        assert r[i] == s[i - 1];
      }
    }
  }

  /** `groupby("Date").agg({"Quantity": "sum"})`: one entry per date, in date order. */
  function GroupByDate(events: seq<SaleEvent>): (r: seq<DailyTotal>)
    ensures |r| <= |events|
  {
    if events == [] then [] else AddSale(GroupByDate(events[1..]), events[0].date, events[0].quantity)
  }

  /** Grouping gives strictly ascending dates, exactly the events' dates, and
      on each date the total quantity of the events of that date. */
  lemma {:induction false} GroupByDateCorrect(events: seq<SaleEvent>)
    ensures StrictlyAscending(GroupByDate(events))
    ensures DatesOf(GroupByDate(events)) == set e | e in events :: e.date
    ensures forall d :: SalesOn(GroupByDate(events), d) == QuantityOn(events, d)
  {
    if events != [] {
      var rest := GroupByDate(events[1..]);
      GroupByDateCorrect(events[1..]);
      var r := GroupByDate(events);
      AddSaleAscending(rest, events[0].date, events[0].quantity);
      forall d ensures SalesOn(r, d) == QuantityOn(events, d) {
        AddSaleSalesOn(rest, events[0].date, events[0].quantity, d);
      }
      assert (set e | e in events :: e.date)
          == {events[0].date} + (set e | e in events[1..] :: e.date);
    }
  }

  /** The total quantity of the events dated `d`. */
  function QuantityOn(events: seq<SaleEvent>, d: Date): int {
    if events == [] then 0
    else (if events[0].date == d then events[0].quantity else 0) + QuantityOn(events[1..], d)
  }

  /** The aggregated daily series of product `p` (its `Date`/`Sales` frame). */
  function DailySeries(log: seq<SaleEvent>, p: string): (r: seq<DailyTotal>)
    ensures |r| <= |log|
  {
    GroupByDate(OfProduct(log, p))
  }

  /** Reference definition: the total quantity of product `p` sold on `d`,
      summed over the whole log. */
  function TotalSold(log: seq<SaleEvent>, p: string, d: Date): int {
    if log == [] then 0
    else (if log[0].product == p && log[0].date == d then log[0].quantity else 0)
         + TotalSold(log[1..], p, d)
  }

  /** Reference definition: the distinct dates on which product `p` was sold. */
  function SaleDates(log: seq<SaleEvent>, p: string): set<Date> {
    set e | e in log && e.product == p :: e.date
  }

  lemma {:induction false} QuantityOnOfProduct(log: seq<SaleEvent>, p: string, d: Date)
    ensures QuantityOn(OfProduct(log, p), d) == TotalSold(log, p, d)
  {
    if log != [] {
      QuantityOnOfProduct(log[1..], p, d);
      assert log == [log[0]] + log[1..];
      if log[0].product == p {
        assert OfProduct(log, p) == [log[0]] + OfProduct(log[1..], p);
      } else {
        assert OfProduct(log, p) == OfProduct(log[1..], p);
      }
    }
  }

  /** In a series with unique dates, the sum over a date is that date's entry. */
  lemma {:induction false} SalesOnUnique(s: seq<DailyTotal>, i: int)
    requires StrictlyAscending(s) && 0 <= i < |s|
    ensures SalesOn(s, s[i].date) == s[i].sales
    decreases |s|
  {
    if i == 0 {
      SalesOnAbsent(s[1..], s[0].date);
    } else {
      SalesOnUnique(s[1..], i - 1);
    }
  }

  lemma {:induction false} SalesOnAbsent(s: seq<DailyTotal>, d: Date)
    requires forall k :: 0 <= k < |s| ==> s[k].date > d
    ensures SalesOn(s, d) == 0
    decreases |s|
  {
    if s != [] {
      SalesOnAbsent(s[1..], d);
    }
  }

  /** The series of product `p` is strictly ascending by date: the first
      clause of `DailySeriesCorrect` alone, for callers that need no more. */
  lemma SeriesAscending(log: seq<SaleEvent>, p: string)
    ensures StrictlyAscending(DailySeries(log, p))
  {
    GroupByDateCorrect(OfProduct(log, p));
  }

  /** Aggregation correctness: the series of product `p` has strictly ascending
      dates, holds exactly the dates on which `p` was sold, and each date's
      sales are the total quantity of `p` sold that day, so same-day entries add up. */
  lemma DailySeriesCorrect(log: seq<SaleEvent>, p: string)
    ensures StrictlyAscending(DailySeries(log, p))
    ensures DatesOf(DailySeries(log, p)) == SaleDates(log, p)
    ensures forall i :: 0 <= i < |DailySeries(log, p)| ==>
      DailySeries(log, p)[i].sales == TotalSold(log, p, DailySeries(log, p)[i].date)
  {
    var s := DailySeries(log, p);
    GroupByDateCorrect(OfProduct(log, p));
    assert (set e | e in OfProduct(log, p) :: e.date) == SaleDates(log, p);
    forall i | 0 <= i < |s| ensures s[i].sales == TotalSold(log, p, s[i].date) {
      SalesOnUnique(s, i);
      QuantityOnOfProduct(log, p, s[i].date);
    }
  }

  /** A series with unique dates has as many entries as distinct dates. */
  lemma {:induction false} AscendingLength(s: seq<DailyTotal>)
    requires StrictlyAscending(s)
    ensures |DatesOf(s)| == |s|
  {
    if s != [] {
      AscendingLength(s[1..]);
      assert DatesOf(s) == {s[0].date} + DatesOf(s[1..]);
      assert s[0].date !in DatesOf(s[1..]);
    }
  }

  /** The series of product `p` has one entry per distinct sale date of `p`. */
  lemma SeriesLength(log: seq<SaleEvent>, p: string)
    ensures |DailySeries(log, p)| == |SaleDates(log, p)|
  {
    DailySeriesCorrect(log, p);
    AscendingLength(DailySeries(log, p));
  }

  /** Filtering a log that holds only product `p` leaves it unchanged. */
  lemma {:induction false} OfProductOfOwn(log: seq<SaleEvent>, p: string)
    requires forall i :: 0 <= i < |log| ==> log[i].product == p
    ensures OfProduct(log, p) == log
  {
    if log != [] {
      OfProductOfOwn(log[1..], p);
    }
  }

  /** Events of other products do not affect a product's series. */
  lemma OfProductIdempotent(log: seq<SaleEvent>, p: string)
    ensures OfProduct(OfProduct(log, p), p) == OfProduct(log, p)
  {
    var r := OfProduct(log, p);
    assert forall i :: 0 <= i < |r| ==> r[i] in r;
    OfProductOfOwn(r, p);
  }

  /** A log already in strictly increasing date order, one sale per date,
      aggregates to itself. */
  lemma {:induction false} GroupByDateOfAscending(events: seq<SaleEvent>)
    requires forall i :: 0 <= i < |events| - 1 ==> events[i].date < events[i + 1].date
    ensures |GroupByDate(events)| == |events|
    ensures forall i :: 0 <= i < |events| ==>
      GroupByDate(events)[i] == DailyTotal(events[i].date, events[i].quantity)
  {
    if events != [] {
      var rest := events[1..];
      assert forall i :: 0 <= i < |rest| ==> rest[i] == events[i + 1];
      GroupByDateOfAscending(rest);
      var g := GroupByDate(rest);
      if g != [] {
        assert g[0].date == events[1].date;
      }
      assert GroupByDate(events) == [DailyTotal(events[0].date, events[0].quantity)] + g;
    }
  }

  /** Dates and per-date sales determine a strictly ascending series: two
      such series with the same dates, and the same sales on every common
      date, are equal. */
  lemma {:induction false} AscendingDetermined(s: seq<DailyTotal>, t: seq<DailyTotal>)
    requires StrictlyAscending(s) && StrictlyAscending(t)
    requires DatesOf(s) == DatesOf(t)
    requires SameSales(s, t)
    ensures s == t
    decreases |s|
  {
    EmptyDates(s);
    EmptyDates(t);
    if s != [] {
      assert s[0] in s && t[0] in t;
      FirstIsEarliest(t, s[0].date);
      FirstIsEarliest(s, t[0].date);
      assert s[0].date == t[0].date;
      assert s[0].sales == t[0].sales;
      TailDates(s);
      TailDates(t);
      var s', t' := s[1..], t[1..];
      SameSalesTail(s, t);
      AscendingDetermined(s', t');
      assert s == [s[0]] + s' && t == [t[0]] + t';
    }
  }

  /** Entries of `s` and `t` with the same date have the same sales. */
  predicate SameSales(s: seq<DailyTotal>, t: seq<DailyTotal>) {
    forall i, j :: 0 <= i < |s| && 0 <= j < |t| && s[i].date == t[j].date ==> s[i].sales == t[j].sales
  }

  lemma SameSalesTail(s: seq<DailyTotal>, t: seq<DailyTotal>)
    requires s != [] && t != [] && SameSales(s, t)
    ensures SameSales(s[1..], t[1..])
  {
    var s', t' := s[1..], t[1..];
    forall i, j | 0 <= i < |s'| && 0 <= j < |t'| && s'[i].date == t'[j].date
      ensures s'[i].sales == t'[j].sales
    {
      assert s'[i] == s[i + 1] && t'[j] == t[j + 1];
    }
  }

  lemma EmptyDates(s: seq<DailyTotal>)
    ensures s == [] <==> DatesOf(s) == {}
  {
    if s != [] {
      assert s[0].date in DatesOf(s);
    }
  }

  /** The first entry of a strictly ascending series has its earliest date. */
  lemma FirstIsEarliest(s: seq<DailyTotal>, d: Date)
    requires StrictlyAscending(s) && d in DatesOf(s)
    ensures s != [] && s[0].date <= d
  {
    var t :| t in s && t.date == d;
    var k :| 0 <= k < |s| && s[k] == t;
  }

  /** The dates of a strictly ascending series after its first entry. */
  lemma TailDates(s: seq<DailyTotal>)
    requires s != [] && StrictlyAscending(s)
    ensures StrictlyAscending(s[1..])
    ensures DatesOf(s[1..]) == DatesOf(s) - {s[0].date}
  {
    assert forall k :: 0 <= k < |s| - 1 ==> s[1..][k] == s[k + 1];
    forall d | d in DatesOf(s) - {s[0].date} ensures d in DatesOf(s[1..]) {
      var t :| t in s && t.date == d;
      var k :| 0 <= k < |s| && s[k] == t;
      assert k != 0;
      assert s[1..][k - 1] == t;
    }
    forall d | d in DatesOf(s[1..]) ensures d in DatesOf(s) - {s[0].date} {
      var t :| t in s[1..] && t.date == d;
      var k :| 0 <= k < |s| - 1 && s[1..][k] == t;
      assert s[k + 1] == t;
    }
  }

  /** The total of a concatenated log is the sum of the totals of its parts. */
  lemma {:induction false} TotalSoldAppend(a: seq<SaleEvent>, b: seq<SaleEvent>, p: string, d: Date)
    ensures TotalSold(a + b, p, d) == TotalSold(a, p, d) + TotalSold(b, p, d)
  {
    if a == [] {
      assert a + b == b;
    } else {
      assert (a + b)[1..] == a[1..] + b;
      TotalSoldAppend(a[1..], b, p, d);
    }
  }

  /** The total sold depends only on which events the log holds, as a
      multiset, not on their order. */
  lemma {:induction false} TotalSoldPermutation(a: seq<SaleEvent>, b: seq<SaleEvent>, p: string, d: Date)
    requires multiset(a) == multiset(b)
    ensures TotalSold(a, p, d) == TotalSold(b, p, d)
    decreases |a|
  {
    if a != [] {
      assert a[0] in multiset(b);
      var i :| 0 <= i < |b| && b[i] == a[0];
      var rest := b[..i] + b[i + 1..];
      RemoveOne(a, b, i);
      TotalSoldPermutation(a[1..], rest, p, d);
      TotalSoldRemove(b, i, p, d);
    }
  }

  /** Taking the first event off `a` and an equal one off `b` keeps the multisets equal. */
  lemma RemoveOne(a: seq<SaleEvent>, b: seq<SaleEvent>, i: int)
    requires multiset(a) == multiset(b) && a != [] && 0 <= i < |b| && b[i] == a[0]
    ensures multiset(a[1..]) == multiset(b[..i] + b[i + 1..])
  {
    var front, back := b[..i], b[i + 1..];
    assert a == [a[0]] + a[1..];
    assert b == front + [b[i]] + back;
    assert multiset(a) == multiset([a[0]]) + multiset(a[1..]);
    assert multiset(b) == multiset(front) + multiset([b[i]]) + multiset(back);
    assert multiset(front + back) == multiset(front) + multiset(back);
    forall e ensures multiset(a[1..])[e] == multiset(front + back)[e] {
      assert multiset(a)[e] == multiset([a[0]])[e] + multiset(a[1..])[e];
      assert multiset(b)[e] == multiset(front)[e] + multiset([b[i]])[e] + multiset(back)[e];
    }
  }

  /** Taking one event out of a log takes its quantity out of the total. */
  lemma TotalSoldRemove(b: seq<SaleEvent>, i: int, p: string, d: Date)
    requires 0 <= i < |b|
    ensures TotalSold(b, p, d) == TotalSold(b[..i] + b[i + 1..], p, d) + TotalSold([b[i]], p, d)
  {
    var front, back := b[..i], b[i + 1..];
    assert b == front + ([b[i]] + back);
    TotalSoldAppend(front, [b[i]] + back, p, d);
    TotalSoldAppend([b[i]], back, p, d);
    TotalSoldAppend(front, back, p, d);
  }

  /** Reordering a log does not change the dates on which a product was sold. */
  lemma SaleDatesPermutation(a: seq<SaleEvent>, b: seq<SaleEvent>, p: string)
    requires multiset(a) == multiset(b)
    ensures SaleDates(a, p) == SaleDates(b, p)
  {
    forall e ensures e in a <==> e in b {
      assert e in a <==> e in multiset(a);
      assert e in b <==> e in multiset(b);
    }
  }

  /** The sort of the log by date (or any other reordering) leaves every
      product's daily series unchanged. */
  lemma SeriesOfPermutedLog(a: seq<SaleEvent>, b: seq<SaleEvent>, p: string)
    requires multiset(a) == multiset(b)
    ensures DailySeries(a, p) == DailySeries(b, p)
  {
    var s, t := DailySeries(a, p), DailySeries(b, p);
    DailySeriesCorrect(a, p);
    DailySeriesCorrect(b, p);
    SaleDatesPermutation(a, b, p);
    forall i, j | 0 <= i < |s| && 0 <= j < |t| && s[i].date == t[j].date
      ensures s[i].sales == t[j].sales
    {
      TotalSoldPermutation(a, b, p, s[i].date);
    }
    AscendingDetermined(s, t);
  }
}
