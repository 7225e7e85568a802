/** The V1 grid builder: order records are summed per calendar day and laid
    onto the full inclusive daily calendar between the first and the last
    order date, days without orders holding 0 (load_and_preprocess_data). */
module DailyGrid {
  import opened Wrappers

  /** One order record: its order date as a day number and its Sales amount. */
  datatype Order = Order(day: int, sales: real)

  /** One row of a daily table: a day and the total Sales of that day (ds, y). */
  datatype DayTotal = DayTotal(day: int, total: real)

  /** Why the grid cannot be built: the CSV file is missing (the loader
      returns None), or there is no order date to span (the calendar of an
      empty table has no start and no end, and building it raises). */
  datatype GridError = FileNotFound | EmptyDateRange

  // ---------------------------------------------------------------------
  // Reference definitions over the raw order records
  // ---------------------------------------------------------------------

  /** The sum of Sales over the records dated d. */
  function DaySales(orders: seq<Order>, d: int): real
  {
    if orders == [] then 0.0
    else DaySales(orders[..|orders| - 1], d)
         + (if orders[|orders| - 1].day == d then orders[|orders| - 1].sales else 0.0)
  }

  /** The sum of Sales over all records. */
  function TotalSales(orders: seq<Order>): real
  {
    if orders == [] then 0.0
    else TotalSales(orders[..|orders| - 1]) + orders[|orders| - 1].sales
  }

  /** The set of dates that carry at least one record. */
  function OrderDays(orders: seq<Order>): set<int>
  {
    if orders == [] then {}
    else OrderDays(orders[..|orders| - 1]) + {orders[|orders| - 1].day}
  }

  /** The earliest order date. */
  function MinDay(orders: seq<Order>): (m: int)
    requires orders != []
    ensures m in OrderDays(orders)
    ensures forall d :: d in OrderDays(orders) ==> m <= d
  {
    if |orders| == 1 then orders[0].day
    else
      var m' := MinDay(orders[..|orders| - 1]);
      if orders[|orders| - 1].day < m' then orders[|orders| - 1].day else m'
  }

  /** The latest order date. */
  function MaxDay(orders: seq<Order>): (m: int)
    requires orders != []
    ensures m in OrderDays(orders)
    ensures forall d :: d in OrderDays(orders) ==> d <= m
  {
    if |orders| == 1 then orders[0].day
    else
      var m' := MaxDay(orders[..|orders| - 1]);
      if orders[|orders| - 1].day > m' then orders[|orders| - 1].day else m'
  }

  // ---------------------------------------------------------------------
  // Daily tables
  // ---------------------------------------------------------------------

  predicate StrictlyAscending(g: seq<DayTotal>)
  {
    forall i, j :: 0 <= i < j < |g| ==> g[i].day < g[j].day
  }

  /** The days a daily table has rows for. */
  function DaysOf(g: seq<DayTotal>): set<int>
  {
    if g == [] then {} else {g[0].day} + DaysOf(g[1..])
  }

  /** The value a daily table holds for day d, or 0 when it has no row for d
      (what a reindex with fill value 0 reads). */
  function TotalOn(g: seq<DayTotal>, d: int): real
  {
    if g == [] then 0.0
    else if g[0].day == d then g[0].total
    else TotalOn(g[1..], d)
  }

  function SumTotals(g: seq<DayTotal>): real
  {
    if g == [] then 0.0 else g[0].total + SumTotals(g[1..])
  }

  lemma {:induction false} DayIndex(g: seq<DayTotal>, x: int) returns (k: nat)
    requires x in DaysOf(g)
    ensures k < |g| && g[k].day == x
  {
    if g[0].day == x {
      k := 0;
    } else {
      var k' := DayIndex(g[1..], x);
      k := k' + 1;
    }
  }

  lemma {:induction false} IndexDay(g: seq<DayTotal>, k: nat)
    requires k < |g|
    ensures g[k].day in DaysOf(g)
  {
    if k > 0 {
      IndexDay(g[1..], k - 1);
    }
  }

  /** In an ascending table every later row lies after the first. */
  lemma AscendingTail(g: seq<DayTotal>)
    requires StrictlyAscending(g) && g != []
    ensures StrictlyAscending(g[1..])
    ensures forall x :: x in DaysOf(g[1..]) ==> g[0].day < x
  {
    forall x | x in DaysOf(g[1..]) ensures g[0].day < x {
      var k := DayIndex(g[1..], x);
      assert g[1..][k] == g[k + 1];
    }
  }

  lemma AscendingCons(h: DayTotal, t: seq<DayTotal>)
    requires StrictlyAscending(t)
    requires forall x :: x in DaysOf(t) ==> h.day < x
    ensures StrictlyAscending([h] + t)
  {
    var r := [h] + t;
    forall i, j | 0 <= i < j < |r| ensures r[i].day < r[j].day {
      assert r[j] == t[j - 1];
      if i == 0 {
        IndexDay(t, j - 1);
      } else {
        assert r[i] == t[i - 1];
      }
    }
  }

  lemma {:induction false} TotalOnAbsent(g: seq<DayTotal>, d: int)
    requires d !in DaysOf(g)
    ensures TotalOn(g, d) == 0.0
  {
    if g != [] {
      TotalOnAbsent(g[1..], d);
    }
  }

  // ---------------------------------------------------------------------
  // Group by day and sum (line 22)
  // ---------------------------------------------------------------------

  /** Folds one record into a grouped table kept in ascending day order. */
  function AddOrder(g: seq<DayTotal>, o: Order): (r: seq<DayTotal>)
    requires StrictlyAscending(g)
    ensures StrictlyAscending(r)
    ensures DaysOf(r) == DaysOf(g) + {o.day}
    ensures forall d :: TotalOn(r, d) == TotalOn(g, d) + (if d == o.day then o.sales else 0.0)
  {
    var h := DayTotal(o.day, o.sales);
    if g == [] then
      assert ([h] + g)[1..] == g;
      [h]
    else if o.day < g[0].day then
      AscendingTail(g);
      assert ([h] + g)[1..] == g;
      assert o.day !in DaysOf(g);
      TotalOnAbsent(g, o.day);
      AscendingCons(h, g);
      [h] + g
    else if o.day == g[0].day then
      var h' := DayTotal(o.day, g[0].total + o.sales);
      AscendingTail(g);
      assert ([h'] + g[1..])[1..] == g[1..];
      AscendingCons(h', g[1..]);
      [h'] + g[1..]
    else
      AscendingTail(g);
      var rest := AddOrder(g[1..], o);
      assert ([g[0]] + rest)[1..] == rest;
      AscendingCons(g[0], rest);
      [g[0]] + rest
  }

  /** The grouped table: one row per order date, ascending, holding the sum
      of that date's Sales. */
  function GroupByDay(orders: seq<Order>): (g: seq<DayTotal>)
    ensures StrictlyAscending(g)
    ensures DaysOf(g) == OrderDays(orders)
    ensures forall d :: TotalOn(g, d) == DaySales(orders, d)
  {
    if orders == [] then []
    else AddOrder(GroupByDay(orders[..|orders| - 1]), orders[|orders| - 1])
  }

  // ---------------------------------------------------------------------
  // Reindex onto the full daily calendar (lines 24-25)
  // ---------------------------------------------------------------------

  /** The calendar lo..hi with the grouped values, 0 where a day has no row. */
  function Reindex(g: seq<DayTotal>, lo: int, hi: int): seq<DayTotal>
    requires lo <= hi
  {
    seq(hi - lo + 1, i requires 0 <= i <= hi - lo => DayTotal(lo + i, TotalOn(g, lo + i)))
  }

  /** load_and_preprocess_data: None for a missing file, an error for an
      empty table, otherwise one row per calendar day from the earliest to
      the latest order date, holding that day's summed Sales. */
  function LoadAndPreprocess(csv: Option<seq<Order>>): (r: Result<seq<DayTotal>, GridError>)
    ensures csv.None? ==> r == Failure(FileNotFound)
    ensures csv == Some([]) ==> r == Failure(EmptyDateRange)
    ensures csv.Some? && csv.value != [] ==>
      r.Success? &&
      |r.value| == MaxDay(csv.value) - MinDay(csv.value) + 1 &&
      (forall i :: 0 <= i < |r.value| ==> r.value[i].day == MinDay(csv.value) + i) &&
      (forall i :: 0 <= i < |r.value| ==> r.value[i].total == DaySales(csv.value, r.value[i].day))
  {
    match csv
    case None => Failure(FileNotFound)
    case Some(orders) =>
      var g := GroupByDay(orders);
      if g == [] then Failure(EmptyDateRange)
      else
        GroupBounds(orders, g);
        Success(Reindex(g, g[0].day, g[|g| - 1].day))
  }

  lemma GroupBounds(orders: seq<Order>, g: seq<DayTotal>)
    requires g == GroupByDay(orders) && g != []
    ensures orders != []
    ensures g[0].day == MinDay(orders) && g[|g| - 1].day == MaxDay(orders)
  {
    IndexDay(g, 0);
    IndexDay(g, |g| - 1);
    var i := DayIndex(g, MinDay(orders));
    var j := DayIndex(g, MaxDay(orders));
  }

  // ---------------------------------------------------------------------
  // Properties of the daily grid
  // ---------------------------------------------------------------------

  lemma {:induction false} DaySalesAbsent(orders: seq<Order>, d: int)
    requires d !in OrderDays(orders)
    ensures DaySales(orders, d) == 0.0
  {
    if orders != [] {
      DaySalesAbsent(orders[..|orders| - 1], d);
    }
  }

  lemma {:induction false} ConsecutiveDays(g: seq<DayTotal>, lo: int, d: int)
    requires forall i :: 0 <= i < |g| ==> g[i].day == lo + i
    ensures StrictlyAscending(g)
    ensures lo <= d < lo + |g| ==> d in DaysOf(g)
  {
    if lo <= d < lo + |g| {
      IndexDay(g, d - lo);
    }
  }

  /** The grid is strictly ascending and covers every order date. */
  lemma GridCoversOrderDays(orders: seq<Order>)
    requires orders != []
    ensures StrictlyAscending(LoadAndPreprocess(Some(orders)).value)
    ensures OrderDays(orders) <= DaysOf(LoadAndPreprocess(Some(orders)).value)
  {
    var g := LoadAndPreprocess(Some(orders)).value;
    var lo, hi := MinDay(orders), MaxDay(orders);
    assert |g| == hi - lo + 1;
    assert forall i :: 0 <= i < |g| ==> g[i].day == lo + i;
    ConsecutiveDays(g, lo, lo);
    forall d | d in OrderDays(orders) ensures d in DaysOf(g) {
      ConsecutiveDays(g, lo, d);
    }
  }

  /** A day of the grid that has no order holds 0. */
  lemma GridZeroFill(orders: seq<Order>, i: int)
    requires orders != []
    requires 0 <= i < |LoadAndPreprocess(Some(orders)).value|
    requires LoadAndPreprocess(Some(orders)).value[i].day !in OrderDays(orders)
    ensures LoadAndPreprocess(Some(orders)).value[i].total == 0.0
  {
    var g := LoadAndPreprocess(Some(orders)).value;
    DaySalesAbsent(orders, g[i].day);
  }

  /** Sum of the daily Sales over the n days starting at lo. */
  function RangeSales(orders: seq<Order>, lo: int, n: nat): real
    decreases n
  {
    if n == 0 then 0.0 else DaySales(orders, lo) + RangeSales(orders, lo + 1, n - 1)
  }

  lemma {:induction false} RangeSalesSnoc(orders: seq<Order>, o: Order, lo: int, n: nat)
    ensures RangeSales(orders + [o], lo, n)
            == RangeSales(orders, lo, n) + (if lo <= o.day < lo + n then o.sales else 0.0)
    decreases n
  {
    assert (orders + [o])[..|orders + [o]| - 1] == orders;
    if n > 0 {
      RangeSalesSnoc(orders, o, lo + 1, n - 1);
    }
  }

  lemma {:induction false} RangeSalesTotal(orders: seq<Order>, lo: int, n: nat)
    requires forall d :: d in OrderDays(orders) ==> lo <= d < lo + n
    ensures RangeSales(orders, lo, n) == TotalSales(orders)
  {
    if orders == [] {
      RangeSalesEmpty(lo, n);
    } else {
      var init, o := orders[..|orders| - 1], orders[|orders| - 1];
      assert orders == init + [o];
      assert OrderDays(orders) == OrderDays(init) + {o.day};
      RangeSalesTotal(init, lo, n);
      RangeSalesSnoc(init, o, lo, n);
    }
  }

  lemma {:induction false} RangeSalesEmpty(lo: int, n: nat)
    ensures RangeSales([], lo, n) == 0.0
    decreases n
  {
    if n > 0 {
      RangeSalesEmpty(lo + 1, n - 1);
    }
  }

  lemma {:induction false} SumOfGrid(g: seq<DayTotal>, orders: seq<Order>, lo: int)
    requires forall i :: 0 <= i < |g| ==> g[i].day == lo + i && g[i].total == DaySales(orders, lo + i)
    ensures SumTotals(g) == RangeSales(orders, lo, |g|)
  {
    if g != [] {
      SumOfGrid(g[1..], orders, lo + 1);
    }
  }

  /** Gap filling only inserts zeros: the grid's total equals the total
      Sales of all records. */
  lemma GridPreservesTotal(orders: seq<Order>)
    requires orders != []
    ensures SumTotals(LoadAndPreprocess(Some(orders)).value) == TotalSales(orders)
  {
    var g := LoadAndPreprocess(Some(orders)).value;
    var lo := MinDay(orders);
    SumOfGrid(g, orders, lo);
    RangeSalesTotal(orders, lo, |g|);
  }
}
