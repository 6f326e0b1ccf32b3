/**
 * The dashboard's figures: orders per status and the pie chart built from
 * them, orders per day, revenue per day from completed orders, today's
 * revenue and the completed-order count. `toLocaleDateString` is a parameter
 * `dateKey` mapping an order's creation timestamp to its day label.
 */
module Dashboard {
  import opened Grouping
  import opened OrderRecords

  function StatusOf(o: PageOrder): Status
  {
    o.status
  }

  function One(o: PageOrder): int
  {
    1
  }

  /** The per-order price sum used as revenue. */
  function OrderTotal(o: PageOrder): int
  {
    TotalPrice(o.services)
  }

  /** The day label of an order's creation time. */
  function CreatedOn(dateKey: string -> string): PageOrder -> string
  {
    (o: PageOrder) => dateKey(o.createdAt)
  }

  /** Number of orders with status `s`. */
  function CountWithStatus(orders: seq<PageOrder>, s: Status): int
  {
    KeyTotal(orders, StatusOf, One, s)
  }

  /** Counting ones gives the length. */
  lemma {:induction false} TotalOfOnes(orders: seq<PageOrder>)
    ensures Total(orders, One) == |orders|
  {
    if |orders| > 0 {
      TotalOfOnes(orders[..|orders| - 1]);
    }
  }

  /** `statusCounts`: a status is a key exactly when some order has it, and maps to its number of orders. */
  method StatusCounts(orders: seq<PageOrder>) returns (counts: map<Status, int>)
    ensures forall s :: s in counts <==> exists i :: 0 <= i < |orders| && orders[i].status == s
    ensures forall s :: s in counts ==> counts[s] == CountWithStatus(orders, s) && counts[s] > 0
  {
    var keys;
    keys, counts := GroupTotals(orders, StatusOf, One);
    forall s | s in counts ensures exists i :: 0 <= i < |orders| && orders[i].status == s {
      FirstKeysOnlyKeys(orders, StatusOf, s);
    }
    forall s | s in counts ensures counts[s] > 0 {
      var i :| 0 <= i < |orders| && orders[i].status == s;
      CountPositive(orders, s, i);
    }
  }

  lemma {:induction false} CountPositive(orders: seq<PageOrder>, s: Status, i: nat)
    requires i < |orders| && orders[i].status == s
    ensures CountWithStatus(orders, s) > 0
  {
    var init := orders[..|orders| - 1];
    if i < |orders| - 1 {
      CountPositive(init, s, i);
    }
    CountNonNegative(init, s);
  }

  lemma {:induction false} CountNonNegative(orders: seq<PageOrder>, s: Status)
    ensures CountWithStatus(orders, s) >= 0
  {
    if |orders| > 0 {
      CountNonNegative(orders[..|orders| - 1], s);
    }
  }

  /** The per-status counts over all six statuses add up to the number of orders. */
  lemma StatusCountsSumToOrders(orders: seq<PageOrder>)
    ensures SumOver(StatusOptions(), orders, StatusOf, One) == |orders|
  {
    forall i | 0 <= i < |orders| ensures StatusOf(orders[i]) in StatusOptions() {
      StatusOptionsComplete(orders[i].status);
    }
    SumOverCovering(StatusOptions(), orders, StatusOf, One);
    TotalOfOnes(orders);
  }

  datatype PieEntry = PieEntry(name: Status, value: int)

  /** `statusCounts[status] || 0`. */
  function CountOrZero(counts: map<Status, int>, s: Status): int
  {
    if s in counts then counts[s] else 0
  }

  /** `pieData`: one entry per listed status, in list order, dropping those whose count is not positive. */
  function PieData(statuses: seq<Status>, counts: map<Status, int>): (r: seq<PieEntry>)
    ensures |r| <= |statuses|
    ensures forall e :: e in r ==> e.value > 0 && e.name in statuses && e.value == CountOrZero(counts, e.name)
    ensures forall s :: s in statuses && CountOrZero(counts, s) > 0 ==> PieEntry(s, CountOrZero(counts, s)) in r
  {
    if |statuses| == 0 then []
    else
      var s := statuses[0];
      var rest := PieData(statuses[1..], counts);
      assert forall t :: t in statuses ==> t == s || t in statuses[1..];
      if CountOrZero(counts, s) > 0 then [PieEntry(s, CountOrZero(counts, s))] + rest else rest
  }

  function PieTotal(es: seq<PieEntry>): int
  {
    if |es| == 0 then 0 else es[0].value + PieTotal(es[1..])
  }

  /** The slices add up to the number of orders whose status is listed, once per listed status. */
  lemma {:induction false} PieTotalIsSumOver(statuses: seq<Status>, orders: seq<PageOrder>, counts: map<Status, int>)
    requires forall s :: s in counts <==> exists i :: 0 <= i < |orders| && orders[i].status == s
    requires forall s :: s in counts ==> counts[s] == CountWithStatus(orders, s) && counts[s] > 0
    ensures PieTotal(PieData(statuses, counts)) == SumOver(statuses, orders, StatusOf, One)
  {
    if |statuses| > 0 {
      var s := statuses[0];
      PieTotalIsSumOver(statuses[1..], orders, counts);
      if s !in counts {
        KeyTotalAbsent(orders, StatusOf, One, s);
      }
    }
  }

  /** With all six statuses listed, the pie's slices add up to the number of orders. */
  lemma PieCoversAllOrders(orders: seq<PageOrder>, counts: map<Status, int>)
    requires forall s :: s in counts <==> exists i :: 0 <= i < |orders| && orders[i].status == s
    requires forall s :: s in counts ==> counts[s] == CountWithStatus(orders, s) && counts[s] > 0
    ensures PieTotal(PieData(StatusOptions(), counts)) == |orders|
  {
    PieTotalIsSumOver(StatusOptions(), orders, counts);
    StatusCountsSumToOrders(orders);
  }

  /** `dailyOrdersData`: per day label, in first-seen order, the number of orders created that day. */
  method DailyOrdersData(orders: seq<PageOrder>, dateKey: string -> string) returns (r: seq<(string, int)>)
    ensures r == GroupedEntries(orders, CreatedOn(dateKey), One)
    ensures SumValues(r) == |orders|
  {
    var keys, totals := GroupTotals(orders, CreatedOn(dateKey), One);
    r := seq(|keys|, i requires 0 <= i < |keys| => (keys[i], totals[keys[i]]));
    GroupedEntriesSum(orders, CreatedOn(dateKey), One);
    TotalOfOnes(orders);
  }

  /** The completed orders, in store order: `filter(o => o.status === "Zakończone")`. */
  function CompletedOrders(orders: seq<PageOrder>): (r: seq<PageOrder>)
    ensures |r| <= |orders|
    ensures forall o :: o in r <==> o in orders && o.status == Completed
    ensures multiset(r) <= multiset(orders)
    ensures forall o: PageOrder :: o.status == Completed ==> multiset(r)[o] == multiset(orders)[o]
  {
    if |orders| == 0 then []
    else
      assert orders == [orders[0]] + orders[1..];
      (if orders[0].status == Completed then [orders[0]] else []) + CompletedOrders(orders[1..])
  }

  /** Filtering distributes over concatenation, so the completed orders keep their store order. */
  lemma {:induction false} CompletedOrdersAppend(a: seq<PageOrder>, b: seq<PageOrder>)
    ensures CompletedOrders(a + b) == CompletedOrders(a) + CompletedOrders(b)
  {
    if |a| == 0 {
      assert a + b == b;
    } else {
      assert (a + b)[1..] == a[1..] + b;
      CompletedOrdersAppend(a[1..], b);
    }
  }

  /** There are as many completed orders as the per-status count of `Completed` says. */
  lemma {:induction false} CompletedOrdersCounted(orders: seq<PageOrder>)
    ensures |CompletedOrders(orders)| == CountWithStatus(orders, Completed)
  {
    if |orders| > 0 {
      var init, last := orders[..|orders| - 1], orders[|orders| - 1];
      assert orders == init + [last];
      CompletedOrdersAppend(init, [last]);
      CompletedOrdersCounted(init);
      assert CompletedOrders([last]) == (if last.status == Completed then [last] else []) + CompletedOrders([]);
    }
  }

  /** `dailyRevenue`: per day label of a completed order, the sum of its completed orders' totals. */
  method DailyRevenue(orders: seq<PageOrder>, dateKey: string -> string) returns (r: seq<(string, int)>)
    ensures r == GroupedEntries(CompletedOrders(orders), CreatedOn(dateKey), OrderTotal)
    ensures SumValues(r) == Total(CompletedOrders(orders), OrderTotal)
  {
    var completed := CompletedOrders(orders);
    var keys, totals := GroupTotals(completed, CreatedOn(dateKey), OrderTotal);
    r := seq(|keys|, i requires 0 <= i < |keys| => (keys[i], totals[keys[i]]));
    GroupedEntriesSum(completed, CreatedOn(dateKey), OrderTotal);
  }

  /** `find(r => r.date === today)?.revenue || 0`. */
  function TodayRevenue(entries: seq<(string, int)>, today: string): (r: int)
    ensures (forall i :: 0 <= i < |entries| ==> entries[i].0 != today) ==> r == 0
    ensures forall i :: 0 <= i < |entries| && entries[i].0 == today && (forall j :: 0 <= j < i ==> entries[j].0 != today)
              ==> r == entries[i].1
  {
    if |entries| == 0 then 0
    else if entries[0].0 == today then entries[0].1
    else TodayRevenue(entries[1..], today)
  }

  /** Today's revenue is the total of the completed orders created today, and 0 when there are none. */
  lemma TodayRevenueIsDayTotal(orders: seq<PageOrder>, dateKey: string -> string, today: string)
    ensures TodayRevenue(GroupedEntries(CompletedOrders(orders), CreatedOn(dateKey), OrderTotal), today)
         == KeyTotal(CompletedOrders(orders), CreatedOn(dateKey), OrderTotal, today)
  {
    var completed := CompletedOrders(orders);
    var ks := FirstKeys(completed, CreatedOn(dateKey));
    var es := GroupedEntries(completed, CreatedOn(dateKey), OrderTotal);
    if today in ks {
      var i :| 0 <= i < |ks| && ks[i] == today;
      assert es[i].0 == today;
    } else {
      forall j | 0 <= j < |completed| ensures CreatedOn(dateKey)(completed[j]) != today {
      }
      KeyTotalAbsent(completed, CreatedOn(dateKey), OrderTotal, today);
    }
  }

  /** The "Zakończone zlecenia" card: the number of completed orders. */
  function CompletedCount(orders: seq<PageOrder>): (n: nat)
    ensures n == |CompletedOrders(orders)|
    ensures n <= |orders|
    ensures n == 0 <==> forall i :: 0 <= i < |orders| ==> orders[i].status != Completed
  {
    var completed := CompletedOrders(orders);
    assert forall i :: 0 <= i < |orders| && orders[i].status == Completed ==> orders[i] in completed;
    if |completed| == 0 then 0
    else
      assert completed[0] in completed;
      |completed|
  }

  /** The card agrees with the `Completed` figure of `statusCounts`, which feeds the pie. */
  lemma CompletedCountMatchesStatusCounts(orders: seq<PageOrder>, counts: map<Status, int>)
    requires forall s :: s in counts <==> exists i :: 0 <= i < |orders| && orders[i].status == s
    requires forall s :: s in counts ==> counts[s] == CountWithStatus(orders, s) && counts[s] > 0
    ensures CompletedCount(orders) == CountOrZero(counts, Completed)
  {
    CompletedOrdersCounted(orders);
  }
}
