/**
 * The `calculateOrderStatistics` aggregation of the worker: a `$group` stage
 * that buckets every stored order by its calendar day, counting the orders and
 * summing their `totalPrice`, followed by a `$project` stage that renders the
 * bucket key as the `date` string.
 *
 * MongoDB does not fix the order in which `$group` emits its buckets; the
 * model emits them in order of first appearance, and every property below is
 * stated without reference to that order.
 */
module Statistics {
  import opened Calendar

  /** An order as the aggregation sees it: the day of its `date` and its `totalPrice`. */
  datatype Order = Order(date: Day, totalPrice: int)

  /** One `$group` bucket: `_id`, `ordersCount` (`$sum: 1`), `ordersTotalPrice` (`$sum: '$totalPrice'`). */
  datatype Group = Group(key: Day, ordersCount: nat, ordersTotalPrice: int)

  /** One document of the statistics collection. */
  datatype StatRecord = StatRecord(date: string, ordersCount: nat, ordersTotalPrice: int)

  // ---------------------------------------------------------------------------
  // Reference definitions, per day
  // ---------------------------------------------------------------------------

  /** The number of orders placed on day `d`. */
  function CountOn(orders: seq<Order>, d: Day): nat {
    if |orders| == 0 then 0
    else CountOn(orders[..|orders| - 1], d) + (if orders[|orders| - 1].date == d then 1 else 0)
  }

  /** The sum of `totalPrice` over the orders placed on day `d`. */
  function TotalOn(orders: seq<Order>, d: Day): int {
    if |orders| == 0 then 0
    else TotalOn(orders[..|orders| - 1], d) + (if orders[|orders| - 1].date == d then orders[|orders| - 1].totalPrice else 0)
  }

  /** The sum of `totalPrice` over all orders. */
  function GrandTotal(orders: seq<Order>): int {
    if |orders| == 0 then 0 else GrandTotal(orders[..|orders| - 1]) + orders[|orders| - 1].totalPrice
  }

  predicate AllValidDays(orders: seq<Order>) {
    forall k :: 0 <= k < |orders| ==> ValidDay(orders[k].date)
  }

  /** The record that describes day `d` of `orders`. */
  function RecordFor(orders: seq<Order>, d: Day): StatRecord {
    StatRecord(DateKey(d), CountOn(orders, d), TotalOn(orders, d))
  }

  /** The days on which at least one order was placed. */
  function DaysOf(orders: seq<Order>): set<Day> {
    set k | 0 <= k < |orders| :: orders[k].date
  }

  /** The records a correct statistics set consists of: one per day with orders. */
  function ExpectedRecords(orders: seq<Order>): set<StatRecord> {
    set k | 0 <= k < |orders| :: RecordFor(orders, orders[k].date)
  }

  function RecordSet(rs: seq<StatRecord>): set<StatRecord> {
    set i | 0 <= i < |rs| :: rs[i]
  }

  /**
   * `rs` is a correct statistics set for `orders`: its records are exactly one
   * record per day that has an order, each with that day's count and total,
   * and no two of them share a `date`.
   */
  ghost predicate IsStatisticsOf(rs: seq<StatRecord>, orders: seq<Order>) {
    RecordSet(rs) == ExpectedRecords(orders) && DistinctDates(rs)
  }

  /** No two records share a `date`: what the unique index on `date` guarantees of the collection. */
  predicate DistinctDates(rs: seq<StatRecord>) {
    forall i, j :: 0 <= i < j < |rs| ==> rs[i].date != rs[j].date
  }

  // ---------------------------------------------------------------------------
  // The pipeline
  // ---------------------------------------------------------------------------

  /** The position of the bucket with key `d`, or -1 when there is none. */
  function FindGroup(gs: seq<Group>, d: Day): (r: int)
    ensures -1 <= r < |gs|
    ensures r == -1 <==> forall i :: 0 <= i < |gs| ==> gs[i].key != d
    ensures r >= 0 ==> gs[r].key == d
  {
    if |gs| == 0 then -1
    else if gs[|gs| - 1].key == d then |gs| - 1
    else FindGroup(gs[..|gs| - 1], d)
  }

  /**
   * `$group` accumulating one more order into its buckets: at most one bucket
   * is added, the existing buckets keep their keys, the buckets of other days
   * are untouched, and the order's day has a bucket afterwards.
   */
  function AddOrder(gs: seq<Group>, o: Order): (r: seq<Group>)
    ensures |gs| <= |r| <= |gs| + 1
    ensures forall i :: 0 <= i < |gs| ==> r[i].key == gs[i].key
    ensures forall i :: 0 <= i < |gs| && gs[i].key != o.date ==> r[i] == gs[i]
    ensures o.date in KeysOf(r)
  {
    var i := FindGroup(gs, o.date);
    if i < 0 then
      var r := gs + [Group(o.date, 1, o.totalPrice)];
      assert r[|gs|].key == o.date;
      r
    else gs[i := Group(o.date, gs[i].ordersCount + 1, gs[i].ordersTotalPrice + o.totalPrice)]
  }

  /** The `$group` stage over the whole orders collection: at most one bucket per order, none without orders. */
  function GroupOrders(orders: seq<Order>): (r: seq<Group>)
    ensures |r| <= |orders|
    ensures r == [] <==> orders == []
  {
    if |orders| == 0 then [] else AddOrder(GroupOrders(orders[..|orders| - 1]), orders[|orders| - 1])
  }

  /** The `$project` stage on one bucket. */
  function Project(g: Group): StatRecord {
    StatRecord(DateKey(g.key), g.ordersCount, g.ordersTotalPrice)
  }

  function ProjectAll(gs: seq<Group>): seq<StatRecord> {
    seq(|gs|, i requires 0 <= i < |gs| => Project(gs[i]))
  }

  /** `calculateOrderStatistics`: the whole aggregation. */
  function CalculateOrderStatistics(orders: seq<Order>): (r: seq<StatRecord>)
    ensures |r| <= |orders|
    ensures r == [] <==> orders == []
  {
    ProjectAll(GroupOrders(orders))
  }

  // ---------------------------------------------------------------------------
  // The buckets summarize the orders
  // ---------------------------------------------------------------------------

  /** No two buckets share a key. */
  ghost predicate KeysDistinct(gs: seq<Group>) {
    forall i, j :: 0 <= i < j < |gs| ==> gs[i].key != gs[j].key
  }

  /** Every bucket holds the count and total of its day. */
  ghost predicate Accurate(gs: seq<Group>, orders: seq<Order>) {
    forall i :: 0 <= i < |gs| ==>
      gs[i].ordersCount == CountOn(orders, gs[i].key) && gs[i].ordersTotalPrice == TotalOn(orders, gs[i].key)
  }

  function KeysOf(gs: seq<Group>): set<Day> {
    set i | 0 <= i < |gs| :: gs[i].key
  }

  /** The bucket invariant of `$group`: distinct, accurate buckets for exactly the days with orders. */
  ghost predicate Summarizes(gs: seq<Group>, orders: seq<Order>) {
    KeysDistinct(gs) && Accurate(gs, orders) && KeysOf(gs) == DaysOf(orders)
  }

  lemma PerDayAfterAppend(orders: seq<Order>, o: Order, d: Day)
    ensures CountOn(orders + [o], d) == CountOn(orders, d) + (if o.date == d then 1 else 0)
    ensures TotalOn(orders + [o], d) == TotalOn(orders, d) + (if o.date == d then o.totalPrice else 0)
  {
    assert (orders + [o])[..|orders|] == orders;
  }

  lemma AddOrderKeysDistinct(gs: seq<Group>, o: Order)
    requires KeysDistinct(gs)
    ensures KeysDistinct(AddOrder(gs, o))
  {
  }

  lemma AddOrderAccurate(gs: seq<Group>, orders: seq<Order>, o: Order)
    requires KeysDistinct(gs) && Accurate(gs, orders) && KeysOf(gs) == DaysOf(orders)
    ensures Accurate(AddOrder(gs, o), orders + [o])
  {
    var gs' := AddOrder(gs, o);
    forall i | 0 <= i < |gs'|
      ensures gs'[i].ordersCount == CountOn(orders + [o], gs'[i].key)
      ensures gs'[i].ordersTotalPrice == TotalOn(orders + [o], gs'[i].key)
    {
      PerDayAfterAppend(orders, o, gs'[i].key);
      if i < |gs| && gs[i].key != o.date {
        assert gs'[i] == gs[i];
      } else if i == |gs| {
        assert o.date !in DaysOf(orders);
        OnlyOrdersCount(orders, o.date);
      }
    }
  }

  /** A day on which no order falls has count and total zero. */
  lemma {:induction false} OnlyOrdersCount(orders: seq<Order>, d: Day)
    requires d !in DaysOf(orders)
    ensures CountOn(orders, d) == 0 && TotalOn(orders, d) == 0
    decreases |orders|
  {
    if |orders| > 0 {
      var prefix := orders[..|orders| - 1];
      assert d != orders[|orders| - 1].date;
      OnlyOrdersCount(prefix, d);
    }
  }

  lemma DaysAfterAppend(orders: seq<Order>, o: Order)
    ensures DaysOf(orders + [o]) == DaysOf(orders) + {o.date}
  {
    var all := orders + [o];
    assert all[|orders|] == o;
    forall d | d in DaysOf(orders) ensures d in DaysOf(all) {
      var k :| 0 <= k < |orders| && orders[k].date == d;
      assert all[k] == orders[k];
    }
  }

  lemma AddOrderKeys(gs: seq<Group>, o: Order)
    ensures KeysOf(AddOrder(gs, o)) == KeysOf(gs) + {o.date}
  {
    var gs' := AddOrder(gs, o);
    var j := FindGroup(gs, o.date);
    if j < 0 {
      assert gs'[|gs|].key == o.date;
      forall d | d in KeysOf(gs) ensures d in KeysOf(gs') {
        var i :| 0 <= i < |gs| && gs[i].key == d;
        assert gs'[i] == gs[i];
      }
    } else {
      assert gs'[j].key == o.date;
      forall d | d in KeysOf(gs) ensures d in KeysOf(gs') {
        var i :| 0 <= i < |gs| && gs[i].key == d;
        assert gs'[i].key == d;
      }
    }
  }

  lemma {:induction false} GroupOrdersSummarizes(orders: seq<Order>)
    ensures Summarizes(GroupOrders(orders), orders)
    decreases |orders|
  {
    if |orders| > 0 {
      var prefix, o := orders[..|orders| - 1], orders[|orders| - 1];
      var gs := GroupOrders(prefix);
      GroupOrdersSummarizes(prefix);
      assert prefix + [o] == orders;
      AddOrderKeysDistinct(gs, o);
      AddOrderAccurate(gs, prefix, o);
      AddOrderKeys(gs, o);
      DaysAfterAppend(prefix, o);
    }
  }

  /**
   * The aggregation is correct: over orders on valid days it yields one record
   * per distinct day, with that day's count and total, and distinct `date`s.
   * No orders give no records, and any order gives at least one record.
   */
  lemma CalculateIsStatistics(orders: seq<Order>)
    requires AllValidDays(orders)
    ensures IsStatisticsOf(CalculateOrderStatistics(orders), orders)
    ensures CalculateOrderStatistics(orders) == [] <==> orders == []
  {
    var gs := GroupOrders(orders);
    var rs := CalculateOrderStatistics(orders);
    GroupOrdersSummarizes(orders);
    forall r | r in RecordSet(rs) ensures r in ExpectedRecords(orders) {
      var i :| 0 <= i < |rs| && rs[i] == r;
      assert gs[i].key in DaysOf(orders);
      var k :| 0 <= k < |orders| && orders[k].date == gs[i].key;
    }
    forall r | r in ExpectedRecords(orders) ensures r in RecordSet(rs) {
      var k :| 0 <= k < |orders| && r == RecordFor(orders, orders[k].date);
      assert orders[k].date in KeysOf(gs);
      var i :| 0 <= i < |gs| && gs[i].key == orders[k].date;
      assert rs[i] == r;
    }
    forall i, j | 0 <= i < j < |rs|
      ensures rs[i].date != rs[j].date
    {
      assert gs[i].key in DaysOf(orders) && gs[j].key in DaysOf(orders);
      DateKeyInjective(gs[i].key, gs[j].key);
    }
    if orders != [] {
      assert orders[0].date in KeysOf(gs);
    }
  }

  lemma {:induction false} DistinctKeysCount(gs: seq<Group>)
    requires KeysDistinct(gs)
    ensures |KeysOf(gs)| == |gs|
    decreases |gs|
  {
    if |gs| > 0 {
      var prefix := gs[..|gs| - 1];
      DistinctKeysCount(prefix);
      assert KeysOf(gs) == KeysOf(prefix) + {gs[|gs| - 1].key};
      assert gs[|gs| - 1].key !in KeysOf(prefix);
    }
  }

  /** There are exactly as many records as there are distinct days with orders. */
  lemma OneRecordPerDay(orders: seq<Order>)
    ensures |CalculateOrderStatistics(orders)| == |DaysOf(orders)|
  {
    GroupOrdersSummarizes(orders);
    DistinctKeysCount(GroupOrders(orders));
  }

  // ---------------------------------------------------------------------------
  // Conservation
  // ---------------------------------------------------------------------------

  function SumGroupCounts(gs: seq<Group>): int {
    if |gs| == 0 then 0 else SumGroupCounts(gs[..|gs| - 1]) + gs[|gs| - 1].ordersCount
  }

  function SumGroupTotals(gs: seq<Group>): int {
    if |gs| == 0 then 0 else SumGroupTotals(gs[..|gs| - 1]) + gs[|gs| - 1].ordersTotalPrice
  }

  /** The sum of `ordersCount` over a statistics set. */
  function SumCounts(rs: seq<StatRecord>): int {
    if |rs| == 0 then 0 else SumCounts(rs[..|rs| - 1]) + rs[|rs| - 1].ordersCount
  }

  /** The sum of `ordersTotalPrice` over a statistics set. */
  function SumTotals(rs: seq<StatRecord>): int {
    if |rs| == 0 then 0 else SumTotals(rs[..|rs| - 1]) + rs[|rs| - 1].ordersTotalPrice
  }

  /** Replacing bucket `i` changes the sums by the difference. */
  lemma {:induction false} SumsAfterUpdate(gs: seq<Group>, i: nat, g: Group)
    requires i < |gs|
    ensures SumGroupCounts(gs[i := g]) == SumGroupCounts(gs) - gs[i].ordersCount + g.ordersCount
    ensures SumGroupTotals(gs[i := g]) == SumGroupTotals(gs) - gs[i].ordersTotalPrice + g.ordersTotalPrice
    decreases |gs|
  {
    var n := |gs| - 1;
    if i < n {
      assert gs[i := g][..n] == gs[..n][i := g];
      SumsAfterUpdate(gs[..n], i, g);
    } else {
      assert gs[i := g][..n] == gs[..n];
    }
  }

  lemma AddOrderSums(gs: seq<Group>, o: Order)
    ensures SumGroupCounts(AddOrder(gs, o)) == SumGroupCounts(gs) + 1
    ensures SumGroupTotals(AddOrder(gs, o)) == SumGroupTotals(gs) + o.totalPrice
  {
    var i := FindGroup(gs, o.date);
    if i < 0 {
      assert (gs + [Group(o.date, 1, o.totalPrice)])[..|gs|] == gs;
    } else {
      SumsAfterUpdate(gs, i, Group(o.date, gs[i].ordersCount + 1, gs[i].ordersTotalPrice + o.totalPrice));
    }
  }

  lemma {:induction false} GroupSumsConserved(orders: seq<Order>)
    ensures SumGroupCounts(GroupOrders(orders)) == |orders|
    ensures SumGroupTotals(GroupOrders(orders)) == GrandTotal(orders)
    decreases |orders|
  {
    if |orders| > 0 {
      GroupSumsConserved(orders[..|orders| - 1]);
      AddOrderSums(GroupOrders(orders[..|orders| - 1]), orders[|orders| - 1]);
    }
  }

  lemma {:induction false} ProjectKeepsSums(gs: seq<Group>)
    ensures SumCounts(ProjectAll(gs)) == SumGroupCounts(gs)
    ensures SumTotals(ProjectAll(gs)) == SumGroupTotals(gs)
    decreases |gs|
  {
    if |gs| > 0 {
      var n := |gs| - 1;
      assert ProjectAll(gs)[..n] == ProjectAll(gs[..n]);
      ProjectKeepsSums(gs[..n]);
    }
  }

  /**
   * Conservation: the `ordersCount`s of the statistics add up to the number of
   * orders and the `ordersTotalPrice`s to the grand total of all orders.
   */
  lemma StatisticsConserve(orders: seq<Order>)
    ensures SumCounts(CalculateOrderStatistics(orders)) == |orders|
    ensures SumTotals(CalculateOrderStatistics(orders)) == GrandTotal(orders)
  {
    GroupSumsConserved(orders);
    ProjectKeepsSums(GroupOrders(orders));
  }

  /** The first two orders of the scenario open one bucket per day. */
  lemma ScenarioFirstTwo(d1: Day, d2: Day)
    requires d1 != d2
    ensures GroupOrders([Order(d1, 50), Order(d2, 50)]) == [Group(d1, 1, 50), Group(d2, 1, 50)]
  {
    var g1 := [Group(d1, 1, 50)];
    assert [Order(d1, 50), Order(d2, 50)][..1] == [Order(d1, 50)];
    assert [Order(d1, 50)][..0] == [];
    assert GroupOrders([Order(d1, 50)]) == g1;
    assert FindGroup(g1, d2) == -1 by { assert g1[..0] == []; }
  }

  /** The third order of the scenario goes into the second day's bucket. */
  lemma ScenarioGroups(d1: Day, d2: Day)
    requires d1 != d2
    ensures GroupOrders([Order(d1, 50), Order(d2, 50), Order(d2, 100)]) == [Group(d1, 1, 50), Group(d2, 2, 150)]
  {
    var orders := [Order(d1, 50), Order(d2, 50), Order(d2, 100)];
    var g2 := [Group(d1, 1, 50), Group(d2, 1, 50)];
    assert orders[..2] == [Order(d1, 50), Order(d2, 50)];
    ScenarioFirstTwo(d1, d2);
    assert FindGroup(g2, d2) == 1;
  }

  /**
   * The scenario of the worker's integration test: one order of 50 on the
   * first of the month and two orders of 50 and 100 on the second give two
   * records, (1 order, 50) and (2 orders, 150).
   */
  lemma WorkerScenario(month: nat, year: nat)
    requires 1 <= month <= 12 && 1000 <= year <= 9999
    ensures var orders := [Order(Day(1, month, year), 50), Order(Day(2, month, year), 50), Order(Day(2, month, year), 100)];
            CalculateOrderStatistics(orders)
            == [StatRecord(DateKey(Day(1, month, year)), 1, 50), StatRecord(DateKey(Day(2, month, year)), 2, 150)]
  {
    ScenarioGroups(Day(1, month, year), Day(2, month, year));
  }
}
