/**
 * The worker's scheduler: a `Worker` whose `_interval` handle is either null
 * (stopped) or the handle of the one repeating timer it registered with the
 * host (running). Each firing of that timer runs one cycle: calculate the
 * statistics, then publish exactly that result.
 */
module Scheduler {
  import opened Wrappers
  import opened Statistics
  import opened WorkerDb

  /** The `worker` section of the configuration. */
  datatype WorkerConfig = WorkerConfig(interval: int)

  /** A repeating timer registered with the host: its handle and its period. */
  datatype Timer = Timer(id: nat, period: int)

  /** The host's table of active repeating timers, behind `setInterval`/`clearInterval`. */
  class TimerHost {
    var active: map<nat, int>
    var nextId: nat

    ghost predicate Valid()
      reads this
    {
      forall id :: id in active ==> id < nextId
    }

    constructor ()
      ensures Valid() && active == map[]
    {
      active := map[];
      nextId := 0;
    }

    /** `setInterval(callback, period)`: registers a timer under a fresh handle. */
    method SetInterval(period: int) returns (t: Timer)
      requires Valid()
      modifies this`active, this`nextId
      ensures Valid()
      ensures t.period == period && t.id !in old(active)
      ensures active == old(active)[t.id := period]
    {
      t := Timer(nextId, period);
      active := active[nextId := period];
      nextId := nextId + 1;
    }

    /** `clearInterval(handle)`: the timer stops firing. */
    method ClearInterval(id: nat)
      requires Valid()
      modifies this`active
      ensures Valid()
      ensures active == old(active) - {id}
    {
      active := active - {id};
    }
  }

  /** What one cycle leaves in the statistics collection, and whether it completed. */
  function CycleOutcome(connected: bool, stored: seq<StatRecord>, orders: seq<Order>): (r: (seq<StatRecord>, bool))
    ensures !connected ==> r == (stored, false)
    ensures connected && orders == [] ==> r == (stored, true)
    ensures connected && orders != [] ==> r.0 <= CalculateOrderStatistics(orders)
  {
    if connected then Publish(stored, Some(CalculateOrderStatistics(orders))) else (stored, false)
  }

  class Worker {
    const config: WorkerConfig
    const db: DB
    const host: TimerHost
    /** `_interval`: None for null, or the handle `setInterval` returned. */
    var interval: Option<Timer>
    /** The timers of other code that were active when the worker was built. */
    ghost const others: map<nat, int>

    /**
     * While stopped the worker owns no timer; while running it owns exactly
     * the one recorded in `interval`, firing every `config.interval` ms.
     */
    ghost predicate Valid()
      reads this, host
    {
      && host.Valid()
      && (interval.None? ==> host.active == others)
      && (interval.Some? ==>
            && interval.value.id !in others
            && interval.value.period == config.interval
            && host.active == others[interval.value.id := interval.value.period])
    }

    predicate Running()
      reads this
    {
      interval.Some?
    }

    /** A new worker is stopped. */
    constructor (config: WorkerConfig, db: DB, host: TimerHost)
      requires host.Valid()
      ensures Valid() && !Running()
      ensures this.config == config && this.db == db && this.host == host
      ensures others == host.active
    {
      this.config := config;
      this.db := db;
      this.host := host;
      interval := None;
      others := host.active;
    }

    /**
     * `start`: from stopped, registers one timer with period `config.interval`
     * and becomes running; when already running, changes nothing.
     */
    method Start()
      requires Valid()
      modifies this`interval, host`active, host`nextId
      ensures Valid() && Running()
      ensures old(Running()) ==>
                interval == old(interval) && host.active == old(host.active) && host.nextId == old(host.nextId)
      ensures !old(Running()) ==>
                && interval.value.period == config.interval
                && interval.value.id !in old(host.active)
                && host.active == old(host.active)[interval.value.id := config.interval]
    {
      if interval.None? {
        var t := host.SetInterval(config.interval);
        interval := Some(t);
      }
    }

    /**
     * `stop`: from running, clears the timer and becomes stopped; when
     * already stopped, changes nothing.
     */
    method Stop()
      requires Valid()
      modifies this`interval, host`active
      ensures Valid() && !Running()
      ensures !old(Running()) ==> host.active == old(host.active)
      ensures old(Running()) ==> host.active == old(host.active) - {old(interval).value.id}
    {
      if interval.Some? {
        host.ClearInterval(interval.value.id);
        interval := None;
      }
    }

    /**
     * The timer callback: computes the statistics, then hands exactly that
     * result to `insertOrderStatistics`. A rejected calculation ends the
     * cycle before anything is published.
     */
    method Cycle() returns (ok: bool)
      requires db.store.Valid()
      modifies db.store`statistics
      ensures db.store.Valid()
      ensures (db.store.statistics, ok) == CycleOutcome(db.connected, old(db.store.statistics), db.store.orders)
    {
      var statistics := db.CalculateOrderStatistics();
      if statistics.None? {
        return false;
      }
      ok := db.InsertOrderStatistics(statistics);
    }
  }

  /** The worker owns at most one active timer at any time. */
  lemma AtMostOneTimer(w: Worker)
    requires w.Valid()
    ensures |w.host.active.Keys - w.others.Keys| <= 1
    ensures w.Running() <==> |w.host.active.Keys - w.others.Keys| == 1
  {
    if w.interval.Some? {
      assert w.host.active.Keys - w.others.Keys == {w.interval.value.id};
    } else {
      assert w.host.active.Keys - w.others.Keys == {};
    }
  }

  // ---------------------------------------------------------------------------
  // The lifecycle over sequences of calls
  // ---------------------------------------------------------------------------

  datatype Call = StartCall | StopCall

  /**
   * Any sequence of `start` and `stop` calls on a worker: afterwards the worker
   * runs exactly when the last call was `start` (as before when there was no
   * call), and it owns at most one timer.
   */
  method RunCalls(w: Worker, calls: seq<Call>)
    requires w.Valid()
    modifies w`interval, w.host`active, w.host`nextId
    ensures w.Valid()
    ensures |calls| == 0 ==> w.Running() == old(w.Running())
    ensures |calls| > 0 ==> (w.Running() <==> calls[|calls| - 1] == StartCall)
    ensures |w.host.active.Keys - w.others.Keys| <= 1
  {
    var i := 0;
    while i < |calls|
      invariant 0 <= i <= |calls|
      invariant w.Valid()
      invariant i == 0 ==> w.Running() == old(w.Running())
      invariant i > 0 ==> (w.Running() <==> calls[i - 1] == StartCall)
    {
      if calls[i] == StartCall {
        w.Start();
      } else {
        w.Stop();
      }
      i := i + 1;
    }
    AtMostOneTimer(w);
  }

  /**
   * `start` is idempotent: a second call leaves the handle and the host's
   * timers as the first call left them (returned as `once`, `activeOnce`, `nextOnce`).
   */
  method StartTwice(w: Worker) returns (once: Option<Timer>, activeOnce: map<nat, int>, nextOnce: nat)
    requires w.Valid()
    modifies w`interval, w.host`active, w.host`nextId
    ensures w.Valid() && w.Running()
    ensures w.interval == once && w.host.active == activeOnce && w.host.nextId == nextOnce
  {
    w.Start();
    once, activeOnce, nextOnce := w.interval, w.host.active, w.host.nextId;
    w.Start();
  }

  /**
   * `stop` is idempotent: a second call leaves the handle and the host's
   * timers as the first call left them.
   */
  method StopTwice(w: Worker) returns (once: Option<Timer>, activeOnce: map<nat, int>)
    requires w.Valid()
    modifies w`interval, w.host`active
    ensures w.Valid() && !w.Running()
    ensures w.interval == once && w.host.active == activeOnce
  {
    w.Stop();
    once, activeOnce := w.interval, w.host.active;
    w.Stop();
  }

  /**
   * One cycle over a connected database whose orders fall on valid days
   * publishes a correct statistics set when there are orders, and leaves the
   * stored statistics as they were when there are none.
   */
  lemma CycleRefreshes(stored: seq<StatRecord>, orders: seq<Order>)
    requires AllValidDays(orders)
    ensures orders != [] ==> CycleOutcome(true, stored, orders) == (CalculateOrderStatistics(orders), true)
    ensures orders != [] ==> IsStatisticsOf(CycleOutcome(true, stored, orders).0, orders)
    ensures orders == [] ==> CycleOutcome(true, stored, orders) == (stored, true)
  {
    CalculateIsStatistics(orders);
    var rs := CalculateOrderStatistics(orders);
    if orders != [] {
      PublishReplaces(stored, rs);
    }
  }

  /** Two cycles with no new orders in between leave the same statistics as one. */
  lemma CycleIdempotent(connected: bool, stored: seq<StatRecord>, orders: seq<Order>)
    ensures CycleOutcome(connected, CycleOutcome(connected, stored, orders).0, orders) == CycleOutcome(connected, stored, orders)
  {
    if connected {
      PublishIdempotent(stored, Some(CalculateOrderStatistics(orders)));
    }
  }
}
