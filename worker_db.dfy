/**
 * The worker's database layer: the connection string it builds, and the
 * publish step `insertOrderStatistics`, which replaces the whole statistics
 * collection (delete-all, then an ordered insert-all under the unique index on
 * `date`) unless it is given null or an empty set.
 */
module WorkerDb {
  import opened Wrappers
  import opened Statistics

  /** The `mongo` section of the worker's configuration. */
  datatype MongoConfig = MongoConfig(uri: string, database: string, replicaSet: string)

  /**
   * The connection string of `connect`: the host list between `mongodb://` and
   * `/`, followed by `?replicaSet=<name>` exactly when a replica set is named.
   * The database name is not part of it (the worker selects it afterwards).
   */
  function ConnectionUri(config: MongoConfig): (u: string)
    ensures var base := "mongodb://" + config.uri + "/";
            |base| <= |u| && u[..|base|] == base
            && (config.replicaSet == "" <==> u == base)
            && (config.replicaSet != "" ==> u[|base|..] == "?replicaSet=" + config.replicaSet)
  {
    var uri := "mongodb://" + config.uri + "/";
    if config.replicaSet != "" then uri + "?replicaSet=" + config.replicaSet else uri
  }

  // ---------------------------------------------------------------------------
  // The statistics collection and its unique index
  // ---------------------------------------------------------------------------

  function DatesOf(rs: seq<StatRecord>): set<string> {
    set i | 0 <= i < |rs| :: rs[i].date
  }

  /**
   * `insertMany` in its default ordered mode against the unique index: the
   * documents go in one by one, and the first whose `date` is already stored
   * fails with a duplicate-key error that stops the rest. The flag says
   * whether every document went in.
   */
  function OrderedInsert(stored: seq<StatRecord>, rs: seq<StatRecord>): (r: (seq<StatRecord>, bool))
    ensures stored <= r.0 <= stored + rs
    ensures r.1 ==> r.0 == stored + rs
    decreases |rs|
  {
    if rs == [] then (stored, true)
    else if rs[0].date in DatesOf(stored) then (stored, false)
    else
      assert stored + rs == (stored + [rs[0]]) + rs[1..];
      OrderedInsert(stored + [rs[0]], rs[1..])
  }

  /** `insertOrderStatistics` does nothing for null or an empty set. */
  predicate SkipsPublish(rs: Option<seq<StatRecord>>) {
    rs.None? || |rs.value| == 0
  }

  /** The collection after `insertOrderStatistics(rs)` on a connected database, with the success flag. */
  function Publish(stored: seq<StatRecord>, rs: Option<seq<StatRecord>>): (r: (seq<StatRecord>, bool))
    ensures SkipsPublish(rs) ==> r == (stored, true)
    ensures !SkipsPublish(rs) ==> r.0 <= rs.value && (r.1 ==> r.0 == rs.value)
  {
    if SkipsPublish(rs) then (stored, true) else OrderedInsert([], rs.value)
  }

  /**
   * Under the unique index the ordered insert succeeds exactly when no two
   * documents of the final collection would share a `date`, and whatever it
   * leaves has distinct dates.
   */
  lemma {:induction false} OrderedInsertOutcome(stored: seq<StatRecord>, rs: seq<StatRecord>)
    requires DistinctDates(stored)
    ensures OrderedInsert(stored, rs).1 <==> DistinctDates(stored + rs)
    ensures DistinctDates(OrderedInsert(stored, rs).0)
    decreases |rs|
  {
    if rs == [] {
      assert stored + rs == stored;
    } else if rs[0].date in DatesOf(stored) {
      var i :| 0 <= i < |stored| && stored[i].date == rs[0].date;
      assert (stored + rs)[i].date == (stored + rs)[|stored|].date;
    } else {
      var next := stored + [rs[0]];
      assert stored + rs == next + rs[1..];
      assert DistinctDates(next) by {
        forall i | 0 <= i < |stored| ensures stored[i].date != rs[0].date {
          assert stored[i].date in DatesOf(stored);
        }
      }
      OrderedInsertOutcome(next, rs[1..]);
    }
  }

  /** Publishing a non-empty set with distinct dates replaces the collection by exactly that set. */
  lemma PublishReplaces(stored: seq<StatRecord>, rs: seq<StatRecord>)
    requires |rs| > 0 && DistinctDates(rs)
    ensures Publish(stored, Some(rs)) == (rs, true)
  {
    OrderedInsertOutcome([], rs);
    assert [] + rs == rs;
  }

  /**
   * Publishing a set with a repeated `date` fails after the old statistics are
   * gone: the collection holds only the part of the set before the duplicate.
   */
  lemma PublishDuplicateFails(stored: seq<StatRecord>, rs: seq<StatRecord>)
    requires !DistinctDates(rs)
    ensures !Publish(stored, Some(rs)).1
    ensures Publish(stored, Some(rs)).0 < rs
  {
    OrderedInsertOutcome([], rs);
    assert [] + rs == rs;
  }

  /** Whatever is published, the collection keeps distinct dates. */
  lemma PublishKeepsIndex(stored: seq<StatRecord>, rs: Option<seq<StatRecord>>)
    requires DistinctDates(stored)
    ensures DistinctDates(Publish(stored, rs).0)
  {
    if !SkipsPublish(rs) {
      OrderedInsertOutcome([], rs.value);
    }
  }

  /** Publishing the same set twice leaves the collection as publishing it once. */
  lemma PublishIdempotent(stored: seq<StatRecord>, rs: Option<seq<StatRecord>>)
    ensures Publish(Publish(stored, rs).0, rs) == Publish(stored, rs)
  {
  }

  // ---------------------------------------------------------------------------
  // The database and the DB handle
  // ---------------------------------------------------------------------------

  /** The two collections of the shared database that the worker touches. */
  class Database {
    var orders: seq<Order>
    var statistics: seq<StatRecord>

    ghost predicate Valid()
      reads this
    {
      DistinctDates(statistics)
    }

    constructor (orders: seq<Order>, statistics: seq<StatRecord>)
      requires DistinctDates(statistics)
      ensures Valid() && this.orders == orders && this.statistics == statistics
    {
      this.orders := orders;
      this.statistics := statistics;
    }
  }

  /** The `DB` class of the worker: a handle on the database, usable once connected. */
  class DB {
    const config: MongoConfig
    const store: Database
    /** Whether `instance` is set (a connection has been made). */
    var connected: bool

    constructor (config: MongoConfig, store: Database)
      ensures this.config == config && this.store == store && !connected
    {
      this.config := config;
      this.store := store;
      connected := false;
    }

    /**
     * `connect`: builds the connection string and, when the driver reaches
     * the server (`reachable`), sets the instance; a failed attempt is only
     * logged and leaves the handle as it was. Returns whether an instance is set.
     */
    method Connect(reachable: bool) returns (uri: string, hasInstance: bool)
      modifies this`connected
      ensures uri == ConnectionUri(config)
      ensures connected == (old(connected) || reachable)
      ensures hasInstance == connected
    {
      uri := "mongodb://" + config.uri + "/";
      if config.replicaSet != "" {
        uri := uri + "?replicaSet=" + config.replicaSet;
      }
      if reachable {
        connected := true;
      }
      hasInstance := connected;
    }

    /**
     * `calculateOrderStatistics`: runs the aggregation over the orders
     * collection; without an instance the call rejects (None).
     */
    method CalculateOrderStatistics() returns (r: Option<seq<StatRecord>>)
      ensures connected ==> r == Some(Statistics.CalculateOrderStatistics(store.orders))
      ensures !connected ==> r.None?
    {
      if connected {
        r := Some(Statistics.CalculateOrderStatistics(store.orders));
      } else {
        r := None;
      }
    }

    /**
     * `insertOrderStatistics`: for null or an empty set, nothing happens;
     * otherwise every stored record is deleted and the set is inserted in
     * order. Without an instance a non-empty set makes the call reject before
     * anything is deleted. `ok` is false when the call rejects.
     */
    method InsertOrderStatistics(rs: Option<seq<StatRecord>>) returns (ok: bool)
      requires store.Valid()
      modifies store`statistics
      ensures store.Valid()
      ensures SkipsPublish(rs) ==> ok && store.statistics == old(store.statistics)
      ensures connected ==> (store.statistics, ok) == Publish(old(store.statistics), rs)
      ensures !connected ==> store.statistics == old(store.statistics) && ok == SkipsPublish(rs)
    {
      ok := true;
      if rs.Some? && |rs.value| > 0 {
        if !connected {
          ok := false;
          return;
        }
        store.statistics := [];                                   // deleteMany({})
        var inserted := OrderedInsert(store.statistics, rs.value);   // insertMany(rs)
        store.statistics, ok := inserted.0, inserted.1;
        OrderedInsertOutcome([], rs.value);
      }
    }
  }
}
