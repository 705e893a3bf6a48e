# Order statistics: a Dafny model

The system is a small shop. An HTTP API stores products and orders in
MongoDB. A separate worker process wakes up at a fixed interval. Each time, it
aggregates the orders collection into one statistics record per calendar day:
the `date` key `day-month-year`, the number of orders that day and the sum of
their totals. It then replaces the statistics collection with that result.

This project models three parts of that system and proves what they promise:

- the worker's database layer (`Calendar`, `Statistics`, `WorkerDb`): the
  connection string, the `$group`/`$project` aggregation, and the
  delete-then-insert publish step under the unique index on `date`;
- the worker's scheduler (`Scheduler`): a `Worker` object whose `_interval`
  handle is null or one repeating timer, and the cycle that timer runs;
- the API's order routes (`Orders`): `POST /orders` (existence check, price
  stamping, total, auto-increment id) and `GET /orders/:id`.

Files:

- `wrappers.dfy`: `Option`.
- `calendar.dfy`: the day triple, decimal rendering, `$substr`, the date key.
- `statistics.dfy`: the aggregation pipeline and its reference definition.
- `worker_db.dfy`: the connection string, ordered insert, publish, and the
  `Database`/`DB` classes.
- `scheduler.dfy`: the timer host, the `Worker` class and its lifecycle.
- `orders.dfy`: the order routes over an `OrderStore` class.

Several contracts state behaviour of the code that a reader might not
expect:

- The date key is not zero-padded. `$substr` of an integer gives its plain
  decimal rendering and then cuts it, so the first of February 2020 becomes
  `1-2-2020`, not `01-02-2020` (`Calendar.DateKeyExample`).
- Publishing is not atomic. The old statistics are deleted before the insert.
  An insert that fails on a duplicate `date` leaves only the records before the
  duplicate (`WorkerDb.PublishDuplicateFails`). On valid days the aggregation
  never produces such a duplicate (`Statistics.CalculateIsStatistics`).
- The existence check compares the number of matched products with the number
  of items. So an order that lists one product twice is rejected just like one
  that names a missing product (`Orders.ExistenceCheck`).
- A timer callback has no `catch`, and nothing stops two cycles from
  overlapping. The model reports a failed cycle as `ok == false` and makes no
  claim about logging or overlap.
- `POST /orders` answers 201, as the handler does
  (`deploy/api/src/lib/server/routes/api/orders.js:77`), although its Swagger
  annotation lists 200 (`orders.js:25`).
- An order with an empty item list passes the existence check (no ids, no
  matches) and is saved with total 0. The Order schema requires `items` but
  sets no minimum length (`deploy/api/src/lib/db/schemas/order.js:6-15`).

## Model

| member | source | states |
|---|---|---|
| Calendar.Decimal | deploy/worker/src/lib/db/index.js:86-88 | the string `$substr` reads from an integer has only digits, at least one, and no leading zero unless the number is 0 |
| Calendar.DecimalRoundTrip | deploy/worker/src/lib/db/index.js:86-88 | parsing the rendering of any number gives the number back |
| Calendar.DecimalInjective | deploy/worker/src/lib/db/index.js:86-88 | two numbers render the same exactly when they are equal |
| Calendar.Substr | deploy/worker/src/lib/db/index.js:86-88 | `$substr` gives the slice from `start` of length `min(length, rest)`, empty past the end, never padded |
| Calendar.DateKey | deploy/worker/src/lib/db/index.js:84-90 | the `date` string is 5 to 10 characters long; which string it is for a day is stated by DateKeyUnpadded, DateKeyInjective and DateKeyExample |
| Calendar.DateKeyUnpadded | deploy/worker/src/lib/db/index.js:84-90 | on a valid day the cuts remove nothing: the key is the three unpadded renderings joined by `-` |
| Calendar.DateKeyInjective | deploy/worker/src/lib/db/index.js:84-90 | on valid days two keys are equal exactly when the days are equal |
| Calendar.DateKeyExample | deploy/worker/src/lib/db/index.js:84-90 | the first of February 2020 gets the key `1-2-2020` |
| Calendar.FiveDigitYearsCollide | deploy/worker/src/lib/db/index.js:88 | the 4-character cut gives years 10000 and 10001 the same key, so the year bound is needed for injectivity |
| Statistics.FindGroup | deploy/worker/src/lib/db/index.js:72-76 | the index of the bucket with the order's day, or -1 exactly when no bucket has that day |
| Statistics.AddOrder | deploy/worker/src/lib/db/index.js:71-79 | one order adds at most one bucket; existing buckets keep their keys; buckets of other days are untouched; the order's day has a bucket afterwards |
| Statistics.GroupOrders | deploy/worker/src/lib/db/index.js:71-79 | at most one bucket per order, and no buckets exactly when there are no orders |
| Statistics.GroupOrdersSummarizes | deploy/worker/src/lib/db/index.js:71-79 | the `$group` buckets have distinct days, cover exactly the days with orders, and each holds that day's order count and price sum |
| Statistics.CalculateOrderStatistics | deploy/worker/src/lib/db/index.js:68-103 | the aggregation yields at most one record per order, and none exactly when there are no orders |
| Statistics.ProjectKeepsSums | deploy/worker/src/lib/db/index.js:81-94 | the `$project` stage (Project on each bucket, ProjectAll on all) keeps the sums of the counts and of the totals |
| Statistics.CalculateIsStatistics | deploy/worker/src/lib/db/index.js:68-103 | on valid days the result is exactly the set of per-day records (each day's key, count and total), with distinct dates, and empty exactly when there are no orders |
| Statistics.OneRecordPerDay | deploy/worker/src/lib/db/index.js:71-76 | there are as many records as distinct days carrying orders |
| Statistics.StatisticsConserve | deploy/worker/src/lib/db/index.js:77-78 | the record counts add up to the number of orders, and the record totals to the sum of all order totals |
| Statistics.WorkerScenario | test/worker/worker.test.js:47-87 | one order of 50 on the first and two totalling 150 on the second give two records `(1, 50)` and `(2, 150)` |
| WorkerDb.ConnectionUri | deploy/worker/src/lib/db/index.js:37-41 | the string is `mongodb://<uri>/`, plus `?replicaSet=<name>` exactly when a replica set is named |
| WorkerDb.OrderedInsert | deploy/worker/src/lib/db/index.js:116 | the ordered insert leaves the old documents followed by a prefix of the new ones, all of them when it succeeds |
| WorkerDb.OrderedInsertOutcome | deploy/worker/src/lib/db/index.js:116 | under the unique index the ordered insert succeeds exactly when all dates stay distinct, and the dates it leaves are always distinct |
| WorkerDb.Publish | deploy/worker/src/lib/db/index.js:111-120 | null or an empty set leaves the collection and succeeds; otherwise the old records are gone and the collection is a prefix of the new set, the whole set on success |
| WorkerDb.PublishReplaces | deploy/worker/src/lib/db/index.js:112-116 | publishing a non-empty set with distinct dates leaves exactly that set and succeeds |
| WorkerDb.PublishDuplicateFails | deploy/worker/src/lib/db/index.js:115-116 | publishing a set with a repeated date fails and leaves a strict prefix of it, the old records gone |
| WorkerDb.PublishKeepsIndex | deploy/api/src/lib/db/schemas/statistics.js:4-8 | whatever is published, no two stored statistics share a date |
| WorkerDb.PublishIdempotent | deploy/worker/src/lib/db/index.js:111-120 | publishing the same set twice leaves what publishing once leaves |
| WorkerDb.DB.constructor | deploy/worker/src/lib/db/index.js:23-28 | a new handle has no instance |
| WorkerDb.DB.Connect | deploy/worker/src/lib/db/index.js:36-60 | builds the connection string; the instance is set afterwards exactly when it was before or the server is reached; returns whether it is set |
| WorkerDb.DB.CalculateOrderStatistics | deploy/worker/src/lib/db/index.js:68-103 | with an instance, returns the aggregation of the stored orders; without one, rejects |
| WorkerDb.DB.InsertOrderStatistics | deploy/worker/src/lib/db/index.js:111-120 | null or an empty set changes nothing; otherwise the collection becomes the ordered insert of the set into an emptied collection; without an instance a non-empty set rejects and changes nothing |
| Scheduler.TimerHost.SetInterval | deploy/worker/src/lib/worker/index.js:32-35 | registers exactly one timer with the given period under a handle not already active |
| Scheduler.TimerHost.ClearInterval | deploy/worker/src/lib/worker/index.js:47 | removes exactly the given handle from the active timers |
| Scheduler.CycleOutcome | deploy/worker/src/lib/worker/index.js:32-35 | without an instance nothing changes and the cycle fails; with one and no orders nothing changes; otherwise the collection becomes a prefix of the calculated statistics |
| Scheduler.Worker.constructor | deploy/worker/src/lib/worker/index.js:16-22 | a new worker is stopped and owns no timer |
| Scheduler.Worker.Start | deploy/worker/src/lib/worker/index.js:29-37 | afterwards the worker runs; from stopped it registers exactly one new timer with period `config.interval`; when running it changes nothing, the host's timers and handle counter included |
| Scheduler.Worker.Stop | deploy/worker/src/lib/worker/index.js:44-50 | afterwards the worker is stopped; from running it clears exactly its own timer; when stopped it changes nothing |
| Scheduler.Worker.Cycle | deploy/worker/src/lib/worker/index.js:32-35 | one firing computes the statistics and publishes exactly that result; without an instance nothing is published |
| Scheduler.AtMostOneTimer | deploy/worker/src/lib/worker/index.js:31-49 | the worker owns at most one active timer, and exactly one while running |
| Scheduler.RunCalls | deploy/worker/src/lib/worker/index.js:29-50 | after any sequence of `start`/`stop` calls on a worker it runs exactly when the last call was `start` (as before when there was none), and owns at most one timer |
| Scheduler.StartTwice | deploy/worker/src/lib/worker/index.js:29-37 | a second `start` leaves the handle, the active timers and the handle counter as the first left them |
| Scheduler.StopTwice | deploy/worker/src/lib/worker/index.js:44-50 | a second `stop` leaves the handle and the active timers as the first left them |
| Scheduler.CycleRefreshes | deploy/worker/src/lib/worker/index.js:32-35 | a connected cycle over orders on valid days replaces the statistics by a correct set, or keeps them when there are no orders |
| Scheduler.CycleIdempotent | deploy/worker/src/lib/worker/index.js:32-35 | two cycles with no new orders in between leave what one cycle leaves |
| Orders.ProductIds | deploy/api/src/lib/server/routes/api/orders.js:37-39 | the ids list has one entry per item, in order |
| Orders.Matched | deploy/api/src/lib/server/routes/api/orders.js:41-45 | the products found are exactly the requested ids that name a stored product, each once, so never more than the ids requested |
| Orders.ExistenceCheck | deploy/api/src/lib/server/routes/api/orders.js:41-54 | the count check (AllProductsFound) passes exactly when every id names a stored product and no id repeats |
| Orders.StampPrices | deploy/api/src/lib/server/routes/api/orders.js:57-63 | each merged item keeps its id and quantity, in order, and gains its product's stored price |
| Orders.Reduce | deploy/api/src/lib/server/routes/api/orders.js:69-71 | the reduce from `acc` gives `acc` plus the sum of price times quantity |
| Orders.PostScenario | test/api/orders.test.js:217-251 | 10 units of product 12345 at price 100 pass, are stamped with 100 and total 1000; an unknown product fails the check; an empty item list passes it |
| Orders.OrderStore.constructor | deploy/api/src/lib/db/index.js:84 | a new store has no orders and its counter starts at 1 |
| Orders.OrderStore.PostOrder | deploy/api/src/lib/server/routes/api/orders.js:36-81 | on a failed check: 422 with error code 20001 and nothing saved; otherwise (an empty item list included) 201 with the next id, exactly one order added under it, the request time, the items stamped with stored prices and the summed total |
| Orders.OrderStore.GetOrder | deploy/api/src/lib/server/routes/api/orders.js:108-116 | 200 with the stored order when the id exists, otherwise 404 |

## Left out

- HTTP, Express and Swagger wiring, request validation, and the products routes: the model takes a validated body (every quantity at least 1, as the OrderItem schema demands) as `PostOrder`'s precondition.
- Logging, and the driver's connection options: logging has no observable effect on state, and the options are the driver's concern.
- The MongoDB driver and Mongoose are abstracted. A reachable server is a parameter of `Connect`. A collection is a sequence or a map. The auto-increment plugin is a counter.
- Real time: `setInterval` becomes a table of active timers. When and how often a timer fires is not modelled. Overlapping cycles are not modelled, and neither is concurrency between the API and the worker.
- Prices and totals are integers, not JavaScript floating-point numbers, so rounding is not modelled.
- Extracting day, month and year from a BSON date is not modelled: an order carries its calendar day directly. Calendar.ValidDay bounds the fields as real dates with four-digit years would.
- The output order of `$group` is unspecified in MongoDB. Statistics.CalculateIsStatistics therefore states the result as a set of records with distinct dates, not as a particular sequence.
- `_.extend` adds `productPrice` to the request's own item objects in place (`deploy/api/src/lib/server/routes/api/orders.js:57-63`), so the merged items alias `req.body.items`; the model builds new `PricedItem` values and does not capture that aliasing. The fetched product documents are only read.
- Errors from the database (a failed save, an invalid id cast in `findById`) and the error middleware: only the 422 rejection and the 404 are modelled.
- The unique index on the statistics `date` is assumed to exist: `Database.Valid` and `OrderedInsert` rely on it. The worker never creates it. The API's Mongoose schema declares it (`deploy/api/src/lib/db/schemas/statistics.js:7`), and Mongoose builds it when the API mounts its models. A worker running against a database the API never opened would accept duplicate dates. On valid days the aggregation never produces those.
- The API's own database connection is not modelled. That connection string also names the database.
- Orders.OrderStore.PostOrder: the request body is taken to be its `items` alone. Extra body fields pass the Order schema, which does not forbid additional properties. The handler deep-copies the whole body (`orders.js:66`) and replies with `{ id: savedItem._id, ...orderDetails }` (`orders.js:77-80`). So the reply echoes any extra field, and a client-sent `id` replaces the assigned one. The model does not capture this: its `resp.id == old(nextId)` holds only for bodies without an `id` field.
- WorkerDb.DB.Connect: does not model the driver's asynchronous failure modes. An unreachable server only leaves the instance as it was, because the source catches and logs every connection error.
- Scheduler.Worker.Cycle: says nothing about a rejected promise escaping the timer callback, because that is the runtime's behaviour, not the worker's.
