# Retest optimizer: a Dafny model

The retest optimizer is a small HTTP service for manufacturing inspection stations.
Each defect record holds statistics for one (factory, process, product model, defect item) tuple.
The records live in Redis hashes under a namespaced composite key.
A lookup reads the record and compares it against thresholds that the caller supplies.
It answers with a `retest_needed` verdict, the stored reproducibility rate and an alarm history `"<reproduced>/<total>"`.
A write stores a whole record.
The bulk endpoints run the single-item helpers over a list and return one result per item, in order.

The model has one module per source file, plus two helper modules:

- `Wrappers`: `Option` and `Result`.
- `Text`:
  - Python's `str()` of an int, which the alarm-history f-string uses;
  - a decimal reader that inverts it;
  - splitting a string at the first occurrence of a delimiter;
  - Python's substring test `t in s`.
- `DefectModel` (`models/defect_model.py`): the record and message shapes, as datatypes.
- `RedisConfig` (`db/redis_config.py`):
  - the namespaced key `DefectKey`;
  - the client handle `RedisClient`, whose `hashes` map stands for the Defect hashes on the server;
  - the module-level connection state, as class `RedisConfig`. Its nullable fields are `redis_conn` and `Defect.Meta.database`.
- `SingleItemRouter` (`routers/single_item_router.py`):
  - the composite key and its inverse `SplitKey`;
  - the alarm history and its inverse `ParseAlarmHistory`;
  - the decision rule `Decide`;
  - the try-block outcome `Evaluate`;
  - the two endpoints, as methods over a `RedisConfig`.
- `BulkItemsRouter` (`routers/bulk_items_router.py`):
  - the per-item helpers;
  - the two bulk endpoints, as loops that append results in input order;
  - the `success_count` fold;
  - `WritesLanded`, which says what a batch of writes leaves in the store whatever their order.

Failures are parameters of the operations:

- a failing Redis command, as an error message;
- a stored field that does not parse as a number (`ReadFault.MalformedRecord`);
- a failing client creation or ping.

The bulk endpoints take a map from item index to that item's failure.

Behaviour of the code that is easy to misread, which the model follows:

- Missing record: the code answers `retest_needed=False`. By the field's documented polarity (`models/defect_model.py:46-48`) and the comment beside the answer (`routers/single_item_router.py:35`), that means a retest is needed.
- Range checks: no code checks that `reproduced_count <= total_inspections` or that the rate lies in [0, 1]. So the model assumes neither.
- Bulk endpoints without a connection:
  - `get_redis_instance` is called outside each helper's `try` block.
  - So a missing connection is not isolated per item. It fails the whole batch, because the join re-raises it.
  - An empty batch calls no helper, so it succeeds even without a connection.
- `close_redis_connection` does not reset `redis_conn`, so `get_redis_instance` still returns the closed client afterwards.

## Model

| member | source | states |
|---|---|---|
| `DefectModel.UnsetCountersDefault` | retest_optimizer/models/defect_model.py:14-20 | a Defect given only its four identifying strings has rate 0.0, total 0 and reproduced count 0 |
| `Text.IntToString` | retest_optimizer/routers/single_item_router.py:59 | the int's decimal form is non-empty, has no '/', starts with '-' exactly for negatives, and is otherwise all digits |
| `Text.IntToStringRoundTrip` | retest_optimizer/routers/single_item_router.py:59 | the decimal form that the f-string writes for any int, negatives included, reads back as that same int |
| `Text.NatToStringRoundTrip` | retest_optimizer/routers/single_item_router.py:59 | the digit string of a non-negative int reads back as that int |
| `Text.SplitOnceJoin` | retest_optimizer/routers/single_item_router.py:24 | joining two strings with a delimiter the first one lacks is undone by splitting at the first delimiter |
| `DefectModel.StoredRecord` | retest_optimizer/routers/single_item_router.py:89 | `record.dict()` stores all seven fields of the request unchanged, none left at its default |
| `Text.Contains` | retest_optimizer/routers/bulk_items_router.py:99 | Python's `t in s`: a string contains nothing longer than itself and always contains the empty string |
| `RedisConfig.DefectKey` | retest_optimizer/db/redis_config.py:39-44 | the Redis key is the fixed prefix `models.defect_model.Defect:` followed by the primary key unchanged |
| `RedisConfig.DefectKeyRoundTrip` | retest_optimizer/db/redis_config.py:44 | stripping the namespace from a Redis key gives back the primary key |
| `RedisConfig.DefectKeyInjective` | retest_optimizer/db/redis_config.py:44 | two primary keys give the same Redis key if and only if they are equal |
| `RedisConfig.RedisClient.HGetAll` | retest_optimizer/routers/single_item_router.py:29-32 | a read returns the stored record, "absent" for a missing key, or the command's error, and changes nothing |
| `RedisConfig.RedisClient.HSet` | retest_optimizer/routers/single_item_router.py:89 | a successful write replaces the whole record at the key and touches no other key; a failed write changes nothing |
| `RedisConfig.RedisConfig.constructor` | retest_optimizer/db/redis_config.py:6 | before any connect, neither `redis_conn` nor `Defect.Meta.database` is set |
| `RedisConfig.RedisConfig.ConnectToRedis` | retest_optimizer/db/redis_config.py:9-20 | once the client exists, `redis_conn` and `Defect.Meta.database` are both that client, even when the ping then fails; if creating the client fails, neither changes; any failure is re-raised |
| `RedisConfig.RedisConfig.CloseRedisConnection` | retest_optimizer/db/redis_config.py:23-27 | close is issued exactly when a client is set; a failing close is not caught and its error comes back; either way no state changes |
| `RedisConfig.RedisConfig.GetRedisInstance` | retest_optimizer/db/redis_config.py:30-36 | ConnectionError with the fixed message when no client was ever set, otherwise the stored client |
| `RedisConfig.InstanceAfterClose` | retest_optimizer/db/redis_config.py:23-36 | after connect and close, whether or not the close failed, asking for the instance still yields the closed client |
| `SingleItemRouter.CompositeKeyLayout` | retest_optimizer/routers/single_item_router.py:24 | the composite key (also built at single_item_router.py:82 and bulk_items_router.py:22, :77) is factory, process, model and item in that order, with one ':' after each of the first three |
| `SingleItemRouter.CompositeKeyRoundTrip` | retest_optimizer/routers/single_item_router.py:24 | when factory, process and model contain no `:`, the composite key splits back into exactly the four fields; the defect item may itself contain `:` |
| `SingleItemRouter.CompositeKeyInjective` | retest_optimizer/routers/single_item_router.py:24 | for tuples whose first three fields contain no `:`, equal keys if and only if equal tuples |
| `SingleItemRouter.CompositeKeyCollision` | retest_optimizer/routers/single_item_router.py:24 | without that condition, two different tuples produce the same key |
| `SingleItemRouter.AlarmHistory` | retest_optimizer/routers/single_item_router.py:59 | the history splits at its first '/' into exactly the formatted reproduced count and the formatted total |
| `SingleItemRouter.AlarmHistoryRoundTrip` | retest_optimizer/routers/single_item_router.py:59 | an alarm history always reads back as the (reproduced, total) pair that built it |
| `SingleItemRouter.NotFoundResponse` | retest_optimizer/routers/single_item_router.py:32-39 | missing record: `retest_needed` is false (retest needed), rate is 0.0, the history is the one for 0 reproduced of 0 inspections, and the request is echoed back |
| `SingleItemRouter.Decide` | retest_optimizer/routers/single_item_router.py:47-61 | `retest_needed` (true meaning no retest is needed) holds exactly when rate >= reproducibility criterion and total >= minimum inspections; the stored rate is reported unchanged; the history is built from (reproduced, total) whatever the verdict; the request is echoed back |
| `SingleItemRouter.DecisionIgnoresAnalysisFields` | retest_optimizer/routers/single_item_router.py:48-50 | changing `analysis_criteria` or `analysis_period` changes nothing in the verdict except the echoed request |
| `SingleItemRouter.Evaluate` | retest_optimizer/routers/single_item_router.py:28-61 | the try block fails exactly when the read command fails, or when a record exists and its fields do not parse; every answer echoes the request |
| `SingleItemRouter.EvaluateHistoryReadsBack` | retest_optimizer/routers/single_item_router.py:32-59 | the history of every successful lookup reads back as the stored (reproduced, total), or as (0, 0) for a missing record |
| `SingleItemRouter.CheckSingleItem` | retest_optimizer/routers/single_item_router.py:20-68 | no connection gives a not-connected failure; otherwise the try-block answer for the current store is returned, or a server error if the try block failed; the store is not changed |
| `SingleItemRouter.CreateOrUpdateRecord` | retest_optimizer/routers/single_item_router.py:78-98 | on success, the full record is at the namespaced key and the response holds the un-namespaced key with status `created_or_updated`; a failed write is a server error and changes nothing; no connection gives a not-connected failure |
| `SingleItemRouter.WriteThenRead` | retest_optimizer/routers/single_item_router.py:81-89 | after writing a record, a lookup of the same tuple gives the verdict for exactly the written counters |
| `SingleItemRouter.WriteLeavesOtherTuples` | retest_optimizer/routers/single_item_router.py:81-89 | writing a record leaves the lookup of every other tuple unchanged, when neither tuple has a `:` in its first three fields |
| `SingleItemRouter.Upsert` | retest_optimizer/routers/single_item_router.py:89 | after the write the store's keys are the old keys plus the record's namespaced key, that key holds the stored record, and every other key keeps its record |
| `SingleItemRouter.UpsertIdempotent` | retest_optimizer/routers/single_item_router.py:89 | writing the same record twice leaves the same store as writing it once |
| `SingleItemRouter.Scenarios` | retest_optimizer/routers/single_item_router.py:47-59 | a record with 98 of 100 reproduced at rate 0.98, checked against criterion 0.9, gives true with minimum 5 and false with minimum 200, history "98/100" both times |
| `BulkItemsRouter.ErrorResponse` | retest_optimizer/routers/bulk_items_router.py:50-58 | a failed item answers false with rate 0.0 and alarm history "error", and echoes its request |
| `BulkItemsRouter.ErrorMarkerIsNotAHistory` | retest_optimizer/routers/bulk_items_router.py:56 | the error marker "error" does not read as an alarm history, so it cannot be mistaken for a real verdict's evidence |
| `BulkItemsRouter.CheckItem` | retest_optimizer/routers/bulk_items_router.py:26-58 | a per-item lookup gives the single lookup's answer when its try block succeeds; it carries the error marker exactly when the try block failed, and is then the error-marked answer (false, 0.0, "error"); it always echoes its request |
| `BulkItemsRouter.ProcessSingleCheckRequest` | retest_optimizer/routers/bulk_items_router.py:20-58 | no connection is raised; otherwise an answer is always returned, never an exception |
| `BulkItemsRouter.CheckBulkItems` | retest_optimizer/routers/bulk_items_router.py:66-71 | one result per request, in request order; result i depends only on request i and its own failure, so a failing item leaves the others correct; an empty batch gives an empty result; without a connection, a non-empty batch fails |
| `BulkItemsRouter.CreatedOrUpdatedIsNotAnError` | retest_optimizer/routers/bulk_items_router.py:99 | the success status does not contain "error" |
| `BulkItemsRouter.CreateResult` | retest_optimizer/routers/bulk_items_router.py:81-86 | the per-item answer carries the composite key; its status is `created_or_updated` on success and `error: <message>` on failure, so it contains "error" exactly when the write failed |
| `BulkItemsRouter.ProcessSingleCreateRecord` | retest_optimizer/routers/bulk_items_router.py:74-86 | a successful write stores the full record; a failed write changes nothing and is reported in the status (`error: <message>`) instead of being raised |
| `BulkItemsRouter.WrittenStep` | retest_optimizer/routers/bulk_items_router.py:97-98 | a key has been written by the first j+1 items exactly when the first j wrote it, or when item j succeeded and has that key |
| `BulkItemsRouter.KeyLandedStep` | retest_optimizer/routers/bulk_items_router.py:97-98 | processing one more item, whether it succeeds or fails, keeps every key consistent with the writes so far |
| `BulkItemsRouter.ApplyWritesLanded` | retest_optimizer/routers/bulk_items_router.py:97-98 | applying the writes one after another is one of the outcomes allowed when they run concurrently |
| `BulkItemsRouter.SoleWriterWins` | retest_optimizer/routers/bulk_items_router.py:97-98 | a key that exactly one successful item writes ends up holding that item's record |
| `BulkItemsRouter.SuccessCount` | retest_optimizer/routers/bulk_items_router.py:99 | the success count lies between 0 and the number of results |
| `BulkItemsRouter.SuccessCountOfBatch` | retest_optimizer/routers/bulk_items_router.py:99 | for a batch's results, the success count equals the number of items whose write went through |
| `BulkItemsRouter.CreateOrUpdateBulkRecords` | retest_optimizer/routers/bulk_items_router.py:95-101 | one result per record, in input order, each with its own status; every successful write has landed and a failed item stops no other item; untouched keys keep their records; the logged success count is the number of successful items; an empty batch gives an empty list; without a connection, a non-empty batch fails |

## Left out

- HTTP routing, decorators and status codes: a request that ends in HTTP 500 is an error outcome, `NotConnected` (the escaped `ConnectionError`) or `InternalServerError` (the `HTTPException`).
- `BulkItemsRouter.CreateOrUpdateBulkRecords`: does not say which record a key holds when several successful items of one batch write it, because the concurrent writes have no defined order.
- Concurrency of the bulk endpoints (`asyncio.gather`): the items run one after another in list order. The bulk write's postcondition (`WritesLanded`) does not say which of several items writing the same key wins, because the service does not fix that order.
- Redis network I/O: creating the client, `ping`, `close`, `hgetall` and `hset`. Their failures are parameters. A failed `hset` is taken to leave the hash unchanged.
- Redis `HSET` merges fields into an existing hash. Every write sets all seven fields, so the model replaces the record as a whole. A hash with other fields, written by another program, is not modelled.
- String-to-number conversion on read and write: stored values are already typed, and the rate is a `real`.
  - A value that fails to parse, or a field missing from the hash, is the injected `MalformedRecord` fault.
  - NaN and infinities are not modelled.
  - Float formatting is left out. Python's float-to-string-to-float round trip is exact, so it does not change a stored rate.
- The exception text `str(e)` in a bulk write's status is the injected failure message.
- The truthiness test `if not redis_conn` is taken to fail only when no client is set; a client object is always truthy.
- Logging (`utils/logging_config.py` and every `logger` call), configuration (`config.py`), process startup (`__main__.py`), the lifespan hook and the health check (`main.py`): none affects the modelled results.
- aredis_om `HashModel` internals and pydantic validation and coercion of request fields: requests are already well-typed values.
