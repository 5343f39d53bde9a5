/** The bulk endpoints: the single-item helpers run over every item of a list,
    with a failure inside an item's try block turned into an error-marked
    result for that item alone. The service runs the items concurrently and
    joins them; the model runs them one after another, which is one of the
    interleavings the service allows, and states what holds for all of them. */
module BulkItemsRouter {
  import opened Wrappers
  import opened Text
  import opened DefectModel
  import opened RedisConfig
  import opened SingleItemRouter

  /** The alarm history of an item whose lookup failed. */
  const ErrorMarker: string := "error"

  function FaultAt<F>(faults: map<nat, F>, i: nat): Option<F> {
    if i in faults then Some(faults[i]) else None
  }

  // ---------------------------------------------------------------- check

  /** The error-marked answer: retest needed (false), rate 0.0, history "error". */
  function ErrorResponse(request: InspectionRequest): (r: InspectionResponse)
    ensures !r.retestNeeded && r.reproducibilityRate == 0.0 && r.requestData == request
    ensures r.alarmHistory == ErrorMarker
  {
    InspectionResponse(false, 0.0, ErrorMarker, request)
  }

  /** The error marker can be told apart from every alarm history. */
  lemma ErrorMarkerIsNotAHistory()
    ensures ParseAlarmHistory(ErrorMarker).None?
  {
    assert '/' !in ErrorMarker;
  }

  /** What `process_single_check_request` answers once a client exists: the
      single check's response, or the error-marked one if its try block failed.
      The marker can be told apart from every real history. */
  function CheckItem(hashes: map<string, Defect>, request: InspectionRequest, fault: Option<ReadFault>)
    : (r: InspectionResponse)
    ensures r.requestData == request
    ensures r.alarmHistory == ErrorMarker <==> Evaluate(hashes, request, fault).Failure?
    ensures Evaluate(hashes, request, fault).Success? ==> r == Evaluate(hashes, request, fault).value
    ensures Evaluate(hashes, request, fault).Failure? ==> r == ErrorResponse(request)
  {
    EvaluateHistoryReadsBack(hashes, request, fault);
    ErrorMarkerIsNotAHistory();
    match Evaluate(hashes, request, fault)
    case Success(response) => response
    case Failure(_) => ErrorResponse(request)
  }

  /** `process_single_check_request`: a missing connection is raised (it is
      looked up outside the try block); everything else yields a response. */
  method ProcessSingleCheckRequest(config: RedisConfig, request: InspectionRequest, fault: Option<ReadFault>)
    returns (r: Result<InspectionResponse, ServerError>)
    ensures config.redisConn == null ==> r == Failure(NotConnected)
    ensures config.redisConn != null ==> r == Success(CheckItem(config.redisConn.hashes, request, fault))
  {
    var customPk := RequestKey(request);
    var keyName := DefectKey(customPk);
    var instance := config.GetRedisInstance();
    if instance.Failure? {
      return Failure(NotConnected);
    }
    var redis := instance.value;
    var commandFailure := if fault.Some? && fault.value.CommandFailed? then Some(fault.value.msg) else None;
    var data := redis.HGetAll(keyName, commandFailure);
    if data.Failure? {
      return Success(ErrorResponse(request));
    }
    if data.value.None? {
      return Success(NotFoundResponse(request));
    }
    if fault.Some? {
      return Success(ErrorResponse(request));
    }
    r := Success(Decide(request, data.value.value));
  }

  /** `check_bulk_items`: one result per request, in request order, each the
      item's own answer under its own fault, so a failing item affects no
      other. A missing connection fails the whole batch, unless it is empty. */
  method CheckBulkItems(config: RedisConfig, bulkRequest: BulkInspectionRequest, faults: map<nat, ReadFault>)
    returns (r: Result<BulkInspectionResponse, ServerError>)
    ensures |bulkRequest.requests| == 0 ==> r == Success(BulkInspectionResponse([]))
    ensures config.redisConn == null && 0 < |bulkRequest.requests| ==> r == Failure(NotConnected)
    ensures config.redisConn != null ==>
      r.Success? && |r.value.results| == |bulkRequest.requests| &&
      forall i :: 0 <= i < |bulkRequest.requests| ==>
        r.value.results[i] == CheckItem(config.redisConn.hashes, bulkRequest.requests[i], FaultAt(faults, i))
  {
    var requests := bulkRequest.requests;
    ghost var hashes := if config.redisConn != null then config.redisConn.hashes else map[];
    var results: seq<InspectionResponse> := [];
    var i := 0;
    while i < |requests|
      invariant 0 <= i <= |requests|
      invariant |results| == i
      invariant 0 < i ==> config.redisConn != null
      invariant config.redisConn != null ==> config.redisConn.hashes == hashes
      invariant forall k :: 0 <= k < i ==> results[k] == CheckItem(hashes, requests[k], FaultAt(faults, k))
    {
      var result := ProcessSingleCheckRequest(config, requests[i], FaultAt(faults, i));
      if result.Failure? {
        return Failure(result.error);
      }
      results := results + [result.value];
      i := i + 1;
    }
    r := Success(BulkInspectionResponse(results));
  }

  // ---------------------------------------------------------------- write

  /** `process_single_create_record`'s answer: the composite key, and the
      status "created_or_updated" or "error: <message>". */
  function CreateResult(record: CreateRecordRequest, failure: Option<string>): (r: CreateResponse)
    ensures r.pk == RecordKey(record)
    ensures Contains(r.status, ErrorMarker) <==> failure.Some?
    ensures failure.None? ==> r.status == CreatedOrUpdated
    ensures failure.Some? ==> r.status == "error: " + failure.value
  {
    if failure.None? then
      CreatedOrUpdatedIsNotAnError();
      CreateResponse(RecordKey(record), CreatedOrUpdated)
    else
      assert "error: " + failure.value == ErrorMarker + (": " + failure.value);
      ContainsPrefix(ErrorMarker, ": " + failure.value);
      CreateResponse(RecordKey(record), "error: " + failure.value)
  }

  /** The success status does not contain "error": 'e' is never followed by 'r' in it. */
  lemma CreatedOrUpdatedIsNotAnError()
    ensures !Contains(CreatedOrUpdated, ErrorMarker)
  {
    assert NoPairFrom(CreatedOrUpdated, 'e', 'r', 12);
    assert NoPairFrom(CreatedOrUpdated, 'e', 'r', 6);
    assert NoPairFrom(CreatedOrUpdated, 'e', 'r', 0);
    NoPairNotContains(CreatedOrUpdated, ErrorMarker);
  }

  /** `process_single_create_record`: writes the record; a failed write is
      reported in the status instead of being raised. */
  method ProcessSingleCreateRecord(config: RedisConfig, record: CreateRecordRequest, failure: Option<string>)
    returns (r: Result<CreateResponse, ServerError>)
    modifies config.redisConn
    ensures config.redisConn == null ==> r == Failure(NotConnected)
    ensures config.redisConn != null ==>
      r == Success(CreateResult(record, failure)) &&
      config.redisConn.hashes ==
        if failure.None? then Upsert(old(config.redisConn.hashes), record) else old(config.redisConn.hashes)
  {
    var customPk := RecordKey(record);
    var keyName := DefectKey(customPk);
    var instance := config.GetRedisInstance();
    if instance.Failure? {
      return Failure(NotConnected);
    }
    var redis := instance.value;
    var written := redis.HSet(keyName, StoredRecord(record), failure);
    if written.Failure? {
      return Success(CreateResponse(customPk, "error: " + written.error));
    }
    r := Success(CreateResponse(customPk, CreatedOrUpdated));
  }

  /** The hashes after the first n writes of a batch, run in list order;
      an item with a failure writes nothing. */
  function ApplyWrites(hashes: map<string, Defect>, records: seq<CreateRecordRequest>,
                       failures: map<nat, string>, n: nat): map<string, Defect>
    requires n <= |records|
  {
    if n == 0 then hashes
    else
      var before := ApplyWrites(hashes, records, failures, n - 1);
      if n - 1 in failures then before else Upsert(before, records[n - 1])
  }

  /** Some item among the first n succeeded in writing key k. */
  ghost predicate Written(records: seq<CreateRecordRequest>, failures: map<nat, string>, n: nat, k: string)
    requires n <= |records|
  {
    exists i :: 0 <= i < n && i !in failures && DefectKey(RecordKey(records[i])) == k
  }

  /** Some item among the first n succeeded in writing value d at key k. */
  ghost predicate WrittenWith(records: seq<CreateRecordRequest>, failures: map<nat, string>, n: nat,
                              k: string, d: Defect)
    requires n <= |records|
  {
    exists i :: 0 <= i < n && i !in failures && DefectKey(RecordKey(records[i])) == k &&
      StoredRecord(records[i]) == d
  }

  /** What any order of the first n writes leaves at key k: present exactly
      when it was present before or was written; if written, holding the
      record of one of its successful writers, and otherwise its old record. */
  ghost predicate KeyLanded(before: map<string, Defect>, after: map<string, Defect>,
                            records: seq<CreateRecordRequest>, failures: map<nat, string>, n: nat, k: string)
    requires n <= |records|
  {
    && (k in after <==> k in before || Written(records, failures, n, k))
    && (k in after && !Written(records, failures, n, k) ==> after[k] == before[k])
    && (k in after && Written(records, failures, n, k) ==> WrittenWith(records, failures, n, k, after[k]))
  }

  /** The first n writes have landed, in some order, at every key. Which of
      several writers to one key wins is left open. */
  ghost predicate WritesLanded(before: map<string, Defect>, after: map<string, Defect>,
                               records: seq<CreateRecordRequest>, failures: map<nat, string>, n: nat)
    requires n <= |records|
  {
    forall k :: KeyLanded(before, after, records, failures, n, k)
  }

  lemma WrittenStep(records: seq<CreateRecordRequest>, failures: map<nat, string>, j: nat, k: string)
    requires j < |records|
    ensures Written(records, failures, j + 1, k) <==>
      Written(records, failures, j, k) || (j !in failures && DefectKey(RecordKey(records[j])) == k)
  {
    if Written(records, failures, j + 1, k) {
      var i :| 0 <= i < j + 1 && i !in failures && DefectKey(RecordKey(records[i])) == k;
      if i < j {
        assert Written(records, failures, j, k);
      }
    }
    if Written(records, failures, j, k) {
      var i :| 0 <= i < j && i !in failures && DefectKey(RecordKey(records[i])) == k;
      assert 0 <= i < j + 1;
    }
  }

  /** One more write, or one more failed item, keeps key k landed. */
  lemma KeyLandedStep(before: map<string, Defect>, prev: map<string, Defect>,
                      records: seq<CreateRecordRequest>, failures: map<nat, string>, j: nat, k: string)
    requires j < |records|
    requires KeyLanded(before, prev, records, failures, j, k)
    ensures KeyLanded(before, if j in failures then prev else Upsert(prev, records[j]),
                      records, failures, j + 1, k)
  {
    var next := if j in failures then prev else Upsert(prev, records[j]);
    WrittenStep(records, failures, j, k);
    if k in next && Written(records, failures, j + 1, k) {
      if j !in failures && k == DefectKey(RecordKey(records[j])) {
        assert next[k] == StoredRecord(records[j]);
        assert WrittenWith(records, failures, j + 1, k, next[k]);
      } else {
        assert next[k] == prev[k];
        var i :| 0 <= i < j && i !in failures && DefectKey(RecordKey(records[i])) == k &&
          StoredRecord(records[i]) == prev[k];
        assert 0 <= i < j + 1;
      }
    }
  }

  /** Running the writes in list order is one of the outcomes WritesLanded allows. */
  lemma {:induction false} ApplyWritesLanded(hashes: map<string, Defect>, records: seq<CreateRecordRequest>,
                                             failures: map<nat, string>, n: nat)
    requires n <= |records|
    ensures WritesLanded(hashes, ApplyWrites(hashes, records, failures, n), records, failures, n)
  {
    if n > 0 {
      ApplyWritesLanded(hashes, records, failures, n - 1);
      var prev := ApplyWrites(hashes, records, failures, n - 1);
      forall k ensures KeyLanded(hashes, ApplyWrites(hashes, records, failures, n), records, failures, n, k) {
        KeyLandedStep(hashes, prev, records, failures, n - 1, k);
      }
    }
  }

  /** A key written by exactly one successful item holds that item's record. */
  lemma SoleWriterWins(before: map<string, Defect>, after: map<string, Defect>,
                       records: seq<CreateRecordRequest>, failures: map<nat, string>, i: nat)
    requires i < |records| && i !in failures
    requires WritesLanded(before, after, records, failures, |records|)
    requires forall j :: (0 <= j < |records| && j !in failures &&
      DefectKey(RecordKey(records[j])) == DefectKey(RecordKey(records[i]))) ==> j == i
    ensures var key := DefectKey(RecordKey(records[i]));
      key in after && after[key] == StoredRecord(records[i])
  {
    var key := DefectKey(RecordKey(records[i]));
    assert Written(records, failures, |records|, key);
    assert KeyLanded(before, after, records, failures, |records|, key);
    var j :| 0 <= j < |records| && j !in failures && DefectKey(RecordKey(records[j])) == key &&
      StoredRecord(records[j]) == after[key];
  }

  /** Number of results whose status does not contain "error" (`success_count`). */
  function SuccessCount(results: seq<CreateResponse>): (count: nat)
    ensures count <= |results|
  {
    if results == [] then 0
    else
      SuccessCount(results[..|results| - 1]) +
      (if Contains(results[|results| - 1].status, ErrorMarker) then 0 else 1)
  }

  /** Number of the first n items that were given no failure. */
  function Succeeded(failures: map<nat, string>, n: nat): nat {
    if n == 0 then 0 else Succeeded(failures, n - 1) + (if n - 1 in failures then 0 else 1)
  }

  /** The success count of a batch equals the number of items whose write went through. */
  lemma {:induction false} SuccessCountOfBatch(results: seq<CreateResponse>, records: seq<CreateRecordRequest>,
                                               failures: map<nat, string>)
    requires |results| == |records|
    requires forall i :: 0 <= i < |results| ==> results[i] == CreateResult(records[i], FaultAt(failures, i))
    ensures SuccessCount(results) == Succeeded(failures, |results|)
  {
    if results != [] {
      var n := |results|;
      SuccessCountOfBatch(results[..n - 1], records[..n - 1], failures);
    }
  }

  /** `create_or_update_bulk_records`: one result per record, in input order,
      every successful item's write landed whatever the others did, and the
      success count that is logged. A missing connection fails the whole
      batch, unless it is empty. */
  method CreateOrUpdateBulkRecords(config: RedisConfig, bulkRecord: BulkCreateRecordRequest,
                                   failures: map<nat, string>)
    returns (r: Result<seq<CreateResponse>, ServerError>, successCount: nat)
    modifies config.redisConn
    ensures |bulkRecord.records| == 0 ==> r == Success([])
    ensures config.redisConn == null && 0 < |bulkRecord.records| ==> r == Failure(NotConnected)
    ensures config.redisConn != null ==>
      r.Success? && |r.value| == |bulkRecord.records| &&
      (forall i :: 0 <= i < |bulkRecord.records| ==>
        r.value[i] == CreateResult(bulkRecord.records[i], FaultAt(failures, i))) &&
      WritesLanded(old(config.redisConn.hashes), config.redisConn.hashes,
                   bulkRecord.records, failures, |bulkRecord.records|)
    ensures r.Success? ==> successCount == SuccessCount(r.value) == Succeeded(failures, |r.value|)
  {
    var records := bulkRecord.records;
    var results: seq<CreateResponse> := [];
    var i := 0;
    while i < |records|
      invariant 0 <= i <= |records|
      invariant |results| == i
      invariant 0 < i ==> config.redisConn != null
      invariant forall k :: 0 <= k < i ==> results[k] == CreateResult(records[k], FaultAt(failures, k))
      invariant config.redisConn != null ==>
        config.redisConn.hashes == ApplyWrites(old(config.redisConn.hashes), records, failures, i)
    {
      var result := ProcessSingleCreateRecord(config, records[i], FaultAt(failures, i));
      if result.Failure? {
        return Failure(result.error), 0;
      }
      results := results + [result.value];
      i := i + 1;
    }
    if config.redisConn != null {
      ApplyWritesLanded(old(config.redisConn.hashes), records, failures, |records|);
    }
    SuccessCountOfBatch(results, records, failures);
    successCount := SuccessCount(results);
    r := Success(results);
  }
}
