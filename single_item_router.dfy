/** The single-item endpoints: compose the record's key from the request,
    look the record up and decide, or write the record. Only the behaviour
    behind the HTTP surface is modelled; an HTTP 500 is an error outcome. */
module SingleItemRouter {
  import opened Wrappers
  import opened Text
  import opened DefectModel
  import opened RedisConfig

  /** How a request ends without a response: the ConnectionError of an
      unconnected service escapes the handler, any failure inside its try
      block becomes an internal server error. Both reach the caller as a 500. */
  datatype ServerError = NotConnected | InternalServerError

  /** A failure inside a lookup's try block: the `hgetall` command failed, or
      a stored field did not parse as a number (`float(...)`, `int(...)`). */
  datatype ReadFault = CommandFailed(msg: string) | MalformedRecord(msg: string)

  // ---------------------------------------------------------------- keys

  /** The custom primary key `factory:process:model:item`; fields are not escaped. */
  function CompositeKey(factory: string, process: string, model: string, item: string): string {
    factory + ":" + process + ":" + model + ":" + item
  }

  /** The key is the four fields in order, each of the first three followed by one ':'. */
  lemma CompositeKeyLayout(factory: string, process: string, model: string, item: string)
    ensures var k := CompositeKey(factory, process, model, item);
      var p, m := |factory| + 1, |factory| + |process| + 2;
      && |k| == |factory| + |process| + |model| + |item| + 3
      && k[..|factory|] == factory && k[|factory|] == ':'
      && k[p..p + |process|] == process && k[p + |process|] == ':'
      && k[m..m + |model|] == model && k[m + |model|] == ':'
      && k[m + |model| + 1..] == item
  {
  }

  function RequestKey(request: InspectionRequest): string {
    CompositeKey(request.factoryCode, request.processCode, request.productModel, request.defectItem)
  }

  function RecordKey(record: CreateRecordRequest): string {
    CompositeKey(record.factoryCode, record.processCode, record.productModel, record.defectItem)
  }

  /** Reads a composite key back into its four fields, splitting at the first three ':'. */
  function SplitKey(pk: string): Option<(string, string, string, string)> {
    match SplitOnce(pk, ':')
    case None => None
    case Some((factory, rest)) =>
      match SplitOnce(rest, ':')
      case None => None
      case Some((process, rest')) =>
        match SplitOnce(rest', ':')
        case None => None
        case Some((model, item)) => Some((factory, process, model, item))
  }

  /** When the first three fields hold no ':', the composite key determines
      all four fields (the defect item itself may contain ':'). */
  lemma CompositeKeyRoundTrip(factory: string, process: string, model: string, item: string)
    requires ':' !in factory && ':' !in process && ':' !in model
    ensures SplitKey(CompositeKey(factory, process, model, item)) == Some((factory, process, model, item))
  {
    var tail := model + ":" + item;
    var rest := process + ":" + tail;
    assert CompositeKey(factory, process, model, item) == factory + [':'] + rest;
    SplitOnceJoin(factory, ':', rest);
    assert rest == process + [':'] + tail;
    SplitOnceJoin(process, ':', tail);
    assert tail == model + [':'] + item;
    SplitOnceJoin(model, ':', item);
  }

  predicate Unambiguous(factory: string, process: string, model: string) {
    ':' !in factory && ':' !in process && ':' !in model
  }

  /** Equal tuples give equal keys; different tuples give different keys as
      long as neither has a ':' in its first three fields. */
  lemma CompositeKeyInjective(f1: string, p1: string, m1: string, i1: string,
                              f2: string, p2: string, m2: string, i2: string)
    requires Unambiguous(f1, p1, m1) && Unambiguous(f2, p2, m2)
    ensures CompositeKey(f1, p1, m1, i1) == CompositeKey(f2, p2, m2, i2)
        <==> (f1, p1, m1, i1) == (f2, p2, m2, i2)
  {
    CompositeKeyRoundTrip(f1, p1, m1, i1);
    CompositeKeyRoundTrip(f2, p2, m2, i2);
  }

  /** Without that precondition keys collide: the delimiter is not escaped. */
  lemma CompositeKeyCollision()
    ensures CompositeKey("SEV:TOP41", "SM", "X", "NX") == CompositeKey("SEV", "TOP41:SM", "X", "NX")
  {
  }

  // ------------------------------------------------------ alarm history

  /** `f"{reproduced_count}/{total_inspections}"`. */
  function AlarmHistory(reproduced: int, total: int): (h: string)
    ensures SplitOnce(h, '/') == Some((IntToString(reproduced), IntToString(total)))
  {
    SplitOnceJoin(IntToString(reproduced), '/', IntToString(total));
    IntToString(reproduced) + "/" + IntToString(total)
  }

  /** Reads an alarm history back into (reproduced, total). */
  function ParseAlarmHistory(s: string): Option<(int, int)> {
    match SplitOnce(s, '/')
    case None => None
    case Some((left, right)) =>
      match (ParseDecimal(left), ParseDecimal(right))
      case (Some(reproduced), Some(total)) => Some((reproduced, total))
      case _ => None
  }

  /** An alarm history always reads back as the two counters it was built from. */
  lemma AlarmHistoryRoundTrip(reproduced: int, total: int)
    ensures ParseAlarmHistory(AlarmHistory(reproduced, total)) == Some((reproduced, total))
  {
    IntToStringRoundTrip(reproduced);
    IntToStringRoundTrip(total);
  }

  // ------------------------------------------------------------ decision

  /** The answer for a key with no stored record: retest needed (false),
      rate 0.0 and the history of a record with no inspections. */
  function NotFoundResponse(request: InspectionRequest): (r: InspectionResponse)
    ensures !r.retestNeeded && r.reproducibilityRate == 0.0
    ensures r.alarmHistory == AlarmHistory(0, 0)
    ensures r.requestData == request
  {
    InspectionResponse(false, 0.0, "0/0", request)
  }

  /** The verdict for a stored record. `retestNeeded` (true meaning that no
      retest is needed) holds exactly when both thresholds are met; the rate
      is passed through and the history records the counters whatever the
      verdict. Neither counter nor the rate is range-checked. */
  function Decide(request: InspectionRequest, stored: Defect): (r: InspectionResponse)
    ensures r.retestNeeded <==>
      stored.reproducibilityRate >= request.reproducibilityCriteria &&
      stored.totalInspections >= request.minInspectionCriteria
    ensures r.reproducibilityRate == stored.reproducibilityRate
    ensures r.alarmHistory == AlarmHistory(stored.reproducedCount, stored.totalInspections)
    ensures r.requestData == request
  {
    var isReproducibleEnough := stored.reproducibilityRate >= request.reproducibilityCriteria;
    var hasEnoughData := stored.totalInspections >= request.minInspectionCriteria;
    var retestNeededFlag := !(isReproducibleEnough && hasEnoughData);
    InspectionResponse(!retestNeededFlag, stored.reproducibilityRate,
                       AlarmHistory(stored.reproducedCount, stored.totalInspections), request)
  }

  /** `analysis_criteria` and `analysis_period` play no part in the verdict. */
  lemma DecisionIgnoresAnalysisFields(request: InspectionRequest, stored: Defect, criteria: string, period: int)
    ensures var other := request.(analysisCriteria := criteria, analysisPeriod := period);
      Decide(other, stored) == Decide(request, stored).(requestData := other)
  {
  }

  /** What a lookup's try block yields for the hashes on the server: the
      response, or the fault that aborted it. A parse fault can only fire once
      a record has been found. */
  function Evaluate(hashes: map<string, Defect>, request: InspectionRequest, fault: Option<ReadFault>)
    : (r: Result<InspectionResponse, ReadFault>)
    ensures r.Failure? <==>
      fault.Some? && (fault.value.CommandFailed? || DefectKey(RequestKey(request)) in hashes)
    ensures r.Success? ==> r.value.requestData == request
  {
    var key := DefectKey(RequestKey(request));
    if fault.Some? && fault.value.CommandFailed? then Failure(fault.value)
    else if key !in hashes then Success(NotFoundResponse(request))
    else if fault.Some? then Failure(fault.value)
    else Success(Decide(request, hashes[key]))
  }

  /** Every answer of a successful lookup, found or not, carries an alarm
      history that reads back as the record's two counters (0/0 when missing). */
  lemma EvaluateHistoryReadsBack(hashes: map<string, Defect>, request: InspectionRequest, fault: Option<ReadFault>)
    ensures var r := Evaluate(hashes, request, fault);
      var key := DefectKey(RequestKey(request));
      var counters := if key in hashes then (hashes[key].reproducedCount, hashes[key].totalInspections) else (0, 0);
      r.Success? ==> ParseAlarmHistory(r.value.alarmHistory) == Some(counters)
  {
    var key := DefectKey(RequestKey(request));
    if key in hashes {
      AlarmHistoryRoundTrip(hashes[key].reproducedCount, hashes[key].totalInspections);
    } else {
      AlarmHistoryRoundTrip(0, 0);
    }
  }

  /** `check_single_item`: reads the store and never changes it. */
  method CheckSingleItem(config: RedisConfig, request: InspectionRequest, fault: Option<ReadFault>)
    returns (r: Result<InspectionResponse, ServerError>)
    ensures config.redisConn == null ==> r == Failure(NotConnected)
    ensures config.redisConn != null ==>
      var outcome := Evaluate(config.redisConn.hashes, request, fault);
      r == if outcome.Success? then Success(outcome.value) else Failure(InternalServerError)
  {
    var customPk := RequestKey(request);
    var keyName := DefectKey(customPk);
    var instance := config.GetRedisInstance();
    if instance.Failure? {
      return Failure(NotConnected);
    }
    var redis := instance.value;
    var commandFailure := if fault.Some? && fault.value.CommandFailed? then Some(fault.value.msg) else None;
    var data := redis.HGetAll(keyName, commandFailure);
    if data.Failure? {
      return Failure(InternalServerError);
    }
    if data.value.None? {
      return Success(NotFoundResponse(request));
    }
    if fault.Some? {
      // float(...) or int(...) raised on a stored field
      return Failure(InternalServerError);
    }
    r := Success(Decide(request, data.value.value));
  }

  // --------------------------------------------------------------- write

  const CreatedOrUpdated: string := "created_or_updated"

  /** The hashes after a successful write of `record`: the whole record at its namespaced key. */
  function Upsert(hashes: map<string, Defect>, record: CreateRecordRequest): (r: map<string, Defect>)
    ensures r.Keys == hashes.Keys + {DefectKey(RecordKey(record))}
    ensures r[DefectKey(RecordKey(record))] == StoredRecord(record)
    ensures forall k | k in hashes && k != DefectKey(RecordKey(record)) :: r[k] == hashes[k]
  {
    hashes[DefectKey(RecordKey(record)) := StoredRecord(record)]
  }

  /** `create_or_update_record`: writes the full record and answers with the
      un-namespaced key; a failed write is a server error and changes nothing. */
  method CreateOrUpdateRecord(config: RedisConfig, record: CreateRecordRequest, failure: Option<string>)
    returns (r: Result<CreateResponse, ServerError>)
    modifies config.redisConn
    ensures config.redisConn == null ==> r == Failure(NotConnected)
    ensures config.redisConn != null && failure.None? ==>
      r == Success(CreateResponse(RecordKey(record), CreatedOrUpdated)) &&
      config.redisConn.hashes == Upsert(old(config.redisConn.hashes), record)
    ensures config.redisConn != null && failure.Some? ==>
      r == Failure(InternalServerError) && config.redisConn.hashes == old(config.redisConn.hashes)
  {
    var customPk := RecordKey(record);
    var keyName := DefectKey(customPk);
    var instance := config.GetRedisInstance();
    if instance.Failure? {
      return Failure(NotConnected);
    }
    var redis := instance.value;
    var written := redis.HSet(keyName, StoredRecord(record), failure);
    if written.Failure? {
      return Failure(InternalServerError);
    }
    r := Success(CreateResponse(customPk, CreatedOrUpdated));
  }

  // ------------------------------------------------------ store properties

  predicate SameTuple(request: InspectionRequest, record: CreateRecordRequest) {
    request.factoryCode == record.factoryCode && request.processCode == record.processCode &&
    request.productModel == record.productModel && request.defectItem == record.defectItem
  }

  /** A write is seen by a later lookup of the same tuple: the verdict is the
      one for exactly the written counters. */
  lemma WriteThenRead(hashes: map<string, Defect>, record: CreateRecordRequest, request: InspectionRequest)
    requires SameTuple(request, record)
    ensures Evaluate(Upsert(hashes, record), request, None) == Success(Decide(request, StoredRecord(record)))
  {
  }

  /** A write leaves the answer for every other (unambiguous) tuple as it was. */
  lemma WriteLeavesOtherTuples(hashes: map<string, Defect>, record: CreateRecordRequest,
                               request: InspectionRequest, fault: Option<ReadFault>)
    requires Unambiguous(record.factoryCode, record.processCode, record.productModel)
    requires Unambiguous(request.factoryCode, request.processCode, request.productModel)
    requires !SameTuple(request, record)
    ensures Evaluate(Upsert(hashes, record), request, fault) == Evaluate(hashes, request, fault)
  {
    CompositeKeyInjective(request.factoryCode, request.processCode, request.productModel, request.defectItem,
                          record.factoryCode, record.processCode, record.productModel, record.defectItem);
    DefectKeyInjective(RequestKey(request), RecordKey(record));
  }

  /** Writing the same record twice leaves the same state as writing it once. */
  lemma UpsertIdempotent(hashes: map<string, Defect>, record: CreateRecordRequest)
    ensures Upsert(Upsert(hashes, record), record) == Upsert(hashes, record)
  {
  }

  /** The two worked examples: 98 of 100 inspections reproduced at rate 0.98. */
  lemma Scenarios(request: InspectionRequest)
    requires request.reproducibilityCriteria == 0.9
    ensures var stored := Defect("SEV", "TOP41", "SM-S938U", "NX_RX_SURAD", 0.98, 100, 98);
      var loose := Decide(request.(minInspectionCriteria := 5), stored);
      var strict := Decide(request.(minInspectionCriteria := 200), stored);
      loose.retestNeeded && loose.alarmHistory == "98/100" &&
      !strict.retestNeeded && strict.alarmHistory == "98/100"
  {
    assert NatToString(98) == NatToString(9) + "8" == "98";
    assert NatToString(100) == NatToString(10) + "0" == NatToString(1) + "0" + "0" == "100";
  }
}
