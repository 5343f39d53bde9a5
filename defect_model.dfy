/** Record and message shapes of the retest optimizer: the stored Defect hash,
    the inspection request/response pair, the create-record request/response
    pair, and the bulk wrappers that are ordered lists of them.
    Python floats are modelled as `real` (they are only compared, never
    computed on) and Python ints as `int` (unbounded, no range validation). */
module DefectModel {

  /** One stored defect record. The four strings identify the
      (factory, process, product model, defect item) tuple; the three counters
      default to zero when not given. */
  datatype Defect = Defect(
    factoryCode: string,
    processCode: string,
    productModel: string,
    defectItem: string,
    reproducibilityRate: real := 0.0,
    totalInspections: int := 0,
    reproducedCount: int := 0)

  /** A lookup request from an inspection station. Every field is required.
      `analysisCriteria` and `analysisPeriod` are carried but never consulted. */
  datatype InspectionRequest = InspectionRequest(
    factoryCode: string,
    analysisCriteria: string,
    processCode: string,
    productModel: string,
    minInspectionCriteria: int,
    reproducibilityCriteria: real,
    analysisPeriod: int,
    defectItem: string)

  datatype BulkInspectionRequest = BulkInspectionRequest(requests: seq<InspectionRequest>)

  /** The verdict. `retestNeeded == true` means NO retest is needed and
      `false` means a retest is needed: the field name reads the other way,
      and that polarity is the service's published contract. */
  datatype InspectionResponse = InspectionResponse(
    retestNeeded: bool,
    reproducibilityRate: real,
    alarmHistory: string,
    requestData: InspectionRequest)

  datatype BulkInspectionResponse = BulkInspectionResponse(results: seq<InspectionResponse>)

  /** A write request: all seven fields are required, none has a default. */
  datatype CreateRecordRequest = CreateRecordRequest(
    factoryCode: string,
    processCode: string,
    productModel: string,
    defectItem: string,
    reproducibilityRate: real,
    totalInspections: int,
    reproducedCount: int)

  datatype BulkCreateRecordRequest = BulkCreateRecordRequest(records: seq<CreateRecordRequest>)

  datatype CreateResponse = CreateResponse(pk: string, status: string)

  /** A Defect built from its four identifying strings alone has all-zero counters. */
  lemma UnsetCountersDefault(factory: string, process: string, model: string, item: string)
    ensures var d := Defect(factory, process, model, item);
      d.reproducibilityRate == 0.0 && d.totalInspections == 0 && d.reproducedCount == 0
  {
  }

  /** The hash that `hset(key, mapping=record.dict())` stores: all seven fields of
      the request, so a write replaces the whole record. */
  function StoredRecord(record: CreateRecordRequest): (d: Defect)
    ensures d.factoryCode == record.factoryCode && d.processCode == record.processCode
    ensures d.productModel == record.productModel && d.defectItem == record.defectItem
    ensures d.reproducibilityRate == record.reproducibilityRate
    ensures d.totalInspections == record.totalInspections && d.reproducedCount == record.reproducedCount
  {
    Defect(record.factoryCode, record.processCode, record.productModel, record.defectItem,
           record.reproducibilityRate, record.totalInspections, record.reproducedCount)
  }
}
