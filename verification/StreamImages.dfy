/** The table's items as the stream shows them, and what the enqueuer reads out of an image: domain/request-image.ts,
    domain/request-keys.ts and `isForTheQueue` and `parseRecord` of handlers/enqueuer.ts, on raw attributes. */
module StreamImages {
  import opened Basics
  import opened RequestStatus
  import opened RequestsTable

  // One attribute in DynamoDB's typed format: { S: "..." }, { N: "..." }, or any other.
  datatype Attribute = S(text: string) | N(number: int) | Other

  type Image = map<string, Attribute>

  datatype EventName = InsertName | ModifyName | RemoveName

  datatype RawRecord = RawRecord(eventName: EventName, sequenceNumber: Option<nat>, newImage: Option<Image>)

  // --- request-keys.ts -------------------------------------------------------------------------

  const OWNER_PREFIX := "USER#"
  const REQUEST_PREFIX := "REQ#"

  predicate IsOwnerKey(pk: string) {
    OWNER_PREFIX <= pk && |pk| > |OWNER_PREFIX|
  }

  function OwnerIdFromKey(pk: string): string
    requires IsOwnerKey(pk)
  {
    pk[|OWNER_PREFIX|..]
  }

  // --- request-image.ts ------------------------------------------------------------------------

  datatype EnqueueRequest = EnqueueRequest(requestId: string, ownerId: string, retryCount: nat,
    traceparent: Option<string>)

  const MAX_TRACEPARENT := 128

  // A trace that is no text of a sane length is dropped and never makes the image unreadable.
  function TraceOf(image: Image): Option<string> {
    if "traceparent" in image && image["traceparent"].S? && |image["traceparent"].text| <= MAX_TRACEPARENT then
      Some(image["traceparent"].text)
    else None
  }

  // newRequestImageSchema
  function ReadImage(image: Image): Option<EnqueueRequest> {
    if "pk" !in image || !image["pk"].S? || !IsOwnerKey(image["pk"].text) then None
    else if "id" !in image || !image["id"].S? || image["id"].text == "" then None
    else if "retryCount" in image && (!image["retryCount"].N? || image["retryCount"].number < 0) then None
    else
      Some(EnqueueRequest(
        image["id"].text, OwnerIdFromKey(image["pk"].text),
        if "retryCount" in image then image["retryCount"].number else 0, TraceOf(image)))
  }

  // --- enqueuer.ts -----------------------------------------------------------------------------

  predicate RawIsForTheQueue(record: RawRecord) {
    match record.eventName
    case InsertName => true
    case RemoveName => false
    case ModifyName =>
      record.newImage.Some?
      && var image := record.newImage.value;
         "status" in image && image["status"] == S("created") && "retryCount" in image && image["retryCount"].N?
  }

  // parseRecord: the key and the request, or nothing when the record can never be used.
  function ParseRecord(record: RawRecord): Option<(nat, EnqueueRequest)> {
    if record.sequenceNumber.None? || record.newImage.None? then None
    else
      var request := ReadImage(record.newImage.value);
      if request.None? then None else Some((record.sequenceNumber.value, request.value))
  }

  // --- What the writes of the table put into the stream --------------------------------------------

  function StatusText(status: Status): string {
    match status
    case Created => "created"
    case Queued => "queued"
    case Sent => "sent"
    case Failed => "failed"
    case Rejected => "rejected"
  }

  // The attributes of an item, as `create` writes them and the updates change them. `others` are those no reader of the
  // stream looks at: sk, subject, body, createdAt, senderEmail, clientDecision and decisionAtMs.
  function ImageOf(owner: string, id: Ulid, item: Item, trace: Option<string>, others: Image): Image {
    others
    + map["pk" := S(OWNER_PREFIX + owner), "id" := S(id), "status" := S(StatusText(item.status))]
    + (if item.retryCount.Some? then map["retryCount" := N(item.retryCount.value)] else map[])
    + (if trace.Some? then map["traceparent" := S(trace.value)] else map[])
  }

  predicate AreOthers(others: Image) {
    {"pk", "id", "status", "retryCount", "traceparent"} !! others.Keys
  }

  function NameOf(kind: ChangeKind): EventName {
    match kind
    case Insert => InsertName
    case Modify => ModifyName
  }

  // The record of one write, raw. The step system keeps the kind, the id, the status and the retry count of it.
  function RawOf(kind: ChangeKind, q: nat, image: Image): RawRecord {
    RawRecord(NameOf(kind), Some(q), Some(image))
  }

  lemma OwnerKeysReadBack(owner: string)
    requires owner != ""
    ensures IsOwnerKey(OWNER_PREFIX + owner) && OwnerIdFromKey(OWNER_PREFIX + owner) == owner
  {
  }

  lemma StatusTextsDiffer(status: Status)
    ensures StatusText(status) == "created" <==> status == Created
  {
    assert |"queued"| == 6 && |"created"| == 7 && |"sent"| == 4 && |"failed"| == 6 && |"rejected"| == 8;
  }

  // No record that the table itself writes is ever malformed: the image of any item, after any write, is read back as
  // its id, owner and retry count, and a trace of whatever shape does not change that.
  lemma EveryWrittenImageIsReadable(
    kind: ChangeKind, q: nat, owner: string, id: Ulid, item: Item, trace: Option<string>, others: Image)
    requires owner != "" && AreOthers(others)
    ensures
      var parsed := ParseRecord(RawOf(kind, q, ImageOf(owner, id, item, trace, others)));
      && parsed.Some? && parsed.value.0 == q
      && parsed.value.1.requestId == id && parsed.value.1.ownerId == owner
      && parsed.value.1.retryCount == item.Retries()
      && parsed.value.1.traceparent == (if trace.Some? && |trace.value| <= 128 then trace else None)
  {
    OwnerKeysReadBack(owner);
    var image := ImageOf(owner, id, item, trace, others);
    assert image["pk"] == S(OWNER_PREFIX + owner) && image["id"] == S(id);
    assert "retryCount" in image <==> item.retryCount.Some?;
    assert "traceparent" in image <==> trace.Some?;
  }

  // The test on the raw record is the step system's test on the change that it keeps of it.
  lemma TheTwoTestsAgree(
    kind: ChangeKind, q: nat, owner: string, id: Ulid, item: Item, trace: Option<string>, others: Image)
    requires AreOthers(others)
    ensures RawIsForTheQueue(RawOf(kind, q, ImageOf(owner, id, item, trace, others)))
      <==> IsForTheQueue(Change(kind, id, item.status, item.retryCount))
  {
    StatusTextsDiffer(item.status);
    var image := ImageOf(owner, id, item, trace, others);
    assert image["status"] == S(StatusText(item.status));
    assert "retryCount" in image <==> item.retryCount.Some?;
  }
}
