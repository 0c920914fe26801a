/** The delivery pipeline as a step system: the table and its stream, the enqueuer, the FIFO
    queue with its dead-letter queue, any number of overlapping delivery attempts, and the
    recipient. Every actor may stop between two steps, and any answer may be lost.
    Sources: enqueue-service.ts, delivery-service.ts, the repositories, and partner-sim/app. */
module Protocol {
  import opened Basics
  import opened RequestStatus
  import opened RequestsTable
  import opened DeliveryMessage
  import opened ReplyReader
  import Recipient

  // What the pipeline is given: the queue's maxReceiveCount, what XML 1.0 can carry
  // (submission-xml.ts) and the verdict of submission.xsd on the document of a request, which
  // both sides share.
  datatype Config = Config(
    maxReceiveCount: nat,
    representable: (Ulid, Content) -> bool,
    schemaValid: (Ulid, Content) -> bool)

  // --- The queue ---------------------------------------------------------------------------------

  datatype Place = Waiting | DeadLettered | Deleted

  // The body names the request only; `retry` is part of the deduplication id of the send.
  datatype Message = Message(id: Ulid, retry: nat, receives: nat, place: Place)

  // --- The enqueuer: one stream record at a time, send before mark ----------------------------------

  datatype EnqueueStage = Picked | SentToQueue | MarkTried

  datatype Enqueuer = Enqueuer(record: nat, stage: EnqueueStage)

  // --- One delivery attempt ------------------------------------------------------------------------

  datatype ExchangeOutcome = ODelivered | ORefused | ORetry | OInvalidRequest | OUnrepresentable

  datatype DeliveryOutcome =
    | OutSent | OutRejected | OutFailed | OutAlreadyDone
    | OutRetry | OutError | OutUndeliverable | OutNotAttempted

  const ACKNOWLEDGED: set<DeliveryOutcome> := {OutSent, OutRejected, OutFailed, OutAlreadyDone}

  datatype Pc =
    | Received                                                        // the message is handed out
    | Ready(content: Content)                                         // the document is built and valid
    | Calling                                                         // waiting for the recipient
    | ToSave(outcome: ExchangeOutcome, target: Option<TerminalStatus>) // about to put the record
    | ToMark(wanted: TerminalStatus)                                        // about to write the status
    | ToPublish(written: TerminalStatus)                                     // the status is ours
    | Finished(result: DeliveryOutcome)
    | Over                                                            // returned, or died

  datatype Attempt = Attempt(message: nat, id: Ulid, receiveCount: nat, pc: Pc)

  datatype Saved = Saved(id: Ulid, outcome: ExchangeOutcome)

  // One terminal status write, or one announcement of it.
  datatype Entry = Entry(id: Ulid, status: TerminalStatus)

  // A call at the recipient: by one of our attempts, or by somebody else.
  datatype Caller = Ours(attempt: nat) | Stranger(number: nat)

  datatype State = State(
    table: Table,
    acked: set<nat>,                          // stream records that Lambda is done with
    enqueuers: map<nat, Enqueuer>,
    seen: set<string>,                        // deduplication ids the queue has accepted
    messages: map<nat, Message>,
    attempts: map<nat, Attempt>,
    wire: map<nat, Recipient.Document>,       // documents our attempts have sent
    inbox: Recipient.Inbox<Caller>,
    saves: map<nat, Saved>,                   // what each attempt put into the exchange store
    exchanges: map<Ulid, Saved>,              // the store itself: the latest record per request
    entries: map<nat, Entry>,                 // the terminal status writes, by attempt
    notices: map<nat, Entry>)                 // the published announcements, by attempt

  const INITIAL := State(EMPTY_TABLE, {}, map[], {}, map[], map[], map[],
    Recipient.Inbox([], map[]), map[], map[], map[], map[])

  // --- Pure pieces of the worker ---------------------------------------------------------------------

  datatype ContentKind = Unrepresentable | SchemaBreaking | Deliverable

  function KindOf(cfg: Config, id: Ulid, content: Content): ContentKind {
    if !cfg.representable(id, content) then Unrepresentable
    else if !cfg.schemaValid(id, content) then SchemaBreaking
    else Deliverable
  }

  // The document of a request as the recipient reads it (SubmittedDocument.TheStepSystemsDocumentIsTheXml).
  function DocumentOf(id: Ulid, content: Content): Recipient.Document {
    Recipient.Parsed(Some(id), Some(content.subject), [])
  }

  // `process`, from the consistent read to the decision whether to call anybody.
  function AfterRead(cfg: Config, id: Ulid, found: Option<Item>): Pc {
    match found
    case None => Finished(OutUndeliverable)
    case Some(item) =>
      if IsTerminal(item.status) then Finished(OutAlreadyDone)
      else
        match KindOf(cfg, id, item.content)
        case Unrepresentable => ToSave(OUnrepresentable, Some(Rejected))
        case SchemaBreaking => ToSave(OInvalidRequest, Some(Rejected))
        case Deliverable => Ready(item.content)
  }

  // `process`, from the answer to the step that writes the record.
  function AfterAnswer(cfg: Config, receiveCount: nat, decision: ReadingDecision): Pc {
    match decision
    case Delivered => ToSave(ODelivered, Some(Sent))
    case Refused => ToSave(ORefused, Some(Rejected))
    case Retry => ToSave(ORetry, if receiveCount >= cfg.maxReceiveCount then Some(Failed) else None)
  }

  function AfterSave(target: Option<TerminalStatus>): Pc {
    match target
    case None => Finished(OutRetry)
    case Some(status) => ToMark(status)
  }

  function OutcomeOf(status: TerminalStatus): DeliveryOutcome {
    match status
    case Sent => OutSent
    case Rejected => OutRejected
    case Failed => OutFailed
  }

  // --- The steps: who does what ---------------------------------------------------------------------------

  datatype Delivery = Whole | BodyLost | NothingArrives(why: NoAnswerReason)

  // The API and the webhook.
  datatype ApiStep =
    | Create(id: Ulid, content: Content)
    | RetryByOwner(id: Ulid)
    | Decide(id: Ulid, event: StoredDecision)

  // One enqueuer, working on one stream record.
  datatype EnqueueStep =
    | Pick(record: nat)
    | SendAccepted(m: nat)   // SQS stores the message
    | SendDropped            // SQS says yes, and drops a deduplication id it has seen
    | MarkQueued
    | Acknowledge            // the record is not reported as failed: Lambda moves on
    | Stop                   // refused, failed or crashed: the record comes back

  datatype QueueStep =
    | HandOut(n: nat, m: nat)  // a new attempt `n` of message `m`
    | DeadLetter(m: nat)

  // One delivery attempt.
  datatype WorkStep =
    | Read
    | Call
    | Hear(delivery: Delivery)
    | Save
    | SaveFails              // only a temporary failure goes on without its record
    | Mark
    | Publish(works: bool)
    | Return                 // the batch response; acknowledged messages are deleted
    | Throw                  // an exception: the outcome is "error"
    | Die

  // The recipient and the network in front of it.
  datatype RecipientStep =
    | Arrives(n: nat)        // the document of attempt `n` arrives, perhaps late
    | StrangerSends(number: nat, doc: Recipient.Document)
    | Handle(caller: Caller, move: Recipient.Move)

  datatype Step =
    | Api(api: ApiStep)
    | Enqueue(k: nat, enqueue: EnqueueStep)
    | Queue(queue: QueueStep)
    | Work(n: nat, work: WorkStep)
    | AtRecipient(recipient: RecipientStep)

  // --- The API and the webhook: the table and its stream only -----------------------------------------------

  predicate ApiEnabled(table: Table, e: ApiStep) {
    match e
    case Create(id, _) => id !in table.items
    case RetryByOwner(id) => id in table.items && table.items[id].status == Failed
    case Decide(id, _) => id in table.items
  }

  function ApiNext(table: Table, e: ApiStep): Table {
    match e
    case Create(id, content) => CreateItem(table, id, content).0
    case RetryByOwner(id) => RetryItem(table, id).0
    case Decide(id, event) => RecordDecisionOn(table, id, event).0
  }

  // --- The enqueuer ---------------------------------------------------------------------------------------------

  // The record `q` of the stream is for the queue and not done with. (Its image can always be read:
  // StreamImages.EveryWrittenImageIsReadable.)
  predicate IsPending(s: State, q: nat) {
    q < |s.table.changes| && IsForTheQueue(s.table.changes[q]) && q !in s.acked
  }

  predicate EnqueuerIsAt(s: State, k: nat, stage: EnqueueStage) {
    k in s.enqueuers && s.enqueuers[k].stage == stage && s.enqueuers[k].record < |s.table.changes|
  }

  function RecordOf(s: State, k: nat): Change
    requires k in s.enqueuers && s.enqueuers[k].record < |s.table.changes|
  {
    s.table.changes[s.enqueuers[k].record]
  }

  predicate EnqueueEnabled(s: State, k: nat, e: EnqueueStep) {
    match e
    case Pick(record) => k !in s.enqueuers && IsPending(s, record)
    case SendAccepted(m) => EnqueuerIsAt(s, k, Picked) && m !in s.messages
    case SendDropped =>
      EnqueuerIsAt(s, k, Picked) && DeduplicationId(RecordOf(s, k).id, RecordOf(s, k).Retries()) in s.seen
    case MarkQueued => EnqueuerIsAt(s, k, SentToQueue)
    case Acknowledge => EnqueuerIsAt(s, k, MarkTried)
    case Stop => k in s.enqueuers
  }

  function WithStage(s: State, k: nat, stage: EnqueueStage): State
    requires k in s.enqueuers
  {
    s.(enqueuers := s.enqueuers[k := s.enqueuers[k].(stage := stage)])
  }

  function EnqueueNext(s: State, k: nat, e: EnqueueStep): State
    requires EnqueueEnabled(s, k, e)
  {
    match e
    case Pick(record) => s.(enqueuers := s.enqueuers[k := Enqueuer(record, Picked)])
    case SendAccepted(m) =>
      var change := RecordOf(s, k);
      WithStage(s, k, SentToQueue)
        .(seen := s.seen + {DeduplicationId(change.id, change.Retries())},
          messages := s.messages[m := Message(change.id, change.Retries(), 0, Waiting)])
    case SendDropped => WithStage(s, k, SentToQueue)
    case MarkQueued => WithStage(s, k, MarkTried).(table := MoveItem(s.table, Queued, RecordOf(s, k).id).0)
    case Acknowledge => s.(acked := s.acked + {s.enqueuers[k].record}, enqueuers := s.enqueuers - {k})
    case Stop => s.(enqueuers := s.enqueuers - {k})
  }

  // --- The queue ----------------------------------------------------------------------------------------------------

  predicate QueueEnabled(cfg: Config, s: State, e: QueueStep) {
    match e
    case HandOut(n, m) =>
      && n !in s.attempts && m in s.messages
      && s.messages[m].place.Waiting? && s.messages[m].receives < cfg.maxReceiveCount
    case DeadLetter(m) =>
      m in s.messages && s.messages[m].place.Waiting? && s.messages[m].receives >= cfg.maxReceiveCount
  }

  function QueueNext(cfg: Config, s: State, e: QueueStep): State
    requires QueueEnabled(cfg, s, e)
  {
    match e
    case HandOut(n, m) =>
      var message := s.messages[m];
      s.(messages := s.messages[m := message.(receives := message.receives + 1)],
         attempts := s.attempts[n := Attempt(m, message.id, message.receives + 1, Received)])
    case DeadLetter(m) => s.(messages := s.messages[m := s.messages[m].(place := DeadLettered)])
  }

  // --- A delivery attempt ------------------------------------------------------------------------------------------

  predicate IsAnswered(s: State, n: nat) {
    Ours(n) in s.inbox.threads && s.inbox.threads[Ours(n)].stage.Answered?
  }

  // What the sender holds after the call: the recipient's answer, the same with its body lost, or nothing.
  function Heard(s: State, n: nat, id: Ulid, delivery: Delivery): AnswerReading
    requires delivery.NothingArrives? || IsAnswered(s, n)
  {
    match delivery
    case NothingArrives(why) => ReadAnswer(NoAnswer(why), None, id)
    case BodyLost => ReadAnswer(Answer(s.inbox.threads[Ours(n)].stage.answer.statusCode, None, Some(Unreadable)),
      None, id)
    case Whole => Recipient.Reading(s.inbox.threads[Ours(n)].stage.answer, "", id)
  }

  predicate WorkEnabled(s: State, n: nat, e: WorkStep) {
    && n in s.attempts
    && var pc := s.attempts[n].pc;
       match e
       case Read => pc.Received?
       case Call => pc.Ready?
       case Hear(delivery) => pc.Calling? && (delivery.NothingArrives? || IsAnswered(s, n))
       case Save => pc.ToSave?
       case SaveFails => pc.ToSave? && pc.outcome == ORetry
       case Mark => pc.ToMark?
       case Publish(_) => pc.ToPublish?
       case Return => pc.Finished?
       case Throw => !pc.Over?
       case Die => !pc.Over?
  }

  function FindForDelivery(s: State, id: Ulid): Option<Item> {
    if id in s.table.items then Some(s.table.items[id]) else None
  }

  // The program counter after the step.
  function PcAfter(cfg: Config, s: State, n: nat, e: WorkStep): Pc
    requires WorkEnabled(s, n, e)
  {
    var attempt := s.attempts[n];
    match e
    case Read => AfterRead(cfg, attempt.id, FindForDelivery(s, attempt.id))
    case Call => Calling
    case Hear(delivery) => AfterAnswer(cfg, attempt.receiveCount, Heard(s, n, attempt.id, delivery).decision)
    case Save => AfterSave(attempt.pc.target)
    case SaveFails => AfterSave(attempt.pc.target)
    case Mark => if Applies(s, n, e) then ToPublish(attempt.pc.wanted) else Finished(OutAlreadyDone)
    case Publish(_) => Finished(OutcomeOf(attempt.pc.written))
    case Return => Over
    case Throw => Finished(OutError)
    case Die => Over
  }

  // The terminal write of the attempt, if this step is one and the condition holds.
  predicate Applies(s: State, n: nat, e: WorkStep)
    requires WorkEnabled(s, n, e)
  {
    e.Mark? && MoveItem(s.table, s.attempts[n].pc.wanted, s.attempts[n].id).1
  }

  function TableAfter(s: State, n: nat, e: WorkStep): Table
    requires WorkEnabled(s, n, e)
  {
    if e.Mark? then MoveItem(s.table, s.attempts[n].pc.wanted, s.attempts[n].id).0 else s.table
  }

  // An acknowledged message is deleted, unless it has left the queue meanwhile.
  function MessagesAfter(s: State, n: nat, e: WorkStep): map<nat, Message>
    requires WorkEnabled(s, n, e)
  {
    var m := s.attempts[n].message;
    if e.Return? && s.attempts[n].pc.result in ACKNOWLEDGED && m in s.messages && s.messages[m].place.Waiting? then
      s.messages[m := s.messages[m].(place := Deleted)]
    else s.messages
  }

  function WireAfter(s: State, n: nat, e: WorkStep): map<nat, Recipient.Document>
    requires WorkEnabled(s, n, e)
  {
    if e.Call? then s.wire[n := DocumentOf(s.attempts[n].id, s.attempts[n].pc.content)] else s.wire
  }

  function RecordBy(s: State, n: nat, e: WorkStep): Saved
    requires WorkEnabled(s, n, e) && e.Save?
  {
    Saved(s.attempts[n].id, s.attempts[n].pc.outcome)
  }

  function EntriesAfter(s: State, n: nat, e: WorkStep): map<nat, Entry>
    requires WorkEnabled(s, n, e)
  {
    if Applies(s, n, e) then s.entries[n := Entry(s.attempts[n].id, s.attempts[n].pc.wanted)] else s.entries
  }

  function NoticesAfter(s: State, n: nat, e: WorkStep): map<nat, Entry>
    requires WorkEnabled(s, n, e)
  {
    if e.Publish? && e.works then s.notices[n := Entry(s.attempts[n].id, s.attempts[n].pc.written)] else s.notices
  }

  function WorkNext(cfg: Config, s: State, n: nat, e: WorkStep): State
    requires WorkEnabled(s, n, e)
  {
    s.(attempts := s.attempts[n := s.attempts[n].(pc := PcAfter(cfg, s, n, e))],
       table := TableAfter(s, n, e),
       messages := MessagesAfter(s, n, e),
       wire := WireAfter(s, n, e),
       saves := if e.Save? then s.saves[n := RecordBy(s, n, e)] else s.saves,
       exchanges := if e.Save? then s.exchanges[s.attempts[n].id := RecordBy(s, n, e)] else s.exchanges,
       entries := EntriesAfter(s, n, e),
       notices := NoticesAfter(s, n, e))
  }

  // --- The recipient -----------------------------------------------------------------------------------------------

  predicate RecipientEnabled(s: State, e: RecipientStep) {
    match e
    case Arrives(n) => n in s.wire && Recipient.CanArrive(s.inbox, Ours(n))
    case StrangerSends(number, doc) => Recipient.CanArrive(s.inbox, Stranger(number)) && !Recipient.IsValid(doc)
    case Handle(caller, move) => Recipient.CanStep(s.inbox, caller, move)
  }

  function RecipientNext(s: State, e: RecipientStep): Recipient.Inbox<Caller>
    requires RecipientEnabled(s, e)
  {
    match e
    case Arrives(n) => Recipient.Arrive(s.inbox, Ours(n), s.wire[n])
    case StrangerSends(number, doc) => Recipient.Arrive(s.inbox, Stranger(number), doc)
    case Handle(caller, move) => Recipient.Step(s.inbox, caller, move)
  }

  // --- The whole system --------------------------------------------------------------------------------------------

  predicate Enabled(cfg: Config, s: State, e: Step) {
    match e
    case Api(api) => ApiEnabled(s.table, api)
    case Enqueue(k, enqueue) => EnqueueEnabled(s, k, enqueue)
    case Queue(queue) => QueueEnabled(cfg, s, queue)
    case Work(n, work) => WorkEnabled(s, n, work)
    case AtRecipient(recipient) => RecipientEnabled(s, recipient)
  }

  function Next(cfg: Config, s: State, e: Step): State
    requires Enabled(cfg, s, e)
  {
    match e
    case Api(api) => s.(table := ApiNext(s.table, api))
    case Enqueue(k, enqueue) => EnqueueNext(s, k, enqueue)
    case Queue(queue) => QueueNext(cfg, s, queue)
    case Work(n, work) => WorkNext(cfg, s, n, work)
    case AtRecipient(recipient) => s.(inbox := RecipientNext(s, recipient))
  }

  // --- Runs ------------------------------------------------------------------------------------------------

  ghost predicate Follows(cfg: Config, s: State, t: State) {
    exists e :: Enabled(cfg, s, e) && Next(cfg, s, e) == t
  }

  // A run: every state follows from the one before it by one enabled step.
  ghost predicate IsRun(cfg: Config, run: seq<State>) {
    && |run| > 0
    && forall i {:trigger run[i]} :: 0 <= i && i + 1 < |run| ==> Follows(cfg, run[i], run[i + 1])
  }

  ghost predicate IsRunFromTheStart(cfg: Config, run: seq<State>) {
    IsRun(cfg, run) && run[0] == INITIAL
  }

  ghost predicate Reachable(cfg: Config, s: State) {
    exists run :: IsRunFromTheStart(cfg, run) && run[|run| - 1] == s
  }

  // Some steps, of whomever, lead from one state to the other.
  ghost predicate Leads(cfg: Config, s: State, t: State) {
    exists run :: IsRun(cfg, run) && run[0] == s && run[|run| - 1] == t
  }

  // The step that was taken between two states of a run.
  lemma StepTaken(cfg: Config, run: seq<State>, i: nat) returns (e: Step)
    requires IsRun(cfg, run) && 0 < i < |run|
    ensures Enabled(cfg, run[i - 1], e) && Next(cfg, run[i - 1], e) == run[i]
  {
    hide Enabled, Next;
    assert Follows(cfg, run[i - 1], run[i]);
    e :| Enabled(cfg, run[i - 1], e) && Next(cfg, run[i - 1], e) == run[i];
  }

  lemma LeadsToItself(cfg: Config, s: State)
    ensures Leads(cfg, s, s)
  {
    assert IsRun(cfg, [s]);
    assert [s][0] == s;
  }

  lemma LeadsOneStep(cfg: Config, s: State, t: State, e: Step)
    requires Leads(cfg, s, t) && Enabled(cfg, t, e)
    ensures Leads(cfg, s, Next(cfg, t, e))
  {
    hide Enabled, Next;
    var run :| IsRun(cfg, run) && run[0] == s && run[|run| - 1] == t;
    var more := run + [Next(cfg, t, e)];
    forall i | 0 <= i && i + 1 < |more| ensures Follows(cfg, more[i], more[i + 1]) {
      if i + 1 < |run| {
        assert Follows(cfg, run[i], run[i + 1]);
      } else {
        assert Enabled(cfg, more[i], e) && Next(cfg, more[i], e) == more[i + 1];
      }
    }
    assert IsRun(cfg, more) && more[0] == s && more[|more| - 1] == Next(cfg, t, e);
  }

  lemma LeadsOn(cfg: Config, s: State, t: State, u: State)
    requires Leads(cfg, s, t) && Leads(cfg, t, u)
    ensures Leads(cfg, s, u)
  {
    hide Follows;
    var first :| IsRun(cfg, first) && first[0] == s && first[|first| - 1] == t;
    var second :| IsRun(cfg, second) && second[0] == t && second[|second| - 1] == u;
    var both := first + second[1..];
    forall i | 0 <= i && i + 1 < |both| ensures Follows(cfg, both[i], both[i + 1]) {
      if i + 1 < |first| {
        assert Follows(cfg, first[i], first[i + 1]);
      } else {
        var k := i - |first| + 1;
        assert second[k] == both[i];
        assert Follows(cfg, second[k], second[k + 1]);
      }
    }
    assert IsRun(cfg, both) && both[0] == s && both[|both| - 1] == u;
  }

  lemma ReachableLeads(cfg: Config, s: State, t: State)
    requires Reachable(cfg, s) && Leads(cfg, s, t)
    ensures Reachable(cfg, t)
  {
    hide Follows;
    var run :| IsRunFromTheStart(cfg, run) && run[|run| - 1] == s;
    assert Leads(cfg, INITIAL, s);
    LeadsOn(cfg, INITIAL, s, t);
    var whole :| IsRun(cfg, whole) && whole[0] == INITIAL && whole[|whole| - 1] == t;
    assert IsRunFromTheStart(cfg, whole);
  }
}
