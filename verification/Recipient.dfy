/** partner-sim/app/service.py and storage.py: what the recipient does with a submission, as
    handler threads that look up, decide and insert in separate transactions. */
module Recipient {
  import opened Basics
  import opened Utf16
  import opened Replies
  import opened ReplyReader

  datatype Finding = Finding(line: nat, message: string)

  // A request body: not well-formed (or with a DOCTYPE), or a tree with the findings of
  // submission.xsd. The id is kept as text; what is not readable as text is absent.
  datatype AnyDocument =
    | Malformed(doctype: bool)
    | Parsed(messageId: Option<string>, subject: Option<JsString>, findings: seq<Finding>)

  // What submission.xsd guarantees about a document without findings.
  predicate SchemaSays(doc: AnyDocument) {
    doc.Parsed? && doc.findings == [] ==>
      doc.messageId.Some? && IsUlid(doc.messageId.value) && doc.subject.Some?
  }

  type Document = doc: AnyDocument | SchemaSays(doc) witness Malformed(false)

  predicate IsValid(doc: Document) {
    doc.Parsed? && doc.findings == []
  }

  // One row of the messages table.
  datatype Row = Row(messageId: Option<string>, code: Option<RejectCode>, httpStatus: int, reply: Reply)

  // The rows under the unique index: schema-invalid submissions are left out of it.
  predicate IsKeyed(row: Row) {
    row.messageId.Some? && row.code != Some(SchemaInvalid)
  }

  predicate HasKey(row: Row, id: string) {
    row.messageId == Some(id) && row.code != Some(SchemaInvalid)
  }

  datatype HttpAnswer = HttpAnswer(statusCode: int, reply: Option<Reply>)

  // --- The pieces of SubmissionService.handle ---------------------------------------------------

  const REJECT_TRIGGER := "[reject]"
  const FAIL_TRIGGER := "[fail]"

  const MALFORMED_TEXT := "The document is not well-formed XML"
  const DOCTYPE_TEXT := "The document carries a DOCTYPE, which is not allowed"
  const REFUSED_TEXT := "The subject contains [reject], which the recipient's rules refuse"

  function FindingText(finding: Finding): string {
    (if finding.line != 0 then "Line " + Decimal(finding.line) + ": " else "") + finding.message
  }

  // Steps 4 and 5: the row of a document that fails before its id matters, or None.
  function EarlyRow(doc: Document, uuid: nat): (row: Option<Row>)
    ensures row.None? <==> IsValid(doc)
  {
    match doc
    case Malformed(doctype) =>
      var text := if doctype then DOCTYPE_TEXT else MALFORMED_TEXT;
      Some(Row(None, Some(MalformedXml), 400, RejectedReply(uuid, None, MalformedXml, text)))
    case Parsed(messageId, subject, findings) =>
      if findings == [] then None
      else
        var relatesTo := if messageId.Some? && IsUlid(messageId.value) then messageId else None;
        var reply := RejectedReply(uuid, relatesTo, SchemaInvalid, FindingText(findings[0]));
        Some(Row(messageId, Some(SchemaInvalid), 422, reply))
  }

  datatype Verdict = Refuse | Outage | Accept

  // Step 7: `[reject]` is looked for first.
  function RulesOn(subject: JsString): Verdict {
    if Contains(subject, Units(REJECT_TRIGGER)) then Refuse
    else if Contains(subject, Units(FAIL_TRIGGER)) then Outage
    else Accept
  }

  // Steps 7 and 8: the row of a valid document that was not answered before; None is the 503.
  function LateRow(id: Ulid, subject: JsString, uuid: nat): Option<Row> {
    match RulesOn(subject)
    case Refuse =>
      Some(Row(Some(id), Some(RecipientRejected), 422,
               RejectedReply(uuid, Some(id), RecipientRejected, REFUSED_TEXT)))
    case Outage => None
    case Accept => Some(Row(Some(id), None, 200, AcceptedReply(uuid, Some(id))))
  }

  const OUTAGE_ANSWER := HttpAnswer(503, None)
  const UNAUTHORIZED_ANSWER := HttpAnswer(401, None)
  const SERVER_ERROR_ANSWER := HttpAnswer(500, None)

  // `_repeat`, and also how a stored row answers its own request.
  function AnswerOf(row: Row): HttpAnswer {
    HttpAnswer(row.httpStatus, Some(row.reply))
  }

  // `_checked`: a reply that breaks reply.xsd or the rule is never stored or sent.
  predicate IsSendable(reply: Reply) {
    MatchesReplySchema(reply) && KeepsTheRule(reply)
  }

  // `find_answered`: the stored row that answered this id.
  function FindAnswered(rows: seq<Row>, id: string): (found: Option<Row>)
    ensures found.Some? ==> found.value in rows && HasKey(found.value, id)
    ensures found.None? ==> forall row :: row in rows ==> !HasKey(row, id)
  {
    if rows == [] then None
    else if HasKey(rows[0], id) then Some(rows[0])
    else
      assert forall row :: row in rows ==> row == rows[0] || row in rows[1..];
      FindAnswered(rows[1..], id)
  }

  // The unique index refuses the insert.
  predicate Collides(rows: seq<Row>, row: Row) {
    IsKeyed(row) && exists stored :: stored in rows && HasKey(stored, row.messageId.value)
  }

  // --- Handler threads ---------------------------------------------------------------------------

  datatype Stage =
    | Arrived
    | LookingUp(id: Ulid, subject: JsString)  // before step 6
    | Judging(id: Ulid, subject: JsString)    // step 6 found nothing
    | Inserting(row: Row)                     // the reply is built and checked
    | Refound(key: string)                    // the insert was refused: look the earlier row up
    | Answered(answer: HttpAnswer)

  datatype Thread = Thread(doc: Document, stage: Stage)

  // `C` names the call a thread serves.
  datatype Inbox<!C> = Inbox(rows: seq<Row>, threads: map<C, Thread>)

  datatype Move =
    | RefuseKey           // 401 before anything is read
    | Parse(uuid: nat)    // steps 4 and 5
    | LookUp              // step 6
    | Judge(uuid: nat)    // steps 7 and 8
    | Insert              // store.add: the INSERT
    | LookUpAgain         // store.add: the look-up after a refused INSERT
    | Crash               // an exception: HTTP 500

  function Build(row: Row): Stage {
    if IsSendable(row.reply) then Inserting(row) else Answered(SERVER_ERROR_ANSWER)
  }

  predicate CanMove(stage: Stage, move: Move) {
    match move
    case RefuseKey | Parse(_) => stage.Arrived?
    case LookUp => stage.LookingUp?
    case Judge(_) => stage.Judging?
    case Insert => stage.Inserting?
    case LookUpAgain => stage.Refound?
    case Crash => !stage.Answered?
  }

  // One step of one thread: the rows and the thread's stage after it.
  function Moved(rows: seq<Row>, thread: Thread, move: Move): (seq<Row>, Stage)
    requires CanMove(thread.stage, move)
  {
    match move
    case RefuseKey => (rows, Answered(UNAUTHORIZED_ANSWER))
    case Parse(uuid) =>
      (match EarlyRow(thread.doc, uuid)
       case Some(row) => (rows, Build(row))
       case None => (rows, LookingUp(thread.doc.messageId.value, thread.doc.subject.value)))
    case LookUp =>
      (match FindAnswered(rows, thread.stage.id)
       case Some(row) => (rows, Answered(AnswerOf(row)))
       case None => (rows, Judging(thread.stage.id, thread.stage.subject)))
    case Judge(uuid) =>
      (match LateRow(thread.stage.id, thread.stage.subject, uuid)
       case Some(row) => (rows, Build(row))
       case None => (rows, Answered(OUTAGE_ANSWER)))
    case Insert =>
      var row := thread.stage.row;
      if Collides(rows, row) then (rows, Refound(row.messageId.value))
      else (rows + [row], Answered(AnswerOf(row)))
    case LookUpAgain =>
      (match FindAnswered(rows, thread.stage.key)
       case Some(row) => (rows, Answered(AnswerOf(row)))
       case None => (rows, Answered(SERVER_ERROR_ANSWER)))
    case Crash => (rows, Answered(SERVER_ERROR_ANSWER))
  }

  predicate CanArrive<C>(inbox: Inbox<C>, c: C) {
    c !in inbox.threads
  }

  function Arrive<C>(inbox: Inbox<C>, c: C, doc: Document): Inbox<C> {
    inbox.(threads := inbox.threads[c := Thread(doc, Arrived)])
  }

  predicate CanStep<C>(inbox: Inbox<C>, c: C, move: Move) {
    c in inbox.threads && CanMove(inbox.threads[c].stage, move)
  }

  function Step<C>(inbox: Inbox<C>, c: C, move: Move): Inbox<C>
    requires CanStep(inbox, c, move)
  {
    var thread := inbox.threads[c];
    var (rows, stage) := Moved(inbox.rows, thread, move);
    Inbox(rows, inbox.threads[c := thread.(stage := stage)])
  }

  // --- What holds in every interleaving ------------------------------------------------------------

  ghost predicate UniqueKeys(rows: seq<Row>) {
    forall i, j :: 0 <= i < j < |rows| && IsKeyed(rows[i]) && IsKeyed(rows[j]) ==>
      rows[i].messageId != rows[j].messageId
  }

  // A row tells one story: its code, status and reply agree, and a reply under a key relates to it.
  predicate IsSound(row: Row) {
    && IsSendable(row.reply)
    && row.reply.code == row.code
    && (row.reply.relatesTo.Some? ==> row.reply.relatesTo == row.messageId)
    && (IsKeyed(row) ==> row.reply.relatesTo == row.messageId)
    && match row.code
       case None => row.httpStatus == 200 && row.messageId.Some?
       case Some(MalformedXml) => row.httpStatus == 400 && row.messageId.None?
       case Some(SchemaInvalid) => row.httpStatus == 422
       case Some(RecipientRejected) => row.httpStatus == 422 && row.messageId.Some?
  }

  ghost predicate IsStored(rows: seq<Row>, id: string, answer: HttpAnswer) {
    exists row :: row in rows && HasKey(row, id) && AnswerOf(row) == answer
  }

  predicate HasNothingStored(answer: HttpAnswer) {
    answer in {OUTAGE_ANSWER, UNAUTHORIZED_ANSWER, SERVER_ERROR_ANSWER}
  }

  // What is wrong with a document that is not valid.
  function FaultOf(doc: Document): RejectCode {
    if doc.Malformed? then MalformedXml else SchemaInvalid
  }

  // The early refusal says what is wrong, in the first 500 characters of the first finding, and relates to the document
  // if that has a readable id.
  predicate TellsTheFault(doc: Document, reply: Reply) {
    match doc
    case Malformed(doctype) =>
      && reply.relatesTo == None
      && reply.description == Some(if doctype then "The document carries a DOCTYPE, which is not allowed"
                                   else "The document is not well-formed XML")
    case Parsed(messageId, _, findings) =>
      && findings != [] && reply.relatesTo == (if messageId.Some? && IsUlid(messageId.value) then messageId else None)
      && var text := FindingText(findings[0]);
         reply.description == Some(if |text| > 500 then text[..500] else text)
  }

  // An answer to a document that never got as far as its id.
  ghost predicate IsEarlyAnswer(doc: Document, answer: HttpAnswer) {
    exists row: Row {:trigger IsSound(row)} ::
      IsSound(row) && AnswerOf(row) == answer && row.code == Some(FaultOf(doc)) && TellsTheFault(doc, row.reply) &&
      (row.messageId == if doc.Parsed? then doc.messageId else None)
  }

  ghost predicate IsHonest(rows: seq<Row>, doc: Document, answer: HttpAnswer) {
    || HasNothingStored(answer)
    || (IsValid(doc) && IsStored(rows, doc.messageId.value, answer))
    || (!IsValid(doc) && IsEarlyAnswer(doc, answer))
  }

  predicate IsRowFor(doc: Document, row: Row) {
    && row.messageId == (if doc.Parsed? then doc.messageId else None)
    && (if IsValid(doc) then row.code in {None, Some(RecipientRejected)}
        else row.code == Some(FaultOf(doc)) && TellsTheFault(doc, row.reply))
  }

  ghost predicate ThreadOk(rows: seq<Row>, thread: Thread) {
    var doc := thread.doc;
    match thread.stage
    case Arrived => true
    case LookingUp(id, subject) => IsValid(doc) && doc.messageId == Some(id) && doc.subject == Some(subject)
    case Judging(id, subject) => IsValid(doc) && doc.messageId == Some(id) && doc.subject == Some(subject)
    case Inserting(row) => IsSound(row) && IsRowFor(doc, row)
    case Refound(id) => IsValid(doc) && doc.messageId == Some(id) && exists row :: row in rows && HasKey(row, id)
    case Answered(answer) => IsHonest(rows, doc, answer)
  }

  ghost predicate InboxInv<C(!new)>(inbox: Inbox<C>) {
    && UniqueKeys(inbox.rows)
    && (forall row :: row in inbox.rows ==> IsSound(row))
    && (forall c :: c in inbox.threads ==> ThreadOk(inbox.rows, inbox.threads[c]))
  }

  lemma LateRowIsSound(id: Ulid, subject: JsString, uuid: nat)
    ensures
      var row := LateRow(id, subject, uuid);
      row.Some? ==>
        IsSound(row.value) && row.value.messageId == Some(id) && row.value.code in {None, Some(RecipientRejected)}
  {
  }

  // The two answers without a document: to a wrong key, before anything is read, and to a crash.
  lemma AnswersWithoutAReply(rows: seq<Row>, thread: Thread)
    ensures thread.stage.Arrived? ==> Moved(rows, thread, RefuseKey) == (rows, Answered(HttpAnswer(401, None)))
    ensures !thread.stage.Answered? ==> Moved(rows, thread, Crash) == (rows, Answered(HttpAnswer(500, None)))
  {
  }

  lemma EarlyRowTellsTheFault(doc: Document, uuid: nat)
    ensures EarlyRow(doc, uuid).Some? ==> TellsTheFault(doc, EarlyRow(doc, uuid).value.reply)
  {
    hide FindingText, IsUlid;
    assert |MALFORMED_TEXT| <= 500 && |DOCTYPE_TEXT| <= 500;
  }

  lemma EarlyRowIsSound(doc: Document, uuid: nat)
    ensures
      var row := EarlyRow(doc, uuid);
      row.Some? ==> (IsSendable(row.value.reply) ==> IsSound(row.value)) && IsRowFor(doc, row.value)
  {
    hide TellsTheFault;
    EarlyRowTellsTheFault(doc, uuid);
  }

  lemma ThreadOkGrows(rows: seq<Row>, more: seq<Row>, thread: Thread)
    requires ThreadOk(rows, thread) && forall row :: row in rows ==> row in more
    ensures ThreadOk(more, thread)
  {
    if thread.stage.Answered? && IsValid(thread.doc) && !HasNothingStored(thread.stage.answer) {
      assert IsStored(rows, thread.doc.messageId.value, thread.stage.answer);
      var row :| row in rows && HasKey(row, thread.doc.messageId.value) && AnswerOf(row) == thread.stage.answer;
      assert row in more;
    }
  }

  // What one step of a thread does to the table, and that the thread stays honest.
  lemma MovedIsOk(rows: seq<Row>, thread: Thread, move: Move)
    requires CanMove(thread.stage, move)
    requires UniqueKeys(rows) && (forall row :: row in rows ==> IsSound(row)) && ThreadOk(rows, thread)
    ensures
      var (rows', stage') := Moved(rows, thread, move);
      && UniqueKeys(rows')
      && (forall row :: row in rows' ==> IsSound(row))
      && (forall row :: row in rows ==> row in rows')
      && (forall row :: row in rows' && row !in rows ==> IsRowFor(thread.doc, row))
      && ThreadOk(rows', thread.(stage := stage'))
  {
    hide TellsTheFault;
    match move
    case RefuseKey =>
    case Crash =>
    case Parse(uuid) =>
      EarlyRowIsSound(thread.doc, uuid);
    case LookUp =>
    case LookUpAgain =>
    case Judge(uuid) =>
      LateRowIsSound(thread.stage.id, thread.stage.subject, uuid);
    case Insert =>
      var row := thread.stage.row;
      if Collides(rows, row) {
        assert IsValid(thread.doc);
      } else {
        assert row in rows + [row];
        if IsValid(thread.doc) {
          assert HasKey(row, thread.doc.messageId.value);
          assert IsStored(rows + [row], thread.doc.messageId.value, AnswerOf(row));
        } else {
          assert IsEarlyAnswer(thread.doc, AnswerOf(row));
        }
        InsertKeepsUnique(rows, row);
      }
  }

  lemma InsertKeepsUnique(rows: seq<Row>, row: Row)
    requires UniqueKeys(rows) && !Collides(rows, row)
    ensures UniqueKeys(rows + [row])
  {
    assert IsKeyed(row) ==> forall i :: 0 <= i < |rows| ==> rows[i] in rows && !HasKey(rows[i], row.messageId.value);
  }

  lemma ArriveKeepsInv<C(!new)>(inbox: Inbox<C>, c: C, doc: Document)
    requires InboxInv(inbox) && CanArrive(inbox, c)
    ensures InboxInv(Arrive(inbox, c, doc))
  {
  }

  lemma StepKeepsInv<C(!new)>(inbox: Inbox<C>, c: C, move: Move)
    requires InboxInv(inbox) && CanStep(inbox, c, move)
    ensures InboxInv(Step(inbox, c, move))
    ensures forall row :: row in inbox.rows ==> row in Step(inbox, c, move).rows
  {
    var next := Step(inbox, c, move);
    MovedIsOk(inbox.rows, inbox.threads[c], move);
    forall d | d in next.threads ensures ThreadOk(next.rows, next.threads[d]) {
      if d != c {
        ThreadOkGrows(inbox.rows, next.rows, inbox.threads[d]);
      }
    }
  }

  // --- Runs -------------------------------------------------------------------------------------

  datatype Event<C> = Come(c: C, doc: Document) | Go(c: C, move: Move)

  predicate CanHappen<C>(inbox: Inbox<C>, e: Event<C>) {
    match e
    case Come(c, _) => CanArrive(inbox, c)
    case Go(c, move) => CanStep(inbox, c, move)
  }

  function Happen<C>(inbox: Inbox<C>, e: Event<C>): Inbox<C>
    requires CanHappen(inbox, e)
  {
    match e
    case Come(c, doc) => Arrive(inbox, c, doc)
    case Go(c, move) => Step(inbox, c, move)
  }

  // The inboxes that some interleaving of arrivals and thread steps leads to.
  ghost predicate LeadsTo<C(!new)>(events: seq<Event<C>>, inbox: Inbox<C>) {
    if events == [] then inbox == Inbox([], map[])
    else
      var last := events[|events| - 1];
      exists before :: LeadsTo(events[..|events| - 1], before) && CanHappen(before, last)
        && inbox == Happen(before, last)
  }

  lemma {:induction false} EveryInterleavingKeepsInv<C(!new)>(events: seq<Event<C>>, inbox: Inbox<C>)
    requires LeadsTo(events, inbox)
    ensures InboxInv(inbox)
  {
    if events != [] {
      var n := |events| - 1;
      var before :| LeadsTo(events[..n], before) && CanHappen(before, events[n]) && inbox == Happen(before, events[n]);
      EveryInterleavingKeepsInv(events[..n], before);
      match events[n]
      case Come(c, doc) => ArriveKeepsInv(before, c, doc);
      case Go(c, move) => StepKeepsInv(before, c, move);
    }
  }

  // --- The recipient's rules, over every interleaving ----------------------------------------------

  predicate Asks(doc: Document, trigger: string) {
    IsAscii(trigger) && doc.Parsed? && doc.subject.Some? && Contains(doc.subject.value, Units(trigger))
  }

  // A row that stands for the rules' verdict on this document: a subject with "[reject]" is refused, one with "[fail]"
  // only gets no row at all, and every other one is accepted.
  predicate IsVerdictOn(row: Row, doc: Document) {
    && IsValid(doc) && row.messageId == doc.messageId
    && if Asks(doc, "[reject]") then row.code == Some(RecipientRejected) else !Asks(doc, "[fail]") && row.code == None
  }

  ghost predicate FollowsTheRules(thread: Thread) {
    match thread.stage
    case Inserting(row) => IsValid(thread.doc) ==> IsVerdictOn(row, thread.doc)
    case Answered(answer) =>
      answer.statusCode == 503 ==>
        IsValid(thread.doc) && Asks(thread.doc, "[fail]") && !Asks(thread.doc, "[reject]")
    case _ => true
  }

  ghost predicate IsJudged<C(!new)>(inbox: Inbox<C>, row: Row) {
    exists c :: c in inbox.threads && IsVerdictOn(row, inbox.threads[c].doc)
  }

  // Every keyed row is the verdict on a document that some thread was given, and 503 stands for nothing but "[fail]".
  ghost predicate RulesInv<C(!new)>(inbox: Inbox<C>) {
    && (forall row :: row in inbox.rows && IsKeyed(row) ==> IsJudged(inbox, row))
    && (forall c :: c in inbox.threads ==> FollowsTheRules(inbox.threads[c]))
  }

  lemma RulesJudge(doc: Document, id: Ulid, subject: JsString, uuid: nat)
    requires IsValid(doc) && doc.messageId == Some(id) && doc.subject == Some(subject)
    ensures
      var row := LateRow(id, subject, uuid);
      if row.Some? then IsVerdictOn(row.value, doc) && row.value.reply.uuid == uuid
      else Asks(doc, "[fail]") && !Asks(doc, "[reject]")
  {
    hide Contains, Units;
  }

  lemma MovedFollowsTheRules(rows: seq<Row>, thread: Thread, move: Move)
    requires CanMove(thread.stage, move) && ThreadOk(rows, thread) && FollowsTheRules(thread)
    requires forall row :: row in rows ==> IsSound(row)
    ensures
      var (more, next) := Moved(rows, thread, move);
      && FollowsTheRules(thread.(stage := next))
      && forall row :: row in more && row !in rows && IsKeyed(row) ==> IsVerdictOn(row, thread.doc)
  {
    hide Asks, IsSendable, RulesOn;
    match move
    case Parse(uuid) => EarlyRowIsSound(thread.doc, uuid);
    case Judge(uuid) =>
      hide LateRow;
      RulesJudge(thread.doc, thread.stage.id, thread.stage.subject, uuid);
    case _ =>
  }

  lemma ArriveKeepsRules<C(!new)>(inbox: Inbox<C>, c: C, doc: Document)
    requires RulesInv(inbox) && CanArrive(inbox, c)
    ensures RulesInv(Arrive(inbox, c, doc))
  {
    hide IsVerdictOn;
    var next := Arrive(inbox, c, doc);
    forall row | row in next.rows && IsKeyed(row) ensures IsJudged(next, row) {
      assert IsJudged(inbox, row);
      var d :| d in inbox.threads && IsVerdictOn(row, inbox.threads[d].doc);
      assert d in next.threads && next.threads[d].doc == inbox.threads[d].doc;
    }
  }

  lemma StepKeepsRules<C(!new)>(inbox: Inbox<C>, c: C, move: Move)
    requires InboxInv(inbox) && RulesInv(inbox) && CanStep(inbox, c, move)
    ensures RulesInv(Step(inbox, c, move))
  {
    hide IsVerdictOn, FollowsTheRules, Moved, ThreadOk, UniqueKeys, IsSound, CanMove;
    var next := Step(inbox, c, move);
    MovedFollowsTheRules(inbox.rows, inbox.threads[c], move);
    forall row | row in next.rows && IsKeyed(row) ensures IsJudged(next, row) {
      if row in inbox.rows {
        assert IsJudged(inbox, row);
        var d :| d in inbox.threads && IsVerdictOn(row, inbox.threads[d].doc);
        assert d in next.threads && next.threads[d].doc == inbox.threads[d].doc;
      } else {
        assert c in next.threads && next.threads[c].doc == inbox.threads[c].doc;
      }
    }
  }

  // In every interleaving: a row under an id is the verdict that "[reject]" and "[fail]" give on a document with that
  // id, and 503 is answered to nothing but a valid document that asks for it.
  lemma {:induction false} EveryInterleavingFollowsTheRules<C(!new)>(events: seq<Event<C>>, inbox: Inbox<C>)
    requires LeadsTo(events, inbox)
    ensures RulesInv(inbox)
  {
    hide RulesInv, InboxInv, Arrive, Step;
    if events == [] {
      NobodyIsJudged<C>();
    } else {
      var n := |events| - 1;
      var before :| LeadsTo(events[..n], before) && CanHappen(before, events[n]) && inbox == Happen(before, events[n]);
      EveryInterleavingKeepsInv(events[..n], before);
      EveryInterleavingFollowsTheRules(events[..n], before);
      match events[n]
      case Come(c, doc) => ArriveKeepsRules(before, c, doc);
      case Go(c, move) => StepKeepsRules(before, c, move);
    }
  }

  lemma NobodyIsJudged<C(!new)>()
    ensures RulesInv<C>(Inbox([], map[]))
  {
  }

  // What the rules say a document is answered with, when it is answered for the first time.
  ghost predicate IsDecidedFor(rows: seq<Row>, doc: Document, answer: HttpAnswer) {
    && IsValid(doc)
    && if Asks(doc, "[reject]") then
         && answer.statusCode == 422 && answer.reply.Some? && answer.reply.value.code == Some(RecipientRejected)
         && IsStored(rows, doc.messageId.value, answer)
       else if Asks(doc, "[fail]") then answer == HttpAnswer(503, None)
       else
         && answer.statusCode == 200 && answer.reply.Some? && answer.reply.value.code == None
         && IsStored(rows, doc.messageId.value, answer)
  }

  // The answer of a thread with a valid document is decided by its own subject, or by that of another thread's
  // document with the same id.
  lemma AnswersAreDecided<C(!new)>(inbox: Inbox<C>, c: C, answer: HttpAnswer)
    requires InboxInv(inbox) && RulesInv(inbox)
    requires c in inbox.threads && IsValid(inbox.threads[c].doc) && inbox.threads[c].stage == Answered(answer)
    requires answer.reply.Some? || answer == HttpAnswer(503, None)
    ensures IsDecidedFor(inbox.rows, inbox.threads[c].doc, answer) || exists d ::
      && d in inbox.threads && d != c && answer.reply.Some?
      && inbox.threads[d].doc.Parsed? && inbox.threads[d].doc.messageId == inbox.threads[c].doc.messageId
      && IsDecidedFor(inbox.rows, inbox.threads[d].doc, answer)
  {
    hide Asks, UniqueKeys, IsSendable;
    var doc := inbox.threads[c].doc;
    assert ThreadOk(inbox.rows, inbox.threads[c]) && FollowsTheRules(inbox.threads[c]);
    if answer.reply.Some? {
      assert IsStored(inbox.rows, doc.messageId.value, answer);
      var row :| row in inbox.rows && HasKey(row, doc.messageId.value) && AnswerOf(row) == answer;
      assert IsSound(row) && IsJudged(inbox, row);
      var d :| d in inbox.threads && IsVerdictOn(row, inbox.threads[d].doc);
      assert IsDecidedFor(inbox.rows, inbox.threads[d].doc, answer);
    }
  }

  // An answer that stands for a decision of the recipient about this id.
  predicate IsDecision(answer: HttpAnswer) {
    answer.reply.Some? && answer.reply.value.code in {None, Some(RecipientRejected)}
  }

  // This thread has returned a decision for this id.
  ghost predicate HasDecided<C>(inbox: Inbox<C>, c: C, id: string) {
    && c in inbox.threads
    && inbox.threads[c].doc.Parsed?
    && inbox.threads[c].doc.messageId == Some(id)
    && inbox.threads[c].stage.Answered?
    && IsDecision(inbox.threads[c].stage.answer)
  }

  lemma DecisionIsStored<C(!new)>(inbox: Inbox<C>, c: C, id: string)
    requires InboxInv(inbox) && HasDecided(inbox, c, id)
    ensures IsStored(inbox.rows, id, inbox.threads[c].stage.answer)
  {
    hide IsStored;
    assert ThreadOk(inbox.rows, inbox.threads[c]);
  }

  lemma OneRowPerKey(rows: seq<Row>, id: string, i: nat, j: nat)
    requires UniqueKeys(rows) && i < |rows| && j < |rows| && HasKey(rows[i], id) && HasKey(rows[j], id)
    ensures i == j
  {
  }

  lemma OneStoredAnswer(rows: seq<Row>, id: string, one: HttpAnswer, two: HttpAnswer)
    requires UniqueKeys(rows) && IsStored(rows, id, one) && IsStored(rows, id, two)
    ensures one == two
  {
    hide UniqueKeys, HasKey, AnswerOf;
    var row, other :| row in rows && HasKey(row, id) && AnswerOf(row) == one
                      && other in rows && HasKey(other, id) && AnswerOf(other) == two;
    var i :| 0 <= i < |rows| && rows[i] == row;
    var j :| 0 <= j < |rows| && rows[j] == other;
    OneRowPerKey(rows, id, i, j);
  }

  // In every interleaving at most one row answers an id, and every decision ever returned for
  // that id, by whichever thread, is the same status and the same reply document.
  lemma OneAnswerPerMessage<C(!new)>(events: seq<Event<C>>, inbox: Inbox<C>, id: string, c: C, d: C)
    requires LeadsTo(events, inbox)
    ensures forall i, j | 0 <= i < j < |inbox.rows| :: !(HasKey(inbox.rows[i], id) && HasKey(inbox.rows[j], id))
    ensures HasDecided(inbox, c, id) && HasDecided(inbox, d, id)
      ==> inbox.threads[c].stage.answer == inbox.threads[d].stage.answer
  {
    hide LeadsTo, IsStored;
    EveryInterleavingKeepsInv(events, inbox);
    if HasDecided(inbox, c, id) && HasDecided(inbox, d, id) {
      DecisionIsStored(inbox, c, id);
      DecisionIsStored(inbox, d, id);
      OneStoredAnswer(inbox.rows, id, inbox.threads[c].stage.answer, inbox.threads[d].stage.answer);
    }
  }

  // --- The sender's reading of the recipient's answers (reply-reader.ts) ---------------------------

  function FactsOf(reply: Reply, messageId: string): ReplyFacts {
    var code := if reply.code.Some? then Some(CodeText(reply.code.value)) else None;
    ReplyFacts(reply.status, code, reply.description, messageId, reply.relatesTo)
  }

  function CodeText(code: RejectCode): string {
    match code
    case MalformedXml => "MALFORMED_XML"
    case SchemaInvalid => "SCHEMA_INVALID"
    case RecipientRejected => "RECIPIENT_REJECTED"
  }

  // The answer as it arrives when nothing is lost on the way. `messageId` is the text of the reply's uuid.
  function AsReceived(answer: HttpAnswer, messageId: string): PartnerAnswer {
    match answer.reply
    case None => Answer(answer.statusCode, None, None)
    case Some(reply) => Answer(answer.statusCode, Some(Body(Some(FactsOf(reply, messageId)))), None)
  }

  // The verdict of reply.xsd on the body, on the sender's side.
  function Verdict0(answer: HttpAnswer): Option<bool> {
    match answer.reply
    case None => None
    case Some(reply) => Some(MatchesReplySchema(reply))
  }

  function Reading(answer: HttpAnswer, messageId: string, ourId: string): AnswerReading {
    ReadAnswer(AsReceived(answer, messageId), Verdict0(answer), ourId)
  }

  // The document of a submission of ours: whatever else is wrong with it, the id in it, if one
  // can be read at all, is our id.
  predicate CarriesOurId(doc: Document, ourId: string) {
    doc.Malformed? || doc.messageId == Some(ourId) || doc.messageId == None
  }

  // Whatever document arrives and whatever is stored, in every interleaving: 200 is read as
  // delivered, 400 and 422 as refused, everything else as "try again", and no reply to a
  // submission that carries our id ever looks like a protocol violation to the sender.
  lemma ReaderUnderstandsTheRecipient<C(!new)>(
    events: seq<Event<C>>, inbox: Inbox<C>, c: C, messageId: string, ourId: string)
    requires LeadsTo(events, inbox)
    requires c in inbox.threads && inbox.threads[c].stage.Answered?
    requires CarriesOurId(inbox.threads[c].doc, ourId)
    ensures
      var answer := inbox.threads[c].stage.answer;
      var reading := Reading(answer, messageId, ourId);
      && answer.statusCode in {200, 400, 401, 422, 500, 503}
      && (reading.decision == Delivered <==> answer.statusCode == 200)
      && (reading.decision == Refused <==> answer.statusCode in {400, 422})
      && (reading.decision == Retry <==> answer.statusCode in {401, 500, 503})
      && (answer.reply.Some? <==> answer.statusCode in {200, 400, 422})
      && (answer.reply.Some? ==> reading.reason in {WordAccepted, WordRejected} && reading.reply.value.valid)
      && (answer.reply.None? ==> reading.reason == HttpStatus(answer.statusCode))
  {
    EveryInterleavingKeepsInv(events, inbox);
    assert ThreadOk(inbox.rows, inbox.threads[c]);
    HonestAnswersReadWell(inbox.rows, inbox.threads[c].doc, inbox.threads[c].stage.answer, messageId, ourId);
  }

  lemma HonestAnswersReadWell(rows: seq<Row>, doc: Document, answer: HttpAnswer, messageId: string, ourId: string)
    requires forall row :: row in rows ==> IsSound(row)
    requires IsHonest(rows, doc, answer) && CarriesOurId(doc, ourId)
    ensures
      var reading := Reading(answer, messageId, ourId);
      && answer.statusCode in {200, 400, 401, 422, 500, 503}
      && (reading.decision == Delivered <==> answer.statusCode == 200)
      && (reading.decision == Refused <==> answer.statusCode in {400, 422})
      && (reading.decision == Retry <==> answer.statusCode in {401, 500, 503})
      && (answer.reply.Some? <==> answer.statusCode in {200, 400, 422})
      && (answer.reply.Some? ==> reading.reason in {WordAccepted, WordRejected} && reading.reply.value.valid)
      && (answer.reply.None? ==> reading.reason == HttpStatus(answer.statusCode))
  {
    if !HasNothingStored(answer) {
      var row: Row :| IsSound(row) && AnswerOf(row) == answer &&
        row.messageId == (if doc.Parsed? then doc.messageId else None);
      assert row.messageId == None || row.messageId == Some(ourId);
      assert IsSound(row);
      if row.reply.relatesTo.Some? {
        assert row.reply.relatesTo == row.messageId;
        assert row.messageId.Some?;
      }
      assert row.reply.relatesTo == None || row.reply.relatesTo == Some(ourId);
    }
  }
}
