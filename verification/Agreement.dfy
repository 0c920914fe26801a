/** The two systems agree about every request, over every run: what the sender calls `sent` the
    recipient holds as accepted, and what the recipient accepted is never called `rejected`. */
module Agreement {
  import opened Basics
  import opened RequestStatus
  import opened RequestsTable
  import opened ReplyReader
  import Replies
  import Recipient
  import opened Protocol
  import opened NoLoss
  import Histories

  ghost predicate HasAccepted(rows: seq<Recipient.Row>, id: Ulid) {
    exists row :: row in rows && Recipient.HasKey(row, id) && row.code == None
  }

  ghost predicate HasRefused(rows: seq<Recipient.Row>, id: Ulid) {
    exists row :: row in rows && Recipient.HasKey(row, id) && row.code == Some(Replies.RecipientRejected)
  }

  predicate IsOfKind(cfg: Config, table: Table, id: Ulid, kinds: set<ContentKind>) {
    id in table.items && KindOf(cfg, id, table.items[id].content) in kinds
  }

  predicate MayBeSent(cfg: Config, table: Table, id: Ulid) {
    IsOfKind(cfg, table, id, {Deliverable})
  }

  predicate NeverSent(cfg: Config, table: Table, id: Ulid) {
    IsOfKind(cfg, table, id, {Unrepresentable, SchemaBreaking})
  }

  // What must be true at the recipient before this status may be written.
  ghost predicate IsGrounded(cfg: Config, table: Table, rows: seq<Recipient.Row>, id: Ulid, status: Status) {
    && (status == Sent ==> HasAccepted(rows, id))
    && (status == Rejected ==> NeverSent(cfg, table, id) || HasRefused(rows, id))
  }

  predicate IsOurDocument(cfg: Config, table: Table, id: Ulid, doc: Recipient.Document) {
    MayBeSent(cfg, table, id) && doc == DocumentOf(id, table.items[id].content)
  }

  ghost predicate CallsInv(cfg: Config, s: State) {
    && (forall n :: n in s.wire ==> n in s.attempts && IsOurDocument(cfg, s.table, s.attempts[n].id, s.wire[n]))
    && (forall c :: c in s.inbox.threads ==> CallOk(cfg, s.table, s.attempts, c, s.inbox.threads[c].doc))
  }

  predicate CallOk(cfg: Config, table: Table, attempts: map<nat, Attempt>, c: Caller, doc: Recipient.Document) {
    match c
    case Ours(n) => n in attempts && IsOurDocument(cfg, table, attempts[n].id, doc)
    case Stranger(_) => !Recipient.IsValid(doc)
  }

  // Every answered id was really sent.
  ghost predicate RowsInv(cfg: Config, table: Table, rows: seq<Recipient.Row>) {
    forall row, id: Ulid :: row in rows && Recipient.HasKey(row, id) ==> MayBeSent(cfg, table, id)
  }

  ghost predicate PcOk(cfg: Config, table: Table, rows: seq<Recipient.Row>, id: Ulid, pc: Pc) {
    match pc
    case Ready(content) => MayBeSent(cfg, table, id) && content == table.items[id].content
    case Calling => MayBeSent(cfg, table, id)
    case ToSave(_, target) => target.Some? ==> IsGrounded(cfg, table, rows, id, target.value)
    case ToMark(wanted) => IsGrounded(cfg, table, rows, id, wanted)
    case _ => true
  }

  ghost predicate AgreementInv(cfg: Config, s: State) {
    && Recipient.InboxInv(s.inbox)
    && CallsInv(cfg, s)
    && RowsInv(cfg, s.table, s.inbox.rows)
    && (forall n :: n in s.attempts ==> PcOk(cfg, s.table, s.inbox.rows, s.attempts[n].id, s.attempts[n].pc))
    && (forall id :: id in s.table.items ==> IsGrounded(cfg, s.table, s.inbox.rows, id, s.table.items[id].status))
  }

  // --- Nothing of it is ever taken back --------------------------------------------------------------

  ghost predicate RowsGrow(rows: seq<Recipient.Row>, more: seq<Recipient.Row>) {
    forall row :: row in rows ==> row in more
  }

  lemma GroundsStay(
    cfg: Config, t: Table, u: Table, rows: seq<Recipient.Row>, more: seq<Recipient.Row>, id: Ulid, status: Status)
    requires IsGrounded(cfg, t, rows, id, status) && TableGrows(t, u) && RowsGrow(rows, more)
    ensures IsGrounded(cfg, u, more, id, status)
  {
    if status == Sent {
      var row :| row in rows && Recipient.HasKey(row, id) && row.code == None;
      assert row in more;
    } else if status == Rejected && !NeverSent(cfg, t, id) {
      var row :| row in rows && Recipient.HasKey(row, id) && row.code == Some(Replies.RecipientRejected);
      assert row in more;
    }
  }

  lemma PcsStay(
    cfg: Config, t: Table, u: Table, rows: seq<Recipient.Row>, more: seq<Recipient.Row>, id: Ulid, pc: Pc)
    requires PcOk(cfg, t, rows, id, pc) && TableGrows(t, u) && RowsGrow(rows, more)
    ensures PcOk(cfg, u, more, id, pc)
  {
    hide IsGrounded;
    match pc
    case ToSave(_, target) =>
      if target.Some? { GroundsStay(cfg, t, u, rows, more, id, target.value); }
    case ToMark(wanted) => GroundsStay(cfg, t, u, rows, more, id, wanted);
    case _ =>
  }

  // Growth of the table and of the rows keeps the invariant, if every new status is grounded.
  lemma GrowthKeepsInv(cfg: Config, s: State, t: State)
    requires AgreementInv(cfg, s) && TableGrows(s.table, t.table) && RowsGrow(s.inbox.rows, t.inbox.rows)
    requires Recipient.InboxInv(t.inbox) && RowsInv(cfg, t.table, t.inbox.rows)
    requires t.attempts == s.attempts && t.wire == s.wire
    requires forall c :: c in t.inbox.threads ==> CallOk(cfg, s.table, s.attempts, c, t.inbox.threads[c].doc)
    requires forall id :: id in t.table.items ==>
      || IsGrounded(cfg, t.table, t.inbox.rows, id, t.table.items[id].status)
      || (id in s.table.items && s.table.items[id].status == t.table.items[id].status)
    ensures AgreementInv(cfg, t)
  {
    hide IsGrounded, PcOk, RowsInv, Recipient.InboxInv, KindOf;
    forall n | n in t.attempts ensures PcOk(cfg, t.table, t.inbox.rows, t.attempts[n].id, t.attempts[n].pc) {
      PcsStay(cfg, s.table, t.table, s.inbox.rows, t.inbox.rows, s.attempts[n].id, s.attempts[n].pc);
    }
    forall id | id in t.table.items ensures IsGrounded(cfg, t.table, t.inbox.rows, id, t.table.items[id].status) {
      if id in s.table.items && s.table.items[id].status == t.table.items[id].status {
        GroundsStay(cfg, s.table, t.table, s.inbox.rows, t.inbox.rows, id, s.table.items[id].status);
      }
    }
  }

  // --- The steps ------------------------------------------------------------------------------------------

  lemma RowsInvGrows(cfg: Config, t: Table, u: Table, rows: seq<Recipient.Row>)
    requires RowsInv(cfg, t, rows) && TableGrows(t, u)
    ensures RowsInv(cfg, u, rows)
  {
  }

  lemma HarmlessStatus(cfg: Config, table: Table, rows: seq<Recipient.Row>, id: Ulid, status: Status)
    requires status in {Created, Queued, Failed}
    ensures IsGrounded(cfg, table, rows, id, status)
  {
  }

  lemma ApiKeepsAgreement(cfg: Config, s: State, e: ApiStep)
    requires ApiEnabled(s.table, e) && AgreementInv(cfg, s)
    ensures AgreementInv(cfg, s.(table := ApiNext(s.table, e)))
  {
    var t := s.(table := ApiNext(s.table, e));
    ApiGrows(s.table, e);
    RowsInvGrows(cfg, s.table, t.table, s.inbox.rows);
    hide IsGrounded, PcOk, RowsInv, Recipient.InboxInv, KindOf;
    forall id | id in t.table.items
      ensures IsGrounded(cfg, t.table, t.inbox.rows, id, t.table.items[id].status)
        || (id in s.table.items && s.table.items[id].status == t.table.items[id].status)
    {
      if t.table.items[id].status == Created {
        HarmlessStatus(cfg, t.table, t.inbox.rows, id, Created);
      }
    }
    GrowthKeepsInv(cfg, s, t);
  }

  lemma MarkQueuedKeepsAgreement(cfg: Config, s: State, id: Ulid)
    requires AgreementInv(cfg, s)
    ensures AgreementInv(cfg, s.(table := MoveItem(s.table, Queued, id).0))
  {
    var t := s.(table := MoveItem(s.table, Queued, id).0);
    MoveGrows(s.table, Queued, id);
    RowsInvGrows(cfg, s.table, t.table, s.inbox.rows);
    HarmlessStatus(cfg, t.table, t.inbox.rows, id, Queued);
    hide IsGrounded, PcOk, RowsInv, Recipient.InboxInv, KindOf;
    GrowthKeepsInv(cfg, s, t);
  }

  lemma EnqueueKeepsAgreement(cfg: Config, s: State, k: nat, e: EnqueueStep)
    requires EnqueueEnabled(s, k, e) && AgreementInv(cfg, s)
    ensures AgreementInv(cfg, EnqueueNext(s, k, e))
  {
    if e.MarkQueued? {
      MarkQueuedKeepsAgreement(cfg, s, RecordOf(s, k).id);
    }
  }

  // What the sender concludes from an answer to one of its documents is true at the recipient.
  // What the status of an honest answer to a valid document means.
  lemma StatusIsTrue(rows: seq<Recipient.Row>, doc: Recipient.Document, answer: Recipient.HttpAnswer, id: Ulid)
    requires forall row :: row in rows ==> Recipient.IsSound(row)
    requires Recipient.IsHonest(rows, doc, answer) && Recipient.IsValid(doc) && doc.messageId == Some(id)
    ensures answer.statusCode == 200 ==> HasAccepted(rows, id)
    ensures answer.statusCode in {400, 422} ==> HasRefused(rows, id)
  {
    if !Recipient.HasNothingStored(answer) {
      var row :| row in rows && Recipient.HasKey(row, id) && Recipient.AnswerOf(row) == answer;
      assert Recipient.IsSound(row);
      hide Recipient.IsSendable;
    }
  }

  // Without its body an answer is never a delivery, and a refusal by its status.
  lemma LostBodyReads(statusCode: int, id: Ulid)
    requires statusCode in {200, 400, 401, 422, 500, 503}
    ensures ReadAnswer(Answer(statusCode, None, Some(Unreadable)), None, id).decision
      == if statusCode in {400, 422} then Refused else Retry
  {
  }

  lemma ThreadOfOurs(cfg: Config, s: State, n: nat)
    requires AgreementInv(cfg, s) && n in s.attempts && IsAnswered(s, n)
    ensures var thread := s.inbox.threads[Ours(n)];
      && Recipient.IsHonest(s.inbox.rows, thread.doc, thread.stage.answer)
      && Recipient.IsValid(thread.doc) && thread.doc.messageId == Some(s.attempts[n].id)
      && (forall row :: row in s.inbox.rows ==> Recipient.IsSound(row))
  {
    var thread := s.inbox.threads[Ours(n)];
    assert CallOk(cfg, s.table, s.attempts, Ours(n), thread.doc);
    assert Recipient.ThreadOk(s.inbox.rows, thread);
    hide RowsInv, IsGrounded, KindOf, PcOk;
  }

  lemma ReadingIsTrue(cfg: Config, s: State, n: nat, delivery: Delivery)
    requires AgreementInv(cfg, s) && WorkEnabled(s, n, Hear(delivery))
    ensures Heard(s, n, s.attempts[n].id, delivery).decision == Delivered ==>
      HasAccepted(s.inbox.rows, s.attempts[n].id)
    ensures Heard(s, n, s.attempts[n].id, delivery).decision == Refused ==> HasRefused(s.inbox.rows, s.attempts[n].id)
  {
    assert n in s.attempts && (delivery.NothingArrives? || IsAnswered(s, n));
    hide AgreementInv, HasAccepted, HasRefused, Recipient.Reading, WorkEnabled, Recipient.IsHonest, Recipient.IsSound;
    if !delivery.NothingArrives? {
      hide ReadAnswer;
      var id, thread := s.attempts[n].id, s.inbox.threads[Ours(n)];
      ThreadOfOurs(cfg, s, n);
      StatusIsTrue(s.inbox.rows, thread.doc, thread.stage.answer, id);
      Recipient.HonestAnswersReadWell(s.inbox.rows, thread.doc, thread.stage.answer, "", id);
      LostBodyReads(thread.stage.answer.statusCode, id);
    }
  }

  lemma WorkPcOk(cfg: Config, s: State, n: nat, e: WorkStep)
    requires WorkEnabled(s, n, e) && AgreementInv(cfg, s)
    ensures PcOk(cfg, s.table, s.inbox.rows, s.attempts[n].id, PcAfter(cfg, s, n, e))
  {
    assert PcOk(cfg, s.table, s.inbox.rows, s.attempts[n].id, s.attempts[n].pc);
    if e.Hear? {
      ReadingIsTrue(cfg, s, n, e.delivery);
    }
    hide Heard, HasAccepted, HasRefused, Recipient.InboxInv, RowsInv, CallsInv;
  }

  lemma WorkKeepsAgreement(cfg: Config, s: State, n: nat, e: WorkStep)
    requires WorkEnabled(s, n, e) && AgreementInv(cfg, s)
    ensures AgreementInv(cfg, WorkNext(cfg, s, n, e))
  {
    var attempt := s.attempts[n];
    assert PcOk(cfg, s.table, s.inbox.rows, attempt.id, attempt.pc);
    WorkPcOk(cfg, s, n, e);
    // First the attempt itself moves on, then the table.
    var t := WorkNext(cfg, s, n, e);
    var mid := t.(table := s.table);
    assert AgreementInv(cfg, mid) by {
      hide PcAfter, TableAfter, MessagesAfter, EntriesAfter, NoticesAfter;
      assert CallsInv(cfg, mid) by { WireStaysOurs(cfg, s, n, e); }
    }
    WorkGrowsTable(s, n, e);
    RowsInvGrows(cfg, s.table, t.table, s.inbox.rows);
    hide PcAfter, PcOk, RowsInv, Recipient.InboxInv, KindOf;
    if Applies(s, n, e) {
      GroundsStay(cfg, s.table, t.table, s.inbox.rows, s.inbox.rows, attempt.id, attempt.pc.wanted);
    }
    hide IsGrounded;
    GrowthKeepsInv(cfg, mid, t);
  }

  lemma AttemptsKeepTheirIds(cfg: Config, s: State, n: nat, e: WorkStep)
    requires WorkEnabled(s, n, e)
    ensures var t := WorkNext(cfg, s, n, e);
      && t.inbox == s.inbox && t.wire == WireAfter(s, n, e) && t.attempts.Keys == s.attempts.Keys
      && forall o :: o in t.attempts ==> t.attempts[o].id == s.attempts[o].id
  {
    hide PcAfter, TableAfter, MessagesAfter, WireAfter, EntriesAfter, NoticesAfter;
  }

  lemma SentDocumentsAreOurs(cfg: Config, s: State, n: nat, e: WorkStep)
    requires WorkEnabled(s, n, e) && PcOk(cfg, s.table, s.inbox.rows, s.attempts[n].id, s.attempts[n].pc)
      && CallsInv(cfg, s)
    ensures forall o :: o in WireAfter(s, n, e) ==>
      o in s.attempts && IsOurDocument(cfg, s.table, s.attempts[o].id, WireAfter(s, n, e)[o])
  {
    hide MayBeSent, IsGrounded, DocumentOf, CallOk;
  }

  lemma WireStaysOurs(cfg: Config, s: State, n: nat, e: WorkStep)
    requires WorkEnabled(s, n, e) && AgreementInv(cfg, s)
    ensures CallsInv(cfg, WorkNext(cfg, s, n, e).(table := s.table))
  {
    assert n in s.attempts && PcOk(cfg, s.table, s.inbox.rows, s.attempts[n].id, s.attempts[n].pc) && CallsInv(cfg, s);
    hide WorkNext, WorkEnabled, WireAfter, AgreementInv, PcOk, IsOurDocument;
    AttemptsKeepTheirIds(cfg, s, n, e);
    SentDocumentsAreOurs(cfg, s, n, e);
  }

  lemma RecipientKeepsAgreement(cfg: Config, s: State, e: RecipientStep)
    requires RecipientEnabled(s, e) && AgreementInv(cfg, s)
    ensures AgreementInv(cfg, s.(inbox := RecipientNext(s, e)))
  {
    var t := s.(inbox := RecipientNext(s, e));
    assert TableGrows(s.table, s.table);
    match e
    case Arrives(n) =>
      Recipient.ArriveKeepsInv(s.inbox, Ours(n), s.wire[n]);
      GrowthKeepsInv(cfg, s, t);
    case StrangerSends(number, doc) =>
      Recipient.ArriveKeepsInv(s.inbox, Stranger(number), doc);
      GrowthKeepsInv(cfg, s, t);
    case Handle(caller, move) =>
      Recipient.StepKeepsInv(s.inbox, caller, move);
      NewRowsAreOurs(cfg, s, caller, move);
      hide IsGrounded, PcOk, RowsInv, Recipient.InboxInv, KindOf;
      GrowthKeepsInv(cfg, s, t);
  }

  // Only a valid document gets a key, and only our attempts send valid documents.
  lemma NewRowsAreOurs(cfg: Config, s: State, caller: Caller, move: Recipient.Move)
    requires Recipient.CanStep(s.inbox, caller, move) && AgreementInv(cfg, s)
    ensures RowsInv(cfg, s.table, Recipient.Step(s.inbox, caller, move).rows)
  {
    var thread := s.inbox.threads[caller];
    assert CallOk(cfg, s.table, s.attempts, caller, thread.doc);
    assert Recipient.ThreadOk(s.inbox.rows, thread);
    Recipient.MovedIsOk(s.inbox.rows, thread, move);
    var rows := Recipient.Moved(s.inbox.rows, thread, move).0;
    hide Recipient.Moved, Recipient.ThreadOk, Recipient.UniqueKeys;
    forall row, id: Ulid | row in rows && Recipient.HasKey(row, id) ensures MayBeSent(cfg, s.table, id) {
      if row !in s.inbox.rows {
        assert Recipient.IsRowFor(thread.doc, row) && Recipient.IsSound(row);
        assert Recipient.IsValid(thread.doc);
      }
    }
  }

  lemma QueueKeepsAgreement(cfg: Config, s: State, e: QueueStep)
    requires QueueEnabled(cfg, s, e) && AgreementInv(cfg, s)
    ensures AgreementInv(cfg, QueueNext(cfg, s, e))
  {
    hide IsGrounded, KindOf, RowsInv, Recipient.InboxInv;
  }

  lemma StepKeepsAgreement(cfg: Config, s: State, e: Step)
    requires Enabled(cfg, s, e) && AgreementInv(cfg, s)
    ensures AgreementInv(cfg, Next(cfg, s, e))
  {
    hide AgreementInv, ApiNext, EnqueueNext, QueueNext, WorkNext, RecipientNext;
    match e
    case Api(api) => ApiKeepsAgreement(cfg, s, api);
    case Enqueue(k, enqueue) => EnqueueKeepsAgreement(cfg, s, k, enqueue);
    case Queue(queue) => QueueKeepsAgreement(cfg, s, queue);
    case Work(n, work) => WorkKeepsAgreement(cfg, s, n, work);
    case AtRecipient(recipient) => RecipientKeepsAgreement(cfg, s, recipient);
  }

  lemma InitialAgreement(cfg: Config)
    ensures AgreementInv(cfg, INITIAL)
  {
  }

  lemma {:induction false} AgreementAlong(cfg: Config, run: seq<State>, i: nat)
    requires IsRunFromTheStart(cfg, run) && i < |run|
    ensures AgreementInv(cfg, run[i])
  {
    hide AgreementInv, Enabled, Next, Follows;
    if i == 0 {
      InitialAgreement(cfg);
    } else {
      AgreementAlong(cfg, run, i - 1);
      var e := StepTaken(cfg, run, i);
      StepKeepsAgreement(cfg, run[i - 1], e);
    }
  }

  // With duplicate messages, crashes, lost answers, late arrivals and owner retries: `sent` means
  // accepted by the recipient, an accepted request is never `rejected`, and `rejected` means
  // refused by the recipient, unless the document never left us.
  lemma TheTwoSystemsAgree(cfg: Config, run: seq<State>, i: nat, id: Ulid)
    requires IsRunFromTheStart(cfg, run) && i < |run| && id in run[i].table.items
    ensures run[i].table.items[id].status == Sent ==> HasAccepted(run[i].inbox.rows, id)
    ensures run[i].table.items[id].status == Rejected ==>
              HasRefused(run[i].inbox.rows, id) || NeverSent(cfg, run[i].table, id)
    ensures HasAccepted(run[i].inbox.rows, id) ==> run[i].table.items[id].status != Rejected
    ensures !(HasAccepted(run[i].inbox.rows, id) && HasRefused(run[i].inbox.rows, id))
  {
    AgreementAlong(cfg, run, i);
    var s := run[i];
    assert IsGrounded(cfg, s.table, s.inbox.rows, id, s.table.items[id].status);
    if HasAccepted(s.inbox.rows, id) {
      var one :| one in s.inbox.rows && Recipient.HasKey(one, id) && one.code == None;
      assert MayBeSent(cfg, s.table, id);
      if HasRefused(s.inbox.rows, id) {
        var two :| two in s.inbox.rows && Recipient.HasKey(two, id) && two.code == Some(Replies.RecipientRejected);
        OneRowPerKey(s.inbox.rows, one, two, id);
      }
    }
  }

  lemma OneRowPerKey(rows: seq<Recipient.Row>, one: Recipient.Row, two: Recipient.Row, id: string)
    requires Recipient.UniqueKeys(rows)
    requires one in rows && two in rows && Recipient.HasKey(one, id) && Recipient.HasKey(two, id)
    ensures one == two
  {
    var i :| 0 <= i < |rows| && rows[i] == one;
    var j :| 0 <= j < |rows| && rows[j] == two;
    assert i == j;
  }

  // --- What was created is what is sent -------------------------------------------------------------------

  lemma CreatedAs(cfg: Config, s: State, id: Ulid, content: Content)
    requires Enabled(cfg, s, Api(Create(id, content)))
    ensures
      var items := Next(cfg, s, Api(Create(id, content))).table.items;
      id in items && items[id].content == content && items[id].status == Created && items[id].Retries() == 0
  {
  }

  // From the moment of its creation, whatever happens: a request holds exactly what it was created with, and every
  // document that any attempt ever sends for it carries its id and its subject.
  lemma WhatWasCreatedIsSent(cfg: Config, run: seq<State>, i: nat, j: nat, id: Ulid, content: Content)
    requires IsRunFromTheStart(cfg, run) && i < j < |run|
    requires Enabled(cfg, run[i], Api(Create(id, content))) && run[i + 1] == Next(cfg, run[i], Api(Create(id, content)))
    ensures id in run[j].table.items && run[j].table.items[id].content == content
    ensures forall n :: n in run[j].wire ==>
      n in run[j].attempts && (run[j].attempts[n].id == id ==>
        && run[j].wire[n].Parsed? && run[j].wire[n].messageId == Some(id)
        && run[j].wire[n].subject == Some(content.subject))
  {
    hide Enabled, Next, Follows, Recipient.InboxInv, RowsInv, PcOk, IsGrounded, KindOf, CallOk;
    CreatedAs(cfg, run[i], id, content);
    Histories.FinalIsFinal(cfg, run, i + 1, j, id);
    AgreementAlong(cfg, run, j);
  }
}
