/** partner-sim/app/service.py and storage.py in their own form: one thread of `handle`, calling a
    store that other threads use at the same time. */
module SubmissionService {
  import opened Basics
  import opened Utf16
  import opened Replies
  import opened Recipient

  ghost predicate LeadsOn(before: Inbox<nat>, after: Inbox<nat>) {
    && (forall row :: row in before.rows ==> row in after.rows)
    && (InboxInv(before) ==> InboxInv(after))
    && (InboxInv(before) && RulesInv(before) ==> RulesInv(after))
  }

  predicate Keeps(before: Inbox<nat>, after: Inbox<nat>, me: nat) {
    me in before.threads && me in after.threads && after.threads[me] == before.threads[me]
  }

  predicate Goes(before: Inbox<nat>, after: Inbox<nat>, me: nat, stage: Stage) {
    && me in before.threads && me in after.threads
    && after.threads[me] == before.threads[me].(stage := stage)
  }

  class MessageStore {
    var inbox: Inbox<nat>

    constructor ()
      ensures inbox == Inbox([], map[]) && InboxInv(inbox) && RulesInv(inbox)
    {
      inbox := Inbox([], map[]);
    }

    // Other threads go on for a while: the table may have grown, and is as sound as before.
    method Interfere(me: nat)
      requires me in inbox.threads
      modifies this
      ensures LeadsOn(old(inbox), inbox) && Keeps(old(inbox), inbox, me)
    {
    }

    method Do(me: nat, move: Move)
      requires CanStep(inbox, me, move)
      modifies this
      ensures LeadsOn(old(inbox), inbox) && inbox == Step(old(inbox), me, move)
      ensures Goes(old(inbox), inbox, me, Moved(old(inbox).rows, old(inbox).threads[me], move).1)
    {
      hide InboxInv, RulesInv, Moved;
      StepGrowsRows(inbox, me, move);
      if InboxInv(inbox) {
        StepKeepsInv(inbox, me, move);
        if RulesInv(inbox) {
          StepKeepsRules(inbox, me, move);
        }
      }
      inbox := Step(inbox, me, move);
    }

    // `find_answered`, before the rules.
    method FindAnswered(me: nat, id: Ulid, subject: JsString) returns (earlier: Option<Row>)
      requires me in inbox.threads && inbox.threads[me].stage == LookingUp(id, subject)
      modifies this
      ensures LeadsOn(old(inbox), inbox)
      ensures earlier.Some? ==>
        HasKey(earlier.value, id) && Goes(old(inbox), inbox, me, Answered(AnswerOf(earlier.value)))
      ensures earlier.None? ==> Goes(old(inbox), inbox, me, Judging(id, subject))
      ensures earlier.None? ==> forall row :: row in old(inbox).rows ==> !HasKey(row, id)
    {
      hide InboxInv, RulesInv;
      Interfere(me);
      earlier := Recipient.FindAnswered(inbox.rows, id);
      Do(me, LookUp);
    }

    // `add`: None when the row was stored, the earlier row when the unique index refused it.
    method Add(me: nat, row: Row) returns (earlier: Option<Row>, stored: bool)
      requires me in inbox.threads && inbox.threads[me].stage == Inserting(row)
      modifies this
      ensures LeadsOn(old(inbox), inbox)
      ensures stored ==> earlier.None? && row in inbox.rows && Goes(old(inbox), inbox, me, Answered(AnswerOf(row)))
      ensures earlier.Some? ==>
        && IsKeyed(row) && HasKey(earlier.value, row.messageId.value)
        && Goes(old(inbox), inbox, me, Answered(AnswerOf(earlier.value)))
      ensures stored || earlier.Some?
    {
      hide InboxInv, RulesInv;
      Interfere(me);
      if !Collides(inbox.rows, row) {
        Do(me, Insert);
        assert row in inbox.rows;
        return None, true;
      }
      ghost var refused := inbox;
      var rival: Row :| rival in inbox.rows && HasKey(rival, row.messageId.value);
      Do(me, Insert);
      // The look-up is a transaction of its own; rows are never deleted, so it finds the rival or
      // whatever else holds the key.
      Interfere(me);
      assert rival in inbox.rows;
      earlier := Recipient.FindAnswered(inbox.rows, row.messageId.value);
      Do(me, LookUpAgain);
      stored := false;
    }

    // A step that touches no table: parsing, validating, building a reply.
    method Think(me: nat, move: Move)
      requires CanStep(inbox, me, move) && (move.Parse? || move.Judge?)
      modifies this
      ensures LeadsOn(old(inbox), inbox)
      ensures Goes(old(inbox), inbox, me, Moved(old(inbox).rows, old(inbox).threads[me], move).1)
    {
      Do(me, move);
    }
  }

  lemma StepGrowsRows(inbox: Inbox<nat>, me: nat, move: Move)
    requires CanStep(inbox, me, move)
    ensures forall row :: row in inbox.rows ==> row in Step(inbox, me, move).rows
  {
  }

  class SubmissionHandler {
    const store: MessageStore

    constructor (store: MessageStore)
      ensures this.store == store
    {
      this.store := store;
    }

    // `_record`: store the outcome and answer with it, or repeat the earlier answer.
    method Record(me: nat, row: Row) returns (answer: HttpAnswer)
      requires me in store.inbox.threads && store.inbox.threads[me].stage == Build(row)
      modifies store
      ensures LeadsOn(old(store.inbox), store.inbox)
      ensures Goes(old(store.inbox), store.inbox, me, Answered(answer))
      ensures IsSendable(row.reply) ==> answer.reply.Some?
    {
      hide InboxInv, RulesInv;
      if !IsSendable(row.reply) {
        return SERVER_ERROR_ANSWER;
      }
      var earlier, stored := store.Add(me, row);
      if earlier.Some? {
        return AnswerOf(earlier.value);
      }
      return AnswerOf(row);
    }

    method Handle(me: nat, uuid: nat) returns (answer: HttpAnswer)
      requires me in store.inbox.threads && store.inbox.threads[me].stage == Arrived
      modifies store
      ensures LeadsOn(old(store.inbox), store.inbox)
      ensures Goes(old(store.inbox), store.inbox, me, Answered(answer))
      ensures InboxInv(old(store.inbox)) ==> IsHonest(store.inbox.rows, old(store.inbox).threads[me].doc, answer)
      // A document with a fault gets its early refusal, if there is anything to say about the fault.
      ensures
        var doc := old(store.inbox).threads[me].doc;
        InboxInv(old(store.inbox)) && !IsValid(doc) && SaysWhatIsWrong(doc) ==> IsEarlyAnswer(doc, answer)
      // A valid document whose id is answered already gets that answer.
      ensures
        var doc := old(store.inbox).threads[me].doc;
        InboxInv(old(store.inbox)) && IsValid(doc) ==>
          forall row :: row in old(store.inbox).rows && HasKey(row, doc.messageId.value) ==> answer == AnswerOf(row)
      // Otherwise its subject decides: 422 and a refusal for "[reject]", else 503 and no row for "[fail]", else 200 and
      // an acceptance; unless another thread had a document with the same id, and was first: then that one's does.
      ensures
        var was := old(store.inbox);
        InboxInv(was) && RulesInv(was) && IsValid(was.threads[me].doc) ==>
          || IsDecidedFor(store.inbox.rows, was.threads[me].doc, answer)
          || exists d ::
               && d in store.inbox.threads && d != me && answer.reply.Some?
               && store.inbox.threads[d].doc.Parsed?
               && store.inbox.threads[d].doc.messageId == was.threads[me].doc.messageId
               && IsDecidedFor(store.inbox.rows, store.inbox.threads[d].doc, answer)
    {
      hide InboxInv, RulesInv, RulesOn, IsStored, IsEarlyAnswer, IsDecidedFor;
      ghost var start := store.inbox;
      answer := HandleSteps(me, uuid);
      if InboxInv(start) {
        AnswersAreHonest(store.inbox, me, answer);
        if IsValid(start.threads[me].doc) {
          if RulesInv(start) {
            AnswersAreDecided(store.inbox, me, answer);
          }
          KnownAnswersAreRepeated(start.rows, store.inbox, start.threads[me].doc.messageId.value, answer);
        }
      }
    }

    method HandleSteps(me: nat, uuid: nat) returns (answer: HttpAnswer)
      requires me in store.inbox.threads && store.inbox.threads[me].stage == Arrived
      modifies store
      ensures LeadsOn(old(store.inbox), store.inbox)
      ensures Goes(old(store.inbox), store.inbox, me, Answered(answer))
      ensures
        var doc := old(store.inbox).threads[me].doc;
        && (IsValid(doc) ==> answer.reply.Some? || answer == OUTAGE_ANSWER)
        && (!IsValid(doc) && SaysWhatIsWrong(doc) ==> answer.reply.Some?)
      // What is answered already is looked up before the rules.
      ensures
        var doc := old(store.inbox).threads[me].doc;
        IsValid(doc) && (exists row :: row in old(store.inbox).rows && HasKey(row, doc.messageId.value)) ==>
          answer.reply.Some?
    {
      hide InboxInv, RulesInv, IsSendable, RulesOn;
      var doc := store.inbox.threads[me].doc;
      store.Think(me, Parse(uuid));
      var early := EarlyRow(doc, uuid);
      EarlyRepliesAreSendable(doc, uuid);
      if early.Some? {
        answer := Record(me, early.value);
        return;
      }
      var id: Ulid, subject := doc.messageId.value, doc.subject.value;
      var earlier := store.FindAnswered(me, id, subject);
      if earlier.Some? {
        return AnswerOf(earlier.value);
      }
      store.Think(me, Judge(uuid));
      OwnRepliesAreSendable(uuid, id);
      match RulesOn(subject)
      case Refuse =>
        answer := Record(me, Row(Some(id), Some(RecipientRejected), 422,
                                 RejectedReply(uuid, Some(id), RecipientRejected, REFUSED_TEXT)));
      case Outage =>
        return OUTAGE_ANSWER;
      case Accept =>
        answer := Record(me, Row(Some(id), None, 200, AcceptedReply(uuid, Some(id))));
    }
  }

  lemma KnownAnswersAreRepeated(rows: seq<Row>, inbox: Inbox<nat>, id: string, answer: HttpAnswer)
    requires InboxInv(inbox) && forall row :: row in rows ==> row in inbox.rows
    requires (exists row :: row in rows && HasKey(row, id)) ==> IsStored(inbox.rows, id, answer)
    ensures forall row :: row in rows && HasKey(row, id) ==> answer == AnswerOf(row)
  {
    hide AnswerOf;
    forall row | row in rows && HasKey(row, id) ensures answer == AnswerOf(row) {
      assert IsStored(inbox.rows, id, AnswerOf(row));
      hide IsStored, UniqueKeys;
      OneStoredAnswer(inbox.rows, id, answer, AnswerOf(row));
    }
  }

  // The first finding of a schema-invalid document has a line or a message.
  predicate SaysWhatIsWrong(doc: Document) {
    doc.Parsed? && doc.findings != [] ==> doc.findings[0].line != 0 || doc.findings[0].message != ""
  }

  lemma EarlyRepliesAreSendable(doc: Document, uuid: nat)
    ensures !IsValid(doc) && SaysWhatIsWrong(doc) ==> IsSendable(EarlyRow(doc, uuid).value.reply)
  {
  }

  lemma OwnRepliesAreSendable(uuid: nat, id: Ulid)
    ensures IsSendable(AcceptedReply(uuid, Some(id)))
    ensures IsSendable(RejectedReply(uuid, Some(id), RecipientRejected, REFUSED_TEXT))
  {
  }

  lemma AnswersAreHonest(inbox: Inbox<nat>, me: nat, answer: HttpAnswer)
    requires InboxInv(inbox) && me in inbox.threads && inbox.threads[me].stage == Answered(answer)
    ensures IsHonest(inbox.rows, inbox.threads[me].doc, answer)
  {
    assert ThreadOk(inbox.rows, inbox.threads[me]);
  }
}
