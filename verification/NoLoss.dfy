/** No request is ever lost: the outbox, the queue and the acknowledgements, over every run. */
module NoLoss {
  import opened Basics
  import opened RequestStatus
  import opened RequestsTable
  import opened DeliveryMessage
  import opened Protocol

  predicate IsSeen(seen: set<string>, id: Ulid, r: nat) {
    DeduplicationId(id, r) in seen
  }

  predicate IsKnown(table: Table, id: Ulid, r: nat) {
    id in table.items && r <= table.items[id].Retries()
  }

  // The send number `r` needs no message any more: the request is finished, or a later send runs.
  predicate IsDone(table: Table, id: Ulid, r: nat) {
    id in table.items && (IsTerminal(table.items[id].status) || r < table.items[id].Retries())
  }

  predicate IsFor(message: Message, id: Ulid, r: nat) {
    message.id == id && message.retry == r
  }

  // Waiting (which includes: handed out, still invisible) or dead-lettered.
  ghost predicate HasLiveMessage(messages: map<nat, Message>, id: Ulid, r: nat) {
    exists m :: m in messages && IsFor(messages[m], id, r) && !messages[m].place.Deleted?
  }

  predicate IsRecordOf(change: Change, id: Ulid, r: nat) {
    change.id == id && change.Retries() == r && IsForTheQueue(change)
  }

  ghost predicate HasRecord(table: Table, id: Ulid, r: nat) {
    exists q :: 0 <= q < |table.changes| && IsRecordOf(table.changes[q], id, r)
  }

  // A stream record of this send that Lambda still has to get through the enqueuer.
  ghost predicate HasPendingRecord(s: State, id: Ulid, r: nat) {
    exists q: nat :: IsPending(s, q) && IsRecordOf(s.table.changes[q], id, r)
  }

  // --- What no write of the table takes back ----------------------------------------------------

  predicate ItemGrows(a: Item, b: Item) {
    && a.content == b.content
    && a.Retries() <= b.Retries()
    && (IsTerminal(a.status) ==> IsTerminal(b.status) || a.Retries() < b.Retries())
    && (a.status in {Sent, Rejected} ==> b.status == a.status)
  }

  ghost predicate TableGrows(t: Table, u: Table) {
    && t.changes <= u.changes
    && forall id :: id in t.items ==> id in u.items && ItemGrows(t.items[id], u.items[id])
  }

  lemma ApiGrows(table: Table, e: ApiStep)
    requires ApiEnabled(table, e)
    ensures TableGrows(table, ApiNext(table, e))
  {
  }

  lemma MoveGrows(table: Table, to: Status, id: Ulid)
    requires to != Created
    ensures TableGrows(table, MoveItem(table, to, id).0)
  {
  }

  // --- The stream: every send has its record -------------------------------------------------------

  ghost predicate RecordsInv(table: Table) {
    && (forall q :: 0 <= q < |table.changes| ==> IsKnown(table, table.changes[q].id, table.changes[q].Retries()))
    && (forall id :: id in table.items ==> HasRecord(table, id, table.items[id].Retries()))
  }

  lemma RecordsStay(t: Table, u: Table, id: Ulid, r: nat)
    requires HasRecord(t, id, r) && t.changes <= u.changes
    ensures HasRecord(u, id, r)
  {
    var q :| 0 <= q < |t.changes| && IsRecordOf(t.changes[q], id, r);
    assert u.changes[q] == t.changes[q];
  }

  // A write of one item keeps the records complete if the item's count stays, or if its own
  // stream record is one for the queue.
  lemma WriteKeepsRecords(t: Table, kind: ChangeKind, id: Ulid, item: Item)
    requires RecordsInv(t)
    requires id in t.items ==> t.items[id].Retries() <= item.Retries()
    requires
      || (id in t.items && t.items[id].Retries() == item.Retries())
      || IsForTheQueue(Change(kind, id, item.status, item.retryCount))
    ensures RecordsInv(Write(t, kind, id, item))
  {
    var u := Write(t, kind, id, item);
    var last := |t.changes|;
    assert u.changes[last] == Change(kind, id, item.status, item.retryCount);
    forall other | other in u.items ensures HasRecord(u, other, u.items[other].Retries()) {
      if other in t.items && t.items[other].Retries() == u.items[other].Retries() {
        RecordsStay(t, u, other, t.items[other].Retries());
      } else {
        assert IsRecordOf(u.changes[last], id, item.Retries());
      }
    }
  }

  lemma ApiKeepsRecords(table: Table, e: ApiStep)
    requires ApiEnabled(table, e) && RecordsInv(table)
    ensures RecordsInv(ApiNext(table, e))
  {
    match e
    case Create(id, content) =>
      WriteKeepsRecords(table, Insert, id, Item(content, Created, None, None));
    case RetryByOwner(id) =>
      var item := table.items[id];
      WriteKeepsRecords(table, Modify, id, item.(status := Created, retryCount := Some(item.Retries() + 1)));
    case Decide(id, event) =>
      if Replaces(table.items[id].decision, event) {
        WriteKeepsRecords(table, Modify, id, table.items[id].(decision := Some(event)));
      }
  }

  lemma MoveKeepsRecords(table: Table, to: Status, id: Ulid)
    requires RecordsInv(table)
    ensures RecordsInv(MoveItem(table, to, id).0)
  {
    if MoveItem(table, to, id).1 {
      WriteKeepsRecords(table, Modify, id, table.items[id].(status := to));
    }
  }

  // --- The enqueuer: nothing is acknowledged before the queue has accepted it ------------------------

  predicate IsSeenRecord(table: Table, seen: set<string>, q: nat) {
    q < |table.changes| && IsSeen(seen, table.changes[q].id, table.changes[q].Retries())
  }

  ghost predicate EnqueuerInv(table: Table, seen: set<string>, acked: set<nat>, enqueuers: map<nat, Enqueuer>) {
    && (forall k :: k in enqueuers ==>
          && enqueuers[k].record < |table.changes|
          && (enqueuers[k].stage != Picked ==> IsSeenRecord(table, seen, enqueuers[k].record)))
    && (forall q :: q in acked ==> IsSeenRecord(table, seen, q))
  }

  lemma EnqueuerInvGrows(t: Table, u: Table, seen: set<string>, acked: set<nat>, enqueuers: map<nat, Enqueuer>)
    requires EnqueuerInv(t, seen, acked, enqueuers) && t.changes <= u.changes
    ensures EnqueuerInv(u, seen, acked, enqueuers)
  {
  }

  lemma EnqueueKeepsEnqueuerInv(s: State, k: nat, e: EnqueueStep)
    requires EnqueueEnabled(s, k, e) && EnqueuerInv(s.table, s.seen, s.acked, s.enqueuers)
    ensures
      var t := EnqueueNext(s, k, e);
      EnqueuerInv(t.table, t.seen, t.acked, t.enqueuers)
  {
  }

  // --- The queue: an accepted send has a message until it is done ---------------------------------------

  ghost predicate SeenInv(table: Table, seen: set<string>, messages: map<nat, Message>) {
    && (forall id: Ulid, r: nat :: IsSeen(seen, id, r) ==> IsKnown(table, id, r))
    && (forall id: Ulid, r: nat :: IsSeen(seen, id, r) ==> HasLiveMessage(messages, id, r) || IsDone(table, id, r))
  }

  // Messages keep what they are for, and one that is deleted was done.
  ghost predicate MessagesGrow(table: Table, messages: map<nat, Message>, later: map<nat, Message>) {
    forall m :: m in messages ==>
      && m in later
      && IsFor(later[m], messages[m].id, messages[m].retry)
      && (later[m].place.Deleted? ==> messages[m].place.Deleted? || IsDone(table, messages[m].id, messages[m].retry))
  }

  lemma SeenInvGrows(t: Table, u: Table, seen: set<string>, messages: map<nat, Message>, later: map<nat, Message>)
    requires SeenInv(t, seen, messages) && TableGrows(t, u) && MessagesGrow(t, messages, later)
    ensures SeenInv(u, seen, later)
  {
    forall id: Ulid, r: nat | IsSeen(seen, id, r)
      ensures IsKnown(u, id, r) && (HasLiveMessage(later, id, r) || IsDone(u, id, r))
    {
      if HasLiveMessage(messages, id, r) {
        var m :| m in messages && IsFor(messages[m], id, r) && !messages[m].place.Deleted?;
        assert m in later && IsFor(later[m], id, r);
      }
    }
  }

  lemma SendKeepsSeenInv(s: State, k: nat, m: nat)
    requires EnqueueEnabled(s, k, SendAccepted(m)) && SeenInv(s.table, s.seen, s.messages)
    requires IsKnown(s.table, RecordOf(s, k).id, RecordOf(s, k).Retries())
    ensures
      var t := EnqueueNext(s, k, SendAccepted(m));
      SeenInv(t.table, t.seen, t.messages)
  {
    var t := EnqueueNext(s, k, SendAccepted(m));
    var change := RecordOf(s, k);
    forall id: Ulid, r: nat | IsSeen(t.seen, id, r)
      ensures IsKnown(t.table, id, r) && (HasLiveMessage(t.messages, id, r) || IsDone(t.table, id, r))
    {
      if IsSeen(s.seen, id, r) {
        if HasLiveMessage(s.messages, id, r) {
          var old' :| old' in s.messages && IsFor(s.messages[old'], id, r) && !s.messages[old'].place.Deleted?;
          assert t.messages[old'] == s.messages[old'];
        }
      } else {
        UlidHasNoHyphen(id);
        UlidHasNoHyphen(change.id);
        DeduplicationIdInjective(id, r, change.id, change.Retries());
        assert IsFor(t.messages[m], id, r);
      }
    }
  }

  // --- The attempts: an acknowledgement means that the send is done --------------------------------------

  predicate ClaimsDone(pc: Pc) {
    pc.ToPublish? || (pc.Finished? && pc.result in ACKNOWLEDGED)
  }

  predicate AttemptOk(table: Table, messages: map<nat, Message>, attempt: Attempt) {
    && attempt.message in messages
    && messages[attempt.message].id == attempt.id
    && (ClaimsDone(attempt.pc) ==> IsDone(table, attempt.id, messages[attempt.message].retry))
  }

  ghost predicate AttemptInv(table: Table, messages: map<nat, Message>, attempts: map<nat, Attempt>) {
    && (forall m :: m in messages ==> IsKnown(table, messages[m].id, messages[m].retry))
    && (forall n :: n in attempts ==> AttemptOk(table, messages, attempts[n]))
  }

  lemma AttemptInvGrows(
    t: Table, u: Table, messages: map<nat, Message>, later: map<nat, Message>, attempts: map<nat, Attempt>)
    requires AttemptInv(t, messages, attempts) && TableGrows(t, u) && MessagesGrow(t, messages, later)
    requires forall m :: m in later && m !in messages ==> IsKnown(t, later[m].id, later[m].retry)
    ensures AttemptInv(u, later, attempts)
  {
  }

  // The program counter claims that the send is done only when it is.
  lemma ClaimsAreTrue(cfg: Config, s: State, n: nat, e: WorkStep)
    requires WorkEnabled(s, n, e) && AttemptInv(s.table, s.messages, s.attempts)
    ensures ClaimsDone(PcAfter(cfg, s, n, e)) ==>
              IsDone(TableAfter(s, n, e), s.attempts[n].id, s.messages[s.attempts[n].message].retry)
  {
    hide Heard, KindOf;
    var attempt := s.attempts[n];
    assert AttemptOk(s.table, s.messages, attempt);
    assert IsKnown(s.table, attempt.id, s.messages[attempt.message].retry);
    if e.Mark? {
      assert AllowedPreviousStatuses(attempt.pc.wanted) == DELIVERABLE_STATUSES;
      var status := s.table.items[attempt.id].status;
      assert status.Created? || status.Queued? || IsTerminal(status);
      assert Applies(s, n, e) <==> MayMove(status, attempt.pc.wanted);
    }
  }

  lemma DeletedIsDone(s: State, n: nat, e: WorkStep)
    requires WorkEnabled(s, n, e) && AttemptInv(s.table, s.messages, s.attempts)
    ensures MessagesGrow(s.table, s.messages, MessagesAfter(s, n, e))
    ensures MessagesAfter(s, n, e).Keys == s.messages.Keys
  {
    assert AttemptOk(s.table, s.messages, s.attempts[n]);
  }

  lemma WorkGrowsTable(s: State, n: nat, e: WorkStep)
    requires WorkEnabled(s, n, e)
    ensures TableGrows(s.table, TableAfter(s, n, e))
  {
    if e.Mark? {
      MoveGrows(s.table, s.attempts[n].pc.wanted, s.attempts[n].id);
    }
  }

  lemma WorkKeepsAttemptInv(cfg: Config, s: State, n: nat, e: WorkStep)
    requires WorkEnabled(s, n, e) && AttemptInv(s.table, s.messages, s.attempts)
    ensures AttemptInv(TableAfter(s, n, e), MessagesAfter(s, n, e), WorkNext(cfg, s, n, e).attempts)
  {
    hide PcAfter, MessagesAfter, TableAfter;
    ClaimsAreTrue(cfg, s, n, e);
    DeletedIsDone(s, n, e);
    WorkGrowsTable(s, n, e);
    AttemptInvGrows(s.table, TableAfter(s, n, e), s.messages, MessagesAfter(s, n, e), s.attempts);
  }

  lemma MessagesStay(table: Table, messages: map<nat, Message>)
    ensures MessagesGrow(table, messages, messages)
  {
  }

  // --- All of it, over every run ---------------------------------------------------------------------------

  ghost predicate Inv(s: State) {
    && RecordsInv(s.table)
    && EnqueuerInv(s.table, s.seen, s.acked, s.enqueuers)
    && SeenInv(s.table, s.seen, s.messages)
    && AttemptInv(s.table, s.messages, s.attempts)
  }

  lemma ApiKeepsInv(s: State, e: ApiStep)
    requires ApiEnabled(s.table, e) && Inv(s)
    ensures Inv(s.(table := ApiNext(s.table, e)))
  {
    var u := ApiNext(s.table, e);
    ApiGrows(s.table, e);
    ApiKeepsRecords(s.table, e);
    MessagesStay(s.table, s.messages);
    EnqueuerInvGrows(s.table, u, s.seen, s.acked, s.enqueuers);
    SeenInvGrows(s.table, u, s.seen, s.messages, s.messages);
    AttemptInvGrows(s.table, u, s.messages, s.messages, s.attempts);
  }

  lemma SendKeepsInv(s: State, k: nat, m: nat)
    requires EnqueueEnabled(s, k, SendAccepted(m)) && Inv(s)
    ensures Inv(EnqueueNext(s, k, SendAccepted(m)))
  {
    var t := EnqueueNext(s, k, SendAccepted(m));
    assert IsKnown(s.table, RecordOf(s, k).id, RecordOf(s, k).Retries());
    hide SeenInv, AttemptInv, RecordsInv, EnqueuerInv, IsKnown;
    EnqueueKeepsEnqueuerInv(s, k, SendAccepted(m));
    MessagesStay(s.table, s.messages);
    assert MessagesGrow(s.table, s.messages, t.messages);
    hide MessagesGrow;
    TableIsItself(s.table);
    SendKeepsSeenInv(s, k, m);
    AttemptInvGrows(s.table, s.table, s.messages, t.messages, s.attempts);
  }

  lemma MarkQueuedKeepsInv(s: State, k: nat)
    requires EnqueueEnabled(s, k, MarkQueued) && Inv(s)
    ensures Inv(EnqueueNext(s, k, MarkQueued))
  {
    hide MoveItem, MessagesGrow, SeenInv, AttemptInv, RecordsInv, EnqueuerInv, TableGrows;
    var t, id := EnqueueNext(s, k, MarkQueued), RecordOf(s, k).id;
    EnqueueKeepsEnqueuerInv(s, k, MarkQueued);
    MessagesStay(s.table, s.messages);
    MoveGrows(s.table, Queued, id);
    MoveKeepsRecords(s.table, Queued, id);
    SeenInvGrows(s.table, t.table, s.seen, s.messages, s.messages);
    AttemptInvGrows(s.table, t.table, s.messages, s.messages, s.attempts);
  }

  lemma EnqueueKeepsInv(s: State, k: nat, e: EnqueueStep)
    requires EnqueueEnabled(s, k, e) && Inv(s)
    ensures Inv(EnqueueNext(s, k, e))
  {
    match e
    case SendAccepted(m) =>
      hide EnqueueNext, EnqueueEnabled, Inv;
      SendKeepsInv(s, k, m);
    case MarkQueued =>
      hide EnqueueNext, EnqueueEnabled, Inv;
      MarkQueuedKeepsInv(s, k);
    case _ =>
      hide MoveItem, SeenInv, AttemptInv, RecordsInv, EnqueuerInv, EnqueueEnabled;
      EnqueueKeepsEnqueuerInv(s, k, e);
  }

  lemma QueueGrowsMessages(cfg: Config, s: State, e: QueueStep)
    requires QueueEnabled(cfg, s, e)
    ensures var t := QueueNext(cfg, s, e);
      && MessagesGrow(s.table, s.messages, t.messages) && t.messages.Keys == s.messages.Keys
      && t.table == s.table && t.seen == s.seen && t.acked == s.acked && t.enqueuers == s.enqueuers
  {
    hide IsDone;
  }

  lemma QueueAttempts(cfg: Config, s: State, e: QueueStep)
    requires QueueEnabled(cfg, s, e) && AttemptInv(s.table, s.messages, s.attempts)
    requires AttemptInv(s.table, QueueNext(cfg, s, e).messages, s.attempts)
    ensures AttemptInv(s.table, QueueNext(cfg, s, e).messages, QueueNext(cfg, s, e).attempts)
  {
    hide IsKnown, IsDone;
  }

  lemma QueueKeepsInv(cfg: Config, s: State, e: QueueStep)
    requires QueueEnabled(cfg, s, e) && Inv(s)
    ensures Inv(QueueNext(cfg, s, e))
  {
    hide QueueNext, QueueEnabled, MessagesGrow, AttemptInv, SeenInv, RecordsInv, EnqueuerInv;
    var t := QueueNext(cfg, s, e);
    QueueGrowsMessages(cfg, s, e);
    TableIsItself(s.table);
    SeenInvGrows(s.table, s.table, s.seen, s.messages, t.messages);
    AttemptInvGrows(s.table, s.table, s.messages, t.messages, s.attempts);
    QueueAttempts(cfg, s, e);
  }

  lemma TableIsItself(table: Table)
    ensures TableGrows(table, table)
  {
  }

  lemma WorkKeepsInv(cfg: Config, s: State, n: nat, e: WorkStep)
    requires WorkEnabled(s, n, e) && Inv(s)
    ensures Inv(WorkNext(cfg, s, n, e))
  {
    hide PcAfter, AttemptInv, SeenInv, RecordsInv, EnqueuerInv;
    var t := WorkNext(cfg, s, n, e);
    assert t.table == TableAfter(s, n, e) && t.messages == MessagesAfter(s, n, e);
    WorkGrowsTable(s, n, e);
    DeletedIsDone(s, n, e);
    WorkKeepsAttemptInv(cfg, s, n, e);
    EnqueuerInvGrows(s.table, t.table, s.seen, s.acked, s.enqueuers);
    SeenInvGrows(s.table, t.table, s.seen, s.messages, t.messages);
    if e.Mark? {
      MoveKeepsRecords(s.table, s.attempts[n].pc.wanted, s.attempts[n].id);
    }
  }

  lemma RecipientKeepsInv(s: State, e: RecipientStep)
    requires RecipientEnabled(s, e) && Inv(s)
    ensures Inv(s.(inbox := RecipientNext(s, e)))
  {
  }

  lemma StepKeepsInv(cfg: Config, s: State, e: Step)
    requires Enabled(cfg, s, e) && Inv(s)
    ensures Inv(Next(cfg, s, e))
  {
    hide Inv, ApiNext, EnqueueNext, QueueNext, WorkNext, RecipientNext;
    match e
    case Api(api) => ApiKeepsInv(s, api);
    case Enqueue(k, enqueue) => EnqueueKeepsInv(s, k, enqueue);
    case Queue(queue) => QueueKeepsInv(cfg, s, queue);
    case Work(n, work) => WorkKeepsInv(cfg, s, n, work);
    case AtRecipient(recipient) => RecipientKeepsInv(s, recipient);
  }

  lemma InitialInv()
    ensures Inv(INITIAL)
  {
  }

  lemma {:induction false} InvAlong(cfg: Config, run: seq<State>, i: nat)
    requires IsRunFromTheStart(cfg, run) && i < |run|
    ensures Inv(run[i])
  {
    hide Inv, Enabled, Next, Follows;
    if i == 0 {
      InitialInv();
    } else {
      InvAlong(cfg, run, i - 1);
      var e := StepTaken(cfg, run, i);
      StepKeepsInv(cfg, run[i - 1], e);
    }
  }

  // In every state of every run, a request that still has to be delivered has its current send
  // somewhere: in a stream record that is not done with, or in a message that is waiting, handed
  // out or dead-lettered. Crashes, replayed records, dropped duplicates and overlapping attempts
  // do not change that.
  lemma NoRequestIsLost(cfg: Config, run: seq<State>, i: nat, id: Ulid)
    requires IsRunFromTheStart(cfg, run) && i < |run|
    requires id in run[i].table.items && run[i].table.items[id].status in DELIVERABLE_STATUSES
    ensures
      var r := run[i].table.items[id].Retries();
      HasPendingRecord(run[i], id, r) || HasLiveMessage(run[i].messages, id, r)
  {
    InvAlong(cfg, run, i);
    var s := run[i];
    var r := s.table.items[id].Retries();
    assert !IsTerminal(s.table.items[id].status);
    if !IsSeen(s.seen, id, r) {
      var q :| 0 <= q < |s.table.changes| && IsRecordOf(s.table.changes[q], id, r);
      assert IsPending(s, q);
    }
  }
}
