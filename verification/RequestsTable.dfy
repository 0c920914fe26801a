/** The requests table and its stream, with the conditional writes of its three repositories:
    dynamodb-request-repository.ts, dynamodb-delivery-repository.ts, dynamodb-decision-repository.ts.
    Every write of an item also appends its new image to the table's stream. */
module RequestsTable {
  import opened Basics
  import opened RequestStatus
  import opened Utf16

  // What the requester wrote, and the requester's own e-mail. Never changed after creation.
  datatype Content = Content(senderEmail: JsString, subject: JsString, body: JsString)

  datatype Decision = Approved | Declined

  datatype StoredDecision = StoredDecision(decision: Decision, eventId: string, atMs: int)

  // `retryCount` is absent until the owner has sent the request again.
  datatype Item = Item(content: Content, status: Status, retryCount: Option<nat>, decision: Option<StoredDecision>) {
    function Retries(): nat { retryCount.GetOr(0) }
  }

  datatype ChangeKind = Insert | Modify

  // One stream record: the kind of change and the part of the new image that the enqueuer looks at.
  datatype Change = Change(kind: ChangeKind, id: Ulid, status: Status, retryCount: Option<nat>) {
    function Retries(): nat { retryCount.GetOr(0) }
  }

  datatype Table = Table(items: map<Ulid, Item>, changes: seq<Change>)

  const EMPTY_TABLE := Table(map[], [])

  function Write(t: Table, kind: ChangeKind, id: Ulid, item: Item): Table {
    Table(t.items[id := item], t.changes + [Change(kind, id, item.status, item.retryCount)])
  }

  // --- dynamodb-request-repository.ts ---------------------------------------------------------

  function CreateItem(t: Table, id: Ulid, content: Content): (Table, bool) {
    if id in t.items then (t, false)
    else (Write(t, Insert, id, Item(content, Created, None, None)), true)
  }

  datatype RetryOutcome = Restarted(retryCount: nat) | NotFound | NotFailed(status: Status)

  function RetryItem(t: Table, id: Ulid): (Table, RetryOutcome) {
    if id !in t.items then (t, NotFound)
    else
      var item := t.items[id];
      if MayMove(item.status, Created) then
        var count := item.Retries() + 1;
        (Write(t, Modify, id, item.(status := Created, retryCount := Some(count))), Restarted(count))
      else (t, NotFailed(item.status))
  }

  // --- dynamodb-delivery-repository.ts --------------------------------------------------------

  function MoveItem(t: Table, to: Status, id: Ulid): (Table, bool) {
    if id in t.items && MayMove(t.items[id].status, to) then
      (Write(t, Modify, id, t.items[id].(status := to)), true)
    else (t, false)
  }

  // --- dynamodb-decision-repository.ts --------------------------------------------------------

  datatype RecordOutcome = Applied | Duplicate | Ignored | UnknownRequest

  // No decision yet, or the stored one is strictly older and belongs to another event.
  predicate Replaces(stored: Option<StoredDecision>, event: StoredDecision) {
    stored.None? || (stored.value.atMs < event.atMs && stored.value.eventId != event.eventId)
  }

  function RecordDecisionOn(t: Table, id: Ulid, event: StoredDecision): (Table, RecordOutcome) {
    if id !in t.items then (t, UnknownRequest)
    else
      var item := t.items[id];
      if Replaces(item.decision, event) then (Write(t, Modify, id, item.(decision := Some(event))), Applied)
      else if item.decision.value.eventId == event.eventId then (t, Duplicate)
      else (t, Ignored)
  }

  // --- The enqueuer's view of the stream (handlers/enqueuer.ts) --------------------------------

  // A new request, or one that the owner has sent again.
  predicate IsForTheQueue(change: Change) {
    match change.kind
    case Insert => true
    case Modify => change.status == Created && change.retryCount.Some?
  }

  // Of all writes, a creation and the owner's retry are for the queue, and no status write of a worker or the enqueuer
  // is. A decision on a request that was just sent again looks like the retry and goes there too: its message is a
  // duplicate.
  lemma WhatIsForTheQueue(t: Table, id: Ulid, content: Content, to: Status, event: StoredDecision)
    ensures CreateItem(t, id, content).1 ==> IsForTheQueue(LastChange(CreateItem(t, id, content).0))
    ensures RetryItem(t, id).1.Restarted? ==> IsForTheQueue(LastChange(RetryItem(t, id).0))
    ensures MoveItem(t, to, id).1 && to != Created ==> !IsForTheQueue(LastChange(MoveItem(t, to, id).0))
    ensures RecordDecisionOn(t, id, event).1 == Applied ==>
      IsForTheQueue(LastChange(RecordDecisionOn(t, id, event).0))
        == (t.items[id].status == Created && t.items[id].retryCount.Some?)
  {
  }

  function LastChange(t: Table): Change {
    if t.changes == [] then Change(Insert, "00000000000000000000000000", Created, None) else t.changes[|t.changes| - 1]
  }

  // Status writes and decision writes of one item touch different attributes, so their order
  // does not matter: neither to the item nor to what each of them answers.
  lemma StatusAndDecisionCommute(t: Table, id: Ulid, to: Status, event: StoredDecision)
    ensures
      var (moved, appliedFirst) := MoveItem(t, to, id);
      var (movedThenDecided, outcomeSecond) := RecordDecisionOn(moved, id, event);
      var (decided, outcomeFirst) := RecordDecisionOn(t, id, event);
      var (decidedThenMoved, appliedSecond) := MoveItem(decided, to, id);
      movedThenDecided.items == decidedThenMoved.items && appliedFirst == appliedSecond && outcomeFirst == outcomeSecond
  {
    if id in t.items {
      var item := t.items[id];
      assert item.(status := to).(decision := Some(event)) == item.(decision := Some(event)).(status := to);
    }
  }

  // This very event is the stored one.
  predicate HoldsEvent(item: Item, eventId: string) {
    item.decision.Some? && item.decision.value.eventId == eventId
  }

  // There is no decision, or one of another event with an earlier time.
  predicate IsOlder(item: Item, eventId: string, atMs: int) {
    item.decision.Some? ==> item.decision.value.eventId != eventId && item.decision.value.atMs < atMs
  }

  // The one difference between the two is the decision of `id`.
  predicate DecisionIs(
    before: map<Ulid, Item>, after: map<Ulid, Item>, id: Ulid, decision: Decision, eventId: string, atMs: int)
  {
    && id in before && id in after && OthersStay(before, after, id)
    && after[id].content == before[id].content && after[id].status == before[id].status
    && after[id].retryCount == before[id].retryCount
    && after[id].decision.Some? && after[id].decision.value.decision == decision
    && after[id].decision.value.eventId == eventId && after[id].decision.value.atMs == atMs
  }

  // A write touches one item.
  predicate OthersStay(before: map<Ulid, Item>, after: map<Ulid, Item>, id: Ulid) {
    before - {id} == after - {id}
  }

  /** The table as an object: one atomic conditional write per call. */
  class DynamoTable {
    var items: map<Ulid, Item>
    var changes: seq<Change>

    function Contents(): Table
      reads this
    {
      Table(items, changes)
    }

    constructor ()
      ensures Contents() == EMPTY_TABLE
    {
      items, changes := map[], [];
    }

    // PutItem and UpdateItem: the write and its stream record are one step.
    method Put(kind: ChangeKind, id: Ulid, item: Item)
      modifies this
      ensures Contents() == Write(old(Contents()), kind, id, item)
    {
      items := items[id := item];
      changes := changes + [Change(kind, id, item.status, item.retryCount)];
    }

    method Create(id: Ulid, content: Content) returns (created: bool)
      modifies this
      ensures (Contents(), created) == CreateItem(old(Contents()), id, content)
      ensures created <==> id !in old(items)
      ensures created ==>
        && id in items && OthersStay(old(items), items, id)
        && items[id].content == content && items[id].status == Created
        && items[id].retryCount == None && items[id].decision == None
        && changes == old(changes) + [Change(Insert, id, Created, None)]
      ensures !created ==> items == old(items) && changes == old(changes)
    {
      if id in items {
        return false;
      }
      Put(Insert, id, Item(content, Created, None, None));
      return true;
    }

    method Retry(id: Ulid) returns (outcome: RetryOutcome)
      modifies this
      ensures (Contents(), outcome) == RetryItem(old(Contents()), id)
      ensures outcome.NotFound? <==> id !in old(items)
      ensures outcome.NotFailed? <==> id in old(items) && old(items)[id].status != Failed
      ensures outcome.NotFailed? ==> outcome.status == old(items)[id].status
      ensures outcome.Restarted? ==>
        var was := old(items)[id];
        && outcome.retryCount == was.retryCount.GetOr(0) + 1
        && id in items && OthersStay(old(items), items, id)
        && items[id].content == was.content && items[id].decision == was.decision
        && items[id].status == Created && items[id].retryCount == Some(outcome.retryCount)
        && changes == old(changes) + [Change(Modify, id, Created, Some(outcome.retryCount))]
      ensures !outcome.Restarted? ==> items == old(items) && changes == old(changes)
    {
      if id !in items {
        return NotFound;
      }
      var item := items[id];
      if item.status !in AllowedPreviousStatuses(Created) {
        return NotFailed(item.status);
      }
      var retryCount := (if item.retryCount.Some? then item.retryCount.value else 0) + 1;
      Put(Modify, id, item.(status := Created, retryCount := Some(retryCount)));
      return Restarted(retryCount);
    }

    method FindForDelivery(id: Ulid) returns (item: Option<Item>)
      ensures item == if id in items then Some(items[id]) else None
    {
      item := if id in items then Some(items[id]) else None;
    }

    method MoveTo(to: Status, id: Ulid) returns (applied: bool)
      modifies this
      ensures (Contents(), applied) == MoveItem(old(Contents()), to, id)
      // The three moves of a worker come from `created` or `queued`, the enqueuer's from `created`, the owner's from
      // `failed`.
      ensures id !in old(items) ==> !applied
      ensures id in old(items) ==>
        match old(items)[id].status
        case Created => applied <==> to in {Queued, Sent, Rejected, Failed}
        case Queued => applied <==> to in {Sent, Rejected, Failed}
        case Failed => applied <==> to == Created
        case Sent | Rejected => !applied
      ensures applied ==>
        var was := old(items)[id];
        && id in items && OthersStay(old(items), items, id) && items[id].status == to
        && items[id].content == was.content && items[id].retryCount == was.retryCount
        && items[id].decision == was.decision && changes == old(changes) + [Change(Modify, id, to, was.retryCount)]
      ensures !applied ==> items == old(items) && changes == old(changes)
    {
      if id !in items || items[id].status !in AllowedPreviousStatuses(to) {
        return false;
      }
      Put(Modify, id, items[id].(status := to));
      return true;
    }

    method RecordDecision(id: Ulid, event: StoredDecision) returns (outcome: RecordOutcome)
      modifies this
      ensures (Contents(), outcome) == RecordDecisionOn(old(Contents()), id, event)
      ensures outcome == UnknownRequest <==> id !in old(items)
      ensures outcome == Duplicate <==> id in old(items) && HoldsEvent(old(items)[id], event.eventId)
      ensures outcome == Applied <==> id in old(items) && IsOlder(old(items)[id], event.eventId, event.atMs)
      ensures outcome == Applied ==>
        && DecisionIs(old(items), items, id, event.decision, event.eventId, event.atMs)
        && changes == old(changes) + [Change(Modify, id, items[id].status, items[id].retryCount)]
      ensures outcome != Applied ==> items == old(items) && changes == old(changes)
    {
      if id !in items {
        return UnknownRequest;
      }
      var stored := items[id].decision;
      if stored.None? || (stored.value.atMs < event.atMs && stored.value.eventId != event.eventId) {
        Put(Modify, id, items[id].(decision := Some(event)));
        return Applied;
      }
      return if stored.value.eventId == event.eventId then Duplicate else Ignored;
    }
  }
}
