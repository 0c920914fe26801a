/** What every run leaves behind: the record precedes the status, failures and retries are
    counted exactly, and nothing is announced that did not happen. */
module Histories {
  import opened Basics
  import opened RequestStatus
  import opened RequestsTable
  import opened Protocol
  import opened NoLoss

  // The outcome in the record and the status tell the same story.
  predicate Matches(outcome: ExchangeOutcome, status: Status) {
    match status
    case Sent => outcome == ODelivered
    case Rejected => outcome in {ORefused, OInvalidRequest, OUnrepresentable}
    case Failed => outcome == ORetry
    case _ => false
  }

  // Attempt `n` put a record for this request that matches the status.
  predicate HasSaved(saves: map<nat, Saved>, n: nat, id: Ulid, status: Status) {
    n in saves && saves[n].id == id && Matches(saves[n].outcome, status)
  }

  // --- The attempts ---------------------------------------------------------------------------------

  predicate Trail(s: State, n: nat, attempt: Attempt) {
    && (n in s.saves ==> s.saves[n].id == attempt.id)
    && (n in s.notices ==> n in s.entries && s.notices[n] == s.entries[n])
    && (n in s.entries ==> s.entries[n].id == attempt.id)
    && (n in s.entries && s.entries[n].status in {Sent, Rejected} ==>
       HasSaved(s.saves, n, attempt.id, s.entries[n].status))
    && match attempt.pc
       case Received => n !in s.saves && n !in s.entries
       case Ready(_) => n !in s.saves && n !in s.entries
       case Calling => n !in s.saves && n !in s.entries
       case ToSave(outcome, target) =>
         n !in s.saves && n !in s.entries && (target.Some? ==> Matches(outcome, target.value))
       case ToMark(wanted) => n !in s.entries && (wanted != Failed ==> HasSaved(s.saves, n, attempt.id, wanted))
       case ToPublish(written) => n in s.entries && s.entries[n].status == written && n !in s.notices
       case Finished(result) =>
         result in {OutSent, OutRejected, OutFailed} ==> n in s.entries && OutcomeOf(s.entries[n].status) == result
       case Over => true
  }

  ghost predicate TrailInv(s: State) {
    && (forall n :: n in s.attempts ==> Trail(s, n, s.attempts[n]))
    && s.saves.Keys <= s.attempts.Keys
    && s.entries.Keys <= s.attempts.Keys
    && s.notices.Keys <= s.entries.Keys
    && (forall n :: n in s.saves ==> s.saves[n].id in s.exchanges)
    && (forall id :: id in s.exchanges ==> s.exchanges[id].id == id)
  }

  lemma OthersTrail(cfg: Config, s: State, n: nat, e: WorkStep, o: nat)
    requires WorkEnabled(s, n, e) && o in s.attempts && o != n && Trail(s, o, s.attempts[o])
    ensures Trail(WorkNext(cfg, s, n, e), o, s.attempts[o])
  {
    hide PcAfter, TableAfter, MessagesAfter, WireAfter, RecordBy, Matches;
    hide WorkEnabled, Applies;
  }

  lemma KeysStayInside(cfg: Config, s: State, n: nat, e: WorkStep)
    requires WorkEnabled(s, n, e) && TrailInv(s) && Trail(s, n, s.attempts[n])
    ensures var t := WorkNext(cfg, s, n, e);
      && t.attempts.Keys == s.attempts.Keys && t.saves.Keys <= t.attempts.Keys && t.entries.Keys <= t.attempts.Keys
      && t.notices.Keys <= t.entries.Keys
      && (forall n :: n in t.saves ==> t.saves[n].id in t.exchanges)
      && (forall id :: id in t.exchanges ==> t.exchanges[id].id == id)
  {
    hide PcAfter, TableAfter, MessagesAfter, WireAfter, Matches;
  }

  lemma WorkKeepsTrail(cfg: Config, s: State, n: nat, e: WorkStep)
    requires WorkEnabled(s, n, e) && TrailInv(s)
    ensures TrailInv(WorkNext(cfg, s, n, e))
  {
    var t := WorkNext(cfg, s, n, e);
    assert Trail(s, n, s.attempts[n]);
    assert forall o :: o in t.attempts && o != n ==> o in s.attempts && t.attempts[o] == s.attempts[o];
    hide Trail, WorkNext, WorkEnabled;
    OwnTrail(cfg, s, n, e);
    KeysStayInside(cfg, s, n, e);
    forall o | o in t.attempts ensures Trail(t, o, t.attempts[o]) {
      if o != n {
        OthersTrail(cfg, s, n, e, o);
      }
    }
  }

  // A step that puts a record, and one that writes the status, of an attempt with a sound trail.
  lemma SavingTrail(cfg: Config, s: State, n: nat, e: WorkStep)
    requires WorkEnabled(s, n, e) && Trail(s, n, s.attempts[n]) && (e.Save? || e.SaveFails?)
    ensures Trail(WorkNext(cfg, s, n, e), n, WorkNext(cfg, s, n, e).attempts[n])
  {
    hide Heard, KindOf, MoveItem, AfterRead, AfterAnswer, MessagesAfter, WireAfter;
  }

  lemma MarkingTrail(cfg: Config, s: State, n: nat, e: WorkStep)
    requires WorkEnabled(s, n, e) && Trail(s, n, s.attempts[n]) && (e.Mark? || e.Publish?)
    ensures Trail(WorkNext(cfg, s, n, e), n, WorkNext(cfg, s, n, e).attempts[n])
  {
    hide Heard, KindOf, MoveItem, AfterRead, AfterAnswer, MessagesAfter, WireAfter, Matches;
  }

  lemma ReadingTrail(cfg: Config, s: State, n: nat, e: WorkStep)
    requires WorkEnabled(s, n, e) && Trail(s, n, s.attempts[n]) && (e.Read? || e.Call? || e.Hear?)
    ensures Trail(WorkNext(cfg, s, n, e), n, WorkNext(cfg, s, n, e).attempts[n])
  {
    hide Heard, KindOf, MoveItem, MessagesAfter, WireAfter;
  }

  lemma EndingTrail(cfg: Config, s: State, n: nat, e: WorkStep)
    requires WorkEnabled(s, n, e) && Trail(s, n, s.attempts[n]) && (e.Return? || e.Throw? || e.Die?)
    ensures Trail(WorkNext(cfg, s, n, e), n, WorkNext(cfg, s, n, e).attempts[n])
  {
    hide Heard, KindOf, MoveItem, AfterRead, AfterAnswer, MessagesAfter, WireAfter, Matches;
  }

  lemma OwnTrail(cfg: Config, s: State, n: nat, e: WorkStep)
    requires WorkEnabled(s, n, e) && TrailInv(s)
    ensures Trail(WorkNext(cfg, s, n, e), n, WorkNext(cfg, s, n, e).attempts[n])
  {
    assert n in s.attempts && Trail(s, n, s.attempts[n]);
    hide WorkEnabled, WorkNext, Trail;
    match e
    case Save | SaveFails => SavingTrail(cfg, s, n, e);
    case Mark | Publish(_) => MarkingTrail(cfg, s, n, e);
    case Read | Call | Hear(_) => ReadingTrail(cfg, s, n, e);
    case Return | Throw | Die => EndingTrail(cfg, s, n, e);
  }

  // --- The counts -------------------------------------------------------------------------------------

  // The attempts that moved this request into this status.
  function Writers(entries: map<nat, Entry>, id: Ulid, status: TerminalStatus): set<nat> {
    set n | n in entries && entries[n] == Entry(id, status)
  }

  function One(b: bool): nat {
    if b then 1 else 0
  }

  ghost predicate IsCounted(entries: map<nat, Entry>, id: Ulid, item: Item) {
    && |Writers(entries, id, Failed)| == item.Retries() + One(item.status == Failed)
    && |Writers(entries, id, Sent)| == One(item.status == Sent)
    && |Writers(entries, id, Rejected)| == One(item.status == Rejected)
  }

  ghost predicate CountInv(table: Table, entries: map<nat, Entry>) {
    && (forall n :: n in entries ==> entries[n].id in table.items)
    && (forall id :: id in table.items ==> IsCounted(entries, id, table.items[id]))
  }

  lemma ApiKeepsCounts(table: Table, e: ApiStep, entries: map<nat, Entry>)
    requires ApiEnabled(table, e) && CountInv(table, entries)
    ensures CountInv(ApiNext(table, e), entries)
  {
    var later := ApiNext(table, e);
    ApiGrows(table, e);
    forall id | id in later.items ensures IsCounted(entries, id, later.items[id]) {
      if id in table.items {
        assert IsCounted(entries, id, table.items[id]);
      } else {
        assert Writers(entries, id, Failed) == {};
        assert Writers(entries, id, Sent) == {};
        assert Writers(entries, id, Rejected) == {};
      }
    }
  }

  lemma QueuedKeepsCounts(table: Table, id: Ulid, entries: map<nat, Entry>)
    requires CountInv(table, entries)
    ensures CountInv(MoveItem(table, Queued, id).0, entries)
  {
    if MoveItem(table, Queued, id).1 {
      assert IsCounted(entries, id, table.items[id]);
    }
  }

  lemma WriteAddsOne(entries: map<nat, Entry>, n: nat, id: Ulid, status: TerminalStatus, other: TerminalStatus)
    requires n !in entries
    ensures |Writers(entries[n := Entry(id, status)], id, other)| == |Writers(entries, id, other)|
      + One(status == other)
  {
    var later := entries[n := Entry(id, status)];
    if status == other {
      assert Writers(later, id, other) == Writers(entries, id, other) + {n};
    } else {
      assert Writers(later, id, other) == Writers(entries, id, other);
    }
  }

  lemma WriteLeavesOthers(
    entries: map<nat, Entry>, n: nat, id: Ulid, status: TerminalStatus, other: Ulid, counted: TerminalStatus)
    requires n !in entries && other != id
    ensures Writers(entries[n := Entry(id, status)], other, counted) == Writers(entries, other, counted)
  {
  }

  lemma OwnCount(entries: map<nat, Entry>, n: nat, id: Ulid, status: TerminalStatus, item: Item)
    requires n !in entries && IsCounted(entries, id, item) && item.status in DELIVERABLE_STATUSES
    ensures IsCounted(entries[n := Entry(id, status)], id, item.(status := status))
  {
    WriteAddsOne(entries, n, id, status, Failed);
    WriteAddsOne(entries, n, id, status, Sent);
    WriteAddsOne(entries, n, id, status, Rejected);
    hide Writers;
  }

  lemma OtherCount(entries: map<nat, Entry>, n: nat, id: Ulid, status: TerminalStatus, other: Ulid, item: Item)
    requires n !in entries && other != id && IsCounted(entries, other, item)
    ensures IsCounted(entries[n := Entry(id, status)], other, item)
  {
    WriteLeavesOthers(entries, n, id, status, other, Failed);
    WriteLeavesOthers(entries, n, id, status, other, Sent);
    WriteLeavesOthers(entries, n, id, status, other, Rejected);
    hide Writers;
  }

  lemma MarkKeepsCounts(table: Table, entries: map<nat, Entry>, n: nat, id: Ulid, status: TerminalStatus)
    requires CountInv(table, entries) && n !in entries && MoveItem(table, status, id).1
    ensures CountInv(MoveItem(table, status, id).0, entries[n := Entry(id, status)])
  {
    hide Writers, IsCounted;
    var later := entries[n := Entry(id, status)];
    var items := MoveItem(table, status, id).0.items;
    forall other | other in items ensures IsCounted(later, other, items[other]) {
      assert IsCounted(entries, other, table.items[other]);
      if other == id {
        OwnCount(entries, n, id, status, table.items[id]);
      } else {
        OtherCount(entries, n, id, status, other, table.items[other]);
      }
    }
  }

  // --- All of it, over every run -------------------------------------------------------------------------

  ghost predicate HistoryInv(s: State) {
    TrailInv(s) && CountInv(s.table, s.entries)
  }

  lemma WorkKeepsHistory(cfg: Config, s: State, n: nat, e: WorkStep)
    requires WorkEnabled(s, n, e) && HistoryInv(s)
    ensures HistoryInv(WorkNext(cfg, s, n, e))
  {
    assert Trail(s, n, s.attempts[n]);
    WorkKeepsTrail(cfg, s, n, e);
    if Applies(s, n, e) {
      MarkKeepsCounts(s.table, s.entries, n, s.attempts[n].id, s.attempts[n].pc.wanted);
    }
    hide TrailInv, CountInv, PcAfter;
  }

  lemma TrailIsLocal(s: State, t: State)
    requires TrailInv(s) && t.attempts == s.attempts && t.saves == s.saves && t.exchanges == s.exchanges
    requires t.entries == s.entries && t.notices == s.notices
    ensures TrailInv(t)
  {
    hide Matches;
    forall n | n in t.attempts ensures Trail(t, n, t.attempts[n]) {
      assert Trail(s, n, s.attempts[n]);
    }
  }

  lemma EnqueueLeavesAttempts(s: State, k: nat, e: EnqueueStep)
    requires EnqueueEnabled(s, k, e)
    ensures var t := EnqueueNext(s, k, e);
      && t.attempts == s.attempts && t.saves == s.saves && t.exchanges == s.exchanges
      && t.entries == s.entries && t.notices == s.notices
      && t.table == if e.MarkQueued? then MoveItem(s.table, Queued, RecordOf(s, k).id).0 else s.table
  {
    hide MoveItem;
  }

  lemma EnqueueKeepsHistory(s: State, k: nat, e: EnqueueStep)
    requires EnqueueEnabled(s, k, e) && HistoryInv(s)
    ensures HistoryInv(EnqueueNext(s, k, e))
  {
    hide CountInv, MoveItem, TrailInv, EnqueueNext;
    EnqueueLeavesAttempts(s, k, e);
    TrailIsLocal(s, EnqueueNext(s, k, e));
    if e.MarkQueued? {
      QueuedKeepsCounts(s.table, RecordOf(s, k).id, s.entries);
    }
  }

  lemma QueueKeepsHistory(cfg: Config, s: State, e: QueueStep)
    requires QueueEnabled(cfg, s, e) && HistoryInv(s)
    ensures HistoryInv(QueueNext(cfg, s, e))
  {
    hide CountInv;
    var t := QueueNext(cfg, s, e);
    forall n | n in t.attempts ensures Trail(t, n, t.attempts[n]) {
      if n in s.attempts {
        assert Trail(s, n, s.attempts[n]);
      }
    }
  }

  lemma ApiKeepsHistory(s: State, e: ApiStep)
    requires ApiEnabled(s.table, e) && HistoryInv(s)
    ensures HistoryInv(s.(table := ApiNext(s.table, e)))
  {
    hide CountInv, ApiNext, TrailInv;
    TrailIsLocal(s, s.(table := ApiNext(s.table, e)));
    ApiKeepsCounts(s.table, e, s.entries);
  }

  lemma RecipientKeepsHistory(s: State, e: RecipientStep)
    requires RecipientEnabled(s, e) && HistoryInv(s)
    ensures HistoryInv(s.(inbox := RecipientNext(s, e)))
  {
    hide CountInv, RecipientNext, TrailInv;
    TrailIsLocal(s, s.(inbox := RecipientNext(s, e)));
  }

  lemma StepKeepsHistory(cfg: Config, s: State, e: Step)
    requires Enabled(cfg, s, e) && HistoryInv(s)
    ensures HistoryInv(Next(cfg, s, e))
  {
    hide HistoryInv, ApiNext, EnqueueNext, QueueNext, WorkNext, RecipientNext;
    match e
    case Api(api) => ApiKeepsHistory(s, api);
    case Enqueue(k, enqueue) => EnqueueKeepsHistory(s, k, enqueue);
    case Queue(queue) => QueueKeepsHistory(cfg, s, queue);
    case Work(n, work) => WorkKeepsHistory(cfg, s, n, work);
    case AtRecipient(recipient) => RecipientKeepsHistory(s, recipient);
  }

  lemma InitialHistory()
    ensures HistoryInv(INITIAL)
  {
  }

  lemma {:induction false} HistoryAlong(cfg: Config, run: seq<State>, i: nat)
    requires IsRunFromTheStart(cfg, run) && i < |run|
    ensures HistoryInv(run[i])
  {
    hide HistoryInv, Enabled, Next, Follows;
    if i == 0 {
      InitialHistory();
    } else {
      HistoryAlong(cfg, run, i - 1);
      var e := StepTaken(cfg, run, i);
      StepKeepsHistory(cfg, run[i - 1], e);
    }
  }

  // Whatever crashes: a request that is `sent` or `rejected` has a record in the exchange store,
  // and exactly one attempt wrote that status, after it had itself saved a record that says so.
  lemma TheRecordPrecedesTheStatus(cfg: Config, run: seq<State>, i: nat, id: Ulid)
    requires IsRunFromTheStart(cfg, run) && i < |run| && id in run[i].table.items
    requires run[i].table.items[id].status in {Sent, Rejected}
    ensures id in run[i].exchanges
    ensures exists n ::
      && Writers(run[i].entries, id, run[i].table.items[id].status) == {n}
      && HasSaved(run[i].saves, n, id, run[i].table.items[id].status)
  {
    HistoryAlong(cfg, run, i);
    var s := run[i];
    var status := s.table.items[id].status;
    assert IsCounted(s.entries, id, s.table.items[id]);
    var writers := Writers(s.entries, id, status);
    assert |writers| == 1;
    var n :| n in writers;
    assert writers == {n} by {
      SingletonIsItsElement(writers, n);
    }
    assert Trail(s, n, s.attempts[n]);
    assert HasSaved(s.saves, n, id, status);
  }

  lemma SingletonIsItsElement(a: set<nat>, n: nat)
    requires |a| == 1 && n in a
    ensures a == {n}
  {
    assert |a - {n}| == 0;
  }

  function Announced(notices: map<nat, Entry>, id: Ulid): set<nat> {
    set n | n in notices && notices[n].id == id
  }

  // Over every run: the entries into `failed` are the retries, plus one exactly while the status
  // is `failed`; `sent` and `rejected` together are entered at most once, exactly when the status
  // says so; and an announcement is always of the announcing attempt's own status write, so there
  // are never more announcements than entries into terminal statuses.
  lemma EverythingIsCounted(cfg: Config, run: seq<State>, i: nat, id: Ulid)
    requires IsRunFromTheStart(cfg, run) && i < |run| && id in run[i].table.items
    ensures
      var s := run[i];
      var item := s.table.items[id];
      && |Writers(s.entries, id, Failed)| == item.Retries() + One(item.status == Failed)
      && |Writers(s.entries, id, Sent)| == One(item.status == Sent)
      && |Writers(s.entries, id, Rejected)| == One(item.status == Rejected)
      && |Announced(s.notices, id)| <= item.Retries() + One(IsTerminal(item.status))
    ensures forall n :: n in run[i].notices ==> n in run[i].entries && run[i].notices[n] == run[i].entries[n]
  {
    HistoryAlong(cfg, run, i);
    hide IsRunFromTheStart, TrailInv, Writers, Announced;
    var s := run[i];
    assert IsCounted(s.entries, id, s.table.items[id]);
    NoticesAreEntries(s);
    AnnouncedAreWriters(s, id);
  }

  lemma NoticesAreEntries(s: State)
    requires TrailInv(s)
    ensures forall n :: n in s.notices ==> n in s.entries && s.notices[n] == s.entries[n]
  {
    forall n | n in s.notices ensures n in s.entries && s.notices[n] == s.entries[n] {
      assert Trail(s, n, s.attempts[n]);
    }
    hide Matches;
  }

  lemma AnnouncedAreWriters(s: State, id: Ulid)
    requires forall n :: n in s.notices ==> n in s.entries && s.notices[n] == s.entries[n]
    ensures |Announced(s.notices, id)|
      <= |Writers(s.entries, id, Failed)| + |Writers(s.entries, id, Sent)| + |Writers(s.entries, id, Rejected)|
  {
    var failed, sent, rejected :=
      Writers(s.entries, id, Failed), Writers(s.entries, id, Sent), Writers(s.entries, id, Rejected);
    assert Announced(s.notices, id) <= failed + sent + rejected by {
      forall n | n in Announced(s.notices, id) ensures n in failed + sent + rejected {
        var status: TerminalStatus := s.entries[n].status;
        assert status == Failed || status == Sent || status == Rejected;
      }
    }
    SizeOfPart(Announced(s.notices, id), failed + sent + rejected);
    assert |failed + sent + rejected| <= |failed| + |sent| + |rejected|;
  }

  lemma SizeOfPart(part: set<nat>, whole: set<nat>)
    requires part <= whole
    ensures |part| <= |whole|
  {
    assert whole == part + (whole - part);
  }

  // `sent` and `rejected` are for ever, and what a request is about never changes.
  lemma {:induction false} FinalIsFinal(cfg: Config, run: seq<State>, i: nat, j: nat, id: Ulid)
    requires IsRun(cfg, run) && i <= j < |run| && id in run[i].table.items
    ensures id in run[j].table.items && ItemGrows(run[i].table.items[id], run[j].table.items[id])
  {
    hide Enabled, Next, Follows, ItemGrows;
    if i == j {
      ItemStays(run[i].table.items[id]);
    } else {
      FinalIsFinal(cfg, run, i, j - 1, id);
      var e := StepTaken(cfg, run, j);
      StepGrowsTable(cfg, run[j - 1], e);
      ItemGrowsOn(run[i].table.items[id], run[j - 1].table.items[id], run[j].table.items[id]);
    }
  }

  lemma ItemStays(a: Item)
    ensures ItemGrows(a, a)
  {
  }

  lemma ItemGrowsOn(a: Item, b: Item, c: Item)
    requires ItemGrows(a, b) && ItemGrows(b, c)
    ensures ItemGrows(a, c)
  {
  }

  lemma TableStays(table: Table)
    ensures TableGrows(table, table)
  {
  }

  lemma EnqueueGrowsTable(s: State, k: nat, e: EnqueueStep)
    requires EnqueueEnabled(s, k, e)
    ensures TableGrows(s.table, EnqueueNext(s, k, e).table)
  {
    hide MoveItem;
    TableStays(s.table);
    if e.MarkQueued? {
      MoveGrows(s.table, Queued, RecordOf(s, k).id);
    }
  }

  lemma StepGrowsTable(cfg: Config, s: State, e: Step)
    requires Enabled(cfg, s, e)
    ensures TableGrows(s.table, Next(cfg, s, e).table)
  {
    hide ApiNext, EnqueueNext, RecipientNext, PcAfter, TableGrows;
    hide TableAfter, MessagesAfter, WireAfter, EntriesAfter, NoticesAfter;
    match e
    case Api(api) =>
      ApiGrows(s.table, api);
    case Enqueue(k, enqueue) => EnqueueGrowsTable(s, k, enqueue);
    case Queue(queue) =>
      TableStays(s.table);
      assert QueueNext(cfg, s, queue).table == s.table;
    case Work(n, work) =>
      WorkGrowsTable(s, n, work);
      assert WorkNext(cfg, s, n, work).table == TableAfter(s, n, work);
    case AtRecipient(_) => TableStays(s.table);
  }

  // --- Every receive is one attempt -----------------------------------------------------------------------

  ghost predicate HasAttempt(attempts: map<nat, Attempt>, m: nat, count: nat) {
    exists n :: IsReceive(attempts, n, m, count)
  }

  // Attempt n is receive number `count` of message m.
  predicate IsReceive(attempts: map<nat, Attempt>, n: nat, m: nat, count: nat) {
    n in attempts && attempts[n].message == m && attempts[n].receiveCount == count
  }

  ghost predicate ReceivesInv(cfg: Config, messages: map<nat, Message>, attempts: map<nat, Attempt>) {
    && (forall n :: n in attempts ==>
          attempts[n].message in messages && 1 <= attempts[n].receiveCount <= messages[attempts[n].message].receives)
    && (forall n, o :: n in attempts && o in attempts && n != o && attempts[n].message == attempts[o].message ==>
          attempts[n].receiveCount != attempts[o].receiveCount)
    && (forall m :: m in messages ==>
          && messages[m].receives <= cfg.maxReceiveCount
          && (messages[m].place.DeadLettered? ==> messages[m].receives == cfg.maxReceiveCount))
    && (forall m, count :: m in messages && 1 <= count <= messages[m].receives ==> HasAttempt(attempts, m, count))
  }

  // What neither the receives of a message nor the names of an attempt depend on.
  predicate KeepsReceives(
    messages: map<nat, Message>, attempts: map<nat, Attempt>, later: map<nat, Message>, after: map<nat, Attempt>)
  {
    && after.Keys == attempts.Keys && messages.Keys <= later.Keys
    && (forall n :: n in attempts ==>
          after[n].message == attempts[n].message && after[n].receiveCount == attempts[n].receiveCount)
    && (forall m :: m in later ==>
          if m in messages then
            && later[m].receives == messages[m].receives
            && (later[m].place.DeadLettered? ==> messages[m].place.DeadLettered?)
          else later[m].receives == 0 && !later[m].place.DeadLettered?)
  }

  lemma ReceivesStay(
    cfg: Config, messages: map<nat, Message>, attempts: map<nat, Attempt>, later: map<nat, Message>,
    after: map<nat, Attempt>)
    requires ReceivesInv(cfg, messages, attempts) && KeepsReceives(messages, attempts, later, after)
    ensures ReceivesInv(cfg, later, after)
  {
    hide HasAttempt;
    forall m, count | m in later && 1 <= count <= later[m].receives ensures HasAttempt(after, m, count) {
      assert HasAttempt(attempts, m, count);
      AttemptStays(attempts, after, m, count);
    }
  }

  lemma AttemptStays(attempts: map<nat, Attempt>, after: map<nat, Attempt>, m: nat, count: nat)
    requires HasAttempt(attempts, m, count) && forall n :: n in attempts ==>
      n in after && after[n].message == attempts[n].message && after[n].receiveCount == attempts[n].receiveCount
    ensures HasAttempt(after, m, count)
  {
    var n :| IsReceive(attempts, n, m, count);
    assert IsReceive(after, n, m, count);
  }

  lemma HandOutKeepsReceives(cfg: Config, s: State, n: nat, m: nat)
    requires QueueEnabled(cfg, s, HandOut(n, m)) && ReceivesInv(cfg, s.messages, s.attempts)
    ensures
      var t := QueueNext(cfg, s, HandOut(n, m));
      ReceivesInv(cfg, t.messages, t.attempts)
  {
    hide HasAttempt;
    var t := QueueNext(cfg, s, HandOut(n, m));
    forall o, count | o in t.messages && 1 <= count <= t.messages[o].receives ensures HasAttempt(t.attempts, o, count) {
      if o == m && count == t.messages[m].receives {
        NewAttempt(t.attempts, n);
      } else {
        assert HasAttempt(s.attempts, o, count);
        AttemptStays(s.attempts, t.attempts, o, count);
      }
    }
  }

  lemma NewAttempt(attempts: map<nat, Attempt>, n: nat)
    requires n in attempts
    ensures HasAttempt(attempts, attempts[n].message, attempts[n].receiveCount)
  {
    assert IsReceive(attempts, n, attempts[n].message, attempts[n].receiveCount);
  }

  lemma WorkKeepsReceives(cfg: Config, s: State, n: nat, e: WorkStep)
    requires WorkEnabled(s, n, e)
    ensures
      var t := WorkNext(cfg, s, n, e);
      KeepsReceives(s.messages, s.attempts, t.messages, t.attempts)
  {
    hide PcAfter, TableAfter, WireAfter, EntriesAfter, NoticesAfter;
  }

  lemma EnqueueKeepsReceives(s: State, k: nat, e: EnqueueStep)
    requires EnqueueEnabled(s, k, e)
    ensures
      var t := EnqueueNext(s, k, e);
      KeepsReceives(s.messages, s.attempts, t.messages, t.attempts)
  {
    hide MoveItem;
  }

  lemma StepKeepsReceives(cfg: Config, s: State, e: Step)
    requires Enabled(cfg, s, e) && ReceivesInv(cfg, s.messages, s.attempts)
    ensures ReceivesInv(cfg, Next(cfg, s, e).messages, Next(cfg, s, e).attempts)
  {
    hide ReceivesInv, WorkNext, EnqueueNext, KeepsReceives, ApiNext, RecipientNext;
    match e
    case Queue(HandOut(n, m)) =>
      hide QueueNext, QueueEnabled;
      HandOutKeepsReceives(cfg, s, n, m);
    case Queue(DeadLetter(m)) =>
      hide QueueNext, QueueEnabled;
      DeadLetteringKeepsReceives(cfg, s, m);
    case Work(n, work) =>
      WorkKeepsReceives(cfg, s, n, work);
      ReceivesStay(cfg, s.messages, s.attempts, WorkNext(cfg, s, n, work).messages, WorkNext(cfg, s, n, work).attempts);
    case Enqueue(k, enqueue) =>
      EnqueueKeepsReceives(s, k, enqueue);
      ReceivesStay(cfg, s.messages, s.attempts, EnqueueNext(s, k, enqueue).messages,
        EnqueueNext(s, k, enqueue).attempts);
    case _ =>
  }

  lemma DeadLetteringKeepsReceives(cfg: Config, s: State, m: nat)
    requires QueueEnabled(cfg, s, DeadLetter(m)) && ReceivesInv(cfg, s.messages, s.attempts)
    ensures
      var t := QueueNext(cfg, s, DeadLetter(m));
      ReceivesInv(cfg, t.messages, t.attempts)
  {
    hide HasAttempt;
  }

  lemma {:induction false} ReceivesAlong(cfg: Config, run: seq<State>, i: nat)
    requires IsRunFromTheStart(cfg, run) && i < |run|
    ensures ReceivesInv(cfg, run[i].messages, run[i].attempts)
  {
    hide Enabled, Next, Follows, HasAttempt;
    if i > 0 {
      hide ReceivesInv;
      ReceivesAlong(cfg, run, i - 1);
      var e := StepTaken(cfg, run, i);
      StepKeepsReceives(cfg, run[i - 1], e);
    }
  }

  // Over every run: each receive of a message, the first as well as the last, is one attempt that knows its number, and
  // no message goes to the dead letters before the attempt that knows itself to be the last.
  lemma EveryReceiveIsOneAttempt(cfg: Config, run: seq<State>, i: nat, m: nat, count: nat)
    requires IsRunFromTheStart(cfg, run) && i < |run| && m in run[i].messages && count > 0
    ensures
      var s := run[i];
      && (count <= s.messages[m].receives <==> HasAttempt(s.attempts, m, count))
      && (forall n, o :: IsReceive(s.attempts, n, m, count) && IsReceive(s.attempts, o, m, count) ==> n == o)
      && (s.messages[m].place.DeadLettered? && cfg.maxReceiveCount > 0 ==>
           HasAttempt(s.attempts, m, cfg.maxReceiveCount))
  {
    hide IsRunFromTheStart;
    ReceivesAlong(cfg, run, i);
  }

  // --- What the API and the webhook write -----------------------------------------------------------------

  // The owner's retry starts the next send of the same request.
  lemma RetriesStartTheNextSend(cfg: Config, s: State, id: Ulid)
    requires Enabled(cfg, s, Api(RetryByOwner(id)))
    ensures
      var t := Next(cfg, s, Api(RetryByOwner(id)));
      && id in t.table.items && t.table.items[id].status == Created
      && t.table.items[id].Retries() == s.table.items[id].Retries() + 1
      && t.table.items[id].content == s.table.items[id].content
      && |t.table.changes| == |s.table.changes| + 1
      && var change := t.table.changes[|s.table.changes|];
         change.id == id && change.Retries() == t.table.items[id].Retries() && IsForTheQueue(change)
  {
    hide WorkEnabled, WorkNext, EnqueueEnabled, EnqueueNext, RecipientEnabled, RecipientNext, QueueNext;
  }

  // A later decision of another event is stored, and any other one is not; neither touches the status.
  lemma DecisionsAreStored(cfg: Config, s: State, id: Ulid, event: StoredDecision)
    requires Enabled(cfg, s, Api(Decide(id, event)))
    ensures
      var before, after := s.table.items, Next(cfg, s, Api(Decide(id, event))).table.items;
      if IsOlder(before[id], event.eventId, event.atMs) then
        DecisionIs(before, after, id, event.decision, event.eventId, event.atMs)
      else after == before
  {
    hide WorkEnabled, WorkNext, EnqueueEnabled, EnqueueNext, RecipientEnabled, RecipientNext, QueueNext;
  }

  // --- What ends a message and a stream record ------------------------------------------------------------

  // Once the batch response is there, a message is deleted exactly if its attempt was acknowledged, and is handed out
  // again otherwise; a record that Lambda has gone past is never picked again.
  lemma ResponsesEndMessages(cfg: Config, s: State, n: nat)
    requires WorkEnabled(s, n, Return) && s.attempts[n].message in s.messages
    requires s.messages[s.attempts[n].message].place.Waiting?
    ensures
      var t, m := WorkNext(cfg, s, n, Return), s.attempts[n].message;
      && t.attempts[n].pc == Over && m in t.messages && t.messages[m].receives == s.messages[m].receives
      && t.messages[m].place ==
           if s.attempts[n].pc.result in {OutSent, OutRejected, OutFailed, OutAlreadyDone} then Deleted else Waiting
  {
    hide TableAfter, WireAfter, EntriesAfter, NoticesAfter;
  }

  lemma AcknowledgedRecordsAreOver(s: State, k: nat)
    requires EnqueueEnabled(s, k, Acknowledge)
    ensures !IsPending(EnqueueNext(s, k, Acknowledge), s.enqueuers[k].record)
  {
    hide MoveItem;
  }
}
