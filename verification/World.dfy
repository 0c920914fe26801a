/** The running system around one Lambda invocation. Each method is one call into another system:
    any number of steps of everybody else, then the call's own step, which may also have happened
    although its answer was lost. Callers know no more than these contracts. */
module World {
  import opened Basics
  import opened RequestStatus
  import opened RequestsTable
  import opened ReplyReader
  import Recipient
  import opened DeliveryMessage
  import opened Protocol
  import NoLoss
  import Histories

  // The exchange record of an attempt. `valid`: our document passed our own copy of the schema. The time, the document
  // and the problems are left out.
  datatype Exchange = Exchange(attempt: nat, outcome: ExchangeOutcome, valid: bool, reply: Option<RecordedReply>)

  // One call of an invocation into another system, and what came of it.
  datatype CallMade =
    | ReadCall(n: nat, found: Result<Option<Item>>)
    | KeyCall(n: nat, worked: bool)
    | SendCall(n: nat, document: Recipient.Document, answer: PartnerAnswer, check: Option<bool>)
    | SaveCall(n: nat, exchange: Exchange, worked: bool)
    | MarkCall(n: nat, status: TerminalStatus, applied: Result<bool>)
    | NoticeCall(n: nat, status: TerminalStatus, worked: bool)
    | BatchCall(ks: seq<nat>, refused: Result<set<nat>>)
    | QueuedCall(k: nat, applied: Result<bool>)

  // The attempts of this invocation stand still unless it moves them itself.
  predicate Spares(before: State, after: State, mine: set<nat>) {
    forall n :: n in mine ==>
      n in before.attempts && n in after.attempts && after.attempts[n] == before.attempts[n]
  }

  predicate SparesEnqueuers(before: State, after: State, mine: set<nat>) {
    forall k :: k in mine ==>
      k in before.enqueuers && k in after.enqueuers && after.enqueuers[k] == before.enqueuers[k]
  }

  predicate Moves(before: State, after: State, mine: set<nat>, n: nat, pc: Pc) {
    && n in before.attempts && n in after.attempts
    && Spares(before, after, mine - {n})
    && after.attempts[n] == before.attempts[n].(pc := pc)
  }

  // The attempt got somewhere, and is not over.
  predicate StopsAnywhere(before: State, after: State, mine: set<nat>, n: nat) {
    n in after.attempts && !after.attempts[n].pc.Over? && Moves(before, after, mine, n, after.attempts[n].pc)
  }

  predicate MovesEnqueuer(before: State, after: State, mine: set<nat>, k: nat, stage: EnqueueStage) {
    && k in before.enqueuers && k in after.enqueuers
    && SparesEnqueuers(before, after, mine - {k})
    && after.enqueuers[k] == before.enqueuers[k].(stage := stage)
    && after.enqueuers[k].record < |after.table.changes|
    && before.table.changes <= after.table.changes
  }

  // The request of a stream record was marked as queued after that record.
  predicate WasQueuedSince(table: Table, record: nat) {
    record < |table.changes|
    && exists q :: record < q < |table.changes|
         && table.changes[q].id == table.changes[record].id && table.changes[q].status == Queued
  }

  lemma MarkingLeavesItsRecord(s: State, k: nat)
    requires EnqueuerIsAt(s, k, SentToQueue) && MoveItem(s.table, Queued, RecordOf(s, k).id).1
    ensures WasQueuedSince(EnqueueNext(s, k, EnqueueStep.MarkQueued).table, s.enqueuers[k].record)
  {
    var t := MoveItem(s.table, Queued, RecordOf(s, k).id).0;
    assert t.changes[|s.table.changes|].status == Queued;
  }

  lemma EnabledEnqueue(cfg: Config, s: State, k: nat, e: EnqueueStep)
    requires EnqueueEnabled(s, k, e)
    ensures Enabled(cfg, s, Enqueue(k, e)) && Next(cfg, s, Enqueue(k, e)) == EnqueueNext(s, k, e)
  {
  }

  lemma OneEnqueueStep(s: State, mine: set<nat>, k: nat, e: EnqueueStep)
    requires k in mine && mine <= s.enqueuers.Keys && EnqueueEnabled(s, k, e)
    requires e.SendAccepted? || e.SendDropped? || e.MarkQueued?
    ensures mine <= EnqueueNext(s, k, e).enqueuers.Keys
    ensures MovesEnqueuer(s, EnqueueNext(s, k, e), mine, k, if e.MarkQueued? then MarkTried else SentToQueue)
  {
    if e.MarkQueued? {
      NoLoss.MoveGrows(s.table, Queued, RecordOf(s, k).id);
    }
    hide MoveItem;
  }

  // The stream only grows.
  lemma LeadsKeepsRecords(cfg: Config, s: State, t: State)
    requires Leads(cfg, s, t)
    ensures s.table.changes <= t.table.changes
  {
    hide Follows;
    var run :| IsRun(cfg, run) && run[0] == s && run[|run| - 1] == t;
    RecordsOnlyGrow(cfg, run, |run| - 1);
  }

  lemma {:induction false} RecordsOnlyGrow(cfg: Config, run: seq<State>, i: nat)
    requires IsRun(cfg, run) && i < |run|
    ensures run[0].table.changes <= run[i].table.changes
  {
    hide Enabled, Next, Follows;
    if i > 0 {
      RecordsOnlyGrow(cfg, run, i - 1);
      var e := StepTaken(cfg, run, i);
      Histories.StepGrowsTable(cfg, run[i - 1], e);
    }
  }

  predicate HasAttempts(s: State, mine: set<nat>) {
    mine <= s.attempts.Keys
  }

  lemma StepMoves(cfg: Config, s: State, mine: set<nat>, n: nat, e: WorkStep)
    requires n in mine && HasAttempts(s, mine) && WorkEnabled(s, n, e)
    ensures n in s.attempts
    ensures HasAttempts(WorkNext(cfg, s, n, e), mine)
      && Moves(s, WorkNext(cfg, s, n, e), mine, n, PcAfter(cfg, s, n, e))
  {
    hide PcAfter, TableAfter, MessagesAfter, WireAfter, EntriesAfter, NoticesAfter;
  }

  lemma ReadingChangesNothing(cfg: Config, s: State, n: nat)
    requires WorkEnabled(s, n, Read)
    ensures WorkNext(cfg, s, n, Read).table == s.table
  {
  }

  lemma PublishingTells(cfg: Config, s: State, n: nat, status: TerminalStatus, works: bool)
    requires n in s.attempts && s.attempts[n].pc == ToPublish(status)
    ensures WorkEnabled(s, n, Publish(works)) && PcAfter(cfg, s, n, Publish(works)) == Finished(OutcomeOf(status))
    ensures
      var notices := WorkNext(cfg, s, n, Publish(works)).notices;
      works ==> n in notices && notices[n] == Entry(s.attempts[n].id, status)
  {
  }

  // What is on the wire stays there.
  lemma LeadsKeepsWire(cfg: Config, s: State, t: State)
    requires Leads(cfg, s, t)
    ensures s.wire.Keys <= t.wire.Keys
  {
    hide Follows;
    var run :| IsRun(cfg, run) && run[0] == s && run[|run| - 1] == t;
    WireOnlyGrows(cfg, run, |run| - 1);
  }

  lemma WorkKeepsWire(cfg: Config, s: State, n: nat, e: WorkStep)
    requires WorkEnabled(s, n, e)
    ensures s.wire.Keys <= WorkNext(cfg, s, n, e).wire.Keys && (e.Call? ==> n in WorkNext(cfg, s, n, e).wire)
  {
    hide PcAfter, TableAfter, MessagesAfter, EntriesAfter, NoticesAfter, DocumentOf;
  }

  lemma EnqueueKeepsWire(s: State, k: nat, e: EnqueueStep)
    requires EnqueueEnabled(s, k, e)
    ensures EnqueueNext(s, k, e).wire == s.wire
  {
    hide MoveItem, DeduplicationId;
  }

  lemma QueueKeepsWire(cfg: Config, s: State, e: QueueStep)
    requires QueueEnabled(cfg, s, e)
    ensures QueueNext(cfg, s, e).wire == s.wire
  {
  }

  lemma StepKeepsWire(cfg: Config, s: State, e: Step)
    requires Enabled(cfg, s, e)
    ensures s.wire.Keys <= Next(cfg, s, e).wire.Keys
  {
    hide WorkNext, EnqueueNext, QueueNext, ApiNext, RecipientNext;
    match e
    case Work(n, work) => WorkKeepsWire(cfg, s, n, work);
    case Enqueue(k, enqueue) => EnqueueKeepsWire(s, k, enqueue);
    case Queue(queue) => QueueKeepsWire(cfg, s, queue);
    case _ =>
  }


  lemma {:induction false} WireOnlyGrows(cfg: Config, run: seq<State>, i: nat)
    requires IsRun(cfg, run) && i < |run|
    ensures run[0].wire.Keys <= run[i].wire.Keys
  {
    hide Enabled, Next, Follows;
    if i > 0 {
      WireOnlyGrows(cfg, run, i - 1);
      var e := StepTaken(cfg, run, i);
      StepKeepsWire(cfg, run[i - 1], e);
    }
  }

  // Of our enqueuers exactly these have been offered to the queue, and it has taken all of them but these.
  predicate BatchIsSent(before: State, after: State, mine: set<nat>, ks: seq<nat>, notTaken: set<nat>) {
    && mine <= before.enqueuers.Keys && mine <= after.enqueuers.Keys && before.table.changes <= after.table.changes
    && (forall k :: k in notTaken ==> k in ks)
    && (forall k :: k in mine ==>
          after.enqueuers[k] == if k !in ks then before.enqueuers[k]
            else before.enqueuers[k].(stage := if k in notTaken then Picked else SentToQueue))
  }

  lemma NothingIsSent(s: State, mine: set<nat>)
    requires mine <= s.enqueuers.Keys
    ensures BatchIsSent(s, s, mine, [], {})
  {
  }

  lemma NextIsStillPicked(before: State, s: State, mine: set<nat>, ks: seq<nat>, i: nat, left: set<nat>)
    requires i < |ks| && BatchIsSent(before, s, mine, ks[..i], left) && (forall j :: 0 <= j < i ==> ks[j] != ks[i])
    requires ks[i] in mine && EnqueuerIsAt(before, ks[i], Picked)
    ensures mine <= s.enqueuers.Keys && EnqueuerIsAt(s, ks[i], Picked)
  {
    assert ks[i] !in ks[..i];
  }

  lemma OneMoreIsSent(
    before: State, s: State, t: State, mine: set<nat>, ks: seq<nat>, i: nat, left: set<nat>, accepted: bool)
    requires i < |ks| && BatchIsSent(before, s, mine, ks[..i], left) && (forall j :: 0 <= j < i ==> ks[j] != ks[i])
    requires mine <= t.enqueuers.Keys && ks[i] in mine && EnqueuerIsAt(before, ks[i], Picked)
    requires MovesEnqueuer(s, t, mine, ks[i], if accepted then SentToQueue else Picked)
    ensures BatchIsSent(before, t, mine, ks[..i + 1], if accepted then left else left + {ks[i]})
  {
    assert ks[i] !in ks[..i] && ks[..i + 1] == ks[..i] + [ks[i]];
    forall k | k in mine && k != ks[i]
      ensures t.enqueuers[k] == s.enqueuers[k] && (k in ks[..i + 1] <==> k in ks[..i])
    {
      assert k in mine - {ks[i]};
    }
  }

  class System {
    const cfg: Config
    var s: State
    // The calls that this invocation has made, in order.
    ghost var calls: seq<CallMade>

    constructor (cfg: Config)
      ensures this.cfg == cfg && s == INITIAL && calls == []
    {
      this.cfg := cfg;
      s := INITIAL;
      calls := [];
    }

    // Everybody else goes on for a while. (This body lets no time pass; callers must be ready
    // for whatever the contract allows.)
    method Interfere(mine: set<nat>)
      requires HasAttempts(s, mine)
      modifies this`s
      ensures Leads(cfg, old(s), s) && Spares(old(s), s, mine) && HasAttempts(s, mine)
    {
      LeadsToItself(cfg, s);
    }

    // One step of our own attempt `n`.
    method Do(mine: set<nat>, n: nat, e: WorkStep)
      requires n in mine && HasAttempts(s, mine) && WorkEnabled(s, n, e)
      modifies this`s
      ensures Leads(cfg, old(s), s) && HasAttempts(s, mine)
      ensures old(n in s.attempts) && Moves(old(s), s, mine, n, PcAfter(cfg, old(s), n, e))
      ensures s == WorkNext(cfg, old(s), n, e)
    {
      hide *;
      StepMoves(cfg, s, mine, n, e);
      EnabledWork(cfg, s, n, e);
      LeadsToItself(cfg, s);
      LeadsOneStep(cfg, s, s, Work(n, e));
      s := WorkNext(cfg, s, n, e);
    }

    // Others go on, and then our attempt takes its step.
    method Call(mine: set<nat>, n: nat, e: WorkStep, ghost pc: Pc)
      requires n in mine && HasAttempts(s, mine) && WorkEnabled(s, n, e)
      requires IsOwnStep(cfg, s.attempts[n], e, pc)
      modifies this`s
      ensures Leads(cfg, old(s), s) && HasAttempts(s, mine) && Moves(old(s), s, mine, n, pc)
    {
      hide PcAfter, Leads, WorkNext;
      Interfere(mine);
      ghost var between := s;
      assert WorkEnabled(s, n, e) && PcAfter(cfg, s, n, e) == pc by { OwnStepIsOurs(cfg, old(s), s, n, e, pc); }
      Do(mine, n, e);
      LeadsOn(cfg, old(s), between, s);
    }

    // The consistent read of the request.
    method FindForDelivery(mine: set<nat>, n: nat) returns (found: Result<Option<Item>>)
      requires n in mine && HasAttempts(s, mine) && s.attempts[n].pc == Received
      modifies this
      ensures Leads(cfg, old(s), s) && HasAttempts(s, mine)
      ensures found.Ok? ==> Moves(old(s), s, mine, n, AfterRead(cfg, old(s).attempts[n].id, found.value))
      ensures found.Ok? ==> found.value == Protocol.FindForDelivery(s, old(s).attempts[n].id)
      ensures found.Thrown? ==> Spares(old(s), s, mine)
      ensures calls == old(calls) + [ReadCall(n, found)]
    {
      hide Leads, WorkNext, AfterRead;
      Interfere(mine);
      if * {
        calls := calls + [ReadCall(n, Thrown)];
        return Thrown;
      }
      ghost var between := s;
      found := Ok(Protocol.FindForDelivery(s, s.attempts[n].id));
      Do(mine, n, Read);
      ReadingChangesNothing(cfg, between, n);
      LeadsOn(cfg, old(s), between, s);
      calls := calls + [ReadCall(n, found)];
    }

    // `apiKeys.get`: the key itself plays no part in the model.
    method GetApiKey(mine: set<nat>, n: nat) returns (key: Result<()>)
      requires n in mine && HasAttempts(s, mine)
      modifies this
      ensures Leads(cfg, old(s), s) && HasAttempts(s, mine) && Spares(old(s), s, mine)
      ensures calls == old(calls) + [KeyCall(n, key.Ok?)]
    {
      Interfere(mine);
      if * {
        calls := calls + [KeyCall(n, false)];
        return Thrown;
      }
      calls := calls + [KeyCall(n, true)];
      return Ok(());
    }

    // `partner.send`: the answer, and what reply.xsd says of its body.
    method Send(mine: set<nat>, n: nat, document: Recipient.Document)
      returns (answer: PartnerAnswer, check: Option<bool>)
      requires n in mine && HasAttempts(s, mine) && s.attempts[n].pc.Ready?
      requires document == DocumentOf(s.attempts[n].id, s.attempts[n].pc.content)
      modifies this
      ensures Leads(cfg, old(s), s) && HasAttempts(s, mine)
      ensures
        var attempt := old(s).attempts[n];
        Moves(old(s), s, mine, n,
          AfterAnswer(cfg, attempt.receiveCount, ReadAnswer(answer, check, attempt.id).decision))
      ensures n in s.wire && calls == old(calls) + [SendCall(n, document, answer, check)]
    {
      hide Leads, WorkNext, ReadAnswer, AfterAnswer;
      Interfere(mine);
      ghost var before := s;
      WorkKeepsWire(cfg, s, n, WorkStep.Call);
      Do(mine, n, WorkStep.Call);
      ghost var asked := s;
      LeadsOn(cfg, old(s), before, asked);
      Interfere(mine);
      ghost var between := s;
      LeadsOn(cfg, old(s), asked, between);
      var delivery := NothingArrives(Timeout);
      answer, check := NoAnswer(Timeout), None;
      if * {
        delivery := NothingArrives(NetworkError);
        answer := NoAnswer(NetworkError);
      } else if * {
        if IsAnswered(s, n) {
          delivery := Whole;
          answer := Recipient.AsReceived(s.inbox.threads[Ours(n)].stage.answer, "");
          check := Recipient.Verdict0(s.inbox.threads[Ours(n)].stage.answer);
        }
      } else if IsAnswered(s, n) {
        delivery := BodyLost;
        answer := Answer(s.inbox.threads[Ours(n)].stage.answer.statusCode, None, Some(Unreadable));
      }
      assert Heard(s, n, s.attempts[n].id, delivery) == ReadAnswer(answer, check, s.attempts[n].id);
      Do(mine, n, Hear(delivery));
      LeadsOn(cfg, old(s), between, s);
      LeadsOn(cfg, asked, between, s);
      LeadsKeepsWire(cfg, asked, s);
      calls := calls + [SendCall(n, document, answer, check)];
    }

    // `exchanges.save`. When it throws, the record may have been written all the same.
    method SaveExchange(mine: set<nat>, n: nat, exchange: Exchange) returns (saved: Result<()>)
      requires n in mine && HasAttempts(s, mine)
      requires s.attempts[n].pc.ToSave? && s.attempts[n].pc.outcome == exchange.outcome
      modifies this
      ensures Leads(cfg, old(s), s) && HasAttempts(s, mine)
      ensures Moves(old(s), s, mine, n, AfterSave(old(s).attempts[n].pc.target))
        || (saved.Thrown? && Spares(old(s), s, mine))
      ensures calls == old(calls) + [SaveCall(n, exchange, saved.Ok?)]
    {
      saved := Thrown;
      if * {
        Interfere(mine);
      } else {
        Call(mine, n, Save, AfterSave(s.attempts[n].pc.target));
        if * {
          saved := Ok(());
        }
      }
      calls := calls + [SaveCall(n, exchange, saved.Ok?)];
    }

    // A temporary failure is handled further although its record could not be written.
    method GoOnWithoutRecord(mine: set<nat>, n: nat)
      requires n in mine && HasAttempts(s, mine) && WorkEnabled(s, n, SaveFails)
      modifies this`s
      ensures Leads(cfg, old(s), s) && HasAttempts(s, mine)
      ensures Moves(old(s), s, mine, n, AfterSave(old(s).attempts[n].pc.target))
    {
      Forward(mine, n, SaveFails, AfterSave(s.attempts[n].pc.target));
    }

    // A bookkeeping step without a call of its own.
    method Forward(mine: set<nat>, n: nat, e: WorkStep, ghost pc: Pc)
      requires n in mine && HasAttempts(s, mine) && WorkEnabled(s, n, e) && PcAfter(cfg, s, n, e) == pc
      modifies this`s
      ensures Leads(cfg, old(s), s) && HasAttempts(s, mine) && Moves(old(s), s, mine, n, pc)
    {
      hide PcAfter, TableAfter, MessagesAfter, WireAfter, EntriesAfter, NoticesAfter, Enabled, Leads;
      LeadsToItself(cfg, s);
      EnabledWork(cfg, s, n, e);
      LeadsOneStep(cfg, s, s, Work(n, e));
      s := WorkNext(cfg, s, n, e);
    }

    // `repository.mark...`: a conditional update. When it throws, it may have been applied all the same.
    method MoveTo(mine: set<nat>, n: nat, status: TerminalStatus) returns (applied: Result<bool>)
      requires n in mine && HasAttempts(s, mine) && s.attempts[n].pc == ToMark(status)
      modifies this
      ensures Leads(cfg, old(s), s) && HasAttempts(s, mine)
      ensures applied == Ok(true) ==> Moves(old(s), s, mine, n, ToPublish(status))
      ensures applied == Ok(false) ==> Moves(old(s), s, mine, n, Finished(OutAlreadyDone))
      ensures applied.Thrown? ==>
        || Spares(old(s), s, mine)
        || Moves(old(s), s, mine, n, ToPublish(status))
        || Moves(old(s), s, mine, n, Finished(OutAlreadyDone))
      ensures calls == old(calls) + [MarkCall(n, status, applied)]
    {
      hide Leads, WorkNext, MoveItem;
      Interfere(mine);
      applied := Thrown;
      if * {
        ghost var between := s;
        var worked := Applies(s, n, Mark);
        Do(mine, n, Mark);
        LeadsOn(cfg, old(s), between, s);
        if * {
          applied := Ok(worked);
        }
      }
      calls := calls + [MarkCall(n, status, applied)];
    }

    // `notifier.publish`, best effort.
    method Announce(mine: set<nat>, n: nat, status: TerminalStatus) returns (published: Result<()>)
      requires n in mine && HasAttempts(s, mine) && s.attempts[n].pc == ToPublish(status)
      modifies this
      ensures Leads(cfg, old(s), s) && HasAttempts(s, mine)
      ensures Moves(old(s), s, mine, n, Finished(OutcomeOf(status)))
      ensures published.Ok? ==> n in s.notices && s.notices[n] == Entry(old(s).attempts[n].id, status)
      ensures calls == old(calls) + [NoticeCall(n, status, published.Ok?)]
    {
      hide Leads, WorkNext, PcAfter;
      Interfere(mine);
      ghost var between := s;
      published := Thrown;
      if * {
        published := Ok(());
      }
      PublishingTells(cfg, s, n, status, published.Ok?);
      Do(mine, n, Publish(published.Ok?));
      LeadsOn(cfg, old(s), between, s);
      calls := calls + [NoticeCall(n, status, published.Ok?)];
    }

    // --- The enqueuer's calls ---------------------------------------------------------------------

    method InterfereWithEnqueuers(mine: set<nat>)
      requires mine <= s.enqueuers.Keys
      modifies this`s
      ensures Leads(cfg, old(s), s) && SparesEnqueuers(old(s), s, mine) && mine <= s.enqueuers.Keys
    {
      LeadsToItself(cfg, s);
    }

    method DoEnqueue(mine: set<nat>, k: nat, e: EnqueueStep)
      requires k in mine && mine <= s.enqueuers.Keys && EnqueueEnabled(s, k, e)
      requires e.SendAccepted? || e.SendDropped? || e.MarkQueued?
      modifies this`s
      ensures Leads(cfg, old(s), s) && mine <= s.enqueuers.Keys
      ensures old(k in s.enqueuers)
        && MovesEnqueuer(old(s), s, mine, k, if e.MarkQueued? then MarkTried else SentToQueue)
      ensures s == EnqueueNext(old(s), k, e)
    {
      hide Enabled, Next, Leads, EnqueueNext, EnqueueEnabled, MovesEnqueuer;
      LeadsToItself(cfg, s);
      EnabledEnqueue(cfg, s, k, e);
      LeadsOneStep(cfg, s, s, Enqueue(k, e));
      OneEnqueueStep(s, mine, k, e);
      s := EnqueueNext(s, k, e);
    }

    // One entry of SendMessageBatch: refused, stored, or dropped as a duplicate.
    method SendOne(mine: set<nat>, k: nat) returns (accepted: bool)
      requires k in mine && mine <= s.enqueuers.Keys && EnqueuerIsAt(s, k, Picked)
      modifies this`s
      ensures Leads(cfg, old(s), s) && mine <= s.enqueuers.Keys
      ensures old(k in s.enqueuers) && MovesEnqueuer(old(s), s, mine, k, if accepted then SentToQueue else Picked)
    {
      hide Leads, MoveItem, MovesEnqueuer, EnqueueNext, EnqueueEnabled, DeduplicationId;
      LeadsToItself(cfg, s);
      CanBeSent(s, mine, k);
      if * {
        return false;
      }
      if DeduplicationId(RecordOf(s, k).id, RecordOf(s, k).Retries()) in s.seen {
        if * {
          DoEnqueue(mine, k, SendDropped);
          return true;
        }
      }
      ghost var bound := FreshNumber(s.messages.Keys);
      assert bound !in s.messages;
      var m: nat :| m !in s.messages;
      DoEnqueue(mine, k, SendAccepted(m));
      return true;
    }

    // SendMessageBatch: which entries were refused, or an error although some may have been stored.
    method SendBatch(mine: set<nat>, ks: seq<nat>) returns (refused: Result<set<nat>>, ghost notTaken: set<nat>)
      requires mine <= s.enqueuers.Keys && (forall i, j :: 0 <= i < j < |ks| ==> ks[i] != ks[j])
      requires forall k :: k in ks ==> k in mine && EnqueuerIsAt(s, k, Picked)
      modifies this
      ensures Leads(cfg, old(s), s) && BatchIsSent(old(s), s, mine, ks, notTaken)
      ensures refused.Ok? ==> refused.value == notTaken
      ensures calls == old(calls) + [BatchCall(ks, refused)]
    {
      hide Leads, BatchIsSent, MovesEnqueuer;
      LeadsToItself(cfg, s);
      NothingIsSent(s, mine);
      assert ks[..0] == [];
      var left := {};
      for i := 0 to |ks|
        invariant Leads(cfg, old(s), s) && calls == old(calls)
        invariant BatchIsSent(old(s), s, mine, ks[..i], left)
      {
        ghost var before := s;
        NextIsStillPicked(old(s), s, mine, ks, i, left);
        var accepted := SendOne(mine, ks[i]);
        LeadsOn(cfg, old(s), before, s);
        OneMoreIsSent(old(s), before, s, mine, ks, i, left, accepted);
        if !accepted {
          left := left + {ks[i]};
        }
      }
      assert ks[..|ks|] == ks;
      refused, notTaken := Thrown, left;
      if * {
        refused := Ok(left);
      }
      calls := calls + [BatchCall(ks, refused)];
    }

    // `repository.markQueued`. When it throws, it may have been applied all the same.
    method MarkQueued(mine: set<nat>, k: nat) returns (applied: Result<bool>)
      requires k in mine && mine <= s.enqueuers.Keys && EnqueuerIsAt(s, k, SentToQueue)
      modifies this
      ensures Leads(cfg, old(s), s) && mine <= s.enqueuers.Keys
      ensures applied.Ok? ==> MovesEnqueuer(old(s), s, mine, k, MarkTried)
      ensures applied == Ok(true) ==> WasQueuedSince(s.table, old(s).enqueuers[k].record)
      ensures applied.Thrown? ==>
        MovesEnqueuer(old(s), s, mine, k, MarkTried) || MovesEnqueuer(old(s), s, mine, k, SentToQueue)
      ensures calls == old(calls) + [QueuedCall(k, applied)]
    {
      hide Leads, MoveItem;
      ghost var start := s;
      InterfereWithEnqueuers(mine);
      ghost var between := s;
      LeadsKeepsRecords(cfg, start, between);
      applied := Thrown;
      if * {
        var worked := MoveItem(s.table, Queued, RecordOf(s, k).id).1;
        if worked {
          MarkingLeavesItsRecord(s, k);
        }
        DoEnqueue(mine, k, EnqueueStep.MarkQueued);
        LeadsOn(cfg, start, between, s);
        if * {
          applied := Ok(worked);
        }
      }
      calls := calls + [QueuedCall(k, applied)];
    }

    // An exception ends the attempt; the message is reported as failed.
    method Fail(mine: set<nat>, n: nat)
      requires n in mine && HasAttempts(s, mine) && !s.attempts[n].pc.Over?
      modifies this`s
      ensures Leads(cfg, old(s), s) && HasAttempts(s, mine)
      ensures Moves(old(s), s, mine, n, Finished(OutError))
    {
      Forward(mine, n, Throw, Finished(OutError));
    }
  }

  // A picked record may be refused, stored as a message, or dropped if its deduplication id has been seen.
  lemma CanBeSent(s: State, mine: set<nat>, k: nat)
    requires k in mine && mine <= s.enqueuers.Keys && EnqueuerIsAt(s, k, Picked)
    ensures MovesEnqueuer(s, s, mine, k, Picked)
    ensures forall m :: m !in s.messages ==> EnqueueEnabled(s, k, SendAccepted(m))
    ensures DeduplicationId(RecordOf(s, k).id, RecordOf(s, k).Retries()) in s.seen ==> EnqueueEnabled(s, k, SendDropped)
  {
    hide DeduplicationId;
  }

  // A number that is not taken.
  lemma {:induction false} FreshNumber(taken: set<nat>) returns (bound: nat)
    ensures forall m :: m in taken ==> m < bound
  {
    if taken == {} {
      bound := 0;
    } else {
      var m :| m in taken;
      bound := FreshNumber(taken - {m});
      bound := if m < bound then bound else m + 1;
      assert taken == (taken - {m}) + {m};
    }
  }

  // Steps whose outcome depends on nothing but the attempt itself.
  predicate IsOwnStep(cfg: Config, attempt: Attempt, e: WorkStep, pc: Pc) {
    match e
    case Call => pc == Calling
    case Save => attempt.pc.ToSave? && pc == AfterSave(attempt.pc.target)
    case Publish(_) => attempt.pc.ToPublish? && pc == Finished(OutcomeOf(attempt.pc.written))
    case _ => false
  }

  lemma OwnStepIsOurs(cfg: Config, before: State, after: State, n: nat, e: WorkStep, pc: Pc)
    requires n in before.attempts && n in after.attempts && after.attempts[n] == before.attempts[n]
    requires WorkEnabled(before, n, e) && IsOwnStep(cfg, before.attempts[n], e, pc)
    ensures WorkEnabled(after, n, e) && PcAfter(cfg, after, n, e) == pc
  {
  }

  lemma EnabledWork(cfg: Config, s: State, n: nat, e: WorkStep)
    requires WorkEnabled(s, n, e)
    ensures Enabled(cfg, s, Work(n, e)) && Next(cfg, s, Work(n, e)) == WorkNext(cfg, s, n, e)
  {
  }
}
