/** backend/src/services/delivery-service.ts: the worker, in its own form, calling into a world
    where every other actor goes on between any two of its calls. */
module DeliveryService {
  import opened Basics
  import opened RequestStatus
  import opened RequestsTable
  import opened ReplyReader
  import opened Protocol
  import opened NoLoss
  import opened Agreement
  import opened Histories
  import opened World
  import opened DeliveryCalls

  // One queue message as the handler hands it over. `body` is absent when it does not decode;
  // `attempt` is the name of this receive in the world.
  datatype DeliveryJob = DeliveryJob(messageId: string, body: Option<Ulid>, receiveCount: nat, attempt: nat)

  datatype DeliveryResult = DeliveryResult(failedMessageIds: seq<string>, counts: map<DeliveryOutcome, nat>)

  // What SQS has handed out for this job.
  predicate IsHandedOut(s: State, job: DeliveryJob) {
    job.body.Some? ==>
      && job.attempt in s.attempts
      && s.attempts[job.attempt].pc == Received
      && s.attempts[job.attempt].id == job.body.value
      && s.attempts[job.attempt].receiveCount == job.receiveCount
  }

  // The job is over, with this outcome.
  predicate HasEnded(s: State, job: DeliveryJob, outcome: DeliveryOutcome) {
    if job.body.Some? then
      && job.attempt in s.attempts
      && s.attempts[job.attempt].id == job.body.value
      && s.attempts[job.attempt].pc == Finished(outcome)
    else outcome == OutUndeliverable
  }

  // What an outcome means in the two systems at the moment it is reported, and from then on.
  ghost predicate IsTrue(s: State, id: Ulid, outcome: DeliveryOutcome) {
    match outcome
    case OutSent =>
      id in s.table.items && s.table.items[id].status == Sent && HasAccepted(s.inbox.rows, id) && id in s.exchanges
    case OutRejected =>
      id in s.table.items && s.table.items[id].status == Rejected && !HasAccepted(s.inbox.rows, id) && id in s.exchanges
    case OutFailed =>
      id in s.table.items && (s.table.items[id].status == Failed || s.table.items[id].Retries() > 0)
    case OutAlreadyDone =>
      id in s.table.items && (IsTerminal(s.table.items[id].status) || s.table.items[id].Retries() > 0)
    case _ => true
  }

  lemma DoneIsTrue(cfg: Config, run: seq<State>, i: nat, n: nat)
    requires IsRunFromTheStart(cfg, run) && i < |run|
    requires n in run[i].attempts && run[i].attempts[n].pc == Finished(OutAlreadyDone)
    ensures IsTrue(run[i], run[i].attempts[n].id, OutAlreadyDone)
  {
    InvAlong(cfg, run, i);
    hide IsRunFromTheStart, RecordsInv, EnqueuerInv, SeenInv;
    assert AttemptOk(run[i].table, run[i].messages, run[i].attempts[n]);
  }

  // The attempt's own status write counts towards the status it reports.
  lemma OwnWriteCounts(cfg: Config, run: seq<State>, i: nat, n: nat)
    requires IsRunFromTheStart(cfg, run) && i < |run|
    requires n in run[i].attempts && run[i].attempts[n].pc.Finished?
    requires run[i].attempts[n].pc.result in {OutSent, OutRejected, OutFailed}
    ensures
      var s := run[i];
      var id := s.attempts[n].id;
      && n in s.entries && OutcomeOf(s.entries[n].status) == s.attempts[n].pc.result
      && id in s.table.items && |Writers(s.entries, id, s.entries[n].status)| > 0
  {
    HistoryAlong(cfg, run, i);
    hide IsRunFromTheStart, IsCounted;
    var s := run[i];
    assert Trail(s, n, s.attempts[n]);
    assert n in Writers(s.entries, s.attempts[n].id, s.entries[n].status);
  }

  lemma WrittenIsTrue(cfg: Config, run: seq<State>, i: nat, n: nat)
    requires IsRunFromTheStart(cfg, run) && i < |run|
    requires n in run[i].attempts && run[i].attempts[n].pc.Finished?
    requires run[i].attempts[n].pc.result in {OutSent, OutRejected, OutFailed}
    ensures IsTrue(run[i], run[i].attempts[n].id, run[i].attempts[n].pc.result)
  {
    hide IsRunFromTheStart, Writers, Announced, HasAccepted, HasRefused, NeverSent, HasSaved;
    var id := run[i].attempts[n].id;
    OwnWriteCounts(cfg, run, i, n);
    EverythingIsCounted(cfg, run, i, id);
    TheTwoSystemsAgree(cfg, run, i, id);
    if run[i].attempts[n].pc.result != OutFailed {
      TheRecordPrecedesTheStatus(cfg, run, i, id);
    }
  }

  // In every reachable state, an attempt that has reported an outcome has reported the truth.
  lemma OutcomesAreTrue(cfg: Config, s: State, n: nat)
    requires Reachable(cfg, s) && n in s.attempts && s.attempts[n].pc.Finished?
    ensures IsTrue(s, s.attempts[n].id, s.attempts[n].pc.result)
  {
    hide Follows, HasAccepted;
    var run :| IsRunFromTheStart(cfg, run) && run[|run| - 1] == s;
    if s.attempts[n].pc.result == OutAlreadyDone {
      DoneIsTrue(cfg, run, |run| - 1, n);
    } else if s.attempts[n].pc.result in {OutSent, OutRejected, OutFailed} {
      WrittenIsTrue(cfg, run, |run| - 1, n);
    }
  }

  class Worker {
    const world: System
    const mine: set<nat>  // the attempts of this invocation

    constructor (world: System, mine: set<nat>)
      ensures this.world == world && this.mine == mine
    {
      this.world, this.mine := world, mine;
    }

    predicate Holds(n: nat)
      reads world
    {
      n in mine && HasAttempts(world.s, mine)
    }

    method Finish(n: nat, status: TerminalStatus) returns (outcome: Result<DeliveryOutcome>, ghost made: seq<CallMade>)
      requires Holds(n) && world.s.attempts[n].pc == ToMark(status)
      modifies world
      ensures Leads(world.cfg, old(world.s), world.s) && Holds(n)
      ensures outcome.Ok? ==> Moves(old(world.s), world.s, mine, n, Finished(outcome.value))
      ensures outcome.Ok? ==> outcome.value in {OutcomeOf(status), OutAlreadyDone}
      ensures outcome.Thrown? ==> StopsAnywhere(old(world.s), world.s, mine, n)
      ensures world.calls == old(world.calls) + made && Finishes(made, n, status, outcome)
      // An announcement that worked is there to be read.
      ensures made[|made| - 1] == NoticeCall(n, status, true) ==>
        n in world.s.notices && world.s.notices[n] == Entry(old(world.s).attempts[n].id, status)
    {
      hide Leads;
      var applied := world.MoveTo(mine, n, status);
      made := [MarkCall(n, status, applied)];
      if applied.Thrown? {
        assert !world.s.attempts[n].pc.Over?;
        assert StopsAnywhere(old(world.s), world.s, mine, n);
        return Thrown, made;
      }
      if !applied.value {
        return Ok(OutAlreadyDone), made;
      }
      ghost var marked := world.s;
      // Best effort: a missing notice changes nothing.
      var published := world.Announce(mine, n, status);
      made := made + [NoticeCall(n, status, published.Ok?)];
      LeadsOn(world.cfg, old(world.s), marked, world.s);
      return Ok(OutcomeOf(status)), made;
    }

    method RecordAndFinish(n: nat, exchange: Exchange, status: TerminalStatus)
      returns (result: Result<DeliveryOutcome>, ghost made: seq<CallMade>)
      requires Holds(n) && world.s.attempts[n].pc == ToSave(exchange.outcome, Some(status))
      modifies world
      ensures Leads(world.cfg, old(world.s), world.s) && Holds(n)
      ensures result.Ok? ==> Moves(old(world.s), world.s, mine, n, Finished(result.value))
      ensures result.Ok? ==> result.value in {OutcomeOf(status), OutAlreadyDone}
      ensures result.Thrown? ==> StopsAnywhere(old(world.s), world.s, mine, n)
      ensures world.calls == old(world.calls) + made && RecordsAndFinishes(made, n, exchange, status, result)
    {
      hide Leads, Finishes;
      // The record comes first.
      var saved := world.SaveExchange(mine, n, exchange);
      made := [SaveCall(n, exchange, saved.Ok?)];
      if saved.Thrown? {
        assert StopsAnywhere(old(world.s), world.s, mine, n);
        return Thrown, made;
      }
      ghost var recorded := world.s;
      ghost var rest;
      result, rest := Finish(n, status);
      made := made + rest;
      assert made[1..] == rest;
      LeadsOn(world.cfg, old(world.s), recorded, world.s);
      if result.Thrown? {
        assert StopsAnywhere(old(world.s), world.s, mine, n);
      }
    }

    method OnRetry(n: nat, receiveCount: nat, exchange: Exchange)
      returns (result: Result<DeliveryOutcome>, ghost made: seq<CallMade>)
      requires Holds(n) && world.s.attempts[n].pc == AfterAnswer(world.cfg, receiveCount, Retry)
      requires exchange.outcome == ORetry
      modifies world
      ensures Leads(world.cfg, old(world.s), world.s) && Holds(n)
      ensures result.Ok? ==> Moves(old(world.s), world.s, mine, n, Finished(result.value))
      ensures result.Ok? ==> result.value in {OutRetry, OutFailed, OutAlreadyDone}
      ensures result == Ok(OutRetry) <==> receiveCount < world.cfg.maxReceiveCount
      ensures result.Thrown? ==> StopsAnywhere(old(world.s), world.s, mine, n)
      ensures world.calls == old(world.calls) + made
      ensures GoesBack(made, n, exchange, receiveCount >= world.cfg.maxReceiveCount, result)
    {
      hide Leads, Finishes;
      var isLastAttempt := receiveCount >= world.cfg.maxReceiveCount;
      // The record of a temporary failure is diagnostics only.
      var saved := world.SaveExchange(mine, n, exchange);
      made := [SaveCall(n, exchange, saved.Ok?)];
      ghost var tried := world.s;
      if saved.Thrown? && world.s.attempts[n].pc.ToSave? {
        world.GoOnWithoutRecord(mine, n);
        LeadsOn(world.cfg, old(world.s), tried, world.s);
      }
      if !isLastAttempt {
        return Ok(OutRetry), made;
      }
      ghost var recorded := world.s;
      ghost var rest;
      result, rest := Finish(n, Failed);
      made := made + rest;
      assert made[1..] == rest;
      LeadsOn(world.cfg, old(world.s), recorded, world.s);
      if result.Thrown? {
        assert StopsAnywhere(old(world.s), world.s, mine, n);
      }
    }

    method Process(n: nat, id: Ulid, receiveCount: nat)
      returns (result: Result<DeliveryOutcome>, ghost made: seq<CallMade>)
      requires Holds(n) && world.s.attempts[n].pc == Received
      requires world.s.attempts[n].id == id && world.s.attempts[n].receiveCount == receiveCount
      modifies world
      ensures Leads(world.cfg, old(world.s), world.s) && Holds(n)
      ensures result.Ok? ==> Moves(old(world.s), world.s, mine, n, Finished(result.value))
      ensures result.Ok? ==> result.value != OutNotAttempted
      ensures result.Thrown? ==> StopsAnywhere(old(world.s), world.s, mine, n)
      // The calls made, one after the other, and that nothing but a broken call ends them early.
      ensures world.calls == old(world.calls) + made && IsAttempt(world.cfg, made, n, id, receiveCount, result)
      ensures result.Thrown? <==> IsBroken(made)
      ensures |made| >= 3 && made[2].SendCall? ==> n in world.s.wire
    {
      hide Leads, ReadAnswer, TakesUp, IsBroken;
      var read := world.FindForDelivery(mine, n);
      made := [ReadCall(n, read)];
      if read.Thrown? {
        assert StopsAnywhere(old(world.s), world.s, mine, n);
        AttemptsBreakExactly(world.cfg, made, n, id, receiveCount, Thrown);
        return Thrown, made;
      }
      var found := read.value;
      if found.None? {
        AttemptsBreakExactly(world.cfg, made, n, id, receiveCount, Ok(OutUndeliverable));
        return Ok(OutUndeliverable), made;
      }
      var request := found.value;
      if IsTerminal(request.status) {
        AttemptsBreakExactly(world.cfg, made, n, id, receiveCount, Ok(OutAlreadyDone));
        return Ok(OutAlreadyDone), made;
      }
      ghost var taken := world.s;
      ghost var rest;
      result, rest := TakeUp(n, id, receiveCount, request);
      made := made + rest;
      assert made[1..] == rest;
      LeadsOn(world.cfg, old(world.s), taken, world.s);
      AttemptsBreakExactly(world.cfg, made, n, id, receiveCount, result);
    }

    // `process` from the document on.
    method TakeUp(n: nat, id: Ulid, receiveCount: nat, request: Item)
      returns (result: Result<DeliveryOutcome>, ghost made: seq<CallMade>)
      requires Holds(n) && !IsTerminal(request.status)
      requires world.s.attempts[n].pc == AfterRead(world.cfg, id, Some(request))
      requires world.s.attempts[n].id == id && world.s.attempts[n].receiveCount == receiveCount
      modifies world
      ensures Leads(world.cfg, old(world.s), world.s) && Holds(n)
      ensures result.Ok? ==> Moves(old(world.s), world.s, mine, n, Finished(result.value))
      ensures result.Ok? ==> result.value != OutNotAttempted
      ensures result.Thrown? ==> StopsAnywhere(old(world.s), world.s, mine, n)
      ensures world.calls == old(world.calls) + made && TakesUp(world.cfg, made, n, id, receiveCount, request, result)
      ensures |made| >= 2 && made[1].SendCall? ==> n in world.s.wire
    {
      hide Leads, Sends, RecordsAndFinishes, AfterRead;
      ReadingLeadsTo(world.cfg, id, request);
      // Text that XML cannot carry ends here, and nobody is called.
      if !world.cfg.representable(id, request.content) {
        result, made := RecordAndFinish(n, Exchange(receiveCount, OUnrepresentable, false, None), Rejected);
        RecordingSendsNothing(made, n, Exchange(receiveCount, OUnrepresentable, false, None), Rejected, result);
        return;
      }
      // Our own copy of submission.xsd.
      if !world.cfg.schemaValid(id, request.content) {
        result, made := RecordAndFinish(n, Exchange(receiveCount, OInvalidRequest, false, None), Rejected);
        RecordingSendsNothing(made, n, Exchange(receiveCount, OInvalidRequest, false, None), Rejected, result);
        return;
      }
      result, made := SendIt(n, id, receiveCount, request);
    }

    // `process` for a document that can be sent.
    method SendIt(n: nat, id: Ulid, receiveCount: nat, request: Item)
      returns (result: Result<DeliveryOutcome>, ghost made: seq<CallMade>)
      requires Holds(n) && world.s.attempts[n].pc == Ready(request.content)
      requires world.s.attempts[n].id == id && world.s.attempts[n].receiveCount == receiveCount
      modifies world
      ensures Leads(world.cfg, old(world.s), world.s) && Holds(n)
      ensures result.Ok? ==> Moves(old(world.s), world.s, mine, n, Finished(result.value))
      ensures result.Ok? ==> result.value != OutNotAttempted
      ensures result.Thrown? ==> StopsAnywhere(old(world.s), world.s, mine, n)
      ensures world.calls == old(world.calls) + made && Sends(world.cfg, made, n, id, receiveCount, request, result)
      ensures |made| >= 2 && made[1].SendCall? ==> n in world.s.wire
    {
      hide Leads, ReadAnswer, FollowsTheAnswer, DocumentOf;
      // Not being able to get the API key is a problem of ours.
      var key := world.GetApiKey(mine, n);
      made := [KeyCall(n, key.Ok?)];
      if key.Thrown? {
        return Thrown, made;
      }
      ghost var ready := world.s;
      var answer, check := world.Send(mine, n, DocumentOf(id, request.content));
      made := made + [SendCall(n, DocumentOf(id, request.content), answer, check)];
      ghost var heard := world.s;
      LeadsOn(world.cfg, old(world.s), ready, heard);
      ghost var rest;
      result, rest := Conclude(n, id, receiveCount, answer, check);
      assert (made + rest)[2..] == rest;
      made := made + rest;
      LeadsOn(world.cfg, old(world.s), heard, world.s);
      LeadsKeepsWire(world.cfg, heard, world.s);
    }

    // `process` from the answer on.
    method Conclude(n: nat, id: Ulid, receiveCount: nat, answer: PartnerAnswer, check: Option<bool>)
      returns (result: Result<DeliveryOutcome>, ghost made: seq<CallMade>)
      requires Holds(n)
      requires world.s.attempts[n].pc == AfterAnswer(world.cfg, receiveCount, ReadAnswer(answer, check, id).decision)
      modifies world
      ensures Leads(world.cfg, old(world.s), world.s) && Holds(n)
      ensures result.Ok? ==> Moves(old(world.s), world.s, mine, n, Finished(result.value))
      ensures result.Ok? ==> result.value != OutNotAttempted
      ensures result.Thrown? ==> StopsAnywhere(old(world.s), world.s, mine, n)
      ensures world.calls == old(world.calls) + made
      ensures FollowsTheAnswer(made, n, id, receiveCount, world.cfg.maxReceiveCount, answer, check, result)
    {
      hide Leads, ReadAnswer, ProvesDelivery, ProvesRefusal, KeptOf, RecordsAndFinishes, GoesBack;
      var reading := ReadAnswer(answer, check, id);
      ReaderIsTheContract(answer, check, id);
      TheReaderKeepsTheAnswer(answer, check, id);
      match reading.decision
      case Delivered =>
        result, made := RecordAndFinish(n, Exchange(receiveCount, ODelivered, true, reading.reply), Sent);
      case Refused =>
        result, made := RecordAndFinish(n, Exchange(receiveCount, ORefused, true, reading.reply), Rejected);
      case Retry =>
        result, made := OnRetry(n, receiveCount, Exchange(receiveCount, ORetry, true, reading.reply));
    }

    method DeliverOne(job: DeliveryJob) returns (outcome: DeliveryOutcome, ghost made: seq<CallMade>)
      requires job.body.Some? ==> Holds(job.attempt)
      requires HasAttempts(world.s, mine) && IsHandedOut(world.s, job)
      modifies world
      ensures Leads(world.cfg, old(world.s), world.s) && HasAttempts(world.s, mine)
      ensures Spares(old(world.s), world.s, mine - {job.attempt})
      ensures HasEnded(world.s, job, outcome) && outcome != OutNotAttempted
      ensures Reachable(world.cfg, old(world.s)) ==>
        Reachable(world.cfg, world.s) && (job.body.Some? ==> IsTrue(world.s, job.body.value, outcome))
      ensures world.calls == old(world.calls) + made && IsJobDone(world.cfg, job, made, outcome)
      ensures outcome == OutError <==> IsBroken(made)
      ensures |made| >= 3 && made[2].SendCall? ==> job.attempt in world.s.wire
    {
      hide Leads, IsTrue, Reachable, IsAttempt, IsBroken;
      if job.body.None? {
        LeadsToItself(world.cfg, world.s);
        NothingBroken();
        return OutUndeliverable, [];
      }
      var n := job.attempt;
      var result;
      result, made := Process(n, job.body.value, job.receiveCount);
      if result.Thrown? {
        // Anything unexpected: the message is reported as failed and comes back later.
        ghost var broken := world.s;
        world.Fail(mine, n);
        LeadsKeepsWire(world.cfg, broken, world.s);
        LeadsOn(world.cfg, old(world.s), broken, world.s);
        outcome := OutError;
      } else {
        outcome := result.value;
        ErrorsAreThrown(world.cfg, made, n, job.body.value, job.receiveCount, result);
      }
      TruthOf(world.cfg, old(world.s), world.s, n);
    }

    // The batch ends with the first message that is not acknowledged: that one and all behind it return.
    method Deliver(jobs: seq<DeliveryJob>)
      returns (result: DeliveryResult, ghost outcomes: seq<DeliveryOutcome>, ghost made: seq<seq<CallMade>>)
      requires HasAttempts(world.s, mine)
      requires forall i :: 0 <= i < |jobs| ==> IsHandedOut(world.s, jobs[i]) && jobs[i].attempt in mine
      requires forall i, j :: 0 <= i < j < |jobs| ==> jobs[i].attempt != jobs[j].attempt
      modifies world
      ensures Leads(world.cfg, old(world.s), world.s) && HasAttempts(world.s, mine)
      ensures |outcomes| == |jobs| && StopsAtTheFirstFailure(outcomes)
      ensures result.failedMessageIds == MessageIds(jobs[FirstStop(outcomes)..])
      ensures result.counts == CountsOf(outcomes)
      ensures forall i :: 0 <= i < |jobs| && outcomes[i] != OutNotAttempted ==> HasEnded(world.s, jobs[i], outcomes[i])
      ensures forall i :: 0 <= i < |jobs| && outcomes[i] == OutNotAttempted ==> IsHandedOut(world.s, jobs[i])
      // The calls made are those of the attempted jobs, job by job.
      ensures |made| == |jobs| && world.calls == old(world.calls) + Flat(made)
      ensures forall i :: 0 <= i < |jobs| ==> IsDealtWith(world.cfg, jobs[i], made[i], outcomes[i])
    {
      hide Leads, HasAttempts, BatchSoFar, KeepsBooks, IsDealtWith, IsBroken, IsJobDone, FirstStop, Flat, IsHandedOut,
        HasEnded, MessageIds, CountsOf, StopsAtTheFirstFailure, Spares, IsTrue, Reachable;
      LeadsToItself(world.cfg, world.s);
      outcomes, made := [], [];
      var counts := NO_COUNTS;
      var failedMessageIds := [];
      var stopped := false;
      EmptyBatch(world.s, jobs);
      for at := 0 to |jobs|
        invariant Leads(world.cfg, old(world.s), world.s) && HasAttempts(world.s, mine)
        invariant BatchSoFar(world.s, jobs, at, outcomes)
        invariant KeepsBooks(jobs, at, outcomes, failedMessageIds, counts, stopped)
        invariant |made| == |outcomes| == at && world.calls == old(world.calls) + Flat(made)
        invariant forall i :: 0 <= i < at ==> IsDealtWith(world.cfg, jobs[i], made[i], outcomes[i])
      {
        var outcome := OutNotAttempted;
        ghost var ofThis := [];
        ghost var before := world.s;
        if !stopped {
          NextIsHandedOut(world.s, jobs, at, outcomes);
          outcome, ofThis := DeliverOne(jobs[at]);
          LeadsOn(world.cfg, old(world.s), before, world.s);
          BatchGoesOn(before, world.s, mine, jobs, at, outcomes, outcome);
        } else {
          BatchSkips(world.s, jobs, at, outcomes);
        }
        BooksGoOn(jobs, at, outcomes, failedMessageIds, counts, stopped, outcome);
        OneMoreDealtWith(world.cfg, jobs[at], ofThis, outcome);
        FlatGrows(made, ofThis);
        outcomes, made := outcomes + [outcome], made + [ofThis];
        counts := counts[outcome := counts[outcome] + 1];
        if outcome !in ACKNOWLEDGED {
          failedMessageIds := failedMessageIds + [jobs[at].messageId];
          stopped := true;
        }
      }
      BatchIsOver(world.s, jobs, outcomes, failedMessageIds, counts, stopped);
      result := DeliveryResult(failedMessageIds, counts);
    }
  }

  lemma ReadingLeadsTo(cfg: Config, id: Ulid, item: Item)
    requires !IsTerminal(item.status)
    ensures AfterRead(cfg, id, Some(item)) ==
      if !cfg.representable(id, item.content) then ToSave(OUnrepresentable, Some(Rejected))
      else if !cfg.schemaValid(id, item.content) then ToSave(OInvalidRequest, Some(Rejected))
      else Ready(item.content)
  {
  }

  lemma RecordingSendsNothing(
    made: seq<CallMade>, n: nat, exchange: Exchange, status: TerminalStatus, result: Result<DeliveryOutcome>)
    requires RecordsAndFinishes(made, n, exchange, status, result)
    ensures |made| >= 2 ==> !made[1].SendCall?
  {
  }

  // --- The calls of a batch --------------------------------------------------------------------------

  // The calls of a job that was attempted, and its outcome: "error" exactly if one of them broke.
  predicate IsJobDone(cfg: Config, job: DeliveryJob, made: seq<CallMade>, outcome: DeliveryOutcome) {
    if job.body.None? then made == [] && outcome == OutUndeliverable
    else
      IsAttempt(cfg, made, job.attempt, job.body.value, job.receiveCount,
                if outcome == OutError then Thrown else Ok(outcome))
  }

  // A job that was not attempted costs no call.
  ghost predicate IsDealtWith(cfg: Config, job: DeliveryJob, made: seq<CallMade>, outcome: DeliveryOutcome) {
    if outcome == OutNotAttempted then made == []
    else IsJobDone(cfg, job, made, outcome) && (outcome == OutError <==> IsBroken(made))
  }

  function Flat(made: seq<seq<CallMade>>): seq<CallMade> {
    if made == [] then [] else Flat(made[..|made| - 1]) + made[|made| - 1]
  }

  lemma FlatGrows(made: seq<seq<CallMade>>, more: seq<CallMade>)
    ensures Flat(made + [more]) == Flat(made) + more
  {
    assert (made + [more])[..|made|] == made;
  }

  lemma OneMoreDealtWith(cfg: Config, job: DeliveryJob, made: seq<CallMade>, outcome: DeliveryOutcome)
    requires if outcome == OutNotAttempted then made == []
      else IsJobDone(cfg, job, made, outcome) && (outcome == OutError <==> IsBroken(made))
    ensures IsDealtWith(cfg, job, made, outcome)
  {
    hide IsJobDone, IsBroken;
  }

  lemma NothingBroken()
    ensures !IsBroken([])
  {
  }

  // "error" is the outcome of a thrown attempt only.
  lemma ErrorsAreThrown(
    cfg: Config, made: seq<CallMade>, n: nat, id: Ulid, receiveCount: nat, result: Result<DeliveryOutcome>)
    requires IsAttempt(cfg, made, n, id, receiveCount, result)
    ensures result != Ok(OutError)
  {
    hide ProvesDelivery, ProvesRefusal, KeptOf, DocumentOf;
  }

  lemma TruthOf(cfg: Config, before: State, after: State, n: nat)
    requires Leads(cfg, before, after) && n in after.attempts && after.attempts[n].pc.Finished?
    ensures Reachable(cfg, before) ==>
      Reachable(cfg, after) && IsTrue(after, after.attempts[n].id, after.attempts[n].pc.result)
  {
    hide Leads, Reachable, IsTrue;
    if Reachable(cfg, before) {
      ReachableLeads(cfg, before, after);
      OutcomesAreTrue(cfg, after, n);
    }
  }

  // --- A batch, job by job ---------------------------------------------------------------------------

  ghost predicate BatchSoFar(s: State, jobs: seq<DeliveryJob>, at: nat, outcomes: seq<DeliveryOutcome>) {
    && |outcomes| == at <= |jobs|
    && (forall i :: 0 <= i < at && outcomes[i] != OutNotAttempted ==> HasEnded(s, jobs[i], outcomes[i]))
    && (forall i :: 0 <= i < |jobs| && (i < at ==> outcomes[i] == OutNotAttempted) ==> IsHandedOut(s, jobs[i]))
  }

  ghost predicate KeepsBooks(
    jobs: seq<DeliveryJob>, at: nat, outcomes: seq<DeliveryOutcome>,
    failedMessageIds: seq<string>, counts: map<DeliveryOutcome, nat>, stopped: bool)
  {
    && |outcomes| == at <= |jobs|
    && StopsAtTheFirstFailure(outcomes)
    && (stopped <==> FirstStop(outcomes) < at)
    && failedMessageIds == MessageIds(jobs[FirstStop(outcomes)..at])
    && counts == CountsOf(outcomes)
  }

  lemma EmptyBatch(s: State, jobs: seq<DeliveryJob>)
    requires forall i :: 0 <= i < |jobs| ==> IsHandedOut(s, jobs[i])
    ensures BatchSoFar(s, jobs, 0, []) && KeepsBooks(jobs, 0, [], [], NO_COUNTS, false) && Flat([]) == []
  {
    assert jobs[0..0] == [];
  }

  lemma NextIsHandedOut(s: State, jobs: seq<DeliveryJob>, at: nat, outcomes: seq<DeliveryOutcome>)
    requires at < |jobs| && BatchSoFar(s, jobs, at, outcomes)
    ensures IsHandedOut(s, jobs[at])
  {
  }

  // Working on one job leaves the others of the batch as they are.
  lemma BatchGoesOn(
    before: State, after: State, mine: set<nat>, jobs: seq<DeliveryJob>, at: nat,
    outcomes: seq<DeliveryOutcome>, outcome: DeliveryOutcome)
    requires at < |jobs| && BatchSoFar(before, jobs, at, outcomes)
    requires Spares(before, after, mine - {jobs[at].attempt})
    requires forall i :: 0 <= i < |jobs| ==> jobs[i].attempt in mine
    requires forall i, j :: 0 <= i < j < |jobs| ==> jobs[i].attempt != jobs[j].attempt
    requires HasEnded(after, jobs[at], outcome) && outcome != OutNotAttempted
    ensures BatchSoFar(after, jobs, at + 1, outcomes + [outcome])
  {
  }

  lemma BatchSkips(s: State, jobs: seq<DeliveryJob>, at: nat, outcomes: seq<DeliveryOutcome>)
    requires at < |jobs| && BatchSoFar(s, jobs, at, outcomes)
    ensures BatchSoFar(s, jobs, at + 1, outcomes + [OutNotAttempted])
  {
  }

  lemma BooksGoOn(
    jobs: seq<DeliveryJob>, at: nat, outcomes: seq<DeliveryOutcome>,
    failedMessageIds: seq<string>, counts: map<DeliveryOutcome, nat>, stopped: bool, outcome: DeliveryOutcome)
    requires at < |jobs| && KeepsBooks(jobs, at, outcomes, failedMessageIds, counts, stopped)
    requires stopped <==> outcome == OutNotAttempted
    ensures outcome in counts
    ensures
      var goesBack := outcome !in ACKNOWLEDGED;
      KeepsBooks(jobs, at + 1, outcomes + [outcome],
        if goesBack then failedMessageIds + [jobs[at].messageId] else failedMessageIds,
        counts[outcome := counts[outcome] + 1], stopped || goesBack)
  {
    hide FirstStop, StopsAtTheFirstFailure, CountsOf, MessageIds;
    CountsGrow(outcomes, outcome);
    StopGrows(outcomes, outcome);
    var k := FirstStop(outcomes + [outcome]);
    if k <= at {
      IdsGrow(jobs, k, at);
    } else {
      assert jobs[k..at + 1] == [];
      assert jobs[FirstStop(outcomes)..at] == [];
    }
  }

  lemma BatchIsOver(
    s: State, jobs: seq<DeliveryJob>, outcomes: seq<DeliveryOutcome>,
    failedMessageIds: seq<string>, counts: map<DeliveryOutcome, nat>, stopped: bool)
    requires BatchSoFar(s, jobs, |jobs|, outcomes)
    requires KeepsBooks(jobs, |jobs|, outcomes, failedMessageIds, counts, stopped)
    ensures |outcomes| == |jobs| && StopsAtTheFirstFailure(outcomes)
    ensures failedMessageIds == MessageIds(jobs[FirstStop(outcomes)..]) && counts == CountsOf(outcomes)
    ensures forall i :: 0 <= i < |jobs| && outcomes[i] != OutNotAttempted ==> HasEnded(s, jobs[i], outcomes[i])
    ensures forall i :: 0 <= i < |jobs| && outcomes[i] == OutNotAttempted ==> IsHandedOut(s, jobs[i])
  {
    assert jobs[FirstStop(outcomes)..] == jobs[FirstStop(outcomes)..|jobs|];
  }

  // --- The shape of a batch --------------------------------------------------------------------------

  const NO_COUNTS: map<DeliveryOutcome, nat> := map[
    OutSent := 0, OutRejected := 0, OutAlreadyDone := 0, OutRetry := 0,
    OutFailed := 0, OutError := 0, OutUndeliverable := 0, OutNotAttempted := 0]

  function CountsOf(outcomes: seq<DeliveryOutcome>): (counts: map<DeliveryOutcome, nat>)
    ensures counts.Keys == NO_COUNTS.Keys
    ensures forall outcome :: outcome in counts ==> counts[outcome] == multiset(outcomes)[outcome]
  {
    map outcome | outcome in NO_COUNTS :: multiset(outcomes)[outcome]
  }

  lemma EveryOutcomeIsCounted(outcome: DeliveryOutcome)
    ensures outcome in NO_COUNTS
  {
    match outcome
    case OutSent => case OutRejected => case OutFailed => case OutAlreadyDone =>
    case OutRetry => case OutError => case OutUndeliverable => case OutNotAttempted =>
  }

  lemma CountsGrow(outcomes: seq<DeliveryOutcome>, outcome: DeliveryOutcome)
    ensures outcome in NO_COUNTS
    ensures CountsOf(outcomes + [outcome]) == CountsOf(outcomes)[outcome := CountsOf(outcomes)[outcome] + 1]
  {
    hide *;
    EveryOutcomeIsCounted(outcome);
  }

  // How many messages of the batch are done with before the first one that goes back.
  function FirstStop(outcomes: seq<DeliveryOutcome>): (k: nat)
    ensures k <= |outcomes|
    ensures forall i :: 0 <= i < k ==> outcomes[i] in ACKNOWLEDGED
    ensures k < |outcomes| ==> outcomes[k] !in ACKNOWLEDGED
  {
    if outcomes == [] || outcomes[0] !in ACKNOWLEDGED then 0 else 1 + FirstStop(outcomes[1..])
  }

  // Every message behind the first one that goes back was not tried, and no other was spared.
  predicate StopsAtTheFirstFailure(outcomes: seq<DeliveryOutcome>) {
    forall i :: 0 <= i < |outcomes| ==> (outcomes[i] == OutNotAttempted <==> FirstStop(outcomes) < i)
  }

  lemma {:induction false} FirstStopIs(outcomes: seq<DeliveryOutcome>, k: nat)
    requires k <= |outcomes| && (forall i :: 0 <= i < k ==> outcomes[i] in ACKNOWLEDGED)
    requires k < |outcomes| ==> outcomes[k] !in ACKNOWLEDGED
    ensures FirstStop(outcomes) == k
  {
    if k > 0 {
      FirstStopIs(outcomes[1..], k - 1);
    }
  }

  lemma StopGrows(outcomes: seq<DeliveryOutcome>, outcome: DeliveryOutcome)
    requires StopsAtTheFirstFailure(outcomes) && (outcome == OutNotAttempted <==> FirstStop(outcomes) < |outcomes|)
    ensures StopsAtTheFirstFailure(outcomes + [outcome])
    ensures FirstStop(outcomes + [outcome]) ==
      FirstStop(outcomes) + (if FirstStop(outcomes) == |outcomes| && outcome in ACKNOWLEDGED then 1 else 0)
  {
    hide FirstStop;
    var more := outcomes + [outcome];
    var k := FirstStop(outcomes);
    var next := if k == |outcomes| && outcome in ACKNOWLEDGED then k + 1 else k;
    assert more[|outcomes|] == outcome;
    assert forall i :: 0 <= i < |outcomes| ==> more[i] == outcomes[i];
    FirstStopIs(more, next);
    forall i | 0 <= i < |more| ensures more[i] == OutNotAttempted <==> next < i {
      if i < |outcomes| {
        assert outcomes[i] == OutNotAttempted <==> k < i;
      }
    }
  }

  function MessageIds(jobs: seq<DeliveryJob>): (ids: seq<string>)
    ensures |ids| == |jobs|
    ensures forall i :: 0 <= i < |jobs| ==> ids[i] == jobs[i].messageId
  {
    seq(|jobs|, i requires 0 <= i < |jobs| => jobs[i].messageId)
  }

  lemma IdsGrow(jobs: seq<DeliveryJob>, start: nat, at: nat)
    requires start <= at < |jobs|
    ensures MessageIds(jobs[start..at + 1]) == MessageIds(jobs[start..at]) + [jobs[at].messageId]
  {
  }
}
