/** What the calls of one delivery attempt say about it: which call may follow which, what a failed one does, and what
    the outcome rests on. */
module DeliveryCalls {
  import opened Basics
  import opened RequestStatus
  import opened RequestsTable
  import opened ReplyReader
  import opened Protocol
  import opened World

  // The status write and its announcement.
  predicate Finishes(made: seq<CallMade>, n: nat, status: TerminalStatus, result: Result<DeliveryOutcome>) {
    && made != [] && made[0].MarkCall? && made[0].n == n && made[0].status == status
    && match made[0].applied
       case Thrown => |made| == 1 && result == Thrown
       case Ok(false) => |made| == 1 && result == Ok(OutAlreadyDone)
       case Ok(true) =>
         |made| == 2 && made[1].NoticeCall? && made[1].n == n && made[1].status == status
         && result == Ok(OutcomeOf(status))
  }

  // The record first, and only then the status.
  predicate RecordsAndFinishes(
    made: seq<CallMade>, n: nat, exchange: Exchange, status: TerminalStatus, result: Result<DeliveryOutcome>)
  {
    && made != [] && made[0].SaveCall? && made[0].n == n && made[0].exchange == exchange
    && if made[0].worked then Finishes(made[1..], n, status, result) else |made| == 1 && result == Thrown
  }

  // A temporary failure: its record may fail, and the status is written on the last attempt only.
  predicate GoesBack(
    made: seq<CallMade>, n: nat, exchange: Exchange, isLastAttempt: bool, result: Result<DeliveryOutcome>)
  {
    && made != [] && made[0].SaveCall? && made[0].n == n && made[0].exchange == exchange
    && if isLastAttempt then Finishes(made[1..], n, Failed, result) else |made| == 1 && result == Ok(OutRetry)
  }

  // What follows the recipient's answer is what the answer proves.
  predicate FollowsTheAnswer(
    made: seq<CallMade>, n: nat, id: Ulid, receiveCount: nat, max: nat,
    answer: PartnerAnswer, check: Option<bool>, result: Result<DeliveryOutcome>)
  {
    var kept := KeptOf(answer, check);
    if ProvesDelivery(answer, check, id) then
      RecordsAndFinishes(made, n, Exchange(receiveCount, ODelivered, true, kept), Sent, result)
    else if ProvesRefusal(answer, check, id) then
      RecordsAndFinishes(made, n, Exchange(receiveCount, ORefused, true, kept), Rejected, result)
    else GoesBack(made, n, Exchange(receiveCount, ORetry, true, kept), receiveCount >= max, result)
  }

  predicate IsDeliverable(cfg: Config, id: Ulid, item: Item) {
    item.status in {Created, Queued} && cfg.representable(id, item.content) && cfg.schemaValid(id, item.content)
  }

  // The key first, then the document, and then what the answer says.
  predicate Sends(
    cfg: Config, made: seq<CallMade>, n: nat, id: Ulid, receiveCount: nat, item: Item, result: Result<DeliveryOutcome>)
  {
    && made != [] && made[0].KeyCall? && made[0].n == n
    && if !made[0].worked then |made| == 1 && result == Thrown
       else
         && |made| >= 2 && made[1].SendCall? && made[1].n == n && made[1].document == DocumentOf(id, item.content)
         && FollowsTheAnswer(
              made[2..], n, id, receiveCount, cfg.maxReceiveCount, made[1].answer, made[1].check, result)
  }

  // What follows the read of a request that is not finished.
  predicate TakesUp(
    cfg: Config, made: seq<CallMade>, n: nat, id: Ulid, receiveCount: nat, item: Item, result: Result<DeliveryOutcome>)
  {
    if !cfg.representable(id, item.content) then
      RecordsAndFinishes(made, n, Exchange(receiveCount, OUnrepresentable, false, None), Rejected, result)
    else if !cfg.schemaValid(id, item.content) then
      RecordsAndFinishes(made, n, Exchange(receiveCount, OInvalidRequest, false, None), Rejected, result)
    else Sends(cfg, made, n, id, receiveCount, item, result)
  }

  // All calls of an attempt, in order, and what it came to.
  predicate IsAttempt(
    cfg: Config, made: seq<CallMade>, n: nat, id: Ulid, receiveCount: nat, result: Result<DeliveryOutcome>)
  {
    && made != [] && made[0].ReadCall? && made[0].n == n
    && match made[0].found
       case Thrown => |made| == 1 && result == Thrown
       case Ok(None) => |made| == 1 && result == Ok(OutUndeliverable)
       case Ok(Some(item)) =>
         if item.status in {Sent, Rejected, Failed} then |made| == 1 && result == Ok(OutAlreadyDone)
         else TakesUp(cfg, made[1..], n, id, receiveCount, item, result)
  }

  // A failure that ends the attempt: any, except that of an announcement or of the record of a temporary failure.
  predicate Breaks(call: CallMade) {
    match call
    case ReadCall(_, found) => found.Thrown?
    case KeyCall(_, worked) => !worked
    case SaveCall(_, exchange, worked) => !worked && exchange.outcome != ORetry
    case MarkCall(_, _, applied) => applied.Thrown?
    case _ => false
  }

  predicate IsBroken(made: seq<CallMade>) {
    exists i :: 0 <= i < |made| && Breaks(made[i])
  }

  lemma FirstOrLater(made: seq<CallMade>)
    requires made != []
    ensures IsBroken(made) <==> Breaks(made[0]) || IsBroken(made[1..])
  {
    if IsBroken(made[1..]) {
      var i :| 0 <= i < |made[1..]| && Breaks(made[1..][i]);
      assert Breaks(made[i + 1]);
    }
    if IsBroken(made) && !Breaks(made[0]) {
      var i :| 0 <= i < |made| && Breaks(made[i]);
      assert Breaks(made[1..][i - 1]);
    }
  }

  lemma FinishBreaks(made: seq<CallMade>, n: nat, status: TerminalStatus, result: Result<DeliveryOutcome>)
    requires Finishes(made, n, status, result)
    ensures result.Thrown? <==> IsBroken(made)
  {
    FirstOrLater(made);
  }

  lemma RecordBreaks(
    made: seq<CallMade>, n: nat, exchange: Exchange, status: TerminalStatus, result: Result<DeliveryOutcome>)
    requires RecordsAndFinishes(made, n, exchange, status, result) && exchange.outcome != ORetry
    ensures result.Thrown? <==> IsBroken(made)
  {
    hide Finishes;
    FirstOrLater(made);
    if made[0].worked {
      hide IsBroken;
      FinishBreaks(made[1..], n, status, result);
    }
  }

  lemma RetryBreaks(
    made: seq<CallMade>, n: nat, exchange: Exchange, isLastAttempt: bool, result: Result<DeliveryOutcome>)
    requires GoesBack(made, n, exchange, isLastAttempt, result) && exchange.outcome == ORetry
    ensures result.Thrown? <==> IsBroken(made)
  {
    hide Finishes;
    FirstOrLater(made);
    if isLastAttempt {
      hide IsBroken;
      FinishBreaks(made[1..], n, Failed, result);
    }
  }

  lemma AnswerBreaks(
    made: seq<CallMade>, n: nat, id: Ulid, receiveCount: nat, max: nat,
    answer: PartnerAnswer, check: Option<bool>, result: Result<DeliveryOutcome>)
    requires FollowsTheAnswer(made, n, id, receiveCount, max, answer, check, result)
    ensures result.Thrown? <==> IsBroken(made)
  {
    hide RecordsAndFinishes, GoesBack, IsBroken, ProvesDelivery, ProvesRefusal, KeptOf;
    var kept := KeptOf(answer, check);
    if ProvesDelivery(answer, check, id) {
      RecordBreaks(made, n, Exchange(receiveCount, ODelivered, true, kept), Sent, result);
    } else if ProvesRefusal(answer, check, id) {
      RecordBreaks(made, n, Exchange(receiveCount, ORefused, true, kept), Rejected, result);
    } else {
      RetryBreaks(made, n, Exchange(receiveCount, ORetry, true, kept), receiveCount >= max, result);
    }
  }

  lemma TakingUpBreaks(
    cfg: Config, made: seq<CallMade>, n: nat, id: Ulid, receiveCount: nat, item: Item, result: Result<DeliveryOutcome>)
    requires TakesUp(cfg, made, n, id, receiveCount, item, result)
    ensures result.Thrown? <==> IsBroken(made)
  {
    hide RecordsAndFinishes, FollowsTheAnswer, DocumentOf;
    if !cfg.representable(id, item.content) {
      hide IsBroken;
      RecordBreaks(made, n, Exchange(receiveCount, OUnrepresentable, false, None), Rejected, result);
    } else if !cfg.schemaValid(id, item.content) {
      hide IsBroken;
      RecordBreaks(made, n, Exchange(receiveCount, OInvalidRequest, false, None), Rejected, result);
    } else {
      FirstOrLater(made);
      if made[0].worked {
        FirstOrLater(made[1..]);
        assert made[1..][1..] == made[2..];
        hide IsBroken;
        AnswerBreaks(
          made[2..], n, id, receiveCount, cfg.maxReceiveCount, made[1].answer, made[1].check, result);
      }
    }
  }

  // An attempt ends in an error exactly when one of the calls it depends on broke.
  lemma AttemptsBreakExactly(
    cfg: Config, made: seq<CallMade>, n: nat, id: Ulid, receiveCount: nat, result: Result<DeliveryOutcome>)
    requires IsAttempt(cfg, made, n, id, receiveCount, result)
    ensures result.Thrown? <==> IsBroken(made)
  {
    hide TakesUp;
    FirstOrLater(made);
    if made[0].found.Ok? && made[0].found.value.Some? && !IsTerminal(made[0].found.value.value.status) {
      hide IsBroken;
      TakingUpBreaks(cfg, made[1..], n, id, receiveCount, made[0].found.value.value, result);
    }
  }

  // If nothing breaks, a request that is not finished and can be delivered is sent, as the document that carries its
  // id and its subject; and what it comes to is what the answer proves.
  lemma WhatCanBeDeliveredIsSent(
    cfg: Config, made: seq<CallMade>, n: nat, id: Ulid, receiveCount: nat, item: Item, result: Result<DeliveryOutcome>)
    requires IsAttempt(cfg, made, n, id, receiveCount, result) && !IsBroken(made)
    requires made[0].found == Ok(Some(item)) && IsDeliverable(cfg, id, item)
    ensures
      && |made| >= 4 && made[2].SendCall? && made[2].n == n && made[2].document.Parsed?
      && made[2].document.messageId == Some(id) && made[2].document.subject == Some(item.content.subject)
      && var answer, check := made[2].answer, made[2].check;
         if ProvesDelivery(answer, check, id) then result in {Ok(OutSent), Ok(OutAlreadyDone)}
         else if ProvesRefusal(answer, check, id) then result in {Ok(OutRejected), Ok(OutAlreadyDone)}
         else if receiveCount < cfg.maxReceiveCount then result == Ok(OutRetry)
         else result in {Ok(OutFailed), Ok(OutAlreadyDone)}
  {
    hide ProvesDelivery, ProvesRefusal, KeptOf;
    FirstOrLater(made);
    FirstOrLater(made[1..]);
    FirstOrLater(made[1..][1..]);
    FirstOrLater(made[1..][1..][1..]);
    assert made[1..][0] == made[1] && made[1..][1] == made[2] && made[1..][2..] == made[3..];
    assert made[1..][1..] == made[2..] && made[2..][1..] == made[3..];
  }

  // Whatever outcome is reported rests on an answer that proves it, except for a request that could not be sent.
  lemma OutcomesRestOnAnswers(
    cfg: Config, made: seq<CallMade>, n: nat, id: Ulid, receiveCount: nat, result: Result<DeliveryOutcome>)
    requires IsAttempt(cfg, made, n, id, receiveCount, result)
    ensures result == Ok(OutSent) ==>
      exists c :: c in made && c.SendCall? && ProvesDelivery(c.answer, c.check, id)
    ensures result == Ok(OutRejected) ==>
      || (exists c :: c in made && c.SendCall? && ProvesRefusal(c.answer, c.check, id))
      || (made[0].found.Ok? && made[0].found.value.Some? && !IsDeliverable(cfg, id, made[0].found.value.value))
    ensures result in {Ok(OutRetry), Ok(OutFailed)} ==> exists c ::
      && c in made && c.SendCall? && !ProvesDelivery(c.answer, c.check, id) && !ProvesRefusal(c.answer, c.check, id)
      && (result == Ok(OutFailed) <==> receiveCount >= cfg.maxReceiveCount)
  {
    hide ProvesDelivery, ProvesRefusal, KeptOf, DocumentOf;
    if |made| >= 3 && made[2].SendCall? {
      assert made[1..][1] == made[2] && made[1..][2..] == made[3..] && made[2] in made;
    }
  }
}
