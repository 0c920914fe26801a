/** backend/src/domain/reply-reader.ts: what the sender makes of the recipient's answer. */
module ReplyReader {
  import opened Basics
  import opened Replies

  // The values read out of a reply document (reply-facts.ts). The body is untrusted: any
  // combination of values may arrive.
  datatype ReplyFacts = ReplyFacts(
    status: ReplyStatus,
    code: Option<string>,
    description: Option<string>,
    messageId: string,
    relatesTo: Option<string>)

  // A body that arrived as text: the values an XML reader finds in it, if it can read it.
  datatype Body = Body(facts: Option<ReplyFacts>)

  datatype BodyProblem = TooLarge | Unreadable

  datatype NoAnswerReason = Timeout | NetworkError

  datatype PartnerAnswer =
    | NoAnswer(why: NoAnswerReason)
    | Answer(httpStatus: int, body: Option<Body>, bodyProblem: Option<BodyProblem>)

  datatype ReadingDecision = Delivered | Refused | Retry

  datatype Reason =
    | NobodyAnswered(why: NoAnswerReason)
    | WordAccepted
    | WordRejected
    | HttpStatus(httpStatus: int)
    | UnexpectedStatus
    | ReplyMissing
    | ReplyBodyProblem(problem: BodyProblem)
    | ReplyInvalid
    | ReplyRuleViolation
    | RelatesToMismatch
    | StatusAndReplyDisagree

  // The reply part of the exchange record; `None` when nobody answered.
  datatype RecordedReply = RecordedReply(httpStatus: int, body: Option<Body>, valid: bool)

  datatype AnswerReading = AnswerReading(
    decision: ReadingDecision,
    reason: Reason,
    reply: Option<RecordedReply>,
    facts: Option<ReplyFacts>)

  datatype BodyInspection = BodyInspection(problem: Option<Reason>, facts: Option<ReplyFacts>)

  const RETRY_CLIENT_ERRORS: set<int> := {401, 403, 408, 429}

  // `validation` is the verdict of reply.xsd on the body; `None` when nothing was checked.
  function InspectBody(body: Option<Body>, bodyProblem: Option<BodyProblem>, validation: Option<bool>): BodyInspection {
    if body.None? then
      BodyInspection(Some(if bodyProblem.Some? then ReplyBodyProblem(bodyProblem.value) else ReplyMissing), None)
    else if validation != Some(true) then
      BodyInspection(Some(ReplyInvalid), None)
    else
      match body.value.facts
      case None => BodyInspection(Some(ReplyInvalid), None)
      case Some(facts) =>
        var rejected := facts.status.Rejected?;
        if facts.code.Some? != rejected || facts.description.Some? != rejected then
          BodyInspection(Some(ReplyRuleViolation), Some(facts))
        else
          BodyInspection(None, Some(facts))
  }

  function FindContradiction(httpStatus: int, facts: Option<ReplyFacts>, ourMessageId: string): Option<Reason> {
    match facts
    case None => None
    case Some(f) =>
      if f.relatesTo.Some? && f.relatesTo.value != ourMessageId then Some(RelatesToMismatch)
      else if (httpStatus == 200 && f.status.Rejected?) || (httpStatus in {400, 422} && f.status.Accepted?) then
        Some(StatusAndReplyDisagree)
      else None
  }

  function ReadAnswer(answer: PartnerAnswer, validation: Option<bool>, ourMessageId: string): AnswerReading {
    match answer
    case NoAnswer(why) => AnswerReading(Retry, NobodyAnswered(why), None, None)
    case Answer(httpStatus, body, bodyProblem) =>
      var inspected := InspectBody(body, bodyProblem, validation);
      var reply := Some(RecordedReply(httpStatus, body, inspected.problem.None?));
      var contradiction := FindContradiction(httpStatus, inspected.facts, ourMessageId);
      if httpStatus == 200 then
        if inspected.problem.Some? then AnswerReading(Retry, inspected.problem.value, reply, inspected.facts)
        else if contradiction.Some? then AnswerReading(Retry, contradiction.value, reply, inspected.facts)
        else AnswerReading(Delivered, WordAccepted, reply, inspected.facts)
      else if httpStatus == 400 || httpStatus == 422 then
        if inspected.problem.None? && contradiction.Some? then
          AnswerReading(Retry, contradiction.value, reply, inspected.facts)
        else
          var reason := if inspected.problem.None? then WordRejected else HttpStatus(httpStatus);
          AnswerReading(Refused, reason, reply, inspected.facts)
      else if httpStatus in RETRY_CLIENT_ERRORS || httpStatus >= 500 then
        AnswerReading(Retry, HttpStatus(httpStatus), reply, inspected.facts)
      else if 400 <= httpStatus < 500 then
        AnswerReading(Refused, HttpStatus(httpStatus), reply, inspected.facts)
      else
        AnswerReading(Retry, UnexpectedStatus, reply, inspected.facts)
  }

  // --- The contract's own table (contracts/partner-api.md, "How the sender reads the answer"),
  //     written as conditions on the answer and not on the steps of the reader.

  // The body is a Reply: checked, readable, and Code and Description exactly when Rejected.
  predicate IsReply(answer: PartnerAnswer, validation: Option<bool>) {
    && answer.Answer?
    && answer.body.Some?
    && validation == Some(true)
    && answer.body.value.facts.Some?
    && var facts := answer.body.value.facts.value;
       facts.code.Some? == facts.description.Some? == facts.status.Rejected?
  }

  predicate AnswersUs(facts: ReplyFacts, ourMessageId: string) {
    facts.relatesTo == None || facts.relatesTo == Some(ourMessageId)
  }

  // "Delivered" needs positive proof: a 200 with a genuine Accepted reply to this very message.
  predicate ProvesDelivery(answer: PartnerAnswer, validation: Option<bool>, ourMessageId: string) {
    && IsReply(answer, validation)
    && answer.httpStatus == 200
    && answer.body.value.facts.value.status == Accepted
    && AnswersUs(answer.body.value.facts.value, ourMessageId)
  }

  // "Refused" needs a final 4xx that no genuine reply calls into question.
  predicate ProvesRefusal(answer: PartnerAnswer, validation: Option<bool>, ourMessageId: string) {
    && answer.Answer?
    && 400 <= answer.httpStatus < 500
    && answer.httpStatus !in {401, 403, 408, 429}
    && (answer.httpStatus in {400, 422} && IsReply(answer, validation) ==>
          && answer.body.value.facts.value.status == Rejected
          && AnswersUs(answer.body.value.facts.value, ourMessageId))
  }

  // What is kept of an answer: its status and body as they came, and whether the body is a genuine reply.
  function KeptOf(answer: PartnerAnswer, validation: Option<bool>): Option<RecordedReply> {
    match answer
    case NoAnswer(_) => None
    case Answer(httpStatus, body, _) => Some(RecordedReply(httpStatus, body, IsReply(answer, validation)))
  }

  lemma TheReaderKeepsTheAnswer(answer: PartnerAnswer, validation: Option<bool>, ourMessageId: string)
    ensures
      var reading := ReadAnswer(answer, validation, ourMessageId);
      && reading.reply == KeptOf(answer, validation)
      && reading.facts ==
           if answer.Answer? && answer.body.Some? && validation == Some(true) then answer.body.value.facts else None
  {
    hide FindContradiction;
    if answer.Answer? && answer.body.Some? && answer.body.value.facts.Some? {
      var facts := answer.body.value.facts.value;
      assert facts.status.Rejected? || facts.status.Accepted?;
    }
  }

  // What a reason says of the answer it is given for.
  predicate IsTrueOf(
    reason: Reason, decision: ReadingDecision, answer: PartnerAnswer, validation: Option<bool>, ourMessageId: string)
  {
    match reason
    case NobodyAnswered(why) => answer == NoAnswer(why)
    case WordAccepted => decision == Delivered
    case WordRejected =>
      decision == Refused && answer.Answer? && answer.httpStatus in {400, 422} && IsReply(answer, validation)
    case HttpStatus(httpStatus) => answer.Answer? && answer.httpStatus == httpStatus && 400 <= httpStatus
    case UnexpectedStatus => answer.Answer? && answer.httpStatus < 400 && answer.httpStatus != 200
    case ReplyMissing => answer.Answer? && answer.body == None && answer.bodyProblem == None
    case ReplyBodyProblem(problem) => answer.Answer? && answer.body == None && answer.bodyProblem == Some(problem)
    case ReplyInvalid =>
      answer.Answer? && answer.body.Some? && (validation != Some(true) || answer.body.value.facts == None)
    case ReplyRuleViolation =>
      && answer.Answer? && answer.body.Some? && validation == Some(true) && answer.body.value.facts.Some?
      && !IsReply(answer, validation)
    case RelatesToMismatch => IsReply(answer, validation) && !AnswersUs(answer.body.value.facts.value, ourMessageId)
    case StatusAndReplyDisagree =>
      && IsReply(answer, validation)
      && answer.httpStatus in (if answer.body.value.facts.value.status.Accepted? then {400, 422} else {200})
  }

  // The reason that is logged is never a wrong one.
  lemma TheReasonIsTrue(answer: PartnerAnswer, validation: Option<bool>, ourMessageId: string)
    ensures
      var reading := ReadAnswer(answer, validation, ourMessageId);
      IsTrueOf(reading.reason, reading.decision, answer, validation, ourMessageId)
  {
    if answer.Answer? && answer.body.Some? && answer.body.value.facts.Some? {
      var facts := answer.body.value.facts.value;
      assert facts.status.Rejected? || facts.status.Accepted?;
      assert facts.relatesTo.Some? ==> (facts.relatesTo.value != ourMessageId <==> !AnswersUs(facts, ourMessageId));
    }
  }

  // The reader is the contract's table, for every answer there can be: no other answer is ever
  // taken for a delivery or a refusal, and everything else is tried again.
  lemma ReaderIsTheContract(answer: PartnerAnswer, validation: Option<bool>, ourMessageId: string)
    ensures
      var decision := ReadAnswer(answer, validation, ourMessageId).decision;
      && (decision == Delivered <==> ProvesDelivery(answer, validation, ourMessageId))
      && (decision == Refused <==> ProvesRefusal(answer, validation, ourMessageId))
      && (decision == Retry <==>
            !ProvesDelivery(answer, validation, ourMessageId) && !ProvesRefusal(answer, validation, ourMessageId))
  {
    if answer.Answer? && answer.body.Some? && answer.body.value.facts.Some? {
      var facts := answer.body.value.facts.value;
      assert facts.relatesTo.Some? ==> (facts.relatesTo.value != ourMessageId <==> !AnswersUs(facts, ourMessageId));
    }
  }
}
