/** partner-sim/app/replies.py: the recipient's Reply document, as the values it carries. */
module Replies {
  import opened Basics

  const DESCRIPTION_MAX := 500

  datatype ReplyStatus = Accepted | Rejected

  datatype RejectCode = MalformedXml | SchemaInvalid | RecipientRejected

  // `uuid` stands for the fresh id that every newly built reply carries.
  datatype Reply = Reply(
    uuid: nat,
    relatesTo: Option<string>,
    status: ReplyStatus,
    code: Option<RejectCode>,
    description: Option<string>)

  function AcceptedReply(uuid: nat, relatesTo: Option<string>): Reply {
    Reply(uuid, relatesTo, Accepted, None, None)
  }

  function RejectedReply(uuid: nat, relatesTo: Option<string>, code: RejectCode, description: string): Reply {
    var cut := if |description| <= DESCRIPTION_MAX then description else description[..DESCRIPTION_MAX];
    Reply(uuid, relatesTo, Rejected, Some(code), Some(cut))
  }

  // reply.xsd: a related id is a ULID and a description has 1 to 500 characters.
  predicate MatchesReplySchema(reply: Reply) {
    && (reply.relatesTo.Some? ==> IsUlid(reply.relatesTo.value))
    && (reply.description.Some? ==> 1 <= |reply.description.value| <= DESCRIPTION_MAX)
  }

  // What the schema leaves to the code: a rejection gives a code and a description, an acceptance neither.
  predicate KeepsTheRule(reply: Reply) {
    reply.code.Some? == reply.description.Some? == reply.status.Rejected?
  }

  datatype Violation = CodeMissing | CodePresent | DescriptionMissing | DescriptionPresent

  method RuleViolations(reply: Reply) returns (problems: seq<Violation>)
    ensures problems == [] <==> KeepsTheRule(reply)
    ensures CodeMissing in problems <==> reply.status.Rejected? && reply.code.None?
    ensures CodePresent in problems <==> reply.status.Accepted? && reply.code.Some?
    ensures DescriptionMissing in problems <==> reply.status.Rejected? && reply.description.None?
    ensures DescriptionPresent in problems <==> reply.status.Accepted? && reply.description.Some?
  {
    var rejected := reply.status.Rejected?;
    problems := [];
    if reply.code.Some? != rejected {
      problems := problems + [if rejected then CodeMissing else CodePresent];
    }
    if reply.description.Some? != rejected {
      problems := problems + [if rejected then DescriptionMissing else DescriptionPresent];
    }
  }
}
