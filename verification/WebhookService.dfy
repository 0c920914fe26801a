/** backend/src/services/webhook-service.ts and domain/webhook-signature.ts: from one signed call to the
    stored decision. The HMAC is any function of token, timestamp text and body; XML parsing and the
    schema are judgements that come with the body. */
module WebhookService {
  import opened Basics
  import opened RequestsTable
  import opened EventTime
  import opened Strings

  const MAX_BODY_BYTES := 65_536
  const MAX_CLOCK_DIFFERENCE_SECONDS := 300

  predicate IsHex64(s: string) {
    |s| == 64 && forall i :: 0 <= i < 64 ==> IsDigit(s[i]) || 'a' <= s[i] <= 'f'
  }

  type Mac = s: string | IsHex64(s) witness seq(64, i => '0')

  // The text of the elements of a DecisionEvent.
  datatype Facts = Facts(eventId: string, occurredAt: string, relatesTo: Ulid, decision: Decision)

  datatype Document = NotReadable | BreaksSchema | WithoutFacts | Event(facts: Facts)

  datatype Call = Call(body: seq<bv8>, timestamp: Option<string>, signature: Option<string>, isXml: bool)

  datatype SignatureProblem =
    MissingTimestamp | BadTimestamp | TimestampOutOfRange | MissingSignature | BadSignatureFormat | SignatureMismatch

  datatype HeaderCheck = Headers(timestamp: string, signature: Mac) | Problem(problem: SignatureProblem)

  // `checkSignatureHeaders`: the shape of the two headers and the age of the call, without the token.
  function CheckSignatureHeaders(timestamp: Option<string>, signature: Option<string>, now: int): HeaderCheck {
    if timestamp.None? then Problem(MissingTimestamp)
    else if timestamp.value == "" || !AllDigits(timestamp.value) then Problem(BadTimestamp)
    else if !IsClose(Value(timestamp.value), now) then Problem(TimestampOutOfRange)
    else if signature.None? then Problem(MissingSignature)
    else if |signature.value| != 67 || signature.value[..3] != "v1=" || !IsHex64(signature.value[3..]) then
      Problem(BadSignatureFormat)
    else Headers(timestamp.value, signature.value[3..])
  }

  predicate IsClose(seconds: int, now: int) {
    -MAX_CLOCK_DIFFERENCE_SECONDS <= seconds - now <= MAX_CLOCK_DIFFERENCE_SECONDS
  }

  datatype Outcome = Stored(outcome: RecordOutcome)
    | TooLarge | Unauthorized(problem: SignatureProblem) | UnsupportedMedia | Malformed | SchemaInvalid

  type Hmac = (string, string, seq<bv8>) -> Mac

  predicate IsNumeral(s: string) {
    s != "" && AllDigits(s)
  }

  predicate IsTimely(call: Call, now: int) {
    call.timestamp.Some? && IsNumeral(call.timestamp.value) && now - 300 <= Value(call.timestamp.value) <= now + 300
  }

  ghost predicate LooksSigned(call: Call) {
    exists mac: Mac :: call.signature == Some("v1=" + mac)
  }

  // What the contract asks of a signed call: digits within 300 seconds of our clock, and the signature that the
  // token makes of exactly this timestamp text and this body.
  predicate IsAuthentic(call: Call, now: int, token: string, hmac: Hmac) {
    && IsTimely(call, now)
    && call.signature == Some("v1=" + hmac(token, call.timestamp.value, call.body))
  }

  // A readable, valid event whose time can be compared.
  predicate IsEvent(document: Document) {
    document.Event? && ParseOccurredAt(document.facts.occurredAt).Some?
  }

  function StoredFrom(facts: Facts): StoredDecision
    requires ParseOccurredAt(facts.occurredAt).Some?
  {
    StoredDecision(facts.decision, facts.eventId, ParseOccurredAt(facts.occurredAt).value)
  }

  class WebhookService {
    const table: DynamoTable
    const hmac: Hmac

    constructor (table: DynamoTable, hmac: Hmac)
      ensures this.table == table && this.hmac == hmac
    {
      this.table, this.hmac := table, hmac;
    }

    // `receive`. The token is read only for a call that looks signed; reading it, or the table, may fail.
    method Receive(call: Call, document: Document, now: int, token: Result<string>, tableAnswers: bool)
      returns (r: Result<Outcome>)
      modifies table
      // A body that is too large is refused before anything else is looked at.
      ensures r == Ok(TooLarge) <==> |call.body| > 65_536
      // A call whose headers do not even look signed is refused for their first fault, whether or not the token can be
      // read: it never costs a read.
      ensures var checked := CheckSignatureHeaders(call.timestamp, call.signature, now);
        |call.body| <= MAX_BODY_BYTES && checked.Problem? ==> r == Ok(Unauthorized(checked.problem))
      // A call that looks signed costs the read of the token, and that may fail.
      ensures |call.body| <= MAX_BODY_BYTES && token.Thrown? ==>
        (r == Thrown <==> IsTimely(call, now) && LooksSigned(call))
      // The fault that is named is the first one there is.
      ensures r.Ok? && r.value.Unauthorized? ==>
        match r.value.problem
        case MissingTimestamp => call.timestamp == None
        case BadTimestamp => call.timestamp.Some? && !IsNumeral(call.timestamp.value)
        case TimestampOutOfRange =>
          && call.timestamp.Some? && IsNumeral(call.timestamp.value)
          && (Value(call.timestamp.value) < now - 300 || now + 300 < Value(call.timestamp.value))
        case MissingSignature => IsTimely(call, now) && call.signature == None
        case BadSignatureFormat => IsTimely(call, now) && call.signature.Some? && !LooksSigned(call)
        case SignatureMismatch => IsTimely(call, now) && LooksSigned(call) && token.Ok?
      // Anything else that is not authentic is refused, or ends in the failed read of the token.
      ensures |call.body| <= MAX_BODY_BYTES && token.Ok? ==>
        ((r.Ok? && r.value.Unauthorized?) <==> !IsAuthentic(call, now, token.value, hmac))
      // An authentic call is refused by its media type, then its document, or reaches the register.
      ensures |call.body| <= MAX_BODY_BYTES && token.Ok? && IsAuthentic(call, now, token.value, hmac) ==>
        && (r == Ok(UnsupportedMedia) <==> !call.isXml)
        && (r == Ok(Malformed) <==> call.isXml && document.NotReadable?)
        && (r == Ok(SchemaInvalid) <==> call.isXml && !document.NotReadable? && !IsEvent(document))
        && (call.isXml && IsEvent(document) && !tableAnswers ==>
              r == Thrown && table.Contents() == old(table.Contents()))
        && (call.isXml && IsEvent(document) && tableAnswers ==>
             r.Ok? && r.value.Stored? && (table.Contents(), r.value.outcome)
               == RecordDecisionOn(old(table.Contents()), document.facts.relatesTo, StoredFrom(document.facts)))
      // What the register answers, by the event's own fields and what the request holds.
      ensures r.Ok? && r.value.Stored? ==>
        && IsEvent(document)
        && var facts, items := document.facts, old(table.items);
        var at, id := ParseOccurredAt(facts.occurredAt).value, facts.relatesTo;
        && (r.value.outcome == UnknownRequest <==> id !in items)
        && (r.value.outcome == Duplicate <==> id in items && HoldsEvent(items[id], facts.eventId))
        && (r.value.outcome == Applied <==> id in items && IsOlder(items[id], facts.eventId, at))
        // What it then holds is the decision, the id and the time of this event, and nothing else is changed.
        && (r.value.outcome == Applied ==> DecisionIs(items, table.items, id, facts.decision, facts.eventId, at))
      // Nothing is written for any other call.
      ensures table.Contents() != old(table.Contents()) ==>
        && r == Ok(Stored(Applied)) && IsEvent(document)
        && token.Ok? && IsAuthentic(call, now, token.value, hmac)
    {
      hide ParseOccurredAt, Value;
      if |call.body| > MAX_BODY_BYTES {
        return Ok(TooLarge);
      }
      var checked := CheckSignatureHeaders(call.timestamp, call.signature, now);
      if checked.Problem? {
        SignedExactly(call.signature);
        return Ok(Unauthorized(checked.problem));
      }
      assert LooksSigned(call) by {
        var header := call.signature.value;
        assert header == header[..3] + header[3..] == "v1=" + checked.signature;
      }
      if token.Thrown? {
        return Thrown;
      }
      if hmac(token.value, checked.timestamp, call.body) != checked.signature {
        SignedExactly(call.signature);
        return Ok(Unauthorized(SignatureMismatch));
      }
      if !call.isXml {
        return Ok(UnsupportedMedia);
      }
      if document.NotReadable? {
        return Ok(Malformed);
      }
      if !document.Event? || ParseOccurredAt(document.facts.occurredAt).None? {
        return Ok(SchemaInvalid);
      }
      if !tableAnswers {
        return Thrown;
      }
      var outcome := table.RecordDecision(document.facts.relatesTo, StoredFrom(document.facts));
      r := Ok(Stored(outcome));
    }
  }

  // A header that is "v1=" and a signature passes the format check, and holds no other signature.
  lemma SignedExactly(header: Option<string>)
    ensures forall mac: Mac :: header == Some("v1=" + mac) ==>
      |header.value| == 67 && header.value[..3] == "v1=" && header.value[3..] == mac
  {
  }

  // --- The other side: partner-sim/app/webhook.py ----------------------------------------------

  // `sign` and the headers of one POST, at `clock` whole seconds.
  function SignedCall(body: seq<bv8>, clock: nat, token: string, hmac: Hmac): Call {
    Call(body, Some(Decimal(clock)), Some("v1=" + hmac(token, Decimal(clock), body)), true)
  }

  lemma {:induction false} DecimalReadsBack(n: nat)
    ensures AllDigits(Decimal(n)) && Value(Decimal(n)) == n
  {
    if n < 10 {
      ValueGrows([], Digit(n));
      assert [] + [Digit(n)] == Decimal(n);
    } else {
      DecimalReadsBack(n / 10);
      ValueGrows(Decimal(n / 10), Digit(n % 10));
    }
  }

  // A call the recipient signs is authentic exactly as long as the two clocks are 300 seconds apart at most.
  lemma TheRecipientsCallsAreAuthentic(body: seq<bv8>, clock: nat, now: int, token: string, hmac: Hmac)
    ensures IsAuthentic(SignedCall(body, clock, token, hmac), now, token, hmac) <==> -300 <= clock - now <= 300
  {
    DecimalReadsBack(clock);
  }
}
