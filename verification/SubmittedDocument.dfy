/** The two ends of a delivery on one page: what the step system assumes about the document of a request, and
    what the builder and the reader make of it. */
module SubmittedDocument {
  import opened Basics
  import opened Utf16
  import RequestsTable
  import Protocol
  import EventTime
  import opened SubmissionXml
  import opened XmlReader
  import opened SubmissionRoundTrip

  // What the worker builds the document of a request from (delivery-service.ts, step 2).
  function InputOf(id: Ulid, content: RequestsTable.Content, sentAt: int): SubmissionInput {
    UlidIsAscii(id);
    SubmissionInput(Units(id), sentAt, content.senderEmail, content.subject, content.body)
  }

  lemma UlidIsAscii(id: Ulid)
    ensures IsAscii(id)
  {
  }

  // The text at one place of a document, as the recipient finds it.
  function TextAt(found: seq<Found>, path: Path): Option<JsString> {
    if found == [] then None
    else if found[0].Content? && found[0].path == path then Some(found[0].written)
    else TextAt(found[1..], path)
  }

  // What `representable` stands for.
  predicate IsRepresentable(content: RequestsTable.Content) {
    IsXmlText(content.senderEmail) && IsXmlText(content.subject) && IsXmlText(content.body)
  }

  lemma UlidIsPlain(id: Ulid)
    ensures IsAscii(id) && IsPlain(Units(id))
  {
  }

  lemma {:induction false} FirstAt(found: seq<Found>, k: nat)
    requires k < |found| && found[k].Content?
    requires forall j :: 0 <= j < k && found[j].Content? ==> found[j].path != found[k].path
    ensures TextAt(found, found[k].path) == Some(found[k].written)
  {
    if k > 0 {
      FirstAt(found[1..], k - 1);
    }
  }

  const AT_ID: Path := [ROOT, HEADER, MESSAGE_ID]
  const AT_SENT: Path := [ROOT, HEADER, SENT_AT]
  const AT_SENDER: Path := [ROOT, HEADER, SENDER, NAME]
  const AT_RECIPIENT: Path := [ROOT, HEADER, RECIPIENT, NAME]
  const AT_SUBJECT: Path := [ROOT, CONTENT, SUBJECT]
  const AT_TEXT: Path := [ROOT, CONTENT, TEXT]

  lemma PlacesDiffer()
    ensures AT_ID != AT_SENT && AT_SENDER != AT_RECIPIENT && AT_SUBJECT != AT_TEXT
    ensures AT_SENDER !in [AT_ID, AT_SENT, AT_SUBJECT, AT_TEXT]
      && AT_RECIPIENT !in [AT_ID, AT_SENT, AT_SUBJECT, AT_TEXT]
    ensures AT_ID !in [AT_SUBJECT, AT_TEXT] && AT_SENT !in [AT_SUBJECT, AT_TEXT]
  {
    assert |AT_ID[1]| == |AT_SENT[1]| == 6 && |AT_SUBJECT[1]| == |AT_TEXT[1]| == 7;
    assert |AT_ID[2]| == 9 && |AT_SENT[2]| == 6 && |AT_SUBJECT[2]| == 7 && |AT_TEXT[2]| == 4;
    assert |AT_SENDER[2]| == 6 && |AT_RECIPIENT[2]| == 9 && |AT_SENDER| == |AT_RECIPIENT| == 4;
  }

  lemma TextsAt(input: SubmissionInput)
    requires input.Valid()
    ensures
      var f := FieldsOf(input);
      && TextAt(f, AT_ID) == Some(input.messageId) && TextAt(f, AT_SENT) == Some(SentAt(input))
      && TextAt(f, AT_SENDER) == Some(input.senderEmail) && TextAt(f, AT_RECIPIENT) == Some(PHARMACY)
      && TextAt(f, AT_SUBJECT) == Some(input.subject) && TextAt(f, AT_TEXT) == Some(input.text)
  {
    PlacesDiffer();
    hide Units, SentAt, TextAt;
    var f := FieldsOf(input);
    assert |f| == 7 && f[0].Attributes? && f[1] == Content(AT_ID, input.messageId);
    assert f[2] == Content(AT_SENT, SentAt(input)) && f[3] == Content(AT_SENDER, input.senderEmail);
    assert f[4] == Content(AT_RECIPIENT, PHARMACY) && f[5] == Content(AT_SUBJECT, input.subject);
    assert f[6] == Content(AT_TEXT, input.text);
    FirstAt(f, 1);
    FirstAt(f, 2);
    FirstAt(f, 3);
    FirstAt(f, 4);
    FirstAt(f, 5);
    FirstAt(f, 6);
  }

  // A request is written as XML exactly when its three texts can be; the recipient reads from the document the id and
  // the subject that the step system gives it, and every other value of the request at its own place.
  lemma TheStepSystemsDocumentIsTheXml(id: Ulid, content: RequestsTable.Content, sentAt: int)
    requires EventTime.IsTime(sentAt)
    ensures var built := BuildSubmissionXml(InputOf(id, content, sentAt));
      && (built.Built? <==> IsRepresentable(content))
      && (built.Built? ==>
           var doc := Protocol.DocumentOf(id, content);
           var read := ReadDocument(built.xml);
           && read.Some?
           && doc.messageId == Some(id) && TextAt(read.value, [ROOT, HEADER, MESSAGE_ID]) == Some(Units(id))
           && TextAt(read.value, [ROOT, CONTENT, SUBJECT]) == doc.subject
           && TextAt(read.value, [ROOT, CONTENT, TEXT]) == Some(content.body)
           && TextAt(read.value, [ROOT, HEADER, SENDER, NAME]) == Some(content.senderEmail)
           && TextAt(read.value, [ROOT, HEADER, RECIPIENT, NAME]) == Some(PHARMACY))
  {
    var input := InputOf(id, content, sentAt);
    UlidIsPlain(id);
    PlainIsXmlText(Units(id));
    hide BuildSubmissionXml, ReadDocument, FieldsOf, IsXmlText, TextAt, IsPlain;
    BuiltExactlyWhenCarried(input);
    TextsAt(input);
    if BuildSubmissionXml(input).Built? {
      RecipientReadsTheRequest(input);
    }
  }
}
