/** backend/src/domain/submission-xml.ts: a request as the Submission document. */
module SubmissionXml {
  import opened Utf16
  import EventTime

  const TAB: CodeUnit := 0x09
  const LF: CodeUnit := 0x0A
  const CR: CodeUnit := 0x0D
  const SPACE: CodeUnit := 0x20
  const AMP: CodeUnit := 0x26
  const SLASH: CodeUnit := 0x2F
  const SEMICOLON: CodeUnit := 0x3B
  const LT: CodeUnit := 0x3C
  const GT: CodeUnit := 0x3E
  const BRACKET: CodeUnit := 0x5D

  // --- XML_CHARACTERS: the Char production, on whole code points -------------------------------

  // A code point of one unit that XML 1.0 allows. Those of two units are all allowed.
  predicate IsXmlUnit(u: CodeUnit) {
    u == TAB || u == LF || u == CR || 0x20 <= u < 0xD800 || 0xE000 <= u <= 0xFFFD
  }

  predicate IsXmlText(s: JsString) {
    s == []
    || (|s| >= 2 && IsHigh(s[0]) && IsLow(s[1]) && IsXmlText(s[2..]))
    || (IsXmlUnit(s[0]) && IsXmlText(s[1..]))
  }

  // The code points of a text: surrogate pairs are one, and half a pair is itself.
  function CodePoints(s: JsString): seq<nat> {
    if s == [] then []
    else if |s| >= 2 && IsHigh(s[0]) && IsLow(s[1]) then
      [0x10000 + (s[0] as nat - 0xD800) * 0x400 + (s[1] as nat - 0xDC00)] + CodePoints(s[2..])
    else [s[0] as nat] + CodePoints(s[1..])
  }

  // Char, in section 2.2 of XML 1.0.
  predicate IsChar(point: nat) {
    || point in {0x9, 0xA, 0xD} || 0x20 <= point <= 0xD7FF || 0xE000 <= point <= 0xFFFD
    || 0x10000 <= point <= 0x10FFFF
  }

  predicate AreChars(points: seq<nat>) {
    forall i :: 0 <= i < |points| ==> IsChar(points[i])
  }

  // XML can carry a text exactly if every one of its code points is a character of XML 1.0.
  lemma {:induction false} XmlTextIsChars(s: JsString)
    ensures IsXmlText(s) <==> AreChars(CodePoints(s))
  {
    hide AreChars;
    if s == [] {
      OneMoreChar(0x20, []);
    } else if |s| >= 2 && IsHigh(s[0]) && IsLow(s[1]) {
      XmlTextIsChars(s[2..]);
      OneMoreChar(0x10000 + (s[0] as nat - 0xD800) * 0x400 + (s[1] as nat - 0xDC00), CodePoints(s[2..]));
    } else {
      XmlTextIsChars(s[1..]);
      OneMoreChar(s[0] as nat, CodePoints(s[1..]));
    }
  }

  lemma OneMoreChar(point: nat, points: seq<nat>)
    ensures AreChars([]) && (AreChars([point] + points) <==> IsChar(point) && AreChars(points))
  {
    var all := [point] + points;
    if AreChars(all) {
      assert IsChar(all[0]);
      forall i | 0 <= i < |points| ensures IsChar(points[i]) {
        assert IsChar(all[i + 1]);
      }
    }
  }

  // --- escapeText ------------------------------------------------------------------------------

  // `replaceAll` with a search text of one unit.
  function ReplaceAll(s: JsString, unit: CodeUnit, to: JsString): JsString {
    if s == [] then []
    else (if s[0] == unit then to else [s[0]]) + ReplaceAll(s[1..], unit, to)
  }

  const AMP_REF: JsString := [AMP, 0x61, 0x6D, 0x70, SEMICOLON]      // &amp;
  const LT_REF: JsString := [AMP, 0x6C, 0x74, SEMICOLON]             // &lt;
  const GT_REF: JsString := [AMP, 0x67, 0x74, SEMICOLON]             // &gt;
  const CR_REF: JsString := [AMP, 0x23, 0x31, 0x33, SEMICOLON]       // &#13;

  function EscapeText(text: JsString): JsString {
    ReplaceAll(ReplaceAll(ReplaceAll(ReplaceAll(text, AMP, AMP_REF), LT, LT_REF), GT, GT_REF), CR, CR_REF)
  }

  // What the four replacements in a row come to: every unit on its own.
  function EscapeUnit(u: CodeUnit): JsString {
    if u == AMP then AMP_REF
    else if u == LT then LT_REF
    else if u == GT then GT_REF
    else if u == CR then CR_REF
    else [u]
  }

  function Escaped(text: JsString): JsString {
    if text == [] then [] else EscapeUnit(text[0]) + Escaped(text[1..])
  }

  lemma {:induction false} ReplaceSpreads(a: JsString, b: JsString, unit: CodeUnit, to: JsString)
    ensures ReplaceAll(a + b, unit, to) == ReplaceAll(a, unit, to) + ReplaceAll(b, unit, to)
  {
    if a == [] {
      assert a + b == b;
    } else {
      assert (a + b)[1..] == a[1..] + b;
      ReplaceSpreads(a[1..], b, unit, to);
    }
  }

  lemma {:induction false} ReplaceLeaves(s: JsString, unit: CodeUnit, to: JsString)
    requires unit !in s
    ensures ReplaceAll(s, unit, to) == s
  {
    if s != [] {
      ReplaceLeaves(s[1..], unit, to);
    }
  }

  lemma {:induction false} EscapeSpreads(a: JsString, b: JsString)
    ensures EscapeText(a + b) == EscapeText(a) + EscapeText(b)
  {
    hide ReplaceAll;
    var a1, b1 := ReplaceAll(a, AMP, AMP_REF), ReplaceAll(b, AMP, AMP_REF);
    ReplaceSpreads(a, b, AMP, AMP_REF);
    var a2, b2 := ReplaceAll(a1, LT, LT_REF), ReplaceAll(b1, LT, LT_REF);
    ReplaceSpreads(a1, b1, LT, LT_REF);
    var a3, b3 := ReplaceAll(a2, GT, GT_REF), ReplaceAll(b2, GT, GT_REF);
    ReplaceSpreads(a2, b2, GT, GT_REF);
    ReplaceSpreads(a3, b3, CR, CR_REF);
  }

  lemma ReplaceOne(u: CodeUnit, unit: CodeUnit, to: JsString)
    ensures ReplaceAll([u], unit, to) == if u == unit then to else [u]
  {
    assert [u][1..] == [] && to + [] == to;
  }

  lemma EscapeOne(u: CodeUnit)
    ensures EscapeText([u]) == EscapeUnit(u)
  {
    hide ReplaceAll;
    ReplaceOne(u, AMP, AMP_REF);
    ReplaceOne(u, LT, LT_REF);
    ReplaceOne(u, GT, GT_REF);
    ReplaceOne(u, CR, CR_REF);
    ReplaceLeaves(AMP_REF, LT, LT_REF);
    ReplaceLeaves(AMP_REF, GT, GT_REF);
    ReplaceLeaves(AMP_REF, CR, CR_REF);
    ReplaceLeaves(LT_REF, GT, GT_REF);
    ReplaceLeaves(LT_REF, CR, CR_REF);
    ReplaceLeaves(GT_REF, CR, CR_REF);
  }

  // The order of the four replacements is right: together they escape every unit exactly once.
  lemma {:induction false} ChainedIsOnePass(text: JsString)
    ensures EscapeText(text) == Escaped(text)
  {
    if text == [] {
    } else {
      var head, tail := text[..1], text[1..];
      assert text == head + tail && head == [text[0]];
      hide EscapeText;
      EscapeSpreads(head, tail);
      EscapeOne(text[0]);
      ChainedIsOnePass(tail);
    }
  }

  lemma {:induction false} OnePassHoldsNoMarkup(text: JsString)
    ensures LT !in Escaped(text) && GT !in Escaped(text) && CR !in Escaped(text)
  {
    if text != [] {
      OnePassHoldsNoMarkup(text[1..]);
    }
  }

  // No text can hold a tag or a line end that a parser would change.
  lemma EscapedHoldsNoMarkup(text: JsString)
    ensures LT !in EscapeText(text) && GT !in EscapeText(text) && CR !in EscapeText(text)
  {
    hide EscapeText, Escaped;
    ChainedIsOnePass(text);
    OnePassHoldsNoMarkup(text);
  }

  // --- buildSubmissionXml ----------------------------------------------------------------------

  const NAMESPACE := "urn:aws-starter:submission:v1"
  const RECIPIENT_NAME := "Pharmacy"

  // `sentAt` is a Date that holds a time.
  datatype SubmissionInput = SubmissionInput(
    messageId: JsString, sentAt: int, senderEmail: JsString, subject: JsString, text: JsString)
  {
    ghost predicate Valid() { EventTime.IsTime(sentAt) }
  }

  datatype SubmissionXml = Built(xml: JsString) | Unrepresentable(elements: seq<string>)

  const PHARMACY := Units(RECIPIENT_NAME)

  function Values(input: SubmissionInput): seq<(string, JsString)> {
    [("MessageId", input.messageId), ("Name", input.senderEmail), ("Name", PHARMACY),
     ("Subject", input.subject), ("Text", input.text)]
  }

  function RefusedOf(value: (string, JsString)): seq<string> {
    if IsXmlText(value.1) then [] else [value.0]
  }

  // The names of the elements whose value XML cannot carry, in order.
  function Refused(values: seq<(string, JsString)>): seq<string> {
    if values == [] then []
    else RefusedOf(values[0]) + Refused(values[1..])
  }

  // `[...new Set(elements)]`: each name once, where it first occurred.
  function Distinct(names: seq<string>): seq<string> {
    if names == [] then []
    else
      var before, last := Distinct(names[..|names| - 1]), names[|names| - 1];
      if last in before then before else before + [last]
  }

  function StartTag(name: JsString): JsString { [LT] + name + [GT] }
  function EndTag(name: JsString): JsString { [LT, SLASH] + name + [GT] }

  const INDENT: JsString := [SPACE, SPACE]

  // `lines.join("\n")`
  function Join(lines: seq<JsString>): JsString
    requires lines != []
  {
    if |lines| == 1 then lines[0] else lines[0] + [LF] + Join(lines[1..])
  }

  const ROOT := Units("Submission")
  const HEADER := Units("Header")
  const MESSAGE_ID := Units("MessageId")
  const SENT_AT := Units("SentAt")
  const SENDER := Units("Sender")
  const RECIPIENT := Units("Recipient")
  const NAME := Units("Name")
  const CONTENT := Units("Content")
  const SUBJECT := Units("Subject")
  const TEXT := Units("Text")
  const DECLARATION := Units("<?xml version=\"1.0\" encoding=\"UTF-8\"?>")
  const ROOT_ATTRIBUTES := Units(" xmlns=\"") + Units(NAMESPACE) + Units("\" version=\"1\"")

  function Element(name: JsString, content: JsString): JsString {
    StartTag(name) + content + EndTag(name)
  }

  lemma IsoIsAscii(t: int)
    requires EventTime.IsTime(t)
    ensures IsAscii(EventTime.ToIso(t)) && |EventTime.ToIso(t)| <= 27
  {
    hide EventTime.ToIso;
    EventTime.IsoIsPlain(t);
  }

  // `sentAt.toISOString()`, which is not escaped.
  function SentAt(input: SubmissionInput): JsString
    requires input.Valid()
  {
    hide EventTime.ToIso;
    IsoIsAscii(input.sentAt);
    Units(EventTime.ToIso(input.sentAt))
  }

  function Lines(input: SubmissionInput): seq<JsString>
    requires input.Valid()
  {
    [ DECLARATION,
      StartTag(ROOT + ROOT_ATTRIBUTES),
      INDENT + StartTag(HEADER),
      INDENT + INDENT + Element(MESSAGE_ID, EscapeText(input.messageId)),
      INDENT + INDENT + Element(SENT_AT, SentAt(input)),
      INDENT + INDENT + Element(SENDER, Element(NAME, EscapeText(input.senderEmail))),
      INDENT + INDENT + Element(RECIPIENT, Element(NAME, EscapeText(PHARMACY))),
      INDENT + EndTag(HEADER),
      INDENT + StartTag(CONTENT),
      INDENT + INDENT + Element(SUBJECT, EscapeText(input.subject)),
      INDENT + INDENT + Element(TEXT, EscapeText(input.text)),
      INDENT + EndTag(CONTENT),
      EndTag(ROOT) ]
  }

  function BuildSubmissionXml(input: SubmissionInput): SubmissionXml
    requires input.Valid()
  {
    var elements := Refused(Values(input));
    if elements != [] then Unrepresentable(Distinct(elements)) else Built(Join(Lines(input)))
  }

  lemma {:induction false} DistinctKeepsTheNames(names: seq<string>)
    ensures forall name :: name in Distinct(names) <==> name in names
    ensures forall i, j :: 0 <= i < j < |Distinct(names)| ==> Distinct(names)[i] != Distinct(names)[j]
  {
    if names != [] {
      var before, last := names[..|names| - 1], names[|names| - 1];
      DistinctKeepsTheNames(before);
      assert forall name :: name in names <==> name in before || name == last;
    }
  }

  predicate IsCarried(input: SubmissionInput) {
    IsXmlText(input.messageId) && IsXmlText(input.senderEmail) && IsXmlText(input.subject) && IsXmlText(input.text)
  }

  // A document is built exactly for values that XML can carry; otherwise the answer names, once each, exactly the
  // elements whose value it cannot carry.
  lemma BuiltExactlyWhenCarried(input: SubmissionInput)
    requires input.Valid()
    ensures BuildSubmissionXml(input).Built? <==> IsCarried(input)
    ensures !IsCarried(input) ==>
      var names := BuildSubmissionXml(input).elements;
      && ("MessageId" in names <==> !IsXmlText(input.messageId))
      && ("Name" in names <==> !IsXmlText(input.senderEmail))
      && ("Subject" in names <==> !IsXmlText(input.subject))
      && ("Text" in names <==> !IsXmlText(input.text))
      && (forall name :: name in names ==> name in ["MessageId", "Name", "Subject", "Text"])
      && (forall i, j :: 0 <= i < j < |names| ==> names[i] != names[j])
  {
    hide IsXmlText, Refused, Distinct, Values, Units, BuildSubmissionXml;
    PharmacyIsXmlText();
    TheRefused(input);
    WhatIsBuilt(input);
    DistinctKeepsTheNames(Refused(Values(input)));
  }

  lemma PharmacyIsXmlText()
    ensures IsXmlText(PHARMACY)
  {
    PlainIsXmlText(PHARMACY);
  }

  lemma WhatIsBuilt(input: SubmissionInput)
    requires input.Valid()
    ensures var elements := Refused(Values(input));
      && (BuildSubmissionXml(input).Built? <==> elements == [])
      && (elements != [] ==> BuildSubmissionXml(input).elements == Distinct(elements))
  {
    hide Refused, Distinct, Values, Lines, Join;
  }

  lemma NothingRefused()
    ensures Refused([]) == []
  {
  }

  lemma TheRefused(input: SubmissionInput)
    requires IsXmlText(PHARMACY)
    ensures var names := Refused(Values(input));
      && (names == [] <==> IsCarried(input))
      && ("MessageId" in names <==> !IsXmlText(input.messageId))
      && ("Name" in names <==> !IsXmlText(input.senderEmail))
      && ("Subject" in names <==> !IsXmlText(input.subject))
      && ("Text" in names <==> !IsXmlText(input.text))
      && (forall name :: name in names ==> name in ["MessageId", "Name", "Subject", "Text"])
  {
    hide IsXmlText, Refused, Units;
    RefusedOfFive(Values(input));
  }

  lemma RefusedOfFive(v: seq<(string, JsString)>)
    requires |v| == 5
    ensures Refused(v) == RefusedOf(v[0]) + (RefusedOf(v[1]) + (RefusedOf(v[2]) + (RefusedOf(v[3]) + RefusedOf(v[4]))))
  {
    hide Refused, RefusedOf;
    assert v[5..] == [] && v[0..] == v && RefusedOf(v[4]) + [] == RefusedOf(v[4]);
    NothingRefused();
    RefusedStep(v, 4);
    RefusedStep(v, 3);
    RefusedStep(v, 2);
    RefusedStep(v, 1);
    RefusedStep(v, 0);
  }

  lemma RefusedStep(values: seq<(string, JsString)>, k: nat)
    requires k < |values|
    ensures Refused(values[k..]) == RefusedOf(values[k]) + Refused(values[k + 1..])
  {
    hide IsXmlText;
    assert values[k..][1..] == values[k + 1..];
  }

  // Units below 0x80 that are characters of XML.
  predicate IsPlain(s: JsString) {
    forall i :: 0 <= i < |s| ==> 0x20 <= s[i] < 0x80 || s[i] == LF
  }

  lemma {:induction false} PlainIsXmlText(s: JsString)
    requires IsPlain(s)
    ensures IsXmlText(s)
  {
    if s != [] {
      PlainIsXmlText(s[1..]);
    }
  }

  // --- The size of a document ------------------------------------------------------------------

  lemma {:induction false} EscapedSize(text: JsString)
    ensures Utf8Length(EscapeText(text)) <= 5 * |text|
  {
    if text == [] {
    } else {
      ChainedIsOnePass(text);
      ChainedIsOnePass(text[1..]);
      hide EscapeText;
      EscapedSize(text[1..]);
      var head := EscapeUnit(text[0]);
      assert Utf8Length(head) <= 5 by {
        if |head| == 1 { assert head[1..] == []; } else { Utf8OfAscii(head); }
      }
      Utf8Joins(head, Escaped(text[1..]));
    }
  }

  lemma ElementSize(name: JsString, content: JsString, bytes: nat)
    requires IsPlain(name) && Utf8Length(content) <= bytes
    ensures Utf8Length(Element(name, content)) <= 2 * |name| + 5 + bytes
  {
    Utf8OfAscii(StartTag(name));
    Utf8OfAscii(EndTag(name));
    hide Utf8Length;
    Utf8Joins(StartTag(name) + content, EndTag(name));
    Utf8Joins(StartTag(name), content);
  }

  lemma IndentedSize(line: JsString, bytes: nat)
    requires Utf8Length(line) <= bytes
    ensures Utf8Length(INDENT + INDENT + line) <= 4 + bytes
  {
    Utf8OfAscii(INDENT + INDENT);
    Utf8Joins(INDENT + INDENT, line);
  }

  function TotalSize(lines: seq<JsString>): nat {
    if lines == [] then 0 else Utf8Length(lines[0]) + 1 + TotalSize(lines[1..])
  }

  lemma {:induction false} JoinedSize(lines: seq<JsString>)
    requires lines != []
    ensures Utf8Length(Join(lines)) <= TotalSize(lines)
  {
    if |lines| > 1 {
      JoinedSize(lines[1..]);
      Utf8Joins(lines[0] + [LF], Join(lines[1..]));
      Utf8Joins(lines[0], [LF]);
      Utf8OfAscii([LF]);
    }
  }

  // The markup, the time and the recipient's name take at most 402 bytes.
  const FIXED_BYTES := 402

  function Units5(input: SubmissionInput): nat {
    5 * (|input.messageId| + |input.senderEmail| + |input.subject| + |input.text|)
  }

  lemma TagSize(name: JsString)
    requires IsPlain(name)
    ensures Utf8Length(StartTag(name)) == |name| + 2 && Utf8Length(EndTag(name)) == |name| + 3
    ensures Utf8Length(INDENT + StartTag(name)) == |name| + 4 && Utf8Length(INDENT + EndTag(name)) == |name| + 5
  {
    hide Utf8Length;
    Utf8OfAscii(StartTag(name));
    Utf8OfAscii(EndTag(name));
    Utf8OfAscii(INDENT + StartTag(name));
    Utf8OfAscii(INDENT + EndTag(name));
  }

  lemma PlainText(s: string)
    requires IsAscii(s) && forall i :: 0 <= i < |s| ==> ' ' <= s[i]
    ensures IsPlain(Units(s))
  {
  }

  lemma HeaderNamesArePlain()
    ensures IsPlain(HEADER) && IsPlain(MESSAGE_ID) && IsPlain(SENT_AT) && IsPlain(SENDER) && IsPlain(RECIPIENT)
  {
    PlainText("Header");
    PlainText("MessageId");
    PlainText("SentAt");
    PlainText("Sender");
    PlainText("Recipient");
  }

  lemma OtherNamesArePlain()
    ensures IsPlain(ROOT) && IsPlain(NAME) && IsPlain(CONTENT) && IsPlain(SUBJECT) && IsPlain(TEXT)
  {
    PlainText("Submission");
    PlainText("Name");
    PlainText("Content");
    PlainText("Subject");
    PlainText("Text");
  }

  lemma AttributesArePlain()
    ensures IsPlain(ROOT_ATTRIBUTES)
  {
    hide IsPlain;
    PlainText(" xmlns=\"");
    PlainText(NAMESPACE);
    PlainText("\" version=\"1\"");
    hide Units;
    PlainJoins(Units(" xmlns=\""), Units(NAMESPACE));
    PlainJoins(Units(" xmlns=\"") + Units(NAMESPACE), Units("\" version=\"1\""));
  }

  lemma NamesArePlain()
    ensures IsPlain(ROOT) && IsPlain(ROOT_ATTRIBUTES) && IsPlain(HEADER) && IsPlain(MESSAGE_ID) && IsPlain(SENT_AT)
    ensures IsPlain(SENDER) && IsPlain(RECIPIENT) && IsPlain(NAME) && IsPlain(CONTENT) && IsPlain(SUBJECT)
      && IsPlain(TEXT)
  {
    hide IsPlain, Units;
    HeaderNamesArePlain();
    OtherNamesArePlain();
    AttributesArePlain();
  }

  lemma TheDeclarationsSize()
    ensures Utf8Length(DECLARATION) == 38
  {
    hide Utf8Length;
    Utf8OfAscii(DECLARATION);
  }

  lemma NamesLengths()
    ensures |ROOT| == 10 && |ROOT_ATTRIBUTES| == 50 && |HEADER| == 6 && |CONTENT| == 7
  {
  }

  lemma RootIsPlain()
    ensures IsPlain(ROOT + ROOT_ATTRIBUTES)
  {
    hide Units, IsPlain;
    NamesArePlain();
    PlainJoins(ROOT, ROOT_ATTRIBUTES);
  }

  lemma PlainJoins(a: JsString, b: JsString)
    requires IsPlain(a) && IsPlain(b)
    ensures IsPlain(a + b)
  {
  }

  lemma FixedLines(input: SubmissionInput)
    requires input.Valid()
    ensures var l := Lines(input);
      Utf8Length(l[0]) + Utf8Length(l[1]) + Utf8Length(l[2]) + Utf8Length(l[7]) + Utf8Length(l[8]) + Utf8Length(l[11])
        + Utf8Length(l[12]) <= 160
  {
    hide Utf8Length, Units, Element, EscapeText, SentAt, StartTag, EndTag, IsPlain;
    TheDeclarationsSize();
    NamesArePlain();
    NamesLengths();
    RootIsPlain();
    TagSize(ROOT + ROOT_ATTRIBUTES);
    TagSize(HEADER);
    TagSize(CONTENT);
    TagSize(ROOT);
  }

  lemma FieldLines(input: SubmissionInput)
    requires input.Valid()
    ensures var l := Lines(input);
      && Utf8Length(l[3]) <= 27 + 5 * |input.messageId| && Utf8Length(l[4]) <= 48
      && Utf8Length(l[5]) <= 34 + 5 * |input.senderEmail| && Utf8Length(l[6]) <= 80
      && Utf8Length(l[9]) <= 23 + 5 * |input.subject| && Utf8Length(l[10]) <= 17 + 5 * |input.text|
  {
    hide Utf8Length, EscapeText, Element, SentAt, StartTag, EndTag;
    NamesArePlain();
    EscapedSize(input.messageId);
    ElementSize(MESSAGE_ID, EscapeText(input.messageId), 5 * |input.messageId|);
    IndentedSize(Element(MESSAGE_ID, EscapeText(input.messageId)), 23 + 5 * |input.messageId|);
    SentAtSize(input);
    ElementSize(SENT_AT, SentAt(input), 27);
    IndentedSize(Element(SENT_AT, SentAt(input)), 44);
    PartySize(SENDER, input.senderEmail);
    PartySize(RECIPIENT, PHARMACY);
    EscapedSize(input.subject);
    ElementSize(SUBJECT, EscapeText(input.subject), 5 * |input.subject|);
    IndentedSize(Element(SUBJECT, EscapeText(input.subject)), 19 + 5 * |input.subject|);
    EscapedSize(input.text);
    ElementSize(TEXT, EscapeText(input.text), 5 * |input.text|);
    IndentedSize(Element(TEXT, EscapeText(input.text)), 13 + 5 * |input.text|);
  }

  lemma SentAtSize(input: SubmissionInput)
    requires input.Valid()
    ensures Utf8Length(SentAt(input)) <= 27
  {
    hide EventTime.ToIso, Utf8Length;
    IsoIsAscii(input.sentAt);
    Utf8OfAscii(SentAt(input));
  }

  lemma PartySize(party: JsString, name: JsString)
    requires IsPlain(party) && IsPlain(NAME)
    ensures Utf8Length(INDENT + INDENT + Element(party, Element(NAME, EscapeText(name)))) <= 22 + 2 * |party|
      + 5 * |name|
  {
    hide Utf8Length, EscapeText, Element, IsPlain;
    EscapedSize(name);
    ElementSize(NAME, EscapeText(name), 5 * |name|);
    ElementSize(party, Element(NAME, EscapeText(name)), 13 + 5 * |name|);
    IndentedSize(Element(party, Element(NAME, EscapeText(name))), 18 + 2 * |party| + 5 * |name|);
  }

  lemma TotalOfThirteen(l: seq<JsString>)
    requires |l| == 13
    ensures TotalSize(l) == 13
      + Utf8Length(l[0]) + Utf8Length(l[1]) + Utf8Length(l[2]) + Utf8Length(l[3]) + Utf8Length(l[4]) + Utf8Length(l[5])
      + Utf8Length(l[6]) + Utf8Length(l[7]) + Utf8Length(l[8]) + Utf8Length(l[9]) + Utf8Length(l[10])
      + Utf8Length(l[11])
      + Utf8Length(l[12])
  {
    hide Utf8Length;
    assert l[12..] == [l[12]] && TotalSize(l[12..]) == Utf8Length(l[12]) + 1 by { assert l[12..][1..] == []; }
    TotalStep(l, 11); TotalStep(l, 10); TotalStep(l, 9); TotalStep(l, 8); TotalStep(l, 7); TotalStep(l, 6);
    TotalStep(l, 5); TotalStep(l, 4); TotalStep(l, 3); TotalStep(l, 2); TotalStep(l, 1); TotalStep(l, 0);
    assert l[0..] == l;
  }

  lemma TotalStep(l: seq<JsString>, k: nat)
    requires k < |l|
    ensures TotalSize(l[k..]) == Utf8Length(l[k]) + 1 + TotalSize(l[k + 1..])
  {
    assert l[k..][1..] == l[k + 1..];
  }

  lemma BuiltIsJoined(input: SubmissionInput)
    requires input.Valid()
    ensures |Lines(input)| == 13
    ensures BuildSubmissionXml(input).Built? ==> BuildSubmissionXml(input).xml == Join(Lines(input))
    ensures Units5(input) == 5 * (|input.messageId| + |input.senderEmail| + |input.subject| + |input.text|)
    ensures FIXED_BYTES == 402
  {
    hide Units, Element, EscapeText, SentAt, StartTag, EndTag, Refused, Join;
  }

  // A document takes at most a fixed number of bytes and five for every unit of its fields.
  lemma DocumentSize(input: SubmissionInput)
    requires input.Valid()
    ensures BuildSubmissionXml(input).Built? ==>
      Utf8Length(BuildSubmissionXml(input).xml) <= FIXED_BYTES + Units5(input)
  {
    hide *;
    var l := Lines(input);
    BuiltIsJoined(input);
    JoinedSize(l);
    TotalOfThirteen(l);
    FixedLines(input);
    FieldLines(input);
  }

  // The limit on both sides (xsd-xml-validator.ts, and the recipient's default).
  const MAX_XML_BYTES := 65_536

  // Every request within the limits of the API fits, with an e-mail of up to 7000 units.
  lemma RequestsWithinTheLimitsFit(input: SubmissionInput)
    requires input.Valid() && |input.messageId| == 26 && |input.senderEmail| <= 7000
    requires |input.subject| <= 200 && |input.text| <= 5000
    ensures BuildSubmissionXml(input).Built? ==> Utf8Length(BuildSubmissionXml(input).xml) < MAX_XML_BYTES
  {
    hide BuildSubmissionXml, Utf8Length;
    DocumentSize(input);
  }
}
