/** What the builder writes, the reader reads: every value of a request comes back exactly, in its own
    element, whatever the text holds. */
module SubmissionRoundTrip {
  import opened Basics
  import opened Utf16
  import opened SubmissionXml
  import opened XmlReader

  // --- Reading one piece at a time -----------------------------------------------------------------

  lemma {:induction false} IndexOfIs(before: JsString, u: CodeUnit, rest: JsString)
    requires u !in before
    ensures IndexOf(before + [u] + rest, u) == |before|
  {
    if before == [] {
    } else {
      assert (before + [u] + rest)[1..] == before[1..] + [u] + rest;
      IndexOfIs(before[1..], u, rest);
    }
  }

  lemma {:induction false} IndexOfNone(s: JsString, u: CodeUnit)
    requires u !in s
    ensures IndexOf(s, u) == |s|
  {
    if s != [] {
      IndexOfNone(s[1..], u);
    }
  }

  function Texted(r: Reader, text: JsString): Reader
    requires r.open != []
  {
    r.(open := r.open[..|r.open| - 1] + [Last(r).(text := Last(r).text + text)])
  }

  // Inside an element that holds text.
  predicate InText(r: Reader) {
    r.open != [] && !Last(r).hasChildren
  }

  lemma ReadsReference(reference: JsString, u: CodeUnit, rest: JsString, r: Reader)
    requires InText(r) && SEMICOLON !in reference && Expand(reference) == Some([u])
    ensures ReadFrom([AMP] + reference + [SEMICOLON] + rest, r) == ReadFrom(rest, Texted(r, [u]))
  {
    hide Expand;
    var s := [AMP] + reference + [SEMICOLON] + rest;
    IndexOfIs([AMP] + reference, SEMICOLON, rest);
    assert s[1..|reference| + 1] == reference && s[|reference| + 2..] == rest;
  }

  lemma ReadsRaw(u: CodeUnit, rest: JsString, r: Reader)
    requires InText(r) && u != LT && u != AMP && !(CDATA_END <= [u] + rest)
    ensures ReadFrom([u] + rest, r) == ReadFrom(rest, Texted(r, [u]))
  {
    var s := [u] + rest;
    assert s[..1] == [u] && s[1..] == rest;
    assert |s| >= 3 && s[..3] == CDATA_END ==> CDATA_END <= s;
  }

  lemma DecimalReference(digits: JsString, point: nat)
    requires digits != [] && digits[0] != 0x78 && Numeral(digits, 10, 0) == Some(point)
    ensures Expand([0x23] + digits) == CharOf(point)
  {
    hide Numeral, CharOf;
    var reference: JsString := [0x23] + digits;
    assert reference[0] == 0x23 && reference[1] == digits[0] && reference[1..] == digits;
    assert reference[..2][1] == reference[1];
  }

  lemma Thirteen()
    ensures Numeral([0x31, 0x33], 10, 0) == Some(13)
  {
    var digits: JsString := [0x31, 0x33];
    assert digits[1..] == [0x33] && digits[1..][1..] == [];
    assert Numeral(digits[1..], 10, 1) == Some(13);
  }

  lemma CrReferenceExpands()
    ensures Expand(CR_REF[1..4]) == Some([CR])
  {
    var digits: JsString := [0x31, 0x33];
    assert CR_REF[1..4] == [0x23] + digits;
    assert CharOf(13) == Some([CR]);
    hide Expand, Numeral, CharOf;
    Thirteen();
    DecimalReference(digits, 13);
  }

  lemma NamedReferencesExpand()
    ensures Expand(AMP_REF[1..4]) == Some([AMP]) && Expand(LT_REF[1..3]) == Some([LT])
    ensures Expand(GT_REF[1..3]) == Some([GT])
  {
    var amp: JsString, lt: JsString, gt: JsString := [0x61, 0x6D, 0x70], [0x6C, 0x74], [0x67, 0x74];
    assert AMP_REF[1..4] == amp && LT_REF[1..3] == lt && GT_REF[1..3] == gt;
    assert |lt| == |gt| == 2 && lt[0] == 0x6C && gt[0] == 0x67;
    assert gt != lt;
  }

  lemma ReferencesExpand()
    ensures Expand(AMP_REF[1..4]) == Some([AMP]) && Expand(LT_REF[1..3]) == Some([LT])
    ensures Expand(GT_REF[1..3]) == Some([GT]) && Expand(CR_REF[1..4]) == Some([CR])
  {
    hide *;
    NamedReferencesExpand();
    CrReferenceExpands();
  }

  lemma ReadsUnit(u: CodeUnit, rest: JsString, r: Reader)
    requires InText(r) && !(CDATA_END <= [u] + rest)
    ensures ReadFrom(EscapeUnit(u) + rest, r) == ReadFrom(rest, Texted(r, [u]))
  {
    hide ReadFrom, Expand, Texted;
    ReferencesExpand();
    if u == AMP {
      ReadsReference(AMP_REF[1..4], u, rest, r);
      assert [AMP] + AMP_REF[1..4] + [SEMICOLON] == AMP_REF;
    } else if u == LT {
      ReadsReference(LT_REF[1..3], u, rest, r);
      assert [AMP] + LT_REF[1..3] + [SEMICOLON] == LT_REF;
    } else if u == GT {
      ReadsReference(GT_REF[1..3], u, rest, r);
      assert [AMP] + GT_REF[1..3] + [SEMICOLON] == GT_REF;
    } else if u == CR {
      ReadsReference(CR_REF[1..4], u, rest, r);
      assert [AMP] + CR_REF[1..4] + [SEMICOLON] == CR_REF;
    } else {
      ReadsRaw(u, rest, r);
    }
  }

  lemma NoCdataEnd(u: CodeUnit, text: JsString, rest: JsString)
    requires GT !in text && rest != [] && rest[0] == LT
    ensures !(CDATA_END <= [u] + (text + rest))
  {
    var s := [u] + (text + rest);
    if |text| >= 2 {
      assert s[2] == text[1];
    } else if |text| == 1 {
      assert s[2] == rest[0];
    } else {
      assert s[1] == rest[0];
    }
  }

  lemma TextedTwice(r: Reader, text: JsString, more: JsString)
    requires InText(r)
    ensures InText(Texted(r, text)) && Texted(Texted(r, text), more) == Texted(r, text + more)
    ensures Texted(r, []) == r
  {
    assert Last(r).text + text + more == Last(r).text + (text + more);
    assert Last(r).text + [] == Last(r).text && Texted(r, []).open == r.open;
  }

  lemma EscapedStep(u: CodeUnit, tail: JsString, rest: JsString)
    ensures Escaped([u] + tail) + rest == EscapeUnit(u) + (Escaped(tail) + rest)
    ensures GT !in Escaped(tail) && Escaped([]) + rest == rest
  {
    assert ([u] + tail)[1..] == tail;
    EscapedHoldsNoMarkup(tail);
    ChainedIsOnePass(tail);
    hide EscapeUnit;
  }

  // Escaped text before a tag is read as the text it stands for.
  lemma {:induction false} ReadsEscaped(text: JsString, rest: JsString, r: Reader)
    requires InText(r) && rest != [] && rest[0] == LT
    ensures ReadFrom(Escaped(text) + rest, r) == ReadFrom(rest, Texted(r, text))
    decreases |text|
  {
    hide ReadFrom, Escaped, EscapeUnit, EscapeText, Texted;
    if text == [] {
      EscapedStep(0, [], rest);
      TextedTwice(r, [], []);
    } else {
      var u, tail := text[0], text[1..];
      assert text == [u] + tail;
      EscapedStep(u, tail, rest);
      NoCdataEnd(u, Escaped(tail), rest);
      TextedTwice(r, [u], tail);
      ReadsUnit(u, Escaped(tail) + rest, r);
      ReadsEscaped(tail, rest, Texted(r, [u]));
    }
  }

  lemma ReadsTag(tag: JsString, rest: JsString, r: Reader, next: Reader)
    requires GT !in tag && Tag(r, tag) == Some(next)
    ensures ReadFrom([LT] + tag + [GT] + rest, r) == ReadFrom(rest, next)
  {
    hide Tag;
    var s := [LT] + tag + [GT] + rest;
    IndexOfIs([LT] + tag, GT, rest);
    assert s[1..|tag| + 1] == tag && s[|tag| + 2..] == rest;
  }

  // White space before a tag: ignored, or kept until the element turns out to have children.
  function Spaced(r: Reader, space: JsString): Reader {
    if InText(r) then Texted(r, space) else r
  }

  lemma ReadsOneSpace(u: CodeUnit, rest: JsString, r: Reader)
    requires IsSpace(u)
    ensures ReadFrom([u] + rest, r) == ReadFrom(rest, Spaced(r, [u]))
  {
    var s := [u] + rest;
    assert s[..1] == [u] && s[1..] == rest && AllSpace([u]);
  }

  lemma SpacedTwice(r: Reader, a: JsString, b: JsString)
    ensures Spaced(Spaced(r, a), b) == Spaced(r, a + b) && Spaced(r, []) == r
  {
    if InText(r) {
      TextedTwice(r, a, b);
    }
  }

  lemma {:induction false} ReadsSpace(space: JsString, rest: JsString, r: Reader)
    requires AllSpace(space)
    ensures ReadFrom(space + rest, r) == ReadFrom(rest, Spaced(r, space))
    decreases |space|
  {
    hide ReadFrom, Spaced;
    if space == [] {
      assert space + rest == rest;
      SpacedTwice(r, [], []);
    } else {
      var u, tail := space[0], space[1..];
      assert space + rest == [u] + (tail + rest) && space == [u] + tail;
      ReadsOneSpace(u, tail + rest, r);
      ReadsSpace(tail, rest, Spaced(r, [u]));
      SpacedTwice(r, [u], tail);
    }
  }

  // --- Elements ------------------------------------------------------------------------------------

  // Letters only.
  predicate IsName(s: JsString) {
    s != [] && forall i :: 0 <= i < |s| ==> 0x41 <= s[i] <= 0x5A || 0x61 <= s[i] <= 0x7A
  }

  // The elements around the next child, the innermost of which now has children.
  function Parents(r: Reader): seq<Open> {
    if r.open == [] then [] else r.open[..|r.open| - 1] + [Open(Last(r).name, [], true)]
  }

  function Opened(r: Reader, name: JsString): Reader {
    Reader(Parents(r) + [Open(name, [], false)], true, r.found)
  }

  // After a child element that holds text.
  function WithField(r: Reader, name: JsString, text: JsString): Reader {
    Reader(Parents(r), true, r.found + [Content(PathOf(r.open) + [name], text)])
  }

  lemma ReadsStart(name: JsString, rest: JsString, r: Reader)
    requires IsName(name) && MayHaveChild(r)
    ensures ReadFrom(StartTag(name) + rest, r) == ReadFrom(rest, Opened(r, name))
  {
    IndexOfNone(name, SPACE);
    assert name[..|name|] == name && name[|name|..] == [];
    assert Tag(r, name) == Some(Opened(r, name));
    hide ReadFrom, Tag;
    assert StartTag(name) + rest == [LT] + name + [GT] + rest;
    ReadsTag(name, rest, r, Opened(r, name));
  }

  lemma ReadsEnd(name: JsString, rest: JsString, r: Reader, next: Reader)
    requires IsName(name) && CloseElement(r, name) == Some(next)
    ensures ReadFrom(EndTag(name) + rest, r) == ReadFrom(rest, next)
  {
    var tag := [SLASH] + name;
    assert tag[1..] == name && tag[|tag| - 1] == name[|name| - 1];
    assert Tag(r, tag) == Some(next);
    hide ReadFrom, Tag, CloseElement;
    assert EndTag(name) + rest == [LT] + tag + [GT] + rest;
    ReadsTag(tag, rest, r, next);
  }

  lemma FieldCloses(r: Reader, name: JsString, text: JsString)
    requires MayHaveChild(r)
    ensures InText(Opened(r, name))
    ensures CloseElement(Texted(Opened(r, name), text), name) == Some(WithField(r, name, text))
  {
    var o := Texted(Opened(r, name), text);
    assert Last(Opened(r, name)) == Open(name, [], false) && Last(o).text == [] + text == text;
    assert o.open[..|o.open| - 1] == Parents(r);
    assert PathOf(o.open) == PathOf(r.open) + [name];
  }

  // A whole element with a text in it becomes one field, and the reader is back where it was.
  lemma ReadsField(name: JsString, text: JsString, rest: JsString, r: Reader)
    requires IsName(name) && MayHaveChild(r)
    ensures ReadFrom(Element(name, EscapeText(text)) + rest, r) == ReadFrom(rest, WithField(r, name, text))
  {
    hide ReadFrom, Escaped, EscapeText, CloseElement, Opened, Texted, WithField, IsName, MayHaveChild;
    var o := Opened(r, name);
    var tail := EndTag(name) + rest;
    ChainedIsOnePass(text);
    assert Element(name, EscapeText(text)) + rest == StartTag(name) + (Escaped(text) + tail);
    ReadsStart(name, Escaped(text) + tail, r);
    FieldCloses(r, name, text);
    ReadsEscaped(text, tail, o);
    ReadsEnd(name, rest, Texted(o, text), WithField(r, name, text));
  }

  // An element around one field, as the sender and the recipient have it.
  function WithParty(r: Reader, party: JsString, name: JsString, text: JsString): Reader {
    Reader(Parents(r), true, r.found + [Content(PathOf(r.open) + [party, name], text)])
  }

  lemma PartyCloses(party: JsString, name: JsString, text: JsString, r: Reader)
    requires MayHaveChild(r)
    ensures MayHaveChild(Opened(r, party))
    ensures CloseElement(WithField(Opened(r, party), name, text), party) == Some(WithParty(r, party, name, text))
  {
    var o := Opened(r, party);
    var inner := WithField(o, name, text);
    assert Last(o) == Open(party, [], false);
    assert inner.open == Parents(r) + [Open(party, [], true)];
    assert inner.open[..|inner.open| - 1] == Parents(r);
    assert PathOf(o.open) + [name] == PathOf(r.open) + [party, name];
  }

  lemma PartyIsNested(party: JsString, content: JsString, rest: JsString)
    ensures Element(party, content) + rest == StartTag(party) + (content + (EndTag(party) + rest))
  {
    hide StartTag, EndTag;
  }

  lemma ReadsParty(party: JsString, name: JsString, text: JsString, rest: JsString, r: Reader)
    requires IsName(party) && IsName(name) && MayHaveChild(r)
    ensures ReadFrom(Element(party, Element(name, EscapeText(text))) + rest, r)
      == ReadFrom(rest, WithParty(r, party, name, text))
  {
    hide *;
    var o := Opened(r, party);
    var content := Element(name, EscapeText(text));
    PartyCloses(party, name, text, r);
    PartyIsNested(party, content, rest);
    ReadsStart(party, content + (EndTag(party) + rest), r);
    ReadsField(name, text, EndTag(party) + rest, o);
    ReadsEnd(party, rest, WithField(o, name, text), WithParty(r, party, name, text));
  }


  // --- Lines: white space, then an element or a tag ----------------------------------------------------

  // Where a child may begin, white space before it changes nothing that its beginning does not clear.
  lemma SpaceBeforeAChild(r: Reader, space: JsString)
    requires MayHaveChild(r) && AllSpace(space)
    ensures MayHaveChild(Spaced(r, space))
    ensures Parents(Spaced(r, space)) == Parents(r) && PathOf(Spaced(r, space).open) == PathOf(r.open)
    ensures Spaced(r, space).found == r.found
  {
    if InText(r) {
      var t := Texted(r, space);
      assert Last(t).text == Last(r).text + space;
      assert t.open[..|t.open| - 1] == r.open[..|r.open| - 1];
    }
  }

  lemma LineWithField(space: JsString, name: JsString, text: JsString, rest: JsString, r: Reader)
    requires AllSpace(space) && IsName(name) && MayHaveChild(r)
    ensures ReadFrom(space + Element(name, EscapeText(text)) + rest, r) == ReadFrom(rest, WithField(r, name, text))
  {
    SpaceBeforeAChild(r, space);
    hide ReadFrom, Element, EscapeText, Parents, Spaced, IsName, MayHaveChild, PathOf, AllSpace;
    var line := Element(name, EscapeText(text));
    assert space + line + rest == space + (line + rest);
    ReadsSpace(space, line + rest, r);
    ReadsField(name, text, rest, Spaced(r, space));
  }

  lemma LineWithParty(space: JsString, party: JsString, name: JsString, text: JsString, rest: JsString, r: Reader)
    requires AllSpace(space) && IsName(party) && IsName(name) && MayHaveChild(r)
    ensures ReadFrom(space + Element(party, Element(name, EscapeText(text))) + rest, r)
      == ReadFrom(rest, WithParty(r, party, name, text))
  {
    SpaceBeforeAChild(r, space);
    hide ReadFrom, Element, EscapeText, Parents, Spaced, IsName, MayHaveChild, PathOf, AllSpace;
    var line := Element(party, Element(name, EscapeText(text)));
    assert space + line + rest == space + (line + rest);
    ReadsSpace(space, line + rest, r);
    ReadsParty(party, name, text, rest, Spaced(r, space));
  }

  lemma LineWithStart(space: JsString, name: JsString, rest: JsString, r: Reader)
    requires AllSpace(space) && IsName(name) && MayHaveChild(r)
    ensures ReadFrom(space + StartTag(name) + rest, r) == ReadFrom(rest, Opened(r, name))
  {
    SpaceBeforeAChild(r, space);
    hide ReadFrom, StartTag, Parents, Spaced, IsName, MayHaveChild, PathOf, AllSpace;
    assert space + StartTag(name) + rest == space + (StartTag(name) + rest);
    ReadsSpace(space, StartTag(name) + rest, r);
    ReadsStart(name, rest, Spaced(r, space));
  }

  // The end of an element with children.
  lemma LineWithEnd(space: JsString, name: JsString, rest: JsString, r: Reader)
    requires AllSpace(space) && IsName(name) && r.open != [] && Last(r).hasChildren && Last(r).name == name
    ensures ReadFrom(space + EndTag(name) + rest, r)
      == ReadFrom(rest, Reader(r.open[..|r.open| - 1], true, r.found))
  {
    hide ReadFrom, EndTag, IsName, PathOf, AllSpace;
    assert space + EndTag(name) + rest == space + (EndTag(name) + rest);
    ReadsSpace(space, EndTag(name) + rest, r);
    ReadsEnd(name, rest, r, Reader(r.open[..|r.open| - 1], true, r.found));
  }

  // --- The document ------------------------------------------------------------------------------------

  lemma LettersAreNames(s: string)
    requires s != "" && IsAscii(s) && forall i :: 0 <= i < |s| ==> 'A' <= s[i] <= 'Z' || 'a' <= s[i] <= 'z'
    ensures IsName(Units(s))
  {
  }

  lemma HeaderNames()
    ensures IsName(HEADER) && IsName(MESSAGE_ID) && IsName(SENT_AT) && IsName(SENDER) && IsName(RECIPIENT)
  {
    LettersAreNames("Header");
    LettersAreNames("MessageId");
    LettersAreNames("SentAt");
    LettersAreNames("Sender");
    LettersAreNames("Recipient");
  }

  lemma OtherNames()
    ensures IsName(ROOT) && IsName(NAME) && IsName(CONTENT) && IsName(SUBJECT) && IsName(TEXT)
  {
    LettersAreNames("Submission");
    LettersAreNames("Name");
    LettersAreNames("Content");
    LettersAreNames("Subject");
    LettersAreNames("Text");
  }

  // Digits, letters and the punctuation of a clock.
  predicate IsClockUnits(s: JsString) {
    forall i :: 0 <= i < |s| ==> 0x2B <= s[i] <= 0x5A && s[i] != LT && s[i] != GT
  }

  lemma ClockUnits(text: string)
    requires EventTime.IsClockText(text)
    ensures IsAscii(text) && IsClockUnits(Units(text))
  {
  }

  lemma ClockUnitsStay(s: JsString)
    requires IsClockUnits(s)
    ensures EscapeText(s) == s && IsPlain(s)
  {
    hide ReplaceAll;
    ReplaceLeaves(s, AMP, AMP_REF);
    ReplaceLeaves(s, LT, LT_REF);
    ReplaceLeaves(s, GT, GT_REF);
    ReplaceLeaves(s, CR, CR_REF);
  }

  // The time needs no escaping.
  lemma SentAtIsUntouched(input: SubmissionInput)
    requires input.Valid()
    ensures EscapeText(SentAt(input)) == SentAt(input)
    ensures IsPlain(SentAt(input))
  {
    hide EventTime.ToIso, EventTime.IsClockText, EscapeText, IsClockUnits, IsPlain, Units;
    EventTime.IsoIsPlain(input.sentAt);
    ClockUnits(EventTime.ToIso(input.sentAt));
    ClockUnitsStay(SentAt(input));
  }

  // The lines from one on, each with the line feed before it.
  function Rest(lines: seq<JsString>): JsString {
    if lines == [] then [] else [LF] + lines[0] + Rest(lines[1..])
  }

  lemma {:induction false} JoinIsRest(lines: seq<JsString>)
    requires lines != []
    ensures Join(lines) == lines[0] + Rest(lines[1..])
  {
    if |lines| == 1 {
      assert lines[1..] == [] && lines[0] + [] == lines[0];
    } else {
      JoinIsRest(lines[1..]);
      assert lines[0] + [LF] + Join(lines[1..]) == lines[0] + ([LF] + lines[1..][0] + Rest(lines[1..][1..]));
    }
  }

  lemma RestStep(l: seq<JsString>, k: nat, space: JsString, piece: JsString)
    requires k < |l| && l[k] == space + piece
    ensures Rest(l[k..]) == ([LF] + space) + piece + Rest(l[k + 1..])
  {
    assert l[k..][1..] == l[k + 1..];
  }

  function InHeader(found: seq<Found>): Reader {
    Reader([Open(ROOT, [], true), Open(HEADER, [], true)], true, found)
  }

  function InContent(found: seq<Found>): Reader {
    Reader([Open(ROOT, [], true), Open(CONTENT, [], true)], true, found)
  }

  function Root(found: seq<Found>, hasChildren: bool): Reader {
    Reader([Open(ROOT, [], hasChildren)], true, found)
  }

  lemma FieldInside(outer: JsString, inside: Reader, name: JsString, text: JsString)
    requires inside == Reader([Open(ROOT, [], true), Open(outer, [], true)], true, inside.found)
    ensures MayHaveChild(inside)
    ensures WithField(inside, name, text) == inside.(found := inside.found + [Content([ROOT, outer, name], text)])
    ensures WithParty(inside, name, NAME, text)
      == inside.(found := inside.found + [Content([ROOT, outer, name, NAME], text)])
  {
    assert PathOf(inside.open) == [ROOT, outer];
    assert [ROOT, outer] + [name] == [ROOT, outer, name] && [ROOT, outer] + [name, NAME] == [ROOT, outer, name, NAME];
    assert Parents(inside) == inside.open;
  }

  // The first field of a group: its element has no children yet.
  lemma FirstField(outer: JsString, r: Reader, name: JsString, text: JsString)
    requires r.open == [Open(ROOT, [], true), Open(outer, [], false)]
    ensures MayHaveChild(r)
    ensures WithField(r, name, text)
      == Reader([Open(ROOT, [], true), Open(outer, [], true)], true, r.found + [Content([ROOT, outer, name], text)])
  {
    assert PathOf(r.open) == [ROOT, outer] && [ROOT, outer] + [name] == [ROOT, outer, name];
    assert Parents(r) == [Open(ROOT, [], true), Open(outer, [], true)];
  }

  // What the recipient finds in a document: the root's attributes, and six fields.
  function HeaderOf(input: SubmissionInput): seq<Found>
    requires input.Valid()
  {
    [ Attributes([ROOT], ROOT_ATTRIBUTES),
      Content([ROOT, HEADER, MESSAGE_ID], input.messageId),
      Content([ROOT, HEADER, SENT_AT], SentAt(input)),
      Content([ROOT, HEADER, SENDER, NAME], input.senderEmail),
      Content([ROOT, HEADER, RECIPIENT, NAME], PHARMACY) ]
  }

  function FieldsOf(input: SubmissionInput): seq<Found>
    requires input.Valid()
  {
    HeaderOf(input) + [Content([ROOT, CONTENT, SUBJECT], input.subject), Content([ROOT, CONTENT, TEXT], input.text)]
  }

  const NEXT: JsString := [LF] + INDENT
  const NEXT2: JsString := [LF] + (INDENT + INDENT)

  lemma Indents()
    ensures AllSpace(NEXT) && AllSpace(NEXT2) && AllSpace([LF] + [])
  {
  }

  lemma Halves(a: JsString, b: JsString)
    requires a != [] && b != [] && GT !in a && GT !in b
    ensures (a + b)[..|a|] == a && (a + b)[|a|..] == b && (a + b)[0] == a[0] && (a + b)[|a + b| - 1] == b[|b| - 1]
    ensures GT !in a + b
  {
  }

  lemma NamesHoldNoGt(s: JsString)
    requires IsName(s)
    ensures s != [] && GT !in s && SPACE !in s
  {
  }

  lemma TheRootName()
    ensures var tag := ROOT + ROOT_ATTRIBUTES;
      && IndexOf(tag, SPACE) == |ROOT| && tag[..|ROOT|] == ROOT && tag[|ROOT|..] == ROOT_ATTRIBUTES
      && tag[0] == ROOT[0] && tag[|tag| - 1] != SLASH
      && GT !in tag
  {
    hide Units, IndexOf, IsName;
    OtherNames();
    NamesHoldNoGt(ROOT);
    TheAttributes();
    Halves(ROOT, ROOT_ATTRIBUTES);
    var rest := ROOT_ATTRIBUTES[1..];
    IndexOfIs(ROOT, SPACE, rest);
    assert ROOT_ATTRIBUTES == [SPACE] + rest && ROOT + [SPACE] + rest == ROOT + ([SPACE] + rest);
  }


  lemma TheRootOpens()
    ensures OpenElement(START, ROOT, ROOT_ATTRIBUTES) == Some(Root([Attributes([ROOT], ROOT_ATTRIBUTES)], false))
  {
    hide Units;
    OtherNames();
    TheAttributes();
    assert PathOf([Open(ROOT, [], false)]) == [ROOT];
    assert [] + [Open(ROOT, [], false)] == [Open(ROOT, [], false)];
    var attributes := Attributes([ROOT], ROOT_ATTRIBUTES);
    assert START.found + [attributes] == [attributes];
  }

  lemma TheRootTag(r: Reader)
    requires r == START
    ensures Tag(r, ROOT + ROOT_ATTRIBUTES) == Some(Root([Attributes([ROOT], ROOT_ATTRIBUTES)], false))
    ensures GT !in ROOT + ROOT_ATTRIBUTES
  {
    hide Units, IndexOf, OpenElement;
    OtherNames();
    TheRootName();
    TheRootOpens();
  }


  lemma TheAttributes()
    ensures ROOT_ATTRIBUTES != [] && ROOT_ATTRIBUTES[0] == SPACE && ROOT_ATTRIBUTES[|ROOT_ATTRIBUTES| - 1] != SLASH
    ensures GT !in ROOT_ATTRIBUTES
  {
    NoGt(" xmlns=\"");
    NoGt(NAMESPACE);
    NoGt("\" version=\"1\"");
  }

  lemma NoGt(s: string)
    requires IsAscii(s) && '>' !in s
    ensures GT !in Units(s)
  {
  }

  lemma TheLines(input: SubmissionInput)
    requires input.Valid()
    ensures var l := Lines(input);
      && |l| == 13 && l[0] == DECLARATION && l[1] == StartTag(ROOT + ROOT_ATTRIBUTES)
      && l[2] == INDENT + StartTag(HEADER)
      && l[3] == INDENT + INDENT + Element(MESSAGE_ID, EscapeText(input.messageId))
      && l[4] == INDENT + INDENT + Element(SENT_AT, SentAt(input))
      && l[5] == INDENT + INDENT + Element(SENDER, Element(NAME, EscapeText(input.senderEmail)))
      && l[6] == INDENT + INDENT + Element(RECIPIENT, Element(NAME, EscapeText(PHARMACY)))
      && l[7] == INDENT + EndTag(HEADER) && l[8] == INDENT + StartTag(CONTENT)
      && l[9] == INDENT + INDENT + Element(SUBJECT, EscapeText(input.subject))
      && l[10] == INDENT + INDENT + Element(TEXT, EscapeText(input.text))
      && l[11] == INDENT + EndTag(CONTENT) && l[12] == EndTag(ROOT)
  {
    hide Element, StartTag, EndTag, EscapeText, SentAt, Units;
  }

  lemma LineWithTag(space: JsString, tag: JsString, rest: JsString, r: Reader, next: Reader)
    requires AllSpace(space) && GT !in tag && Spaced(r, space) == r && Tag(r, tag) == Some(next)
    ensures ReadFrom(space + StartTag(tag) + rest, r) == ReadFrom(rest, next)
  {
    hide ReadFrom, Tag, Spaced, AllSpace;
    assert space + StartTag(tag) + rest == space + (StartTag(tag) + rest);
    assert StartTag(tag) + rest == [LT] + tag + [GT] + rest;
    ReadsSpace(space, StartTag(tag) + rest, r);
    ReadsTag(tag, rest, r, next);
  }

  lemma StartIgnoresSpace()
    ensures Spaced(START, [LF] + []) == START
  {
  }

  lemma ReadsRoot(input: SubmissionInput)
    requires input.Valid()
    ensures var l := Lines(input);
      ReadFrom(Rest(l[1..]), START) == ReadFrom(Rest(l[2..]), Root([Attributes([ROOT], ROOT_ATTRIBUTES)], false))
  {
    hide ReadFrom, Lines, Rest, Tag, Spaced, AllSpace, Units, Element, EscapeText, SentAt, StartTag;
    var l := Lines(input);
    var r := Root([Attributes([ROOT], ROOT_ATTRIBUTES)], false);
    StartIgnoresSpace();
    TheLines(input);
    assert l[1] == [] + StartTag(ROOT + ROOT_ATTRIBUTES);
    RestStep(l, 1, [], StartTag(ROOT + ROOT_ATTRIBUTES));
    Indents();
    TheRootTag(START);
    LineWithTag([LF] + [], ROOT + ROOT_ATTRIBUTES, Rest(l[2..]), START, r);
  }

  lemma TheHeaderOpens(found: seq<Found>)
    ensures MayHaveChild(Root(found, false))
    ensures Opened(Root(found, false), HEADER) == Reader([Open(ROOT, [], true), Open(HEADER, [], false)], true, found)
  {
    hide Units;
  }

  lemma ReadsHeaderStart(input: SubmissionInput, found: seq<Found>)
    requires input.Valid()
    ensures var l := Lines(input);
      ReadFrom(Rest(l[2..]), Root(found, false))
      == ReadFrom(Rest(l[4..]), InHeader(found + [Content([ROOT, HEADER, MESSAGE_ID], input.messageId)]))
  {
    hide ReadFrom, Lines, Rest, EscapeText, Element, StartTag, AllSpace, IsName, MayHaveChild, Opened, WithField, Units,
      SentAt;
    var l := Lines(input);
    var r := Root(found, false);
    TheLines(input);
    TheHeaderOpens(found);
    FirstField(HEADER, Opened(r, HEADER), MESSAGE_ID, input.messageId);
    HeaderNames();
    Indents();
    RestStep(l, 2, INDENT, StartTag(HEADER));
    LineWithStart(NEXT, HEADER, Rest(l[3..]), r);
    RestStep(l, 3, INDENT + INDENT, Element(MESSAGE_ID, EscapeText(input.messageId)));
    LineWithField(NEXT2, MESSAGE_ID, input.messageId, Rest(l[4..]), Opened(r, HEADER));
  }

  lemma ReadsHeaderRest(input: SubmissionInput, found: seq<Found>)
    requires input.Valid()
    ensures var l := Lines(input);
      ReadFrom(Rest(l[4..]), InHeader(found))
      == ReadFrom(Rest(l[7..]), InHeader(found + [Content([ROOT, HEADER, SENT_AT], SentAt(input))]
           + [Content([ROOT, HEADER, SENDER, NAME], input.senderEmail)]
           + [Content([ROOT, HEADER, RECIPIENT, NAME], PHARMACY)]))
  {
    var l := Lines(input);
    var r := InHeader(found);
    var f1 := found + [Content([ROOT, HEADER, SENT_AT], SentAt(input))];
    var f2 := f1 + [Content([ROOT, HEADER, SENDER, NAME], input.senderEmail)];
    TheLines(input);
    SentAtIsUntouched(input);
    hide ReadFrom, Lines, Rest, EscapeText, Element, AllSpace, IsName, MayHaveChild, WithField, WithParty, SentAt,
      IsPlain;
    HeaderNames();
    OtherNames();
    Indents();
    RestStep(l, 4, INDENT + INDENT, Element(SENT_AT, EscapeText(SentAt(input))));
    FieldInside(HEADER, r, SENT_AT, SentAt(input));
    LineWithField(NEXT2, SENT_AT, SentAt(input), Rest(l[5..]), r);
    RestStep(l, 5, INDENT + INDENT, Element(SENDER, Element(NAME, EscapeText(input.senderEmail))));
    FieldInside(HEADER, InHeader(f1), SENDER, input.senderEmail);
    LineWithParty(NEXT2, SENDER, NAME, input.senderEmail, Rest(l[6..]), InHeader(f1));
    RestStep(l, 6, INDENT + INDENT, Element(RECIPIENT, Element(NAME, EscapeText(PHARMACY))));
    FieldInside(HEADER, InHeader(f2), RECIPIENT, PHARMACY);
    LineWithParty(NEXT2, RECIPIENT, NAME, PHARMACY, Rest(l[7..]), InHeader(f2));
  }

  lemma LeavesTheHeader(found: seq<Found>)
    ensures InHeader(found).open[..1] == Root(found, true).open && MayHaveChild(Root(found, true))
    ensures Opened(Root(found, true), CONTENT) == Reader([Open(ROOT, [], true), Open(CONTENT, [], false)], true, found)
  {
  }

  lemma ReadsToContent(input: SubmissionInput, found: seq<Found>)
    requires input.Valid()
    ensures var l := Lines(input);
      ReadFrom(Rest(l[7..]), InHeader(found))
      == ReadFrom(Rest(l[9..]), Reader([Open(ROOT, [], true), Open(CONTENT, [], false)], true, found))
  {
    var l := Lines(input);
    var r, top := InHeader(found), Root(found, true);
    assert |r.open| == 2 && Last(r) == Open(HEADER, [], true);
    hide ReadFrom, Lines, Rest, EscapeText, Element, StartTag, EndTag, AllSpace, IsName, MayHaveChild, Opened, Units,
      SentAt;
    TheLines(input);
    LeavesTheHeader(found);
    HeaderNames();
    OtherNames();
    Indents();
    RestStep(l, 7, INDENT, EndTag(HEADER));
    LineWithEnd(NEXT, HEADER, Rest(l[8..]), r);
    RestStep(l, 8, INDENT, StartTag(CONTENT));
    LineWithStart(NEXT, CONTENT, Rest(l[9..]), top);
  }

  lemma ReadsTheSubject(input: SubmissionInput, found: seq<Found>)
    requires input.Valid()
    ensures var l := Lines(input);
      ReadFrom(Rest(l[9..]), Reader([Open(ROOT, [], true), Open(CONTENT, [], false)], true, found))
      == ReadFrom(Rest(l[10..]), InContent(found + [Content([ROOT, CONTENT, SUBJECT], input.subject)]))
  {
    var l := Lines(input);
    var r := Reader([Open(ROOT, [], true), Open(CONTENT, [], false)], true, found);
    hide ReadFrom, Lines, Rest, EscapeText, Element, AllSpace, IsName, MayHaveChild, WithField, Units, SentAt;
    TheLines(input);
    FirstField(CONTENT, r, SUBJECT, input.subject);
    OtherNames();
    Indents();
    RestStep(l, 9, INDENT + INDENT, Element(SUBJECT, EscapeText(input.subject)));
    LineWithField(NEXT2, SUBJECT, input.subject, Rest(l[10..]), r);
  }

  lemma LeavesTheContent(f: seq<Found>)
    ensures |InContent(f).open| == 2 && Last(InContent(f)) == Open(CONTENT, [], true)
    ensures InContent(f).open[..1] == Root(f, true).open
    ensures |Root(f, true).open| == 1 && Last(Root(f, true)) == Open(ROOT, [], true) && Root(f, true).open[..0] == []
  {
    hide Units;
  }

  lemma NothingMoreToRead(r: Reader)
    ensures Rest([]) == [] && ReadFrom([], r) == Some(r)
  {
  }

  lemma ReadsTheText(input: SubmissionInput, found: seq<Found>)
    requires input.Valid()
    ensures var l := Lines(input);
      ReadFrom(Rest(l[10..]), InContent(found))
      == ReadFrom(Rest(l[11..]), InContent(found + [Content([ROOT, CONTENT, TEXT], input.text)]))
  {
    hide ReadFrom, Lines, Rest, EscapeText, Element, EndTag, AllSpace, IsName, MayHaveChild, WithField, Units, SentAt;
    var l := Lines(input);
    TheLines(input);
    OtherNames();
    Indents();
    RestStep(l, 10, INDENT + INDENT, Element(TEXT, EscapeText(input.text)));
    FieldInside(CONTENT, InContent(found), TEXT, input.text);
    LineWithField(NEXT2, TEXT, input.text, Rest(l[11..]), InContent(found));
  }

  lemma ReadsToTheEnd(input: SubmissionInput, f: seq<Found>)
    requires input.Valid()
    ensures ReadFrom(Rest(Lines(input)[11..]), InContent(f)) == Some(Reader([], true, f))
  {
    hide ReadFrom, Lines, Rest, EscapeText, Element, EndTag, AllSpace, IsName, InContent, Root, Units, SentAt;
    var l := Lines(input);
    TheLines(input);
    assert l[12] == [] + EndTag(ROOT) && l[13..] == [];
    LeavesTheContent(f);
    NothingMoreToRead(Reader([], true, f));
    OtherNames();
    Indents();
    InContentIs(f);
    RestStep(l, 11, INDENT, EndTag(CONTENT));
    LineWithEnd(NEXT, CONTENT, Rest(l[12..]), InContent(f));
    RestStep(l, 12, [], EndTag(ROOT));
    LineWithEnd([LF] + [], ROOT, Rest(l[13..]), Root(f, true));
  }

  lemma InContentIs(f: seq<Found>)
    ensures InContent(f).found == f && Root(f, true).found == f && InContent(f).rootSeen && Root(f, true).rootSeen
    ensures Reader(Root(f, true).open, true, f) == Root(f, true)
  {
    hide Units;
  }

  lemma ReadsTheLines(input: SubmissionInput)
    requires input.Valid()
    ensures ReadFrom(Rest(Lines(input)[1..]), START) == Some(Reader([], true, FieldsOf(input)))
  {
    hide ReadFrom, Lines, Rest, InHeader, InContent, Root, Units, SentAt;
    var f1 := [Attributes([ROOT], ROOT_ATTRIBUTES)];
    var f2 := f1 + [Content([ROOT, HEADER, MESSAGE_ID], input.messageId)];
    var f5 := f2 + [Content([ROOT, HEADER, SENT_AT], SentAt(input))]
      + [Content([ROOT, HEADER, SENDER, NAME], input.senderEmail)]
      + [Content([ROOT, HEADER, RECIPIENT, NAME], PHARMACY)];
    assert f5 == HeaderOf(input);
    var f6 := f5 + [Content([ROOT, CONTENT, SUBJECT], input.subject)];
    assert f6 + [Content([ROOT, CONTENT, TEXT], input.text)] == FieldsOf(input);
    ReadsRoot(input);
    ReadsHeaderStart(input, f1);
    ReadsHeaderRest(input, f2);
    ReadsToContent(input, f5);
    ReadsTheSubject(input, f5);
    ReadsTheText(input, f6);
    ReadsToTheEnd(input, f6 + [Content([ROOT, CONTENT, TEXT], input.text)]);
  }

  // --- What the reader does first: characters, line ends, the declaration ----------------------------------

  // XML characters, and no CR, so that end-of-line handling changes nothing.
  predicate IsClean(s: JsString) {
    IsXmlText(s) && CR !in s
  }

  lemma {:induction false} XmlTextJoins(a: JsString, b: JsString)
    requires IsXmlText(a) && IsXmlText(b)
    ensures IsXmlText(a + b)
  {
    if a == [] {
      assert a + b == b;
    } else if |a| >= 2 && IsHigh(a[0]) && IsLow(a[1]) && IsXmlText(a[2..]) {
      assert (a + b)[2..] == a[2..] + b;
      XmlTextJoins(a[2..], b);
    } else {
      assert (a + b)[1..] == a[1..] + b;
      XmlTextJoins(a[1..], b);
    }
  }

  lemma CleanJoins(a: JsString, b: JsString)
    requires IsClean(a) && IsClean(b)
    ensures IsClean(a + b)
  {
    XmlTextJoins(a, b);
  }

  lemma PlainIsClean(s: JsString)
    requires IsPlain(s)
    ensures IsClean(s)
  {
    PlainIsXmlText(s);
  }

  // The two ways in which XML text can go on: a surrogate pair, or one unit.
  predicate StartsWithAPair(s: JsString) {
    |s| >= 2 && IsHigh(s[0]) && IsLow(s[1]) && IsXmlText(s[2..])
  }

  lemma XmlTextGoesOn(s: JsString)
    requires IsXmlText(s) && s != [] && !StartsWithAPair(s)
    ensures IsXmlUnit(s[0]) && IsXmlText(s[1..])
  {
  }

  lemma PairsAreXmlText(high: CodeUnit, low: CodeUnit, rest: JsString)
    requires IsHigh(high) && IsLow(low) && IsXmlText(rest)
    ensures IsXmlText([high, low] + rest)
  {
    assert ([high, low] + rest)[2..] == rest;
  }

  lemma PairsStay(text: JsString)
    requires StartsWithAPair(text)
    ensures Escaped(text) == [text[0], text[1]] + Escaped(text[2..])
  {
    hide IsXmlText;
    assert text[1..][1..] == text[2..];
    assert EscapeUnit(text[0]) == [text[0]] && EscapeUnit(text[1]) == [text[1]];
    assert [text[0]] + ([text[1]] + Escaped(text[2..])) == [text[0], text[1]] + Escaped(text[2..]);
  }

  lemma EscapedUnitIsXmlText(u: CodeUnit)
    requires IsXmlUnit(u)
    ensures IsXmlText(EscapeUnit(u))
  {
    var head := EscapeUnit(u);
    if |head| == 1 {
      assert head[1..] == [];
    } else {
      PlainIsXmlText(head);
    }
  }

  lemma {:induction false} EscapedIsXmlText(text: JsString)
    requires IsXmlText(text)
    ensures IsXmlText(Escaped(text))
    decreases |text|
  {
    hide IsXmlText, EscapeUnit;
    if text == [] {
      NoText();
    } else if StartsWithAPair(text) {
      EscapedIsXmlText(text[2..]);
      PairsStay(text);
      PairsAreXmlText(text[0], text[1], Escaped(text[2..]));
    } else {
      XmlTextGoesOn(text);
      EscapedIsXmlText(text[1..]);
      EscapedUnitIsXmlText(text[0]);
      XmlTextJoins(EscapeUnit(text[0]), Escaped(text[1..]));
    }
  }

  lemma NoText()
    ensures IsXmlText([]) && Escaped([]) == []
  {
  }

  lemma EscapedIsClean(text: JsString)
    requires IsXmlText(text)
    ensures IsClean(EscapeText(text))
  {
    ChainedIsOnePass(text);
    EscapedIsXmlText(text);
    EscapedHoldsNoMarkup(text);
  }

  lemma ElementIsClean(name: JsString, content: JsString)
    requires IsPlain(name) && IsClean(content)
    ensures IsClean(Element(name, content)) && IsClean(INDENT + INDENT + Element(name, content))
  {
    PlainIsClean(StartTag(name));
    PlainIsClean(EndTag(name));
    PlainIsClean(INDENT + INDENT);
    hide IsClean;
    CleanJoins(StartTag(name), content);
    CleanJoins(StartTag(name) + content, EndTag(name));
    CleanJoins(INDENT + INDENT, Element(name, content));
  }

  lemma TagIsClean(name: JsString)
    requires IsPlain(name)
    ensures IsClean(StartTag(name)) && IsClean(EndTag(name))
    ensures IsClean(INDENT + StartTag(name)) && IsClean(INDENT + EndTag(name))
  {
    PlainIsClean(StartTag(name));
    PlainIsClean(EndTag(name));
    PlainIsClean(INDENT + StartTag(name));
    PlainIsClean(INDENT + EndTag(name));
  }

  predicate AllClean(lines: seq<JsString>) {
    forall i :: 0 <= i < |lines| ==> IsClean(lines[i])
  }

  lemma {:induction false} RestIsClean(lines: seq<JsString>)
    requires AllClean(lines)
    ensures IsClean(Rest(lines))
  {
    if lines != [] {
      RestIsClean(lines[1..]);
      PlainIsClean([LF]);
      CleanJoins([LF], lines[0]);
      CleanJoins([LF] + lines[0], Rest(lines[1..]));
    }
  }

  lemma MarkupIsClean(input: SubmissionInput)
    requires input.Valid()
    ensures var l := Lines(input);
      |l| == 13 && IsClean(l[0]) && IsClean(l[1]) && IsClean(l[2]) && IsClean(l[7]) && IsClean(l[8]) && IsClean(l[11])
      && IsClean(l[12])
  {
    hide Lines, Element, StartTag, EndTag, EscapeText, SentAt, IsClean, IsXmlText, Units;
    TheLines(input);
    NamesArePlain();
    PlainDeclaration();
    TagIsClean(ROOT + ROOT_ATTRIBUTES);
    hide IsPlain;
    TagIsClean(HEADER);
    TagIsClean(CONTENT);
    TagIsClean(ROOT);
  }

  lemma FieldsAreClean(input: SubmissionInput)
    requires input.Valid() && IsCarried(input)
    ensures var l := Lines(input);
      |l| == 13 && IsClean(l[3]) && IsClean(l[4]) && IsClean(l[5]) && IsClean(l[6]) && IsClean(l[9]) && IsClean(l[10])
  {
    PlainIsXmlText(PHARMACY);
    hide Lines, Element, StartTag, EndTag, EscapeText, SentAt, IsClean, IsXmlText, Units, IsPlain;
    TheLines(input);
    NamesArePlain();
    EscapedIsClean(input.messageId);
    ElementIsClean(MESSAGE_ID, EscapeText(input.messageId));
    SentAtIsUntouched(input);
    PlainIsClean(SentAt(input));
    ElementIsClean(SENT_AT, SentAt(input));
    EscapedIsClean(input.senderEmail);
    ElementIsClean(NAME, EscapeText(input.senderEmail));
    ElementIsClean(SENDER, Element(NAME, EscapeText(input.senderEmail)));
    EscapedIsClean(PHARMACY);
    ElementIsClean(NAME, EscapeText(PHARMACY));
    ElementIsClean(RECIPIENT, Element(NAME, EscapeText(PHARMACY)));
    EscapedIsClean(input.subject);
    ElementIsClean(SUBJECT, EscapeText(input.subject));
    EscapedIsClean(input.text);
    ElementIsClean(TEXT, EscapeText(input.text));
  }

  lemma LinesAreClean(input: SubmissionInput)
    requires input.Valid() && IsCarried(input)
    ensures AllClean(Lines(input))
  {
    hide Lines, IsClean;
    MarkupIsClean(input);
    FieldsAreClean(input);
  }

  lemma {:induction false} NormalizeLeaves(s: JsString)
    requires CR !in s
    ensures NormalizeEol(s) == s
  {
    if s != [] {
      NormalizeLeaves(s[1..]);
    }
  }

  lemma TheDeclaration(rest: JsString)
    ensures XML_DECL <= DECLARATION + rest
    ensures IndexOf(DECLARATION + rest, GT) == |DECLARATION| - 1
  {
    var before := DECLARATION[..|DECLARATION| - 1];
    assert GT !in before;
    assert DECLARATION == before + [GT];
    IndexOfIs(before, GT, rest);
    assert before + [GT] + rest == DECLARATION + rest;
    assert forall i :: 0 <= i < |XML_DECL| ==> XML_DECL[i] == DECLARATION[i];
  }

  lemma DeclaredDocumentReads(rest: JsString, found: seq<Found>)
    requires IsClean(rest) && ReadFrom(rest, START) == Some(Reader([], true, found))
    ensures ReadDocument(DECLARATION + rest) == Some(found)
  {
    var s := DECLARATION + rest;
    hide IsXmlText, ReadFrom, IndexOf, NormalizeEol, Units, IsPlain;
    PlainDeclaration();
    CleanJoins(DECLARATION, rest);
    NormalizeLeaves(s);
    TheDeclaration(rest);
    assert s[|DECLARATION|..] == rest;
  }

  // The round trip: whatever the values of a request are, if a document is built at all, its reader finds exactly
  // those values, each in its own element, and nothing else.
  lemma RecipientReadsTheRequest(input: SubmissionInput)
    requires input.Valid() && BuildSubmissionXml(input).Built?
    ensures ReadDocument(BuildSubmissionXml(input).xml) == Some(FieldsOf(input))
  {
    hide *;
    var l := Lines(input);
    BuiltExactlyWhenCarried(input);
    BuiltIsJoined(input);
    JoinIsRest(l);
    TheLines(input);
    LinesAreClean(input);
    CleanTail(l);
    RestIsClean(l[1..]);
    ReadsTheLines(input);
    DeclaredDocumentReads(Rest(l[1..]), FieldsOf(input));
  }

  lemma CleanTail(lines: seq<JsString>)
    requires AllClean(lines) && lines != []
    ensures AllClean(lines[1..])
  {
  }

  lemma PlainDeclaration()
    ensures IsClean(DECLARATION) && |DECLARATION| > 0
  {
    DeclarationIsAscii();
    hide IsPlain, IsClean;
    PlainText("<?xml version=\"1.0\" encoding=\"UTF-8\"?>");
    PlainIsClean(DECLARATION);
  }

  lemma DeclarationIsAscii()
    ensures var d := "<?xml version=\"1.0\" encoding=\"UTF-8\"?>";
      IsAscii(d) && forall i :: 0 <= i < |d| ==> ' ' <= d[i]
  {
  }
}
