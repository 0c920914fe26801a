/** A small reader of XML 1.0 documents, written from the specification and not from the builder:
    characters (section 2.2), character data and markup (2.4), end of line (2.11), references (4.1).
    It reads elements with text or with child elements; comments, CDATA, processing instructions, a
    DOCTYPE, empty-element tags and mixed content are refused. */
module XmlReader {
  import opened Basics
  import opened Utf16
  import opened SubmissionXml

  // --- 2.11: CR LF, and CR alone, are one line feed ----------------------------------------------

  function NormalizeEol(s: JsString): JsString {
    if s == [] then []
    else if s[0] != CR then [s[0]] + NormalizeEol(s[1..])
    else if |s| >= 2 && s[1] == LF then [LF] + NormalizeEol(s[2..])
    else [LF] + NormalizeEol(s[1..])
  }

  predicate IsSpace(u: CodeUnit) {
    u == SPACE || u == TAB || u == LF || u == CR
  }

  predicate AllSpace(s: JsString) {
    forall i :: 0 <= i < |s| ==> IsSpace(s[i])
  }

  // The first position of a unit, or the length of the text.
  function IndexOf(s: JsString, u: CodeUnit): (k: nat)
    ensures k <= |s| && u !in s[..k] && (k < |s| ==> s[k] == u)
  {
    if s == [] || s[0] == u then 0 else 1 + IndexOf(s[1..], u)
  }

  // --- 4.1: references ---------------------------------------------------------------------------

  function HexDigit(u: CodeUnit): Option<nat> {
    if 0x30 <= u <= 0x39 then Some(u as nat - 0x30)
    else if 0x41 <= u <= 0x46 then Some(u as nat - 0x41 + 10)
    else if 0x61 <= u <= 0x66 then Some(u as nat - 0x61 + 10)
    else None
  }

  // A numeral in base 10 or 16.
  function Numeral(s: JsString, base: nat, sofar: nat): Option<nat> {
    if s == [] then Some(sofar)
    else
      var d := HexDigit(s[0]);
      if d.None? || d.value >= base then None else Numeral(s[1..], base, sofar * base + d.value)
  }

  // The units of a code point that the Char production allows.
  function CharOf(point: nat): Option<JsString> {
    if point < 0x10000 then
      if IsXmlUnit(point as CodeUnit) then Some([point as CodeUnit]) else None
    else if point < 0x110000 then
      var n := point - 0x10000;
      Some([(0xD800 + n / 0x400) as CodeUnit, (0xDC00 + n % 0x400) as CodeUnit])
    else None
  }

  // What stands between & and ;.
  function Expand(reference: JsString): Option<JsString> {
    if reference == [0x61, 0x6D, 0x70] then Some([AMP])
    else if reference == [0x6C, 0x74] then Some([LT])
    else if reference == [0x67, 0x74] then Some([GT])
    else if reference == [0x71, 0x75, 0x6F, 0x74] then Some([0x22])
    else if reference == [0x61, 0x70, 0x6F, 0x73] then Some([0x27])
    else if |reference| >= 3 && reference[..2] == [0x23, 0x78] then
      var n := Numeral(reference[2..], 16, 0);
      if n.None? then None else CharOf(n.value)
    else if |reference| >= 2 && reference[0] == 0x23 then
      var n := Numeral(reference[1..], 10, 0);
      if n.None? then None else CharOf(n.value)
    else None
  }

  // --- 2.4: markup and character data ------------------------------------------------------------

  type Path = seq<JsString>

  // What a document says, in document order.
  datatype Found = Attributes(path: Path, written: JsString) | Content(path: Path, written: JsString)

  // An element that is not closed yet.
  datatype Open = Open(name: JsString, text: JsString, hasChildren: bool)

  datatype Reader = Reader(open: seq<Open>, rootSeen: bool, found: seq<Found>)

  const START := Reader([], false, [])

  function PathOf(open: seq<Open>): Path {
    seq(|open|, i requires 0 <= i < |open| => open[i].name)
  }

  function Last(r: Reader): Open
    requires r.open != []
  {
    r.open[|r.open| - 1]
  }

  // A child element may begin: at the top only the root, elsewhere only among white space.
  predicate MayHaveChild(r: Reader) {
    if r.open == [] then !r.rootSeen else Last(r).hasChildren || AllSpace(Last(r).text)
  }

  function OpenElement(r: Reader, name: JsString, attributes: JsString): Option<Reader> {
    if name == [] || !MayHaveChild(r) then None
    else
      var parents :=
        if r.open == [] then [] else r.open[..|r.open| - 1] + [Open(Last(r).name, [], true)];
      var open := parents + [Open(name, [], false)];
      Some(Reader(open, true, if attributes == [] then r.found else r.found + [Attributes(PathOf(open), attributes)]))
  }

  // The text of an element without child elements is its content.
  function CloseElement(r: Reader, name: JsString): Option<Reader> {
    if r.open == [] || Last(r).name != name then None
    else
      var rest := r.open[..|r.open| - 1];
      Some(Reader(rest, true,
                  if Last(r).hasChildren then r.found else r.found + [Content(PathOf(r.open), Last(r).text)]))
  }

  // Character data. White space between elements says nothing.
  function AddText(r: Reader, text: JsString): Option<Reader> {
    if r.open == [] || Last(r).hasChildren then
      if AllSpace(text) then Some(r) else None
    else
      Some(r.(open := r.open[..|r.open| - 1] + [Last(r).(text := Last(r).text + text)]))
  }

  // What stands between < and >.
  function Tag(r: Reader, tag: JsString): Option<Reader> {
    if tag == [] || tag[0] == 0x21 || tag[0] == 0x3F || tag[|tag| - 1] == SLASH then None
    else if tag[0] == SLASH then CloseElement(r, tag[1..])
    else
      var k := IndexOf(tag, SPACE);
      OpenElement(r, tag[..k], tag[k..])
  }

  const CDATA_END: JsString := [BRACKET, BRACKET, GT]

  // None as soon as something is not well-formed, or not read by this reader.
  function ReadFrom(s: JsString, r: Reader): Option<Reader> {
    if s == [] then Some(r)
    else if s[0] == LT then
      var k := IndexOf(s, GT);
      if k == |s| then None
      else
        var next := Tag(r, s[1..k]);
        if next.None? then None else ReadFrom(s[k + 1..], next.value)
    else if s[0] == AMP then
      var k := IndexOf(s, SEMICOLON);
      if k == |s| then None
      else
        var text := Expand(s[1..k]);
        if text.None? || r.open == [] then None
        else
          var next := AddText(r, text.value);
          if next.None? then None else ReadFrom(s[k + 1..], next.value)
    else if |s| >= 3 && s[..3] == CDATA_END then None
    else
      var next := AddText(r, s[..1]);
      if next.None? then None else ReadFrom(s[1..], next.value)
  }

  const XML_DECL: JsString := Units("<?xml")

  // The whole document: an optional declaration, then one root element and nothing else but white space.
  function ReadDocument(document: JsString): Option<seq<Found>> {
    if !IsXmlText(document) then None
    else
      var s := NormalizeEol(document);
      var k := IndexOf(s, GT);
      var body := if XML_DECL <= s && k < |s| then s[k + 1..] else s;
      var end := ReadFrom(body, START);
      if end.None? || end.value.open != [] || !end.value.rootSeen then None else Some(end.value.found)
  }
}
