/** backend/src/lib/tracing.ts: the trace of a request as a W3C traceparent and as an X-Ray header. */
module Tracing {
  import opened Basics
  import Strings

  predicate IsHex(c: char) {
    '0' <= c <= '9' || 'a' <= c <= 'f'
  }

  predicate IsHexText(s: string, n: nat) {
    |s| == n && forall i :: 0 <= i < n ==> IsHex(s[i])
  }

  predicate AllZeros(s: string) {
    forall i :: 0 <= i < |s| ==> s[i] == '0'
  }

  function HexChar(d: nat): (c: char)
    requires d < 16
    ensures IsHex(c) && HexValue(c) == d
  {
    if d < 10 then '0' + d as char else 'a' + (d - 10) as char
  }

  function HexValue(c: char): (d: nat)
    requires IsHex(c)
    ensures d < 16
  {
    if c <= '9' then c as int - '0' as int else c as int - 'a' as int + 10
  }

  datatype SpanContext = SpanContext(traceId: string, spanId: string, traceFlags: nat)

  // --- parseTraceparent and formatTraceparent ----------------------------------------------------

  // "00-" and 32, 16 and 2 hex digits: TRACEPARENT.
  predicate HasTheShape(s: string) {
    |s| == 55 && s[..3] == "00-" && s[35] == '-' && s[52] == '-'
    && IsHexText(s[3..35], 32) && IsHexText(s[36..52], 16) && IsHexText(s[53..], 2)
  }

  function ParseTraceparent(s: string): Option<SpanContext> {
    if !HasTheShape(s) || AllZeros(s[3..35]) || AllZeros(s[36..52]) then None
    else Some(SpanContext(s[3..35], s[36..52], HexValue(s[53]) * 16 + HexValue(s[54])))
  }

  // `toString(16)`
  function HexText(n: nat): (s: string)
    ensures |s| >= 1
  {
    if n < 16 then [HexChar(n)] else HexText(n / 16) + [HexChar(n % 16)]
  }

  function PadStart2(s: string): string
    requires |s| >= 1
  {
    if |s| == 1 then "0" + s else s
  }

  function Text(context: SpanContext): string {
    "00-" + context.traceId + "-" + context.spanId + "-" + PadStart2(HexText(context.traceFlags))
  }

  function FormatTraceparent(context: SpanContext): Option<string> {
    if ParseTraceparent(Text(context)).None? then None else Some(Text(context))
  }

  // Contexts that a traceparent can carry.
  predicate IsCarried(context: SpanContext) {
    && IsHexText(context.traceId, 32) && !AllZeros(context.traceId)
    && IsHexText(context.spanId, 16) && !AllZeros(context.spanId)
    && context.traceFlags < 256
  }

  lemma FlagsText(flags: nat)
    ensures flags < 256 ==>
      var s := PadStart2(HexText(flags));
      IsHexText(s, 2) && HexValue(s[0]) == flags / 16 && HexValue(s[1]) == flags % 16
    ensures flags >= 256 ==> |PadStart2(HexText(flags))| > 2
  {
    if 16 <= flags < 256 {
      assert HexText(flags / 16) == [HexChar(flags / 16)];
    } else if flags >= 256 {
      assert |HexText(flags / 16)| >= 2 by { assert flags / 16 >= 16; }
    }
  }

  lemma TextParts(context: SpanContext)
    requires |context.traceId| == 32 && |context.spanId| == 16
    ensures var s := Text(context);
      && s[..3] == "00-" && s[3..35] == context.traceId && s[35] == '-' && s[36..52] == context.spanId && s[52] == '-'
      && s[53..] == PadStart2(HexText(context.traceFlags))
  {
    hide PadStart2, HexText;
    var f := PadStart2(HexText(context.traceFlags));
    var s := Text(context);
    assert s == "00-" + (context.traceId + ("-" + (context.spanId + ("-" + f))));
  }

  // Every context that hex digits can carry is written, and what is written reads back as the same context.
  lemma WrittenContextsReadBack(context: SpanContext)
    requires IsCarried(context)
    ensures FormatTraceparent(context).Some?
    ensures ParseTraceparent(FormatTraceparent(context).value) == Some(context)
  {
    var s := Text(context);
    TextParts(context);
    FlagsText(context.traceFlags);
    hide Text, HexText, PadStart2;
    var f := s[53..];
    assert |s| == 53 + |f| && s[53] == f[0] && s[54] == f[1];
    assert HasTheShape(s);
  }

  lemma ReadContextsAreCarried(s: string)
    ensures ParseTraceparent(s).Some? ==> IsCarried(ParseTraceparent(s).value)
  {
  }

  lemma PartsMakeTheText(s: string, t: string)
    requires |s| == |t| == 55 && s[..3] == t[..3] && s[3..35] == t[3..35] && s[35] == t[35] && s[36..52] == t[36..52]
    requires s[52] == t[52] && s[53] == t[53] && s[54] == t[54]
    ensures s == t
  {
    assert s == s[..3] + s[3..35] + [s[35]] + s[36..52] + [s[52], s[53], s[54]];
    assert t == t[..3] + t[3..35] + [t[35]] + t[36..52] + [t[52], t[53], t[54]];
  }

  // Of every traceparent there is exactly one spelling: what was read is written the same way again.
  lemma ReadTextsAreWrittenBack(s: string)
    requires ParseTraceparent(s).Some?
    ensures FormatTraceparent(ParseTraceparent(s).value) == Some(s)
  {
    var context := ParseTraceparent(s).value;
    var t := Text(context);
    assert |context.traceId| == 32 && |context.spanId| == 16;
    hide HexText, PadStart2, Text, IsHexText, AllZeros;
    WrittenContextsReadBack(context);
    TextParts(context);
    OneDigit(s[53], t[53]);
    OneDigit(s[54], t[54]);
    PartsMakeTheText(s, t);
  }

  lemma OneDigit(c: char, d: char)
    ensures IsHex(c) && IsHex(d) && HexValue(c) == HexValue(d) ==> c == d
  {
  }

  // Ids of any other length do not fit the shape: a separator would stand where a hex digit has to be.
  lemma TheShapeFixesTheLengths(context: SpanContext)
    requires HasTheShape(Text(context))
    ensures |context.traceId| == 32 && |context.spanId| == 16
  {
    FlagsHaveTwoDigits(context.traceFlags);
    hide HexText, PadStart2;
    var t, p := |context.traceId|, |context.spanId|;
    var s := Text(context);
    var f := PadStart2(HexText(context.traceFlags));
    assert s == "00-" + (context.traceId + ("-" + (context.spanId + ("-" + f))));
    assert |s| == 3 + t + 1 + p + 1 + |f| && s[3 + t] == '-' && s[3 + t + 1 + p] == '-';
    HexHasNoHyphen(s[3..35], 32);
    HexHasNoHyphen(s[36..52], 16);
    assert forall i :: 3 <= i < 35 ==> s[i] == s[3..35][i - 3];
    assert forall i :: 36 <= i < 52 ==> s[i] == s[36..52][i - 36];
  }

  lemma HexHasNoHyphen(s: string, n: nat)
    requires IsHexText(s, n)
    ensures forall i :: 0 <= i < n ==> s[i] != '-'
  {
  }

  lemma FlagsHaveTwoDigits(flags: nat)
    ensures |PadStart2(HexText(flags))| >= 2
  {
  }

  // A context is written exactly when it can be read back: ids of 32 and 16 hex digits, not all zeros, and one byte of
  // flags.
  lemma WrittenExactlyWhenCarried(context: SpanContext)
    ensures FormatTraceparent(context).Some? <==> IsCarried(context)
  {
    if IsCarried(context) {
      WrittenContextsReadBack(context);
    }
    var s := Text(context);
    if ParseTraceparent(s).Some? {
      TheShapeFixesTheLengths(context);
      TextParts(context);
      FlagsText(context.traceFlags);
      assert |s| == 53 + |PadStart2(HexText(context.traceFlags))|;
    }
  }

  // --- The X-Ray header ----------------------------------------------------------------------------

  function ToXRayTraceHeader(traceparent: string): Option<string> {
    var parsed := ParseTraceparent(traceparent);
    if parsed.None? then None
    else
      var p := parsed.value;
      ReadContextsAreCarried(traceparent);
      Some("Root=1-" + p.traceId[..8] + "-" + p.traceId[8..] + ";Parent=" + p.spanId + ";Sampled="
           + (if p.traceFlags % 2 == 1 then "1" else "0"))
  }

  // `split` on one character.
  function Split(s: string, c: char): (parts: seq<string>)
    ensures |parts| >= 1
  {
    if s == "" then [""]
    else
      var rest := Split(s[1..], c);
      if s[0] == c then [""] + rest else [[s[0]] + rest[0]] + rest[1..]
  }

  // A part of the header: its name, and its value up to a second "=".
  function NameOf(part: string): string {
    Split(Strings.Trim(part), '=')[0]
  }

  function ValueOf(part: string): string {
    var pieces := Split(Strings.Trim(part), '=');
    if |pieces| == 1 then "" else pieces[1]
  }

  // `fields.get(name) ?? ""`: the last part of that name counts.
  function Field(parts: seq<string>, name: string): string {
    if parts == [] then ""
    else if NameOf(parts[|parts| - 1]) == name then ValueOf(parts[|parts| - 1])
    else Field(parts[..|parts| - 1], name)
  }

  // XRAY_ROOT
  predicate IsRoot(s: string) {
    |s| == 35 && s[..2] == "1-" && IsHexText(s[2..10], 8) && s[10] == '-' && IsHexText(s[11..], 24)
  }

  function ContextFromParts(parts: seq<string>): Option<SpanContext> {
    var root, parent, sampled := Field(parts, "Root"), Field(parts, "Parent"), Field(parts, "Sampled");
    if !IsRoot(root) || !IsHexText(parent, 16) || (sampled != "0" && sampled != "1") then None
    else ParseTraceparent("00-" + root[2..10] + root[11..] + "-" + parent + "-0" + sampled)
  }

  function ContextFromXRayTraceHeader(header: string): Option<SpanContext> {
    ContextFromParts(Split(header, ';'))
  }

  // --- There and back ------------------------------------------------------------------------------

  lemma {:induction false} SplitWhole(s: string, c: char)
    requires c !in s
    ensures Split(s, c) == [s]
  {
    if s != "" {
      SplitWhole(s[1..], c);
      assert [s[0]] + s[1..] == s;
    }
  }

  lemma {:induction false} SplitAt(a: string, b: string, c: char)
    requires c !in a
    ensures Split(a + [c] + b, c) == [a] + Split(b, c)
  {
    if a == "" {
      assert (a + [c] + b)[1..] == b;
    } else {
      assert (a + [c] + b)[1..] == a[1..] + [c] + b;
      SplitAt(a[1..], b, c);
      assert [a[0]] + a[1..] == a;
    }
  }

  // A plain field: no separators, and no white space around it.
  predicate IsPlainField(name: string, value: string) {
    && name != "" && value != "" && '=' !in name && '=' !in value
    && !Strings.IsSpace(name[0]) && !Strings.IsSpace(value[|value| - 1])
  }

  lemma PlainFieldReads(name: string, value: string)
    requires IsPlainField(name, value)
    ensures NameOf(name + "=" + value) == name && ValueOf(name + "=" + value) == value
  {
    var part := name + "=" + value;
    hide Strings.IsSpace;
    Strings.TrimDrops("", part, "");
    assert "" + part + "" == part;
    SplitAt(name, value, '=');
    SplitWhole(value, '=');
  }

  // Fields of other names change nothing, wherever they stand.
  predicate IsUnrelated(part: string) {
    NameOf(part) != "Root" && NameOf(part) != "Parent" && NameOf(part) != "Sampled"
  }

  lemma {:induction false} UnrelatedFieldsAreIgnored(parts: seq<string>, more: seq<string>, name: string)
    requires forall i :: 0 <= i < |more| ==> NameOf(more[i]) != name
    ensures Field(parts + more, name) == Field(parts, name)
  {
    if more == [] {
      assert parts + more == parts;
    } else {
      var n := |more| - 1;
      assert (parts + more)[..|parts| + n] == parts + more[..n];
      UnrelatedFieldsAreIgnored(parts, more[..n], name);
    }
  }

  lemma {:induction false} LastFieldCounts(parts: seq<string>, part: string, more: seq<string>, name: string)
    requires NameOf(part) == name && forall i :: 0 <= i < |more| ==> NameOf(more[i]) != name
    ensures Field(parts + [part] + more, name) == ValueOf(part)
  {
    UnrelatedFieldsAreIgnored(parts + [part], more, name);
  }

  function Sampled(flags: nat): string {
    if flags % 2 == 1 then "1" else "0"
  }

  lemma HexHasNoSeparator(s: string, n: nat)
    requires IsHexText(s, n)
    ensures ';' !in s && '=' !in s && (forall i :: 0 <= i < n ==> !Strings.IsSpace(s[i]))
  {
  }

  // The three parts of a header.
  function RootPart(p: SpanContext): string
    requires |p.traceId| >= 8
  {
    "Root=1-" + p.traceId[..8] + "-" + p.traceId[8..]
  }

  lemma HeaderParts(traceparent: string)
    requires ParseTraceparent(traceparent).Some?
    ensures var p := ParseTraceparent(traceparent).value;
      && |p.traceId| == 32
      && Split(ToXRayTraceHeader(traceparent).value, ';')
         == [RootPart(p), "Parent=" + p.spanId, "Sampled=" + Sampled(p.traceFlags)]
  {
    hide Split, ParseTraceparent;
    ReadContextsAreCarried(traceparent);
    var p := ParseTraceparent(traceparent).value;
    HexHasNoSeparator(p.traceId, 32);
    HexHasNoSeparator(p.spanId, 16);
    var a, b, c := RootPart(p), "Parent=" + p.spanId, "Sampled=" + Sampled(p.traceFlags);
    assert ToXRayTraceHeader(traceparent).value == a + ";" + (b + ";" + c);
    SplitAt(a, b + ";" + c, ';');
    SplitAt(b, c, ';');
    SplitWhole(c, ';');
    assert [a] + ([b] + [c]) == [a, b, c];
  }

  lemma ThePartsRead(p: SpanContext)
    requires IsCarried(p)
    ensures NameOf(RootPart(p)) == "Root" && ValueOf(RootPart(p)) == "1-" + p.traceId[..8] + "-" + p.traceId[8..]
    ensures NameOf("Parent=" + p.spanId) == "Parent" && ValueOf("Parent=" + p.spanId) == p.spanId
    ensures NameOf("Sampled=" + Sampled(p.traceFlags)) == "Sampled"
    ensures ValueOf("Sampled=" + Sampled(p.traceFlags)) == Sampled(p.traceFlags)
  {
    var root := "1-" + p.traceId[..8] + "-" + p.traceId[8..];
    HexHasNoSeparator(p.traceId, 32);
    HexHasNoSeparator(p.spanId, 16);
    assert root[|root| - 1] == p.traceId[31];
    assert RootPart(p) == "Root" + "=" + root;
    assert "Parent=" + p.spanId == "Parent" + "=" + p.spanId;
    assert "Sampled=" + Sampled(p.traceFlags) == "Sampled" + "=" + Sampled(p.traceFlags);
    hide NameOf, ValueOf, IsHexText, AllZeros;
    PlainFieldReads("Root", root);
    PlainFieldReads("Parent", p.spanId);
    PlainFieldReads("Sampled", Sampled(p.traceFlags));
  }

  // Among unrelated fields, each of our three is found.
  lemma ThreeFieldsCount(before: seq<string>, a: string, b: string, c: string, after: seq<string>)
    requires NameOf(a) == "Root" && NameOf(b) == "Parent" && NameOf(c) == "Sampled"
    requires forall i :: 0 <= i < |after| ==> IsUnrelated(after[i])
    ensures
      var parts := before + [a, b, c] + after;
      && Field(parts, "Root") == ValueOf(a) && Field(parts, "Parent") == ValueOf(b)
      && Field(parts, "Sampled") == ValueOf(c)
  {
    hide NameOf, ValueOf, Field;
    var parts := before + [a, b, c] + after;
    assert parts == before + [a] + ([b, c] + after) == (before + [a]) + [b] + ([c] + after)
      == (before + [a, b]) + [c] + after;
    LastFieldCounts(before, a, [b, c] + after, "Root");
    LastFieldCounts(before + [a], b, [c] + after, "Parent");
    LastFieldCounts(before + [a, b], c, after, "Sampled");
  }

  // The trace continues on the other side of the queue: the same trace and span, and of the flags exactly the sampled
  // bit, also when SQS or X-Ray puts fields of its own around ours.
  lemma TheTraceSurvivesTheQueue(traceparent: string, before: seq<string>, after: seq<string>)
    requires ParseTraceparent(traceparent).Some?
    requires forall part :: part in before + after ==> IsUnrelated(part)
    ensures var p := ParseTraceparent(traceparent).value;
      ContextFromParts(before + Split(ToXRayTraceHeader(traceparent).value, ';') + after)
      == Some(SpanContext(p.traceId, p.spanId, p.traceFlags % 2))
  {
    hide NameOf, ValueOf, Field, ParseTraceparent, IsRoot, RootPart, ToXRayTraceHeader, Split, IsUnrelated;
    var p := ParseTraceparent(traceparent).value;
    ReadContextsAreCarried(traceparent);
    HeaderParts(traceparent);
    ThePartsRead(p);
    assert forall i :: 0 <= i < |after| ==> IsUnrelated(after[i]) by {
      assert forall i :: 0 <= i < |after| ==> after[i] in before + after;
    }
    ThreeFieldsCount(before, RootPart(p), "Parent=" + p.spanId, "Sampled=" + Sampled(p.traceFlags), after);
    TheRootReads(p);
  }

  lemma TheRootReads(p: SpanContext)
    requires IsCarried(p)
    ensures var root := "1-" + p.traceId[..8] + "-" + p.traceId[8..];
      && IsRoot(root)
      && ParseTraceparent("00-" + root[2..10] + root[11..] + "-" + p.spanId + "-0" + Sampled(p.traceFlags))
         == Some(SpanContext(p.traceId, p.spanId, p.traceFlags % 2))
  {
    var root := "1-" + p.traceId[..8] + "-" + p.traceId[8..];
    assert root[2..10] == p.traceId[..8] && root[11..] == p.traceId[8..] && root[..2] == "1-";
    var q := SpanContext(p.traceId, p.spanId, p.traceFlags % 2);
    assert root[2..10] + root[11..] == p.traceId;
    assert HexText(q.traceFlags) == Sampled(p.traceFlags);
    var text := "00-" + root[2..10] + root[11..] + "-" + p.spanId + "-0" + Sampled(p.traceFlags);
    assert text == Text(q);
    hide HexText, PadStart2, Text;
    WrittenContextsReadBack(q);
  }

  // The header alone.
  lemma TheTraceSurvives(traceparent: string)
    requires ParseTraceparent(traceparent).Some?
    ensures var p := ParseTraceparent(traceparent).value;
      ContextFromXRayTraceHeader(ToXRayTraceHeader(traceparent).value)
      == Some(SpanContext(p.traceId, p.spanId, p.traceFlags % 2))
  {
    hide ParseTraceparent, Split, ContextFromParts;
    var parts := Split(ToXRayTraceHeader(traceparent).value, ';');
    assert [] + parts + [] == parts;
    TheTraceSurvivesTheQueue(traceparent, [], []);
  }

  // Text appended to the header, after a separator, is further parts.
  lemma {:induction false} AppendedTextIsParts(header: string, more: string)
    ensures Split(header + ";" + more, ';') == Split(header, ';') + Split(more, ';')
  {
    if header == "" {
      assert header + ";" + more == "" + [';'] + more;
      SplitAt("", more, ';');
    } else {
      assert (header + ";" + more)[1..] == header[1..] + ";" + more;
      AppendedTextIsParts(header[1..], more);
    }
  }

  lemma TheTraceSurvivesAppendedText(traceparent: string, more: string)
    requires ParseTraceparent(traceparent).Some?
    requires forall part :: part in Split(more, ';') ==> IsUnrelated(part)
    ensures var p := ParseTraceparent(traceparent).value;
      ContextFromXRayTraceHeader(ToXRayTraceHeader(traceparent).value + ";" + more)
      == Some(SpanContext(p.traceId, p.spanId, p.traceFlags % 2))
  {
    hide ParseTraceparent, Split, ContextFromParts, IsUnrelated;
    var parts := Split(ToXRayTraceHeader(traceparent).value, ';');
    assert [] + parts + Split(more, ';') == parts + Split(more, ';');
    AppendedTextIsParts(ToXRayTraceHeader(traceparent).value, more);
    TheTraceSurvivesTheQueue(traceparent, [], Split(more, ';'));
  }
}
