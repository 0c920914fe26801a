/** JavaScript strings: sequences of UTF-16 code units, lone surrogates included. */
module Utf16 {

  newtype CodeUnit = x: int | 0 <= x < 0x10000

  type JsString = seq<CodeUnit>

  predicate IsAscii(s: string) {
    forall i :: 0 <= i < |s| ==> s[i] < 128 as char
  }

  // The code units of a text that is plain ASCII (our own constants, ids and timestamps).
  function Units(s: string): (u: JsString)
    requires IsAscii(s)
    ensures |u| == |s|
    ensures forall i :: 0 <= i < |s| ==> u[i] == (s[i] as int) as CodeUnit
  {
    seq(|s|, i requires 0 <= i < |s| => (s[i] as int) as CodeUnit)
  }

  predicate Contains(text: JsString, part: JsString) {
    exists i {:trigger text[i..]} :: 0 <= i <= |text| && part <= text[i..]
  }

  predicate IsHigh(u: CodeUnit) { 0xD800 <= u < 0xDC00 }
  predicate IsLow(u: CodeUnit) { 0xDC00 <= u < 0xE000 }

  // The bytes of the text in UTF-8. Half a surrogate pair is written as U+FFFD.
  function Utf8Length(s: JsString): nat {
    if s == [] then 0
    else if |s| >= 2 && IsHigh(s[0]) && IsLow(s[1]) then 4 + Utf8Length(s[2..])
    else (if s[0] < 0x80 then 1 else if s[0] < 0x800 then 2 else 3) + Utf8Length(s[1..])
  }

  // Joining texts can only save bytes, where it makes a surrogate pair whole.
  lemma {:induction false} Utf8Joins(a: JsString, b: JsString)
    ensures Utf8Length(a + b) <= Utf8Length(a) + Utf8Length(b)
  {
    if a == [] {
      assert a + b == b;
    } else if |a| >= 2 && IsHigh(a[0]) && IsLow(a[1]) {
      assert (a + b)[2..] == a[2..] + b;
      Utf8Joins(a[2..], b);
    } else {
      assert (a + b)[1..] == a[1..] + b;
      if |a| == 1 && IsHigh(a[0]) && b != [] && IsLow(b[0]) {
        assert (a + b)[2..] == b[1..];
      } else {
        Utf8Joins(a[1..], b);
      }
    }
  }

  lemma {:induction false} Utf8OfAscii(s: JsString)
    requires forall i :: 0 <= i < |s| ==> s[i] < 0x80
    ensures Utf8Length(s) == |s|
  {
    if s != [] {
      Utf8OfAscii(s[1..]);
    }
  }
}
