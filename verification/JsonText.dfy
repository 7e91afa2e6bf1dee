/**
 JSON string literals over UTF-16 code units, as JSON.stringify writes them: the short
 escapes, \u escapes for the other control units and for lone surrogates, everything else
 as it is. A reader that undoes it.
 */
module JsonText {
  import opened Base

  type Unit = u: nat | u < 0x10000
  type Text = seq<Unit>

  const QUOTE: Unit := 0x22
  const BACKSLASH: Unit := 0x5C
  const LOWER_U: Unit := 0x75

  predicate IsHigh(u: Unit) { 0xD800 <= u <= 0xDBFF }

  predicate IsLow(u: Unit) { 0xDC00 <= u <= 0xDFFF }

  function HexDigit(d: nat): (u: Unit)
    requires d < 16
  {
    if d < 10 then 0x30 + d else 0x61 + (d - 10)
  }

  function HexValue(u: Unit): Option<nat> {
    if 0x30 <= u <= 0x39 then Some(u - 0x30)
    else if 0x61 <= u <= 0x66 then Some(u - 0x61 + 10)
    else None
  }

  function HexEscape(u: Unit): Text {
    [BACKSLASH, LOWER_U, HexDigit(u / 4096), HexDigit(u / 256 % 16), HexDigit(u / 16 % 16), HexDigit(u % 16)]
  }

  /** The letter of a two-unit escape. */
  function ShortEscape(u: Unit): Option<Unit> {
    if u == 0x08 then Some(0x62)
    else if u == 0x09 then Some(0x74)
    else if u == 0x0A then Some(0x6E)
    else if u == 0x0C then Some(0x66)
    else if u == 0x0D then Some(0x72)
    else if u == QUOTE then Some(QUOTE)
    else if u == BACKSLASH then Some(BACKSLASH)
    else None
  }

  function Unshort(letter: Unit): Option<Unit> {
    if letter == 0x62 then Some(0x08)
    else if letter == 0x74 then Some(0x09)
    else if letter == 0x6E then Some(0x0A)
    else if letter == 0x66 then Some(0x0C)
    else if letter == 0x72 then Some(0x0D)
    else if letter == QUOTE then Some(QUOTE)
    else if letter == BACKSLASH then Some(BACKSLASH)
    else None
  }

  function EscapeUnit(u: Unit): Text {
    if ShortEscape(u).Some? then [BACKSLASH, ShortEscape(u).value]
    else if u < 0x20 || IsHigh(u) || IsLow(u) then HexEscape(u)
    else [u]
  }

  function Escape(s: Text): Text {
    if s == [] then []
    else if |s| > 1 && IsHigh(s[0]) && IsLow(s[1]) then [s[0], s[1]] + Escape(s[2..])
    else EscapeUnit(s[0]) + Escape(s[1..])
  }

  function Quote(s: Text): Text { [QUOTE] + Escape(s) + [QUOTE] }

  function Hex4(t: Text): Option<Unit>
    requires |t| >= 4
  {
    var a, b, c, d := HexValue(t[0]), HexValue(t[1]), HexValue(t[2]), HexValue(t[3]);
    if a.Some? && b.Some? && c.Some? && d.Some? && a.value < 16 && b.value < 16 && c.value < 16 && d.value < 16
    then Some(a.value * 4096 + b.value * 256 + c.value * 16 + d.value)
    else None
  }

  datatype Read<T> = Read(value: T, rest: Text)

  /** The unit at the front of a literal, and what follows it; None at its closing quote. */
  function ReadUnit(t: Text): (r: Option<Read<Unit>>)
    ensures r.Some? ==> |r.value.rest| < |t|
  {
    if t == [] || t[0] == QUOTE then None
    else if t[0] != BACKSLASH then Some(Read(t[0], t[1..]))
    else if |t| < 2 then None
    else if t[1] != LOWER_U then
      var u := Unshort(t[1]); if u.Some? then Some(Read(u.value, t[2..])) else None
    else if |t| < 6 then None
    else var u := Hex4(t[2..6]); if u.Some? then Some(Read(u.value, t[6..])) else None
  }

  /** Reads a literal whose opening quote is already gone. */
  function ReadString(t: Text): (r: Option<Read<Text>>)
    ensures r.Some? ==> |r.value.rest| < |t|
  {
    if t == [] then None
    else if t[0] == QUOTE then Some(Read([], t[1..]))
    else
      var u := ReadUnit(t);
      if u.None? then None
      else
        var more := ReadString(u.value.rest);
        if more.Some? then Some(Read([u.value.value] + more.value.value, more.value.rest)) else None
  }

  lemma ReadUnitUndoesEscape(u: Unit, r: Text)
    ensures ReadUnit(EscapeUnit(u) + r) == Some(Read(u, r))
    ensures EscapeUnit(u)[0] != QUOTE
  {
    var t := EscapeUnit(u) + r;
    if ShortEscape(u).Some? {
      assert t[2..] == r;
    } else if u < 0x20 || IsHigh(u) || IsLow(u) {
      assert t[2..6] == HexEscape(u)[2..6] && t[6..] == r;
      HexDigits(u);
    } else {
      assert t[1..] == r;
    }
  }

  lemma HexDigits(u: Unit)
    ensures u / 4096 * 4096 + u / 256 % 16 * 256 + u / 16 % 16 * 16 + u % 16 == u
    ensures Hex4(HexEscape(u)[2..6]) == Some(u)
  {
    assert u / 16 / 16 == u / 256 && u / 256 / 16 == u / 4096;
    var a, b, c := u / 16, u / 256, u / 4096;
    assert u == 16 * a + u % 16 && a == 16 * b + a % 16 && b == 16 * c + b % 16;
  }

  lemma ReadOne(t: Text, u: Unit, tail: Text, s: Text, r: Text)
    requires t != [] && t[0] != QUOTE && ReadUnit(t) == Some(Read(u, tail)) && ReadString(tail) == Some(Read(s, r))
    ensures ReadString(t) == Some(Read([u] + s, r))
  {}

  lemma ReadPlain(u: Unit, tail: Text)
    requires u != QUOTE && u != BACKSLASH
    ensures ReadUnit([u] + tail) == Some(Read(u, tail))
  {
    assert ([u] + tail)[1..] == tail;
  }

  lemma ReadPair(high: Unit, low: Unit, tail: Text, s: Text, r: Text)
    requires IsHigh(high) && IsLow(low) && ReadString(tail) == Some(Read(s, r))
    ensures ReadString([high, low] + tail) == Some(Read([high, low] + s, r))
  {
    ReadPlain(low, tail);
    ReadOne([low] + tail, low, tail, s, r);
    ReadPlain(high, [low] + tail);
    ReadOne([high] + ([low] + tail), high, [low] + tail, [low] + s, r);
    assert [high] + ([low] + tail) == [high, low] + tail && [high] + ([low] + s) == [high, low] + s;
  }

  lemma Regroup(p: Text, q: Text, r: Text)
    ensures p + q + [QUOTE] + r == p + (q + [QUOTE] + r)
  {}

  /** Reading a written literal gives back the string and whatever followed. */
  lemma {:induction false} ReadUndoesQuote(s: Text, r: Text)
    ensures ReadString(Escape(s) + [QUOTE] + r) == Some(Read(s, r))
    decreases |s|
  {
    if s == [] {
      assert Escape(s) + [QUOTE] + r == [QUOTE] + r && ([QUOTE] + r)[1..] == r;
    } else if |s| > 1 && IsHigh(s[0]) && IsLow(s[1]) {
      ReadUndoesQuote(s[2..], r);
      Regroup([s[0], s[1]], Escape(s[2..]), r);
      ReadPair(s[0], s[1], Escape(s[2..]) + [QUOTE] + r, s[2..], r);
      assert [s[0], s[1]] + s[2..] == s;
    } else {
      var tail := Escape(s[1..]) + [QUOTE] + r;
      ReadUndoesQuote(s[1..], r);
      ReadUnitUndoesEscape(s[0], tail);
      ReadOne(EscapeUnit(s[0]) + tail, s[0], tail, s[1..], r);
      Regroup(EscapeUnit(s[0]), Escape(s[1..]), r);
      assert [s[0]] + s[1..] == s;
    }
  }

  // ---------------------------------------------------------------- what the text looks like

  /** A text written down: its characters as code units. */
  function Ascii(s: string): (t: Text)
    requires forall i :: 0 <= i < |s| ==> s[i] as int < 128
    ensures |t| == |s| && forall i :: 0 <= i < |s| ==> t[i] == s[i] as int
  {
    seq(|s|, i requires 0 <= i < |s| => s[i] as int)
  }

  /** Seven units have an escape of their own. */
  lemma ShortEscapes()
    ensures EscapeUnit('\"' as int) == Ascii("\\\"") && EscapeUnit('\\' as int) == Ascii("\\\\")
    ensures EscapeUnit(8) == Ascii("\\b") && EscapeUnit(9) == Ascii("\\t") && EscapeUnit(10) == Ascii("\\n")
    ensures EscapeUnit(12) == Ascii("\\f") && EscapeUnit(13) == Ascii("\\r")
  {}

  /** Every other control unit and every surrogate is written in hexadecimal, the rest as it is. */
  lemma OtherEscapes(u: Unit)
    requires u !in [8, 9, 10, 12, 13, '\"' as int, '\\' as int]
    ensures if u < 32 || 0xD800 <= u <= 0xDFFF then InHex(EscapeUnit(u), u) else EscapeUnit(u) == [u]
  {
    if u < 32 || 0xD800 <= u <= 0xDFFF { HexEscapeIsHex(u); }
  }

  predicate InHex(t: Text, u: Unit) {
    && |t| == 6 && t[..2] == Ascii("\\u")
    && var hex := Ascii("0123456789abcdef");
       t[2] == hex[u / 4096] && t[3] == hex[u / 256 % 16] && t[4] == hex[u / 16 % 16] && t[5] == hex[u % 16]
  }

  lemma HexEscapeIsHex(u: Unit)
    ensures InHex(HexEscape(u), u)
  {
    HexDigits16(u / 4096);
    HexDigits16(u / 256 % 16);
    HexDigits16(u / 16 % 16);
    HexDigits16(u % 16);
  }

  lemma HexDigits16(d: nat)
    requires d < 16
    ensures HexDigit(d) == Ascii("0123456789abcdef")[d]
  {}

  /** A literal is its units, escaped one by one between quotes, but for the halves of a surrogate pair. */
  lemma QuotedUnitByUnit(s: Text)
    ensures Quote(s) == [34] + Escape(s) + [34]
    ensures |s| == 0 ==> Escape(s) == []
    ensures StartsWithPair(s) ==> Escape(s) == [s[0], s[1]] + Escape(s[2..])
    ensures |s| >= 1 && !StartsWithPair(s) ==> Escape(s) == EscapeUnit(s[0]) + Escape(s[1..])
  {
    if |s| >= 1 && !StartsWithPair(s) { EscapeOne(s); }
  }

  predicate StartsWithPair(s: Text) {
    |s| >= 2 && 0xD800 <= s[0] <= 0xDBFF && 0xDC00 <= s[1] <= 0xDFFF
  }

  lemma EscapeOne(s: Text)
    requires |s| >= 1 && !StartsWithPair(s)
    ensures Escape(s) == EscapeUnit(s[0]) + Escape(s[1..])
  {}
}
