/** The text forms of picojson against the standards: JSON (RFC 8259) by character code,
    and UTF-8 (RFC 3629) for every code point. */
module PicoStandard {
  import opened Wrappers
  import opened Texts
  import opened PicoValue
  import opened PicoParse
  import PicoRoundTrip

  // ----- UTF-8 --------------------------------------------------------------------------

  predicate IsTail(c: char) { 0x80 <= c as int <= 0xBF }

  /** The code point at the start of a text, and its length (section 4 of RFC 3629). */
  function FromUtf8(s: string): Option<(nat, nat)> {
    if s == "" then None
    else
      var b := s[0] as int;
      if b <= 0x7F then Some((b, 1))
      else if 0xC2 <= b <= 0xDF && |s| >= 2 && IsTail(s[1]) then Some(((b - 0xC0) * 64 + (s[1] as int - 0x80), 2))
      else if 0xE0 <= b <= 0xEF && |s| >= 3 && IsTail(s[1]) && IsTail(s[2]) then
        var u := (b - 0xE0) * 4096 + (s[1] as int - 0x80) * 64 + (s[2] as int - 0x80);
        if u < 0x800 || 0xD800 <= u <= 0xDFFF then None else Some((u, 3))
      else if 0xF0 <= b <= 0xF4 && |s| >= 4 && IsTail(s[1]) && IsTail(s[2]) && IsTail(s[3]) then
        var u := (b - 0xF0) * 262144 + (s[1] as int - 0x80) * 4096 + (s[2] as int - 0x80) * 64 + (s[3] as int - 0x80);
        if u < 0x10000 || u > 0x10FFFF then None else Some((u, 4))
      else None
  }

  predicate IsScalarValue(u: nat) { u <= 0x10FFFF && !(0xD800 <= u <= 0xDFFF) }

  lemma ThreeParts(u: nat)
    ensures u / 0x1000 * 4096 + u / 0x40 % 0x40 * 64 + u % 0x40 == u
  {
    assert u / 0x1000 == u / 0x40 / 0x40;
  }

  lemma FourParts(u: nat)
    ensures u / 0x40000 * 262144 + u / 0x1000 % 0x40 * 4096 + u / 0x40 % 0x40 * 64 + u % 0x40 == u
  {
    ThreeParts(u);
    assert u / 0x40000 == u / 0x1000 / 0x40;
  }

  lemma Starts(x: string, rest: string)
    ensures |x + rest| >= |x| && forall i :: 0 <= i < |x| ==> (x + rest)[i] == x[i]
  {
  }

  lemma OneOrTwoDecode(u: nat, rest: string)
    requires u < 0x800
    ensures FromUtf8(Utf8(u) + rest) == Some((u, |Utf8(u)|)) && IsBytes(Utf8(u))
  {
    Starts(Utf8(u), rest);
  }

  lemma ThreeDecode(u: nat, rest: string)
    requires 0x800 <= u < 0x10000 && IsScalarValue(u)
    ensures FromUtf8(Utf8(u) + rest) == Some((u, |Utf8(u)|)) && IsBytes(Utf8(u))
  {
    Starts(Utf8(u), rest);
    ThreeParts(u);
  }

  lemma FourDecode(u: nat, rest: string)
    requires 0x10000 <= u <= 0x10FFFF
    ensures FromUtf8(Utf8(u) + rest) == Some((u, |Utf8(u)|)) && IsBytes(Utf8(u))
  {
    Starts(Utf8(u), rest);
    FourParts(u);
  }

  /** The bytes written for a code point are its UTF-8 form. */
  lemma Utf8Decodes(u: nat, rest: string)
    requires IsScalarValue(u)
    ensures FromUtf8(Utf8(u) + rest) == Some((u, |Utf8(u)|)) && IsBytes(Utf8(u))
  {
    hide FromUtf8, Utf8, IsBytes;
    if u < 0x800 {
      OneOrTwoDecode(u, rest);
    } else if u < 0x10000 {
      ThreeDecode(u, rest);
    } else {
      FourDecode(u, rest);
    }
  }

  // ----- code points in strings -----------------------------------------------------------

  function Digit(d: nat, upper: bool): char
    requires d < 16
  {
    (if d < 10 then 48 + d else if upper then 55 + d else 87 + d) as char
  }

  function Four(u: nat, upper: bool): string
    requires u < 0x10000
  {
    [Digit(u / 0x1000, upper), Digit(u / 0x100 % 16, upper), Digit(u / 16 % 16, upper), Digit(u % 16, upper)]
  }

  lemma DigitReads(d: nat, upper: bool)
    requires d < 16
    ensures HexValue(Digit(d, upper)) == Some(d)
  {
  }

  lemma FourReads(u: nat, upper: bool, rest: string)
    requires u < 0x10000
    ensures Quadhex(Four(u, upper) + rest, 4, 0) == Some(Parsed(u, rest))
  {
    hide Quadhex, HexValue, Digit;
    DigitReads(u / 0x1000, upper);
    DigitReads(u / 0x100 % 16, upper);
    DigitReads(u / 16 % 16, upper);
    DigitReads(u % 16, upper);
    PicoRoundTrip.FourDigits(Digit(u / 0x1000, upper), Digit(u / 0x100 % 16, upper), Digit(u / 16 % 16, upper), Digit(u % 16, upper),
                             rest);
    assert u / 0x100 == u / 0x1000 * 16 + u / 0x100 % 16 && u / 16 == u / 0x100 * 16 + u / 16 % 16 && u == u / 16 * 16 + u % 16;
  }

  /** A code point behind `\\u`: four digits, or two surrogates (section 7 of RFC 8259). */
  function Escape(u: nat, upper: bool): string
    requires IsScalarValue(u)
  {
    if u < 0x10000 then Four(u, upper)
    else Four(0xD800 + (u - 0x10000) / 0x400, upper) + "\\u" + Four(0xDC00 + (u - 0x10000) % 0x400, upper)
  }

  /** Every code point is read from its escape, in either case, as its UTF-8 form. */
  lemma EscapeReads(u: nat, upper: bool, rest: string)
    requires IsScalarValue(u)
    ensures Codepoint(Escape(u, upper) + rest) == Some(Parsed(Utf8(u), rest))
    ensures FromUtf8(Utf8(u)) == Some((u, |Utf8(u)|))
  {
    hide Quadhex, Utf8, Four;
    Utf8Decodes(u, "");
    assert Utf8(u) + "" == Utf8(u);
    if u < 0x10000 {
      FourReads(u, upper, rest);
    } else {
      var hi, lo := 0xD800 + (u - 0x10000) / 0x400, 0xDC00 + (u - 0x10000) % 0x400;
      var second := Four(lo, upper) + rest;
      assert Escape(u, upper) + rest == Four(hi, upper) + ("\\u" + second);
      FourReads(hi, upper, "\\u" + second);
      assert ("\\u" + second)[2..] == second;
      FourReads(lo, upper, rest);
      assert (hi - 0xD800) * 0x400 + (lo - 0xDC00) + 0x10000 == u;
    }
  }

  /** A surrogate alone is refused. */
  lemma LoneSurrogateFails(u: nat, upper: bool, rest: string)
    requires 0xD800 <= u <= 0xDFFF
    requires u >= 0xDC00 || |rest| < 2 || rest[0] != '\\' || rest[1] != 'u'
    ensures Codepoint(Four(u, upper) + rest) == None
  {
    hide Quadhex, Four;
    FourReads(u, upper, rest);
  }

  /** The blanks between tokens (section 2 of RFC 8259). */
  lemma BlanksAreStandard(c: char)
    ensures IsSpace(c) <==> c as int in {9, 10, 13, 32}
  {
  }

  // ----- JSON ---------------------------------------------------------------------------------

  /** The escapes with a letter of their own, by character code. */
  lemma EscapesAreStandard()
    ensures EscapeChar(34 as char) == [92 as char, 34 as char] && EscapeChar(92 as char) == [92 as char, 92 as char]
    ensures EscapeChar(47 as char) == [92 as char, 47 as char] && EscapeChar(8 as char) == [92 as char, 98 as char]
    ensures EscapeChar(12 as char) == [92 as char, 102 as char] && EscapeChar(10 as char) == [92 as char, 110 as char]
    ensures EscapeChar(13 as char) == [92 as char, 114 as char] && EscapeChar(9 as char) == [92 as char, 116 as char]
  {
  }

  /** All others stand for themselves, or are written by their number. */
  lemma OthersAreStandard(c: char)
    requires c as int !in {8, 9, 10, 12, 13, 34, 47, 92}
    ensures 32 <= c as int && c as int != 127 ==> EscapeChar(c) == [c]
    ensures c as int < 32 || c as int == 127 ==> EscapeChar(c) == [92 as char, 117 as char] + Four(c as int, false)
  {
    if c as int < 32 || c as int == 127 {
      HexDigitReads(c as int / 16);
      HexDigitReads(c as int % 16);
    }
  }

  /** Texts with a comma between them. */
  function Commas(texts: seq<string>): string {
    if texts == [] then "" else if |texts| == 1 then texts[0] else texts[0] + "," + Commas(texts[1..])
  }

  function ItemTexts(items: seq<Value>): seq<string> { seq(|items|, i requires 0 <= i < |items| => Text(items[i], -1)) }

  function MemberTexts(members: seq<Member>): seq<string> {
    seq(|members|, i requires 0 <= i < |members| => StrText(members[i].key) + ":" + Text(members[i].value, -1))
  }

  lemma {:induction false} ItemsAreCommas(items: seq<Value>)
    ensures ItemsText(items, -1) == Commas(ItemTexts(items))
    decreases |items|
  {
    hide Text;
    if items != [] {
      PicoRoundTrip.ItemsFront(items, -1);
      assert ItemText(items[0], -1) == "" + Text(items[0], -1) == Text(items[0], -1);
      ItemsAreCommas(items[1..]);
      assert ItemTexts(items)[1..] == ItemTexts(items[1..]);
      Associates(Text(items[0], -1), Commas(ItemTexts(items[1..])));
    }
  }

  lemma Associates(x: string, y: string)
    ensures x + ("," + y) == x + "," + y && x + "" == x
  {
  }

  lemma {:induction false} MembersAreCommas(members: seq<Member>)
    ensures MembersText(members, -1) == Commas(MemberTexts(members))
    decreases |members|
  {
    hide Text, StrText;
    if members != [] {
      var m := members[0];
      PicoRoundTrip.MembersFront(members, -1);
      assert MemberText(m, -1) == "" + StrText(m.key) + ":" + Text(m.value, -1) == StrText(m.key) + ":" + Text(m.value, -1);
      MembersAreCommas(members[1..]);
      assert MemberTexts(members)[1..] == MemberTexts(members[1..]);
      Associates(MemberText(m, -1), Commas(MemberTexts(members[1..])));
    }
  }

  /** The compact text of a value is JSON: the words, the decimal numbers, strings in
      quotes, and items and members between brackets with commas and colons. */
  lemma CompactIsStandard(v: Value)
    ensures v.Null? ==> Text(v, -1) == "null"
    ensures v.Bool? ==> Text(v, -1) == if v.b then "true" else "false"
    ensures v.Int? ==> Text(v, -1) == IntText(v.n)
    ensures v.Str? ==> Text(v, -1) == [34 as char] + Escaped(v.s) + [34 as char]
    ensures v.Array? ==> Text(v, -1) == "[" + Commas(ItemTexts(v.items)) + "]"
    ensures v.Object? ==> Text(v, -1) == "{" + Commas(MemberTexts(v.members)) + "}"
  {
    assert Text(v, -1) == Body(v, -1) + "" == Body(v, -1);
    match v {
      case Array(items) =>
        ItemsAreCommas(items);
        Closes("[", ItemsText(items, -1), "]");
      case Object(members) =>
        MembersAreCommas(members);
        Closes("{", MembersText(members, -1), "}");
      case _ =>
    }
  }

  lemma Closes(x: string, y: string, z: string)
    ensures x + y + "" + z == x + y + z
  {
  }
}
