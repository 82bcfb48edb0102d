/** The grammar that the parser of picojson accepts, on the text that is still to be
    read. */
module PicoParse {
  import opened Wrappers
  import opened Texts
  import opened PicoValue

  const DEFAULT_MAX_DEPTHS: nat := 100

  /** What was read and the text after it. */
  datatype Parsed<+T> = Parsed(value: T, rest: string)

  predicate IsSpace(c: char) { c == ' ' || c == '\t' || c == '\n' || c == '\r' }

  function SkipWs(s: string): (r: string)
    ensures |r| <= |s|
  {
    if s != "" && IsSpace(s[0]) then SkipWs(s[1..]) else s
  }

  /** `expect`: the text after the character, which blanks may precede. */
  function Expect(s: string, c: char): (r: Option<string>)
    ensures r.Some? ==> |r.value| < |s|
  {
    var t := SkipWs(s);
    if t != "" && t[0] == c then Some(t[1..]) else None
  }

  // ----- strings --------------------------------------------------------------------------

  /** The number of the first `n` characters, if they are digits. */
  function Quadhex(s: string, n: nat, acc: nat): (r: Option<Parsed<nat>>)
    ensures r.Some? ==> |r.value.rest| + n == |s|
    decreases n
  {
    if n == 0 then Some(Parsed(acc, s))
    else if s == "" then None
    else
      var h :- HexValue(s[0]);
      Quadhex(s[1..], n - 1, acc * 16 + h)
  }

  /** The bytes of a code point in UTF-8; four hexadecimal digits, or two surrogates,
      make no more than this. */
  function Utf8(u: nat): string {
    if u < 0x80 then [u as char]
    else if u < 0x800 then [(0xc0 + u / 0x40) as char, (0x80 + u % 0x40) as char]
    else if u < 0x10000 then [(0xe0 + u / 0x1000) as char, (0x80 + u / 0x40 % 0x40) as char, (0x80 + u % 0x40) as char]
    else [(0xf0 + u / 0x40000 % 8) as char, (0x80 + u / 0x1000 % 0x40) as char, (0x80 + u / 0x40 % 0x40) as char,
          (0x80 + u % 0x40) as char]
  }

  /** `_parse_codepoint`. */
  function Codepoint(s: string): (r: Option<Parsed<string>>)
    ensures r.Some? ==> |r.value.rest| < |s|
  {
    var first :- Quadhex(s, 4, 0);
    if !(0xd800 <= first.value <= 0xdfff) then Some(Parsed(Utf8(first.value), first.rest))
    else if 0xdc00 <= first.value then None
    else if |first.rest| < 2 || first.rest[0] != '\\' || first.rest[1] != 'u' then None
    else
      var second :- Quadhex(first.rest[2..], 4, 0);
      if !(0xdc00 <= second.value <= 0xdfff) then None
      else Some(Parsed(Utf8((first.value - 0xd800) * 0x400 + (second.value - 0xdc00) + 0x10000), second.rest))
  }

  /** The character that an escape other than `u` stands for. */
  function Unescape(c: char): Option<char> {
    match c
    case '"' => Some('"')
    case '\\' => Some('\\')
    case '/' => Some('/')
    case 'b' => Some(8 as char)
    case 'f' => Some(12 as char)
    case 'n' => Some('\n')
    case 'r' => Some('\r')
    case 't' => Some('\t')
    case _ => None
  }

  /** One character of a string, as it is written: its bytes. */
  function OneChar(s: string): (r: Option<Parsed<string>>)
    requires s != ""
    ensures r.Some? ==> |r.value.rest| < |s|
  {
    if s[0] < ' ' then None
    else if s[0] != '\\' then Some(Parsed([s[0]], s[1..]))
    else if |s| == 1 then None
    else if s[1] == 'u' then Codepoint(s[2..])
    else
      var c :- Unescape(s[1]);
      Some(Parsed([c], s[2..]))
  }

  /** `_parse_string`: what follows the opening quote. */
  function Chars(s: string): (r: Option<Parsed<string>>)
    ensures r.Some? ==> |r.value.rest| < |s|
    decreases |s|
  {
    if s == "" then None
    else if s[0] == '"' then Some(Parsed("", s[1..]))
    else
      var c :- OneChar(s);
      var more :- Chars(c.rest);
      Some(Parsed(c.value + more.value, more.rest))
  }

  // ----- numbers ----------------------------------------------------------------------------

  predicate IsDigit(c: char) { '0' <= c <= '9' }

  predicate IsNumberChar(c: char) { IsDigit(c) || c == '+' || c == '-' || c == 'e' || c == 'E' || c == '.' }

  /** `_parse_number`: the characters that may belong to a number. */
  function NumberText(s: string): (r: Parsed<string>)
    ensures |r.value| + |r.rest| == |s|
  {
    if s != "" && IsNumberChar(s[0]) then
      var more := NumberText(s[1..]);
      Parsed([s[0]] + more.value, more.rest)
    else Parsed("", s)
  }

  predicate AllDigits(s: string) { forall i :: 0 <= i < |s| ==> IsDigit(s[i]) }

  function Decimal(s: string): nat
    requires AllDigits(s)
  {
    if s == "" then 0 else assert IsDigit(s[|s| - 1]); Decimal(s[..|s| - 1]) * 10 + (s[|s| - 1] as int - '0' as int)
  }

  /** `strtoimax` with base 10, when it reads the whole text and does not overflow. */
  function WholeInt(s: string): Option<int> {
    var digits := if s != "" && (s[0] == '-' || s[0] == '+') then s[1..] else s;
    if digits == "" || !AllDigits(digits) then None
    else
      var n := if s[0] == '-' then -(Decimal(digits) as int) else Decimal(digits);
      if INT64_MIN <= n <= INT64_MAX then Some(n) else None
  }

  function SkipDigits(s: string): string { if s != "" && IsDigit(s[0]) then SkipDigits(s[1..]) else s }

  /** A decimal number that `strtod` reads to its end. */
  predicate WholeDouble(s: string) {
    var t := if s != "" && (s[0] == '-' || s[0] == '+') then s[1..] else s;
    var u := SkipDigits(t);
    var fraction := u != "" && u[0] == '.';
    var w := if fraction then SkipDigits(u[1..]) else u;
    (u != t || (fraction && w != u[1..])) && WholeExponent(w)
  }

  predicate WholeExponent(s: string) {
    s == ""
    || ((s[0] == 'e' || s[0] == 'E')
        && var t := if |s| > 1 && (s[1] == '-' || s[1] == '+') then s[2..] else s[1..];
           t != "" && AllDigits(t))
  }

  function Number(s: string): (r: Option<Parsed<Value>>)
    ensures r.Some? ==> |r.value.rest| < |s|
  {
    var t := NumberText(s);
    if t.value == "" then None
    else
      match WholeInt(t.value)
      case Some(n) => Some(Parsed(Int(n), t.rest))
      case None => if WholeDouble(t.value) then Some(Parsed(Double(t.value), t.rest)) else None
  }

  // ----- values --------------------------------------------------------------------------------

  /** `std::map::operator[]`, with the value then parsed into it. */
  function Put(members: seq<Member>, key: string, value: Value): seq<Member> {
    if members == [] then [Member(key, value)]
    else
      var last := members[|members| - 1];
      if Less(last.key, key) then members + [Member(key, value)]
      else if last.key == key then members[..|members| - 1] + [Member(key, value)]
      else Put(members[..|members| - 1], key, value) + [last]
  }

  function Literal(s: string, text: string, v: Value): (r: Option<Parsed<Value>>)
    requires text != ""
    ensures r.Some? ==> |r.value.rest| < |s|
  {
    if text <= s then Some(Parsed(v, s[|text|..])) else None
  }

  /** `_parse` with `depths` levels of arrays left. */
  function Read(s: string, depths: nat): (r: Option<Parsed<Value>>)
    ensures r.Some? ==> |r.value.rest| < |s|
    decreases |s|, 2
  {
    var t := SkipWs(s);
    if t == "" then None
    else match t[0]
      case 'n' => Literal(t, "null", Null)
      case 'f' => Literal(t, "false", Bool(false))
      case 't' => Literal(t, "true", Bool(true))
      case '"' =>
        var chars :- Chars(t[1..]);
        Some(Parsed(Str(chars.value), chars.rest))
      case '[' =>
        if depths == 0 then None
        else
          (match Expect(t[1..], ']')
           case Some(rest) => Some(Parsed(Array([]), rest))
           case None => ReadItems(SkipWs(t[1..]), depths - 1, []))
      case '{' =>
        if depths == 0 then None
        else
          (match Expect(t[1..], '}')
           case Some(rest) => Some(Parsed(Object([]), rest))
           case None => ReadMembers(SkipWs(t[1..]), depths, []))
      case c => if IsDigit(c) || c == '-' then Number(t) else None
  }

  /** The items after those read already, to past the bracket. */
  function ReadItems(s: string, depths: nat, items: seq<Value>): (r: Option<Parsed<Value>>)
    ensures r.Some? ==> |r.value.rest| < |s|
    decreases |s|, 3
  {
    var item :- Read(s, depths);
    match Expect(item.rest, ',')
    case Some(rest) => ReadItems(rest, depths, items + [item.value])
    case None =>
      var rest :- Expect(SkipWs(item.rest), ']');
      Some(Parsed(Array(items + [item.value]), rest))
  }

  function ReadMembers(s: string, depths: nat, members: seq<Member>): (r: Option<Parsed<Value>>)
    ensures r.Some? ==> |r.value.rest| < |s|
    decreases |s|, 3
  {
    var quoted :- Expect(s, '"');
    var key :- Chars(quoted);
    var colon :- Expect(key.rest, ':');
    var value :- Read(colon, depths);
    var more := Put(members, key.value, value.value);
    match Expect(value.rest, ',')
    case Some(rest) => ReadMembers(rest, depths, more)
    case None =>
      var rest :- Expect(SkipWs(value.rest), '}');
      Some(Parsed(Object(more), rest))
  }
}
