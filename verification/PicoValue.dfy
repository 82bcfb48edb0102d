/** JSON values of picojson and the text they are written as. */
module PicoValue {
  import opened Texts

  /** `double` stands for the number that `strtod` reads from a text. The members of an
      object are in the order of `std::map`. */
  datatype Value =
    | Null
    | Bool(b: bool)
    | Int(n: int)
    | Double(text: string)
    | Str(s: string)
    | Array(items: seq<Value>)
    | Object(members: seq<Member>)

  datatype Member = Member(key: string, value: Value)

  const INT64_MIN: int := -0x8000_0000_0000_0000
  const INT64_MAX: int := 0x7FFF_FFFF_FFFF_FFFF

  /** `std::string::compare` by bytes. */
  predicate Less(a: string, b: string) {
    b != "" && (a == "" || a[0] < b[0] || (a[0] == b[0] && Less(a[1..], b[1..])))
  }

  predicate KeysInOrder(members: seq<Member>) {
    forall i :: 0 < i < |members| ==> Less(members[i - 1].key, members[i].key)
  }

  /** The values a program can hold, without floating point. */
  predicate Good(v: Value)
    decreases v
  {
    match v
    case Int(n) => INT64_MIN <= n <= INT64_MAX
    case Double(_) => false
    case Str(s) => IsBytes(s)
    case Array(items) => forall i :: 0 <= i < |items| ==> Good(items[i])
    case Object(members) =>
      KeysInOrder(members) && forall i :: 0 <= i < |members| ==> IsBytes(members[i].key) && Good(members[i].value)
    case _ => true
  }

  // ----- numbers and strings -----------------------------------------------------------

  /** `serialize_str_char`. */
  function EscapeChar(c: char): string {
    match c
    case '"' => "\\\""
    case '\\' => "\\\\"
    case '/' => "\\/"
    case '\n' => "\\n"
    case '\r' => "\\r"
    case '\t' => "\\t"
    case _ =>
      if c as int == 8 then "\\b"
      else if c as int == 12 then "\\f"
      else if c as int < 0x20 || c as int == 0x7f then "\\u00" + [HEX_DIGITS[c as int / 16], HEX_DIGITS[c as int % 16]]
      else [c]
  }

  function Escaped(s: string): string {
    if s == "" then "" else Escaped(s[..|s| - 1]) + EscapeChar(s[|s| - 1])
  }

  /** `serialize_str`. */
  function StrText(s: string): string { "\"" + Escaped(s) + "\"" }

  // ----- values ----------------------------------------------------------------------------

  const INDENT_WIDTH: nat := 2

  function Spaces(n: nat): string { if n == 0 then "" else Spaces(n - 1) + " " }

  /** `_indent`, when the text is prettified; -1 is the compact form. */
  function Indent(indent: int): string
    requires indent >= -1
  {
    if indent == -1 then "" else "\n" + Spaces(indent * INDENT_WIDTH)
  }

  function Deeper(indent: int): int { if indent == -1 then -1 else indent + 1 }

  function Scalar(v: Value): string {
    match v
    case Null => "null"
    case Bool(b) => if b then "true" else "false"
    case Int(n) => IntText(n)
    case Double(text) => text
    case Str(s) => StrText(s)
    case _ => ""
  }

  /** `_serialize` without the line end after a value that is not indented. */
  function Body(v: Value, indent: int): string
    requires indent >= -1
    decreases v, 1, 0
  {
    match v
    case Array(items) =>
      "[" + ItemsText(items, Deeper(indent)) + (if items == [] then "" else Indent(indent)) + "]"
    case Object(members) =>
      "{" + MembersText(members, Deeper(indent)) + (if members == [] then "" else Indent(indent)) + "}"
    case _ => Scalar(v)
  }

  function Text(v: Value, indent: int): string
    requires indent >= -1
    decreases v, 2, 0
  {
    Body(v, indent) + if indent == 0 then "\n" else ""
  }

  /** An item in its place. */
  function ItemText(v: Value, indent: int): string
    requires indent >= -1
    decreases v, 3, 0
  {
    Indent(indent) + Text(v, indent)
  }

  function ItemsText(items: seq<Value>, indent: int): string
    requires indent >= -1
    decreases items, 4, |items|
  {
    if items == [] then ""
    else
      ItemsText(items[..|items| - 1], indent) + (if |items| > 1 then "," else "") + ItemText(items[|items| - 1], indent)
  }

  /** A key, the colon and the value, in their place. */
  function MemberText(m: Member, indent: int): string
    requires indent >= -1
    decreases m, 3, 0
  {
    Indent(indent) + StrText(m.key) + Colon(indent) + Text(m.value, indent)
  }

  function MembersText(members: seq<Member>, indent: int): string
    requires indent >= -1
    decreases members, 4, |members|
  {
    if members == [] then ""
    else
      MembersText(members[..|members| - 1], indent) + (if |members| > 1 then "," else "")
      + MemberText(members[|members| - 1], indent)
  }

  function Colon(indent: int): string { if indent == -1 then ":" else ": " }

  // ----- the writing loops --------------------------------------------------------------------

  /** `_serialize`. */
  method Serialize(v: Value, indent: int) returns (out: string)
    requires indent >= -1
    ensures out == Text(v, indent)
    decreases v, 1
  {
    match v {
      case Array(items) =>
        var more := SerializeItems(items, Deeper(indent));
        out := "[" + more;
        if items != [] { out := out + Indent(indent); }
        out := out + "]";
      case Object(members) =>
        var more := SerializeMembers(members, Deeper(indent));
        out := "{" + more;
        if members != [] { out := out + Indent(indent); }
        out := out + "}";
      case _ => out := Scalar(v);
    }
    assert out == Body(v, indent) == out + "";
    if indent == 0 { out := out + "\n"; }
  }

  method SerializeItems(items: seq<Value>, indent: int) returns (out: string)
    requires indent >= -1
    ensures out == ItemsText(items, indent)
    decreases items, 0
  {
    hide Indent, Text;
    out := "";
    for i := 0 to |items|
      invariant out == ItemsText(items[..i], indent)
    {
      assert items[..i + 1][..i] == items[..i];
      if i != 0 { out := out + ","; }
      out := out + Indent(indent);
      var item := Serialize(items[i], indent);
      out := out + item;
    }
    assert items[..|items|] == items;
  }

  method SerializeMembers(members: seq<Member>, indent: int) returns (out: string)
    requires indent >= -1
    ensures out == MembersText(members, indent)
    decreases members, 0
  {
    hide Indent, Text, StrText;
    out := "";
    for i := 0 to |members|
      invariant out == MembersText(members[..i], indent)
    {
      assert members[..i + 1][..i] == members[..i];
      if i != 0 { out := out + ","; }
      out := out + Indent(indent);
      out := out + StrText(members[i].key);
      out := out + Colon(indent);
      var member := Serialize(members[i].value, indent);
      out := out + member;
    }
    assert members[..|members|] == members;
  }
}
