/** The input of picojson, which pushes one character back by not having taken it yet,
    and the parser over it, proved against the grammar. */
module PicoInput {
  import opened Wrappers
  import opened Texts
  import opened PicoValue
  import opened PicoParse

  /** `input`: the character at `cur` counts as read when `consumed` is set. */
  class Input {
    const text: string
    var cur: nat
    var consumed: bool
    var line: nat

    constructor (text: string)
      ensures this.text == text && Valid() && Left() == text && line == 1
    {
      this.text := text;
      cur, consumed, line := 0, false, 1;
    }

    ghost predicate Valid()
      reads this
    {
      cur <= |text| && (consumed ==> cur < |text|)
    }

    /** What is still to be read. */
    ghost function Left(): string
      requires Valid()
      reads this
    {
      text[if consumed then cur + 1 else cur..]
    }

    /** The same with the character that may be pushed back. */
    ghost function Held(): string
      requires Valid()
      reads this
    {
      text[cur..]
    }

    /** `getc`; the end of the text is no character. */
    method Getc() returns (ch: Option<char>)
      requires Valid()
      modifies this
      ensures Valid() && Held() == old(Left())
      ensures ch.None? ==> old(Left()) == "" == Left()
      ensures ch.Some? ==> old(Left()) == [ch.value] + Left() && Left() == old(Left())[1..]
    {
      if consumed {
        if text[cur] == '\n' { line := line + 1; }
        cur := cur + 1;
      }
      if cur == |text| {
        consumed := false;
        return None;
      }
      consumed := true;
      return Some(text[cur]);
    }

    method Ungetc()
      requires Valid()
      modifies this`consumed
      ensures Valid() && Left() == old(Held()) == Held()
    {
      consumed := false;
    }

    /** `cur`: the position, the character held counting as read. */
    method Position() returns (pos: nat)
      requires Valid()
      modifies this
      ensures Valid() && pos <= |text| && text[pos..] == old(Left()) == Left()
    {
      if consumed {
        consumed := false;
        cur := cur + 1;
      }
      return cur;
    }

    method SkipBlanks()
      requires Valid()
      modifies this
      ensures Valid() && Left() == SkipWs(old(Left()))
    {
      ghost var s := Left();
      while true
        invariant Valid() && SkipWs(s) == SkipWs(Left())
        decreases |Left()|
      {
        var ch := Getc();
        if ch.None? || !IsSpace(ch.value) {
          Ungetc();
          break;
        }
      }
    }

    method Accept(expected: char) returns (r: bool)
      requires Valid()
      modifies this
      ensures Valid()
      ensures match Expect(old(Left()), expected)
        case Some(rest) => r && Left() == rest
        case None => !r && Left() == SkipWs(old(Left()))
    {
      SkipBlanks();
      var ch := Getc();
      if ch != Some(expected) {
        Ungetc();
        return false;
      }
      return true;
    }

    method Match(pattern: string) returns (r: bool)
      requires Valid()
      modifies this
      ensures Valid() && (r <==> pattern <= old(Left())) && (r ==> Left() == old(Left())[|pattern|..])
    {
      ghost var s := Left();
      for i := 0 to |pattern|
        invariant Valid() && i <= |s| && pattern[..i] == s[..i] && Left() == s[i..]
      {
        var ch := Getc();
        if ch != Some(pattern[i]) {
          Ungetc();
          return false;
        }
        assert s[..i + 1] == s[..i] + [pattern[i]] && pattern[..i + 1] == pattern[..i] + [pattern[i]];
      }
      return true;
    }

    /** `_parse_quadhex`. */
    method ParseQuadhex() returns (r: Option<nat>)
      requires Valid()
      modifies this
      ensures Valid()
      ensures match Quadhex(old(Left()), 4, 0)
        case Some(p) => r == Some(p.value) && Left() == p.rest
        case None => r == None
    {
      hide HexValue;
      ghost var s := Left();
      var uniCh := 0;
      for i := 0 to 4
        invariant Valid() && Quadhex(s, 4, 0) == Quadhex(Left(), 4 - i, uniCh)
      {
        var ch := Getc();
        if ch.None? {
          return None;
        }
        var hex := HexValue(ch.value);
        if hex.None? {
          Ungetc();
          return None;
        }
        uniCh := uniCh * 16 + hex.value;
      }
      return Some(uniCh);
    }

    /** `_parse_codepoint`: the bytes to be appended. */
    method ParseCodepoint() returns (r: Option<string>)
      requires Valid()
      modifies this
      ensures Valid()
      ensures match Codepoint(old(Left()))
        case Some(p) => r == Some(p.value) && Left() == p.rest
        case None => r == None
    {
      hide Utf8, Quadhex;
      var first := ParseQuadhex();
      if first.None? {
        return None;
      }
      var uniCh := first.value;
      if 0xd800 <= uniCh <= 0xdfff {
        if 0xdc00 <= uniCh {
          return None;
        }
        var ch := Getc();
        if ch == Some('\\') {
          ch := Getc();
          if ch != Some('u') {
            Ungetc();
            return None;
          }
        } else {
          Ungetc();
          return None;
        }
        var second := ParseQuadhex();
        if second.None? || !(0xdc00 <= second.value <= 0xdfff) {
          return None;
        }
        uniCh := (uniCh - 0xd800) * 0x400 + (second.value - 0xdc00) + 0x10000;
      }
      return Some(Utf8(uniCh));
    }

    /** `_parse_string`. */
    method ParseString() returns (ok: bool, out: string)
      requires Valid()
      modifies this
      ensures Valid()
      ensures match Chars(old(Left()))
        case Some(p) => ok && out == p.value && Left() == p.rest
        case None => !ok
    {
      out := "";
      ghost var s := Left();
      AppendedNothing(Chars(s));
      while true
        invariant Valid() && Chars(s) == Appended(out, Chars(Left()))
        decreases |Left()|
      {
        ghost var here := Left();
        var ch := Getc();
        if ch.None? || ch.value < ' ' {
          Ungetc();
          return false, out;
        }
        if ch.value == '"' {
          return true, out;
        }
        AppendedTwice(out, here);
        if ch.value == '\\' {
          ch := Getc();
          if ch.None? {
            return false, out;
          }
          if ch.value == 'u' {
            var bytes := ParseCodepoint();
            if bytes.None? {
              return false, out;
            }
            out := out + bytes.value;
          } else {
            var c := Unescape(ch.value);
            if c.None? {
              return false, out;
            }
            out := out + [c.value];
          }
        } else {
          out := out + [ch.value];
        }
      }
    }

    /** `_parse_number`. */
    method ParseNumber() returns (num: string)
      requires Valid()
      modifies this
      ensures Valid() && NumberText(old(Left())) == Parsed(num, Left())
    {
      hide IsNumberChar;
      num := "";
      ghost var s := Left();
      assert "" + NumberText(s).value == NumberText(s).value;
      while true
        invariant Valid() && NumberText(s) == Parsed(num + NumberText(Left()).value, NumberText(Left()).rest)
        decreases |Left()|
      {
        ghost var here := Left();
        var ch := Getc();
        if ch.None? || !IsNumberChar(ch.value) {
          Ungetc();
          assert num + "" == num;
          break;
        }
        assert num + ([ch.value] + NumberText(Left()).value) == num + [ch.value] + NumberText(Left()).value;
        num := num + [ch.value];
      }
    }

    /** The letters of a word after its first. */
    method Word(pattern: string, v: Value) returns (r: Option<Value>)
      requires Valid()
      modifies this
      ensures Valid()
      ensures Finds(r, Left(), if pattern <= old(Left()) then Some(Parsed(v, old(Left())[|pattern|..])) else None)
    {
      var ok := Match(pattern);
      return if ok then Some(v) else None;
    }

    /** The number case of `_parse`. */
    method ParseNumeral() returns (r: Option<Value>)
      requires Valid()
      modifies this
      ensures Valid() && Finds(r, Left(), Number(old(Left())))
    {
      hide NumberText, WholeInt, WholeDouble;
      var num := ParseNumber();
      if num == "" {
        return None;
      }
      var n := WholeInt(num);
      if n.Some? {
        return Some(Int(n.value));
      }
      if WholeDouble(num) {
        return Some(Double(num));
      }
      return None;
    }

    /** `_parse`, the value being what is written through `out_`. */
    method ParseValue(depths: nat) returns (r: Option<Value>)
      requires Valid()
      modifies this
      ensures Valid() && Finds(r, Left(), Read(old(Left()), depths))
      decreases |Left()|, 2
    {
      hide Finds, Chars, Number, ReadItems, ReadMembers, Expect, Read, IsDigit;
      ReadUnfolds(Left(), depths);
      SkipBlanks();
      var ch := Getc();
      if ch.None? {
        Ungetc();
        assert Finds(None, Left(), None) by { FindsNothing(Left()); }
        return None;
      }
      match ch.value {
        case 'n' => r := Word("ull", Null);
        case 'f' => r := Word("alse", Bool(false));
        case 't' => r := Word("rue", Bool(true));
        case '"' =>
          var ok, out := ParseString();
          r := if ok then Some(Str(out)) else None;
          FindsIs(r, Left());
        case '[' => r := ParseArray(depths);
        case '{' => r := ParseObject(depths);
        case c =>
          Ungetc();
          if IsDigit(c) || c == '-' {
            r := ParseNumeral();
          } else {
            r := None;
            FindsNothing(Left());
          }
      }
    }

    /** `_parse_array`. */
    method ParseArray(depths: nat) returns (r: Option<Value>)
      requires Valid()
      modifies this
      ensures Valid() && Finds(r, Left(), ArrayAfter(old(Left()), depths))
      decreases |Left()|, 3
    {
      hide Expect, Read, ReadItems;
      if depths == 0 {
        return None;
      }
      var empty := Accept(']');
      if empty {
        return Some(Array([]));
      }
      var items := [];
      ghost var goal := ReadItems(Left(), depths - 1, []);
      var more := true;
      while more
        invariant Valid() && |Left()| <= |old(Left())|
        invariant more ==> goal == ReadItems(Left(), depths - 1, items)
        invariant !more ==> goal == (match Expect(Left(), ']') case Some(rest) => Some(Parsed(Array(items), rest)) case None => None)
        decreases more, |Left()|
      {
        ItemsUnfold(Left(), depths - 1, items);
        ghost var here := Left();
        var item := ParseValue(depths - 1);
        if item.None? {
          return None;
        }
        items := items + [item.value];
        more := Accept(',');
      }
      var closed := Accept(']');
      return if closed then Some(Array(items)) else None;
    }

    /** `_parse_object`. */
    method ParseObject(depths: nat) returns (r: Option<Value>)
      requires Valid()
      modifies this
      ensures Valid() && Finds(r, Left(), ObjectAfter(old(Left()), depths))
      decreases |Left()|, 3
    {
      hide Expect, Read, ReadMembers, Chars, Put;
      if depths == 0 {
        return None;
      }
      var empty := Accept('}');
      if empty {
        return Some(Object([]));
      }
      var members := [];
      ghost var goal := ReadMembers(Left(), depths, []);
      var more := true;
      while more
        invariant Valid() && |Left()| <= |old(Left())|
        invariant more ==> goal == ReadMembers(Left(), depths, members)
        invariant !more ==> goal == (match Expect(Left(), '}') case Some(rest) => Some(Parsed(Object(members), rest)) case None => None)
        decreases more, |Left()|
      {
        MembersUnfold(Left(), depths, members);
        var quote := Accept('"');
        if !quote {
          return None;
        }
        var ok, key := ParseString();
        if !ok {
          return None;
        }
        var colon := Accept(':');
        if !colon {
          return None;
        }
        var value := ParseValue(depths);
        if value.None? {
          return None;
        }
        members := Put(members, key, value.value);
        more := Accept(',');
      }
      var closed := Accept('}');
      return if closed then Some(Object(members)) else None;
    }
  }

  /** `parse` of a whole text: the value, and the position after it. */
  method Parse(text: string) returns (r: Option<Value>, pos: nat)
    ensures match Read(text, DEFAULT_MAX_DEPTHS)
      case Some(p) => r == Some(p.value) && pos <= |text| && text[pos..] == p.rest
      case None => r == None
  {
    hide Read;
    var input := new Input(text);
    r := input.ParseValue(DEFAULT_MAX_DEPTHS);
    pos := input.Position();
  }

  /** The outcome of a parsing method against the grammar. */
  ghost predicate Finds(r: Option<Value>, left: string, p: Option<Parsed<Value>>) {
    match p
    case Some(q) => r == Some(q.value) && left == q.rest
    case None => r == None
  }

  lemma FindsNothing(left: string)
    ensures Finds(None, left, None)
  {
  }

  lemma FindsIs(r: Option<Value>, left: string)
    ensures Finds(r, left, match r case Some(v) => Some(Parsed(v, left)) case None => None)
  {
  }

  function ArrayAfter(s: string, depths: nat): Option<Parsed<Value>> {
    if depths == 0 then None
    else
      match Expect(s, ']')
      case Some(rest) => Some(Parsed(Array([]), rest))
      case None => ReadItems(SkipWs(s), depths - 1, [])
  }

  function ObjectAfter(s: string, depths: nat): Option<Parsed<Value>> {
    if depths == 0 then None
    else
      match Expect(s, '}')
      case Some(rest) => Some(Parsed(Object([]), rest))
      case None => ReadMembers(SkipWs(s), depths, [])
  }

  function WordAfter(s: string, pattern: string, v: Value): Option<Parsed<Value>> {
    if pattern <= s then Some(Parsed(v, s[|pattern|..])) else None
  }

  /** `Read` by its first character. */
  lemma ReadUnfolds(s: string, depths: nat)
    ensures var t := SkipWs(s);
      if t == "" then Read(s, depths) == None
      else match t[0]
        case 'n' => Read(s, depths) == WordAfter(t[1..], "ull", Null)
        case 'f' => Read(s, depths) == WordAfter(t[1..], "alse", Bool(false))
        case 't' => Read(s, depths) == WordAfter(t[1..], "rue", Bool(true))
        case '"' => Read(s, depths) == StringAfter(t[1..])
        case '[' => Read(s, depths) == ArrayAfter(t[1..], depths)
        case '{' => Read(s, depths) == ObjectAfter(t[1..], depths)
        case c => Read(s, depths) == if IsDigit(c) || c == '-' then Number(t) else None
  {
    hide Chars, Number, ReadItems, ReadMembers, Expect;
    var t := SkipWs(s);
    if t != "" {
      var u := t[1..];
      assert t == [t[0]] + u;
      WordLiteral('n', "ull", u, Null);
      WordLiteral('f', "alse", u, Bool(false));
      WordLiteral('t', "rue", u, Bool(true));
      assert ['n'] + "ull" == "null" && ['f'] + "alse" == "false" && ['t'] + "rue" == "true";
    }
  }

  function StringAfter(s: string): Option<Parsed<Value>> {
    match Chars(s)
    case None => None
    case Some(p) => Some(Parsed(Str(p.value), p.rest))
  }

  lemma WordLiteral(c: char, pattern: string, s: string, v: Value)
    ensures Literal([c] + s, [c] + pattern, v) == WordAfter(s, pattern, v)
  {
    if pattern <= s {
      assert s == pattern + s[|pattern|..];
      assert [c] + s == ([c] + pattern) + s[|pattern|..];
    }
    if [c] + pattern <= [c] + s {
      assert ([c] + s)[1..|pattern| + 1] == s[..|pattern|] && ([c] + pattern)[1..] == pattern;
    }
  }

  lemma ItemsUnfold(s: string, depths: nat, items: seq<Value>)
    ensures ReadItems(s, depths, items)
      == match Read(s, depths)
         case None => None
         case Some(p) =>
           (match Expect(p.rest, ',')
            case Some(rest) => ReadItems(rest, depths, items + [p.value])
            case None =>
              (match Expect(SkipWs(p.rest), ']')
               case Some(rest) => Some(Parsed(Array(items + [p.value]), rest))
               case None => None))
  {
    hide Read;
  }

  lemma MembersUnfold(s: string, depths: nat, members: seq<Member>)
    ensures ReadMembers(s, depths, members)
      == match Expect(s, '"')
         case None => None
         case Some(quoted) =>
           (match Chars(quoted)
            case None => None
            case Some(key) =>
              (match Expect(key.rest, ':')
               case None => None
               case Some(colon) =>
                 (match Read(colon, depths)
                  case None => None
                  case Some(p) =>
                    var more := Put(members, key.value, p.value);
                    (match Expect(p.rest, ',')
                     case Some(rest) => ReadMembers(rest, depths, more)
                     case None =>
                       (match Expect(SkipWs(p.rest), '}')
                        case Some(rest) => Some(Parsed(Object(more), rest))
                        case None => None)))))
  {
    hide Read, Chars, Expect, Put;
  }

  function Appended(out: string, r: Option<Parsed<string>>): Option<Parsed<string>> {
    match r
    case None => None
    case Some(p) => Some(Parsed(out + p.value, p.rest))
  }

  /** One character more of a string. */
  lemma AppendedTwice(out: string, s: string)
    requires s != "" && s[0] != '"'
    ensures Appended(out, Chars(s))
      == match OneChar(s)
         case None => None
         case Some(c) => Appended(out + c.value, Chars(c.rest))
  {
    match OneChar(s)
    case None =>
    case Some(c) =>
      match Chars(c.rest)
      case None =>
      case Some(more) => assert out + (c.value + more.value) == out + c.value + more.value;
  }

  lemma AppendedNothing(r: Option<Parsed<string>>)
    ensures Appended("", r) == r
  {
    if r.Some? { assert "" + r.value.value == r.value.value; }
  }
}
