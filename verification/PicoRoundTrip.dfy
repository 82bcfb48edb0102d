/** What is written is read back, and exactly its own text is consumed. */
module PicoRoundTrip {
  import opened Wrappers
  import opened Texts
  import opened PicoValue
  import opened PicoParse

  // ----- numbers ------------------------------------------------------------------------

  lemma {:induction false} DecimalTextReads(n: nat)
    ensures DecimalText(n) != "" && AllDigits(DecimalText(n)) && Decimal(DecimalText(n)) == n
  {
    if n < 10 {
      assert [DigitText(n)][..0] == "";
    } else {
      DecimalTextReads(n / 10);
      var front, last := DecimalText(n / 10), DigitText(n % 10);
      assert (front + [last])[..|front|] == front;
    }
  }

  lemma IntTextReads(n: int)
    requires INT64_MIN <= n <= INT64_MAX
    ensures WholeInt(IntText(n)) == Some(n)
    ensures IntText(n) != "" && (IsDigit(IntText(n)[0]) || IntText(n)[0] == '-')
    ensures forall i :: 0 <= i < |IntText(n)| ==> IsNumberChar(IntText(n)[i])
  {
    DecimalTextReads(if n < 0 then -n else n);
    if n < 0 { assert ("-" + DecimalText(-n))[1..] == DecimalText(-n); }
  }

  lemma {:induction false} NumberTextIs(s: string, rest: string)
    requires forall i :: 0 <= i < |s| ==> IsNumberChar(s[i])
    requires rest == "" || !IsNumberChar(rest[0])
    ensures NumberText(s + rest) == Parsed(s, rest)
  {
    if s == "" {
      assert s + rest == rest;
    } else {
      assert (s + rest)[1..] == s[1..] + rest;
      NumberTextIs(s[1..], rest);
      assert [s[0]] + s[1..] == s;
    }
  }

  // ----- strings --------------------------------------------------------------------------

  lemma {:induction false} EscapedConcat(x: string, y: string)
    ensures Escaped(x + y) == Escaped(x) + Escaped(y)
    decreases |y|
  {
    hide EscapeChar;
    if y == "" {
      assert x + y == x;
    } else {
      assert (x + y)[..|x + y| - 1] == x + y[..|y| - 1];
      EscapedConcat(x, y[..|y| - 1]);
    }
  }

  lemma QuadhexStep(c: char, s: string, n: nat, acc: nat)
    requires n > 0 && HexValue(c).Some?
    ensures Quadhex([c] + s, n, acc) == Quadhex(s, n - 1, acc * 16 + HexValue(c).value)
  {
    assert ([c] + s)[1..] == s;
  }

  lemma QuadhexDone(s: string, acc: nat)
    ensures Quadhex(s, 0, acc) == Some(Parsed(acc, s))
  {
  }

  lemma FourDigits(w: char, x: char, y: char, z: char, t: string)
    requires HexValue(w).Some? && HexValue(x).Some? && HexValue(y).Some? && HexValue(z).Some?
    ensures Quadhex([w, x, y, z] + t, 4, 0)
      == Some(Parsed(((HexValue(w).value * 16 + HexValue(x).value) * 16 + HexValue(y).value) * 16 + HexValue(z).value, t))
  {
    hide Quadhex, HexValue;
    var a := HexValue(w).value;
    var b := a * 16 + HexValue(x).value;
    var c := b * 16 + HexValue(y).value;
    QuadhexStep(w, [x, y, z] + t, 4, 0);
    QuadhexStep(x, [y, z] + t, 3, a);
    QuadhexStep(y, [z] + t, 2, b);
    QuadhexStep(z, t, 1, c);
    QuadhexDone(t, c * 16 + HexValue(z).value);
    assert [w, x, y, z] + t == [w] + ([x, y, z] + t);
    assert [x, y, z] + t == [x] + ([y, z] + t);
    assert [y, z] + t == [y] + ([z] + t);
  }

  lemma ControlReads(c: char, t: string)
    requires c as int < 0x20 || c as int == 0x7f
    ensures Quadhex(['0', '0', HEX_DIGITS[c as int / 16], HEX_DIGITS[c as int % 16]] + t, 4, 0) == Some(Parsed(c as int, t))
  {
    HexDigitReads(c as int / 16);
    HexDigitReads(c as int % 16);
    assert HexValue('0') == Some(0);
    FourDigits('0', '0', HEX_DIGITS[c as int / 16], HEX_DIGITS[c as int % 16], t);
    hide Quadhex, HexValue;
  }

  lemma OneCharReads(c: char, t: string)
    requires c as int < 256
    ensures EscapeChar(c) != "" && EscapeChar(c)[0] != '"'
    ensures OneChar(EscapeChar(c) + t) == Some(Parsed([c], t))
  {
    var e := EscapeChar(c);
    var s := e + t;
    if |e| == 1 {
      assert s[1..] == t;
    } else if |e| == 2 {
      assert s[2..] == t;
    } else {
      ControlReads(c, t);
      assert s[2..] == ['0', '0', HEX_DIGITS[c as int / 16], HEX_DIGITS[c as int % 16]] + t;
    }
  }

  /** A string is read back from its escaped form, up to its closing quote. */
  lemma {:induction false} CharsOfEscaped(s: string, rest: string)
    requires IsBytes(s)
    ensures Chars(Escaped(s) + "\"" + rest) == Some(Parsed(s, rest))
  {
    hide OneChar, EscapeChar;
    if s == "" {
      assert "" + "\"" + rest == "\"" + rest && ("\"" + rest)[1..] == rest;
    } else {
      var c, more := s[0], Escaped(s[1..]) + "\"" + rest;
      assert s == [c] + s[1..];
      EscapedConcat([c], s[1..]);
      assert [c][..0] == "" && Escaped([c]) == "" + EscapeChar(c) == EscapeChar(c);
      OneCharReads(c, more);
      CharsOfEscaped(s[1..], rest);
      assert Escaped(s) + "\"" + rest == EscapeChar(c) + more;
    }
  }

  // ----- blanks -----------------------------------------------------------------------------

  lemma {:induction false} SkipSpaces(n: nat, s: string)
    ensures SkipWs(Spaces(n) + s) == SkipWs(s)
  {
    if n == 0 {
      assert "" + s == s;
    } else {
      assert Spaces(n) + s == Spaces(n - 1) + (" " + s);
      SkipSpaces(n - 1, " " + s);
      assert (" " + s)[1..] == s;
    }
  }

  lemma SkipIndent(indent: int, s: string)
    requires indent >= -1
    ensures SkipWs(Indent(indent) + s) == SkipWs(s)
  {
    if indent == -1 {
      assert "" + s == s;
    } else {
      var n := indent * INDENT_WIDTH;
      assert (Indent(indent) + s)[1..] == Spaces(n) + s;
      SkipSpaces(n, s);
    }
  }

  lemma NoSkip(s: string)
    requires s != "" && !IsSpace(s[0])
    ensures SkipWs(s) == s
  {
  }

  lemma {:induction false} SkipTwice(s: string)
    ensures SkipWs(SkipWs(s)) == SkipWs(s)
  {
    if s != "" && IsSpace(s[0]) { SkipTwice(s[1..]); }
  }

  /** Blanks before a value make no difference. */
  lemma ReadSkips(s: string, t: string, d: nat)
    requires SkipWs(s) == SkipWs(t)
    ensures Read(s, d) == Read(t, d)
  {
    hide Chars, Number, ReadItems, ReadMembers, Literal, Expect;
  }

  lemma ItemsSkip(s: string, t: string, d: nat, items: seq<Value>)
    requires SkipWs(s) == SkipWs(t)
    ensures ReadItems(s, d, items) == ReadItems(t, d, items)
  {
    hide Read;
    ReadSkips(s, t, d);
  }

  lemma MembersSkip(s: string, t: string, d: nat, members: seq<Member>)
    requires SkipWs(s) == SkipWs(t)
    ensures ReadMembers(s, d, members) == ReadMembers(t, d, members)
  {
    assert Expect(s, '"') == Expect(t, '"');
  }

  lemma Expects(c: char, s: string)
    requires !IsSpace(c)
    ensures Expect([c] + s, c) == Some(s)
    ensures forall x :: x != c ==> Expect([c] + s, x) == None
  {
    NoSkip([c] + s);
    assert ([c] + s)[1..] == s;
  }

  // ----- the depth of a value -------------------------------------------------------------------

  /** Every container is inside fewer than `d` arrays. */
  predicate Fits(v: Value, d: nat)
    decreases v
  {
    match v
    case Array(items) => d > 0 && forall i :: 0 <= i < |items| ==> Fits(items[i], d - 1)
    case Object(members) => d > 0 && forall i :: 0 <= i < |members| ==> Fits(members[i].value, d)
    case _ => true
  }

  /** The arrays around the innermost container, with itself; an object counts only when
      it is innermost. */
  function Levels(v: Value): nat
    decreases v
  {
    match v
    case Array(items) => 1 + ItemLevels(items)
    case Object(members) => MemberLevels(members)
    case _ => 0
  }

  function ItemLevels(items: seq<Value>): nat
    decreases items
  {
    if items == [] then 0 else Max(Levels(items[0]), ItemLevels(items[1..]))
  }

  function MemberLevels(members: seq<Member>): nat
    decreases members
  {
    if members == [] then 1 else Max(Levels(members[0].value), MemberLevels(members[1..]))
  }

  function Max(a: nat, b: nat): nat { if a < b then b else a }

  lemma {:induction false} ItemsFit(items: seq<Value>, d: nat)
    ensures (forall i :: 0 <= i < |items| ==> Fits(items[i], d)) <==> ItemLevels(items) <= d
    decreases items
  {
    if items != [] {
      FitsIsLevels(items[0], d);
      ItemsFit(items[1..], d);
      assert items == [items[0]] + items[1..];
    }
  }

  lemma {:induction false} MembersFit(members: seq<Member>, d: nat)
    requires d > 0
    ensures (forall i :: 0 <= i < |members| ==> Fits(members[i].value, d)) <==> MemberLevels(members) <= d
    decreases members
  {
    if members != [] {
      FitsIsLevels(members[0].value, d);
      MembersFit(members[1..], d);
      assert members == [members[0]] + members[1..];
    }
  }

  lemma {:induction false} FitsIsLevels(v: Value, d: nat)
    ensures Fits(v, d) <==> Levels(v) <= d
    decreases v
  {
    match v
    case Array(items) => if d > 0 { ItemsFit(items, d - 1); }
    case Object(members) => if d > 0 { MembersFit(members, d); } else { AtLeastOne(members); }
    case _ =>
  }

  lemma {:induction false} AtLeastOne(members: seq<Member>)
    ensures MemberLevels(members) >= 1
  {
    if members != [] { AtLeastOne(members[1..]); }
  }

  // ----- values -----------------------------------------------------------------------------------

  /** A number must not go on in the text after it. */
  predicate Follows(v: Value, rest: string) { v.Int? ==> rest == "" || !IsNumberChar(rest[0]) }

  predicate Starts(c: char) { !IsSpace(c) && c != ']' && c != '}' && c != ',' }

  lemma BodyStarts(v: Value, indent: int)
    requires indent >= -1 && Good(v)
    ensures Body(v, indent) != "" && Starts(Body(v, indent)[0])
  {
    match v
    case Int(n) => IntTextReads(n);
    case _ =>
  }

  lemma Assoc(x: string, y: string, z: string)
    ensures x + y + z == x + (y + z)
  {
  }

  lemma Comma(head: string, more: string, closing: string)
    ensures head + ("," + more) + closing == head + ("," + (more + closing))
  {
    Assoc(head, "," + more, closing);
    Assoc(",", more, closing);
  }

  lemma Nothing(s: string)
    ensures s + "" == s
  {
  }

  lemma Snoc(head: string, mid: string, last: string)
    ensures head + ("," + mid) + "," + last == head + ("," + (mid + "," + last))
    ensures head + "" + "," + last == head + ("," + last)
    ensures "" + "" + last == last
  {
    Assoc(head + ("," + mid), ",", last);
    Assoc(head, "," + mid, "," + last);
    Assoc(",", mid, "," + last);
    Assoc(mid, ",", last);
    Nothing(head);
    Assoc(head, ",", last);
  }

  lemma {:induction false} ItemsFront(items: seq<Value>, indent: int)
    requires indent >= -1 && items != []
    ensures ItemsText(items, indent)
      == ItemText(items[0], indent) + (if |items| == 1 then "" else "," + ItemsText(items[1..], indent))
    decreases |items|
  {
    hide ItemText;
    var n := |items| - 1;
    var front, last := items[..n], ItemText(items[n], indent);
    if n == 0 {
      Snoc("", "", last);
      Nothing(last);
      assert front == [];
    } else {
      ItemsFront(front, indent);
      assert front[1..] == items[1..][..n - 1];
      Snoc(ItemText(items[0], indent), ItemsText(front[1..], indent), last);
      Snoc("", "", last);
    }
  }

  lemma {:induction false} MembersFront(members: seq<Member>, indent: int)
    requires indent >= -1 && members != []
    ensures MembersText(members, indent)
      == MemberText(members[0], indent) + (if |members| == 1 then "" else "," + MembersText(members[1..], indent))
    decreases |members|
  {
    hide MemberText;
    var n := |members| - 1;
    var front, last := members[..n], MemberText(members[n], indent);
    if n == 0 {
      Snoc("", "", last);
      Nothing(last);
      assert front == [];
    } else {
      MembersFront(front, indent);
      assert front[1..] == members[1..][..n - 1];
      Snoc(MemberText(members[0], indent), MembersText(front[1..], indent), last);
      Snoc("", "", last);
    }
  }

  // ----- the main induction --------------------------------------------------------------------------

  /** What stands after the last item: the closing bracket in its place. */
  function Closing(indent: int, bracket: string, rest: string): string
    requires indent >= -1
  {
    Indent(indent) + bracket + rest
  }

  lemma ClosingSkips(indent: int, bracket: string, rest: string)
    requires indent >= -1 && (bracket == "]" || bracket == "}")
    ensures SkipWs(Closing(indent, bracket, rest)) == bracket + rest
    ensures Closing(indent, bracket, rest) != "" && !IsNumberChar(Closing(indent, bracket, rest)[0])
    ensures Expect(Closing(indent, bracket, rest), ',') == None
    ensures Expect(SkipWs(Closing(indent, bracket, rest)), bracket[0]) == Some(rest)
  {
    assert Closing(indent, bracket, rest) == Indent(indent) + (bracket + rest);
    SkipIndent(indent, bracket + rest);
    NoSkip(bracket + rest);
    assert (bracket + rest)[1..] == rest;
  }

  /** The text after the first item. */
  function AfterItem(items: seq<Value>, i: int, closing: string): string
    requires i >= -1 && items != []
  {
    if |items| == 1 then closing else "," + (ItemsText(items[1..], i) + closing)
  }

  lemma TextIsBody(v: Value, i: int)
    requires i >= -1 && i != 0
    ensures Text(v, i) == Body(v, i)
  {
    hide Body;
    assert Body(v, i) + "" == Body(v, i);
  }

  lemma ItemTextIs(v: Value, i: int)
    requires i >= -1 && i != 0
    ensures ItemText(v, i) == Indent(i) + Body(v, i)
  {
    hide Indent, Body, Text;
    TextIsBody(v, i);
  }

  lemma ItemsParts(items: seq<Value>, i: int, closing: string)
    requires i >= -1 && i != 0 && items != []
    ensures ItemsText(items, i) + closing == Indent(i) + (Body(items[0], i) + AfterItem(items, i, closing))
  {
    hide Indent, Body, ItemsText, ItemText;
    ItemsFront(items, i);
    ItemTextIs(items[0], i);
    Nothing(ItemText(items[0], i));
    if |items| > 1 { Comma(ItemText(items[0], i), ItemsText(items[1..], i), closing); }
    Assoc(Indent(i), Body(items[0], i), AfterItem(items, i, closing));
  }

  predicate AllFit(items: seq<Value>, d: nat) { forall i :: 0 <= i < |items| ==> Fits(items[i], d) }

  lemma AllFitFront(items: seq<Value>, d: nat)
    requires items != []
    ensures AllFit(items, d) <==> Fits(items[0], d) && AllFit(items[1..], d)
  {
    assert items == [items[0]] + items[1..];
  }

  /** One item more is read. */
  lemma ReadItemsStep(s: string, d: nat, done: seq<Value>, x: Value, after: string)
    requires Read(s, d) == Some(Parsed(x, after))
    ensures ReadItems(s, d, done)
      == match Expect(after, ',')
         case Some(rest) => ReadItems(rest, d, done + [x])
         case None =>
           (match Expect(SkipWs(after), ']')
            case Some(rest) => Some(Parsed(Array(done + [x]), rest))
            case None => None)
  {
    hide Read;
  }

  lemma ReadItemsFails(s: string, d: nat, done: seq<Value>)
    requires Read(s, d) == None
    ensures ReadItems(s, d, done) == None
  {
    hide Read;
  }

  lemma {:induction false} ItemsReadBack(items: seq<Value>, done: seq<Value>, i: int, indent: int, rest: string, d: nat)
    requires i >= -1 && i != 0 && indent >= -1 && items != [] && forall k :: 0 <= k < |items| ==> Good(items[k])
    ensures ReadItems(ItemsText(items, i) + Closing(indent, "]", rest), d, done)
      == if AllFit(items, d) then Some(Parsed(Array(done + items), rest)) else None
    decreases items, 1
  {
    hide Read, ReadItems, ItemsText, Body, AllFit, Closing, Indent, Expect, Good, Fits;
    var x, closing := items[0], Closing(indent, "]", rest);
    var s, after := ItemsText(items, i) + closing, AfterItem(items, i, closing);
    ItemsParts(items, i, closing);
    SkipIndent(i, Body(x, i) + after);
    ReadSkips(s, Body(x, i) + after, d);
    ClosingSkips(indent, "]", rest);
    assert after != "" && !IsNumberChar(after[0]);
    ReadsBack(x, i, after, d);
    AllFitFront(items, d);
    if !Fits(x, d) {
      ReadItemsFails(s, d, done);
    } else {
      ReadItemsStep(s, d, done, x, after);
      if |items| == 1 {
        assert items[1..] == [] && AllFit([], d) by { NoneFits(d); }
        assert done + [x] == done + items;
      } else {
        Expects(',', ItemsText(items[1..], i) + closing);
        ItemsReadBack(items[1..], done + [x], i, indent, rest, d);
        assert done + [x] + items[1..] == done + items;
      }
    }
  }

  lemma NoneFits(d: nat)
    ensures AllFit([], d)
  {
  }

  lemma {:induction false} ReadsBack(v: Value, indent: int, rest: string, d: nat)
    requires Good(v) && indent >= -1 && Follows(v, rest)
    ensures Read(Body(v, indent) + rest, d) == if Fits(v, d) then Some(Parsed(v, rest)) else None
    decreases v, 2
  {
    match v
    case Array(items) => ArrayReadsBack(items, indent, rest, d);
    case Object(members) => ObjectReadsBack(members, indent, rest, d);
    case _ => ScalarReadsBack(v, indent, rest, d);
  }

  lemma ScalarReadsBack(v: Value, indent: int, rest: string, d: nat)
    requires Good(v) && indent >= -1 && Follows(v, rest) && !v.Array? && !v.Object?
    ensures Read(Body(v, indent) + rest, d) == Some(Parsed(v, rest))
  {
    hide Read;
    match v
    case Int(n) => IntReadsBack(n, rest, d);
    case Str(s) => StrReadsBack(s, rest, d);
    case Null => WordReadsBack("null", Null, rest, d);
    case Bool(b) => if b { WordReadsBack("true", v, rest, d); } else { WordReadsBack("false", v, rest, d); }
  }

  lemma WordReadsBack(word: string, v: Value, rest: string, d: nat)
    requires (word == "null" && v == Null) || (word == "true" && v == Bool(true)) || (word == "false" && v == Bool(false))
    ensures Read(word + rest, d) == Some(Parsed(v, rest))
  {
    hide ReadItems, ReadMembers, Number, Chars;
    NoSkip(word + rest);
    assert (word + rest)[|word|..] == rest;
  }

  lemma IntReadsBack(n: int, rest: string, d: nat)
    requires INT64_MIN <= n <= INT64_MAX && Follows(Int(n), rest)
    ensures Read(IntText(n) + rest, d) == Some(Parsed(Int(n), rest))
  {
    hide ReadItems, ReadMembers, Literal, Chars, WholeInt, WholeDouble, NumberText, IntText;
    IntTextReads(n);
    NoSkip(IntText(n) + rest);
    NumberTextIs(IntText(n), rest);
  }

  lemma StrReadsBack(s: string, rest: string, d: nat)
    requires IsBytes(s)
    ensures Read(StrText(s) + rest, d) == Some(Parsed(Str(s), rest))
  {
    hide ReadItems, ReadMembers, Literal, Number, Chars, Escaped;
    NoSkip(StrText(s) + rest);
    assert (StrText(s) + rest)[1..] == Escaped(s) + "\"" + rest;
    CharsOfEscaped(s, rest);
  }

  /** What follows an opening bracket, when there are items. */
  lemma ReadArray(s: string, d: nat)
    ensures Read("[" + s, d)
      == if d == 0 then None
         else match Expect(s, ']') case Some(rest) => Some(Parsed(Array([]), rest)) case None => ReadItems(SkipWs(s), d - 1, [])
  {
    hide ReadItems, ReadMembers, Literal, Number, Chars, Expect;
    NoSkip("[" + s);
    assert ("[" + s)[1..] == s;
  }

  lemma NotExpected(i: int, s: string, c: char)
    requires i >= -1 && s != "" && !IsSpace(s[0]) && s[0] != c
    ensures Expect(Indent(i) + s, c) == None
  {
    SkipIndent(i, s);
    NoSkip(s);
  }

  lemma {:induction false} ArrayReadsBack(items: seq<Value>, indent: int, rest: string, d: nat)
    requires Good(Array(items)) && indent >= -1
    ensures Read(Body(Array(items), indent) + rest, d)
      == if Fits(Array(items), d) then Some(Parsed(Array(items), rest)) else None
    decreases items, 2
  {
    hide Read, ReadItems, ItemsText, Indent, Expect;
    var i := Deeper(indent);
    var s := ItemsText(items, i) + (if items == [] then "" else Indent(indent)) + "]" + rest;
    assert Body(Array(items), indent) + rest == "[" + s;
    ReadArray(s, d);
    if items == [] {
      assert s == "]" + rest by { NoItems(i); }
      Expects(']', rest);
    } else if d > 0 {
      var closing := Closing(indent, "]", rest);
      assert s == ItemsText(items, i) + closing;
      ItemsParts(items, i, closing);
      BodyStarts(items[0], i);
      NotExpected(i, Body(items[0], i) + AfterItem(items, i, closing), ']');
      SkipTwice(s);
      ItemsSkip(SkipWs(s), s, d - 1, []);
      ItemsReadBack(items, [], i, indent, rest, d - 1);
      assert [] + items == items;
    }
  }

  lemma NoItems(i: int)
    requires i >= -1
    ensures ItemsText([], i) == "" && MembersText([], i) == ""
  {
  }

  // ----- members ------------------------------------------------------------------------------------

  lemma ReadObject(s: string, d: nat)
    ensures Read("{" + s, d)
      == if d == 0 then None
         else match Expect(s, '}') case Some(rest) => Some(Parsed(Object([]), rest)) case None => ReadMembers(SkipWs(s), d, [])
  {
    hide ReadItems, ReadMembers, Literal, Number, Chars, Expect;
    NoSkip("{" + s);
    assert ("{" + s)[1..] == s;
  }

  predicate MembersFitIn(members: seq<Member>, d: nat) { forall i :: 0 <= i < |members| ==> Fits(members[i].value, d) }

  lemma MembersFitFront(members: seq<Member>, d: nat)
    requires members != []
    ensures MembersFitIn(members, d) <==> Fits(members[0].value, d) && MembersFitIn(members[1..], d)
  {
    assert members == [members[0]] + members[1..];
  }

  function AfterMember(members: seq<Member>, i: int, closing: string): string
    requires i >= -1 && members != []
  {
    if |members| == 1 then closing else "," + (MembersText(members[1..], i) + closing)
  }

  lemma MemberTextIs(m: Member, i: int)
    requires i >= -1 && i != 0
    ensures MemberText(m, i) == Indent(i) + StrText(m.key) + Colon(i) + Body(m.value, i)
  {
    hide Indent, Body, Text, StrText, Colon;
    TextIsBody(m.value, i);
  }

  lemma RegroupMember(x: string, k: string, c: string, y: string, after: string)
    ensures x + ("\"" + k + "\"") + c + y + after == x + ("\"" + (k + "\"" + (c + (y + after))))
  {
    var q := "\"" + k + "\"";
    Assoc(x + q + c, y, after);
    Assoc(x + q, c, y + after);
    Assoc(x, q, c + (y + after));
    Assoc("\"", k, "\"");
    Assoc("\"", k + "\"", c + (y + after));
  }

  lemma MembersParts(members: seq<Member>, i: int, closing: string)
    requires i >= -1 && i != 0 && members != []
    ensures (var m := members[0];
      MembersText(members, i) + closing
      == Indent(i) + ("\"" + (Escaped(m.key) + "\"" + (Colon(i) + (Body(m.value, i) + AfterMember(members, i, closing))))))
  {
    hide Indent, Body, MembersText, MemberText, Escaped, Colon;
    var m := members[0];
    MembersFront(members, i);
    MemberTextIs(m, i);
    Nothing(MemberText(m, i));
    if |members| > 1 { Comma(MemberText(m, i), MembersText(members[1..], i), closing); }
    RegroupMember(Indent(i), Escaped(m.key), Colon(i), Body(m.value, i), AfterMember(members, i, closing));
  }

  /** One member more is read. */
  lemma ReadMembersStep(s: string, quoted: string, key: string, more: string, colon: string, d: nat, done: seq<Member>)
    requires Expect(s, '"') == Some(quoted) && Chars(quoted) == Some(Parsed(key, more)) && Expect(more, ':') == Some(colon)
    ensures ReadMembers(s, d, done)
      == match Read(colon, d)
         case None => None
         case Some(p) =>
           (match Expect(p.rest, ',')
            case Some(rest) => ReadMembers(rest, d, Put(done, key, p.value))
            case None =>
              (match Expect(SkipWs(p.rest), '}')
               case Some(rest) => Some(Parsed(Object(Put(done, key, p.value)), rest))
               case None => None))
  {
    hide Read, Chars, Expect, Put;
  }

  /** The value after a colon, with the blank of the indented form. */
  lemma ReadAfterColon(i: int, body: string, d: nat)
    requires i >= -1
    ensures exists t :: Expect(Colon(i) + body, ':') == Some(t) && Read(t, d) == Read(body, d)
  {
    hide Read;
    if i == -1 {
      Expects(':', body);
      assert Colon(i) + body == [':'] + body;
    } else {
      Expects(':', " " + body);
      assert Colon(i) + body == [':'] + (" " + body) && (" " + body)[1..] == body;
      ReadSkips(" " + body, body, d);
    }
  }

  predicate GoodMembers(members: seq<Member>) {
    forall i :: 0 <= i < |members| ==> IsBytes(members[i].key) && Good(members[i].value)
  }

  lemma PutLast(done: seq<Member>, m: Member)
    requires done == [] || Less(done[|done| - 1].key, m.key)
    ensures Put(done, m.key, m.value) == done + [m]
  {
  }

  lemma {:induction false} MembersReadBack(members: seq<Member>, done: seq<Member>, i: int, indent: int, rest: string, d: nat)
    requires i >= -1 && i != 0 && indent >= -1 && members != [] && GoodMembers(members) && KeysInOrder(done + members)
    ensures ReadMembers(MembersText(members, i) + Closing(indent, "}", rest), d, done)
      == if MembersFitIn(members, d) then Some(Parsed(Object(done + members), rest)) else None
    decreases members, 1
  {
    hide Read, ReadMembers, MembersText, Body, MembersFitIn, Closing, Indent, Expect, Good, Fits, Chars, Escaped, Colon, Put;
    var m, closing := members[0], Closing(indent, "}", rest);
    var s, after := MembersText(members, i) + closing, AfterMember(members, i, closing);
    var body := Body(m.value, i) + after;
    var more := Colon(i) + body;
    var quoted := Escaped(m.key) + "\"" + more;
    MembersParts(members, i, closing);
    QuoteExpected(i, quoted);
    CharsOfEscaped(m.key, more);
    ReadAfterColon(i, body, d);
    var colon :| Expect(more, ':') == Some(colon) && Read(colon, d) == Read(body, d);
    ReadMembersStep(s, quoted, m.key, more, colon, d, done);
    ClosingSkips(indent, "}", rest);
    assert after != "" && !IsNumberChar(after[0]);
    ReadsBack(m.value, i, after, d);
    MembersFitFront(members, d);
    if done != [] { assert (done + members)[|done| - 1] == done[|done| - 1] && (done + members)[|done|] == m; }
    PutLast(done, m);
    assert done + [m] + members[1..] == done + members;
    if |members| == 1 {
      assert members[1..] == [] && MembersFitIn([], d) by { NoMembersFit(d); }
      assert done + [m] == done + members;
    } else if Fits(m.value, d) {
      Expects(',', MembersText(members[1..], i) + closing);
      MembersReadBack(members[1..], done + [m], i, indent, rest, d);
    }
  }

  lemma QuoteExpected(i: int, quoted: string)
    requires i >= -1
    ensures Expect(Indent(i) + ("\"" + quoted), '"') == Some(quoted)
  {
    SkipIndent(i, "\"" + quoted);
    NoSkip("\"" + quoted);
    assert ("\"" + quoted)[1..] == quoted;
  }

  lemma NoMembersFit(d: nat)
    ensures MembersFitIn([], d)
  {
  }

  lemma {:induction false} ObjectReadsBack(members: seq<Member>, indent: int, rest: string, d: nat)
    requires Good(Object(members)) && indent >= -1
    ensures Read(Body(Object(members), indent) + rest, d)
      == if Fits(Object(members), d) then Some(Parsed(Object(members), rest)) else None
    decreases members, 2
  {
    hide Read, ReadMembers, MembersText, Indent, Expect;
    var i := Deeper(indent);
    var s := MembersText(members, i) + (if members == [] then "" else Indent(indent)) + "}" + rest;
    assert Body(Object(members), indent) + rest == "{" + s;
    ReadObject(s, d);
    if members == [] {
      assert s == "}" + rest by { NoItems(i); }
      Expects('}', rest);
    } else if d > 0 {
      var closing := Closing(indent, "}", rest);
      assert s == MembersText(members, i) + closing;
      MembersParts(members, i, closing);
      NotExpected(i, "\"" + (Escaped(members[0].key) + "\"" + (Colon(i) + (Body(members[0].value, i) + AfterMember(members, i, closing)))), '}');
      SkipTwice(s);
      MembersSkip(SkipWs(s), s, d, []);
      assert [] + members == members;
      MembersReadBack(members, [], i, indent, rest, d);
    }
  }

  // ----- the theorem ------------------------------------------------------------------------------------

  /** A value that was written is read back, and exactly its text is consumed, but for
      the line end of the indented form: if and only if no container of it is inside
      more than 99 arrays. */
  lemma RoundTrip(v: Value, rest: string)
    requires Good(v) && Follows(v, rest)
    ensures Read(Text(v, -1) + rest, DEFAULT_MAX_DEPTHS) == if Levels(v) <= 100 then Some(Parsed(v, rest)) else None
    ensures Read(Text(v, 0) + rest, DEFAULT_MAX_DEPTHS) == if Levels(v) <= 100 then Some(Parsed(v, "\n" + rest)) else None
  {
    hide Read, Body, Levels, Fits;
    FitsIsLevels(v, 100);
    ReadsBack(v, -1, rest, 100);
    ReadsBack(v, 0, "\n" + rest, 100);
    TextIsBody(v, -1);
    assert Text(v, 0) + rest == Body(v, 0) + ("\n" + rest);
  }
}
