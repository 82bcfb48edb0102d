/** What a token says: its parts as a JSON parser reads them. */
module AuthTokens {
  import opened Wrappers
  import opened Texts
  import opened Base64
  import opened Auth
  import opened PicoValue
  import opened PicoParse
  import PicoRoundTrip

  // ----- names that need no escape -----------------------------------------------------

  /** A character that stands for itself in a JSON string (section 7 of RFC 8259). */
  predicate StandsForItself(c: char) { c as int >= 32 && c as int != 34 && c as int != 92 }

  predicate IsPlainText(s: string) { forall i :: 0 <= i < |s| ==> StandsForItself(s[i]) }

  lemma {:induction false} PlainReads(s: string, rest: string)
    requires IsPlainText(s)
    ensures Chars(s + "\"" + rest) == Some(Parsed(s, rest))
  {
    var t := s + "\"" + rest;
    if s == "" {
      assert t == "\"" + rest && t[1..] == rest;
    } else {
      assert t[0] == s[0] && t[1..] == s[1..] + "\"" + rest && StandsForItself(s[0]);
      PlainReads(s[1..], rest);
      assert [s[0]] + s[1..] == s;
    }
  }

  // ----- reading a payload -----------------------------------------------------------------

  /** A member read: its name, and a value after the colon. */
  lemma MemberReads(key: string, body: string, v: Value, after: string, d: nat, done: seq<Member>)
    requires IsPlainText(key) && Read(body, d) == Some(Parsed(v, after)) && after != "" && !PicoParse.IsSpace(after[0])
    ensures var s := "\"" + (key + "\"" + (":" + body));
      && (after[0] == ',' ==> ReadMembers(s, d, done) == ReadMembers(after[1..], d, Put(done, key, v)))
      && (after[0] == '}' ==> ReadMembers(s, d, done) == Some(Parsed(Object(Put(done, key, v)), after[1..])))
  {
    hide Read, Chars, Put;
    var more := ":" + body;
    var quoted := key + "\"" + more;
    PlainReads(key, more);
    PicoRoundTrip.Expects('"', quoted);
    PicoRoundTrip.Expects(':', body);
    assert ['"'] + quoted == "\"" + quoted && [':'] + body == more;
    PicoRoundTrip.ReadMembersStep("\"" + quoted, quoted, key, more, body, d, done);
    PicoRoundTrip.NoSkip(after);
    PicoRoundTrip.Expects(after[0], after[1..]);
    assert [after[0]] + after[1..] == after;
  }

  lemma IntAt(n: int, rest: string, d: nat)
    requires INT64_MIN <= n <= INT64_MAX && rest != "" && !IsNumberChar(rest[0])
    ensures Read(IntText(n) + rest, d) == Some(Parsed(Int(n), rest))
  {
    PicoRoundTrip.IntReadsBack(n, rest, d);
  }

  lemma TextAt(s: string, rest: string, d: nat)
    requires IsPlainText(s)
    ensures Read("\"" + (s + "\"" + rest), d) == Some(Parsed(Str(s), rest))
  {
    hide ReadItems, ReadMembers, Literal, Number, Chars;
    var t := s + "\"" + rest;
    PicoRoundTrip.NoSkip("\"" + t);
    assert ("\"" + t)[1..] == t;
    PlainReads(s, rest);
  }

  lemma ObjectAt(s: string, d: nat)
    requires d > 0 && s != "" && s[0] == '"'
    ensures Read("{" + s, d) == ReadMembers(s, d, [])
  {
    hide Read, ReadMembers;
    PicoRoundTrip.ReadObject(s, d);
    PicoRoundTrip.NoSkip(s);
    PicoRoundTrip.Expects('"', s[1..]);
    assert ['"'] + s[1..] == s;
  }

  /** The members that a payload is to have, in the order of `std::map`. */
  function Claims(userId: int, username: string, exp: int): seq<Member> {
    [Member("exp", Int(exp)), Member("user_id", Int(userId)), Member("username", Str(username))]
  }

  lemma KeysSort(userId: int, username: string, exp: int)
    ensures Put(Put(Put([], "user_id", Int(userId)), "username", Str(username)), "exp", Int(exp)) == Claims(userId, username, exp)
  {
    var x, y := Member("user_id", Int(userId)), Member("username", Str(username));
    KeyOrder();
    assert Put([], "user_id", Int(userId)) == [x];
    assert Put([x], "username", Str(username)) == [x] + [y] == [x, y];
    assert [x, y][..1] == [x] && [x][..0] == [];
    assert Put([], "exp", Int(exp)) == [Member("exp", Int(exp))];
    assert Put([x], "exp", Int(exp)) == Put([], "exp", Int(exp)) + [x];
    assert Put([x, y], "exp", Int(exp)) == Put([x], "exp", Int(exp)) + [y];
  }

  lemma KeyOrder()
    ensures Less("user_id", "username") && !Less("username", "exp") && !Less("user_id", "exp")
  {
    assert "user_id"[1..] == "ser_id" && "username"[1..] == "sername";
    assert "ser_id"[1..] == "er_id" && "sername"[1..] == "ername";
    assert "er_id"[1..] == "r_id" && "ername"[1..] == "rname";
    assert "r_id"[1..] == "_id" && "rname"[1..] == "name";
  }

  /** With such a name the payload says what the token is made for. */
  lemma PayloadReads(userId: int, username: string, exp: int)
    requires INT64_MIN <= userId <= INT64_MAX && INT64_MIN <= exp <= INT64_MAX && IsPlainText(username)
    ensures Read(Payload(userId, username, exp), DEFAULT_MAX_DEPTHS) == Some(Parsed(Object(Claims(userId, username, exp)), ""))
  {
    hide Read, ReadMembers, IntText, Put, IsPlainText;
    PlainKeys();
    var x, e := IntText(userId), IntText(exp);
    var last := "\"" + ("exp" + "\"" + (":" + (e + "}")));
    var name := "\"" + (username + "\"" + ("," + last));
    var second := "\"" + ("username" + "\"" + (":" + name));
    var first := "\"" + ("user_id" + "\"" + (":" + (x + ("," + second))));
    assert Payload(userId, username, exp) == "{" + first by { PayloadParts(x, username, e); }
    var a, b := Put([], "user_id", Int(userId)), Put(Put([], "user_id", Int(userId)), "username", Str(username));
    ObjectAt(first, 100);
    IntAt(userId, "," + second, 100);
    MemberReads("user_id", x + ("," + second), Int(userId), "," + second, 100, []);
    assert ("," + second)[1..] == second && ("," + last)[1..] == last && "}"[1..] == "";
    TextAt(username, "," + last, 100);
    MemberReads("username", name, Str(username), "," + last, 100, a);
    IntAt(exp, "}", 100);
    MemberReads("exp", e + "}", Int(exp), "}", 100, b);
    KeysSort(userId, username, exp);
  }

  lemma PlainKeys()
    ensures IsPlainText("user_id") && IsPlainText("username") && IsPlainText("exp")
  {
  }

  lemma PayloadParts(x: string, name: string, e: string)
    ensures "{\"user_id\":" + x + ",\"username\":\"" + name + "\",\"exp\":" + e + "}"
      == "{" + ("\"" + ("user_id" + "\"" + (":" + (x + ("," + ("\"" + ("username" + "\"" + (":" + ("\"" + (name + "\"" + ("," +
           ("\"" + ("exp" + "\"" + (":" + (e + "}")))))))))))))))
  {
    var last := "\"" + ("exp" + "\"" + (":" + (e + "}")));
    var mid := "\"" + ("username" + "\"" + (":" + ("\"" + (name + "\"" + ("," + last)))));
    Right("{\"user_id\":", x, ",\"username\":\"", name, "\",\"exp\":", e, "}");
    Quoted("exp", e + "}");
    Quoted("username", "\"" + (name + "\"" + ("," + last)));
    Quoted("user_id", x + ("," + mid));
    assert "," + last == ",\"exp\":" + (e + "}");
    assert name + "\"" + ("," + last) == name + ("\",\"exp\":" + (e + "}"));
    assert "," + mid == ",\"username\":\"" + (name + ("\",\"exp\":" + (e + "}")));
  }

  lemma Quoted(key: string, text: string)
    ensures "\"" + (key + "\"" + (":" + text)) == "\"" + key + "\":" + text
  {
  }

  lemma Right(a: string, x: string, b: string, y: string, c: string, z: string, d: string)
    ensures a + x + b + y + c + z + d == a + (x + (b + (y + (c + (z + d)))))
  {
  }

  // ----- what a text can say at most ------------------------------------------------------------

  function Cost(c: char): nat { if StandsForItself(c) then 1 else 2 }

  /** The least number of characters that a string is written with. */
  function StringCost(s: string): nat { if s == "" then 0 else Cost(s[0]) + StringCost(s[1..]) }

  lemma {:induction false} CostConcat(x: string, y: string)
    ensures StringCost(x + y) == StringCost(x) + StringCost(y)
    decreases |x|
  {
    if x == "" {
      assert x + y == y;
    } else {
      assert (x + y)[1..] == x[1..] + y;
      CostConcat(x[1..], y);
    }
  }

  lemma {:induction false} CostBounds(s: string)
    ensures |s| <= StringCost(s) <= 2 * |s|
    ensures StringCost(s) == |s| <==> IsPlainText(s)
  {
    if s != "" {
      CostBounds(s[1..]);
      if IsPlainText(s) { assert IsPlainText(s[1..]) && StandsForItself(s[0]); }
      if IsPlainText(s[1..]) && StandsForItself(s[0]) {
        forall i | 0 <= i < |s| ensures StandsForItself(s[i]) { if i > 0 { assert s[i] == s[1..][i - 1]; } }
      }
    }
  }

  function Times16(x: nat, n: nat): nat
    decreases n
  {
    if n == 0 then x else Times16(x * 16, n - 1)
  }

  lemma {:induction false} QuadhexBelow(s: string, n: nat, acc: nat)
    requires Quadhex(s, n, acc).Some?
    ensures Quadhex(s, n, acc).value.value < Times16(acc + 1, n)
    decreases n
  {
    if n > 0 {
      var h := HexValue(s[0]).value;
      QuadhexBelow(s[1..], n - 1, acc * 16 + h);
      Times16Grows(acc * 16 + h + 1, (acc + 1) * 16, n - 1);
    }
  }

  lemma {:induction false} Times16Grows(x: nat, y: nat, n: nat)
    requires x <= y
    ensures Times16(x, n) <= Times16(y, n)
    decreases n
  {
    if n > 0 { Times16Grows(x * 16, y * 16, n - 1); }
  }

  lemma CodepointCost(s: string)
    requires Codepoint(s).Some?
    ensures var p := Codepoint(s).value; |s| - |p.rest| >= 4 && 2 * |p.value| <= |s| - |p.rest| + 2
  {
    hide Quadhex;
    QuadhexBelow(s, 4, 0);
    assert Times16(1, 4) == Times16(16, 3) == Times16(256, 2) == Times16(4096, 1) == 0x10000;
  }

  lemma OneCharCost(s: string)
    requires s != "" && s[0] != '"' && OneChar(s).Some?
    ensures var p := OneChar(s).value; |s| - |p.rest| >= StringCost(p.value)
  {
    hide Codepoint;
    var p := OneChar(s).value;
    CostBounds(p.value);
    if s[0] != '\\' {
      assert StringCost([s[0]]) == Cost(s[0]) by { assert [s[0]][1..] == ""; }
    } else if s[1] == 'u' {
      CodepointCost(s[2..]);
    }
  }

  lemma {:induction false} CharsCost(s: string)
    requires Chars(s).Some?
    ensures var p := Chars(s).value; |s| - |p.rest| >= StringCost(p.value) + 1
    decreases |s|
  {
    hide OneChar;
    if s[0] != '"' {
      OneCharCost(s);
      var c := OneChar(s).value;
      CharsCost(c.rest);
      CostConcat(c.value, Chars(c.rest).value.value);
    }
  }

  lemma {:induction false} DecimalIsShort(d: string)
    requires d != "" && AllDigits(d)
    ensures |DecimalText(Decimal(d))| <= |d|
  {
    var front := d[..|d| - 1];
    assert IsDigit(d[|d| - 1]);
    if front != "" { DecimalIsShort(front); }
  }

  lemma NumberCost(s: string)
    requires Number(s).Some? && Number(s).value.value.Int?
    ensures |s| - |Number(s).value.rest| >= |IntText(Number(s).value.value.n)|
  {
    hide DecimalText, NumberText;
    var t := NumberText(s).value;
    var digits := if t[0] == '-' || t[0] == '+' then t[1..] else t;
    DecimalIsShort(digits);
    ZeroText();
  }

  lemma ZeroText()
    ensures IntText(0) == "0"
  {
  }

  /** The least number of characters that a number or a string is written with. */
  function ValueCost(v: Value): nat {
    match v
    case Int(n) => |IntText(n)|
    case Str(s) => StringCost(s) + 2
    case _ => 0
  }

  function MemberCost(m: Member): nat { StringCost(m.key) + 4 + ValueCost(m.value) }

  function MembersCost(ms: seq<Member>): nat { if ms == [] then 0 else MembersCost(ms[..|ms| - 1]) + MemberCost(ms[|ms| - 1]) }

  lemma {:induction false} SkipLess(s: string)
    ensures |SkipWs(s)| <= |s|
  {
  }

  lemma ReadCost(s: string, d: nat)
    requires Read(s, d).Some?
    ensures |s| - |Read(s, d).value.rest| >= ValueCost(Read(s, d).value.value)
  {
    hide Chars, Number, ReadItems, ReadMembers, IntText, StringCost, Expect;
    var t := SkipWs(s);
    match t[0] {
      case 'n' => LiteralCost(t, "null", Null);
      case 'f' => LiteralCost(t, "false", Bool(false));
      case 't' => LiteralCost(t, "true", Bool(true));
      case '"' => CharsCost(t[1..]);
      case '[' => if d > 0 && Expect(t[1..], ']').None? { ItemsAreArray(SkipWs(t[1..]), d - 1, []); }
      case '{' => if d > 0 && Expect(t[1..], '}').None? { MembersAreObject(SkipWs(t[1..]), d, []); }
      case _ => if Number(t).value.value.Int? { NumberCost(t); } else { NumberOrDouble(t); }
    }
  }

  lemma NumberOrDouble(s: string)
    requires Number(s).Some? && !Number(s).value.value.Int?
    ensures ValueCost(Number(s).value.value) == 0
  {
  }

  lemma LiteralCost(s: string, text: string, v: Value)
    requires text != "" && Literal(s, text, v).Some?
    ensures Literal(s, text, v).value.value == v
  {
  }

  lemma {:induction false} ItemsAreArray(s: string, d: nat, items: seq<Value>)
    requires ReadItems(s, d, items).Some?
    ensures ReadItems(s, d, items).value.value.Array?
    decreases |s|
  {
    hide Read;
    var item := Read(s, d).value;
    if Expect(item.rest, ',').Some? { ItemsAreArray(Expect(item.rest, ',').value, d, items + [item.value]); }
  }

  lemma {:induction false} MembersAreObject(s: string, d: nat, members: seq<Member>)
    requires ReadMembers(s, d, members).Some?
    ensures ReadMembers(s, d, members).value.value.Object?
    decreases |s|
  {
    hide Read, Chars, Put;
    var quoted := Expect(s, '"').value;
    var key := Chars(quoted).value;
    var value := Read(Expect(key.rest, ':').value, d).value;
    if Expect(value.rest, ',').Some? {
      MembersAreObject(Expect(value.rest, ',').value, d, Put(members, key.value, value.value));
    }
  }

  lemma CostMore(front: seq<Member>, m: Member)
    ensures MembersCost(front + [m]) == MembersCost(front) + MemberCost(m)
  {
    assert (front + [m])[..|front|] == front;
  }

  lemma {:induction false} PutCost(ms: seq<Member>, key: string, v: Value)
    ensures MembersCost(Put(ms, key, v)) <= MembersCost(ms) + MemberCost(Member(key, v))
  {
    hide MemberCost, MembersCost, Less;
    var m := Member(key, v);
    if ms == [] {
      CostMore([], m);
      assert [] + [m] == [m];
    } else {
      var front, last := ms[..|ms| - 1], ms[|ms| - 1];
      assert front + [last] == ms;
      CostMore(front, last);
      CostMore(ms, m);
      CostMore(front, m);
      CostMore(Put(front, key, v), last);
      PutCost(front, key, v);
    }
  }

  /** One member costs what it is read from. */
  lemma {:induction false} MembersReadCost(s: string, d: nat, members: seq<Member>)
    requires ReadMembers(s, d, members).Some?
    ensures var p := ReadMembers(s, d, members).value;
      p.value.Object? && |s| - |p.rest| + MembersCost(members) >= MembersCost(p.value.members)
    decreases |s|
  {
    hide Read, Chars, Put, MembersCost, ValueCost, StringCost;
    var quoted := Expect(s, '"').value;
    var key := Chars(quoted).value;
    var colon := Expect(key.rest, ':').value;
    var value := Read(colon, d).value;
    CharsCost(quoted);
    ReadCost(colon, d);
    PutCost(members, key.value, value.value);
    if Expect(value.rest, ',').Some? {
      MembersReadCost(Expect(value.rest, ',').value, d, Put(members, key.value, value.value));
    }
  }

  lemma ClaimsCost(userId: int, username: string, exp: int)
    ensures MembersCost(Claims(userId, username, exp)) == |IntText(userId)| + StringCost(username) + |IntText(exp)| + 32
  {
    hide IntText;
    var ms := Claims(userId, username, exp);
    PlainKeys();
    CostBounds("exp");
    CostBounds("user_id");
    CostBounds("username");
    hide StringCost, IsPlainText;
    assert ms[..2] == [ms[0], ms[1]] && ms[..2][..1] == [ms[0]] && ms[..2][..1][..0] == [];
    assert MembersCost(ms) == MembersCost(ms[..2]) + MemberCost(ms[2]);
    assert MembersCost(ms[..2]) == MembersCost(ms[..2][..1]) + MemberCost(ms[1]);
    assert MembersCost(ms[..2][..1]) == MembersCost(ms[..2][..1][..0]) + MemberCost(ms[0]);
  }

  /** A payload is too short to say the name in an escaped form. */
  lemma PayloadIsTooShort(userId: int, username: string, exp: int)
    requires Read(Payload(userId, username, exp), DEFAULT_MAX_DEPTHS) == Some(Parsed(Object(Claims(userId, username, exp)), ""))
    ensures IsPlainText(username)
  {
    hide Read, ReadMembers, IntText, IsPlainText, StringCost, MembersCost;
    var text := Payload(userId, username, exp);
    var inner := text[1..];
    assert text == "{" + inner && inner[0] == '"';
    ObjectAt(inner, 100);
    MembersReadCost(inner, 100, []);
    NoCost();
    ClaimsCost(userId, username, exp);
    CostBounds(username);
  }

  lemma NoCost()
    ensures MembersCost([]) == 0
  {
  }

  /** A payload says the id, the name and the expiry that the token is made for if and
      only if the name needs no escape, for the code escapes none. */
  lemma PayloadSays(userId: int, username: string, exp: int)
    requires INT64_MIN <= userId <= INT64_MAX && INT64_MIN <= exp <= INT64_MAX
    ensures Read(Payload(userId, username, exp), DEFAULT_MAX_DEPTHS) == Some(Parsed(Object(Claims(userId, username, exp)), ""))
      <==> IsPlainText(username)
  {
    hide Read, Payload, IsPlainText;
    if IsPlainText(username) { PayloadReads(userId, username, exp); }
    if Read(Payload(userId, username, exp), DEFAULT_MAX_DEPTHS) == Some(Parsed(Object(Claims(userId, username, exp)), "")) {
      PayloadIsTooShort(userId, username, exp);
    }
  }

  /** A quote in the name is the input for which it fails. */
  lemma QuoteBreaksPayload(userId: int, exp: int)
    requires INT64_MIN <= userId <= INT64_MAX && INT64_MIN <= exp <= INT64_MAX
    ensures var name := ['a', 34 as char];
      Read(Payload(userId, name, exp), DEFAULT_MAX_DEPTHS) != Some(Parsed(Object(Claims(userId, name, exp)), ""))
  {
    hide Read, Payload;
    var name := ['a', 34 as char];
    assert !StandsForItself(name[1]);
    PayloadSays(userId, name, exp);
  }

  // ----- the whole token -------------------------------------------------------------------------

  /** The header names the signature's algorithm. */
  lemma HeaderReads()
    ensures Read(HEADER, DEFAULT_MAX_DEPTHS) == Some(Parsed(Object([Member("alg", Str("HS256")), Member("typ", Str("JWT"))]), ""))
  {
    hide Read, ReadMembers, Put;
    var last := "\"" + ("typ" + "\"" + (":" + ("\"" + ("JWT" + "\"" + "}"))));
    var first := "\"" + ("alg" + "\"" + (":" + ("\"" + ("HS256" + "\"" + ("," + last)))));
    assert HEADER == "{" + first;
    HeaderWords();
    ObjectAt(first, 100);
    TextAt("HS256", "," + last, 100);
    MemberReads("alg", "\"" + ("HS256" + "\"" + ("," + last)), Str("HS256"), "," + last, 100, []);
    assert ("," + last)[1..] == last && "}"[1..] == "";
    TextAt("JWT", "}", 100);
    MemberReads("typ", "\"" + ("JWT" + "\"" + "}"), Str("JWT"), "}", 100, Put([], "alg", Str("HS256")));
  }

  lemma HeaderWords()
    ensures IsPlainText("alg") && IsPlainText("HS256") && IsPlainText("typ") && IsPlainText("JWT")
    ensures Put(Put([], "alg", Str("HS256")), "typ", Str("JWT")) == [Member("alg", Str("HS256")), Member("typ", Str("JWT"))]
  {
    var x := Member("alg", Str("HS256"));
    assert Put([], "alg", Str("HS256")) == [x];
    assert Less("alg", "typ");
  }

  /** Every token that is generated is accepted, and its middle part says the id, the name
      and the expiry that it is made for if and only if the name needs no escape. */
  lemma TokenSays(hmac: string -> string, userId: int, username: string, exp: int)
    requires IsBytes(username) && INT64_MIN <= userId <= INT64_MAX && INT64_MIN <= exp <= INT64_MAX
    ensures var token := GenerateJWT(hmac, userId, username, exp);
      VerifyJWT(hmac, token) == 1
      && exists pos1, pos2 :: (0 <= pos1 < pos2 < |token|
        && FindChar(token, '.', 0) == Some(pos1) && FindChar(token, '.', pos1 + 1) == Some(pos2)
        && Says(token[..pos1], Object([Member("alg", Str("HS256")), Member("typ", Str("JWT"))]))
        && (Says(token[pos1 + 1..pos2], Object(Claims(userId, username, exp))) <==> IsPlainText(username)))
  {
    hide Read, Payload, IsPlainText, GenerateJWT, VerifyJWT, Claims, Pad, Decoded, Signature;
    GeneratedTokens(hmac, userId, username, exp);
    PayloadSays(userId, username, exp);
    HeaderReads();
  }

  /** The part of a token decodes to the text of a JSON value. */
  predicate Says(part: string, v: Value) {
    match Decoded(BASE64_URL, Pad(part, BASE64_URL.fill))
    case Ok(text) => Read(text, DEFAULT_MAX_DEPTHS) == Some(Parsed(v, ""))
    case Err(_) => false
  }
}
