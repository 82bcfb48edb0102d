/** Passwords and tokens of src/auth_manager.cpp. The key derivation and the keyed hash
    are any functions. */
module Auth {
  import opened Wrappers
  import opened Texts
  import opened Base64

  // ----- base64UrlEncode -----------------------------------------------------------------

  /** The four values of three octets, as `base64UrlEncode` masks and shifts them. */
  function Masked(x: nat, y: nat, z: nat): (r: seq<nat>)
    requires x < 256 && y < 256 && z < 256
    ensures |r| == 4 && r[0] < 64 && r[1] < 64 && r[2] < 64 && r[3] < 64
  {
    [x / 4, x % 4 * 16 + y / 16, y % 16 * 4 + z / 64, z % 64]
  }

  lemma HighSextets(x: nat, y: nat, z: nat)
    requires x < 256 && y < 256 && z < 256
    ensures Triple(x, y, z) / 0x40000 == x / 4 && Triple(x, y, z) / 0x1000 == x * 16 + y / 16
  {
    assert x == x / 4 * 4 + x % 4 && y == y / 16 * 16 + y % 16;
    assert Triple(x, y, z) == x / 4 * 0x40000 + (x % 4 * 0x10000 + y * 0x100 + z);
    assert Triple(x, y, z) == (x * 16 + y / 16) * 0x1000 + (y % 16 * 0x100 + z);
  }

  lemma LowSextets(x: nat, y: nat, z: nat)
    requires x < 256 && y < 256 && z < 256
    ensures Triple(x, y, z) / 64 == x * 0x400 + y * 4 + z / 64 && Triple(x, y, z) % 64 == z % 64
  {
    assert z == z / 64 * 64 + z % 64;
    assert Triple(x, y, z) == (x * 0x400 + y * 4 + z / 64) * 64 + z % 64;
  }

  lemma MaskedIsQuad(x: nat, y: nat, z: nat)
    requires x < 256 && y < 256 && z < 256
    ensures var t, r := Triple(x, y, z), Masked(x, y, z);
      && t / 0x40000 % 64 == r[0] && t / 0x1000 % 64 == r[1] && t / 64 % 64 == r[2] && t % 64 == r[3]
  {
    hide Triple;
    HighSextets(x, y, z);
    LowSextets(x, y, z);
    assert x * 16 + y / 16 == x / 4 * 64 + (x % 4 * 16 + y / 16);
    assert x * 0x400 + y * 4 + z / 64 == (x * 16 + y / 16) * 64 + (y % 16 * 4 + z / 64);
  }

  function Symbols(v: seq<nat>): (s: string)
    requires forall i :: 0 <= i < |v| ==> v[i] < 64
    ensures |s| == |v|
  {
    seq(|v|, i requires 0 <= i < |v| => Symbol(BASE64_URL, v[i]))
  }

  lemma SymbolsAreQuad(x: nat, y: nat, z: nat)
    requires x < 256 && y < 256 && z < 256
    ensures Symbols(Masked(x, y, z)) == Quad(BASE64_URL, Triple(x, y, z))
  {
    MaskedIsQuad(x, y, z);
    hide Symbol, Triple;
  }

  /** `base64UrlEncode`: octets are collected by three; what is left over at the end is
      padded with zeros, and encoded without fill. */
  method Base64UrlEncode(data: string) returns (ret: string)
    ensures ret == Unpadded(BASE64_URL, data)
  {
    hide Quad, Triple, Symbol, Masked, Byte, Tail, Blocks;
    NoBlocks(data);
    var three := new nat[3](_ => 0);
    var i := 0;
    ret := "";
    ghost var k, got := 0, "";
    for p := 0 to |data|
      invariant p == 3 * k + i && i == |got| < 3 && ret == Blocks(BASE64_URL, data, k)
      invariant got == data[3 * k..p] && Holds(three, got)
    {
      ByteIsSmall(data[p]);
      three[i] := Byte(data[p]);
      i, got := i + 1, got + [data[p]];
      assert got == data[3 * k..p + 1];
      if i == 3 {
        assert Holds(three, got);
        NextBlock(data, k, got);
        SymbolsAreQuad(three[0], three[1], three[2]);
        ret := ret + Symbols(Masked(three[0], three[1], three[2]));
        i, k, got := 0, k + 1, "";
      }
    }
    TriplesIs(|data|, k);
    assert got == RestOf(data);
    if i > 0 {
      var tail := EncodeRest(three, i, got);
      ret := ret + tail;
    } else {
      assert Tail(BASE64_URL, got) == "" by { NoTail(); }
      assert ret + "" == ret;
    }
  }

  lemma NoBlocks(data: string)
    ensures Blocks(BASE64_URL, data, 0) == ""
  {
  }

  lemma NextBlock(data: string, k: nat, got: string)
    requires 3 * k + 3 <= |data| && got == data[3 * k..3 * k + 3]
    ensures Blocks(BASE64_URL, data, k + 1)
      == Blocks(BASE64_URL, data, k) + Quad(BASE64_URL, Triple(Byte(got[0]), Byte(got[1]), Byte(got[2])))
  {
    hide Quad, Triple, Byte;
  }

  lemma NoTail()
    ensures Tail(BASE64_URL, "") == ""
  {
  }

  /** The buffer begins with these octets. */
  ghost predicate Holds(three: array<nat>, got: string)
    reads three
  {
    three.Length == 3 && |got| <= 3 && forall j :: 0 <= j < |got| ==> three[j] == Byte(got[j]) < 256
  }

  /** The octets left over. */
  method EncodeRest(three: array<nat>, i: nat, ghost got: string) returns (ret: string)
    requires 0 < i == |got| < 3 && Holds(three, got)
    modifies three
    ensures ret == Tail(BASE64_URL, got)
  {
    hide Quad, Triple, Symbol, Masked, Byte;
    for j := i to 3
      invariant Holds(three, got) && forall m :: i <= m < j ==> three[m] == 0
    {
      three[j] := 0;
    }
    SymbolsAreQuad(three[0], three[1], three[2]);
    ret := Symbols(Masked(three[0], three[1], three[2]))[..i + 1];
  }

  lemma ByteIsSmall(c: char)
    ensures Byte(c) < 256
  {
  }

  lemma TriplesIs(n: nat, k: nat)
    requires 3 * k <= n < 3 * k + 3
    ensures Triples(n) == k
  {
  }

  /** It is the trimmed base64url encoding of jwt-cpp. */
  lemma SameAsTrimmed(data: string)
    ensures Unpadded(BASE64_URL, data) == Trim(Encoded(BASE64_URL, data), BASE64_URL.fill)
  {
    PadTrim(BASE64_URL, data);
  }

  lemma NoDot(data: string)
    ensures '.' !in Unpadded(BASE64_URL, data)
  {
    UnpaddedIsSymbols(BASE64_URL, data);
    hide Unpadded;
    assert !IsSymbol(BASE64_URL, '.');
  }

  // ----- hexadecimal text ----------------------------------------------------------------

  function HexOf(c: char): (s: string)
    ensures |s| == 2
  {
    [HEX_DIGITS[Byte(c) / 16], HEX_DIGITS[Byte(c) % 16]]
  }

  function Hex(data: string): (s: string)
    ensures |s| == 2 * |data|
  {
    if data == "" then "" else Hex(data[..|data| - 1]) + HexOf(data[|data| - 1])
  }

  /** `toHex`. */
  method ToHex(data: string) returns (s: string)
    ensures s == Hex(data)
  {
    hide HexOf;
    s := "";
    for i := 0 to |data|
      invariant s == Hex(data[..i])
    {
      assert data[..i + 1][..i] == data[..i];
      s := s + HexOf(data[i]);
    }
    assert data[..|data|] == data;
  }

  /** The number that the hexadecimal digits at the start of a text make. */
  function Digits(s: string, n: nat): nat {
    if s == "" || HexValue(s[0]).None? then n else Digits(s[1..], n * 16 + HexValue(s[0]).value)
  }

  predicate IsSpace(c: char) { c == ' ' || (9 <= c as int <= 13) }

  /** `strtol` with base 16. */
  function Strtol(s: string): int {
    if s == "" then 0
    else if IsSpace(s[0]) then Strtol(s[1..])
    else if s[0] == '-' then -(Digits(Prefix(s[1..]), 0) as int)
    else if s[0] == '+' then Digits(Prefix(s[1..]), 0)
    else Digits(Prefix(s), 0)
  }

  /** Without the prefix `0x`, which only counts before a digit. */
  function Prefix(s: string): string {
    if |s| > 2 && s[0] == '0' && (s[1] == 'x' || s[1] == 'X') && HexValue(s[2]).Some? then s[2..] else s
  }

  /** A pair of characters, or the last single one, cast to an octet. */
  function Octet(s: string): char { (Strtol(s) % 256) as char }

  function Octets(hex: string): string {
    if hex == "" then "" else if |hex| == 1 then [Octet(hex)] else [Octet(hex[..2])] + Octets(hex[2..])
  }

  /** `fromHex`. */
  method FromHex(hex: string) returns (bytes: string)
    ensures bytes == Octets(hex)
  {
    hide Octet, Octets;
    bytes := "";
    var i := 0;
    assert hex[0..] == hex;
    while i < |hex|
      invariant Octets(hex) == bytes + OctetsFrom(hex, i)
    {
      var pair := if i + 2 <= |hex| then hex[i..i + 2] else hex[i..];
      OctetsStep(hex, i);
      assert bytes + ([Octet(pair)] + OctetsFrom(hex, i + 2)) == bytes + [Octet(pair)] + OctetsFrom(hex, i + 2);
      bytes := bytes + [Octet(pair)];
      i := i + 2;
    }
    OctetsEnd(hex, i);
  }

  function OctetsFrom(hex: string, i: nat): string { if i <= |hex| then Octets(hex[i..]) else "" }

  lemma OctetsEnd(hex: string, i: nat)
    requires i >= |hex|
    ensures OctetsFrom(hex, i) == ""
  {
  }

  lemma OctetsStep(hex: string, i: nat)
    requires i < |hex|
    ensures OctetsFrom(hex, i) == [Octet(if i + 2 <= |hex| then hex[i..i + 2] else hex[i..])] + OctetsFrom(hex, i + 2)
  {
    hide Octet;
    var rest := hex[i..];
    if |rest| > 1 {
      assert rest[..2] == hex[i..i + 2] && rest[2..] == hex[i + 2..];
    }
  }

  lemma OctetOfHex(c: char)
    requires c as int < 256
    ensures Octet(HexOf(c)) == c
  {
    hide HexValue, IsSpace, Digits, Prefix;
    var hi, lo := Byte(c) / 16, Byte(c) % 16;
    Nibbles(c as int);
    HexDigitReads(hi);
    HexDigitReads(lo);
    NoPrefix(HEX_DIGITS[hi], HEX_DIGITS[lo]);
    TwoDigitsRead(HEX_DIGITS[hi], HEX_DIGITS[lo]);
  }

  lemma NoPrefix(x: char, y: char)
    requires x !in " \t\n\r-+:" && HexValue(x).Some?
    ensures Prefix([x, y]) == [x, y] && !IsSpace(x)
  {
  }

  lemma TwoDigitsRead(x: char, y: char)
    requires HexValue(x).Some? && HexValue(y).Some?
    ensures Digits([x, y], 0) == HexValue(x).value * 16 + HexValue(y).value
  {
    hide HexValue;
    assert [x, y][1..] == [y] && [y][1..] == "";
    var v := HexValue(x).value;
    assert Digits([y], v) == Digits("", v * 16 + HexValue(y).value);
    assert Digits([x, y], 0) == Digits([y], v);
  }

  /** Octets written in hexadecimal are read back. */
  lemma {:induction false} OctetsOfHex(data: string, rest: string)
    requires IsBytes(data)
    ensures Octets(Hex(data) + rest) == data + Octets(rest)
  {
    hide HexOf, Octet;
    if data == "" {
      assert "" + rest == rest;
    } else {
      var front, last := data[..|data| - 1], data[|data| - 1];
      var more := HexOf(last) + rest;
      assert Hex(data) + rest == Hex(front) + more;
      OctetsOfHex(front, more);
      assert more[..2] == HexOf(last) && more[2..] == rest;
      OctetOfHex(last);
      assert data + Octets(rest) == front + ([last] + Octets(rest));
    }
  }

  lemma FromToHex(data: string)
    requires IsBytes(data)
    ensures Octets(Hex(data)) == data
  {
    OctetsOfHex(data, "");
    assert Hex(data) + "" == Hex(data) && data + "" == data;
  }

  lemma {:induction false} HexHasNoColon(data: string)
    ensures ':' !in Hex(data)
  {
    if data != "" {
      HexHasNoColon(data[..|data| - 1]);
      var b := Byte(data[|data| - 1]);
      HexDigitReads(b / 16);
      HexDigitReads(b % 16);
    }
  }

  // ----- passwords ----------------------------------------------------------------------------

  /** `std::string::find` of one character. */
  function FindChar(s: string, c: char, from: nat): (r: Option<nat>)
    requires from <= |s|
    ensures r.Some? ==> from <= r.value < |s| && s[r.value] == c && c !in s[from..r.value]
    ensures r.None? ==> c !in s[from..]
    decreases |s| - from
  {
    if from == |s| then None else if s[from] == c then Some(from) else FindChar(s, c, from + 1)
  }

  lemma {:induction false} FoundAt(s: string, c: char, from: nat, at: nat)
    requires from <= at < |s| && s[at] == c && c !in s[from..at]
    ensures FindChar(s, c, from) == Some(at)
    decreases at - from
  {
    if from < at {
      assert s[from..at][0] == s[from] && s[from..at][1..] == s[from + 1..at];
      FoundAt(s, c, from + 1, at);
    }
  }

  const KEY_LENGTH := 32
  const SALT_LENGTH := 16

  /** A key derivation: octets of the right number. */
  ghost predicate Derives(kdf: (string, string) -> string) {
    forall password, salt :: |kdf(password, salt)| == KEY_LENGTH && IsBytes(kdf(password, salt))
  }

  /** `hashPassword` with the random octets it takes for a salt. */
  function HashPassword(kdf: (string, string) -> string, password: string, salt: string): string {
    Hex(salt) + ":" + Hex(kdf(password, salt))
  }

  /** `verifyPassword`. */
  function VerifyPassword(kdf: (string, string) -> string, password: string, stored: string): bool {
    match FindChar(stored, ':', 0)
    case None => false
    case Some(colon) => Hex(kdf(password, Octets(stored[..colon]))) == stored[colon + 1..]
  }

  lemma HexIsInjective(x: string, y: string)
    requires IsBytes(x) && IsBytes(y)
    ensures Hex(x) == Hex(y) <==> x == y
  {
    FromToHex(x);
    FromToHex(y);
  }

  /** A password is accepted against a stored hash exactly when the key derived from it
      with the stored salt is the one derived from the password that was hashed; so the
      password itself always is. */
  lemma PasswordsVerify(kdf: (string, string) -> string, password: string, other: string, salt: string)
    requires Derives(kdf) && |salt| == SALT_LENGTH && IsBytes(salt)
    ensures VerifyPassword(kdf, other, HashPassword(kdf, password, salt)) <==> kdf(other, salt) == kdf(password, salt)
    ensures VerifyPassword(kdf, password, HashPassword(kdf, password, salt))
  {
    hide Hex, Octets;
    var stored, n := HashPassword(kdf, password, salt), |Hex(salt)|;
    HexHasNoColon(salt);
    assert stored[..n] == Hex(salt) && stored[0..n] == Hex(salt) && stored[n] == ':';
    FoundAt(stored, ':', 0, n);
    FromToHex(salt);
    assert stored[n + 1..] == Hex(kdf(password, salt));
    HexIsInjective(kdf(other, salt), kdf(password, salt));
  }

  /** What is stored: the salt and the key derived with it, each octet as two digits, with
      a colon between them. */
  lemma StoredForm(kdf: (string, string) -> string, password: string, salt: string, i: nat)
    requires Derives(kdf) && |salt| == SALT_LENGTH && IsBytes(salt)
    ensures var t, key := HashPassword(kdf, password, salt), kdf(password, salt);
      && |t| == 97 && t[32] == ':'
      && (i < 16 ==> t[2 * i..2 * i + 2] == TwoDigits(salt[i])) && (i < 32 ==> t[33 + 2 * i..35 + 2 * i] == TwoDigits(key[i]))
  {
    hide Hex, TwoDigits;
    var t, key := HashPassword(kdf, password, salt), kdf(password, salt);
    if i < 16 { HexAt(salt, i); }
    if i < 32 {
      HexAt(key, i);
      assert t[33..] == Hex(key) && t[33 + 2 * i..35 + 2 * i] == t[33..][2 * i..2 * i + 2];
    }
    assert t[..32] == Hex(salt);
    if i < 16 { assert t[2 * i..2 * i + 2] == t[..32][2 * i..2 * i + 2]; }
  }

  /** An octet in lower-case hexadecimal, by character code. */
  function TwoDigits(c: char): string {
    var hi, lo := c as int / 16 % 16, c as int % 16;
    [OneDigit(hi), OneDigit(lo)]
  }

  function OneDigit(v: nat): char
    requires v < 16
  {
    (if v < 10 then 48 + v else 87 + v) as char
  }

  lemma OneDigitIs(v: nat)
    requires v < 16
    ensures OneDigit(v) == HEX_DIGITS[v]
  {
    HexDigitReads(v);
  }

  lemma {:induction false} HexAt(data: string, i: nat)
    requires IsBytes(data) && i < |data|
    ensures Hex(data)[2 * i..2 * i + 2] == TwoDigits(data[i])
  {
    hide HexOf, TwoDigits;
    var front, last := data[..|data| - 1], data[|data| - 1];
    if i < |front| {
      HexAt(front, i);
      assert Hex(data)[2 * i..2 * i + 2] == Hex(front)[2 * i..2 * i + 2];
    } else {
      HexOfIs(last);
      assert Hex(data)[2 * i..2 * i + 2] == HexOf(last);
    }
  }

  lemma Nibbles(n: nat)
    requires n < 256
    ensures n % 256 == n && n / 16 < 16 && n / 16 % 16 == n / 16 && n % 16 < 16
  {
  }

  lemma HexOfIs(c: char)
    requires c as int < 256
    ensures HexOf(c) == TwoDigits(c)
  {
    hide OneDigit;
    var hi, lo := c as int / 16, c as int % 16;
    Nibbles(c as int);
    OneDigitIs(hi);
    OneDigitIs(lo);
    assert HexOf(c) == [HEX_DIGITS[hi], HEX_DIGITS[lo]];
  }

  // ----- tokens ---------------------------------------------------------------------------------

  const HEADER: string := "{\"alg\":\"HS256\",\"typ\":\"JWT\"}"

  function Payload(userId: int, username: string, exp: int): string {
    "{\"user_id\":" + IntText(userId) + ",\"username\":\"" + username + "\",\"exp\":" + IntText(exp) + "}"
  }

  function Signature(hmac: string -> string, data: string): string { Unpadded(BASE64_URL, hmac(data)) }

  /** `generateJWT` with the time of expiry that it computes. */
  function GenerateJWT(hmac: string -> string, userId: int, username: string, exp: int): string {
    var data := Unpadded(BASE64_URL, HEADER) + "." + Unpadded(BASE64_URL, Payload(userId, username, exp));
    data + "." + Signature(hmac, data)
  }

  /** `verifyJWT`. */
  function VerifyJWT(hmac: string -> string, token: string): int {
    match FindChar(token, '.', 0)
    case None => -1
    case Some(pos1) =>
      (match FindChar(token, '.', pos1 + 1)
       case None => -1
       case Some(pos2) => if token[pos2 + 1..] != Signature(hmac, token[..pos2]) then -1 else 1)
  }

  /** Two parts with a dot between them. */
  predicate TwoParts(data: string, x: string, y: string) { data == x + "." + y && '.' !in x && '.' !in y }

  lemma SignedVerifies(hmac: string -> string, data: string, x: string, y: string)
    requires TwoParts(data, x, y)
    ensures VerifyJWT(hmac, data + "." + Signature(hmac, data)) == 1
  {
    var token := data + "." + Signature(hmac, data);
    assert token[0..|x|] == x && token[|x|] == '.';
    FoundAt(token, '.', 0, |x|);
    assert token[|x| + 1..|data|] == y && token[|data|] == '.';
    FoundAt(token, '.', |x| + 1, |data|);
    assert token[..|data|] == data && token[|data| + 1..] == Signature(hmac, data);
  }

  predicate Signed(hmac: string -> string, token: string, x: string, y: string) {
    '.' !in x && '.' !in y && token == x + "." + y + "." + Signature(hmac, x + "." + y)
  }

  lemma VerifiedIsSigned(hmac: string -> string, token: string) returns (x: string, y: string)
    requires VerifyJWT(hmac, token) == 1
    ensures Signed(hmac, token, x, y)
  {
    hide Signature;
    var pos1 := FindChar(token, '.', 0).value;
    var pos2 := FindChar(token, '.', pos1 + 1).value;
    x, y := token[0..pos1], token[pos1 + 1..pos2];
    assert token[..pos2] == x + "." + y;
    assert token == token[..pos2] + "." + token[pos2 + 1..];
  }

  /** A token is accepted exactly when it is two parts and their own signature. */
  lemma AcceptedTokens(hmac: string -> string, token: string)
    ensures VerifyJWT(hmac, token) == 1 <==> exists x, y :: Signed(hmac, token, x, y)
    ensures VerifyJWT(hmac, token) == 1 || VerifyJWT(hmac, token) == -1
  {
    if VerifyJWT(hmac, token) == 1 {
      var x, y := VerifiedIsSigned(hmac, token);
    }
    hide VerifyJWT, Signature;
    if x, y :| Signed(hmac, token, x, y) {
      SignedVerifies(hmac, x + "." + y, x, y);
    }
    OneOrMinusOne(hmac, token);
  }

  lemma OneOrMinusOne(hmac: string -> string, token: string)
    ensures VerifyJWT(hmac, token) == 1 || VerifyJWT(hmac, token) == -1
  {
    hide Signature;
  }

  /** Every token that is generated is accepted, and carries its header and its payload:
      the parts before and between its dots, filled up again, decode to them. */
  lemma GeneratedTokens(hmac: string -> string, userId: int, username: string, exp: int)
    requires IsBytes(username)
    ensures VerifyJWT(hmac, GenerateJWT(hmac, userId, username, exp)) == 1
    ensures var token := GenerateJWT(hmac, userId, username, exp);
      exists pos1, pos2 :: 0 <= pos1 < pos2 < |token|
        && FindChar(token, '.', 0) == Some(pos1) && FindChar(token, '.', pos1 + 1) == Some(pos2)
        && BASE64_URL.fill != "" && Decoded(BASE64_URL, Pad(token[..pos1], BASE64_URL.fill)) == Ok(HEADER)
        && Decoded(BASE64_URL, Pad(token[pos1 + 1..pos2], BASE64_URL.fill)) == Ok(Payload(userId, username, exp))
  {
    hide Payload, Signature, Unpadded, Encoded, Decoded, Pad, Trim;
    var payload := Payload(userId, username, exp);
    var x, y := Unpadded(BASE64_URL, HEADER), Unpadded(BASE64_URL, payload);
    var data := x + "." + y;
    NoDot(HEADER);
    NoDot(payload);
    assert TwoParts(data, x, y);
    SignedVerifies(hmac, data, x, y);
    var token := data + "." + Signature(hmac, data);
    assert token[0..|x|] == x && token[|x|] == '.';
    FoundAt(token, '.', 0, |x|);
    assert token[|x| + 1..|data|] == y && token[|data|] == '.';
    FoundAt(token, '.', |x| + 1, |data|);
    PayloadIsBytes(userId, username, exp);
    PadTrim(BASE64_URL, payload);
    DecodePadTrim(BASE64_URL, payload);
    HeaderIsBytes();
    PadTrim(BASE64_URL, HEADER);
    DecodePadTrim(BASE64_URL, HEADER);
    assert token[..|x|] == x;
  }

  lemma HeaderIsBytes()
    ensures IsBytes(HEADER)
  {
  }

  lemma {:induction false} DecimalIsBytes(n: nat)
    ensures IsBytes(DecimalText(n))
  {
    if n >= 10 { DecimalIsBytes(n / 10); }
  }

  lemma PayloadIsBytes(userId: int, username: string, exp: int)
    requires IsBytes(username)
    ensures IsBytes(Payload(userId, username, exp))
  {
    DecimalIsBytes(if userId < 0 then -userId else userId);
    DecimalIsBytes(if exp < 0 then -exp else exp);
    var s0, s1, s2, s3 := "{\"user_id\":", ",\"username\":\"", "\",\"exp\":", "}";
    assert IsBytes(s0) && IsBytes(s1) && IsBytes(s2) && IsBytes(s3) && IsBytes("-");
    var x, y := IntText(userId), IntText(exp);
    assert IsBytes(x) && IsBytes(y);
    BytesJoin(s0, x);
    BytesJoin(s0 + x, s1);
    BytesJoin(s0 + x + s1, username);
    BytesJoin(s0 + x + s1 + username, s2);
    BytesJoin(s0 + x + s1 + username + s2, y);
    BytesJoin(s0 + x + s1 + username + s2 + y, s3);
    hide IsBytes;
  }

  lemma BytesJoin(x: string, y: string)
    requires IsBytes(x) && IsBytes(y)
    ensures IsBytes(x + y)
  {
  }
}
