/** The base64 and base64url encodings of include/jwt-cpp/base.h (sections 4 and 5 of
    RFC 4648). */
module Base64 {
  import opened Wrappers
  import opened Texts

  const UPPER: string := "ABCDEFGHIJKLMNOPQRSTUVWXYZ"
  const LOWER: string := "abcdefghijklmnopqrstuvwxyz"
  const DIGITS: string := "0123456789"

  /** The 64 characters of an alphabet, which differ in the last two, and the text that
      fills a last block. */
  datatype Alphabet = Alphabet(c62: char, c63: char, fill: string) {
    function Data(): string { UPPER + LOWER + DIGITS + [c62, c63] }
  }

  const BASE64 := Alphabet('+', '/', "=")
  const BASE64_URL := Alphabet('-', '_', "%3d")

  predicate Known(a: Alphabet) { a == BASE64 || a == BASE64_URL }

  /** The table `rdata`. */
  function Index(a: Alphabet, c: char): (r: Option<nat>)
    ensures r.Some? ==> r.value < 64
  {
    if 'A' <= c <= 'Z' then Some(c as int - 'A' as int)
    else if 'a' <= c <= 'z' then Some(c as int - 'a' as int + 26)
    else if '0' <= c <= '9' then Some(c as int - '0' as int + 52)
    else if c == a.c62 then Some(62)
    else if c == a.c63 then Some(63)
    else None
  }

  function Symbol(a: Alphabet, v: nat): char
    requires v < 64
  {
    assert |UPPER| == 26 && |LOWER| == 26 && |DIGITS| == 10;
    a.Data()[v]
  }

  lemma Upper(i: nat)
    requires i < 26
    ensures UPPER[i] as int == 'A' as int + i
  {
  }

  lemma Lower(i: nat)
    requires i < 26
    ensures LOWER[i] as int == 'a' as int + i
  {
  }

  lemma Digit(i: nat)
    requires i < 10
    ensures DIGITS[i] as int == '0' as int + i
  {
  }

  /** The tables of sections 4 and 5 of RFC 4648 by character code, and the fills. */
  lemma AlphabetsAreStandard(v: nat)
    requires v < 64
    ensures v < 62 ==> Symbol(BASE64, v) as int == if v < 26 then 65 + v else if v < 52 then 71 + v else v - 4
    ensures v < 62 ==> Symbol(BASE64_URL, v) == Symbol(BASE64, v)
    ensures Symbol(BASE64, 62) as int == 43 && Symbol(BASE64, 63) as int == 47
    ensures Symbol(BASE64_URL, 62) as int == 45 && Symbol(BASE64_URL, 63) as int == 95
    ensures BASE64.fill == [61 as char] && BASE64_URL.fill == [37 as char, 51 as char, 100 as char]
  {
    if v < 26 {
      Upper(v);
    } else if v < 52 {
      Lower(v - 26);
    } else if v < 62 {
      Digit(v - 52);
    }
    SymbolAt(BASE64, v);
    SymbolAt(BASE64_URL, v);
    SymbolAt(BASE64, 62);
    SymbolAt(BASE64, 63);
    SymbolAt(BASE64_URL, 62);
    SymbolAt(BASE64_URL, 63);
    hide Symbol;
  }

  /** `rdata` is the inverse of `data`. */
  lemma IndexOfSymbol(a: Alphabet, v: nat)
    requires Known(a) && v < 64
    ensures Index(a, Symbol(a, v)) == Some(v)
  {
    if v < 26 {
      Upper(v);
    } else if v < 52 {
      Lower(v - 26);
    } else if v < 62 {
      Digit(v - 52);
    }
    SymbolAt(a, v);
    hide Symbol;
  }

  lemma SymbolAt(a: Alphabet, v: nat)
    requires v < 64
    ensures Symbol(a, v) == if v < 26 then UPPER[v] else if v < 52 then LOWER[v - 26] else if v < 62 then DIGITS[v - 52]
                            else if v == 62 then a.c62 else a.c63
  {
  }

  /** A character of the alphabet. */
  predicate IsSymbol(a: Alphabet, c: char) { Index(a, c).Some? }

  // ----- encoding ------------------------------------------------------------------------

  function Byte(c: char): nat { c as int % 256 }

  function Triple(x: nat, y: nat, z: nat): nat { x * 0x10000 + y * 0x100 + z }

  /** The four symbols of a triple of octets. */
  function Quad(a: Alphabet, t: nat): (r: string)
    ensures |r| == 4
  {
    [Symbol(a, t / 0x40000 % 64), Symbol(a, t / 0x1000 % 64), Symbol(a, t / 64 % 64), Symbol(a, t % 64)]
  }

  /** The symbols of the first `k` triples. */
  function Blocks(a: Alphabet, bin: string, k: nat): (r: string)
    requires 3 * k <= |bin|
    ensures |r| == 4 * k
  {
    if k == 0 then ""
    else
      var n := 3 * k - 3;
      Blocks(a, bin, k - 1) + Quad(a, Triple(Byte(bin[n]), Byte(bin[n + 1]), Byte(bin[n + 2])))
  }

  /** The last one or two octets, without fill. */
  function Tail(a: Alphabet, bin: string): string
    requires |bin| < 3
  {
    if |bin| == 0 then ""
    else if |bin| == 1 then Quad(a, Triple(Byte(bin[0]), 0, 0))[..2]
    else Quad(a, Triple(Byte(bin[0]), Byte(bin[1]), 0))[..3]
  }

  /** The whole triples of octets, and the whole blocks of symbols. */
  function Triples(n: nat): (k: nat)
    ensures 3 * k <= n < 3 * k + 3
  {
    n / 3
  }

  function Quads(n: nat): (k: nat)
    ensures 4 * k <= n < 4 * k + 4
  {
    n / 4
  }

  /** The fills that a last block of `n` octets needs. */
  function FillCount(n: nat): nat
    requires n < 3
  {
    if n == 0 then 0 else 3 - n
  }

  /** The octets after the last whole triple. */
  function RestOf(bin: string): (r: string)
    ensures |r| < 3 && bin == bin[..3 * Triples(|bin|)] + r && |bin| == 3 * Triples(|bin|) + |r|
  {
    bin[3 * Triples(|bin|)..]
  }

  /** The encoding without fill (section 2 of RFC 7515). */
  function Unpadded(a: Alphabet, bin: string): string {
    Blocks(a, bin, Triples(|bin|)) + Tail(a, RestOf(bin))
  }

  function Fills(a: Alphabet, n: nat): string {
    if n == 0 then "" else Fills(a, n - 1) + a.fill
  }

  function Encoded(a: Alphabet, bin: string): string {
    Unpadded(a, bin) + Fills(a, FillCount(|RestOf(bin)|))
  }

  /** `details::encode`. */
  method Encode(a: Alphabet, bin: string) returns (res: string)
    ensures res == Encoded(a, bin)
  {
    hide Symbol, Triple, Byte, Tail, Fills;
    var size := |bin|;
    res := "";
    var fastSize := size - size % 3;
    var i := 0;
    ghost var k := 0;
    while i < fastSize
      invariant i == 3 * k <= fastSize && res == Blocks(a, bin, k)
    {
      var triple := Triple(Byte(bin[i]), Byte(bin[i + 1]), Byte(bin[i + 2]));
      res := res + [Symbol(a, triple / 0x40000 % 64), Symbol(a, triple / 0x1000 % 64)];
      res := res + [Symbol(a, triple / 64 % 64), Symbol(a, triple % 64)];
      i, k := i + 3, k + 1;
    }
    var tail := EncodeTail(a, bin[fastSize..]);
    assert k == Triples(size) && bin[fastSize..] == RestOf(bin);
    assert res + (Tail(a, RestOf(bin)) + Fills(a, FillCount(|RestOf(bin)|)))
        == res + Tail(a, RestOf(bin)) + Fills(a, FillCount(|RestOf(bin)|));
    res := res + tail;
  }

  lemma FewFills(a: Alphabet)
    ensures Fills(a, 0) == "" && Fills(a, 1) == a.fill && Fills(a, 2) == a.fill + a.fill
  {
    assert "" + a.fill == a.fill;
  }

  /** The octets after the last whole triple. */
  method EncodeTail(a: Alphabet, bin: string) returns (res: string)
    requires |bin| < 3
    ensures res == Tail(a, bin) + Fills(a, FillCount(|bin|))
  {
    hide Symbol, Triple, Byte, Fills;
    FewFills(a);
    res := "";
    if |bin| == 0 {
      return;
    }
    var triple := Triple(Byte(bin[0]), if 1 < |bin| then Byte(bin[1]) else 0, 0);
    if |bin| == 1 {
      res := res + [Symbol(a, triple / 0x40000 % 64), Symbol(a, triple / 0x1000 % 64)];
      assert res == Quad(a, triple)[..2];
      res := res + a.fill + a.fill;
    } else {
      res := res + [Symbol(a, triple / 0x40000 % 64), Symbol(a, triple / 0x1000 % 64), Symbol(a, triple / 64 % 64)];
      assert res == Quad(a, triple)[..3];
      res := res + a.fill;
    }
  }

  // ----- decoding ------------------------------------------------------------------------

  datatype DecodeError = TooMuchFill | BadSize | NotInAlphabet

  predicate EndsWith(s: string, t: string) { |s| >= |t| && s[|s| - |t|..] == t }

  /** `count_padding`: the number of fills at the end, and their length. */
  function CountPadding(base: string, fill: string): (r: (nat, nat))
    requires fill != ""
    ensures r.1 <= |base|
  {
    if EndsWith(base, fill) then
      var r := CountPadding(base[..|base| - |fill|], fill);
      (r.0 + 1, r.1 + |fill|)
    else (0, 0)
  }

  function Octets(t: nat): string { [(t / 0x10000 % 256) as char, (t / 0x100 % 256) as char, (t % 256) as char] }

  function FourSextets(a: Alphabet, s: string): Option<nat>
    requires |s| == 4
  {
    var w :- Index(a, s[0]);
    var x :- Index(a, s[1]);
    var y :- Index(a, s[2]);
    var z :- Index(a, s[3]);
    Some(w * 0x40000 + x * 0x1000 + y * 64 + z)
  }

  /** The octets of the first `k` blocks. */
  function DecodedBlocks(a: Alphabet, s: string, k: nat): Option<string>
    requires 4 * k <= |s|
  {
    if k == 0 then Some("")
    else
      var front :- DecodedBlocks(a, s, k - 1);
      var t :- FourSextets(a, s[4 * k - 4..4 * k]);
      Some(front + Octets(t))
  }

  /** The last two or three symbols. */
  function DecodedTail(a: Alphabet, s: string): Option<string>
    requires |s| == 0 || |s| == 2 || |s| == 3
  {
    if |s| == 0 then Some("")
    else
      var w :- Index(a, s[0]);
      var x :- Index(a, s[1]);
      if |s| == 2 then Some(Octets(w * 0x40000 + x * 0x1000)[..1])
      else
        var y :- Index(a, s[2]);
        Some(Octets(w * 0x40000 + x * 0x1000 + y * 64)[..2])
  }

  function Decoded(a: Alphabet, base: string): Result<string, DecodeError>
    requires a.fill != ""
  {
    var pad := CountPadding(base, a.fill);
    var size := |base| - pad.1;
    if pad.0 > 2 then Err(TooMuchFill)
    else if (size + pad.0) % 4 != 0 then Err(BadSize)
    else
      var k := Quads(size);
      assert size - 4 * k != 1 by { NoSingle(size, pad.0, k); }
      match (DecodedBlocks(a, base, k), DecodedTail(a, base[4 * k..size]))
      case (Some(x), Some(y)) => Ok(x + y)
      case _ => Err(NotInAlphabet)
  }

  /** With at most two fills a last block of one symbol has no right size. */
  lemma NoSingle(size: nat, count: nat, k: nat)
    requires (size + count) % 4 == 0 && count <= 2 && 4 * k <= size < 4 * k + 4
    ensures size - 4 * k != 1
  {
  }

  lemma {:induction false} BlocksUndecoded(a: Alphabet, s: string, k: nat, n: nat)
    requires k <= n && 4 * n <= |s| && DecodedBlocks(a, s, k).None?
    ensures DecodedBlocks(a, s, n).None?
    decreases n - k
  {
    hide FourSextets, Octets;
    if k < n { BlocksUndecoded(a, s, k, n - 1); }
  }

  lemma FastIsQuads(size: nat)
    ensures size - size % 4 == 4 * Quads(size)
  {
  }

  /** `details::decode`. */
  method Decode(a: Alphabet, base: string) returns (r: Result<string, DecodeError>)
    requires a.fill != ""
    ensures r == Decoded(a, base)
  {
    hide Octets, FourSextets, DecodedTail, CountPadding, Quads;
    var pad := CountPadding(base, a.fill);
    if pad.0 > 2 {
      return Err(TooMuchFill);
    }
    var size := |base| - pad.1;
    if (size + pad.0) % 4 != 0 {
      return Err(BadSize);
    }
    var res := "";
    var fastSize := size - size % 4;
    FastIsQuads(size);
    NoSingle(size, pad.0, Quads(size));
    var i := 0;
    ghost var k := 0;
    while i < fastSize
      invariant i == 4 * k <= fastSize && DecodedBlocks(a, base, k) == Some(res)
    {
      var triple := FourSextets(a, base[i..i + 4]);
      if triple.None? {
        BlocksUndecoded(a, base, k + 1, Quads(size));
        return Err(NotInAlphabet);
      }
      res := res + Octets(triple.value);
      i, k := i + 4, k + 1;
    }
    assert k == Quads(size);
    var tail := DecodedTail(a, base[fastSize..size]);
    if tail.None? {
      return Err(NotInAlphabet);
    }
    return Ok(res + tail.value);
  }

  // ----- round trips ------------------------------------------------------------------------

  lemma SextetsOf(t: nat)
    requires t < 0x1000000
    ensures t / 0x40000 % 64 * 0x40000 + t / 0x1000 % 64 * 0x1000 + t / 64 % 64 * 64 + t % 64 == t
  {
    assert t / 64 == t / 0x1000 * 64 + t / 64 % 64;
    assert t / 0x1000 == t / 0x40000 * 64 + t / 0x1000 % 64;
  }

  lemma Split(x: nat, y: nat, z: nat)
    requires x < 256 && y < 256 && z < 256
    ensures var t := Triple(x, y, z);
      t < 0x1000000 && t / 0x10000 % 256 == x && t / 0x100 % 256 == y && t % 256 == z
  {
    var t := Triple(x, y, z);
    assert t / 0x10000 == x;
    assert t / 0x100 == x * 0x100 + y;
  }

  lemma ByteOf(x: char)
    requires x as int < 256
    ensures Byte(x) == x as int
  {
  }

  lemma OctetsOf(x: char, y: char, z: char)
    requires x as int < 256 && y as int < 256 && z as int < 256
    ensures Triple(Byte(x), Byte(y), Byte(z)) < 0x1000000 && Octets(Triple(Byte(x), Byte(y), Byte(z))) == [x, y, z]
  {
    hide Triple, Byte;
    ByteOf(x);
    ByteOf(y);
    ByteOf(z);
    Split(x as int, y as int, z as int);
  }

  lemma QuadDecodes(a: Alphabet, t: nat)
    requires Known(a) && t < 0x1000000
    ensures FourSextets(a, Quad(a, t)) == Some(t)
  {
    IndexOfSymbol(a, t / 0x40000 % 64);
    IndexOfSymbol(a, t / 0x1000 % 64);
    IndexOfSymbol(a, t / 64 % 64);
    IndexOfSymbol(a, t % 64);
    SextetsOf(t);
    hide Symbol, Index;
  }

  lemma {:induction false} BlocksDecode(a: Alphabet, bin: string, k: nat, rest: string)
    requires Known(a) && 3 * k <= |bin| && IsBytes(bin)
    ensures DecodedBlocks(a, Blocks(a, bin, k) + rest, k) == Some(bin[..3 * k])
  {
    hide Triple, Octets, FourSextets, Quad;
    if k > 0 {
      var n := 3 * k - 3;
      var t := Triple(Byte(bin[n]), Byte(bin[n + 1]), Byte(bin[n + 2]));
      var front, last := Blocks(a, bin, k - 1), Quad(a, t);
      BlocksDecode(a, bin, k - 1, last + rest);
      OctetsOf(bin[n], bin[n + 1], bin[n + 2]);
      QuadDecodes(a, t);
      var all := Blocks(a, bin, k) + rest;
      assert all == front + (last + rest) && all[4 * k - 4..4 * k] == last;
      assert bin[..3 * k] == bin[..n] + [bin[n], bin[n + 1], bin[n + 2]];
    }
  }

  lemma Times64(k: nat)
    ensures k * 64 % 64 == 0 && k * 64 / 64 == k
  {
  }

  /** One or two octets leave the low bits of their triple zero. */
  lemma LowBits(x: nat, y: nat)
    ensures Triple(x, 0, 0) / 64 % 64 == 0 && Triple(x, 0, 0) % 64 == 0 && Triple(x, y, 0) % 64 == 0
  {
    Times64(x * 0x400);
    Times64(x * 16);
    Times64(x * 0x400 + y * 4);
    assert Triple(x, 0, 0) == (x * 0x400) * 64 && x * 0x400 == (x * 16) * 64;
    assert Triple(x, y, 0) == (x * 0x400 + y * 4) * 64;
  }

  lemma TailDecodes(a: Alphabet, bin: string)
    requires Known(a) && |bin| < 3 && IsBytes(bin)
    ensures |Tail(a, bin)| == (if bin == "" then 0 else |bin| + 1) && DecodedTail(a, Tail(a, bin)) == Some(bin)
  {
    hide Symbol, Index, Triple, Octets;
    if bin != "" {
      var y := if |bin| == 1 then 0 as char else bin[1];
      var t := Triple(Byte(bin[0]), Byte(y), 0);
      OctetsOf(bin[0], y, 0 as char);
      TailSymbols(a, t);
      LowBits(Byte(bin[0]), Byte(y));
      assert Byte(0 as char) == 0;
      assert [bin[0], y, 0 as char][..|bin|] == bin;
    }
  }

  lemma TailSymbols(a: Alphabet, t: nat)
    requires Known(a) && t < 0x1000000
    ensures var q := Quad(a, t);
      && Index(a, q[0]) == Some(t / 0x40000 % 64) && Index(a, q[1]) == Some(t / 0x1000 % 64)
      && Index(a, q[2]) == Some(t / 64 % 64)
    ensures t / 0x40000 % 64 * 0x40000 + t / 0x1000 % 64 * 0x1000 + t / 64 % 64 * 64 + t % 64 == t
  {
    IndexOfSymbol(a, t / 0x40000 % 64);
    IndexOfSymbol(a, t / 0x1000 % 64);
    IndexOfSymbol(a, t / 64 % 64);
    SextetsOf(t);
    hide Symbol, Index;
  }

  // ----- fill and trim -------------------------------------------------------------------------

  /** `details::pad`. */
  function Pad(base: string, fill: string): string {
    match |base| % 4
    case 1 => base + fill + fill + fill
    case 2 => base + fill + fill
    case 3 => base + fill
    case _ => base
  }

  function FindText(s: string, t: string, from: nat): (r: nat)
    requires from <= |s|
    ensures from <= r <= |s|
    decreases |s| - from
  {
    if from + |t| > |s| then |s| else if s[from..from + |t|] == t then from else FindText(s, t, from + 1)
  }

  /** `details::trim`: up to the first fill. */
  function Trim(base: string, fill: string): string { base[..FindText(base, fill, 0)] }

  predicate AllSymbols(a: Alphabet, s: string) { forall i :: 0 <= i < |s| ==> IsSymbol(a, s[i]) }

  lemma QuadIsSymbols(a: Alphabet, t: nat)
    requires Known(a)
    ensures AllSymbols(a, Quad(a, t))
  {
    IndexOfSymbol(a, t / 0x40000 % 64);
    IndexOfSymbol(a, t / 0x1000 % 64);
    IndexOfSymbol(a, t / 64 % 64);
    IndexOfSymbol(a, t % 64);
    hide Symbol, Index;
  }

  lemma {:induction false} BlocksAreSymbols(a: Alphabet, bin: string, k: nat)
    requires Known(a) && 3 * k <= |bin|
    ensures AllSymbols(a, Blocks(a, bin, k))
  {
    hide Quad, Triple, Index;
    if k > 0 {
      var n := 3 * k - 3;
      BlocksAreSymbols(a, bin, k - 1);
      QuadIsSymbols(a, Triple(Byte(bin[n]), Byte(bin[n + 1]), Byte(bin[n + 2])));
    }
  }

  lemma TailIsSymbols(a: Alphabet, bin: string)
    requires Known(a) && |bin| < 3
    ensures AllSymbols(a, Tail(a, bin)) && |Tail(a, bin)| == if bin == "" then 0 else |bin| + 1
  {
    hide Quad, Triple, IsSymbol;
    if |bin| == 1 { QuadIsSymbols(a, Triple(Byte(bin[0]), 0, 0)); }
    if |bin| == 2 { QuadIsSymbols(a, Triple(Byte(bin[0]), Byte(bin[1]), 0)); }
  }

  /** The encoding without fill is made of symbols, and its length tells the octets of
      the last block. */
  lemma UnpaddedIsSymbols(a: Alphabet, bin: string)
    requires Known(a)
    ensures AllSymbols(a, Unpadded(a, bin))
    ensures var n := |RestOf(bin)|; |Unpadded(a, bin)| == 4 * Triples(|bin|) + if n == 0 then 0 else n + 1
  {
    hide Tail, IsSymbol, Blocks, RestOf, Triples;
    BlocksAreSymbols(a, bin, Triples(|bin|));
    TailIsSymbols(a, RestOf(bin));
  }

  lemma FillIsNoSymbol(a: Alphabet)
    requires Known(a)
    ensures a.fill != "" && !IsSymbol(a, a.fill[0])
  {
    if a == BASE64 {
      assert a.fill[0] == '=' && a.c62 == '+' && a.c63 == '/';
    } else {
      assert a.fill[0] == '%' && a.c62 == '-' && a.c63 == '_';
    }
  }

  lemma EndStarts(s: string, t: string)
    requires t != "" && EndsWith(s, t)
    ensures s[|s| - |t|] == t[0]
  {
    assert s[|s| - |t|..][0] == t[0];
  }

  /** Symbols do not end with a fill. */
  lemma NoFillAtEnd(a: Alphabet, s: string)
    requires Known(a) && AllSymbols(a, s)
    ensures CountPadding(s, a.fill) == (0, 0)
  {
    hide Index;
    FillIsNoSymbol(a);
    if EndsWith(s, a.fill) { EndStarts(s, a.fill); }
  }

  lemma CountOneMore(base: string, fill: string)
    requires fill != ""
    ensures var r := CountPadding(base, fill); CountPadding(base + fill, fill) == (r.0 + 1, r.1 + |fill|)
  {
    assert (base + fill)[..|base|] == base && (base + fill)[|base|..] == fill;
  }

  lemma {:induction false} FillsCounted(a: Alphabet, s: string, n: nat)
    requires Known(a) && AllSymbols(a, s)
    ensures a.fill != "" && CountPadding(s + Fills(a, n), a.fill) == (n, |Fills(a, n)|)
  {
    hide CountPadding, AllSymbols, Known;
    FillIsNoSymbol(a);
    if n == 0 {
      assert s + "" == s;
      NoFillAtEnd(a, s);
    } else {
      FillsCounted(a, s, n - 1);
      assert s + Fills(a, n) == s + Fills(a, n - 1) + a.fill;
      CountOneMore(s + Fills(a, n - 1), a.fill);
    }
  }

  lemma FirstOfSlice(s: string, i: nat, j: nat)
    requires i < j <= |s|
    ensures s[i..j][0] == s[i]
  {
  }

  lemma {:induction false} FindsFill(a: Alphabet, s: string, rest: string, from: nat)
    requires Known(a) && AllSymbols(a, s) && from <= |s| && (rest == "" || a.fill <= rest)
    ensures FindText(s + rest, a.fill, from) == |s|
    decreases |s| - from
  {
    FillIsNoSymbol(a);
    var all := s + rest;
    if from < |s| {
      if from + |a.fill| <= |all| { FirstOfSlice(all, from, from + |a.fill|); }
      FindsFill(a, s, rest, from + 1);
    } else if rest != "" {
      assert all[from..from + |a.fill|] == rest[..|a.fill|] == a.fill;
    }
  }

  /** A last block of `m` octets after `k` whole ones, filled up. */
  lemma BlockSizes(k: nat, m: nat)
    requires m < 3
    ensures var n := 4 * k + if m == 0 then 0 else m + 1;
      n % 4 == (if m == 0 then 0 else m + 1) && (n + FillCount(m)) % 4 == 0
  {
  }

  lemma QuadsIs(n: nat, k: nat)
    requires 4 * k <= n < 4 * k + 4
    ensures Quads(n) == k
  {
  }

  /** Decoding an encoding gives the bytes back, in both alphabets. */
  lemma DecodeEncode(a: Alphabet, bin: string)
    requires Known(a) && IsBytes(bin)
    ensures a.fill != "" && Decoded(a, Encoded(a, bin)) == Ok(bin)
  {
    hide Tail, Blocks, DecodedBlocks, DecodedTail, CountPadding, Index, AllSymbols, Fills, RestOf, Triples, Quads;
    FillIsNoSymbol(a);
    var k, rest := Triples(|bin|), RestOf(bin);
    var u, n := Unpadded(a, bin), FillCount(|rest|);
    UnpaddedIsSymbols(a, bin);
    FillsCounted(a, u, n);
    BlockSizes(k, |rest|);
    QuadsIs(|u|, k);
    BlocksDecode(a, bin, k, Tail(a, rest) + Fills(a, n));
    TailDecodes(a, rest);
    var all := u + Fills(a, n);
    assert all == Blocks(a, bin, k) + (Tail(a, rest) + Fills(a, n)) && all[4 * k..|u|] == Tail(a, rest);
  }

  /** The fill may be cut off and put back. */
  lemma PadTrim(a: Alphabet, bin: string)
    requires Known(a)
    ensures Trim(Encoded(a, bin), a.fill) == Unpadded(a, bin)
    ensures Pad(Trim(Encoded(a, bin), a.fill), a.fill) == Encoded(a, bin)
  {
    hide Unpadded, Index, RestOf, Triples, FindText, Fills, AllSymbols;
    var u, m := Unpadded(a, bin), |RestOf(bin)|;
    var n := FillCount(m);
    UnpaddedIsSymbols(a, bin);
    BlockSizes(Triples(|bin|), m);
    FewFills(a);
    FillBegins(a, n);
    FindsFill(a, u, Fills(a, n), 0);
    assert Encoded(a, bin)[..|u|] == u;
    assert u + a.fill + a.fill == u + (a.fill + a.fill) && u + "" == u;
  }

  lemma FillBegins(a: Alphabet, n: nat)
    requires n <= 2
    ensures n > 0 ==> a.fill <= Fills(a, n)
    ensures n == 0 ==> Fills(a, n) == ""
  {
    FewFills(a);
  }

  /** So decoding survives the loss of the fill. */
  lemma DecodePadTrim(a: Alphabet, bin: string)
    requires Known(a) && IsBytes(bin)
    ensures a.fill != "" && Decoded(a, Pad(Trim(Encoded(a, bin), a.fill), a.fill)) == Ok(bin)
  {
    PadTrim(a, bin);
    DecodeEncode(a, bin);
  }
}
