/** The groups of 24 bits of section 4 of RFC 4648, as numbers. */
module Base64Standard {
  import opened Wrappers
  import opened Texts
  import opened Base64

  /** The number that digits stand for, the first the highest. */
  function Number(digits: seq<nat>, base: nat): nat {
    if digits == [] then 0 else Number(digits[..|digits| - 1], base) * base + digits[|digits| - 1]
  }

  function Codes(s: string): (r: seq<nat>)
    ensures |r| == |s| && forall i :: 0 <= i < |s| ==> r[i] == s[i] as int
  {
    if s == "" then [] else Codes(s[..|s| - 1]) + [s[|s| - 1] as int]
  }

  /** The symbols stand for the digits of a number in base 64. */
  predicate AreDigits(a: Alphabet, s: string, digits: seq<nat>) {
    |s| == |digits| && forall i :: 0 <= i < |s| ==> digits[i] < 64 && s[i] == Symbol(a, digits[i])
  }

  lemma TwoDigits(x: nat, y: nat, base: nat)
    ensures Number([x], base) == x && Number([x, y], base) == x * base + y
  {
    assert [x][..0] == [] && [x, y][..1] == [x];
  }

  lemma FourDigits(w: nat, x: nat, y: nat, z: nat, base: nat)
    ensures Number([w, x, y], base) == (w * base + x) * base + y
    ensures Number([w, x, y, z], base) == ((w * base + x) * base + y) * base + z
  {
    TwoDigits(w, x, base);
    assert [w, x, y][..2] == [w, x] && [w, x, y, z][..3] == [w, x, y];
  }

  /** Base 64 digits of a number of 24 bits. */
  function Sextets(t: nat): (r: seq<nat>)
    ensures |r| == 4
  {
    [t / 0x40000 % 64, t / 0x1000 % 64, t / 64 % 64, t % 64]
  }

  lemma SextetsShift(t: nat)
    requires t < 0x1000000
    ensures t / 0x40000 % 64 * 64 + t / 0x1000 % 64 == t / 0x1000
    ensures t / 0x1000 * 64 + t / 64 % 64 == t / 64 && t / 64 * 64 + t % 64 == t
  {
    assert t / 0x40000 < 64;
    assert t / 0x1000 / 64 == t / 0x40000;
    assert t / 64 / 64 == t / 0x1000;
  }

  /** The first digits of a number of 24 bits are what is left when it is shifted. */
  lemma SextetsAreNumbers(t: nat)
    requires t < 0x1000000
    ensures Number(Sextets(t)[..2], 64) == t / 0x1000 && Number(Sextets(t)[..3], 64) == t / 64 && Number(Sextets(t), 64) == t
  {
    var s := Sextets(t);
    SextetsShift(t);
    TwoDigits(s[0], s[1], 64);
    FourDigits(s[0], s[1], s[2], s[3], 64);
    assert s[..2] == [s[0], s[1]] && s[..3] == [s[0], s[1], s[2]] && s == [s[0], s[1], s[2], s[3]];
    hide Number;
  }

  lemma SextetsAreDigits(a: Alphabet, t: nat)
    requires t < 0x1000000
    ensures AreDigits(a, Quad(a, t), Sextets(t)) && Number(Sextets(t), 64) == t
  {
    SextetsAreNumbers(t);
    hide Symbol, Number;
  }

  lemma TripleIsNumber(x: char, y: char, z: char)
    requires IsBytes([x, y, z])
    ensures Triple(Byte(x), Byte(y), Byte(z)) == Number(Codes([x, y, z]), 256) < 0x1000000
  {
    assert IsBytes([x, y, z]) ==> [x, y, z][0] as int < 256 && [x, y, z][1] as int < 256 && [x, y, z][2] as int < 256;
    assert Codes([x, y, z]) == [x as int, y as int, z as int];
    FourDigits(x as int, y as int, z as int, 0, 256);
    hide Number;
  }

  /** Three octets are written as the four digits, in base 64, of the number that they
      are in base 256. */
  lemma GroupIsNumber(a: Alphabet, g: string) returns (digits: seq<nat>)
    requires |g| == 3 && IsBytes(g)
    ensures AreDigits(a, Encoded(a, g), digits) && Number(digits, 64) == Number(Codes(g), 256)
  {
    hide Symbol, Number, AreDigits, Quad, IsBytes;
    assert g == [g[0], g[1], g[2]];
    TripleIsNumber(g[0], g[1], g[2]);
    var t := Triple(Byte(g[0]), Byte(g[1]), Byte(g[2]));
    SextetsAreDigits(a, t);
    GroupIsQuad(a, g);
    digits := Sextets(t);
  }

  lemma GroupIsQuad(a: Alphabet, g: string)
    requires |g| == 3
    ensures Encoded(a, g) == Quad(a, Triple(Byte(g[0]), Byte(g[1]), Byte(g[2])))
  {
    hide Quad, Triple, Byte;
    FewFills(a);
    assert Triples(3) == 1;
    assert RestOf(g) == "";
  }

  /** The groups of a text are written one after the other. */
  lemma GroupsFollow(a: Alphabet, g: string, rest: string)
    requires |g| == 3
    ensures Encoded(a, g + rest) == Encoded(a, g) + Encoded(a, rest)
  {
    hide Quad, Triple, Byte, Tail, Fills, FillCount, Symbol;
    var s := g + rest;
    GroupIsQuad(a, g);
    assert Triples(|s|) == Triples(|rest|) + 1;
    assert RestOf(s) == RestOf(rest);
    BlocksFollow(a, g, rest, Triples(|rest|));
    var x, y, z, w := Encoded(a, g), Blocks(a, rest, Triples(|rest|)), Tail(a, RestOf(rest)), Fills(a, FillCount(|RestOf(rest)|));
    Regroup(x, y, z, w);
  }

  lemma Regroup(x: string, y: string, z: string, w: string)
    ensures x + y + z + w == x + (y + z + w)
  {
  }

  lemma {:induction false} BlocksFollow(a: Alphabet, g: string, rest: string, k: nat)
    requires |g| == 3 && 3 * k <= |rest|
    ensures Blocks(a, g + rest, k + 1) == Quad(a, Triple(Byte(g[0]), Byte(g[1]), Byte(g[2]))) + Blocks(a, rest, k)
  {
    hide Quad, Triple, Byte;
    var s := g + rest;
    if k > 0 {
      BlocksFollow(a, g, rest, k - 1);
      var n := 3 * k - 3;
      assert s[n + 3] == rest[n] && s[n + 4] == rest[n + 1] && s[n + 5] == rest[n + 2];
    } else {
      assert Blocks(a, s, 0) == "" && Blocks(a, rest, 0) == "";
    }
  }

  /** A last group of one octet is written with twelve bits and two fills, one of two
      octets with eighteen bits and one fill; the bits that are added are zero. */
  lemma LastGroupIsNumber(a: Alphabet, g: string) returns (digits: seq<nat>)
    requires 0 < |g| < 3 && IsBytes(g)
    ensures |g| == 1 ==> |digits| == 2 && Number(digits, 64) == g[0] as int * 16
    ensures |g| == 2 ==> |digits| == 3 && Number(digits, 64) == Number(Codes(g), 256) * 4
    ensures exists s :: Encoded(a, g) == s + (if |g| == 1 then a.fill + a.fill else a.fill) && AreDigits(a, s, digits)
  {
    hide Number, Symbol, Encoded, Sextets, Quad, Triple, Byte;
    var x, y := Byte(g[0]), if |g| == 1 then 0 else Byte(g[1]);
    LastTriple(g);
    var t := Triple(x, y, 0);
    SextetsAreDigits(a, t);
    LastIsTail(a, g);
    LastDigits(x, y, t);
    digits := Sextets(t)[..|g| + 1];
    assert |g| == 2 ==> Codes(g) == [x, y];
    assert AreDigits(a, Quad(a, t)[..|g| + 1], digits);
  }

  lemma LastTriple(g: string)
    requires 0 < |g| < 3 && IsBytes(g)
    ensures var x, y := Byte(g[0]), if |g| == 1 then 0 else Byte(g[1]);
      && Triple(x, y, 0) == x * 0x10000 + y * 0x100 < 0x1000000
      && x == g[0] as int && (|g| == 2 ==> y == g[1] as int)
  {
    assert g[0] as int < 256 && (|g| == 2 ==> g[1] as int < 256);
  }

  lemma LastIsTail(a: Alphabet, g: string)
    requires 0 < |g| < 3
    ensures Encoded(a, g)
      == Quad(a, Triple(Byte(g[0]), if |g| == 1 then 0 else Byte(g[1]), 0))[..|g| + 1] + (if |g| == 1 then a.fill + a.fill else a.fill)
  {
    hide Quad, Triple, Byte;
    FewFills(a);
    assert Triples(|g|) == 0 && RestOf(g) == g && Blocks(a, g, 0) == "";
  }

  lemma LastDigits(x: nat, y: nat, t: nat)
    requires t == x * 0x10000 + y * 0x100 < 0x1000000
    ensures y == 0 ==> Number(Sextets(t)[..2], 64) == x * 16
    ensures Number(Sextets(t)[..3], 64) == Number([x, y], 256) * 4
  {
    hide Number, Sextets;
    TwoDigits(x, y, 256);
    SextetsAreNumbers(t);
    ZeroBits(x, y, t);
  }

  lemma ZeroBits(x: nat, y: nat, t: nat)
    requires t == x * 0x10000 + y * 0x100
    ensures t / 64 == (x * 256 + y) * 4 && (y == 0 ==> t / 0x1000 == x * 16)
  {
    assert t == (x * 256 + y) * 4 * 64;
  }
}
