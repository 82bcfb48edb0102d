/** URLs written from a rule: values put for its tags, and captured again. */
module RouteUrl {
  import opened Wrappers
  import opened Texts
  import opened RouteTree
  import opened RouteProofs
  import opened RouteRule

  // ----- numbers as they are written ----------------------------------------------------

  function Zeros(k: nat): string { if k == 0 then "" else "0" + Zeros(k - 1) }

  predicate AreDigits(s: string) { forall i :: 0 <= i < |s| ==> IsDigit(s[i]) }

  predicate StartsWithDigit(s: string) { s != "" && IsDigit(s[0]) }

  lemma {:induction false} DecimalDigits(n: nat)
    ensures var t := DecimalText(n); t != "" && AreDigits(t) && DigitsValue(t) == n
  {
    var t := DecimalText(n);
    if n < 10 {
      assert t[..0] == "";
    } else {
      DecimalDigits(n / 10);
      assert t[..|t| - 1] == DecimalText(n / 10);
    }
  }

  lemma {:induction false} ZerosAreDigits(k: nat)
    ensures AreDigits(Zeros(k)) && DigitsValue(Zeros(k)) == 0 && |Zeros(k)| == k
  {
    if k > 0 {
      ZerosAreDigits(k - 1);
      ZerosSnoc(k - 1);
      var z := Zeros(k - 1);
      assert (z + "0")[..|z|] == z;
    }
  }

  lemma DigitsJoin(x: string, y: string)
    requires AreDigits(x) && AreDigits(y)
    ensures AreDigits(x + y)
  {
  }

  lemma {:induction false} ZerosAreNothing(k: nat, t: string)
    requires AreDigits(t)
    ensures AreDigits(Zeros(k) + t) && DigitsValue(Zeros(k) + t) == DigitsValue(t)
    decreases |t|
  {
    hide Zeros;
    ZerosAreDigits(k);
    DigitsJoin(Zeros(k), t);
    if t == "" {
      assert Zeros(k) + "" == Zeros(k);
    } else {
      var front := t[..|t| - 1];
      ZerosAreNothing(k, front);
      assert (Zeros(k) + t)[..|Zeros(k) + t| - 1] == Zeros(k) + front;
    }
  }

  lemma {:induction false} ZerosSnoc(k: nat)
    ensures Zeros(k + 1) == Zeros(k) + "0"
  {
    if k > 0 { ZerosSnoc(k - 1); }
  }

  /** Every run of digits is the decimal text of a number, zeros before it aside. */
  lemma {:induction false} DigitsAreZerosAndNumber(d: string) returns (k: nat, m: nat)
    requires d != "" && AreDigits(d)
    ensures d == Zeros(k) + DecimalText(m)
  {
    var front, last := d[..|d| - 1], d[|d| - 1];
    assert IsDigit(last) && d == front + [last];
    var v: nat := last as int - '0' as int;
    assert [DigitText(v)] == [last];
    if front == "" {
      k, m := 0, v;
      assert d == "" + DecimalText(m);
    } else {
      var k', m' := DigitsAreZerosAndNumber(front);
      if m' == 0 {
        k, m := k' + 1, v;
        ZerosSnoc(k');
        assert DecimalText(0) == "0";
      } else {
        k, m := k', m' * 10 + v;
        assert DecimalText(m) == DecimalText(m') + [last];
      }
    }
  }

  function Sign(minus: bool, plus: bool): string { if minus then "-" else if plus then "+" else "" }

  /** The end of the digits is the end of their text. */
  lemma DigitsEndAt(pre: string, digits: string, rest: string)
    requires AreDigits(digits) && !StartsWithDigit(rest)
    ensures DigitsEnd(pre + digits + rest, |pre|) == |pre| + |digits|
  {
    var s := pre + digits + rest;
    forall j | |pre| <= j < |pre| + |digits| ensures IsDigit(s[j]) { assert s[j] == digits[j - |pre|]; }
    if rest != "" { assert s[|pre| + |digits|] == rest[0]; }
  }

  lemma NumberAt(pre: string, sign: string, k: nat, m: nat, rest: string)
    requires !StartsWithDigit(rest)
    ensures var url, digits := pre + sign + Zeros(k) + DecimalText(m) + rest, Zeros(k) + DecimalText(m);
      && digits != "" && AreDigits(digits) && DigitsValue(digits) == m
      && url == pre + sign + digits + rest
      && DigitsEnd(url, |pre| + |sign|) == |pre| + |sign| + |digits|
      && url[|pre| + |sign|..|pre| + |sign| + |digits|] == digits
  {
    hide DecimalText, Zeros, AreDigits, StartsWithDigit, DigitsValue;
    DecimalDigits(m);
    ZerosAreNothing(k, DecimalText(m));
    var digits := Zeros(k) + DecimalText(m);
    DigitsEndAt(pre + sign, digits, rest);
    Regroup(pre + sign, Zeros(k), DecimalText(m), rest);
    var url := pre + sign + digits + rest;
    assert url[|pre + sign|..|pre + sign| + |digits|] == digits;
  }

  lemma Regroup(a: string, b: string, c: string, d: string)
    ensures a + b + c + d == a + (b + c) + d
  {
  }

  /** The text of a number begins as its scanner asks. */
  lemma NumberStarts(pre: string, sign: string, digits: string, rest: string)
    requires digits != "" && AreDigits(digits) && (sign == "" || sign == "-" || sign == "+")
    ensures var url := pre + sign + digits + rest;
      |pre| < |url| && if sign == "" then IsDigit(url[|pre|]) else url[|pre|] == sign[0]
  {
    var url := pre + sign + digits + rest;
    if sign == "" { assert url[|pre|] == digits[0]; } else { assert url[|pre|] == sign[0]; }
  }

  /** A signed number, with zeros before it or without, is read as that number up to its
      end if it fits 64 bits, and not at all otherwise. */
  lemma IntScans(pre: string, minus: bool, plus: bool, k: nat, m: nat, rest: string)
    requires !StartsWithDigit(rest)
    ensures var sign := Sign(minus, plus); var n := if minus then -(m as int) else m;
      var url := pre + sign + Zeros(k) + DecimalText(m) + rest;
      |pre| < |url| && ScanInt(url, |pre|)
        == if -0x8000_0000_0000_0000 <= n < 0x8000_0000_0000_0000
           then Some((n, |pre| + |sign| + k + |DecimalText(m)|)) else None
  {
    hide DigitsValue, DecimalText, AreDigits, StartsWithDigit, DigitsEnd, Zeros;
    var sign := Sign(minus, plus);
    NumberAt(pre, sign, k, m, rest);
    NumberStarts(pre, sign, Zeros(k) + DecimalText(m), rest);
    ZerosAreDigits(k);
  }

  lemma UintScans(pre: string, plus: bool, k: nat, m: nat, rest: string)
    requires !StartsWithDigit(rest)
    ensures var sign := Sign(false, plus);
      var url := pre + sign + Zeros(k) + DecimalText(m) + rest;
      |pre| < |url| && ScanUint(url, |pre|)
        == if m < 0x1_0000_0000_0000_0000 then Some((m, |pre| + |sign| + k + |DecimalText(m)|)) else None
  {
    hide DigitsValue, DecimalText, AreDigits, StartsWithDigit, DigitsEnd, Zeros;
    var sign := Sign(false, plus);
    NumberAt(pre, sign, k, m, rest);
    NumberStarts(pre, sign, Zeros(k) + DecimalText(m), rest);
    ZerosAreDigits(k);
  }

  /** Without a digit behind the sign nothing is read. */
  lemma NoDigitNoNumber(url: string, pos: nat)
    requires pos < |url|
    ensures var start := if url[pos] == '+' || url[pos] == '-' then pos + 1 else pos;
      start == |url| || !IsDigit(url[start]) ==> ScanInt(url, pos).None?
    ensures var start := if url[pos] == '+' then pos + 1 else pos;
      start == |url| || !IsDigit(url[start]) ==> ScanUint(url, pos).None?
  {
  }

  /** A string is read up to the next slash. */
  lemma StringScans(pre: string, s: string, rest: string)
    requires '/' !in s && (rest == "" || rest[0] == '/')
    ensures SlashOrEnd(pre + s + rest, |pre|) == |pre| + |s| && (pre + s + rest)[|pre|..|pre| + |s|] == s
  {
    var url := pre + s + rest;
    forall j | |pre| <= j < |pre| + |s| ensures url[j] != '/' { assert url[j] == s[j - |pre|]; }
    if rest != "" { assert url[|pre| + |s|] == rest[0]; }
  }

  // ----- rules and their URLs --------------------------------------------------------------

  /** A piece of a rule with what stands for it in a URL. */
  datatype Part =
    | Letter(c: char)
    | IntTag(i: int)
    | UintTag(u: nat)
    | FloatTag(long: bool, text: string, d: Double)
    | StringTag(long: bool, s: string)
    | PathTag(s: string)

  function PartRule(x: Part): string {
    match x
    case Letter(c) => [c]
    case IntTag(_) => "<int>"
    case UintTag(_) => "<uint>"
    case FloatTag(long, _, _) => if long then "<double>" else "<float>"
    case StringTag(long, _) => if long then "<string>" else "<str>"
    case PathTag(_) => "<path>"
  }

  function PartUrl(x: Part): string {
    match x
    case Letter(c) => [c]
    case IntTag(i) => IntText(i)
    case UintTag(u) => DecimalText(u)
    case FloatTag(_, text, _) => text
    case StringTag(_, s) => s
    case PathTag(s) => s
  }

  function RuleOf(parts: seq<Part>): string { if parts == [] then "" else PartRule(parts[0]) + RuleOf(parts[1..]) }

  function UrlOf(parts: seq<Part>): string { if parts == [] then "" else PartUrl(parts[0]) + UrlOf(parts[1..]) }

  /** The scanner of doubles reads this text as this number before that rest. */
  ghost predicate ReadsDouble(strtod: DoubleScanner, text: string, d: Double, rest: string) {
    && text != "" && (IsDigit(text[0]) || text[0] == '+' || text[0] == '-' || text[0] == '.')
    && forall pre: string :: strtod(pre + text + rest, |pre|) == Some((d, |pre| + |text|))
  }

  /** The value can be told from what follows it. */
  ghost predicate Clear(x: Part, rest: seq<Part>, strtod: DoubleScanner) {
    match x
    case Letter(c) => c != '<' && c != '\0'
    case IntTag(i) => -0x8000_0000_0000_0000 <= i < 0x8000_0000_0000_0000 && !StartsWithDigit(UrlOf(rest))
    case UintTag(u) => u < 0x1_0000_0000_0000_0000 && !StartsWithDigit(UrlOf(rest))
    case FloatTag(_, text, d) => ReadsDouble(strtod, text, d, UrlOf(rest))
    case StringTag(_, s) => s != "" && '/' !in s && (UrlOf(rest) == "" || UrlOf(rest)[0] == '/')
    case PathTag(s) => s != "" && rest == []
  }

  ghost predicate AllClear(parts: seq<Part>, strtod: DoubleScanner) {
    parts != [] ==> Clear(parts[0], parts[1..], strtod) && AllClear(parts[1..], strtod)
  }

  // The values of each kind, in the order of the URL.

  function Ints(parts: seq<Part>): seq<int> {
    if parts == [] then [] else (if parts[0].IntTag? then [parts[0].i] else []) + Ints(parts[1..])
  }

  function Uints(parts: seq<Part>): seq<nat> {
    if parts == [] then [] else (if parts[0].UintTag? then [parts[0].u] else []) + Uints(parts[1..])
  }

  function Doubles(parts: seq<Part>): seq<Double> {
    if parts == [] then [] else (if parts[0].FloatTag? then [parts[0].d] else []) + Doubles(parts[1..])
  }

  function Strings(parts: seq<Part>): seq<string> {
    if parts == [] then []
    else
      (match parts[0] case StringTag(_, s) => [s] case PathTag(s) => [s] case _ => []) + Strings(parts[1..])
  }

  function Values(parts: seq<Part>): Params { Params(Ints(parts), Uints(parts), Doubles(parts), Strings(parts)) }

  // ----- the pattern of the rule ---------------------------------------------------------------

  function SegFor(x: Part): Seg {
    match x
    case Letter(c) => Lit(c)
    case IntTag(_) => Par(INT)
    case UintTag(_) => Par(UINT)
    case FloatTag(_, _, _) => Par(DOUBLE)
    case StringTag(_, _) => Par(STRING)
    case PathTag(_) => Par(PATH)
  }

  function SegsFor(parts: seq<Part>): Pattern { if parts == [] then [] else [SegFor(parts[0])] + SegsFor(parts[1..]) }

  /** A tag at a place is no other tag. */
  lemma TagHere(rule: string, i: nat, x: Part)
    requires !x.Letter? && i <= |rule| && KeyAt(rule, i, PartRule(x))
    ensures rule[i] == '<'
    ensures var k := TagFrom(rule, i, 0); k < |PARAM_TRAITS| && Par(PARAM_TRAITS[k].t) == SegFor(x) && PARAM_TRAITS[k].name == PartRule(x)
  {
    assert rule[i] == rule[i..i + |PartRule(x)|][0];
    TagsAreTags(x);
    hide KeyAt, IsTag;
    OneTag(rule, i, PartRule(x), "<int>");
    OneTag(rule, i, PartRule(x), "<uint>");
    OneTag(rule, i, PartRule(x), "<float>");
    OneTag(rule, i, PartRule(x), "<double>");
    OneTag(rule, i, PartRule(x), "<str>");
    OneTag(rule, i, PartRule(x), "<string>");
    OneTag(rule, i, PartRule(x), "<path>");
    FirstTag(rule, i, 0);
  }

  lemma TagsAreTags(x: Part)
    ensures x.Letter? || IsTag(PartRule(x))
    ensures IsTag("<int>") && IsTag("<uint>") && IsTag("<float>") && IsTag("<double>") && IsTag("<str>") && IsTag("<string>")
      && IsTag("<path>")
  {
  }

  /** A tag ends at its first '>'. */
  predicate IsTag(t: string) { t != "" && t[|t| - 1] == '>' && forall j :: 0 <= j < |t| - 1 ==> t[j] != '>' }

  lemma OneTag(rule: string, i: nat, t: string, u: string)
    requires i <= |rule| && KeyAt(rule, i, t) && IsTag(t) && IsTag(u)
    ensures KeyAt(rule, i, u) <==> t == u
  {
    TagEnds(rule, i, t);
    if KeyAt(rule, i, u) { TagEnds(rule, i, u); }
  }

  /** A tag in a rule ends at the first '>' from its start. */
  lemma TagEnds(rule: string, i: nat, t: string)
    requires i <= |rule| && KeyAt(rule, i, t) && IsTag(t)
    ensures i + |t| <= |rule| && rule[i + |t| - 1] == '>' && forall k :: i <= k < i + |t| - 1 ==> rule[k] != '>'
  {
    assert forall k :: i <= k < i + |t| ==> rule[k] == rule[i..i + |t|][k - i] == t[k - i];
  }

  lemma {:induction false} FirstTag(rule: string, i: nat, k: nat)
    requires i <= |rule| && k <= |PARAM_TRAITS|
    ensures forall j :: k <= j < TagFrom(rule, i, k) ==> !KeyAt(rule, i, PARAM_TRAITS[j].name)
    decreases |PARAM_TRAITS| - k
  {
    if k < |PARAM_TRAITS| { FirstTag(rule, i, k + 1); }
  }

  predicate GoodParts(parts: seq<Part>) {
    forall i :: 0 <= i < |parts| ==> parts[i].Letter? ==> parts[i].c != '<' && parts[i].c != '\0'
  }

  lemma PartHere(rule: string, i: nat, x: Part)
    requires i + |PartRule(x)| <= |rule| && rule[i..i + |PartRule(x)|] == PartRule(x)
    requires x.Letter? ==> x.c != '<' && x.c != '\0'
    ensures i < |rule| && NextTok(rule, i, 0, None) == Some((Tok(SegFor(x), None), i + |PartRule(x)|))
  {
    if x.Letter? {
      assert rule[i] == rule[i..i + 1][0];
    } else {
      hide TagFrom;
      TagHere(rule, i, x);
    }
  }

  /** The rule written from parts is good, and its pattern has their segments. */
  lemma {:induction false} PartsAreTokens(pre: string, parts: seq<Part>)
    requires GoodParts(parts)
    ensures var rule := pre + RuleOf(parts);
      GoodRule(rule, |pre|) && Segs(Tokenize(rule, |pre|, 0, None)) == SegsFor(parts)
    decreases |parts|
  {
    hide NextTok, PartRule, SegFor;
    var rule := pre + RuleOf(parts);
    if parts == [] {
      assert rule == pre;
    } else {
      var x, more := parts[0], parts[1..];
      var text := PartRule(x);
      assert rule == pre + text + RuleOf(more) by { assert pre + (text + RuleOf(more)) == pre + text + RuleOf(more); }
      assert rule[|pre|..|pre| + |text|] == text;
      PartHere(rule, |pre|, x);
      PartsAreTokens(pre + text, more);
      SegsCons(Tok(SegFor(x), None), Tokenize(rule, |pre| + |text|, 0, None));
    }
  }

  // ----- the captures -----------------------------------------------------------------------------

  /** What a part captures. */
  function CaptureOf(x: Part): Capture
    requires !x.Letter?
  {
    match x
    case IntTag(i) => IntCapture(i)
    case UintTag(u) => UintCapture(u)
    case FloatTag(_, _, d) => DoubleCapture(d)
    case StringTag(_, s) => StringCapture(s)
    case PathTag(s) => StringCapture(s)
  }

  lemma MinusPart(pre: string, m: nat, rest: string)
    requires 0 < m <= 0x8000_0000_0000_0000 && !StartsWithDigit(rest)
    ensures var text := "-" + DecimalText(m); var url := pre + text + rest;
      |pre| < |url| && url[|pre|] == '-' && ScanInt(url, |pre|) == Some((-(m as int), |pre| + |text|))
  {
    hide ScanInt, DecimalText, StartsWithDigit, Zeros;
    NoZeros();
    Moved(pre, "-", DecimalText(m), rest);
    IntScans(pre, true, false, 0, m, rest);
  }

  lemma PlainPart(pre: string, m: nat, rest: string)
    requires m < 0x8000_0000_0000_0000 && !StartsWithDigit(rest)
    ensures var url := pre + DecimalText(m) + rest;
      |pre| < |url| && IsDigit(url[|pre|]) && ScanInt(url, |pre|) == Some((m, |pre| + |DecimalText(m)|))
  {
    hide ScanInt, DecimalText, StartsWithDigit, Zeros;
    NoZeros();
    DigitFirst(m);
    Moved(pre, "", DecimalText(m), rest);
    IntScans(pre, false, false, 0, m, rest);
    assert (pre + DecimalText(m) + rest)[|pre|] == DecimalText(m)[0];
  }

  lemma NoZeros()
    ensures Zeros(0) == ""
  {
  }

  lemma DigitFirst(m: nat)
    ensures DecimalText(m) != "" && IsDigit(DecimalText(m)[0])
  {
    DecimalDigits(m);
  }

  lemma Moved(pre: string, sign: string, t: string, rest: string)
    ensures pre + sign + "" + t + rest == pre + (sign + t) + rest && "" + t == t
  {
  }

  lemma UintPart(pre: string, u: nat, rest: string)
    requires u < 0x1_0000_0000_0000_0000 && !StartsWithDigit(rest)
    ensures var url := pre + DecimalText(u) + rest;
      |pre| < |url| && IsDigit(url[|pre|]) && ScanUint(url, |pre|) == Some((u, |pre| + |DecimalText(u)|))
  {
    hide ScanUint, DecimalText, StartsWithDigit, Zeros;
    NoZeros();
    DigitFirst(u);
    Moved(pre, "", DecimalText(u), rest);
    UintScans(pre, false, 0, u, rest);
    assert (pre + DecimalText(u) + rest)[|pre|] == DecimalText(u)[0];
  }

  lemma IntTagScans(pre: string, i: int, more: seq<Part>, strtod: DoubleScanner)
    requires Clear(IntTag(i), more, strtod)
    ensures Scans(pre, IntTag(i), more, strtod)
  {
    hide ScanInt, UrlOf, StartsWithDigit, DecimalText;
    if i < 0 { MinusPart(pre, -i, UrlOf(more)); } else { PlainPart(pre, i, UrlOf(more)); }
  }

  lemma UintTagScans(pre: string, u: nat, more: seq<Part>, strtod: DoubleScanner)
    requires Clear(UintTag(u), more, strtod)
    ensures Scans(pre, UintTag(u), more, strtod)
  {
    hide ScanUint, UrlOf, StartsWithDigit, DecimalText;
    UintPart(pre, u, UrlOf(more));
  }

  lemma DoubleAt(strtod: DoubleScanner, pre: string, text: string, d: Double, rest: string)
    requires ReadsDouble(strtod, text, d, rest)
    ensures text != "" && (IsDigit(text[0]) || text[0] == '+' || text[0] == '-' || text[0] == '.')
    ensures strtod(pre + text + rest, |pre|) == Some((d, |pre| + |text|))
  {
  }

  lemma FloatTagScans(pre: string, x: Part, more: seq<Part>, strtod: DoubleScanner)
    requires x.FloatTag? && Clear(x, more, strtod)
    ensures Scans(pre, x, more, strtod)
  {
    hide UrlOf, ReadsDouble;
    DoubleAt(strtod, pre, x.text, x.d, UrlOf(more));
    assert (pre + x.text + UrlOf(more))[|pre|] == x.text[0];
  }

  lemma TextTagScans(pre: string, x: Part, more: seq<Part>, strtod: DoubleScanner)
    requires (x.StringTag? || x.PathTag?) && Clear(x, more, strtod)
    ensures Scans(pre, x, more, strtod)
  {
    hide SlashOrEnd;
    if x.StringTag? {
      StringScans(pre, x.s, UrlOf(more));
    } else {
      assert (pre + x.s + "")[|pre|..] == x.s;
    }
  }

  /** A part is read as its value, up to its end. */
  ghost predicate Scans(pre: string, x: Part, more: seq<Part>, strtod: DoubleScanner)
    requires !x.Letter?
  {
    var url := pre + PartUrl(x) + UrlOf(more);
    |pre| < |url| && Scan(SegFor(x).t, url, |pre|, strtod) == Some((CaptureOf(x), |pre| + |PartUrl(x)|))
  }

  lemma PartScans(pre: string, x: Part, more: seq<Part>, strtod: DoubleScanner)
    requires !x.Letter? && Clear(x, more, strtod) && ValidScanner(strtod)
    ensures Scans(pre, x, more, strtod)
  {
    hide Scans, Clear;
    match x
    case IntTag(i) => IntTagScans(pre, i, more, strtod);
    case UintTag(u) => UintTagScans(pre, u, more, strtod);
    case FloatTag(_, _, _) => FloatTagScans(pre, x, more, strtod);
    case _ => TextTagScans(pre, x, more, strtod);
  }

  function Joined(p: Params, q: Params): Params {
    Params(p.ints + q.ints, p.uints + q.uints, p.doubles + q.doubles, p.strings + q.strings)
  }

  lemma ValuesMore(p: Params, x: Part, more: seq<Part>)
    ensures Joined(p, Values([x] + more)) == Joined(if x.Letter? then p else Push(p, CaptureOf(x)), Values(more))
  {
    assert ([x] + more)[1..] == more;
    var v, w := Values([x] + more), Values(more);
    match x {
      case Letter(_) =>
      case IntTag(i) => assert p.ints + ([i] + w.ints) == p.ints + [i] + w.ints;
      case UintTag(u) => assert p.uints + ([u] + w.uints) == p.uints + [u] + w.uints;
      case FloatTag(_, _, d) => assert p.doubles + ([d] + w.doubles) == p.doubles + [d] + w.doubles;
      case StringTag(_, s) => assert p.strings + ([s] + w.strings) == p.strings + [s] + w.strings;
      case PathTag(s) => assert p.strings + ([s] + w.strings) == p.strings + [s] + w.strings;
    }
  }

  lemma {:induction false} PartsAreCaptured(pre: string, parts: seq<Part>, p: Params, strtod: DoubleScanner)
    requires AllClear(parts, strtod) && ValidScanner(strtod)
    ensures Match(SegsFor(parts), pre + UrlOf(parts), |pre|, p, strtod) == Some(Joined(p, Values(parts)))
    decreases |parts|
  {
    hide Scan, PartUrl, Values, Joined, CaptureOf, Clear;
    if parts == [] {
      NoValues(p);
      assert pre + "" == pre;
    } else {
      var x, more := parts[0], parts[1..];
      var text, url := PartUrl(x), pre + UrlOf(parts);
      assert url == pre + text + UrlOf(more) by { assert pre + (text + UrlOf(more)) == pre + text + UrlOf(more); }
      assert parts == [x] + more;
      ValuesMore(p, x, more);
      SegsMore(x, more);
      if x.Letter? {
        assert text == [x.c] by { LetterText(x); }
        assert url[|pre|] == x.c;
        PartsAreCaptured(pre + text, more, p, strtod);
      } else {
        PartScans(pre, x, more, strtod);
        ScanAdvances(SegFor(x).t, url, |pre|, strtod);
        PartsAreCaptured(pre + text, more, Push(p, CaptureOf(x)), strtod);
      }
    }
  }

  lemma LetterText(x: Part)
    requires x.Letter?
    ensures PartUrl(x) == [x.c]
  {
  }

  lemma SegsMore(x: Part, more: seq<Part>)
    ensures SegsFor([x] + more) == [SegFor(x)] + SegsFor(more)
  {
    assert ([x] + more)[1..] == more;
  }

  lemma NoValues(p: Params)
    ensures Joined(p, Values([])) == p
  {
  }

  lemma {:induction false} ClearIsGood(parts: seq<Part>, strtod: DoubleScanner)
    requires AllClear(parts, strtod)
    ensures GoodParts(parts)
    decreases |parts|
  {
    if parts != [] {
      ClearIsGood(parts[1..], strtod);
      forall i | 0 <= i < |parts| && parts[i].Letter? ensures parts[i].c != '<' && parts[i].c != '\0' {
        if i > 0 { assert parts[1..][i - 1] == parts[i]; }
      }
    }
  }

  /** A rule of letters and tags, and the URL written from it with values put for the
      tags: the rule matches the URL and captures exactly these values, each kind in the
      order of the URL. */
  lemma UrlOfRule(parts: seq<Part>, strtod: DoubleScanner)
    requires AllClear(parts, strtod) && ValidScanner(strtod)
    ensures GoodRule(RuleOf(parts), 0)
    ensures Match(PatternOf(RuleOf(parts)), UrlOf(parts), 0, NoParams, strtod) == Some(Values(parts))
  {
    hide RuleOf, UrlOf, Values, Match, GoodRule, Tokenize;
    ClearIsGood(parts, strtod);
    PartsAreTokens("", parts);
    PartsAreCaptured("", parts, NoParams, strtod);
    assert "" + RuleOf(parts) == RuleOf(parts) && "" + UrlOf(parts) == UrlOf(parts);
    var v := Values(parts);
    assert Joined(NoParams, v) == v;
  }

  /** So the search answers such a URL with the rule or with one of a smaller index; with
      the rule's own index it returns these values, when no other entry has the index. */
  lemma UrlFindsItsRule(es: seq<Entry>, i: nat, parts: seq<Part>, strtod: DoubleScanner)
    requires GoodEntries(es) && AddAll(es).Some? && ValidScanner(strtod) && AllClear(parts, strtod)
    requires i < |es| && es[i].rule != 0 && GoodRule(RuleOf(parts), 0) && Segs(es[i].toks) == PatternOf(RuleOf(parts))
    requires forall j :: 0 <= j < |es| && es[j].rule == es[i].rule ==> j == i
    ensures var r := FindNode(UrlOf(parts), AddAll(es).value, 0, NoParams, strtod);
      0 < r.rule <= es[i].rule && (r.rule == es[i].rule ==> r.params == Values(parts))
  {
    hide Values, PatternOf, FindNode, LowestRule;
    UrlOfRule(parts, strtod);
    FindAgreesWithList(es, UrlOf(parts), strtod);
    LowestRuleIsLeast(es, UrlOf(parts), strtod);
    assert Matches(es[i], UrlOf(parts), strtod);
  }
}
