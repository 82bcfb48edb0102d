/** What the digits of a Content-Length add up to (section 3.3.2 of RFC 7230). */
module HttpLength {
  import opened Wrappers
  import opened HttpBytes
  import opened HttpStep
  import opened HttpRun
  import opened HttpCut
  import opened HttpMarks
  import opened HttpRefine
  import opened HttpInv
  import opened Texts

  predicate AllDigits(s: string) { forall i :: 0 <= i < |s| ==> IsNum(s[i]) }

  /** `n` followed by the decimal digits `s`. */
  function Decimal(n: nat, s: string): nat
    requires AllDigits(s)
  {
    if s == "" then n else assert IsNum(s[|s| - 1]); Decimal(n, s[..|s| - 1]) * 10 + (s[|s| - 1] as int - '0' as int)
  }

  const DECIMAL_LIMIT: nat := (ULLONG_MAX - 10) / 10

  /** What a run over digits in a Content-Length value does to the parser. */
  function AfterDigits(c: Core, s: string): Core
    requires AllDigits(s)
  {
    c.(nread := c.nread + |s|, contentLength := Decimal(c.contentLength, s))
  }

  lemma {:induction false} DecimalGrows(n: nat, s: string, k: nat)
    requires AllDigits(s) && k <= |s|
    ensures Decimal(n, s[..k]) <= Decimal(n, s)
  {
    if k < |s| {
      assert s[..|s| - 1][..k] == s[..k];
      DecimalGrows(n, s[..|s| - 1], k);
    } else {
      assert s[..k] == s;
    }
  }

  lemma DigitByte(s: Sys, ch: char, next: Option<char>)
    requires !Stopped(s) && s.core.state.HeaderValue? && s.core.headerState.ContentLengthNum? && IsNum(ch)
    requires s.core.nread < MAX_HEADER_SIZE
    ensures var s', c := Step(s, ch, next), s.core;
      if c.contentLength <= DECIMAL_LIMIT
      then s'.core == AfterDigits(c, [ch]) && !Stopped(s') else s'.core.errno == InvalidContentLength
  {
    hide Trans, Pending;
    var c1 := Counted(s.core);
    TransValue(c1, ch, next);
    assert IsHeaderChar(ch);
    if s.core.contentLength <= DECIMAL_LIMIT { DigitAccumulates(c1, ch); }
    PendingComplete(Only(Value, 0), s.app, [ch], 1);
    assert [ch][..0] == "" && Decimal(s.core.contentLength, "") == s.core.contentLength;
  }

  /** Digits of any number are read as the decimal number that they are: no wrap, and
      never the value that stands for no length. They are refused exactly when the
      number without its last digit exceeds the limit. */
  lemma {:induction false} DigitsAreTheirValue(s: Sys, data: string, n: nat)
    requires !Stopped(s) && s.core.state.HeaderValue? && s.core.headerState.ContentLengthNum?
    requires 0 < n <= |data| && AllDigits(data[..n]) && s.core.nread + n <= MAX_HEADER_SIZE
    requires s.core.contentLength < ULLONG_MAX
    ensures var s' := Run(s, data, n);
      if Decimal(s.core.contentLength, data[..n - 1]) <= DECIMAL_LIMIT
      then s'.core == AfterDigits(s.core, data[..n]) && !Stopped(s') && s'.core.contentLength < ULLONG_MAX
      else s'.core.errno == InvalidContentLength
  {
    hide Step;
    var s1, ch, next := Run(s, data, n - 1), data[n - 1], Next(data, n - 1);
    var l := s.core.contentLength;
    assert data[..n][n - 1] == ch && data[..n][..n - 1] == data[..n - 1];
    if n == 1 {
      DigitByte(s, ch, next);
      assert data[..1] == [ch];
    } else {
      assert data[..n - 1][..n - 2] == data[..n - 2];
      assert AllDigits(data[..n - 1]) && AllDigits(data[..n - 2]);
      DigitsAreTheirValue(s, data, n - 1);
      DecimalGrows(l, data[..n - 1], n - 2);
      if Decimal(l, data[..n - 2]) <= DECIMAL_LIMIT {
        DigitByte(s1, ch, next);
        assert [ch][..0] == "";
        assert Decimal(s1.core.contentLength, [ch]) == s1.core.contentLength * 10 + (ch as int - '0' as int);
      } else {
        StepStopped(s1, ch, next);
      }
    }
  }

  lemma {:induction false} DecimalFront(d: char, s: string)
    requires IsNum(d) && AllDigits(s) && AllDigits([d] + s)
    ensures Decimal(0, [d] + s) == Decimal(d as int - '0' as int, s)
  {
    if s == "" {
      assert [d] + s == [d] && [d][..0] == "";
    } else {
      var front := s[..|s| - 1];
      assert ([d] + s)[..|s|] == [d] + front;
      DecimalFront(d, front);
    }
  }

  /** The whole value of a first Content-Length header, from its first byte. */
  lemma ContentLengthIsItsValue(s: Sys, data: string, n: nat)
    requires !Stopped(s) && s.core.state.HeaderValueDiscardWs? && s.core.headerState.ContentLength?
    requires !s.core.flags.contentLength && s.core.nread + n <= MAX_HEADER_SIZE
    requires 0 < n <= |data| && AllDigits(data[..n])
    ensures var s' := Run(s, data, n);
      if Decimal(0, data[..n - 1]) <= DECIMAL_LIMIT
      then !Stopped(s') && s'.core.flags.contentLength && s'.core.contentLength == Decimal(0, data[..n]) < ULLONG_MAX
      else s'.core.errno == InvalidContentLength
  {
    hide Step;
    var d, rest := data[0], data[1..];
    assert data[..n][0] == d;
    LengthStart(s, d, Next(data, 0));
    assert data == [d] + rest;
    if n == 1 {
      assert data[..1] == [d] && [d][..0] == "";
    } else {
      var s1 := RunAll(s, [d]);
      assert s1 == Run(s, [d], 1) == Step(Run(s, [d], 0), d, None);
      LengthStart(s, d, None);
      RunFromFirst(s, data, n);
      assert data[..n] == [d] + rest[..n - 1] && data[..n - 1] == [d] + rest[..n - 2];
      assert rest[..n - 1] == data[..n][1..];
      DigitsAreTheirValue(s1, rest, n - 1);
      DecimalFront(d, rest[..n - 1]);
      DecimalFront(d, rest[..n - 2]);
    }
  }

  lemma LengthStart(s: Sys, d: char, next: Option<char>)
    requires !Stopped(s) && s.core.state.HeaderValueDiscardWs? && s.core.headerState.ContentLength?
    requires !s.core.flags.contentLength && s.core.nread < MAX_HEADER_SIZE && IsNum(d)
    ensures var s' := Step(s, d, next);
      && s'.core == s.core.(state := HeaderValue, index := 0, headerState := ContentLengthNum, nread := s.core.nread + 1,
                            flags := s.core.flags.(contentLength := true), contentLength := d as int - '0' as int)
      && !Stopped(s')
  {
    hide Pending;
    var c := Counted(s.core);
    assert Trans(c, d, next) == ValueStartByte(c, d, next);
    ApplyOne(Mark(Value), NoMarks, s.app, [d], 0);
    PendingComplete(Only(Value, 0), s.app, [d], 1);
  }

  /** A first byte that is no letter of an upgrade value may be read on its own. */
  lemma RunFromFirst(s: Sys, data: string, n: nat)
    requires 0 < n <= |data| && data[0] != 'h'
    ensures Run(s, data, n) == Run(RunAll(s, [data[0]]), data[1..], n - 1)
  {
    hide Step;
    var d, rest := [data[0]], data[1..];
    assert data == d + rest;
    StepIgnoresNext(s, data[0], Next(data, 0));
    assert Run(s, data, 1) == Step(Run(s, data, 0), data[0], Next(data, 0));
    assert RunAll(s, d) == Step(Run(s, d, 0), data[0], None);
    RunOfBack(s, d, rest, n - 1);
  }

  // ----- lengths as they are written ---------------------------------------------------------

  /** The decimal text of a number is read as the number. */
  lemma {:induction false} DecimalReads(n: nat)
    ensures DecimalText(n) != "" && AllDigits(DecimalText(n)) && Decimal(0, DecimalText(n)) == n
  {
    var t := DecimalText(n);
    if n < 10 {
      assert t[..0] == "";
    } else {
      DecimalReads(n / 10);
      assert t[..|t| - 1] == DecimalText(n / 10);
    }
  }

  /** And it is within the parser's limit for every length below 2^64 - 16. */
  lemma LengthsFit(n: nat)
    requires n < 0xFFFF_FFFF_FFFF_FFF0
    ensures var t := DecimalText(n); t != "" && AllDigits(t) && Decimal(0, t[..|t| - 1]) <= DECIMAL_LIMIT
  {
    DecimalReads(n);
    var t := DecimalText(n);
    assert Decimal(0, t) == Decimal(0, t[..|t| - 1]) * 10 + (t[|t| - 1] as int - '0' as int);
  }
}
