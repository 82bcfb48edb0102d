/** Every well-formed chunked body is read as its data: the converse of
    `HttpBody.ChunkedBody`. */
module HttpChunks {
  import opened Wrappers
  import opened HttpBytes
  import opened HttpGrammar
  import opened HttpStep
  import opened HttpRun
  import opened HttpCut
  import opened HttpMarks
  import opened HttpRefine
  import opened HttpBody

  /** Two texts in turn are their concatenation, unless they meet as 'h' and '2'. */
  lemma RunThen(s: Sys, a: string, b: string)
    requires a == "" || b == "" || a[|a| - 1] != 'h' || b[0] != '2'
    ensures RunAll(s, a + b) == RunAll(RunAll(s, a), b)
  {
    hide Step;
    if a == "" {
      assert a + b == b;
    } else if b == "" {
      assert a + b == a;
    } else {
      OneCut(s, a, b);
    }
  }

  lemma {:induction false} HexGrows(s: string, k: nat)
    requires AllHex(s) && k <= |s|
    ensures Hex(s[..k]) <= Hex(s)
  {
    if k < |s| {
      assert s[..|s| - 1][..k] == s[..k];
      HexGrows(s[..|s| - 1], k);
    } else {
      assert s[..k] == s;
    }
  }

  lemma SizeStep(s: Sys, ch: char, next: Option<char>)
    requires !Stopped(s) && s.core.state.ChunkSize? && s.core.nread < MAX_HEADER_SIZE
    requires Unhex(ch) != -1 && s.core.contentLength <= HEX_LIMIT
    ensures Step(s, ch, next)
      == Sys(s.core.(nread := s.core.nread + 1, contentLength := s.core.contentLength * 16 + Unhex(ch)), s.app)
  {
    hide Step, Unhex;
    ChunkStep(s, ch, next);
    assert Unhex(CR) == -1 by { NoHex(); }
  }

  lemma NoHex()
    ensures Unhex(CR) == -1 && Unhex(';') == -1 && Unhex(' ') == -1
  {
  }

  /** The digits of a size. */
  lemma {:induction false} SizeRun(s: Sys, size: string, n: nat)
    requires !Stopped(s) && s.core.state.ChunkSizeStart? && s.core.nread == 0
    requires GoodSize(size) && 0 < n <= |size| < MAX_HEADER_SIZE
    ensures Run(s, size, n) == Sys(s.core.(state := ChunkSize, nread := n, contentLength := Hex(size[..n])), s.app)
  {
    hide Step;
    var ch, next := size[n - 1], Next(size, n - 1);
    assert size[..n][..n - 1] == size[..n - 1];
    if n == 1 {
      ChunkStep(s, ch, next);
      assert Run(s, size, 1) == Step(Run(s, size, 0), ch, next);
    } else {
      SizeRun(s, size, n - 1);
      assert size[..|size| - 1][..n - 1] == size[..n - 1];
      HexGrows(size[..|size| - 1], n - 1);
      SizeStep(Run(s, size, n - 1), ch, next);
    }
  }

  lemma {:induction false} ExtRun(s: Sys, ext: string, n: nat)
    requires !Stopped(s) && s.core.state.ChunkSize? && s.core.nread + |ext| <= MAX_HEADER_SIZE
    requires GoodExt(ext) && 0 < n <= |ext|
    ensures Run(s, ext, n) == Sys(s.core.(state := ChunkParameters, nread := s.core.nread + n), s.app)
  {
    hide Step;
    NoHex();
    var s1, ch, next := Run(s, ext, n - 1), ext[n - 1], Next(ext, n - 1);
    if n > 1 { ExtRun(s, ext, n - 1); }
    ChunkStep(s1, ch, next);
  }

  lemma LineCr(s: Sys, next: Option<char>)
    requires !Stopped(s) && (s.core.state.ChunkSize? || s.core.state.ChunkParameters?) && s.core.nread < MAX_HEADER_SIZE
    ensures Step(s, CR, next) == Sys(s.core.(nread := s.core.nread + 1, state := ChunkSizeAlmostDone), s.app)
  {
    hide Step, Unhex;
    ChunkStep(s, CR, next);
  }

  lemma LineLf(s: Sys, next: Option<char>)
    requires !Stopped(s) && s.core.state.ChunkSizeAlmostDone? && s.core.nread < MAX_HEADER_SIZE
    ensures Step(s, LF, next) == Sys(AfterLine(s.core), s.app)
  {
    hide Step;
    ChunkStep(s, LF, next);
  }

  /** The end of a size line. */
  lemma CrLfRun(s: Sys)
    requires !Stopped(s) && (s.core.state.ChunkSize? || s.core.state.ChunkParameters?)
    requires s.core.nread + 2 <= MAX_HEADER_SIZE
    ensures RunAll(s, "\r\n") == Sys(AfterLine(s.core), s.app)
  {
    hide Step;
    LineCr(s, Some(LF));
    assert Run(s, "\r\n", 1) == Step(Run(s, "\r\n", 0), CR, Some(LF));
    LineLf(Run(s, "\r\n", 1), None);
    assert RunAll(s, "\r\n") == Step(Run(s, "\r\n", 1), LF, None);
  }

  function AfterLine(c: Core): Core {
    var c1 := c.(nread := 0);
    if c.contentLength == 0 then c1.(state := HeaderFieldStart, flags := c1.flags.(trailing := true))
    else c1.(state := ChunkData)
  }

  /** A whole size line. */
  lemma LineRun(s: Sys, c: Chunk)
    requires !Stopped(s) && s.core.state.ChunkSizeStart? && s.core.nread == 0 && GoodLine(c)
    ensures RunAll(s, LineText(c)) == Sys(AfterLine(s.core.(contentLength := Hex(c.size))), s.app)
  {
    hide Step;
    SizeRun(s, c.size, |c.size|);
    assert c.size[..|c.size|] == c.size;
    RunThen(s, c.size, c.ext);
    var s1 := RunAll(s, c.size);
    if c.ext != "" { ExtRun(s1, c.ext, |c.ext|); }
    var line := c.size + c.ext;
    RunThen(s, line, "\r\n");
    CrLfRun(RunAll(s, line));
  }

  function AfterChunks(s: Sys, cs: seq<Chunk>): Sys {
    if cs == [] then s else Sys(s.core.(contentLength := 0), s.app.(body := s.app.body + DataOf(cs)))
  }

  lemma ChunkRun(s: Sys, c: Chunk)
    requires !Stopped(s) && s.core.state.ChunkSizeStart? && s.core.nread == 0 && GoodChunk(c)
    ensures RunAll(s, ChunkText(c)) == Sys(s.core.(contentLength := 0), s.app.(body := s.app.body + c.data))
  {
    hide Step, LineText;
    var line := LineText(c);
    LineRun(s, c);
    var s1 := RunAll(s, line);
    LineEnds(c);
    RunThen(s, line, c.data);
    DataRun(s1, c.data, 0, s1.core, s1.app, |c.data|);
    assert c.data[0..|c.data|] == c.data;
    RunThen(s, line + c.data, "\r\n");
    DataEndRun(RunAll(s1, c.data));
  }

  lemma LineEnds(c: Chunk)
    ensures LineText(c) != "" && LineText(c)[|LineText(c)| - 1] == LF
  {
  }

  lemma DataEndRun(s: Sys)
    requires !Stopped(s) && s.core.state.ChunkDataAlmostDone?
    ensures RunAll(s, "\r\n") == Sys(s.core.(nread := 0, state := ChunkSizeStart), s.app)
  {
    hide Step;
    ChunkStep(s, CR, Some(LF));
    assert Run(s, "\r\n", 1) == Step(Run(s, "\r\n", 0), CR, Some(LF));
    ChunkStep(Run(s, "\r\n", 1), LF, None);
    assert RunAll(s, "\r\n") == Step(Run(s, "\r\n", 1), LF, None);
  }

  lemma ChunksEnd(cs: seq<Chunk>)
    requires cs != []
    ensures ChunksText(cs) != "" && ChunksText(cs)[|ChunksText(cs)| - 1] == LF
  {
  }

  lemma NoRun(s: Sys)
    ensures RunAll(s, "") == s
  {
  }

  lemma AfterMore(s: Sys, cs: seq<Chunk>)
    requires cs != []
    ensures var s1, c := AfterChunks(s, cs[..|cs| - 1]), cs[|cs| - 1];
      Sys(s1.core.(contentLength := 0), s1.app.(body := s1.app.body + c.data)) == AfterChunks(s, cs)
  {
    var front, c := cs[..|cs| - 1], cs[|cs| - 1];
    assert s.app.body + DataOf(front) + c.data == s.app.body + DataOf(cs);
    if front == [] { assert s.app.body + DataOf(front) == s.app.body; }
  }

  lemma {:induction false} ChunksRun(s: Sys, cs: seq<Chunk>)
    requires !Stopped(s) && s.core.state.ChunkSizeStart? && s.core.nread == 0 && GoodChunks(cs)
    ensures RunAll(s, ChunksText(cs)) == AfterChunks(s, cs)
  {
    hide Step, GoodChunk, ChunkText, Run, DataOf;
    NoRun(s);
    if cs != [] {
      var front, c := cs[..|cs| - 1], cs[|cs| - 1];
      ChunksRun(s, front);
      if front != [] { ChunksEnd(front); }
      RunThen(s, ChunksText(front), ChunkText(c));
      ChunkRun(AfterChunks(s, front), c);
      AfterMore(s, cs);
    }
  }

  lemma TrailerCr(s: Sys, next: Option<char>)
    requires !Stopped(s) && s.core.state.HeaderFieldStart? && s.core.nread < MAX_HEADER_SIZE
    ensures Step(s, CR, next) == Sys(s.core.(state := HeadersAlmostDone, nread := s.core.nread + 1), s.app)
  {
    hide Apply, Pending;
    ApplyNothing(NoMarks, s.app, [CR], 0);
    NothingPending(s.app, [CR], 1);
    assert Trans(Counted(s.core), CR, next) == HeaderFieldStartByte(Counted(s.core), CR);
  }

  lemma TrailerLf(s: Sys, next: Option<char>)
    requires !Stopped(s) && s.core.state.HeadersAlmostDone? && s.core.flags.trailing && s.core.nread < MAX_HEADER_SIZE
    ensures Step(s, LF, next) == Sys(s.core.(nread := s.core.nread + 1), s.app.(complete := true))
  {
    hide Apply, Pending;
    ApplyOne(OnMessageComplete, NoMarks, s.app, [LF], 0);
    NothingPending(s.app.(complete := true), [LF], 1);
    assert Trans(Counted(s.core), LF, next) == HeadersAlmostDoneByte(Counted(s.core), LF);
  }

  lemma TrailerEndRun(s: Sys)
    requires !Stopped(s) && s.core.state.HeaderFieldStart? && s.core.flags.trailing && s.core.nread + 2 <= MAX_HEADER_SIZE
    ensures RunAll(s, "\r\n") == Sys(s.core.(state := HeadersAlmostDone, nread := s.core.nread + 2), s.app.(complete := true))
  {
    hide Step;
    TrailerCr(s, Some(LF));
    assert Run(s, "\r\n", 1) == Step(Run(s, "\r\n", 0), CR, Some(LF));
    TrailerLf(Run(s, "\r\n", 1), None);
    assert RunAll(s, "\r\n") == Step(Run(s, "\r\n", 1), LF, None);
  }

  /** A chunked body without trailer fields is accepted, and completes the message with
      the data of its chunks. */
  lemma ChunkedBodyIsRead(s: Sys, cs: seq<Chunk>, last: Chunk)
    requires !Stopped(s) && s.core.state.ChunkSizeStart? && s.core.nread == 0 && GoodChunks(cs) && IsLast(last)
    ensures var s' := RunAll(s, ChunksText(cs) + LineText(last) + "\r\n");
      s'.core.errno == OK && s'.app == s.app.(body := s.app.body + DataOf(cs), complete := true)
  {
    hide Step, GoodChunks, LineText;
    ChunksRun(s, cs);
    if cs != [] { ChunksEnd(cs); }
    RunThen(s, ChunksText(cs), LineText(last));
    var s1 := AfterChunks(s, cs);
    LineRun(s1, last);
    RunThen(s, ChunksText(cs) + LineText(last), "\r\n");
    TrailerEndRun(RunAll(s1, LineText(last)));
    assert cs == [] ==> s.app.body + DataOf(cs) == s.app.body;
  }

  // ----- sizes as they are written ---------------------------------------------------------------

  /** A digit by the code of its character, in lower case or upper case. */
  function HexDigit(d: nat, upper: bool): char
    requires d < 16
  {
    (if d < 10 then 48 + d else if upper then 55 + d else 87 + d) as char
  }

  function HexText(n: nat, upper: bool): string {
    if n < 16 then [HexDigit(n, upper)] else HexText(n / 16, upper) + [HexDigit(n % 16, upper)]
  }

  /** The hexadecimal text of a number, in either case, is read as the number. */
  lemma {:induction false} HexReads(n: nat, upper: bool)
    ensures HexText(n, upper) != "" && AllHex(HexText(n, upper)) && Hex(HexText(n, upper)) == n
  {
    var t := HexText(n, upper);
    UnhexIsHexadecimal(n % 16, '0');
    if n < 16 {
      assert t[..0] == "";
    } else {
      HexReads(n / 16, upper);
      assert t[..|t| - 1] == HexText(n / 16, upper);
    }
  }

  lemma {:induction false} HexTextIsShort(n: nat, k: nat, upper: bool)
    requires k > 0 && n < Power16(k)
    ensures |HexText(n, upper)| <= k
    decreases k
  {
    if n >= 16 { HexTextIsShort(n / 16, k - 1, upper); }
  }

  function Power16(k: nat): nat { if k == 0 then 1 else 16 * Power16(k - 1) }

  /** Data with its size before it is a chunk that the parser takes. */
  lemma SizedChunk(data: string, upper: bool)
    requires 0 < |data| < 0xFFFF_FFFF_FFFF_FFF0
    ensures GoodChunk(Chunk(HexText(|data|, upper), "", data))
  {
    var t := HexText(|data|, upper);
    HexReads(|data|, upper);
    assert Power16(16) == 0x1_0000_0000_0000_0000 by {
      assert Power16(4) == 0x1_0000 && Power16(8) == 0x1_0000_0000 && Power16(12) == 0x1_0000_0000_0000;
    }
    HexTextIsShort(|data|, 16, upper);
    assert Hex(t) == Hex(t[..|t| - 1]) * 16 + Unhex(t[|t| - 1]);
  }
}
