/** The body delivered is exactly the data announced: a counted body (section 3.3.3 of
    RFC 7230) and the chunked coding (section 4.1 of RFC 7230). */
module HttpBody {
  import opened Wrappers
  import opened HttpBytes
  import opened HttpStep
  import opened HttpRun
  import opened HttpCut
  import opened HttpMarks
  import opened HttpRefine
  import opened HttpInv

  function Least(a: nat, b: nat): nat { if a < b then a else b }

  /** A body of a declared length: the message is complete exactly when that many bytes
      were read, and these are what was delivered; bytes after them are not read. */
  lemma CountedBody(s: Sys, data: string)
    requires !Stopped(s) && s.core.state.BodyIdentity? && CoreInv(s.core)
    ensures var s', l := RunAll(s, data), s.core.contentLength;
      && s'.core.errno == OK
      && (s'.app.complete <==> |data| >= l)
      && s'.app.body == s.app.body + data[..Least(|data|, l)]
      && s'.core.contentLength == l - Least(|data|, l)
  {
    hide Step, CoreInv;
    assert s.core.contentLength > 0 by { DataToCome(s.core); }
    var n := Least(|data|, s.core.contentLength);
    DataRun(s, data, 0, s.core, s.app, n);
    assert data[0..n] == data[..n];
    if n < |data| { RunStaysStopped(s, data, n, |data|); }
  }

  lemma DataToCome(c: Core)
    requires CoreInv(c) && c.state.BodyIdentity?
    ensures c.contentLength > 0
  {
    assert PhaseOf(c.state) == InIdentity;
  }

  // ----- the chunked coding -----------------------------------------------------------

  /** A chunk: the hexadecimal size, the extensions after it, and the data. */
  datatype Chunk = Chunk(size: string, ext: string, data: string)

  const NoChunk := Chunk("", "", "")

  predicate AllHex(s: string) { forall i :: 0 <= i < |s| ==> Unhex(s[i]) != -1 }

  function Hex(s: string): nat
    requires AllHex(s)
  {
    if s == "" then 0 else assert Unhex(s[|s| - 1]) != -1; Hex(s[..|s| - 1]) * 16 + Unhex(s[|s| - 1])
  }

  const HEX_LIMIT: nat := (ULLONG_MAX - 16) / 16

  /** A size the parser takes: it may be long, but the number without its last digit
      is within the limit. */
  predicate GoodSize(s: string) { s != "" && AllHex(s) && (|s| > 1 ==> Hex(s[..|s| - 1]) <= HEX_LIMIT) }

  predicate GoodExt(s: string) { s == "" || ((s[0] == ';' || s[0] == ' ') && CR !in s) }

  /** The line before the data, which counts as a header. */
  predicate GoodLine(c: Chunk) { GoodSize(c.size) && GoodExt(c.ext) && |c.size| + |c.ext| + 2 <= MAX_HEADER_SIZE }

  predicate GoodChunk(c: Chunk) { GoodLine(c) && Hex(c.size) == |c.data| > 0 }

  predicate GoodChunks(cs: seq<Chunk>) { forall i :: 0 <= i < |cs| ==> GoodChunk(cs[i]) }

  /** The line of size zero that ends the chunks. */
  predicate IsLast(c: Chunk) { GoodLine(c) && Hex(c.size) == 0 && c.data == "" }

  function LineText(c: Chunk): string { c.size + c.ext + "\r\n" }

  function ChunkText(c: Chunk): string { LineText(c) + c.data + "\r\n" }

  function ChunksText(cs: seq<Chunk>): string {
    if cs == [] then "" else ChunksText(cs[..|cs| - 1]) + ChunkText(cs[|cs| - 1])
  }

  function DataOf(cs: seq<Chunk>): string {
    if cs == [] then "" else DataOf(cs[..|cs| - 1]) + cs[|cs| - 1].data
  }

  lemma CountedState(c: Core)
    ensures Counted(c).state == c.state
  {
  }

  lemma TransChunk(c: Core, ch: char, next: Option<char>)
    requires IsChunkState(c.state)
    ensures Trans(c, ch, next) == ChunkByte(c, ch)
  {
  }

  lemma ChunkStep(s: Sys, ch: char, next: Option<char>)
    requires !Stopped(s) && IsChunkState(s.core.state)
    ensures IsChunkState(Counted(s.core).state)
    ensures Counted(s.core).errno == OK && ChunkByte(Counted(s.core), ch).core.errno == OK ==>
      Step(s, ch, next) == Sys(ChunkByte(Counted(s.core), ch).core, s.app)
    ensures Counted(s.core).errno != OK || ChunkByte(Counted(s.core), ch).core.errno != OK ==>
      Step(s, ch, next).core.errno != OK
  {
    hide Pending, ChunkByte, Counted, Trans, Apply;
    CountedState(s.core);
    TransChunk(Counted(s.core), ch, next);
    ChunkActs(Counted(s.core), ch);
    NothingPending(s.app, [ch], 1);
    ApplyOne(Emit(Body), NoMarks, s.app, [ch], 0);
    assert Apply([], NoMarks, s.app, [ch], 0) == (NoMarks, s.app) by { ApplyNothing(NoMarks, s.app, [ch], 0); }
  }

  lemma ApplyNothing(m: Marks, a: App, data: string, p: nat)
    ensures Apply([], m, a, data, p) == (m, a)
  {
  }

  lemma ChunkActs(c: Core, ch: char)
    requires IsChunkState(c.state)
    ensures ChunkByte(c, ch).acts == [] || ChunkByte(c, ch).acts == [Emit(Body)]
  {
  }

  // ----- every accepted text is chunks --------------------------------------------------

  /** What the bytes read since the start of the coding are: whole chunks, the one under
      way, and what followed the line of the last one, whose size is zero. */
  datatype Parts = Parts(done: seq<Chunk>, cur: Chunk, rest: string)

  function Advance(p: Parts, s: State, ch: char): Parts {
    var c := p.cur;
    match s
    case ChunkSizeStart => p.(cur := c.(size := c.size + [ch]))
    case ChunkSize =>
      if ch == CR then p
      else if Unhex(ch) != -1 then p.(cur := c.(size := c.size + [ch]))
      else p.(cur := c.(ext := c.ext + [ch]))
    case ChunkParameters => if ch == CR then p else p.(cur := c.(ext := c.ext + [ch]))
    case ChunkSizeAlmostDone => p
    case ChunkData => p.(cur := c.(data := c.data + [ch]))
    case ChunkDataAlmostDone => p
    case ChunkDataDone => Parts(p.done + [c], NoChunk, "")
    case _ => p.(rest := p.rest + [ch])
  }

  /** The text that the parts stand for, `s` being the state they led to. */
  function TextOf(p: Parts, s: State): string {
    ChunksText(p.done) + CurrentText(p, s)
  }

  function CurrentText(p: Parts, s: State): string {
    var c := p.cur;
    match s
    case ChunkSizeStart => ""
    case ChunkSize => c.size
    case ChunkParameters => c.size + c.ext
    case ChunkSizeAlmostDone => c.size + c.ext + "\r"
    case ChunkData => LineText(c) + c.data
    case ChunkDataAlmostDone => LineText(c) + c.data
    case ChunkDataDone => LineText(c) + c.data + "\r"
    case _ => LineText(c) + p.rest
  }

  /** Reading the trailer, which ends the message. */
  predicate InTrailer(c: Core) { InHeaders(c.state) && !c.state.HeadersDone? && c.flags.trailing }

  /** The line under way as far as it is read, and the count of its bytes. */
  predicate InLine(c: Chunk, core: Core, crs: nat) {
    && GoodSize(c.size) && GoodExt(c.ext) && c.data == "" && core.contentLength == Hex(c.size)
    && core.nread == |c.size| + |c.ext| + crs <= MAX_HEADER_SIZE
  }

  /** Parts, parser and body fit together. */
  predicate At(p: Parts, s: Sys, body: string) {
    && GoodChunks(p.done) && s.core.errno == OK && s.app.body == body + DataOf(p.done) + p.cur.data
    && Within(p, s.core) && (!InTrailer(s.core) ==> p.rest == "")
  }

  predicate Within(p: Parts, core: Core) {
    var c := p.cur;
    match core.state
    case ChunkSizeStart => c == NoChunk && core.nread == 0
    case ChunkSize => InLine(c, core, 0) && c.ext == ""
    case ChunkParameters => InLine(c, core, 0) && c.ext != ""
    case ChunkSizeAlmostDone => InLine(c, core, 1)
    case ChunkData => GoodLine(c) && core.contentLength > 0 && core.contentLength + |c.data| == Hex(c.size)
    case ChunkDataAlmostDone => GoodChunk(c)
    case ChunkDataDone => GoodChunk(c)
    case _ => InTrailer(core) && IsLast(c)
  }

  /** Before the data of a chunk: a byte of its line. */
  predicate InSizeLine(s: State) { s.ChunkSizeStart? || s.ChunkSize? || s.ChunkParameters? || s.ChunkSizeAlmostDone? }

  lemma HexMore(s: string, ch: char)
    requires AllHex(s) && Unhex(ch) != -1
    ensures AllHex(s + [ch]) && Hex(s + [ch]) == Hex(s) * 16 + Unhex(ch)
  {
    assert (s + [ch])[..|s|] == s;
  }

  /** A byte of the line takes parts and parser on together. */
  ghost predicate Advances(p: Parts, c: Core, ch: char, c': Core) {
    var p' := Advance(p, c.state, ch);
    && Within(p', c') && p'.done == p.done && p'.cur.data == p.cur.data == ""
    && CurrentText(p', c'.state) == CurrentText(p, c.state) + [ch]
  }

  lemma SizeStartByte(p: Parts, c: Core, ch: char)
    requires c.state.ChunkSizeStart? && Within(p, c) && c.errno == OK && Unhex(ch) != -1
    ensures Advances(p, c, ch, c.(nread := 1, contentLength := Unhex(ch), state := ChunkSize))
  {
    hide Unhex;
    HexMore("", ch);
    assert "" + [ch] == [ch];
  }

  lemma SizeDigit(p: Parts, c: Core, ch: char)
    requires c.state.ChunkSize? && Within(p, c) && c.errno == OK && c.nread < MAX_HEADER_SIZE
    requires Unhex(ch) != -1 && ch != CR && c.contentLength <= HEX_LIMIT
    ensures Advances(p, c, ch, c.(nread := c.nread + 1, contentLength := c.contentLength * 16 + Unhex(ch)))
  {
    hide Unhex, GoodExt;
    var size := p.cur.size;
    HexMore(size, ch);
    assert (size + [ch])[..|size|] == size;
  }

  lemma SizeEnd(p: Parts, c: Core, ch: char)
    requires c.state.ChunkSize? && Within(p, c) && c.errno == OK && c.nread < MAX_HEADER_SIZE
    ensures ch == CR ==> Advances(p, c, ch, c.(nread := c.nread + 1, state := ChunkSizeAlmostDone))
    ensures ch == ';' || ch == ' ' ==> Advances(p, c, ch, c.(nread := c.nread + 1, state := ChunkParameters))
  {
    hide Hex, GoodSize;
    var size := p.cur.size;
    assert "" + [ch] == [ch];
    assert size + "" + "\r" == size + "\r";
  }

  lemma SizeByte(p: Parts, c: Core, ch: char)
    requires c.state.ChunkSize? && Within(p, c) && c.errno == OK && c.nread < MAX_HEADER_SIZE
    requires ChunkSizeByte(c.(nread := c.nread + 1), ch).core.errno == OK
    ensures Advances(p, c, ch, ChunkSizeByte(c.(nread := c.nread + 1), ch).core)
  {
    hide Within, Advances;
    if ch != CR && Unhex(ch) != -1 {
      HexAccumulates(c.(nread := c.nread + 1), ch);
      SizeDigit(p, c, ch);
    } else {
      SizeEnd(p, c, ch);
    }
  }

  lemma ParametersByte(p: Parts, c: Core, ch: char)
    requires c.state.ChunkParameters? && Within(p, c) && c.errno == OK && c.nread < MAX_HEADER_SIZE
    ensures Advances(p, c, ch, c.(nread := c.nread + 1, state := if ch == CR then ChunkSizeAlmostDone else ChunkParameters))
  {
    hide Hex, GoodSize;
    if ch != CR {
      var ext := p.cur.ext;
      assert (ext + [ch])[0] == ext[0];
      assert p.cur.size + (ext + [ch]) == p.cur.size + ext + [ch];
    }
  }

  lemma LineDone(p: Parts, s: State)
    requires s.ChunkData? || s.HeaderFieldStart?
    requires p.rest == "" == p.cur.data
    ensures CurrentText(p, s) == CurrentText(p, ChunkSizeAlmostDone) + [LF]
  {
    var line := p.cur.size + p.cur.ext;
    assert line + "\r" + [LF] == LineText(p.cur);
    assert LineText(p.cur) + "" == LineText(p.cur);
  }

  lemma SizeDoneByte(p: Parts, c: Core, ch: char)
    requires c.state.ChunkSizeAlmostDone? && Within(p, c) && c.errno == OK && c.nread < MAX_HEADER_SIZE && ch == LF
    requires p.rest == ""
    ensures Advances(p, c, ch, ChunkSizeDoneByte(c.(nread := c.nread + 1), ch).core)
  {
    hide Hex, GoodSize, GoodExt, CurrentText;
    LineDone(p, ChunkSizeDoneByte(c.(nread := c.nread + 1), ch).core.state);
  }

  /** The invariant of the decomposition: a byte read keeps it and is added to the text
      of the parts. */
  ghost predicate Goes(p: Parts, s: Sys, ch: char, s': Sys, body: string) {
    var p' := Advance(p, s.core.state, ch);
    At(p', s', body) && TextOf(p', s'.core.state) == TextOf(p, s.core.state) + [ch]
  }

  lemma LineStep(p: Parts, s: Sys, ch: char, next: Option<char>, body: string)
    requires At(p, s, body) && !Stopped(s) && InSizeLine(s.core.state) && Step(s, ch, next).core.errno == OK
    ensures Goes(p, s, ch, Step(s, ch, next), body) && !Stopped(Step(s, ch, next))
  {
    hide Step, Within, CurrentText, ChunksText, DataOf, GoodChunks;
    ChunkStep(s, ch, next);
    LineByte(p, s.core, ch);
    var s' := Step(s, ch, next);
    assert TextOf(p, s.core.state) + [ch] == ChunksText(p.done) + (CurrentText(p, s.core.state) + [ch]);
  }

  lemma LineByte(p: Parts, c: Core, ch: char)
    requires InSizeLine(c.state) && Within(p, c) && c.errno == OK && p.rest == ""
    requires Counted(c).errno == OK && ChunkByte(Counted(c), ch).core.errno == OK
    ensures Advances(p, c, ch, ChunkByte(Counted(c), ch).core) && Advance(p, c.state, ch).rest == ""
  {
    hide Advances, ChunkSizeByte;
    match c.state
    case ChunkSizeStart => SizeStartByte(p, c, ch);
    case ChunkSize => SizeByte(p, c, ch);
    case ChunkParameters => ParametersByte(p, c, ch);
    case ChunkSizeAlmostDone => SizeDoneByte(p, c, ch);
  }

  lemma DataByteStep(p: Parts, s: Sys, ch: char, next: Option<char>, body: string)
    requires At(p, s, body) && !Stopped(s) && s.core.state.ChunkData?
    ensures Goes(p, s, ch, Step(s, ch, next), body) && !Stopped(Step(s, ch, next))
  {
    hide Step, ChunksText, DataOf, GoodChunks, GoodSize, GoodExt;
    DataStep(s, ch, next);
    var d := p.cur.data;
    assert s.app.body + [ch] == body + DataOf(p.done) + (d + [ch]);
    assert TextOf(p, s.core.state) + [ch] == ChunksText(p.done) + (LineText(p.cur) + (d + [ch]));
  }

  /** The bytes CR and LF after the data of a chunk. */
  lemma EndByte(s: Sys, ch: char, next: Option<char>)
    requires !Stopped(s) && (s.core.state.ChunkDataAlmostDone? || s.core.state.ChunkDataDone?)
    requires Step(s, ch, next).core.errno == OK
    ensures ch == if s.core.state.ChunkDataAlmostDone? then CR else LF
    ensures Step(s, ch, next) == Sys(if s.core.state.ChunkDataAlmostDone? then s.core.(state := ChunkDataDone)
                                     else s.core.(nread := 0, state := ChunkSizeStart), s.app)
  {
    hide Step;
    ChunkStep(s, ch, next);
  }

  lemma DataCrStep(p: Parts, s: Sys, ch: char, next: Option<char>, body: string)
    requires At(p, s, body) && !Stopped(s) && s.core.state.ChunkDataAlmostDone? && Step(s, ch, next).core.errno == OK
    ensures Goes(p, s, ch, Step(s, ch, next), body) && !Stopped(Step(s, ch, next))
  {
    hide Step, GoodChunk, LineText, GoodChunks, DataOf, ChunksText;
    EndByte(s, ch, next);
    var line := LineText(p.cur) + p.cur.data;
    assert ChunksText(p.done) + line + "\r" == ChunksText(p.done) + (line + "\r");
  }

  /** One more whole chunk. */
  lemma ChunkDone(done: seq<Chunk>, c: Chunk)
    requires GoodChunks(done) && GoodChunk(c)
    ensures GoodChunks(done + [c]) && DataOf(done + [c]) == DataOf(done) + c.data
    ensures ChunksText(done + [c]) == ChunksText(done) + (LineText(c) + c.data + "\r") + [LF]
  {
    hide GoodChunk, LineText;
    assert (done + [c])[..|done|] == done;
    assert "\r" + [LF] == "\r\n";
    var line := LineText(c) + c.data;
    assert ChunksText(done) + (line + "\r") + [LF] == ChunksText(done) + (line + "\r\n");
  }

  lemma DataLfStep(p: Parts, s: Sys, ch: char, next: Option<char>, body: string)
    requires At(p, s, body) && !Stopped(s) && s.core.state.ChunkDataDone? && Step(s, ch, next).core.errno == OK
    ensures Goes(p, s, ch, Step(s, ch, next), body) && !Stopped(Step(s, ch, next))
  {
    hide Step, GoodChunk, LineText, GoodChunks, DataOf, ChunksText, InLine, GoodLine, IsLast;
    EndByte(s, ch, next);
    ChunkDone(p.done, p.cur);
    var done := p.done + [p.cur];
    assert ChunksText(done) + "" == ChunksText(done);
    assert body + DataOf(p.done) + p.cur.data == body + DataOf(done) + "";
  }

  // ----- the trailer ------------------------------------------------------------------------

  predicate NoBody(acts: seq<Act>) { forall i :: 0 <= i < |acts| ==> acts[i] != Mark(Body) }

  lemma {:induction false} NoBodyKept(acts: seq<Act>, m: Marks, a: App, data: string, p: nat)
    requires NoBody(acts) && m.body.None?
    ensures var (m', a') := Apply(acts, m, a, data, p); m'.body.None? && a'.body == a.body
    decreases |acts|
  {
    if acts != [] {
      assert acts[0] != Mark(Body);
      var (m1, a1) := ApplyAct(acts[0], m, a, data, p);
      NoBodyKept(acts[1..], m1, a1, data, p);
    }
  }

  lemma NoBodyPending(m: Marks, a: App, data: string, p: nat)
    requires m.body.None?
    ensures Pending(m, a, data, p).body == a.body
  {
  }

  ghost predicate Trails(r: Outcome) {
    r.core.errno == OK ==> InTrailer(r.core) && NoBody(r.acts)
  }

  lemma TrailerFieldStart(c: Core, ch: char)
    requires c.errno == OK && c.flags.trailing && c.state.HeaderFieldStart?
    ensures Trails(HeaderFieldStartByte(c, ch))
  {
  }

  lemma TrailerValueStart(c: Core, ch: char, next: Option<char>)
    requires c.errno == OK && c.flags.trailing
    ensures Trails(ValueStartByte(c, ch, next))
  {
    hide NextStart;
  }

  lemma TrailerValue(c: Core, ch: char)
    requires InTrailer(c) && c.errno == OK && c.state.HeaderValue?
    ensures Trails(HeaderValueByte(c, ch))
  {
    hide NextValue, IsHeaderChar;
  }

  lemma TrailerField(c: Core, ch: char)
    requires InTrailer(c) && c.errno == OK && c.state.HeaderField?
    ensures Trails(HeaderFieldByte(c, ch))
  {
    hide NextField;
  }

  lemma TrailerDiscard(c: Core, ch: char)
    requires InTrailer(c) && c.errno == OK && c.state.HeaderValueDiscardLws?
    ensures Trails(ValueDiscardLwsByte(c, ch))
  {
    hide HeaderFieldStartByte;
    TrailerFieldStart(c.(state := HeaderFieldStart), ch);
  }

  lemma TrailerLws(c: Core, ch: char, next: Option<char>)
    requires InTrailer(c) && c.errno == OK && c.state.HeaderValueLws?
    ensures Trails(ValueLwsByte(c, ch, next))
  {
    hide HeaderFieldStartByte, ValueStartByte;
    var c1 := if c.headerState == ContentLengthNum then c.(headerState := ContentLengthWs) else c;
    TrailerValueStart(c1.(state := HeaderValueStart), ch, next);
    TrailerFieldStart(c.(flags := WithHeader(c.flags, c.headerState), state := HeaderFieldStart), ch);
  }

  lemma TrailerRest(c: Core, ch: char, next: Option<char>)
    requires InTrailer(c) && c.errno == OK
    requires c.state.HeaderValueDiscardWs? || c.state.HeaderValueDiscardWsAlmostDone? || c.state.HeaderAlmostDone?
             || c.state.HeadersAlmostDone?
    ensures Trails(HeaderByte(c, ch, next))
  {
    hide ValueStartByte;
    TrailerValueStart(c, ch, next);
  }

  lemma TrailerByte(c: Core, ch: char, next: Option<char>)
    requires InTrailer(c) && c.errno == OK
    ensures Trails(HeaderByte(c, ch, next))
  {
    hide Trails, HeaderFieldStartByte, ValueStartByte, HeaderValueByte, HeaderFieldByte, ValueDiscardLwsByte, ValueLwsByte;
    match c.state
    case HeaderFieldStart => TrailerFieldStart(c, ch);
    case HeaderField => TrailerField(c, ch);
    case HeaderValueDiscardLws => TrailerDiscard(c, ch);
    case HeaderValueStart => TrailerValueStart(c, ch, next);
    case HeaderValue => TrailerValue(c, ch);
    case HeaderValueLws => TrailerLws(c, ch, next);
    case _ => TrailerRest(c, ch, next);
  }

  lemma TrailerTrans(c: Core, ch: char, next: Option<char>)
    requires InHeaders(c.state)
    ensures Trans(c, ch, next) == HeaderByte(c, ch, next)
  {
  }

  lemma TrailerStep(p: Parts, s: Sys, ch: char, next: Option<char>, body: string)
    requires At(p, s, body) && !Stopped(s) && InTrailer(s.core) && Step(s, ch, next).core.errno == OK
    ensures Goes(p, s, ch, Step(s, ch, next), body) && InTrailer(Step(s, ch, next).core)
  {
    hide Apply, Pending, HeaderByte, DataOf, ChunksText, GoodChunks, LineText, Trans, IsLast;
    var c := Counted(s.core);
    var r := HeaderByte(c, ch, next);
    TrailerTrans(c, ch, next);
    TrailerByte(c, ch, next);
    var (m, a) := Apply(r.acts, StartMarks(s.core.state), s.app, [ch], 0);
    NoBodyKept(r.acts, StartMarks(s.core.state), s.app, [ch], 0);
    NoBodyPending(m, a, [ch], 1);
    assert TextOf(p, s.core.state) + [ch] == ChunksText(p.done) + (LineText(p.cur) + (p.rest + [ch]));
  }

  // ----- the theorem -------------------------------------------------------------------------

  /** The first parts: none. */
  const NoParts := Parts([], NoChunk, "")

  /** The parts of the first `n` bytes, up to where the parser stops. */
  function PartsOf(s: Sys, data: string, n: nat): Parts
    requires n <= |data|
  {
    if n == 0 then NoParts
    else
      var before := Run(s, data, n - 1);
      if Stopped(before) then PartsOf(s, data, n - 1) else Advance(PartsOf(s, data, n - 1), before.core.state, data[n - 1])
  }

  lemma StepAt(p: Parts, s: Sys, ch: char, next: Option<char>, body: string)
    requires At(p, s, body) && !Stopped(s) && Step(s, ch, next).core.errno == OK
    ensures Goes(p, s, ch, Step(s, ch, next), body)
    ensures Step(s, ch, next).app.complete ==> InTrailer(Step(s, ch, next).core)
  {
    hide Step, Goes, InLine, GoodLine, GoodChunk, IsLast;
    if InSizeLine(s.core.state) {
      LineStep(p, s, ch, next, body);
    } else if s.core.state.ChunkData? {
      DataByteStep(p, s, ch, next, body);
    } else if s.core.state.ChunkDataAlmostDone? {
      DataCrStep(p, s, ch, next, body);
    } else if s.core.state.ChunkDataDone? {
      DataLfStep(p, s, ch, next, body);
    } else {
      TrailerStep(p, s, ch, next, body);
    }
  }

  lemma {:induction false} PartsAreRead(s: Sys, data: string, n: nat)
    requires !Stopped(s) && s.core.state.ChunkSizeStart? && s.core.nread == 0 && n <= |data|
    requires n > 0 ==> !Stopped(Run(s, data, n - 1))
    requires Run(s, data, n).core.errno == OK
    ensures var s' := Run(s, data, n);
      && At(PartsOf(s, data, n), s', s.app.body) && TextOf(PartsOf(s, data, n), s'.core.state) == data[..n]
      && (s'.app.complete ==> InTrailer(s'.core))
  {
    hide Step, Within, CurrentText, GoodChunks, ChunksText, Advance;
    if n == 0 {
      PartsBegin(s);
    } else {
      if n > 1 && Stopped(Run(s, data, n - 2)) { RunStaysStopped(s, data, n - 2, n - 1); }
      PartsAreRead(s, data, n - 1);
      StepAt(PartsOf(s, data, n - 1), Run(s, data, n - 1), data[n - 1], Next(data, n - 1), s.app.body);
      assert data[..n - 1] + [data[n - 1]] == data[..n];
    }
  }

  lemma PartsBegin(s: Sys)
    requires !Stopped(s) && s.core.state.ChunkSizeStart? && s.core.nread == 0
    ensures At(NoParts, s, s.app.body) && TextOf(NoParts, s.core.state) == ""
  {
    assert s.app.body == s.app.body + "" + "";
  }

  /** A complete chunked message is chunks, a last line of size zero and a trailer; the
      body delivered is the chunks' data in order, each as long as its size line says. */
  lemma ChunkedBody(s: Sys, data: string, n: nat) returns (chunks: seq<Chunk>, last: Chunk, trailer: string)
    requires !Stopped(s) && s.core.state.ChunkSizeStart? && s.core.nread == 0 && 0 < n <= |data|
    requires !Stopped(Run(s, data, n - 1)) && Run(s, data, n).app.complete && Run(s, data, n).core.errno == OK
    ensures GoodChunks(chunks) && IsLast(last)
    ensures data[..n] == ChunksText(chunks) + (LineText(last) + trailer)
    ensures Run(s, data, n).app.body == s.app.body + DataOf(chunks)
  {
    hide Run, GoodChunks, ChunksText, DataOf, LineText, GoodLine;
    PartsAreRead(s, data, n);
    var p := PartsOf(s, data, n);
    chunks, last, trailer := p.done, p.cur, p.rest;
    assert s.app.body + DataOf(chunks) + "" == s.app.body + DataOf(chunks);
  }
}
