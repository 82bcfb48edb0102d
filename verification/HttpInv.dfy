/** What holds in every state the parser can reach, and the source's own assertions. */
module HttpInv {
  import opened Wrappers
  import opened HttpBytes
  import opened HttpStep
  import opened HttpRun

  /** Header states while a field name is read, and until its value starts. */
  predicate IsFieldState(h: HeaderState) {
    match h
    case General | C | CO | CON | Connection | ContentLength | TransferEncoding | Upgrade => true
    case MatchingConnection | MatchingProxyConnection | MatchingContentLength => true
    case MatchingTransferEncoding | MatchingUpgrade => true
    case _ => false
  }

  /** Header states while a value is read. */
  predicate IsValueState(h: HeaderState) {
    match h
    case General | Connection | ContentLengthNum | ContentLengthWs | Chunked | KeepAlive | Close => true
    case MatchingTokenStart | MatchingChunked | MatchingToken | MatchingKeepAlive | MatchingClose => true
    case _ => false
  }

  /** How far a matcher may have read, so that its index stays inside its word. */
  function IndexBound(h: HeaderState): nat {
    match h
    case C => 0
    case CO => 1
    case CON => 2
    case MatchingConnection => |"connection"| - 2
    case MatchingProxyConnection => |"proxy-connection"| - 2
    case MatchingContentLength => |"content-length"| - 2
    case MatchingTransferEncoding => |"transfer-encoding"| - 2
    case MatchingUpgrade => |"upgrade"| - 2
    case MatchingTokenStart => 0
    case MatchingChunked => |"chunked"| - 2
    case MatchingKeepAlive => |"keep-alive"| - 2
    case MatchingClose => |"close"| - 2
    case _ => |"transfer-encoding"|
  }

  predicate FieldOk(h: HeaderState, index: nat) { IsFieldState(h) && index <= IndexBound(h) }

  predicate ValueOk(h: HeaderState, index: nat) { IsValueState(h) && index <= IndexBound(h) }

  predicate MethodOk(meth: nat, index: nat) { meth < |METHOD_STRINGS| && 1 <= index <= |MethodName(meth)| }

  /** What the state says about the other fields. */
  datatype Phase = Plain | InMethod | InName | InValue | NoByte | AtSize | InSize | InChunk | ChunkEnd | InIdentity

  function PhaseOf(s: State): Phase {
    match s
    case ReqMethod => InMethod
    case HeaderField | HeaderValueDiscardWs | HeaderValueDiscardWsAlmostDone | HeaderValueDiscardLws => InName
    case HeaderValue | HeaderAlmostDone | HeaderValueLws => InValue
    case HeaderValueStart => NoByte  // only within one byte
    case ChunkSizeStart => AtSize
    case ChunkSize | ChunkParameters | ChunkSizeAlmostDone => InSize
    case ChunkData => InChunk
    case ChunkDataAlmostDone | ChunkDataDone => ChunkEnd
    case BodyIdentity => InIdentity
    case _ => Plain
  }

  predicate BaseOk(c: Core) {
    c.contentLength <= ULLONG_MAX && (c.flags.contentLength ==> c.contentLength < ULLONG_MAX) && c.meth < |METHOD_STRINGS|
  }

  predicate PhaseOk(c: Core) {
    match PhaseOf(c.state)
    case Plain => true
    case InMethod => MethodOk(c.meth, c.index)
    case InName => FieldOk(c.headerState, c.index)
    case InValue =>
      ValueOk(c.headerState, c.index)
      && (c.headerState.ContentLengthNum? || c.headerState.ContentLengthWs? ==> c.flags.contentLength)
    case NoByte => false
    case AtSize => c.flags.chunked
    case InSize => c.flags.chunked && c.contentLength < ULLONG_MAX
    case InChunk => c.flags.chunked && 0 < c.contentLength < ULLONG_MAX
    case ChunkEnd => c.flags.chunked && c.contentLength == 0
    case InIdentity => 0 < c.contentLength < ULLONG_MAX
  }

  predicate CoreInv(c: Core) { BaseOk(c) && PhaseOk(c) }

  ghost predicate Keeps(r: Outcome) { r.core.errno == OK ==> CoreInv(r.core) && (r.core.state.ChunkSizeStart? ==> r.core.nread == 0) }

  // ----- one byte keeps it ---------------------------------------------------------

  lemma TurnsOk(meth: nat, index: nat, ch: char)
    requires TurnMethod(meth, index, ch).Some? && MethodOk(meth, index)
    ensures MethodOk(TurnMethod(meth, index, ch).value, index + 1)
  {
  }

  lemma NextMethodOk(meth: nat, index: nat, ch: char)
    requires NextMethod(meth, index, ch).Some? && MethodOk(meth, index)
    ensures var (m, s) := NextMethod(meth, index, ch).value;
      m < |METHOD_STRINGS| && (s.ReqMethod? ==> MethodOk(m, index + 1)) && (s.ReqMethod? || s.ReqSpacesBeforeUrl?)
  {
    hide MethodName, TurnMethod;
    if TurnMethod(meth, index, ch).Some? { TurnsOk(meth, index, ch); }
  }

  lemma MethodKeeps(c: Core, ch: char)
    requires CoreInv(c) && c.errno == OK && c.state.ReqMethod?
    ensures Keeps(MethodByte(c, ch))
  {
    hide NextMethod, MethodOk;
    if NextMethod(c.meth, c.index, ch).Some? { NextMethodOk(c.meth, c.index, ch); }
  }

  lemma StartKeeps(c: Core, ch: char)
    requires CoreInv(c) && c.errno == OK && c.state.StartReq?
    ensures Keeps(StartReqByte(c, ch))
  {
    var m := FirstMethod(ch);
    if m.Some? { assert MethodOk(m.value, 1); }
  }

  lemma UrlCharStays(s: State, ch: char)
    ensures var t := UrlChar(s, ch); t.Dead? || InUrl(t)
  {
  }

  lemma UrlIsPlain(s: State)
    requires InUrl(s)
    ensures PhaseOf(s) == Plain
  {
  }

  lemma PlainKeeps(c: Core, c': Core)
    requires CoreInv(c) && PhaseOf(c'.state) == Plain
    requires c'.contentLength == c.contentLength && c'.flags == c.flags && c'.meth == c.meth
    ensures CoreInv(c') && !c'.state.ChunkSizeStart?
  {
  }

  lemma UrlLeads(c: Core, ch: char)
    requires InUrl(c.state) && c.errno == OK && UrlByte(c, ch).core.errno == OK
    ensures var c' := UrlByte(c, ch).core;
      && PhaseOf(c'.state) == Plain
      && c'.contentLength == c.contentLength && c'.flags == c.flags && c'.meth == c.meth
  {
    if ch == ' ' || ch == CR || ch == LF {
      hide UrlChar;
    } else {
      hide UrlChar, UrlEndByte;
      UrlCharStays(c.state, ch);
      if InUrl(UrlChar(c.state, ch)) { UrlIsPlain(UrlChar(c.state, ch)); }
    }
  }

  lemma UrlKeeps(c: Core, ch: char)
    requires CoreInv(c) && c.errno == OK && InUrl(c.state)
    ensures Keeps(UrlByte(c, ch))
  {
    hide UrlByte, CoreInv;
    if UrlByte(c, ch).core.errno == OK {
      UrlLeads(c, ch);
      PlainKeeps(c, UrlByte(c, ch).core);
    }
  }

  lemma SpacesKeep(c: Core, ch: char)
    requires CoreInv(c) && c.errno == OK && c.state.ReqSpacesBeforeUrl?
    ensures Keeps(SpacesBeforeUrlByte(c, ch))
  {
    hide MethodOk, FieldOk, ValueOk, UrlChar;
    UrlCharStays(if c.meth == CONNECT then ReqServerStart else c.state, ch);
  }

  lemma NextVersionIsPlain(s: State, ch: char, meth: nat)
    requires InVersion(s) && NextVersion(s, ch, meth).To?
    ensures PhaseOf(NextVersion(s, ch, meth).s) == Plain
  {
  }

  lemma VersionKeeps(c: Core, ch: char)
    requires CoreInv(c) && c.errno == OK && InVersion(c.state)
    ensures Keeps(VersionByte(c, ch))
  {
    hide NextVersion, MethodOk, FieldOk, ValueOk;
    if NextVersion(c.state, ch, c.meth).To? { NextVersionIsPlain(c.state, ch, c.meth); }
  }

  lemma HeadersDoneKeeps(c: Core, ch: char)
    requires CoreInv(c) && c.errno == OK && c.state.HeadersDone?
    ensures Keeps(HeadersDoneByte(c, ch))
  {
    hide MethodOk, FieldOk, ValueOk;
  }

  lemma HeadersAlmostDoneKeeps(c: Core, ch: char)
    requires CoreInv(c) && c.errno == OK && c.state.HeadersAlmostDone?
    ensures Keeps(HeadersAlmostDoneByte(c, ch))
  {
    var c1 := c.(state := HeadersDone, upgrade := c.flags.upgrade || c.meth == CONNECT);
    HeadersDoneKeeps(c1, ch);
    hide HeadersDoneByte, MethodOk, FieldOk, ValueOk;
  }

  lemma FieldStartKeeps(c: Core, ch: char)
    requires CoreInv(c) && c.errno == OK && c.state.HeaderFieldStart?
    ensures Keeps(HeaderFieldStartByte(c, ch))
  {
    HeadersAlmostDoneKeeps(c.(state := HeadersAlmostDone), ch);
    hide MethodOk, HeadersAlmostDoneByte;
  }

  lemma NextFieldOk(h: HeaderState, i: nat, t: char)
    requires FieldOk(h, i)
    ensures var l := NextField(h, i, t); FieldOk(l.h, l.index)
  {
  }

  lemma FieldKeeps(c: Core, ch: char)
    requires CoreInv(c) && c.errno == OK && c.state.HeaderField?
    ensures Keeps(HeaderFieldByte(c, ch))
  {
    NextFieldOk(c.headerState, c.index, Token(ch));
    hide NextField, MethodOk, FieldOk, ValueOk;
  }

  lemma NextStartOk(h: HeaderState, ch: char)
    requires IsFieldState(h) || IsValueState(h)
    ensures var h' := NextStart(h, ch);
      IsValueState(h') && (h'.ContentLengthNum? ==> h.ContentLength?) && (h'.ContentLengthWs? ==> h.ContentLengthWs?)
  {
  }

  lemma ValueStartKeeps(c: Core, ch: char, next: Option<char>)
    requires BaseOk(c) && c.errno == OK
    requires IsFieldState(c.headerState) || IsValueState(c.headerState)
    requires c.headerState.ContentLengthWs? ==> c.flags.contentLength
    ensures Keeps(ValueStartByte(c, ch, next))
  {
    NextStartOk(c.headerState, ch);
    hide NextStart, IndexBound, IsFieldState, IsValueState;
  }

  lemma NextValueOk(h: HeaderState, i: nat, ch: char)
    requires ValueOk(h, i)
    ensures var l := NextValue(h, i, ch);
      ValueOk(l.h, l.index) && (!h.ContentLengthNum? && !h.ContentLengthWs? ==> !l.h.ContentLengthNum? && !l.h.ContentLengthWs?)
  {
  }

  /** A digit of a Content-Length is accumulated without wrapping 64 bits and without
      reaching the value that stands for no length. */
  lemma DigitAccumulates(c: Core, ch: char)
    requires DigitStep(c, ch).core.errno == OK && c.errno == OK && ch != ' '
    ensures IsNum(ch) && DigitStep(c, ch).core
      == c.(headerState := ContentLengthNum, contentLength := c.contentLength * 10 + (ch as int - '0' as int))
    ensures c.contentLength * 10 + (ch as int - '0' as int) < ULLONG_MAX
  {
  }

  /** So is a digit of a chunk size. */
  lemma HexAccumulates(c: Core, ch: char)
    requires ChunkSizeByte(c, ch).core.errno == OK && c.errno == OK && Unhex(ch) != -1
    ensures ChunkSizeByte(c, ch).core == c.(contentLength := c.contentLength * 16 + Unhex(ch))
    ensures c.contentLength * 16 + Unhex(ch) < ULLONG_MAX
  {
  }

  lemma DigitKeeps(c: Core, ch: char)
    requires CoreInv(c) && c.errno == OK && c.state.HeaderValue?
    requires c.headerState.ContentLengthNum?
    ensures Keeps(DigitStep(c, ch))
  {
    if DigitStep(c, ch).core.errno == OK && ch != ' ' { DigitAccumulates(c, ch); }
    hide MethodOk, IndexBound;
  }

  lemma WordKeeps(c: Core, ch: char)
    requires CoreInv(c) && c.errno == OK && c.state.HeaderValue?
    requires !c.headerState.ContentLengthNum? && !c.headerState.ContentLengthWs?
    ensures var l := NextValue(c.headerState, c.index, ch);
      Keeps(Outcome(c.(headerState := l.h, index := l.index), []))
  {
    NextValueOk(c.headerState, c.index, ch);
    hide NextValue, MethodOk, ValueOk;
  }

  lemma ValueKeeps(c: Core, ch: char)
    requires CoreInv(c) && c.errno == OK && c.state.HeaderValue?
    ensures Keeps(HeaderValueByte(c, ch))
  {
    assert IsValueState(c.headerState);
    if ch == CR || ch == LF {
      EndOfValueKeeps(c, HeaderAlmostDone);
      EndOfValueKeeps(c, HeaderValueLws);
    } else if c.headerState.ContentLengthNum? {
      DigitKeeps(c, ch);
    } else if !c.headerState.ContentLengthWs? {
      WordKeeps(c, ch);
    }
    hide NextValue, CoreInv, IsHeaderChar, DigitStep;
  }

  lemma EndOfValueKeeps(c: Core, s: State)
    requires CoreInv(c) && PhaseOf(c.state) == InValue == PhaseOf(s)
    ensures CoreInv(c.(state := s))
  {
  }

  lemma SizeKeeps(c: Core, ch: char)
    requires CoreInv(c) && c.errno == OK && c.state.ChunkSize?
    ensures Keeps(ChunkSizeByte(c, ch))
  {
    hide MethodOk, FieldOk, ValueOk, Unhex;
    if ChunkSizeByte(c, ch).core.errno == OK && Unhex(ch) != -1 { HexAccumulates(c, ch); }
  }

  lemma SizeDoneKeeps(c: Core, ch: char)
    requires CoreInv(c) && c.errno == OK && c.state.ChunkSizeAlmostDone?
    ensures Keeps(ChunkSizeDoneByte(c, ch))
  {
    hide MethodOk, FieldOk, ValueOk;
  }

  lemma ChunkKeeps(c: Core, ch: char)
    requires CoreInv(c) && c.errno == OK && IsChunkState(c.state)
    ensures Keeps(ChunkByte(c, ch))
  {
    if c.state.ChunkSize? {
      hide CoreInv, ChunkSizeByte;
      SizeKeeps(c, ch);
    } else if c.state.ChunkSizeAlmostDone? {
      hide CoreInv, ChunkSizeDoneByte;
      SizeDoneKeeps(c, ch);
    } else if c.state.ChunkSizeStart? {
      SizeStartKeeps(c, ch);
    } else {
      ChunkRestKeeps(c, ch);
    }
  }

  lemma SizeStartKeeps(c: Core, ch: char)
    requires CoreInv(c) && c.errno == OK && c.state.ChunkSizeStart?
    ensures Keeps(ChunkByte(c, ch))
  {
    hide MethodOk, FieldOk, ValueOk, Unhex, ChunkSizeByte, ChunkSizeDoneByte;
  }

  lemma ChunkRestKeeps(c: Core, ch: char)
    requires CoreInv(c) && c.errno == OK && (c.state.ChunkParameters? || c.state.ChunkDataAlmostDone? || c.state.ChunkDataDone?)
    ensures Keeps(ChunkByte(c, ch))
  {
    hide MethodOk, FieldOk, ValueOk, Unhex, ChunkSizeByte, ChunkSizeDoneByte;
  }

  lemma DataKeeps(c: Core, ch: char)
    requires CoreInv(c) && c.errno == OK && (c.state.BodyIdentity? || c.state.ChunkData?)
    ensures Keeps(DataByte(c, ch))
  {
    hide MethodOk, FieldOk, ValueOk;
  }

  lemma LwsKeeps(c: Core, ch: char, next: Option<char>)
    requires CoreInv(c) && c.errno == OK && c.state.HeaderValueLws?
    ensures Keeps(ValueLwsByte(c, ch, next))
  {
    if ch == ' ' || ch == '\t' {
      var c1 := if c.headerState == ContentLengthNum then c.(headerState := ContentLengthWs) else c;
      hide ValueStartByte, MethodOk, IndexBound;
      ValueStartKeeps(c1.(state := HeaderValueStart), ch, next);
    } else {
      hide HeaderFieldStartByte, MethodOk, ValueOk, FieldOk;
      FieldStartKeeps(c.(flags := WithHeader(c.flags, c.headerState), state := HeaderFieldStart), ch);
    }
  }

  lemma DiscardKeeps(c: Core, ch: char, next: Option<char>)
    requires CoreInv(c) && c.errno == OK
    ensures c.state.HeaderValueDiscardWs? ==> Keeps(ValueDiscardWsByte(c, ch, next))
    ensures c.state.HeaderValueDiscardLws? ==> Keeps(ValueDiscardLwsByte(c, ch))
  {
    hide ValueStartByte, HeaderFieldStartByte, MethodOk, IndexBound;
    if c.state.HeaderValueDiscardWs? { ValueStartKeeps(c, ch, next); }
    if c.state.HeaderValueDiscardLws? { FieldStartKeeps(c.(state := HeaderFieldStart), ch); }
  }

  lemma HeaderKeeps(c: Core, ch: char, next: Option<char>)
    requires CoreInv(c) && c.errno == OK && InHeaders(c.state)
    ensures Keeps(HeaderByte(c, ch, next))
  {
    hide CoreInv;
    match c.state
    case HeaderFieldStart => FieldStartKeeps(c, ch);
    case HeaderField => FieldKeeps(c, ch);
    case HeaderValueDiscardWs => DiscardKeeps(c, ch, next);
    case HeaderValueDiscardWsAlmostDone => StrayKeeps(c, ch, next);
    case HeaderValueDiscardLws => DiscardKeeps(c, ch, next);
    case HeaderValueStart => StrayKeeps(c, ch, next);
    case HeaderValue => ValueKeeps(c, ch);
    case HeaderAlmostDone => StrayKeeps(c, ch, next);
    case HeaderValueLws => LwsKeeps(c, ch, next);
    case HeadersAlmostDone => HeadersAlmostDoneKeeps(c, ch);
    case HeadersDone => HeadersDoneKeeps(c, ch);
  }

  lemma StrayKeeps(c: Core, ch: char, next: Option<char>)
    requires CoreInv(c) && c.errno == OK
    requires c.state.HeaderValueDiscardWsAlmostDone? || c.state.HeaderAlmostDone? || c.state.HeaderValueStart?
    ensures Keeps(HeaderByte(c, ch, next))
  {
    hide ValueStartByte, MethodOk, IndexBound;
  }

  /** Every byte keeps the invariant. */
  lemma TransKeeps(c: Core, ch: char, next: Option<char>)
    requires CoreInv(c) && c.errno == OK
    ensures Keeps(Trans(c, ch, next))
  {
    hide CoreInv, VersionByte, UrlByte, HeaderByte, ChunkByte, StartReqByte, MethodByte, SpacesBeforeUrlByte, DataByte;
    if InVersion(c.state) {
      VersionKeeps(c, ch);
    } else if InUrl(c.state) {
      UrlKeeps(c, ch);
    } else if InHeaders(c.state) {
      HeaderKeeps(c, ch, next);
    } else if IsChunkState(c.state) {
      ChunkKeeps(c, ch);
    } else {
      match c.state
      case StartReq => StartKeeps(c, ch);
      case ReqMethod => MethodKeeps(c, ch);
      case ReqSpacesBeforeUrl => SpacesKeep(c, ch);
      case BodyIdentity => DataKeeps(c, ch);
      case ChunkData => DataKeeps(c, ch);
      case _ =>
    }
  }

  lemma InitInv(allowChunkedLength: bool, lenient: bool)
    ensures CoreInv(Init(allowChunkedLength, lenient))
  {
  }

  /** The invariant of the whole system; a chunk-size line starts uncounted. */
  predicate Inv(s: Sys) {
    s.core.errno == OK ==> CoreInv(s.core) && (s.core.state.ChunkSizeStart? ==> s.core.nread == 0)
  }

  lemma StepKeeps(s: Sys, ch: char, next: Option<char>)
    requires Inv(s)
    ensures Inv(Step(s, ch, next))
  {
    hide Trans, Apply, Pending;
    if !Stopped(s) && Counted(s.core).errno == OK { TransKeeps(Counted(s.core), ch, next); }
    hide MethodOk, FieldOk, ValueOk;
  }

  lemma {:induction false} RunKeeps(s: Sys, data: string, n: nat)
    requires Inv(s) && n <= |data|
    ensures Inv(Run(s, data, n))
  {
    hide Step, Inv;
    if n > 0 {
      RunKeeps(s, data, n - 1);
      StepKeeps(Run(s, data, n - 1), data[n - 1], Next(data, n - 1));
    }
  }
}
