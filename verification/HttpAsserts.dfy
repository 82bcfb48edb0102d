/** The assertions in the source: which of them hold in every run, and the one that
    does not. */
module HttpAsserts {
  import opened Wrappers
  import opened HttpBytes
  import opened HttpStep
  import opened HttpRun
  import opened HttpInv
  import opened HttpNames
  import HttpRefine

  /** What the source asserts of the parser, already counted, when it reads `ch`, but for
      the header state `Connection`. */
  predicate Asserts(c: Core, ch: char) {
    match c.state
    case HeaderField => IsFieldState(c.headerState)
    case HeaderValue => ch != CR && ch != LF ==> !c.headerState.TransferEncoding?
    case BodyIdentity => c.contentLength != 0 && c.contentLength != ULLONG_MAX
    case ChunkSizeStart => c.nread == 1 && c.flags.chunked
    case ChunkSize | ChunkParameters | ChunkSizeAlmostDone | ChunkDataDone => c.flags.chunked
    case ChunkData => c.flags.chunked && c.contentLength != 0 && c.contentLength != ULLONG_MAX
    case ChunkDataAlmostDone => c.flags.chunked && c.contentLength == 0
    case _ => true
  }

  /** The assertion that no value byte is read in the header state `Connection`. */
  predicate AssertsNoConnection(c: Core, ch: char) {
    c.state.HeaderValue? && ch != CR && ch != LF && (c.lenient || IsHeaderChar(ch)) ==> !c.headerState.Connection?
  }

  lemma InvAsserts(s: Sys, ch: char)
    requires Inv(s) && !Stopped(s) && Counted(s.core).errno == OK
    ensures Asserts(Counted(s.core), ch)
  {
    hide MethodOk, IndexBound;
  }

  /** In a run from a fresh parser every byte that is read finds the assertions true. */
  lemma AssertsHold(allowChunkedLength: bool, lenient: bool, a: App, data: string, n: nat)
    requires n < |data|
    ensures var s := Run(Sys(Init(allowChunkedLength, lenient), a), data, n);
      !Stopped(s) && Counted(s.core).errno == OK ==> Asserts(Counted(s.core), data[n])
  {
    hide Step, Inv, Asserts;
    var s0 := Sys(Init(allowChunkedLength, lenient), a);
    InitInv(allowChunkedLength, lenient);
    assert Inv(s0) by { InitSysInv(allowChunkedLength, lenient, a); }
    RunKeeps(s0, data, n);
    var s := Run(s0, data, n);
    if !Stopped(s) && Counted(s.core).errno == OK { InvAsserts(s, data[n]); }
  }

  lemma InitSysInv(allowChunkedLength: bool, lenient: bool, a: App)
    ensures Inv(Sys(Init(allowChunkedLength, lenient), a))
  {
  }

  // ----- the value of a Connection header -----------------------------------------------

  /** While a value is read the header state is not `Connection`. */
  predicate NoConnection(c: Core) { PhaseOf(c.state) == InValue ==> !c.headerState.Connection? }

  /** A NUL is read as the first byte of a Connection value: in lower case it is taken
      for a blank. */
  predicate NulStarts(c: Core, ch: char) {
    c.state.HeaderValueDiscardWs? && c.headerState.Connection? && ch == '\0'
  }

  lemma NextStartConnection(h: HeaderState, ch: char)
    ensures NextStart(h, ch).Connection? <==> h.Connection? && (ch == '\0' || ch == ' ')
  {
  }

  /** Only these states lead to a value. */
  predicate LeadsToValue(s: State) {
    s.HeaderValueDiscardWs? || s.HeaderValue? || s.HeaderAlmostDone? || s.HeaderValueLws?
  }

  /** Not reading a value afterwards. */
  ghost predicate OutsideValue(r: Outcome) { r.core.errno == OK ==> PhaseOf(r.core.state) != InValue }

  lemma FieldStartOutside(c: Core, ch: char)
    requires c.state.HeaderFieldStart? || c.state.HeadersAlmostDone?
    ensures OutsideValue(HeaderFieldStartByte(c, ch)) && OutsideValue(HeadersAlmostDoneByte(c, ch))
  {
    hide Token;
  }

  lemma HeaderOutside(c: Core, ch: char, next: Option<char>)
    requires InHeaders(c.state) && !LeadsToValue(c.state) && !c.state.HeaderValueStart?
    ensures OutsideValue(HeaderByte(c, ch, next))
  {
    hide HeaderFieldStartByte, HeadersAlmostDoneByte, Token, NextField;
    if c.state.HeaderFieldStart? || c.state.HeadersAlmostDone? { FieldStartOutside(c, ch); }
    FieldStartOutside(c.(state := HeaderFieldStart), ch);
  }

  lemma UrlOutside(c: Core, ch: char, next: Option<char>)
    requires InUrl(c.state) || c.state.ReqSpacesBeforeUrl?
    ensures InUrl(c.state) ==> OutsideValue(UrlByte(c, ch))
    ensures c.state.ReqSpacesBeforeUrl? ==> OutsideValue(SpacesBeforeUrlByte(c, ch))
  {
    hide UrlChar;
    UrlCharStays(c.state, ch);
    UrlCharStays(ReqServerStart, ch);
  }

  lemma VersionOutside(c: Core, ch: char)
    requires InVersion(c.state)
    ensures OutsideValue(VersionByte(c, ch))
  {
    hide NextVersion;
    if NextVersion(c.state, ch, c.meth).To? { NextVersionIsPlain(c.state, ch, c.meth); }
  }

  lemma ChunkOutside(c: Core, ch: char)
    requires IsChunkState(c.state)
    ensures OutsideValue(ChunkByte(c, ch))
  {
    hide Unhex;
  }

  lemma OtherOutside(c: Core, ch: char, next: Option<char>)
    requires !InHeaders(c.state)
    ensures OutsideValue(Trans(c, ch, next))
  {
    hide VersionByte, UrlByte, ChunkByte, SpacesBeforeUrlByte, NextMethod, IsAlpha, FirstMethod;
    if InVersion(c.state) {
      VersionOutside(c, ch);
    } else if InUrl(c.state) || c.state.ReqSpacesBeforeUrl? {
      UrlOutside(c, ch, next);
    } else if IsChunkState(c.state) {
      ChunkOutside(c, ch);
    } else if c.state.ReqMethod? {
      MethodOutside(c.meth, c.index, ch);
    }
  }

  lemma MethodOutside(meth: nat, index: nat, ch: char)
    ensures NextMethod(meth, index, ch).Some? ==> var s := NextMethod(meth, index, ch).value.1; s.ReqMethod? || s.ReqSpacesBeforeUrl?
  {
  }

  lemma ValueStartConnection(c: Core, ch: char, next: Option<char>)
    requires ValueStartByte(c, ch, next).core.errno == OK && c.errno == OK
    ensures var c' := ValueStartByte(c, ch, next).core;
      c'.state.HeaderValue? && (c'.headerState.Connection? <==> c.headerState.Connection? && (ch == '\0' || ch == ' '))
  {
    NextStartConnection(c.headerState, ch);
    hide NextStart;
  }

  lemma NextValueConnection(h: HeaderState, i: nat, ch: char)
    requires !h.Connection?
    ensures !NextValue(h, i, ch).h.Connection?
  {
  }

  lemma ValueConnection(c: Core, ch: char)
    requires c.state.HeaderValue? && !c.headerState.Connection? && HeaderValueByte(c, ch).core.errno == OK
    ensures NoConnection(HeaderValueByte(c, ch).core)
  {
    NextValueConnection(c.headerState, c.index, ch);
    hide NextValue, IsHeaderChar;
  }

  lemma WsConnection(c: Core, ch: char, next: Option<char>)
    requires c.errno == OK && c.state.HeaderValueDiscardWs? && ValueDiscardWsByte(c, ch, next).core.errno == OK
    ensures NoConnection(ValueDiscardWsByte(c, ch, next).core) <==> !NulStarts(c, ch)
  {
    hide ValueStartByte;
    if ch != ' ' && ch != '\t' && ch != CR && ch != LF { ValueStartConnection(c, ch, next); }
  }

  lemma LwsConnection(c: Core, ch: char, next: Option<char>)
    requires c.errno == OK && c.state.HeaderValueLws? && !c.headerState.Connection? && ValueLwsByte(c, ch, next).core.errno == OK
    ensures NoConnection(ValueLwsByte(c, ch, next).core)
  {
    hide ValueStartByte, HeaderFieldStartByte;
    FieldStartOutside(c.(flags := WithHeader(c.flags, c.headerState), state := HeaderFieldStart), ch);
    var c1 := if c.headerState == ContentLengthNum then c.(headerState := ContentLengthWs) else c;
    if ch == ' ' || ch == '\t' { ValueStartConnection(c1.(state := HeaderValueStart), ch, next); }
  }

  /** One byte keeps `Connection` out of values, unless it is that NUL. */
  lemma ConnectionStep(c: Core, ch: char, next: Option<char>)
    requires !c.state.HeaderValueStart? && c.errno == OK && NoConnection(c) && Trans(c, ch, next).core.errno == OK
    ensures NoConnection(Trans(c, ch, next).core) <==> !NulStarts(c, ch)
  {
    hide Trans, ValueDiscardWsByte, ValueLwsByte, HeaderValueByte;
    if !InHeaders(c.state) {
      OtherOutside(c, ch, next);
    } else {
      TransHeader(c, ch, next);
      match c.state
      case HeaderValueDiscardWs => WsConnection(c, ch, next);
      case HeaderValue => ValueConnection(c, ch);
      case HeaderAlmostDone =>
      case HeaderValueLws => LwsConnection(c, ch, next);
      case _ => HeaderOutside(c, ch, next);
    }
  }

  lemma TransHeader(c: Core, ch: char, next: Option<char>)
    requires InHeaders(c.state)
    ensures Trans(c, ch, next) == HeaderByte(c, ch, next)
  {
  }

  // ----- runs -------------------------------------------------------------------------------

  /** The system's form of the two predicates. */
  predicate Clean(s: Sys) { s.core.errno == OK ==> NoConnection(s.core) }

  predicate NulRead(s: Sys, ch: char) { !Stopped(s) && NulStarts(s.core, ch) }

  lemma CleanStep(s: Sys, ch: char, next: Option<char>)
    requires Inv(s) && Clean(s)
    ensures Step(s, ch, next).core.errno == OK ==> (NoConnection(Step(s, ch, next).core) <==> !NulRead(s, ch))
  {
    hide Trans, Apply, Pending, MethodOk, FieldOk, ValueOk, BaseOk;
    if !Stopped(s) && Counted(s.core).errno == OK && Trans(Counted(s.core), ch, next).core.errno == OK {
      ConnectionStep(Counted(s.core), ch, next);
    }
  }

  /** As long as no Connection value starts with a NUL, no value byte is read in the
      header state `Connection`. */
  lemma {:induction false} ConnectionAssertHolds(allowChunkedLength: bool, lenient: bool, a: App, data: string, n: nat)
    requires n < |data|
    requires forall k :: 0 <= k < n ==> !NulRead(Run(Sys(Init(allowChunkedLength, lenient), a), data, k), data[k])
    ensures var s := Run(Sys(Init(allowChunkedLength, lenient), a), data, n);
      Clean(s) && (!Stopped(s) && Counted(s.core).errno == OK ==> AssertsNoConnection(Counted(s.core), data[n]))
  {
    hide Step, Inv, NoConnection;
    var s0 := Sys(Init(allowChunkedLength, lenient), a);
    var s := Run(s0, data, n);
    InitInv(allowChunkedLength, lenient);
    InitSysInv(allowChunkedLength, lenient, a);
    if n > 0 {
      ConnectionAssertHolds(allowChunkedLength, lenient, a, data, n - 1);
      RunKeeps(s0, data, n - 1);
      CleanStep(Run(s0, data, n - 1), data[n - 1], Next(data, n - 1));
      if Stopped(Run(s0, data, n - 1)) { StepStopped(Run(s0, data, n - 1), data[n - 1], Next(data, n - 1)); }
    }
    assert NoConnection(s0.core) by { InitClean(allowChunkedLength, lenient); }
    if Clean(s) && s.core.errno == OK { CleanAsserts(s.core, data[n]); }
  }

  lemma InitClean(allowChunkedLength: bool, lenient: bool)
    ensures NoConnection(Init(allowChunkedLength, lenient))
  {
  }

  lemma CleanAsserts(c: Core, ch: char)
    requires NoConnection(c)
    ensures AssertsNoConnection(Counted(c), ch)
  {
  }

  /** And a Connection value that starts with a NUL does reach the assertion: at the
      next byte, whatever it is. */
  lemma NulReachesTheAssert(s: Sys, ch: char, data: string)
    requires Inv(s) && Clean(s) && NulRead(s, '\0') && s.core.nread < MAX_HEADER_SIZE
    requires data == ['\0', ch] && IsHeaderChar(ch) && ch != CR && ch != LF
    ensures var s1 := Run(s, data, 1); !Stopped(s1) && !AssertsNoConnection(Counted(s1.core), ch)
  {
    hide Inv;
    assert Run(s, data, 1) == Step(Run(s, data, 0), '\0', Some(ch));
    NulStep(s, Some(ch));
  }

  lemma NulStep(s: Sys, next: Option<char>)
    requires NulRead(s, '\0') && s.core.nread < MAX_HEADER_SIZE
    ensures var s1 := Step(s, '\0', next); !Stopped(s1) && s1.core.state.HeaderValue? && s1.core.headerState.Connection?
  {
    hide Pending;
    var c := Counted(s.core);
    assert Trans(c, '\0', next) == ValueStartByte(c, '\0', next);
    ApplyOne(Mark(Value), NoMarks, s.app, ['\0'], 0);
    HttpRefine.PendingComplete(Only(Value, 0), s.app, ['\0'], 1);
  }

  lemma ColonStep(s: Sys, next: Option<char>)
    requires !Stopped(s) && s.core.state.HeaderField? && s.core.nread < MAX_HEADER_SIZE
    ensures var s1 := Step(s, ':', next);
      && !Stopped(s1) && s1.core.state.HeaderValueDiscardWs? && s1.core.headerState == s.core.headerState
      && s1.core.nread == s.core.nread + 1
  {
    hide Pending, Trans;
    assert Token(':') == '\0';
    HttpRefine.TransField(Counted(s.core), ':', next);
    ApplyOne(Emit(Field), Only(Field, 0), s.app, [':'], 0);
    HttpRefine.PendingComplete(NoMarks, Deliver(s.app, Field, ""), [':'], 1);
  }

  const NUL_VALUE: string := "Connection:\0x"

  /** A header line that reaches the assertion, wherever the headers are read. */
  lemma ConnectionAssertFails(s: Sys)
    requires Inv(s) && !Stopped(s) && s.core.state.HeaderFieldStart? && s.core.nread + |NUL_VALUE| <= MAX_HEADER_SIZE
    ensures var s1 := Run(s, NUL_VALUE, 12); !Stopped(s1) && !AssertsNoConnection(Counted(s1.core), 'x')
  {
    hide Step, Inv;
    var data, name := NUL_VALUE, NUL_VALUE[..10];
    FoldedAt(name, 0);
    forall i | 0 <= i < 10 ensures Folded(name)[i] == Token(name[i]) { FoldedAt(name, i); }
    assert Folded(name) == "connection";
    NameRun(s, data, 10);
    NamesAreKnown(s, data, 10);
    var s10 := Run(s, data, 10);
    ColonStep(s10, Some('\0'));
    assert Run(s, data, 11) == Step(s10, ':', Next(data, 10));
    var s11 := Run(s, data, 11);
    NulStep(s11, Some('x'));
    assert Run(s, data, 12) == Step(s11, '\0', Next(data, 11));
  }
}
