/** A whole request as a client writes it, and what the parser makes of it: its parts, its
    flags, and where its body ends (section 3.3.3 of RFC 7230). */
module HttpRequest {
  import opened Wrappers
  import opened HttpBytes
  import opened HttpGrammar
  import opened HttpStep
  import opened HttpRun
  import opened HttpCut
  import opened HttpMarks
  import opened HttpRefine
  import opened HttpLength
  import opened HttpBody
  import opened HttpChunks
  import opened HttpMethods
  import opened HttpNames
  import opened HttpLine
  import opened HttpHeader
  import opened Texts

  // ----- what headers say ---------------------------------------------------------------

  predicate Any(hs: seq<Header>, p: Header -> bool) { exists i :: 0 <= i < |hs| && p(hs[i]) }

  /** The name of the header for codings, or one that it begins. */
  predicate NamesCoding(h: Header) { BeginsInAnyCase(h.0, "transfer-encoding") }

  predicate SaysChunked(h: Header) { InAnyCase(h.0, "transfer-encoding") && InAnyCase(Bare(h.1), "chunked") }

  predicate SaysKeepAlive(h: Header) { NamesConnection(h.0) && InAnyCase(Bare(h.1), "keep-alive") }

  predicate SaysClose(h: Header) { NamesConnection(h.0) && InAnyCase(Bare(h.1), "close") }

  predicate SaysUpgrade(h: Header) { InAnyCase(h.0, "upgrade") && h.1 != "" && !("h2" <= h.1) }

  /** Headers that the parser takes; at most one gives a length. */
  predicate GoodHeaders(hs: seq<Header>) {
    && (forall i :: 0 <= i < |hs| ==> WellFormed(hs[i]))
    && (forall i, j :: 0 <= i < j < |hs| ==> !(HasLength(hs[i]) && HasLength(hs[j])))
  }

  function LengthOf(hs: seq<Header>): nat
    requires GoodHeaders(hs)
  {
    if hs == [] then ULLONG_MAX
    else if HasLength(hs[|hs| - 1]) then Decimal(0, hs[|hs| - 1].1)
    else LengthOf(hs[..|hs| - 1])
  }

  function FlagsOf(hs: seq<Header>): Flags {
    Flags(Any(hs, SaysChunked), Any(hs, SaysKeepAlive), Any(hs, SaysClose), false, Any(hs, SaysUpgrade), false,
          Any(hs, HasLength))
  }

  lemma SomeMore(hs: seq<Header>, h: Header, p: Header -> bool)
    ensures Any(hs + [h], p) <==> Any(hs, p) || p(h)
  {
    var all := hs + [h];
    assert all[|hs|] == h;
    if Any(hs, p) {
      var i :| 0 <= i < |hs| && p(hs[i]);
      assert p(all[i]);
    }
  }

  lemma GoodFront(hs: seq<Header>, h: Header)
    requires GoodHeaders(hs + [h])
    ensures GoodHeaders(hs) && WellFormed(h) && (HasLength(h) ==> !Any(hs, HasLength))
  {
    var all := hs + [h];
    assert all[|hs|] == h && forall i :: 0 <= i < |hs| ==> all[i] == hs[i];
  }

  lemma FlagsMore(hs: seq<Header>, h: Header)
    requires WellFormed(h)
    ensures FlagsOf(hs + [h]) == if h.1 == "" then FlagsOf(hs) else Flagged(FlagsOf(hs), h.0, h.1)
  {
    hide WellFormed, Any, InAnyCase;
    NamesApart(h.0);
    WordsApart(Bare(h.1));
    SomeMore(hs, h, SaysChunked);
    SomeMore(hs, h, SaysKeepAlive);
    SomeMore(hs, h, SaysClose);
    SomeMore(hs, h, SaysUpgrade);
    SomeMore(hs, h, HasLength);
    NoWords();
  }

  /** A name is one of those at most, and a value one of the words. */
  lemma NamesApart(s: string)
    ensures InAnyCase(s, "connection") ==> !InAnyCase(s, "transfer-encoding") && !InAnyCase(s, "content-length") && !InAnyCase(s, "upgrade")
    ensures InAnyCase(s, "proxy-connection") ==>
      !InAnyCase(s, "transfer-encoding") && !InAnyCase(s, "content-length") && !InAnyCase(s, "upgrade")
    ensures InAnyCase(s, "transfer-encoding") ==> !InAnyCase(s, "content-length") && !InAnyCase(s, "upgrade")
    ensures InAnyCase(s, "content-length") ==> !InAnyCase(s, "upgrade")
  {
  }

  lemma WordsApart(s: string)
    ensures InAnyCase(s, "keep-alive") ==> !InAnyCase(s, "close")
  {
  }

  lemma NoWords()
    ensures !InAnyCase(Bare(""), "keep-alive") && !InAnyCase(Bare(""), "close") && !InAnyCase(Bare(""), "chunked")
  {
  }

  // ----- the headers of a request ------------------------------------------------------------

  /** A request but for its body: method, URL, digits of the version, headers. */
  datatype Head = Head(meth: nat, url: string, major: char, minor: char, headers: seq<Header>)

  predicate GoodHead(r: Head) {
    r.meth < |METHOD_STRINGS| && GoodUrl(r.meth, r.url) && IsNum(r.major) && IsNum(r.minor) && GoodHeaders(r.headers)
  }

  function LineOf(r: Head): string { MethodName(r.meth) + " " + r.url + VersionText(r.major, r.minor) }

  function HeadersText(hs: seq<Header>): string {
    if hs == [] then "" else HeadersText(hs[..|hs| - 1]) + HeaderText(hs[|hs| - 1])
  }

  function HeadText(r: Head): string { LineOf(r) + HeadersText(r.headers) + "\r\n" }

  function Digit(ch: char): int { ch as int - '0' as int }

  /** The pairs with a value. */
  function Valued(hs: seq<Header>): seq<Header> {
    if hs == [] then []
    else Valued(hs[..|hs| - 1]) + if hs[|hs| - 1].1 != "" then [hs[|hs| - 1]] else []
  }

  /** The pairs that the request gets: those with a value, and the last. */
  function Kept(hs: seq<Header>): seq<Header> {
    if hs == [] then [] else Valued(hs[..|hs| - 1]) + [hs[|hs| - 1]]
  }

  /** What is built after the headers `hs`, the last of which is still held. */
  function Held(r: Head, hs: seq<Header>): App {
    var a := NewApp.(meth := r.meth, url := r.url);
    if hs == [] then a
    else a.(headers := Valued(hs[..|hs| - 1]), field := hs[|hs| - 1].0, value := hs[|hs| - 1].1)
  }

  /** The parser after `n` bytes, at the start of the line behind the headers `hs`. */
  function HeadCore(c: Core, r: Head, hs: seq<Header>, n: nat): Core
    requires GoodHeaders(hs)
  {
    c.(state := HeaderFieldStart, meth := r.meth, major := Digit(r.major), minor := Digit(r.minor), nread := n,
       flags := FlagsOf(hs), usesTransferEncoding := Any(hs, NamesCoding), contentLength := LengthOf(hs))
  }

  ghost predicate Between(s: Sys, c: Core, r: Head, hs: seq<Header>, n: nat)
    requires GoodHeaders(hs)
  {
    AtLine(s) && !Stopped(s) && Facts(AtStart(s).core) == Facts(HeadCore(c, r, hs, n)) && AtStart(s).app == Held(r, hs)
  }

  /** A parser at the start of a connection's first request. */
  predicate AtBegin(s: Sys) { s.core.state.StartReq? && s.core.errno == OK && s.core.nread == 0 && s.app == NewApp }

  /** The method and the URL. */
  lemma MethodAndUrl(r: Head, s: Sys)
    requires GoodHead(r) && AtBegin(s) && |MethodName(r.meth)| + 1 + |r.url| <= MAX_HEADER_SIZE
    ensures var s' := RunAll(s, MethodName(r.meth) + " " + r.url);
      && EndsUrl(s'.core.state) && s'.app == NewApp.(meth := r.meth, url := r.url)
      && Facts(s'.core) == Facts(Begun(s.core, r.meth, |MethodName(r.meth)| + 1 + |r.url|).(state := s'.core.state))
  {
    hide Step, MethodName, RunAll, GoodHeaders, UrlFold;
    var first := MethodName(r.meth) + " ";
    MethodPart(s, r.meth);
    var s1 := RunAll(s, first);
    RunThen(s, first, r.url);
    assert RunAll(s1, r.url) == Run(s1, r.url, |r.url|) && r.url[..|r.url|] == r.url by { RunAllIs(s1, r.url); }
    UrlRun(s1, r.url, |r.url|);
    assert "" + r.url == r.url;
  }

  lemma RequestLine(r: Head, s: Sys)
    requires GoodHead(r) && AtBegin(s) && |LineOf(r)| <= MAX_HEADER_SIZE
    ensures Between(RunAll(s, LineOf(r)), s.core, r, [], |LineOf(r)|)
  {
    hide Step, MethodName, RunAll, GoodHeaders, GoodUrl, EndsUrl, FlagsOf, Any, LengthOf, Valued;
    var front := MethodName(r.meth) + " " + r.url;
    MethodAndUrl(r, s);
    RunThen(s, front, VersionText(r.major, r.minor));
    EndsAreOpen(RunAll(s, front).core.state);
    VersionPart(RunAll(s, front), r.major, r.minor);
    NoHeaders();
  }

  lemma EndsAreOpen(s: State)
    requires EndsUrl(s)
    ensures !s.HeaderValueLws? && !s.HeaderValueDiscardLws?
  {
  }

  lemma NoHeaders()
    ensures GoodHeaders([]) && HeadersText([]) == ""
    ensures FlagsOf([]) == NoFlags && LengthOf([]) == ULLONG_MAX && !Any([], NamesCoding)
  {
  }

  lemma LineOfEnds(r: Head)
    ensures LineOf(r) != "" && LineOf(r)[|LineOf(r)| - 1] == LF
  {
  }

  lemma HeldMore(r: Head, hs: seq<Header>, h: Header)
    ensures Held(r, hs + [h]) == Filed(Held(r, hs)).(field := h.0, value := h.1, building := false)
  {
    assert (hs + [h])[..|hs|] == hs;
  }

  lemma NotedMore(c: Core, r: Head, hs: seq<Header>, n: nat, h: Header)
    requires GoodHeaders(hs + [h])
    ensures GoodHeaders(hs) && GoodHeader(HeadCore(c, r, hs, n), h)
    ensures HeadCore(c, r, hs + [h], n) == Noted(HeadCore(c, r, hs, n), h)
  {
    hide GoodHeaders, WellFormed, Decimal, Flagged;
    GoodFront(hs, h);
    FlagsMore(hs, h);
    SomeMore(hs, h, NamesCoding);
    assert (hs + [h])[..|hs|] == hs;
  }

  /** A header line begins with a letter of its name. */
  lemma FirstStays(s: Sys, h: Header)
    requires !Stopped(s) && s.core.state.HeaderFieldStart? && s.core.nread < MAX_HEADER_SIZE && !s.app.building && WellFormed(h)
    ensures var ch := HeaderText(h)[0]; Step(s, ch, None).core.errno == OK && ch != ' ' && ch != '\t'
  {
    hide Step;
    FirstLetter(s, h.0[0], None);
    assert Token(' ') == '\0' && Token('\t') == '\0';
  }

  /** One more header line. */
  lemma OneHeader(s: Sys, c: Core, r: Head, hs: seq<Header>, n: nat, h: Header)
    requires GoodHeaders(hs + [h]) && GoodHeaders(hs) && Between(s, c, r, hs, n) && c.errno == OK
    requires WellFormed(h) && n + |HeaderText(h)| <= MAX_HEADER_SIZE
    ensures Between(RunAll(s, HeaderText(h)), c, r, hs + [h], n + |HeaderText(h)|)
  {
    hide RunAll, Step, WellFormed, GoodHeaders, FlagsOf, AtLine, HeaderText, Noted;
    var t, line := AtStart(s), HeaderText(h);
    NotedMore(c, r, hs, n, h);
    HeldMore(r, hs, h);
    StartIsLive(s, c, r, hs, n);
    NotedFacts(t.core, HeadCore(c, r, hs, n), h, n + |line|);
    LineSize(h);
    FirstStays(t, h);
    FromLineStart(s, line);
    HeaderPart(t, h);
  }

  lemma StartIsLive(s: Sys, c: Core, r: Head, hs: seq<Header>, n: nat)
    requires GoodHeaders(hs) && Between(s, c, r, hs, n) && c.errno == OK
    ensures var t := AtStart(s);
      !Stopped(t) && t.core.state.HeaderFieldStart? && t.core.nread == n && !t.app.building && s.core.nread == n
  {
    hide GoodHeaders, FlagsOf, LengthOf, Valued;
  }

  lemma NotedFacts(c: Core, d: Core, h: Header, n: nat)
    requires Facts(c) == Facts(d) && WellFormed(h)
    ensures Facts(Noted(c, h).(nread := n)) == Facts(Noted(d, h).(nread := n)) && (GoodHeader(c, h) <==> GoodHeader(d, h))
  {
    hide WellFormed, HasLength, Flagged, Decimal;
  }

  lemma LineSize(h: Header)
    ensures |HeaderText(h)| > 0
  {
  }

  lemma {:induction false} HeaderLines(s: Sys, c: Core, r: Head, hs: seq<Header>, n: nat)
    requires GoodHeaders(hs) && GoodHeaders([]) && Between(s, c, r, [], n) && c.errno == OK
    requires n + |HeadersText(hs)| <= MAX_HEADER_SIZE
    ensures Between(RunAll(s, HeadersText(hs)), c, r, hs, n + |HeadersText(hs)|)
  {
    hide RunAll, Step, WellFormed, Between, GoodHeaders, HeaderText;
    if hs == [] {
      NoRun(s);
    } else {
      var front, h := hs[..|hs| - 1], hs[|hs| - 1];
      assert front + [h] == hs;
      GoodFront(front, h);
      HeaderLines(s, c, r, front, n);
      OneHeader(RunAll(s, HeadersText(front)), c, r, front, n + |HeadersText(front)|, h);
      if front != [] { HeadersEnd(front); }
      RunThen(s, HeadersText(front), HeaderText(h));
    }
  }

  lemma HeadersEnd(hs: seq<Header>)
    requires hs != []
    ensures var t := HeadersText(hs); t != "" && t[|t| - 1] == LF
  {
  }

  // ----- the end of the headers ----------------------------------------------------------------

  /** How the end of the body is found. */
  datatype Framing = Refused(e: Errno) | NoBody | Counted(length: nat) | Chunks | UntilClose

  /** The framing that the headers ask for: a coding goes before a length, and chunks
      before other codings. */
  function FramingOf(r: Head, allowChunkedLength: bool, lenient: bool): Framing
    requires GoodHeaders(r.headers)
  {
    var hs := r.headers;
    if Any(hs, NamesCoding) && Any(hs, HasLength) && !(if Any(hs, SaysChunked) then allowChunkedLength else lenient) then
      Refused(UnexpectedContentLength)
    else if Any(hs, SaysUpgrade) || r.meth == CONNECT then NoBody
    else if Any(hs, SaysChunked) then Chunks
    else if Any(hs, NamesCoding) then if lenient then UntilClose else Refused(InvalidTransferEncoding)
    else if Any(hs, HasLength) && LengthOf(hs) > 0 then Counted(LengthOf(hs))
    else NoBody
  }

  /** The parameters of the connection that the callback gets. */
  function ConnFor(r: Head): Conn {
    var hs, v10, v11 := r.headers, r.major == '1' && r.minor == '0', r.major == '1' && r.minor == '1';
    Conn(Digit(r.major), Digit(r.minor),
         if v10 then Any(hs, SaysKeepAlive) else v11,
         if v10 then !Any(hs, SaysKeepAlive) else v11 && Any(hs, SaysClose),
         Any(hs, SaysUpgrade) || r.meth == CONNECT)
  }

  /** The request after its headers. */
  function HeadApp(r: Head): App {
    NewApp.(meth := r.meth, url := r.url, headers := Kept(r.headers), conn := Some(ConnFor(r)))
  }

  predicate Awaits(c: Core, f: Framing) {
    match f
    case Refused(e) => c.errno == e
    case NoBody => c.errno == OK
    case Counted(l) => c.errno == OK && c.state.BodyIdentity? && c.contentLength == l
    case Chunks => c.errno == OK && c.state.ChunkSizeStart? && c.nread == 0
    case UntilClose => c.errno == OK && c.state.BodyIdentityEof?
  }

  /** The framing in the parser's terms. */
  function Frame(c: Core): Framing {
    if c.usesTransferEncoding && c.flags.contentLength && !(if c.flags.chunked then c.allowChunkedLength else c.lenient) then
      Refused(UnexpectedContentLength)
    else if c.flags.upgrade || c.meth == CONNECT then NoBody
    else if c.flags.chunked then Chunks
    else if c.usesTransferEncoding then if c.lenient then UntilClose else Refused(InvalidTransferEncoding)
    else if c.contentLength != 0 && c.contentLength != ULLONG_MAX then Counted(c.contentLength)
    else NoBody
  }

  function Done(c: Core): Core { c.(state := HeadersDone, upgrade := c.flags.upgrade || c.meth == CONNECT) }

  lemma EndTrans(c: Core, next: Option<char>)
    requires c.state.HeadersAlmostDone? && c.errno == OK && !c.flags.trailing && !c.flags.skipBody
    ensures var r := Trans(c, LF, next);
      && Awaits(r.core, Frame(c))
      && (!Frame(c).Refused? ==>
        r.acts == [OnHeadersComplete(ConnOf(Done(c)))] + if Frame(c).NoBody? then [OnMessageComplete] else [])
  {
    assert Trans(c, LF, next) == HeadersAlmostDoneByte(c, LF);
  }

  lemma ApplyEnd(conn: Conn, last: bool, a: App, data: string)
    ensures Apply([OnHeadersComplete(conn)] + (if last then [OnMessageComplete] else []), NoMarks, a, data, 0)
      == (NoMarks, var b := HeadersComplete(a, conn); if last then b.(complete := true) else b)
  {
    var acts := if last then [OnMessageComplete] else [];
    var all := [OnHeadersComplete(conn)] + acts;
    assert all[1..] == acts;
    if last { ApplyOne(OnMessageComplete, NoMarks, HeadersComplete(a, conn), data, 0); }
  }

  lemma CountIsNoMatter(c: Core, n: nat)
    ensures var d := c.(nread := n); Frame(d) == Frame(c) && ConnOf(Done(d)) == ConnOf(Done(c))
  {
  }

  lemma AwaitsErrno(c: Core, d: Core)
    requires Awaits(c, Frame(d))
    ensures Frame(d).Refused? <==> c.errno != OK
  {
  }

  lemma EndStep(s: Sys, next: Option<char>)
    requires !Stopped(s) && s.core.state.HeadersAlmostDone? && s.core.nread < MAX_HEADER_SIZE
    requires !s.core.flags.trailing && !s.core.flags.skipBody
    ensures var s', f, b := Step(s, LF, next), Frame(s.core), HeadersComplete(s.app, ConnOf(Done(s.core)));
      Awaits(s'.core, f) && (!f.Refused? ==> s'.app == if f.NoBody? then b.(complete := true) else b)
  {
    hide Trans, Pending, Apply, HeadersComplete, Frame, ConnOf, Done, Awaits;
    var c := s.core.(nread := s.core.nread + 1);
    CountIsNoMatter(s.core, c.nread);
    EndTrans(c, next);
    AwaitsErrno(Trans(c, LF, next).core, c);
    var f, conn := Frame(c), ConnOf(Done(c));
    ApplyEnd(conn, f.NoBody?, s.app, [LF]);
    var b := HeadersComplete(s.app, conn);
    NothingPending(if f.NoBody? then b.(complete := true) else b, [LF], 1);
  }

  lemma LastIsFiled(r: Head, conn: Conn)
    requires GoodHeaders(r.headers)
    ensures HeadersComplete(Held(r, r.headers), conn)
      == NewApp.(meth := r.meth, url := r.url, headers := Kept(r.headers), conn := Some(conn))
  {
    hide Valued;
    var hs := r.headers;
    if hs != [] { assert WellFormed(hs[|hs| - 1]); }
  }

  lemma {:induction false} LengthKnown(hs: seq<Header>)
    requires GoodHeaders(hs)
    ensures if Any(hs, HasLength) then LengthOf(hs) < ULLONG_MAX else LengthOf(hs) == ULLONG_MAX
  {
    if hs != [] {
      var front, h := hs[..|hs| - 1], hs[|hs| - 1];
      assert front + [h] == hs;
      GoodFront(front, h);
      LengthKnown(front);
      SomeMore(front, h, HasLength);
    }
  }

  lemma FrameOfHead(c: Core, r: Head, n: nat)
    requires GoodHead(r)
    ensures Frame(HeadCore(c, r, r.headers, n)) == FramingOf(r, c.allowChunkedLength, c.lenient)
    ensures ConnOf(Done(HeadCore(c, r, r.headers, n))) == ConnFor(r)
  {
    hide Any, LengthOf, GoodHeaders, IsNum;
    LengthKnown(r.headers);
  }

  lemma FrameFacts(c: Core, d: Core, n: nat)
    requires Facts(c) == Facts(d)
    ensures var e := c.(state := HeadersAlmostDone, nread := n);
      Frame(e) == Frame(d) && ConnOf(Done(e)) == ConnOf(Done(d)) && e.flags == d.flags
  {
  }

  /** What the request is once its headers are complete. */
  ghost predicate IsHead(s: Sys, c: Core, r: Head)
    requires GoodHeaders(r.headers)
  {
    var f := FramingOf(r, c.allowChunkedLength, c.lenient);
    Awaits(s.core, f) && (!f.Refused? ==> s.app == HeadApp(r).(complete := f.NoBody?))
  }

  /** The empty line: the pair held is put among the headers, and the framing is decided. */
  lemma EndPart(s: Sys, c: Core, r: Head, n: nat)
    requires GoodHead(r) && Between(s, c, r, r.headers, n) && c.errno == OK && n + 2 <= MAX_HEADER_SIZE
    ensures IsHead(RunAll(s, "\r\n"), c, r)
  {
    hide Step, GoodHead, GoodHeaders, Frame, Done, ConnOf, Awaits, FramingOf, ConnFor, FlagsOf, LengthOf, HeadersComplete, Kept,
      Valued;
    GoodHas(r);
    StartIsLive(s, c, r, r.headers, n);
    var t := AtStart(s);
    TrailerCr(t, None);
    FromLineStart(s, "\r\n");
    TrailerCr(t, Some(LF));
    assert Run(t, "\r\n", 1) == Step(Run(t, "\r\n", 0), CR, Some(LF));
    var s1 := Run(t, "\r\n", 1);
    FrameFacts(t.core, HeadCore(c, r, r.headers, n), n + 1);
    FrameOfHead(c, r, n);
    NoTrailer(r.headers);
    EndStep(s1, None);
    LastOf(t, "\r\n");
    LastIsFiled(r, ConnFor(r));
  }

  lemma NoTrailer(hs: seq<Header>)
    ensures !FlagsOf(hs).trailing && !FlagsOf(hs).skipBody
  {
    hide Any;
  }

  lemma GoodHas(r: Head)
    requires GoodHead(r)
    ensures GoodHeaders(r.headers)
  {
  }

  /** Every head that is written as the standard says is accepted, but for a framing that
      it forbids; the application gets its method, its URL, its version and its headers,
      and the parser goes on to the body that the headers announce. */
  lemma HeadIsRead(r: Head, s: Sys)
    requires GoodHead(r) && AtBegin(s) && |HeadText(r)| <= MAX_HEADER_SIZE
    ensures IsHead(RunAll(s, HeadText(r)), s.core, r)
  {
    hide Step, RunAll, Between, GoodHead, GoodHeaders, LineOf, HeadersText, IsHead;
    var line, headers := LineOf(r), HeadersText(r.headers);
    RequestLine(r, s);
    LineOfEnds(r);
    var s1 := RunAll(s, line);
    RunThen(s, line, headers);
    GoodHas(r);
    NoHeaders();
    HeaderLines(s1, s.core, r, r.headers, |line|);
    if r.headers != [] { HeadersEnd(r.headers); }
    RunThen(s, line + headers, "\r\n");
    EndPart(RunAll(s1, headers), s.core, r, |line + headers|);
  }

  // ----- the headers that are kept ----------------------------------------------------------------

  lemma {:induction false} ValuedAll(hs: seq<Header>)
    ensures |Valued(hs)| <= |hs| && (Valued(hs) == hs <==> forall i :: 0 <= i < |hs| ==> hs[i].1 != "")
  {
    if hs != [] {
      var front, h := hs[..|hs| - 1], hs[|hs| - 1];
      assert front + [h] == hs;
      ValuedAll(front);
      if h.1 != "" && Valued(hs) == hs { assert Valued(hs)[..|hs| - 1] == Valued(front); }
    }
  }

  /** The request gets exactly the headers that were written if and only if each but the
      last has a value: others without one are dropped. */
  lemma KeptAll(hs: seq<Header>)
    ensures Kept(hs) == hs <==> forall i :: 0 <= i < |hs| - 1 ==> hs[i].1 != ""
  {
    if hs != [] {
      var front, h := hs[..|hs| - 1], hs[|hs| - 1];
      assert front + [h] == hs;
      ValuedAll(front);
      if Kept(hs) == hs { assert Kept(hs)[..|hs| - 1] == Valued(front); }
    }
  }

  // ----- the whole message ---------------------------------------------------------------------------

  /** A body as it is written. */
  datatype Content = Nothing | Plain(data: string) | Coded(chunks: seq<Chunk>, last: Chunk)

  function ContentText(b: Content): string {
    match b
    case Nothing => ""
    case Plain(data) => data
    case Coded(chunks, last) => ChunksText(chunks) + HttpBody.LineText(last) + "\r\n"
  }

  function ContentOf(b: Content): string {
    match b
    case Nothing => ""
    case Plain(data) => data
    case Coded(chunks, last) => DataOf(chunks)
  }

  /** The body is framed as announced. */
  predicate Fits(b: Content, f: Framing) {
    match f
    case NoBody => b.Nothing?
    case Counted(l) => b.Plain? && |b.data| == l
    case Chunks => b.Coded? && GoodChunks(b.chunks) && IsLast(b.last)
    case UntilClose => b.Plain?
    case Refused(e) => false
  }

  lemma CountedPart(s: Sys, data: string)
    requires !Stopped(s) && s.core.state.BodyIdentity? && s.core.contentLength == |data| > 0
    ensures var s' := RunAll(s, data); s'.core.errno == OK && s'.app == s.app.(body := s.app.body + data, complete := true)
  {
    hide Step;
    DataRun(s, data, 0, s.core, s.app, |data|);
    assert data[0..|data|] == data;
  }

  lemma EofPart(s: Sys, data: string)
    requires !Stopped(s) && s.core.state.BodyIdentityEof?
    ensures RunAll(s, data) == Sys(s.core, s.app.(body := s.app.body + data))
  {
    hide Step;
    EofRun(s, data, 0, s.core, s.app, |data|);
    assert data[0..|data|] == data;
  }

  /** Every message, its head and its body written as the standard says, is accepted and
      delivered as it was written. It is complete then, unless only the end of the
      connection completes it. */
  lemma MessageIsRead(r: Head, b: Content, s: Sys)
    requires GoodHead(r) && AtBegin(s) && |HeadText(r)| <= MAX_HEADER_SIZE
    requires Fits(b, FramingOf(r, s.core.allowChunkedLength, s.core.lenient))
    ensures var s' := RunAll(s, HeadText(r) + ContentText(b));
      && s'.core.errno == OK
      && s'.app == HeadApp(r).(body := ContentOf(b), complete := !FramingOf(r, s.core.allowChunkedLength, s.core.lenient).UntilClose?)
  {
    hide Step, RunAll, GoodHead, HeadText, FramingOf, HeadApp, GoodChunks, ChunksText, DataOf, IsLast, HttpBody.LineText;
    HeadIsRead(r, s);
    HeadEnds(r);
    RunThen(s, HeadText(r), ContentText(b));
    var s1 := RunAll(s, HeadText(r));
    HeadHasNoBody(r);
    GoodHas(r);
    if FramingOf(r, s.core.allowChunkedLength, s.core.lenient).Counted? { CountIsPositive(r, s.core.allowChunkedLength, s.core.lenient); }
    match b {
      case Nothing => NoRun(s1);
      case Plain(data) => if s1.core.state.BodyIdentity? { CountedPart(s1, data); } else { EofPart(s1, data); }
      case Coded(chunks, last) => ChunkedBodyIsRead(s1, chunks, last);
    }
  }

  /** However the bytes of the message are cut into buffers, but for the one harmful cut. */
  lemma MessageIsReadInPieces(r: Head, b: Content, s: Sys, feeds: seq<string>)
    requires GoodHead(r) && AtBegin(s) && |HeadText(r)| <= MAX_HEADER_SIZE
    requires Fits(b, FramingOf(r, s.core.allowChunkedLength, s.core.lenient))
    requires Concat(feeds) == HeadText(r) + ContentText(b) && HarmlessFeeds(s, feeds)
    ensures var s' := Feed(s, feeds);
      && s'.core.errno == OK
      && s'.app == HeadApp(r).(body := ContentOf(b), complete := !FramingOf(r, s.core.allowChunkedLength, s.core.lenient).UntilClose?)
  {
    hide RunAll, GoodHead, HeadText, FramingOf, HeadApp, ContentText, HarmlessFeeds, Fits;
    HeadEnds(r);
    FeedsAreOneBuffer(s, feeds);
    MessageIsRead(r, b, s);
  }

  // ----- requests as clients write them --------------------------------------------------------------

  /** A header that says nothing about the body. */
  predicate IsPlain(h: Header) {
    && IsToken(h.0) && IsFieldValue(h.1)
    && !InAnyCase(h.0, "content-length") && !InAnyCase(h.0, "upgrade") && !BeginsInAnyCase(h.0, "transfer-encoding")
  }

  predicate ArePlain(hs: seq<Header>) { forall i :: 0 <= i < |hs| ==> IsPlain(hs[i]) }

  lemma {:induction false} PlainSaysNothing(hs: seq<Header>)
    requires ArePlain(hs)
    ensures GoodHeaders(hs) && !Any(hs, NamesCoding) && !Any(hs, HasLength) && !Any(hs, SaysUpgrade) && !Any(hs, SaysChunked)
  {
    forall i | 0 <= i < |hs|
      ensures WellFormed(hs[i]) && !NamesCoding(hs[i]) && !HasLength(hs[i]) && !SaysUpgrade(hs[i]) && !SaysChunked(hs[i])
    {
      assert IsPlain(hs[i]);
      if InAnyCase(hs[i].0, "transfer-encoding") { BeginsWithItself(hs[i].0, "transfer-encoding"); }
    }
  }

  lemma BeginsWithItself(s: string, w: string)
    requires InAnyCase(s, w)
    ensures BeginsInAnyCase(s, w)
  {
    assert s[..|w|] == s;
  }

  /** Plain headers and one more. */
  lemma PlainAndOne(hs: seq<Header>, h: Header)
    requires ArePlain(hs) && WellFormed(h)
    ensures GoodHeaders(hs + [h])
    ensures Any(hs + [h], NamesCoding) == NamesCoding(h) && Any(hs + [h], HasLength) == HasLength(h)
    ensures Any(hs + [h], SaysUpgrade) == SaysUpgrade(h) && Any(hs + [h], SaysChunked) == SaysChunked(h)
    ensures Any(hs + [h], SaysClose) == (Any(hs, SaysClose) || SaysClose(h))
    ensures HasLength(h) ==> LengthOf(hs + [h]) == Decimal(0, h.1)
    ensures HeadersText(hs + [h]) == HeadersText(hs) + HeaderText(h) && Kept(hs + [h]) == hs + [h]
  {
    hide WellFormed, ArePlain, Any, InAnyCase, BeginsInAnyCase, HeaderText;
    PlainSaysNothing(hs);
    SomeMore(hs, h, NamesCoding);
    SomeMore(hs, h, HasLength);
    SomeMore(hs, h, SaysUpgrade);
    SomeMore(hs, h, SaysChunked);
    SomeMore(hs, h, SaysClose);
    assert (hs + [h])[..|hs|] == hs;
    NoLength(hs);
    AllKept(hs, h);
  }

  lemma NoLength(hs: seq<Header>)
    requires !Any(hs, HasLength)
    ensures forall i :: 0 <= i < |hs| ==> !HasLength(hs[i])
  {
  }

  lemma AllKept(hs: seq<Header>, h: Header)
    requires ArePlain(hs)
    ensures Kept(hs + [h]) == hs + [h]
  {
    hide IsPlain;
    KeptAll(hs + [h]);
    forall i | 0 <= i < |hs| ensures (hs + [h])[i].1 != "" {
      assert IsPlain(hs[i]);
      PlainHasValue(hs[i]);
    }
  }

  lemma PlainHasValue(h: Header)
    requires IsPlain(h)
    ensures h.1 != ""
  {
  }

  /** A request of version 1.1 for a path, with plain headers and, as the last one, the
      length of its data or the chunked coding. */
  function RequestText(meth: nat, url: string, hs: seq<Header>, last: Header): string {
    MethodName(meth) + " " + url + " HTTP/1.1\r\n" + HeadersText(hs) + last.0 + ": " + last.1 + "\r\n\r\n"
  }

  lemma RequestTextIs(meth: nat, url: string, hs: seq<Header>, last: Header)
    ensures RequestText(meth, url, hs, last) == HeadText(Head(meth, url, '1', '1', hs + [last]))
  {
    hide MethodName;
    var all := hs + [last];
    assert all[..|hs|] == hs;
    var line := MethodName(meth) + " " + url;
    assert VersionText('1', '1') == " HTTP/1.1\r\n";
    assert HeadersText(all) == HeadersText(hs) + HeaderText(last);
    assert line + " HTTP/1.1\r\n" + (HeadersText(hs) + HeaderText(last)) + "\r\n" == RequestText(meth, url, hs, last);
  }

  /** What the application gets of it. */
  function Delivered(meth: nat, url: string, hs: seq<Header>, last: Header, body: string): App {
    NewApp.(meth := meth, url := url, headers := hs + [last], body := body, complete := true,
            conn := Some(Conn(1, 1, true, Any(hs, SaysClose), false)))
  }

  predicate ForPath(meth: nat, url: string) {
    meth < |METHOD_STRINGS| && meth != CONNECT && url != "" && url[0] == '/' && IsPath(url[1..])
  }

  /** Data behind its length, written in decimal under any spelling of the name, is the
      body of the request. */
  lemma LengthIsRead(meth: nat, url: string, hs: seq<Header>, name: string, data: string, s: Sys)
    requires ForPath(meth, url) && ArePlain(hs) && InAnyCase(name, "content-length") && |data| < 0xFFFF_FFFF_FFFF_FFF0
    requires AtBegin(s) && |RequestText(meth, url, hs, (name, DecimalText(|data|)))| <= 81920
    ensures var last := (name, DecimalText(|data|)); var s' := RunAll(s, RequestText(meth, url, hs, last) + data);
      s'.core.errno == OK && s'.app == Delivered(meth, url, hs, last, data)
  {
    hide RunAll, ArePlain, Any, InAnyCase, BeginsInAnyCase, HeadText, RequestText, WellFormed, GoodUrl, Kept, DecimalText, Decimal,
      GoodHeaders, LengthOf, HeadersText;
    var last := (name, DecimalText(|data|));
    var r := Head(meth, url, '1', '1', hs + [last]);
    PathIsGood(meth, url);
    LengthHeader(name, |data|);
    PlainAndOne(hs, last);
    RequestTextIs(meth, url, hs, last);
    DecimalReads(|data|);
    MessageIsRead(r, if data == "" then Nothing else Plain(data), s);
  }

  lemma LengthHeader(name: string, n: nat)
    requires InAnyCase(name, "content-length") && n < 0xFFFF_FFFF_FFFF_FFF0
    ensures var h := (name, DecimalText(n));
      WellFormed(h) && HasLength(h) && !NamesCoding(h) && !SaysUpgrade(h) && !SaysChunked(h) && !SaysClose(h)
  {
    hide DecimalText, Decimal;
    NamesApart(name);
    LengthsFit(n);
    DecimalReads(n);
    var v := DecimalText(n);
    assert !BeginsInAnyCase(name, "transfer-encoding");
    forall i | 0 <= i < |v| ensures IsFieldChar(v[i]) { assert IsNum(v[i]); }
    assert v[0] != ' ' && v[0] != '\t' by { assert IsNum(v[0]); }
    forall i | 0 <= i < |name| ensures IsTchar(name[i]) { assert SameLetter(name[i], "content-length"[i]); }
  }

  // ----- the chunked coding ---------------------------------------------------------------------------

  function Joined(pieces: seq<string>): string {
    if pieces == [] then "" else Joined(pieces[..|pieces| - 1]) + pieces[|pieces| - 1]
  }

  /** Each piece behind its size in hexadecimal digits. */
  function PiecesText(pieces: seq<string>, upper: bool): string {
    if pieces == [] then ""
    else
      var last := pieces[|pieces| - 1];
      PiecesText(pieces[..|pieces| - 1], upper) + HexText(|last|, upper) + "\r\n" + last + "\r\n"
  }

  predicate GoodPieces(pieces: seq<string>) { forall i :: 0 <= i < |pieces| ==> 0 < |pieces[i]| < 0xFFFF_FFFF_FFFF_FFF0 }

  function ChunksOf(pieces: seq<string>, upper: bool): (cs: seq<Chunk>)
    ensures |cs| == |pieces|
  {
    if pieces == [] then []
    else
      var last := pieces[|pieces| - 1];
      ChunksOf(pieces[..|pieces| - 1], upper) + [Chunk(HexText(|last|, upper), "", last)]
  }

  lemma {:induction false} PiecesAreChunks(pieces: seq<string>, upper: bool)
    requires GoodPieces(pieces)
    ensures var cs := ChunksOf(pieces, upper);
      GoodChunks(cs) && ChunksText(cs) == PiecesText(pieces, upper) && DataOf(cs) == Joined(pieces)
  {
    hide GoodChunk, HexText;
    if pieces != [] {
      var front, last := pieces[..|pieces| - 1], pieces[|pieces| - 1];
      PiecesAreChunks(front, upper);
      SizedChunk(last, upper);
      var cs, size := ChunksOf(pieces, upper), HexText(|last|, upper);
      assert cs[..|pieces| - 1] == ChunksOf(front, upper);
      assert PiecesText(front, upper) + size + "\r\n" + last + "\r\n"
        == PiecesText(front, upper) + (size + "" + "\r\n" + last + "\r\n");
    }
  }

  /** Pieces behind their sizes, under any spelling of the words, are together the body of
      the request. */
  lemma ChunkedIsRead(meth: nat, url: string, hs: seq<Header>, name: string, coding: string, pieces: seq<string>, upper: bool,
                      s: Sys)
    requires ForPath(meth, url) && ArePlain(hs) && InAnyCase(name, "transfer-encoding") && InAnyCase(coding, "chunked")
    requires GoodPieces(pieces) && AtBegin(s) && |RequestText(meth, url, hs, (name, coding))| <= 81920
    ensures var last := (name, coding);
      var s' := RunAll(s, RequestText(meth, url, hs, last) + PiecesText(pieces, upper) + "0\r\n\r\n");
      s'.core.errno == OK && s'.app == Delivered(meth, url, hs, last, Joined(pieces))
  {
    hide RunAll, ArePlain, Any, InAnyCase, BeginsInAnyCase, HeadText, RequestText, WellFormed, GoodUrl, Kept, GoodHeaders, LengthOf,
      HeadersText, GoodPieces, PiecesText, ChunksOf, Joined, GoodChunks;
    var last := (name, coding);
    var r := Head(meth, url, '1', '1', hs + [last]);
    var head, text := RequestText(meth, url, hs, last), PiecesText(pieces, upper);
    PathIsGood(meth, url);
    CodingHeader(name, coding);
    PlainAndOne(hs, last);
    RequestTextIs(meth, url, hs, last);
    PiecesAreChunks(pieces, upper);
    LastChunk();
    assert head + (text + "0\r\n" + "\r\n") == head + text + "0\r\n\r\n";
    MessageIsRead(r, Coded(ChunksOf(pieces, upper), Chunk("0", "", "")), s);
  }

  lemma LastChunk()
    ensures IsLast(Chunk("0", "", "")) && HttpBody.LineText(Chunk("0", "", "")) == "0\r\n"
  {
    assert "0"[..0] == "";
    UnhexIsHexadecimal(0, '0');
  }

  lemma CodingHeader(name: string, coding: string)
    requires InAnyCase(name, "transfer-encoding") && InAnyCase(coding, "chunked")
    ensures var h := (name, coding);
      WellFormed(h) && !HasLength(h) && NamesCoding(h) && !SaysUpgrade(h) && SaysChunked(h) && !SaysClose(h)
  {
    NamesApart(name);
    BeginsWithItself(name, "transfer-encoding");
    forall i | 0 <= i < |name| ensures IsTchar(name[i]) { assert SameLetter(name[i], "transfer-encoding"[i]); }
    forall i | 0 <= i < |coding| ensures IsFieldChar(coding[i]) && coding[i] != ' ' && coding[i] != '\t' && coding[i] != ',' {
      assert SameLetter(coding[i], "chunked"[i]);
    }
    assert Bare(coding) == coding;
  }

  /** Headers over the limit are refused: the byte that would be number 81921 stops the
      parser. */
  lemma LimitIsKept(s: Sys, ch: char, next: Option<char>)
    requires !Stopped(s) && CountsBytes(s.core.state) && s.core.nread == 81920
    ensures Step(s, ch, next).core.errno == HeaderOverflow && Step(s, ch, next).app == s.app
  {
  }

  lemma HeadEnds(r: Head)
    ensures HeadText(r) != "" && HeadText(r)[|HeadText(r)| - 1] == LF
  {
  }

  lemma CountIsPositive(r: Head, a: bool, l: bool)
    requires GoodHeaders(r.headers) && FramingOf(r, a, l).Counted?
    ensures FramingOf(r, a, l).length > 0
  {
  }

  lemma HeadHasNoBody(r: Head)
    ensures HeadApp(r).body == "" && !HeadApp(r).complete && forall t: string :: "" + t == t
  {
  }
}
