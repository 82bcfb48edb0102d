/** The control states of the request parser and what one byte does in each: the
    switch of `http_parser_execute`, with marks and callbacks as actions. */
module HttpStep {
  import opened Wrappers
  import opened HttpBytes

  datatype State =
    | Dead | StartReq | ReqMethod | ReqSpacesBeforeUrl
    | ReqSchema | ReqSchemaSlash | ReqSchemaSlashSlash | ReqServerStart | ReqServer | ReqServerWithAt
    | ReqPath | ReqQueryStringStart | ReqQueryString
    | ReqHttpStart | ReqHttpH | ReqHttpHT | ReqHttpHTT | ReqHttpHTTP | ReqHttpI | ReqHttpIC
    | ReqHttpMajor | ReqHttpDot | ReqHttpMinor | ReqHttpEnd | ReqLineAlmostDone
    | HeaderFieldStart | HeaderField
    | HeaderValueDiscardWs | HeaderValueDiscardWsAlmostDone | HeaderValueDiscardLws
    | HeaderValueStart | HeaderValue | HeaderValueLws | HeaderAlmostDone
    | ChunkSizeStart | ChunkSize | ChunkParameters | ChunkSizeAlmostDone
    | HeadersAlmostDone | HeadersDone
    | ChunkData | ChunkDataAlmostDone | ChunkDataDone
    | BodyIdentity | BodyIdentityEof | MessageDone

  datatype HeaderState =
    | General | C | CO | CON
    | MatchingConnection | MatchingProxyConnection | MatchingContentLength
    | MatchingTransferEncoding | MatchingUpgrade
    | Connection | ContentLength | ContentLengthNum | ContentLengthWs | TransferEncoding | Upgrade
    | MatchingTokenStart | MatchingChunked | MatchingToken
    | MatchingKeepAlive | MatchingClose
    | Chunked | KeepAlive | Close

  datatype Errno =
    | OK | InvalidEofState | HeaderOverflow | ClosedConnection | InvalidVersion | InvalidMethod
    | InvalidUrl | LfExpected | InvalidHeaderToken | InvalidContentLength | UnexpectedContentLength
    | InvalidChunkSize | InvalidConstant | Strict | InvalidTransferEncoding

  datatype Flags = Flags(chunked: bool, keepAlive: bool, close: bool, trailing: bool, upgrade: bool,
                         skipBody: bool, contentLength: bool)

  const NoFlags := Flags(false, false, false, false, false, false, false)

  /** `struct http_parser`. */
  datatype Core = Core(
    state: State,
    headerState: HeaderState,
    index: nat,
    flags: Flags,
    usesTransferEncoding: bool,
    allowChunkedLength: bool,
    lenient: bool,
    nread: nat,
    contentLength: nat,
    major: int,
    minor: int,
    meth: nat,
    errno: Errno,
    upgrade: bool)

  /** `http_parser_init`; the two leniency bits are settings of the embedder. */
  function Init(allowChunkedLength: bool, lenient: bool): Core {
    Core(StartReq, General, 0, NoFlags, false, allowChunkedLength, lenient, 0, 0, 0, 0, DELETE, OK, false)
  }

  // ----- actions: marks and callbacks ----------------------------------------------

  datatype Kind = Url | Field | Value | Body

  /** What the callback for complete headers takes from the parser. */
  datatype Conn = Conn(major: int, minor: int, keepAlive: bool, closeConnection: bool, upgrade: bool)

  /** `HTTPParser::set_connection_parameters`. */
  function ConnOf(c: Core): Conn {
    var v10, v11 := c.major == 1 && c.minor == 0, c.major == 1 && c.minor == 1;
    Conn(c.major, c.minor,
         if v10 then c.flags.keepAlive else v11,
         if v10 then !c.flags.keepAlive else v11 && c.flags.close,
         c.upgrade)
  }

  datatype Act =
    | Mark(kind: Kind)          // CROW_MARK
    | Emit(kind: Kind)          // CROW_CALLBACK_DATA and its NOADVANCE form
    | EmitThrough(kind: Kind)   // the same, with the current byte
    | OnMethod(meth: nat)
    | OnHeadersComplete(conn: Conn)
    | OnMessageComplete

  datatype Outcome = Outcome(core: Core, acts: seq<Act>)

  function Fail(c: Core, e: Errno): Outcome { Outcome(c.(errno := e), []) }

  function Go(c: Core, s: State): Outcome { Outcome(c.(state := s), []) }

  function Then(acts: seq<Act>, r: Outcome): Outcome { Outcome(r.core, acts + r.acts) }

  /** `CROW_PARSING_HEADER`. */
  predicate CountsBytes(s: State) {
    !(s.ChunkData? || s.ChunkDataAlmostDone? || s.ChunkDataDone? || s.BodyIdentity? || s.BodyIdentityEof? || s.MessageDone?)
  }

  predicate InUrl(s: State) {
    s.ReqSchema? || s.ReqSchemaSlash? || s.ReqSchemaSlashSlash? || s.ReqServerStart? || s.ReqServer?
    || s.ReqServerWithAt? || s.ReqPath? || s.ReqQueryStringStart? || s.ReqQueryString?
  }

  // ----- the request line -------------------------------------------------------------

  function FirstMethod(ch: char): Option<nat> {
    match ch
    case 'A' => Some(ACL)
    case 'B' => Some(BIND)
    case 'C' => Some(CONNECT)
    case 'D' => Some(DELETE)
    case 'G' => Some(GET)
    case 'H' => Some(HEAD)
    case 'L' => Some(LOCK)
    case 'M' => Some(MKCOL)
    case 'N' => Some(NOTIFY)
    case 'O' => Some(OPTIONS)
    case 'P' => Some(POST)
    case 'R' => Some(REPORT)
    case 'S' => Some(SUBSCRIBE)
    case 'T' => Some(TRACE)
    case 'U' => Some(UNLOCK)
    case _ => None
  }

  /** The `CROW_XX` table: the method a different letter at `index` turns to. */
  function TurnMethod(meth: nat, index: nat, ch: char): Option<nat> {
    if meth == POST && index == 1 && ch == 'U' then Some(PUT)
    else if meth == POST && index == 1 && ch == 'A' then Some(PATCH)
    else if meth == POST && index == 1 && ch == 'R' then Some(PROPFIND)
    else if meth == PUT && index == 2 && ch == 'R' then Some(PURGE)
    else if meth == CONNECT && index == 1 && ch == 'H' then Some(CHECKOUT)
    else if meth == CONNECT && index == 2 && ch == 'P' then Some(COPY)
    else if meth == MKCOL && index == 1 && ch == 'O' then Some(MOVE)
    else if meth == MKCOL && index == 1 && ch == 'E' then Some(MERGE)
    else if meth == MKCOL && index == 1 && ch == '-' then Some(MSEARCH)
    else if meth == MKCOL && index == 2 && ch == 'A' then Some(MKACTIVITY)
    else if meth == MKCOL && index == 3 && ch == 'A' then Some(MKCALENDAR)
    else if meth == SUBSCRIBE && index == 1 && ch == 'E' then Some(SEARCH)
    else if meth == SUBSCRIBE && index == 1 && ch == 'O' then Some(SOURCE)
    else if meth == REPORT && index == 2 && ch == 'B' then Some(REBIND)
    else if meth == PROPFIND && index == 4 && ch == 'P' then Some(PROPPATCH)
    else if meth == LOCK && index == 1 && ch == 'I' then Some(LINK)
    else if meth == UNLOCK && index == 2 && ch == 'S' then Some(UNSUBSCRIBE)
    else if meth == UNLOCK && index == 2 && ch == 'B' then Some(UNBIND)
    else if meth == UNLOCK && index == 3 && ch == 'I' then Some(UNLINK)
    else None
  }

  function StartReqByte(c: Core, ch: char): Outcome {
    if ch == CR || ch == LF then Outcome(c, [])
    else
      var c1 := c.(flags := NoFlags, usesTransferEncoding := false, contentLength := ULLONG_MAX);
      if !IsAlpha(ch) then Fail(c1, InvalidMethod)
      else
        var m := FirstMethod(ch);
        if m.None? then Fail(c1, InvalidMethod)
        else Go(c1.(meth := m.value, index := 1), ReqMethod)
  }

  /** The method and the state after a byte of the method; none is an error. */
  function NextMethod(meth: nat, index: nat, ch: char): Option<(nat, State)> {
    var name := MethodName(meth);
    if ch == '\0' then None
    else if ch == ' ' && At(name, index) == '\0' then Some((meth, ReqSpacesBeforeUrl))
    else if ch == At(name, index) then Some((meth, ReqMethod))
    else if 'A' <= ch <= 'Z' || ch == '-' then
      var m :- TurnMethod(meth, index, ch);
      Some((m, ReqMethod))
    else None
  }

  function MethodByte(c: Core, ch: char): Outcome {
    match NextMethod(c.meth, c.index, ch)
    case None => Fail(c, InvalidMethod)
    case Some((m, s)) => Outcome(c.(meth := m, index := c.index + 1, state := s), [OnMethod(m)])
  }

  /** `parse_url_char`. */
  function UrlChar(s: State, ch: char): State {
    if ch == ' ' || ch == CR || ch == LF || ch == '\t' || ch as int == 12 then Dead
    else match s
      case ReqSpacesBeforeUrl =>
        if ch == '/' || ch == '*' then ReqPath else if IsAlpha(ch) then ReqSchema else Dead
      case ReqSchema => if IsAlpha(ch) then s else if ch == ':' then ReqSchemaSlash else Dead
      case ReqSchemaSlash => if ch == '/' then ReqSchemaSlashSlash else Dead
      case ReqSchemaSlashSlash => if ch == '/' then ReqServerStart else Dead
      case ReqServerWithAt => if ch == '@' then Dead else ServerChar(ch)
      case ReqServerStart => ServerChar(ch)
      case ReqServer => ServerChar(ch)
      case ReqPath => if IsUrlChar(ch) then s else if ch == '?' then ReqQueryStringStart else Dead
      case ReqQueryStringStart => if IsUrlChar(ch) || ch == '?' then ReqQueryString else Dead
      case ReqQueryString => if IsUrlChar(ch) || ch == '?' then ReqQueryString else Dead
      case _ => Dead
  }

  function ServerChar(ch: char): State {
    if ch == '/' then ReqPath
    else if ch == '?' then ReqQueryStringStart
    else if ch == '@' then ReqServerWithAt
    else if IsUserinfoChar(ch) || ch == '[' || ch == ']' then ReqServer
    else Dead
  }

  function GoUrl(c: Core, s: State): Outcome {
    if s.Dead? then Fail(c.(state := Dead), InvalidUrl) else Go(c, s)
  }

  function SpacesBeforeUrlByte(c: Core, ch: char): Outcome {
    if ch == ' ' then Outcome(c, [])
    else
      var s := if c.meth == CONNECT then ReqServerStart else c.state;
      Then([Mark(Url)], GoUrl(c, UrlChar(s, ch)))
  }

  /** The end of the URL; without a blank the request is one of HTTP/0.9. */
  function UrlEndByte(c: Core, ch: char): Outcome {
    if c.state.ReqSchema? || c.state.ReqSchemaSlash? || c.state.ReqSchemaSlashSlash? || c.state.ReqServerStart? then
      Fail(c, InvalidUrl)
    else if ch == ' ' then Outcome(c.(state := ReqHttpStart), [Emit(Url)])
    else if c.meth != GET then Fail(c.(state := Dead), InvalidVersion)
    else
      Outcome(c.(major := 0, minor := 9, state := if ch == CR then ReqLineAlmostDone else HeaderFieldStart), [Emit(Url)])
  }

  function UrlByte(c: Core, ch: char): Outcome {
    if ch == ' ' || ch == CR || ch == LF then UrlEndByte(c, ch) else GoUrl(c, UrlChar(c.state, ch))
  }

  function Expect(c: Core, ch: char, expected: char, s: State): Outcome {
    if ch != expected then Fail(c, Strict) else Go(c, s)
  }

  predicate InVersion(s: State) {
    s.ReqHttpStart? || s.ReqHttpH? || s.ReqHttpHT? || s.ReqHttpHTT? || s.ReqHttpHTTP? || s.ReqHttpI? || s.ReqHttpIC?
    || s.ReqHttpMajor? || s.ReqHttpDot? || s.ReqHttpMinor? || s.ReqHttpEnd? || s.ReqLineAlmostDone?
  }

  /** The states from the blank after the URL to the end of the request line. */
  function NextVersion(s: State, ch: char, meth: nat): NextState
    requires InVersion(s)
  {
    match s
    case ReqHttpStart =>
      if ch == ' ' then To(s)
      else if ch == 'H' then To(ReqHttpH)
      else if ch == 'I' && meth == SOURCE then To(ReqHttpI)
      else Stop(InvalidConstant)
    case ReqHttpH => if ch == 'T' then To(ReqHttpHT) else Stop(Strict)
    case ReqHttpHT => if ch == 'T' then To(ReqHttpHTT) else Stop(Strict)
    case ReqHttpHTT => if ch == 'P' then To(ReqHttpHTTP) else Stop(Strict)
    case ReqHttpI => if ch == 'C' then To(ReqHttpIC) else Stop(Strict)
    case ReqHttpIC => if ch == 'E' then To(ReqHttpHTTP) else Stop(Strict)
    case ReqHttpHTTP => if ch == '/' then To(ReqHttpMajor) else Stop(Strict)
    case ReqHttpMajor => if IsNum(ch) then To(ReqHttpDot) else Stop(InvalidVersion)
    case ReqHttpDot => if ch == '.' then To(ReqHttpMinor) else Stop(InvalidVersion)
    case ReqHttpMinor => if IsNum(ch) then To(ReqHttpEnd) else Stop(InvalidVersion)
    case ReqHttpEnd =>
      if ch == CR then To(ReqLineAlmostDone)
      else if ch == LF then To(HeaderFieldStart)
      else Stop(InvalidVersion)
    case ReqLineAlmostDone => if ch == LF then To(HeaderFieldStart) else Stop(LfExpected)
  }

  datatype NextState = To(s: State) | Stop(e: Errno)

  function VersionByte(c: Core, ch: char): Outcome
    requires InVersion(c.state)
  {
    match NextVersion(c.state, ch, c.meth)
    case Stop(e) => Fail(c, e)
    case To(s) =>
      var digit := ch as int - '0' as int;
      Go(c.(major := if c.state.ReqHttpMajor? then digit else c.major,
            minor := if c.state.ReqHttpMinor? then digit else c.minor), s)
  }

  // ----- the end of the headers ----------------------------------------------------------

  function HeadersDoneByte(c: Core, ch: char): Outcome {
    if ch != LF then Fail(c, Strict)
    else
      var c1 := c.(nread := 0);
      if c.upgrade || c.flags.skipBody then Outcome(c1, [OnMessageComplete])
      else if c.flags.chunked then Go(c1, ChunkSizeStart)
      else if c.usesTransferEncoding then
        if !c.lenient then Fail(c1, InvalidTransferEncoding) else Go(c1, BodyIdentityEof)
      else if c.contentLength != 0 && c.contentLength != ULLONG_MAX then Go(c1, BodyIdentity)
      else Outcome(c1, [OnMessageComplete])
  }

  function HeadersAlmostDoneByte(c: Core, ch: char): Outcome {
    if ch != LF then Fail(c, Strict)
    else if c.flags.trailing then Outcome(c, [OnMessageComplete])
    else if c.usesTransferEncoding && c.flags.contentLength
         && (if c.flags.chunked then !c.allowChunkedLength else !c.lenient) then
      Fail(c, UnexpectedContentLength)
    else
      var c1 := c.(state := HeadersDone, upgrade := c.flags.upgrade || c.meth == CONNECT);
      Then([OnHeadersComplete(ConnOf(c1))], HeadersDoneByte(c1, ch))
  }

  // ----- header fields ----------------------------------------------------------------------

  function HeaderFieldStartByte(c: Core, ch: char): Outcome {
    if ch == CR then Go(c, HeadersAlmostDone)
    else if ch == LF then HeadersAlmostDoneByte(c.(state := HeadersAlmostDone), ch)
    else
      var t := Token(ch);
      if t == '\0' then Fail(c, InvalidHeaderToken)
      else
        var h := match t
          case 'c' => C
          case 'p' => MatchingProxyConnection
          case 't' => MatchingTransferEncoding
          case 'u' => MatchingUpgrade
          case _ => General;
        Outcome(c.(index := 0, headerState := h, state := HeaderField), [Mark(Field)])
  }

  /** The header state and index after a letter. */
  datatype Letter = Letter(h: HeaderState, index: nat)

  /** One more letter of a name that is compared to `name`. */
  function MatchLetter(h: HeaderState, index: nat, t: char, name: string, mismatch: HeaderState, matched: HeaderState): Letter {
    var i := index + 1;
    if i > |name| || t != At(name, i) then Letter(mismatch, i)
    else if i == |name| - 1 then Letter(matched, i)
    else Letter(h, i)
  }

  /** The switch of `s_header_field` for a token `t`. */
  function NextField(h: HeaderState, i: nat, t: char): Letter {
    match h
    case General => Letter(h, i)
    case C => Letter(if t == 'o' then CO else General, i + 1)
    case CO => Letter(if t == 'n' then CON else General, i + 1)
    case CON =>
      Letter(if t == 'n' then MatchingConnection else if t == 't' then MatchingContentLength else General, i + 1)
    case MatchingConnection => MatchLetter(h, i, t, "connection", General, Connection)
    case MatchingProxyConnection => MatchLetter(h, i, t, "proxy-connection", General, Connection)
    case MatchingContentLength => MatchLetter(h, i, t, "content-length", General, ContentLength)
    case MatchingTransferEncoding => MatchLetter(h, i, t, "transfer-encoding", General, TransferEncoding)
    case MatchingUpgrade => MatchLetter(h, i, t, "upgrade", General, Upgrade)
    case _ => Letter(General, i)  // a matched name goes on: a token is not ' '
  }

  function FieldLetter(c: Core, t: char): Core {
    var l := NextField(c.headerState, c.index, t);
    c.(headerState := l.h, index := l.index,
       usesTransferEncoding := c.usesTransferEncoding || (c.headerState.MatchingTransferEncoding? && l.h.TransferEncoding?))
  }

  function HeaderFieldByte(c: Core, ch: char): Outcome {
    var t := Token(ch);
    if t != '\0' then Outcome(FieldLetter(c, t), [])
    else if ch == ':' then Outcome(c.(state := HeaderValueDiscardWs), [Emit(Field)])
    else Fail(c, InvalidHeaderToken)
  }

  // ----- header values -------------------------------------------------------------------------

  /** The header state that the first byte of a value leads to. */
  function NextStart(h: HeaderState, ch: char): HeaderState {
    var l := Lower(ch);
    match h
    case TransferEncoding => if l == 'c' then MatchingChunked else MatchingToken
    case MatchingTokenStart => h
    case ContentLengthWs => h
    case ContentLength => ContentLengthNum
    case Connection =>
      if l == 'k' then MatchingKeepAlive
      else if l == 'c' then MatchingClose
      else if l == ' ' || l == '\t' then Connection
      else General
    case _ => General
  }

  /** `s_header_value_start`; `next` is the byte after `ch` in the same buffer. */
  function ValueStartByte(c: Core, ch: char, next: Option<char>): Outcome {
    var c1 := c.(state := HeaderValue, index := 0, headerState := NextStart(c.headerState, ch));
    if c.headerState.Upgrade? && (ch != 'h' || next != Some('2')) then
      Outcome(c1.(flags := c1.flags.(upgrade := true)), [Mark(Value)])
    else if c.headerState.ContentLength? then
      if !IsNum(ch) then Fail(c1, InvalidContentLength)
      else if c.flags.contentLength then Fail(c1, UnexpectedContentLength)
      else
        Outcome(c1.(flags := c1.flags.(contentLength := true), contentLength := ch as int - '0' as int), [Mark(Value)])
    else Outcome(c1, [Mark(Value)])
  }

  function DigitStep(c: Core, ch: char): Outcome {
    var c1 := c.(headerState := ContentLengthNum);
    if ch == ' ' then Outcome(c.(headerState := ContentLengthWs), [])
    else if !IsNum(ch) then Fail(c1, InvalidContentLength)
    else if (ULLONG_MAX - 10) / 10 < c.contentLength then Fail(c1, InvalidContentLength)
    else
      Outcome(c1.(contentLength := (c.contentLength * 10 + (ch as int - '0' as int)) % (ULLONG_MAX + 1)), [])
  }

  /** The switch of `s_header_value` in the states that compare words. */
  function NextValue(h: HeaderState, i: nat, ch: char): Letter {
    var l := Lower(ch);
    match h
    case General => Letter(h, i)
    case Connection => Letter(h, i)        // asserted not to happen
    case TransferEncoding => Letter(h, i)  // asserted not to happen
    case MatchingTokenStart =>
      Letter(if l == 'c' then MatchingChunked
             else if Token(l) != '\0' then MatchingToken
             else if l == ' ' || l == '\t' then MatchingTokenStart
             else General, i)
    case MatchingChunked => MatchLetter(h, i, l, "chunked", MatchingToken, Chunked)
    case MatchingToken => if ch == ',' then Letter(MatchingTokenStart, 0) else Letter(h, i)
    case MatchingKeepAlive => MatchLetter(h, i, l, "keep-alive", General, KeepAlive)
    case MatchingClose => MatchLetter(h, i, l, "close", General, Close)
    case Chunked => Letter(if ch != ' ' then MatchingToken else h, i)
    case KeepAlive => Letter(if ch != ' ' then General else h, i)
    case Close => Letter(if ch != ' ' then General else h, i)
    case _ => Letter(General, i)
  }

  /** The switch of `s_header_value` for a byte other than CR and LF. */
  function ValueLetter(c: Core, ch: char): Outcome {
    if !c.lenient && !IsHeaderChar(ch) then Fail(c, InvalidHeaderToken)
    else if c.headerState.ContentLengthNum? || (c.headerState.ContentLength? && ch != ' ') then DigitStep(c, ch)
    else if c.headerState.ContentLength? then Outcome(c, [])
    else if c.headerState.ContentLengthWs? then
      if ch == ' ' then Outcome(c, []) else Fail(c, InvalidContentLength)
    else
      var l := NextValue(c.headerState, c.index, ch);
      Outcome(c.(headerState := l.h, index := l.index), [])
  }

  function HeaderValueByte(c: Core, ch: char): Outcome {
    if ch == CR then Outcome(c.(state := HeaderAlmostDone), [Emit(Value)])
    else if ch == LF then Outcome(c.(state := HeaderValueLws), [Emit(Value)])
    else ValueLetter(c, ch)
  }

  function ValueDiscardWsByte(c: Core, ch: char, next: Option<char>): Outcome {
    if ch == ' ' || ch == '\t' then Outcome(c, [])
    else if ch == CR then Go(c, HeaderValueDiscardWsAlmostDone)
    else if ch == LF then Go(c, HeaderValueDiscardLws)
    else ValueStartByte(c, ch, next)
  }

  /** The flags after a header whose value ended in state `h`. */
  function WithHeader(f: Flags, h: HeaderState): Flags {
    match h
    case KeepAlive => f.(keepAlive := true)
    case Close => f.(close := true)
    case Chunked => f.(chunked := true)
    case _ => f
  }

  function ValueLwsByte(c: Core, ch: char, next: Option<char>): Outcome {
    if ch == ' ' || ch == '\t' then
      var c1 := if c.headerState == ContentLengthNum then c.(headerState := ContentLengthWs) else c;
      ValueStartByte(c1.(state := HeaderValueStart), ch, next)
    else HeaderFieldStartByte(c.(flags := WithHeader(c.flags, c.headerState), state := HeaderFieldStart), ch)
  }

  function ValueDiscardLwsByte(c: Core, ch: char): Outcome {
    if ch == ' ' || ch == '\t' then Go(c, HeaderValueDiscardWs)
    else Then([Mark(Value), Emit(Value)], HeaderFieldStartByte(c.(state := HeaderFieldStart), ch))
  }

  // ----- bodies ------------------------------------------------------------------------------------

  predicate IsChunkState(s: State) {
    s.ChunkSizeStart? || s.ChunkSize? || s.ChunkParameters? || s.ChunkSizeAlmostDone?
    || s.ChunkDataAlmostDone? || s.ChunkDataDone?
  }

  function ChunkSizeByte(c: Core, ch: char): Outcome {
    var v := Unhex(ch);
    if ch == CR then Go(c, ChunkSizeAlmostDone)
    else if v == -1 then
      if ch == ';' || ch == ' ' then Go(c, ChunkParameters) else Fail(c, InvalidChunkSize)
    else if (ULLONG_MAX - 16) / 16 < c.contentLength then Fail(c, InvalidContentLength)
    else Outcome(c.(contentLength := (c.contentLength * 16 + v) % (ULLONG_MAX + 1)), [])
  }

  function ChunkSizeDoneByte(c: Core, ch: char): Outcome {
    if ch != LF then Fail(c, Strict)
    else
      var c1 := c.(nread := 0);
      if c.contentLength == 0 then Go(c1.(flags := c1.flags.(trailing := true)), HeaderFieldStart)
      else Go(c1, ChunkData)
  }

  function ChunkByte(c: Core, ch: char): Outcome
    requires IsChunkState(c.state)
  {
    match c.state
    case ChunkSizeStart =>
      if Unhex(ch) == -1 then Fail(c, InvalidChunkSize) else Go(c.(contentLength := Unhex(ch)), ChunkSize)
    case ChunkSize => ChunkSizeByte(c, ch)
    case ChunkParameters => if ch == CR then Go(c, ChunkSizeAlmostDone) else Outcome(c, [])
    case ChunkSizeAlmostDone => ChunkSizeDoneByte(c, ch)
    case ChunkDataAlmostDone =>
      if ch != CR then Fail(c, Strict) else Outcome(c.(state := ChunkDataDone), [Emit(Body)])
    case ChunkDataDone => if ch != LF then Fail(c, Strict) else Go(c.(nread := 0), ChunkSizeStart)
  }

  /** One byte of counted data. The source asserts that the count is positive. */
  function DataByte(c: Core, ch: char): Outcome {
    var c1 := c.(contentLength := if c.contentLength > 0 then c.contentLength - 1 else 0);
    if c1.contentLength > 0 then Outcome(c1, [Mark(Body)])
    else if c.state.ChunkData? then Outcome(c1.(state := ChunkDataAlmostDone), [Mark(Body)])
    else Outcome(c1.(state := MessageDone), [Mark(Body), EmitThrough(Body), OnMessageComplete])
  }

  // ----- the switch ----------------------------------------------------------------------------------

  /** What a byte does in the current state, `next` being the byte after it in the
      same buffer. */
  function Trans(c: Core, ch: char, next: Option<char>): Outcome {
    if InVersion(c.state) then VersionByte(c, ch)
    else if InUrl(c.state) then UrlByte(c, ch)
    else if InHeaders(c.state) then HeaderByte(c, ch, next)
    else if IsChunkState(c.state) then ChunkByte(c, ch)
    else match c.state
      case Dead => if ch == CR || ch == LF then Outcome(c, []) else Fail(c, ClosedConnection)
      case StartReq => StartReqByte(c, ch)
      case ReqMethod => MethodByte(c, ch)
      case ReqSpacesBeforeUrl => SpacesBeforeUrlByte(c, ch)
      case BodyIdentityEof => Outcome(c, [Mark(Body)])
      case MessageDone => Outcome(c, [OnMessageComplete])
      case _ => DataByte(c, ch)
  }

  predicate InHeaders(s: State) {
    s.HeaderFieldStart? || s.HeaderField? || s.HeaderValueDiscardWs? || s.HeaderValueDiscardWsAlmostDone?
    || s.HeaderValueDiscardLws? || s.HeaderValueStart? || s.HeaderValue? || s.HeaderAlmostDone? || s.HeaderValueLws?
    || s.HeadersAlmostDone? || s.HeadersDone?
  }

  function HeaderByte(c: Core, ch: char, next: Option<char>): Outcome
    requires InHeaders(c.state)
  {
    match c.state
    case HeaderFieldStart => HeaderFieldStartByte(c, ch)
    case HeaderField => HeaderFieldByte(c, ch)
    case HeaderValueDiscardWs => ValueDiscardWsByte(c, ch, next)
    case HeaderValueDiscardWsAlmostDone => Expect(c, ch, LF, HeaderValueDiscardLws)
    case HeaderValueDiscardLws => ValueDiscardLwsByte(c, ch)
    case HeaderValueStart => ValueStartByte(c, ch, next)
    case HeaderValue => HeaderValueByte(c, ch)
    case HeaderAlmostDone => if ch != LF then Fail(c, LfExpected) else Go(c, HeaderValueLws)
    case HeaderValueLws => ValueLwsByte(c, ch, next)
    case HeadersAlmostDone => HeadersAlmostDoneByte(c, ch)
    case HeadersDone => HeadersDoneByte(c, ch)
  }

  /** The one place where a byte is read together with the byte after it. */
  predicate LooksAhead(c: Core, ch: char) {
    && (c.state.HeaderValueDiscardWs? || c.state.HeaderValueStart?)
    && c.headerState.Upgrade? && ch == 'h'
  }

  lemma NextMattersOnlyThere(c: Core, ch: char, next: Option<char>)
    ensures !(LooksAhead(c, ch) && next == Some('2')) ==> Trans(c, ch, next) == Trans(c, ch, None)
  {
  }
}
