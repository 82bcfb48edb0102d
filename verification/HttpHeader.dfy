/** A header line as a client writes it, and what the parser makes of it: which flags it
    notes, and which pair the request gets. */
module HttpHeader {
  import opened Wrappers
  import opened HttpBytes
  import opened HttpGrammar
  import opened HttpStep
  import opened HttpRun
  import opened HttpCut
  import opened HttpMarks
  import opened HttpRefine
  import opened HttpInv
  import opened HttpLength
  import opened HttpBody
  import opened HttpChunks
  import opened HttpNames
  import opened HttpLine

  // ----- words in a value ------------------------------------------------------------------

  function Lowered(s: string): string {
    if s == "" then "" else Lowered(s[..|s| - 1]) + [Lower(s[|s| - 1])]
  }

  /** A value without the blanks at its end. */
  function Bare(v: string): string {
    if v != "" && v[|v| - 1] == ' ' then Bare(v[..|v| - 1]) else v
  }

  /** The word that a value is: letters in lower case, no blanks at its end. */
  function WordOf(v: string): string { Lowered(Bare(v)) }

  /** A word the parser looks for at the start of a value, and the states for it. */
  datatype Word = Word(text: string, matching: HeaderState, matched: HeaderState, mismatch: HeaderState)

  const KEEP := Word("keep-alive", MatchingKeepAlive, KeepAlive, General)
  const SHUT := Word("close", MatchingClose, Close, General)
  const CHUNKED := Word("chunked", MatchingChunked, Chunked, MatchingToken)

  /** The state after a value so far whose first letter is that of the word. */
  predicate Follows(w: Word, v: string, l: Letter)
    requires v != ""
  {
    if Lowered(v) < w.text then l == Letter(w.matching, |v| - 1)
    else l.h == if WordOf(v) == w.text then w.matched else w.mismatch
  }

  lemma {:induction false} LoweredSize(s: string)
    ensures |Lowered(s)| == |s|
  {
    if s != "" { LoweredSize(s[..|s| - 1]); }
  }

  lemma LoweredMore(s: string, ch: char)
    ensures Lowered(s + [ch]) == Lowered(s) + [Lower(ch)]
  {
    assert (s + [ch])[..|s|] == s;
  }

  lemma BareMore(v: string, ch: char)
    ensures Bare(v + [ch]) == if ch == ' ' then Bare(v) else v + [ch]
  {
    assert (v + [ch])[..|v|] == v;
  }

  lemma {:induction false} BareStarts(v: string)
    ensures Bare(v) <= v && (v != "" && v[0] != ' ' ==> Bare(v) != "" && Lowered(v)[0] == Lower(v[0]) == WordOf(v)[0])
    ensures |Lowered(v)| == |v| && |WordOf(v)| == |Bare(v)|
  {
    LoweredSize(v);
    LoweredSize(Bare(v));
    if v != "" {
      var front := v[..|v| - 1];
      BareStarts(front);
    }
  }

  /** How a word is compared, letter by letter. */
  predicate Compares(w: Word, l: Letter, ch: char, l': Letter) {
    && (l.h == w.matching ==> l' == MatchLetter(l.h, l.index, Lower(ch), w.text, w.mismatch, w.matched))
    && (l.h == w.matched ==> l'.h == if ch == ' ' then w.matched else w.mismatch)
    && (l.h == w.mismatch ==> l'.h == w.mismatch)
  }

  predicate IsWord(w: Word) {
    && |w.text| > 1 && w.text[|w.text| - 1] != ' '
    && w.matching != w.matched && w.matched != w.mismatch && w.mismatch != w.matching
  }

  lemma WordGoes(w: Word, v: string, l: Letter, ch: char, l': Letter)
    requires IsWord(w) && v != "" && Follows(w, v, l) && Compares(w, l, ch, l')
    ensures Follows(w, v + [ch], l')
  {
    LoweredMore(v, ch);
    BareMore(v, ch);
    LoweredSize(v);
    LoweredSize(v + [ch]);
    LoweredSize(Bare(v));
    BareStarts(v);
    assert Lower(' ') == ' ';
    if Lowered(v) < w.text {
      assert Lowered(v) + [Lower(ch)] <= w.text <==> Lower(ch) == w.text[|v|];
    }
  }

  // ----- values ----------------------------------------------------------------------------

  /** A value that does not start with a blank, of characters that a value may have. */
  predicate GoodValue(v: string) {
    v != "" && v[0] != ' ' && v[0] != '\t' && forall i :: 0 <= i < |v| ==> IsHeaderChar(v[i]) && v[i] != CR && v[i] != LF
  }

  /** The digits of a length within the parser's limit. */
  predicate GoodLength(v: string) { v != "" && AllDigits(v) && Decimal(0, v[..|v| - 1]) <= DECIMAL_LIMIT }

  /** The states that a name can end in. */
  predicate NameState(h: HeaderState) {
    match h
    case General | C | CO | CON | MatchingConnection | MatchingProxyConnection | MatchingContentLength
       | MatchingTransferEncoding | MatchingUpgrade | Connection | ContentLength | TransferEncoding | Upgrade => true
    case _ => false
  }

  /** A value that the parser takes after a name that ended in state `h`. */
  predicate Takes(c: Core, v: string) {
    && GoodValue(v) && NameState(c.headerState) && (c.headerState.ContentLength? ==> GoodLength(v) && !c.flags.contentLength)
    && (c.headerState.TransferEncoding? ==> ',' !in v)
  }

  /** The state that compares words, after a value so far. */
  predicate WordState(h: HeaderState, v: string, l: Letter)
    requires v != ""
  {
    match h
    case ContentLength => l.h.ContentLengthNum?
    case Connection =>
      if Lower(v[0]) == 'k' then Follows(KEEP, v, l) else if Lower(v[0]) == 'c' then Follows(SHUT, v, l) else l.h.General?
    case TransferEncoding => if Lower(v[0]) == 'c' then Follows(CHUNKED, v, l) else l.h.MatchingToken?
    case _ => l.h.General?
  }

  /** What the first `n` bytes of a value change but for that state. */
  function InValue(c: Core, v: string, n: nat): Core
    requires Takes(c, v) && 0 < n <= |v|
  {
    var c1 := c.(state := HeaderValue, nread := c.nread + n);
    match c.headerState
    case ContentLength =>
      assert AllDigits(v[..n]);
      c1.(flags := c1.flags.(contentLength := true), contentLength := Decimal(0, v[..n]))
    case Upgrade => if "h2" <= v then c1 else c1.(flags := c1.flags.(upgrade := true))
    case _ => c1
  }

  /** The parser after the first `n` bytes. */
  predicate ValueAt(c: Core, v: string, n: nat, c': Core)
    requires Takes(c, v) && 0 < n <= |v|
  {
    Facts(c') == Facts(InValue(c, v, n)) && WordState(c.headerState, v[..n], Letter(c'.headerState, c'.index))
  }

  lemma WordStateStarts(h: HeaderState, ch: char)
    requires NameState(h) && IsHeaderChar(ch) && ch != ' '
    ensures WordState(h, [ch], Letter(NextStart(h, ch), 0))
  {
    NoBlank(ch);
    LoweredMore("", ch);
    assert "" + [ch] == [ch];
    hide Lower;
  }

  lemma ValueStarts(c: Core, v: string)
    requires c.errno == OK && Takes(c, v)
    ensures var r := ValueStartByte(c.(nread := c.nread + 1), v[0], Next(v, 0));
      r.acts == [Mark(Value)] && r.core.errno == OK && ValueAt(c, v, 1, r.core)
  {
    hide WordState, Lower, Decimal, AllDigits, GoodLength;
    assert v[..1] == [v[0]] && IsHeaderChar(v[0]);
    WordStateStarts(c.headerState, v[0]);
    if c.headerState.ContentLength? { DigitAlone(v); }
  }

  lemma NoBlank(ch: char)
    requires IsHeaderChar(ch) && ch != ' '
    ensures Lower(ch) != ' ' && Lower(ch) != '\t'
  {
  }

  lemma DigitAlone(v: string)
    requires GoodLength(v)
    ensures IsNum(v[0]) && Decimal(0, v[..1]) == v[0] as int - '0' as int
  {
    assert v[..1][..0] == "" && v[..1][0] == v[0];
  }

  lemma DigitMore(v: string, n: nat)
    requires GoodLength(v) && 0 < n < |v|
    ensures IsNum(v[n]) && Decimal(0, v[..n]) <= DECIMAL_LIMIT
    ensures Decimal(0, v[..n + 1]) == Decimal(0, v[..n]) * 10 + (v[n] as int - '0' as int)
  {
    var front := v[..|v| - 1];
    assert v[..n + 1][..n] == v[..n] && v[..n + 1][n] == v[n] && front[..n] == v[..n];
    DecimalGrows(0, front, n);
  }

  /** The state for words, and all else, after one more byte. */
  lemma WordStateGoes(h: HeaderState, v: string, l: Letter, ch: char)
    requires NameState(h) && !h.ContentLength? && v != "" && WordState(h, v, l) && (h.TransferEncoding? ==> ch != ',')
    ensures !l.h.ContentLength? && !l.h.ContentLengthNum? && !l.h.ContentLengthWs?
    ensures WordState(h, v + [ch], NextValue(l.h, l.index, ch))
  {
    hide Follows, Lower, MatchLetter;
    assert (v + [ch])[0] == v[0];
    match h {
      case Connection =>
        if Lower(v[0]) == 'k' { ConnectionGoes(KEEP, v, l, ch); } else if Lower(v[0]) == 'c' { ConnectionGoes(SHUT, v, l, ch); }
      case TransferEncoding => if Lower(v[0]) == 'c' { CodingGoes(v, l, ch); }
      case _ =>
    }
  }

  lemma LengthGoes(c: Core, v: string, n: nat, c': Core)
    requires c.errno == OK && Takes(c, v) && 0 < n < |v| && ValueAt(c, v, n, c') && c.headerState.ContentLength?
    ensures var r := ValueLetter(c'.(nread := c'.nread + 1), v[n]);
      r.acts == [] && r.core.errno == OK && ValueAt(c, v, n + 1, r.core)
  {
    hide GoodLength, Decimal, AllDigits, DigitStep, IsHeaderChar, NextValue, WordState, ValueLetter;
    assert IsHeaderChar(v[n]);
    LengthState(v[..n], Letter(c'.headerState, c'.index));
    DigitMore(v, n);
    LetterIs(c'.(nread := c'.nread + 1), v[n]);
    DigitGoes(c'.(nread := c'.nread + 1), v[n]);
    LengthState(v[..n + 1], Letter(ContentLengthNum, c'.index));
  }

  lemma ValueGoes(c: Core, v: string, n: nat, c': Core)
    requires c.errno == OK && Takes(c, v) && 0 < n < |v| && ValueAt(c, v, n, c')
    ensures var r := ValueLetter(c'.(nread := c'.nread + 1), v[n]);
      r.acts == [] && r.core.errno == OK && ValueAt(c, v, n + 1, r.core)
  {
    if c.headerState.ContentLength? {
      LengthGoes(c, v, n, c');
    } else {
      hide GoodLength, Decimal, AllDigits, DigitStep, IsHeaderChar, NextValue, WordState, ValueLetter;
      assert v[..n] + [v[n]] == v[..n + 1] && IsHeaderChar(v[n]);
      WordStateGoes(c.headerState, v[..n], Letter(c'.headerState, c'.index), v[n]);
      LetterIs(c'.(nread := c'.nread + 1), v[n]);
    }
  }

  lemma LetterIs(c: Core, ch: char)
    requires IsHeaderChar(ch) && !c.headerState.ContentLength? && !c.headerState.ContentLengthWs?
    ensures ValueLetter(c, ch)
      == if c.headerState.ContentLengthNum? then DigitStep(c, ch)
         else
           var l := NextValue(c.headerState, c.index, ch);
           Outcome(c.(headerState := l.h, index := l.index), [])
  {
    hide DigitStep, NextValue, IsHeaderChar;
  }

  lemma LengthState(v: string, l: Letter)
    requires v != ""
    ensures WordState(ContentLength, v, l) <==> l.h.ContentLengthNum?
  {
  }

  lemma DigitGoes(c: Core, ch: char)
    requires IsNum(ch) && c.contentLength <= DECIMAL_LIMIT
    ensures DigitStep(c, ch)
      == Outcome(c.(headerState := ContentLengthNum, contentLength := c.contentLength * 10 + (ch as int - '0' as int)), [])
  {
  }

  /** A state that belongs to a word. */
  predicate IsOf(w: Word, h: HeaderState) { h == w.matching || h == w.matched || h == w.mismatch }

  lemma ConnectionGoes(w: Word, v: string, l: Letter, ch: char)
    requires (w == KEEP || w == SHUT) && v != "" && Follows(w, v, l)
    ensures IsOf(w, l.h) && Follows(w, v + [ch], NextValue(l.h, l.index, ch))
  {
    hide Follows, MatchLetter, Lower;
    IsOfWord(w, v, l);
    WordsAreWords();
    WordGoes(w, v, l, ch, NextValue(l.h, l.index, ch));
  }

  lemma IsOfWord(w: Word, v: string, l: Letter)
    requires v != "" && Follows(w, v, l)
    ensures IsOf(w, l.h)
  {
  }

  lemma WordsAreWords()
    ensures IsWord(KEEP) && IsWord(SHUT) && IsWord(CHUNKED)
  {
  }

  lemma CodingGoes(v: string, l: Letter, ch: char)
    requires v != "" && ch != ',' && Follows(CHUNKED, v, l)
    ensures IsOf(CHUNKED, l.h) && Follows(CHUNKED, v + [ch], NextValue(l.h, l.index, ch))
  {
    hide Follows, MatchLetter, Lower;
    IsOfWord(CHUNKED, v, l);
    WordsAreWords();
    WordGoes(CHUNKED, v, l, ch, NextValue(l.h, l.index, ch));
  }

  // ----- between two lines -------------------------------------------------------------------

  /** The request once the last header is put among the pairs. */
  function Filed(a: App): App {
    if a.value != "" then a.(headers := a.headers + [(a.field, a.value)], value := "") else a
  }

  /** At the start of a line, or at the end of the one before it. */
  predicate AtLine(s: Sys) {
    s.core.state.HeaderFieldStart? || s.core.state.HeaderValueLws? || (s.core.state.HeaderValueDiscardLws? && s.app.building)
  }

  /** The parser at the start of the line: what the line before it said is noted. */
  function AtStart(s: Sys): Sys {
    match s.core.state
    case HeaderValueLws =>
      Sys(s.core.(flags := WithHeader(s.core.flags, s.core.headerState), state := HeaderFieldStart), s.app)
    case HeaderValueDiscardLws => Sys(s.core.(state := HeaderFieldStart), s.app.(value := "", building := false))
    case _ => s
  }

  lemma LwsTrans(c: Core, ch: char, next: Option<char>)
    requires c.state.HeaderValueLws? && ch != ' ' && ch != '\t'
    ensures Trans(c, ch, next)
      == HeaderFieldStartByte(c.(flags := WithHeader(c.flags, c.headerState), state := HeaderFieldStart), ch)
  {
  }

  lemma EmptyTrans(c: Core, ch: char, next: Option<char>)
    requires c.state.HeaderValueDiscardLws? && ch != ' ' && ch != '\t'
    ensures Trans(c, ch, next) == Then([Mark(Value), Emit(Value)], HeaderFieldStartByte(c.(state := HeaderFieldStart), ch))
  {
  }

  lemma StartTrans(c: Core, ch: char, next: Option<char>)
    requires c.state.HeaderFieldStart?
    ensures Trans(c, ch, next) == HeaderFieldStartByte(c, ch)
  {
  }

  lemma ApplyEmpty(acts: seq<Act>, a: App, ch: char)
    requires a.building
    ensures Apply([Mark(Value), Emit(Value)] + acts, NoMarks, a, [ch], 0)
      == Apply(acts, NoMarks, a.(value := "", building := false), [ch], 0)
  {
    var all := [Mark(Value), Emit(Value)] + acts;
    assert all[1..] == [Emit(Value)] + acts && all[1..][1..] == acts;
    assert [ch][0..0] == "";
  }

  /** The first byte does what it does at the start of the line. */
  lemma LineStartStep(s: Sys, ch: char, next: Option<char>)
    requires !Stopped(s) && AtLine(s) && ch != ' ' && ch != '\t' && s.core.nread < MAX_HEADER_SIZE
    requires Step(AtStart(s), ch, next).core.errno == OK
    ensures Step(s, ch, next) == Step(AtStart(s), ch, next)
  {
    hide Apply, Pending, Trans, HeaderFieldStartByte, WithHeader;
    var c, t := s.core.(nread := s.core.nread + 1), AtStart(s).core.(nread := s.core.nread + 1);
    StartTrans(t, ch, next);
    if c.state.HeaderValueLws? {
      LwsTrans(c, ch, next);
    } else if c.state.HeaderValueDiscardLws? {
      EmptyLineStep(s, ch, next);
    }
  }

  lemma EmptyLineStep(s: Sys, ch: char, next: Option<char>)
    requires !Stopped(s) && s.core.state.HeaderValueDiscardLws? && s.app.building && s.core.nread < MAX_HEADER_SIZE
    requires ch != ' ' && ch != '\t' && Step(AtStart(s), ch, next).core.errno == OK
    ensures Step(s, ch, next) == Step(AtStart(s), ch, next)
  {
    hide Apply, Pending, Trans, HeaderFieldStartByte, WithHeader;
    var c, t := s.core.(nread := s.core.nread + 1), AtStart(s).core.(nread := s.core.nread + 1);
    StartTrans(t, ch, next);
    EmptyTrans(c, ch, next);
    ApplyEmpty(HeaderFieldStartByte(t, ch).acts, s.app, ch);
  }

  /** A line read from its start. */
  lemma FromLineStart(s: Sys, line: string)
    requires !Stopped(s) && AtLine(s) && line != "" && line[0] != ' ' && line[0] != '\t' && s.core.nread < MAX_HEADER_SIZE
    requires Step(AtStart(s), line[0], None).core.errno == OK
    ensures RunAll(s, line) == RunAll(AtStart(s), line)
  {
    hide Step;
    LineStartStep(s, line[0], None);
    assert line == [line[0]] + line[1..];
    One(s, line[0], line[1..]);
    One(AtStart(s), line[0], line[1..]);
  }

  // ----- the name -----------------------------------------------------------------------------

  /** All but the matchers' state and the note of a transfer encoding. */
  function Rest(c: Core): Core { c.(index := 0, headerState := General, usesTransferEncoding := false) }

  lemma FirstLetter(s: Sys, ch: char, next: Option<char>)
    requires !Stopped(s) && s.core.state.HeaderFieldStart? && s.core.nread < MAX_HEADER_SIZE && Token(ch) != '\0'
    requires !s.app.building
    ensures var s' := Step(s, ch, next);
      && Rest(s'.core) == Rest(s.core.(state := HeaderField, nread := s.core.nread + 1))
      && s'.app == Filed(s.app).(field := [ch], building := true)
  {
    hide Trans, Pending, Token;
    var c := s.core.(nread := s.core.nread + 1);
    FieldStarts(c, ch, next);
    FirstRest(c, ch);
    hide HeaderFieldStartByte;
    ApplyOne(Mark(Field), NoMarks, s.app, [ch], 0);
    PendingOnly(Field, 0, s.app, [ch], 1);
    assert [ch][0..1] == [ch];
  }

  lemma FirstRest(c: Core, ch: char)
    requires c.state.HeaderFieldStart? && c.errno == OK && Token(ch) != '\0'
    ensures Rest(HeaderFieldStartByte(c, ch).core) == Rest(c.(state := HeaderField))
  {
  }

  lemma MoreLetter(s: Sys, ch: char, next: Option<char>)
    requires !Stopped(s) && s.core.state.HeaderField? && s.core.nread < MAX_HEADER_SIZE && Token(ch) != '\0'
    requires s.app.building
    ensures var s' := Step(s, ch, next);
      && Rest(s'.core) == Rest(s.core.(nread := s.core.nread + 1))
      && s'.app == s.app.(field := s.app.field + [ch])
  {
    hide Trans, Pending, Token, NextField;
    var c := s.core.(nread := s.core.nread + 1);
    TransField(c, ch, next);
    ApplyNothing(Only(Field, 0), s.app, [ch], 0);
    PendingOnly(Field, 0, s.app, [ch], 1);
    assert [ch][0..1] == [ch];
  }

  lemma {:induction false} NameApp(s: Sys, name: string, n: nat)
    requires !Stopped(s) && s.core.state.HeaderFieldStart? && !s.app.building && IsName(name)
    requires 0 < n <= |name| && s.core.nread + n <= MAX_HEADER_SIZE
    ensures var s' := Run(s, name, n);
      && Rest(s'.core) == Rest(s.core.(state := HeaderField, nread := s.core.nread + n))
      && s'.app == Filed(s.app).(field := name[..n], building := true)
  {
    hide Step, Token;
    var ch, next := name[n - 1], Next(name, n - 1);
    if n == 1 {
      FirstLetter(s, ch, next);
      assert name[..1] == [ch];
    } else {
      NameApp(s, name, n - 1);
      MoreLetter(Run(s, name, n - 1), ch, next);
      assert name[..n - 1] + [ch] == name[..n];
    }
  }

  lemma NamePart(s: Sys, name: string)
    requires !Stopped(s) && s.core.state.HeaderFieldStart? && !s.app.building && name != "" && IsName(name)
    requires s.core.nread + |name| <= MAX_HEADER_SIZE
    ensures var s' := RunAll(s, name);
      && Facts(s'.core) == Facts(s.core.(state := HeaderField, nread := s.core.nread + |name|,
           usesTransferEncoding := s.core.usesTransferEncoding || "transfer-encoding" <= Folded(name)))
      && s'.core.headerState == Classify(Folded(name))
      && s'.app == Filed(s.app).(field := name, building := true)
  {
    hide Step, Token, Classified;
    assert name[..|name|] == name;
    NameApp(s, name, |name|);
    NameRun(s, name, |name|);
    var c := RunAll(s, name).core;
    ClassifiedMeans(Folded(name), Letter(c.headerState, c.index));
  }

  lemma NameStates(name: string)
    ensures NameState(Classify(name))
  {
  }

  lemma ColonStep(s: Sys, next: Option<char>)
    requires !Stopped(s) && s.core.state.HeaderField? && s.core.nread < MAX_HEADER_SIZE && s.app.building
    ensures Step(s, ':', next) == Sys(s.core.(state := HeaderValueDiscardWs, nread := s.core.nread + 1), s.app)
  {
    hide Pending, Trans;
    assert Token(':') == '\0';
    TransField(s.core.(nread := s.core.nread + 1), ':', next);
    ApplyOne(Emit(Field), Only(Field, 0), s.app, [':'], 0);
    NothingPending(s.app, [':'], 1);
    assert [':'][0..0] == "" && s.app.field + "" == s.app.field;
  }

  lemma BlankStep(s: Sys, next: Option<char>)
    requires !Stopped(s) && s.core.state.HeaderValueDiscardWs? && s.core.nread < MAX_HEADER_SIZE
    ensures Step(s, ' ', next) == Sys(s.core.(nread := s.core.nread + 1), s.app)
  {
    hide Pending;
    var c := s.core.(nread := s.core.nread + 1);
    assert Trans(c, ' ', next) == ValueDiscardWsByte(c, ' ', next);
    ApplyNothing(NoMarks, s.app, [' '], 0);
    NothingPending(s.app, [' '], 1);
  }

  lemma ValueCr(s: Sys, next: Option<char>)
    requires !Stopped(s) && s.core.state.HeaderValue? && s.core.nread < MAX_HEADER_SIZE && !s.app.building
    ensures Step(s, CR, next) == Sys(s.core.(state := HeaderAlmostDone, nread := s.core.nread + 1), s.app)
  {
    hide Pending, Trans;
    TransValue(s.core.(nread := s.core.nread + 1), CR, next);
    ApplyOne(Emit(Value), Only(Value, 0), s.app, [CR], 0);
    NothingPending(s.app, [CR], 1);
    assert [CR][0..0] == "" && s.app.value + "" == s.app.value;
  }

  lemma ValueLf(s: Sys, next: Option<char>)
    requires !Stopped(s) && s.core.state.HeaderAlmostDone? && s.core.nread < MAX_HEADER_SIZE
    ensures Step(s, LF, next) == Sys(s.core.(state := HeaderValueLws, nread := s.core.nread + 1), s.app)
  {
    hide Pending;
    var c := s.core.(nread := s.core.nread + 1);
    assert Trans(c, LF, next) == Outcome(c.(state := HeaderValueLws), []);
    ApplyNothing(NoMarks, s.app, [LF], 0);
    NothingPending(s.app, [LF], 1);
  }

  /** The end of a header line. */
  lemma LineEnd(s: Sys)
    requires !Stopped(s) && s.core.state.HeaderValue? && s.core.nread + 2 <= MAX_HEADER_SIZE && !s.app.building
    ensures RunAll(s, "\r\n") == Sys(s.core.(state := HeaderValueLws, nread := s.core.nread + 2), s.app)
  {
    hide Step;
    ValueCr(s, Some(LF));
    assert Run(s, "\r\n", 1) == Step(Run(s, "\r\n", 0), CR, Some(LF));
    ValueLf(Run(s, "\r\n", 1), None);
    LastOf(s, "\r\n");
  }

  lemma Separator(s: Sys)
    requires !Stopped(s) && s.core.state.HeaderField? && s.core.nread + 2 <= MAX_HEADER_SIZE && s.app.building
    ensures RunAll(s, ": ") == Sys(s.core.(state := HeaderValueDiscardWs, nread := s.core.nread + 2), s.app)
  {
    hide Step;
    ColonStep(s, Some(' '));
    assert Run(s, ": ", 1) == Step(Run(s, ": ", 0), ':', Some(' '));
    BlankStep(Run(s, ": ", 1), None);
    LastOf(s, ": ");
  }

  // ----- the value -----------------------------------------------------------------------------

  lemma DiscardTrans(c: Core, ch: char, next: Option<char>)
    requires c.state.HeaderValueDiscardWs? && ch != ' ' && ch != '\t' && ch != CR && ch != LF
    ensures Trans(c, ch, next) == ValueStartByte(c, ch, next)
  {
  }

  lemma FirstValueStep(s: Sys, v: string)
    requires !Stopped(s) && s.core.state.HeaderValueDiscardWs? && s.app.building && Takes(s.core, v)
    requires s.core.nread < MAX_HEADER_SIZE
    ensures var s' := Step(s, v[0], Next(v, 0));
      ValueAt(s.core, v, 1, s'.core) && s'.app == s.app.(value := [v[0]], building := false)
  {
    hide Pending, Trans, ValueStartByte, ValueAt;
    var ch := v[0];
    ValueStarts(s.core, v);
    DiscardTrans(s.core.(nread := s.core.nread + 1), ch, Next(v, 0));
    ApplyOne(Mark(Value), NoMarks, s.app, [ch], 0);
    PendingOnly(Value, 0, s.app, [ch], 1);
    assert [ch][0..1] == [ch];
  }

  lemma MoreValueStep(s: Sys, ch: char, next: Option<char>)
    requires !Stopped(s) && s.core.state.HeaderValue? && !s.app.building && ch != CR && ch != LF
    requires s.core.nread < MAX_HEADER_SIZE
    requires var r := ValueLetter(s.core.(nread := s.core.nread + 1), ch); r.acts == [] && r.core.errno == OK
    ensures Step(s, ch, next)
      == Sys(ValueLetter(s.core.(nread := s.core.nread + 1), ch).core, s.app.(value := s.app.value + [ch]))
  {
    hide Pending, Trans, ValueLetter;
    TransValue(s.core.(nread := s.core.nread + 1), ch, next);
    ApplyNothing(Only(Value, 0), s.app, [ch], 0);
    PendingOnly(Value, 0, s.app, [ch], 1);
    assert [ch][0..1] == [ch];
  }

  lemma ValueAtMeans(c: Core, v: string, n: nat, c': Core)
    requires Takes(c, v) && 0 < n <= |v| && ValueAt(c, v, n, c')
    ensures c'.state.HeaderValue? && c'.errno == c.errno && c'.nread == c.nread + n
  {
    hide WordState, Takes;
  }

  lemma {:induction false} ValueRun(s: Sys, v: string, n: nat)
    requires !Stopped(s) && s.core.state.HeaderValueDiscardWs? && s.app.building && Takes(s.core, v)
    requires 0 < n <= |v| && s.core.nread + n <= MAX_HEADER_SIZE
    ensures var s' := Run(s, v, n);
      ValueAt(s.core, v, n, s'.core) && s'.app == s.app.(value := v[..n], building := false)
  {
    hide Step, ValueAt, ValueLetter, ValueStartByte;
    if n == 1 {
      FirstValueStep(s, v);
      assert v[..1] == [v[0]] && Run(s, v, 1) == Step(Run(s, v, 0), v[0], Next(v, 0));
    } else {
      ValueRun(s, v, n - 1);
      var s1, ch := Run(s, v, n - 1), v[n - 1];
      ValueAtMeans(s.core, v, n - 1, s1.core);
      ValueGoes(s.core, v, n - 1, s1.core);
      MoreValueStep(s1, ch, Next(v, n - 1));
      assert v[..n - 1] + [ch] == v[..n];
    }
  }

  /** A value that is empty. */
  lemma EmptyEnd(s: Sys)
    requires !Stopped(s) && s.core.state.HeaderValueDiscardWs? && s.core.nread + 2 <= MAX_HEADER_SIZE
    ensures RunAll(s, "\r\n") == Sys(s.core.(state := HeaderValueDiscardLws, nread := s.core.nread + 2), s.app)
  {
    hide Step;
    EmptyStep(s, CR, HeaderValueDiscardWsAlmostDone, Some(LF));
    assert Run(s, "\r\n", 1) == Step(Run(s, "\r\n", 0), CR, Some(LF));
    EmptyStep(Run(s, "\r\n", 1), LF, HeaderValueDiscardLws, None);
    LastOf(s, "\r\n");
  }

  lemma EmptyStep(s: Sys, ch: char, to: State, next: Option<char>)
    requires !Stopped(s) && s.core.nread < MAX_HEADER_SIZE
    requires (s.core.state.HeaderValueDiscardWs? && ch == CR && to.HeaderValueDiscardWsAlmostDone?)
      || (s.core.state.HeaderValueDiscardWsAlmostDone? && ch == LF && to.HeaderValueDiscardLws?)
    ensures Step(s, ch, next) == Sys(s.core.(state := to, nread := s.core.nread + 1), s.app)
  {
    hide Pending;
    var c := s.core.(nread := s.core.nread + 1);
    assert Trans(c, ch, next) == Outcome(c.(state := to), []);
    ApplyNothing(NoMarks, s.app, [ch], 0);
    NothingPending(s.app, [ch], 1);
  }

  // ----- the line ---------------------------------------------------------------------------------

  type Header = (string, string)

  /** A header that gives the length of the body. */
  predicate HasLength(h: Header) { InAnyCase(h.0, "content-length") && h.1 != "" }

  /** A header of any name, whose value may be empty, but for a length that is no number
      and for more than one transfer coding at once. */
  predicate WellFormed(h: Header) {
    && IsToken(h.0) && (h.1 != "" ==> IsFieldValue(h.1))
    && (HasLength(h) ==> GoodLength(h.1)) && (InAnyCase(h.0, "transfer-encoding") ==> ',' !in h.1)
  }

  /** Such a header, and no second length. */
  predicate GoodHeader(c: Core, h: Header) { WellFormed(h) && (HasLength(h) ==> !c.flags.contentLength) }

  function HeaderText(h: Header): string { h.0 + ": " + h.1 + "\r\n" }

  predicate NamesConnection(name: string) { InAnyCase(name, "connection") || InAnyCase(name, "proxy-connection") }

  /** The flags that the words of a header set. */
  function Flagged(f: Flags, name: string, v: string): Flags {
    if NamesConnection(name) then
      if InAnyCase(Bare(v), "keep-alive") then f.(keepAlive := true)
      else if InAnyCase(Bare(v), "close") then f.(close := true) else f
    else if InAnyCase(name, "transfer-encoding") then if InAnyCase(Bare(v), "chunked") then f.(chunked := true) else f
    else if InAnyCase(name, "content-length") then f.(contentLength := true)
    else if InAnyCase(name, "upgrade") then if "h2" <= v then f else f.(upgrade := true)
    else f
  }

  /** The parser once a header is noted. */
  function Noted(c: Core, h: Header): Core
    requires WellFormed(h)
  {
    var c1 := c.(usesTransferEncoding := c.usesTransferEncoding || BeginsInAnyCase(h.0, "transfer-encoding"));
    if h.1 == "" then c1
    else
      c1.(flags := Flagged(c.flags, h.0, h.1), contentLength := if HasLength(h) then Decimal(0, h.1) else c.contentLength)
  }

  /** At the end of a value its words are known. */
  lemma WordEnds(w: Word, v: string, l: Letter)
    requires IsWord(w) && v != "" && Follows(w, v, l)
    ensures l.h == w.matched <==> WordOf(v) == w.text
    ensures IsOf(w, l.h)
  {
    BareStarts(v);
  }

  /** The words that the parser knows. */
  lemma {:induction false} LoweredIs(s: string, w: string)
    requires IsLowerWord(w) && forall i :: 0 <= i < |s| ==> IsFieldChar(s[i])
    ensures Lowered(s) == w <==> InAnyCase(s, w)
  {
    LoweredSize(s);
    if s != "" && w != "" {
      var front, last, most := s[..|s| - 1], s[|s| - 1], w[..|w| - 1];
      assert IsWordChar(w[|w| - 1]) && w == most + [w[|w| - 1]] && forall i :: 0 <= i < |most| ==> most[i] == w[i];
      LoweredIs(front, most);
      LowerFolds(last, w[|w| - 1]);
      LoweredSize(front);
      if InAnyCase(s, w) { FrontInAnyCase(s, w); }
      if InAnyCase(front, most) && |s| == |w| && SameLetter(last, w[|w| - 1]) {
        forall i | 0 <= i < |s| ensures SameLetter(s[i], w[i]) {
          if i < |front| { assert SameLetter(front[i], most[i]); }
        }
      }
      assert Lowered(s)[..|s| - 1] == Lowered(front) && Lowered(s)[|s| - 1] == Lower(last);
      if Lowered(s) == w { assert w[..|w| - 1] == Lowered(front); }
    }
  }

  lemma KnownWords(v: string)
    requires GoodValue(v)
    ensures WordOf(v) == "keep-alive" <==> InAnyCase(Bare(v), "keep-alive")
    ensures WordOf(v) == "close" <==> InAnyCase(Bare(v), "close")
    ensures WordOf(v) == "chunked" <==> InAnyCase(Bare(v), "chunked")
  {
    hide Lowered, InAnyCase, Bare;
    BareStarts(v);
    var b := Bare(v);
    forall i | 0 <= i < |b| ensures IsFieldChar(b[i]) { assert b[i] == v[i]; HeaderCharsAreFieldChars(v[i]); }
    LoweredIs(b, "keep-alive");
    LoweredIs(b, "close");
    LoweredIs(b, "chunked");
  }

  lemma ValuesAreGood(v: string)
    ensures GoodValue(v) <==> IsFieldValue(v)
  {
    forall i | 0 <= i < |v| ensures IsHeaderChar(v[i]) && v[i] != CR && v[i] != LF <==> IsFieldChar(v[i]) {
      HeaderCharsAreFieldChars(v[i]);
    }
  }

  lemma ConnectionEnds(f: Flags, v: string, l: Letter)
    requires GoodValue(v) && WordState(Connection, v, l)
    ensures WithHeader(f, l.h)
      == if InAnyCase(Bare(v), "keep-alive") then f.(keepAlive := true)
         else if InAnyCase(Bare(v), "close") then f.(close := true) else f
  {
    hide Follows, Lowered, Bare, Lower, InAnyCase;
    KnownWords(v);
    BareStarts(v);
    WordsAreWords();
    if Lower(v[0]) == 'k' { WordEnds(KEEP, v, l); } else if Lower(v[0]) == 'c' { WordEnds(SHUT, v, l); }
  }

  lemma CodingEnds(f: Flags, v: string, l: Letter)
    requires GoodValue(v) && WordState(TransferEncoding, v, l)
    ensures WithHeader(f, l.h) == if InAnyCase(Bare(v), "chunked") then f.(chunked := true) else f
  {
    hide Follows, Lowered, Bare, Lower, InAnyCase;
    KnownWords(v);
    BareStarts(v);
    WordsAreWords();
    if Lower(v[0]) == 'c' { WordEnds(CHUNKED, v, l); }
  }

  lemma FlagsNoted(f: Flags, name: string, v: string, l: Letter)
    requires GoodValue(v) && name != "" && WordState(Classify(Folded(name)), v, l)
    ensures var f1 := if InAnyCase(name, "content-length") then f.(contentLength := true)
                      else if InAnyCase(name, "upgrade") && !("h2" <= v) then f.(upgrade := true) else f;
      WithHeader(f1, l.h) == Flagged(f, name, v)
  {
    hide Follows, Lowered, Bare, Classify, Lower, Folded, InAnyCase;
    FoldedSize(name);
    Whole(Folded(name));
    KnownNames(name);
    var h := Classify(Folded(name));
    if h.Connection? { ConnectionEnds(f, v, l); } else if h.TransferEncoding? { CodingEnds(f, v, l); }
  }

  lemma NameTakes(c: Core, c1: Core, h: Header)
    requires GoodHeader(c, h) && h.1 != "" && c1.headerState == Classify(Folded(h.0)) && c1.flags == c.flags
    ensures Takes(c1, h.1) && h.0 != ""
  {
    hide GoodValue, IsFieldValue, GoodLength, Classify, Folded, InAnyCase;
    FoldedSize(h.0);
    Whole(Folded(h.0));
    KnownNames(h.0);
    ValuesAreGood(h.1);
    NameStates(Folded(h.0));
  }

  /** The value and the end of its line, read behind the colon. */
  lemma ValueLine(s: Sys, v: string)
    requires !Stopped(s) && s.core.state.HeaderValueDiscardWs? && s.app.building && Takes(s.core, v)
    requires s.core.nread + |v| + 2 <= MAX_HEADER_SIZE
    ensures var s' := RunAll(s, v + "\r\n");
      && Facts(s'.core) == Facts(InValue(s.core, v, |v|).(state := HeaderValueLws, nread := s.core.nread + |v| + 2))
      && WordState(s.core.headerState, v, Letter(s'.core.headerState, s'.core.index))
      && s'.app == s.app.(value := v, building := false)
  {
    hide Step, RunAll, WordState, Takes, InValue;
    assert RunAll(s, v) == Run(s, v, |v|) && v[..|v|] == v by { RunAllIs(s, v); }
    TakesValue(s.core, v);
    ValueRun(s, v, |v|);
    ValueAtMeans(s.core, v, |v|, RunAll(s, v).core);
    RunThen(s, v, "\r\n");
    LineEnd(RunAll(s, v));
  }

  lemma TakesValue(c: Core, v: string)
    requires Takes(c, v)
    ensures v != ""
  {
  }

  lemma ValuePart(s: Sys, h: Header, c: Core)
    requires !Stopped(s) && s.core.state.HeaderValueDiscardWs? && s.app.building && GoodHeader(c, h) && h.1 != ""
    requires s.core.headerState == Classify(Folded(h.0)) && s.core.flags == c.flags && s.core.contentLength == c.contentLength
    requires s.core.nread + |h.1| + 2 <= MAX_HEADER_SIZE
    ensures var s' := RunAll(s, h.1 + "\r\n"); var t := AtStart(s');
      && AtLine(s') && !Stopped(s')
      && Facts(t.core) == Facts(s.core.(state := HeaderFieldStart, nread := s.core.nread + |h.1| + 2, flags := Noted(c, h).flags,
                                        contentLength := Noted(c, h).contentLength))
      && t.app == s.app.(value := h.1, building := false)
  {
    hide Step, RunAll, WordState, GoodValue, IsFieldValue, GoodLength, Classify, Flagged, WithHeader, Decimal, AllDigits, Folded,
      InAnyCase;
    var v, name := h.1, h.0;
    NameTakes(c, s.core, h);
    ValueLine(s, v);
    var s' := RunAll(s, v + "\r\n");
    assert v[..|v|] == v;
    ValuesAreGood(v);
    FoldedSize(name);
    Whole(Folded(name));
    KnownNames(name);
    FlagsNoted(s.core.flags, name, v, Letter(s'.core.headerState, s'.core.index));
  }

  /** The end of a line without a value. */
  lemma EmptyPart(s: Sys)
    requires !Stopped(s) && s.core.state.HeaderValueDiscardWs? && s.app.building && s.core.nread + 2 <= MAX_HEADER_SIZE
    ensures var s' := RunAll(s, "\r\n");
      && AtLine(s') && !Stopped(s')
      && AtStart(s') == Sys(s.core.(state := HeaderFieldStart, nread := s.core.nread + 2), s.app.(value := "", building := false))
  {
    hide RunAll;
    EmptyEnd(s);
  }

  /** The name, the colon and the blank. */
  lemma ToValue(s: Sys, name: string)
    requires !Stopped(s) && s.core.state.HeaderFieldStart? && !s.app.building && IsToken(name)
    requires s.core.nread + |name| + 2 <= MAX_HEADER_SIZE
    ensures var s' := RunAll(s, name + ": ");
      && Facts(s'.core) == Facts(s.core.(state := HeaderValueDiscardWs, nread := s.core.nread + |name| + 2,
           usesTransferEncoding := s.core.usesTransferEncoding || BeginsInAnyCase(name, "transfer-encoding")))
      && s'.core.headerState == Classify(Folded(name))
      && s'.app == Filed(s.app).(field := name, building := true)
  {
    hide Step, RunAll, Classify, IsName, IsToken, Folded, BeginsInAnyCase, InAnyCase;
    NamesAreTokens(name);
    KnownNames(name);
    NamePart(s, name);
    RunThen(s, name, ": ");
    Separator(RunAll(s, name));
  }

  /** A header line: what it says is noted, the pair before it is filed, and its own pair
      is held. */
  lemma HeaderPart(s: Sys, h: Header)
    requires !Stopped(s) && s.core.state.HeaderFieldStart? && !s.app.building && GoodHeader(s.core, h)
    requires s.core.nread + |HeaderText(h)| <= MAX_HEADER_SIZE
    ensures var s' := RunAll(s, HeaderText(h)); var t := AtStart(s');
      && AtLine(s') && !Stopped(s')
      && Facts(t.core) == Facts(Noted(s.core, h).(nread := s.core.nread + |HeaderText(h)|))
      && t.app == Filed(s.app).(field := h.0, value := h.1, building := false)
  {
    hide Step, RunAll, GoodHeader, Flagged, Classify, Decimal, Folded, WithHeader, AtStart, AtLine, InAnyCase, BeginsInAnyCase, IsToken;
    HasName(s.core, h);
    ToValue(s, h.0);
    var s2 := RunAll(s, h.0 + ": ");
    RunThen(s, h.0 + ": ", h.1 + "\r\n");
    assert h.0 + ": " + (h.1 + "\r\n") == HeaderText(h);
    if h.1 != "" {
      ValuePart(s2, h, s.core);
    } else {
      EmptyPart(s2);
      assert "" + "\r\n" == "\r\n";
    }
  }

  lemma HasName(c: Core, h: Header)
    requires GoodHeader(c, h)
    ensures IsToken(h.0)
  {
  }
}
