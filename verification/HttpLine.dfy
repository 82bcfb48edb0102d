/** The request line as a client writes it, and what the parser makes of it. */
module HttpLine {
  import opened Wrappers
  import opened HttpBytes
  import opened HttpGrammar
  import opened HttpStep
  import opened HttpRun
  import opened HttpCut
  import opened HttpMarks
  import opened HttpRefine
  import opened HttpBody
  import opened HttpChunks
  import opened HttpMethods

  // ----- the request line ---------------------------------------------------------------

  /** The parser but for the state of its matchers. */
  function Facts(c: Core): Core { c.(index := 0, headerState := General) }

  lemma LastOf(s: Sys, data: string)
    requires data != ""
    ensures RunAll(s, data) == Step(Run(s, data, |data| - 1), data[|data| - 1], None)
  {
    hide Step;
  }

  lemma RunAllIs(s: Sys, data: string)
    ensures RunAll(s, data) == Run(s, data, |data|)
  {
  }

  /** The method and the blank after it. */
  lemma MethodPart(s: Sys, meth: nat)
    requires !Stopped(s) && s.core.state.StartReq? && meth < |METHOD_STRINGS|
    requires s.core.nread + |MethodName(meth)| < MAX_HEADER_SIZE
    ensures var s', n := RunAll(s, MethodName(meth) + " "), |MethodName(meth)|;
      && Facts(s'.core) == Facts(Begun(s.core, meth, n + 1).(state := ReqSpacesBeforeUrl))
      && s'.app == s.app.(meth := meth)
  {
    hide Step, MethodName, Guess;
    var n, data := |MethodName(meth)|, MethodName(meth) + " ";
    GuessEnds(meth);
    NameIsGuessed(s, data, n, meth);
    var s1 := Run(s, data, n);
    assert s1.app.complete == s1.app.(meth := DELETE).complete;
    HttpMethods.LetterStep(s1, ' ', None);
    assert MethodName(meth)[..n] == MethodName(meth);
    BlankEnds(meth, n, MethodName(meth));
    LastOf(s, data);
  }

  // ----- the URL ---------------------------------------------------------------------------

  /** The state of `parse_url_char` after a text. */
  function UrlFold(s: State, u: string): State {
    if u == "" then s else UrlChar(UrlFold(s, u[..|u| - 1]), u[|u| - 1])
  }

  function UrlStart(meth: nat): State { if meth == CONNECT then ReqServerStart else ReqSpacesBeforeUrl }

  /** A URL that may end where it does. */
  predicate EndsUrl(s: State) {
    s.ReqServer? || s.ReqServerWithAt? || s.ReqPath? || s.ReqQueryStringStart? || s.ReqQueryString?
  }

  predicate GoodUrl(meth: nat, u: string) { u != "" && EndsUrl(UrlFold(UrlStart(meth), u)) }

  /** Once dead, the text stays no URL. */
  lemma {:induction false} DeadStays(s: State, u: string, n: nat)
    requires n <= |u| && UrlFold(s, u[..n]).Dead?
    ensures UrlFold(s, u).Dead?
    decreases |u| - n
  {
    if n < |u| {
      assert u[..n + 1][..n] == u[..n];
      assert UrlFold(s, u[..n + 1]) == UrlChar(UrlFold(s, u[..n]), u[n]);
      DeadChar(u[n]);
      DeadStays(s, u, n + 1);
    } else {
      assert u[..n] == u;
    }
  }

  lemma DeadChar(ch: char)
    ensures UrlChar(Dead, ch) == Dead
  {
  }

  lemma UrlCharIsNoBlank(s: State, ch: char)
    requires !UrlChar(s, ch).Dead?
    ensures ch != ' ' && ch != CR && ch != LF
  {
  }

  lemma UrlLeads(s: State, ch: char)
    ensures var t := UrlChar(s, ch); t.Dead? || InUrl(t)
  {
  }

  lemma FirstUrlStep(s: Sys, ch: char, next: Option<char>)
    requires !Stopped(s) && s.core.state.ReqSpacesBeforeUrl? && s.core.nread < MAX_HEADER_SIZE
    requires !UrlChar(UrlStart(s.core.meth), ch).Dead?
    ensures Step(s, ch, next)
      == Sys(s.core.(state := UrlChar(UrlStart(s.core.meth), ch), nread := s.core.nread + 1), s.app.(url := s.app.url + [ch]))
  {
    hide Pending, UrlChar;
    var c := s.core.(nread := s.core.nread + 1);
    UrlCharIsNoBlank(UrlStart(c.meth), ch);
    assert Trans(c, ch, next) == SpacesBeforeUrlByte(c, ch);
    assert [Mark(Url)] + [] == [Mark(Url)];
    ApplyOne(Mark(Url), NoMarks, s.app, [ch], 0);
    PendingOnly(Url, 0, s.app, [ch], 1);
    assert [ch][0..1] == [ch];
  }

  lemma UrlStep(s: Sys, ch: char, next: Option<char>)
    requires !Stopped(s) && InUrl(s.core.state) && s.core.nread < MAX_HEADER_SIZE && !UrlChar(s.core.state, ch).Dead?
    ensures Step(s, ch, next)
      == Sys(s.core.(state := UrlChar(s.core.state, ch), nread := s.core.nread + 1), s.app.(url := s.app.url + [ch]))
  {
    hide Pending, UrlChar, Trans;
    var c := s.core.(nread := s.core.nread + 1);
    UrlCharIsNoBlank(c.state, ch);
    TransUrl(c, ch, next);
    ApplyNothing(Only(Url, 0), s.app, [ch], 0);
    PendingOnly(Url, 0, s.app, [ch], 1);
    assert [ch][0..1] == [ch];
  }

  lemma {:induction false} UrlRun(s: Sys, u: string, n: nat)
    requires !Stopped(s) && s.core.state.ReqSpacesBeforeUrl? && GoodUrl(s.core.meth, u)
    requires 0 < n <= |u| && s.core.nread + n <= MAX_HEADER_SIZE
    ensures var st := UrlFold(UrlStart(s.core.meth), u[..n]);
      InUrl(st) && Run(s, u, n) == Sys(s.core.(state := st, nread := s.core.nread + n), s.app.(url := s.app.url + u[..n]))
  {
    hide Step, UrlChar;
    var start, ch, next := UrlStart(s.core.meth), u[n - 1], Next(u, n - 1);
    assert u[..n][..n - 1] == u[..n - 1];
    if UrlFold(start, u[..n]).Dead? { DeadStays(start, u, n); }
    if n == 1 {
      assert u[..0] == "" && u[..1] == [ch] && UrlFold(start, "") == start;
      UrlLeads(start, ch);
      FirstUrlStep(s, ch, next);
    } else {
      UrlRun(s, u, n - 1);
      UrlLeads(UrlFold(start, u[..n - 1]), ch);
      UrlStep(Run(s, u, n - 1), ch, next);
      assert s.app.url + u[..n - 1] + [ch] == s.app.url + u[..n];
    }
  }

  /** The states in the path and in the query. */
  predicate InPath(s: State) { s.ReqPath? || s.ReqQueryStringStart? || s.ReqQueryString? }

  lemma PathChar(s: State, ch: char)
    requires InPath(s)
    ensures if IsPathChar(ch) || ch == '?' then InPath(UrlChar(s, ch)) else UrlChar(s, ch).Dead?
  {
  }

  lemma {:induction false} PathFold(meth: nat, u: string, n: nat)
    requires meth != CONNECT && 0 < n <= |u| && (u[0] == '/' || u[0] == '*')
    ensures var st := UrlFold(UrlStart(meth), u[..n]); if IsPath(u[1..n]) then InPath(st) else st.Dead?
  {
    var ch := u[n - 1];
    assert u[..n][..n - 1] == u[..n - 1];
    if n == 1 {
      assert u[..0] == "" && UrlFold(UrlStart(meth), "") == UrlStart(meth);
    } else {
      PathFold(meth, u, n - 1);
      PathMore(u, n);
      var st := UrlFold(UrlStart(meth), u[..n - 1]);
      if InPath(st) { PathChar(st, ch); } else { DeadChar(ch); }
    }
  }

  lemma PathMore(u: string, n: nat)
    requires 2 <= n <= |u|
    ensures IsPath(u[1..n]) <==> IsPath(u[1..n - 1]) && (IsPathChar(u[n - 1]) || u[n - 1] == '?')
  {
    var longer, shorter := u[1..n], u[1..n - 1];
    assert forall i :: 0 <= i < |longer| ==> longer[i] == u[i + 1];
    assert forall i :: 0 <= i < |shorter| ==> shorter[i] == longer[i];
    assert longer[n - 2] == u[n - 1];
  }

  /** A URL that begins with a slash, or with an asterisk, is accepted exactly when the
      rest of it is a path, with a query or without. */
  lemma PathIsGood(meth: nat, u: string)
    requires meth != CONNECT && u != "" && (u[0] == '/' || u[0] == '*')
    ensures GoodUrl(meth, u) <==> IsPath(u[1..])
  {
    PathFold(meth, u, |u|);
    assert u[..|u|] == u;
  }

  // ----- the version -----------------------------------------------------------------------------

  lemma UrlEndStep(s: Sys, next: Option<char>)
    requires !Stopped(s) && EndsUrl(s.core.state) && s.core.nread < MAX_HEADER_SIZE
    ensures Step(s, ' ', next) == Sys(s.core.(state := ReqHttpStart, nread := s.core.nread + 1), s.app)
  {
    hide Pending, Trans;
    var c := s.core.(nread := s.core.nread + 1);
    TransUrl(c, ' ', next);
    ApplyOne(Emit(Url), Only(Url, 0), s.app, [' '], 0);
    NothingPending(s.app, [' '], 1);
    assert [' '][0..0] == "" && s.app.url + "" == s.app.url;
  }

  lemma TransVersion(c: Core, ch: char, next: Option<char>)
    requires InVersion(c.state)
    ensures Trans(c, ch, next) == VersionByte(c, ch) && VersionByte(c, ch).acts == []
  {
  }

  lemma VersionStep(s: Sys, ch: char, next: Option<char>)
    requires !Stopped(s) && InVersion(s.core.state) && s.core.nread < MAX_HEADER_SIZE
    requires NextVersion(s.core.state, ch, s.core.meth).To?
    ensures Step(s, ch, next) == Sys(VersionByte(s.core.(nread := s.core.nread + 1), ch).core, s.app)
    ensures VersionByte(s.core.(nread := s.core.nread + 1), ch).core.errno == OK
  {
    hide Pending, Trans, NextVersion;
    var c := s.core.(nread := s.core.nread + 1);
    TransVersion(c, ch, next);
    ApplyNothing(NoMarks, s.app, [ch], 0);
    NothingPending(s.app, [ch], 1);
    VersionIsNoUrl(c.state);
  }

  lemma VersionIsNoUrl(s: State)
    requires InVersion(s)
    ensures StartMarks(s) == NoMarks && CountsBytes(s)
  {
  }

  /** One byte, and then the rest. */
  lemma One(s: Sys, ch: char, rest: string)
    requires !LooksAhead(s.core, ch)
    ensures RunAll(s, [ch] + rest) == RunAll(Step(s, ch, None), rest)
  {
    hide Step, LooksAhead;
    var data := [ch] + rest;
    StepIgnoresNext(s, ch, Next(data, 0));
    assert Run(s, [ch], 1) == Step(Run(s, [ch], 0), ch, None);
    assert Run(s, data, 1) == Step(Run(s, data, 0), ch, Next(data, 0));
    RunOfBack(s, [ch], rest, |rest|);
  }

  /** One byte of the version. */
  lemma VersionOne(s: Sys, ch: char, rest: string)
    requires !Stopped(s) && InVersion(s.core.state) && s.core.nread < MAX_HEADER_SIZE
    requires NextVersion(s.core.state, ch, s.core.meth).To?
    ensures var c := s.core;
      RunAll(s, [ch] + rest)
      == RunAll(Sys(c.(state := NextVersion(c.state, ch, c.meth).s, nread := c.nread + 1,
                      major := if c.state.ReqHttpMajor? then ch as int - '0' as int else c.major,
                      minor := if c.state.ReqHttpMinor? then ch as int - '0' as int else c.minor), s.app), rest)
  {
    hide Step, NextVersion, RunAll;
    VersionStep(s, ch, None);
    One(s, ch, rest);
  }

  lemma HttpWord(s: Sys, rest: string)
    requires !Stopped(s) && s.core.state.ReqHttpStart? && s.core.nread + 5 <= MAX_HEADER_SIZE
    ensures RunAll(s, "HTTP/" + rest) == RunAll(Sys(s.core.(state := ReqHttpMajor, nread := s.core.nread + 5), s.app), rest)
  {
    hide RunAll;
    var c := s.core;
    VersionOne(s, 'H', "TTP/" + rest);
    VersionOne(Sys(c.(state := ReqHttpH, nread := c.nread + 1), s.app), 'T', "TP/" + rest);
    VersionOne(Sys(c.(state := ReqHttpHT, nread := c.nread + 2), s.app), 'T', "P/" + rest);
    VersionOne(Sys(c.(state := ReqHttpHTT, nread := c.nread + 3), s.app), 'P', "/" + rest);
    VersionOne(Sys(c.(state := ReqHttpHTTP, nread := c.nread + 4), s.app), '/', rest);
    assert "HTTP/" + rest == ['H'] + ("TTP/" + rest) && "TTP/" + rest == ['T'] + ("TP/" + rest);
    assert "TP/" + rest == ['T'] + ("P/" + rest) && "P/" + rest == ['P'] + ("/" + rest) && "/" + rest == ['/'] + rest;
  }

  lemma Numbers(s: Sys, x: char, y: char, rest: string)
    requires !Stopped(s) && s.core.state.ReqHttpMajor? && s.core.nread + 5 <= MAX_HEADER_SIZE && IsNum(x) && IsNum(y)
    ensures RunAll(s, [x, '.', y, CR, LF] + rest)
      == RunAll(Sys(s.core.(state := HeaderFieldStart, nread := s.core.nread + 5, major := x as int - '0' as int,
                            minor := y as int - '0' as int), s.app), rest)
  {
    hide RunAll;
    var c := s.core.(major := x as int - '0' as int);
    var d := c.(minor := y as int - '0' as int);
    VersionOne(s, x, ['.', y, CR, LF] + rest);
    VersionOne(Sys(c.(state := ReqHttpDot, nread := c.nread + 1), s.app), '.', [y, CR, LF] + rest);
    VersionOne(Sys(c.(state := ReqHttpMinor, nread := c.nread + 2), s.app), y, [CR, LF] + rest);
    VersionOne(Sys(d.(state := ReqHttpEnd, nread := d.nread + 3), s.app), CR, [LF] + rest);
    VersionOne(Sys(d.(state := ReqLineAlmostDone, nread := d.nread + 4), s.app), LF, rest);
    assert [x, '.', y, CR, LF] + rest == [x] + (['.', y, CR, LF] + rest);
    assert ['.', y, CR, LF] + rest == ['.'] + ([y, CR, LF] + rest);
    assert [y, CR, LF] + rest == [y] + ([CR, LF] + rest) && [CR, LF] + rest == [CR] + ([LF] + rest);
  }

  /** The blank after the URL, and the version. */
  function VersionText(x: char, y: char): string { " HTTP/" + [x, '.', y, CR, LF] }

  lemma VersionPart(s: Sys, x: char, y: char)
    requires !Stopped(s) && EndsUrl(s.core.state) && s.core.nread + 11 <= MAX_HEADER_SIZE && IsNum(x) && IsNum(y)
    ensures RunAll(s, VersionText(x, y))
      == Sys(s.core.(state := HeaderFieldStart, nread := s.core.nread + 11, major := x as int - '0' as int,
                     minor := y as int - '0' as int), s.app)
  {
    hide RunAll, Step;
    var c := s.core;
    UrlEndStep(s, None);
    One(s, ' ', "HTTP/" + [x, '.', y, CR, LF]);
    HttpWord(Sys(c.(state := ReqHttpStart, nread := c.nread + 1), s.app), [x, '.', y, CR, LF]);
    Numbers(Sys(c.(state := ReqHttpMajor, nread := c.nread + 6), s.app), x, y, "");
    NoRun(Sys(c.(state := HeaderFieldStart, nread := c.nread + 11, major := x as int - '0' as int,
                 minor := y as int - '0' as int), s.app));
    assert VersionText(x, y) == [' '] + ("HTTP/" + [x, '.', y, CR, LF]) && [x, '.', y, CR, LF] + "" == [x, '.', y, CR, LF];
  }
}
