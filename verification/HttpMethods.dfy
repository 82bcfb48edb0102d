/** The method of a request: the parser's guess-and-turn table accepts exactly the
    tokens of its list of methods. */
module HttpMethods {
  import opened Wrappers
  import opened HttpBytes
  import opened HttpStep
  import opened HttpRun
  import opened HttpMarks
  import opened HttpRefine
  import opened HttpInv
  import HttpBody

  /** The letters read so far are the first letters of the method guessed. */
  predicate Spells(meth: nat, index: nat, text: string) {
    MethodOk(meth, index) && text == MethodName(meth)[..index]
  }

  predicate Turns(meth: nat, index: nat, ch: char) {
    TurnMethod(meth, index, ch).Some? ==>
      var m := TurnMethod(meth, index, ch).value;
      MethodOk(m, index + 1) && MethodName(m)[..index + 1] == MethodName(meth)[..index] + [ch]
  }

  lemma TurnsOfP(meth: nat, index: nat, ch: char)
    requires MethodOk(meth, index) && (meth == POST || meth == PUT || meth == PROPFIND)
    ensures Turns(meth, index, ch)
  {
  }

  lemma TurnsOfCM(meth: nat, index: nat, ch: char)
    requires MethodOk(meth, index) && (meth == CONNECT || meth == MKCOL)
    ensures Turns(meth, index, ch)
  {
  }

  lemma TurnsOfRest(meth: nat, index: nat, ch: char)
    requires MethodOk(meth, index) && (meth == SUBSCRIBE || meth == REPORT || meth == LOCK || meth == UNLOCK)
    ensures Turns(meth, index, ch)
  {
  }

  /** Where a guess is turned, both names agree on the letters already read. */
  lemma TurnSpells(meth: nat, index: nat, ch: char)
    requires MethodOk(meth, index)
    ensures Turns(meth, index, ch)
  {
    if meth == POST || meth == PUT || meth == PROPFIND {
      TurnsOfP(meth, index, ch);
    } else if meth == CONNECT || meth == MKCOL {
      TurnsOfCM(meth, index, ch);
    } else if meth == SUBSCRIBE || meth == REPORT || meth == LOCK || meth == UNLOCK {
      TurnsOfRest(meth, index, ch);
    }
    hide MethodName;
  }

  lemma FirstSpells(ch: char)
    requires FirstMethod(ch).Some?
    ensures Spells(FirstMethod(ch).value, 1, [ch])
  {
  }

  lemma NextSpells(meth: nat, index: nat, ch: char, text: string)
    requires Spells(meth, index, text) && NextMethod(meth, index, ch).Some?
    ensures var (m, s) := NextMethod(meth, index, ch).value;
      && (s.ReqMethod? ==> Spells(m, index + 1, text + [ch]))
      && (s.ReqSpacesBeforeUrl? ==> m == meth && text == MethodName(m) && ch == ' ')
      && (s.ReqMethod? || s.ReqSpacesBeforeUrl?)
  {
    hide TurnMethod, MethodName;
    var name := MethodName(meth);
    NoBlank(meth);
    if ch == ' ' && At(name, index) == '\0' {
      assert index == |name| && name[..index] == name;
    } else if ch == At(name, index) {
      assert index < |name|;
      assert name[..index + 1] == name[..index] + [ch];
    } else {
      TurnSpells(meth, index, ch);
    }
  }

  /** No method name holds a blank or a NUL. */
  lemma NoBlank(meth: nat)
    requires meth < |METHOD_STRINGS|
    ensures Plain(MethodName(meth))
  {
    if meth < 20 { NoBlankBefore(meth); } else { NoBlankAfter(meth); }
    hide MethodName, Plain;
  }

  predicate Plain(s: string) { forall i :: 0 <= i < |s| ==> s[i] != ' ' && s[i] != '\0' }

  lemma NoBlankBefore(meth: nat)
    requires meth < 20
    ensures Plain(MethodName(meth))
  {
  }

  lemma NoBlankAfter(meth: nat)
    requires 20 <= meth < |METHOD_STRINGS|
    ensures Plain(MethodName(meth))
  {
  }

  // ----- every name is reached -------------------------------------------------------

  /** The guess that a method is turned from, and the index of its own letter. */
  function Parent(meth: nat): Option<(nat, nat)> {
    if meth == PUT || meth == PATCH || meth == PROPFIND then Some((POST, 1))
    else if meth == PURGE then Some((PUT, 2))
    else if meth == PROPPATCH then Some((PROPFIND, 4))
    else if meth == CHECKOUT then Some((CONNECT, 1))
    else if meth == COPY then Some((CONNECT, 2))
    else if meth == MOVE || meth == MERGE || meth == MSEARCH then Some((MKCOL, 1))
    else if meth == MKACTIVITY then Some((MKCOL, 2))
    else if meth == MKCALENDAR then Some((MKCOL, 3))
    else if meth == SEARCH || meth == SOURCE then Some((SUBSCRIBE, 1))
    else if meth == REBIND then Some((REPORT, 2))
    else if meth == LINK then Some((LOCK, 1))
    else if meth == UNSUBSCRIBE || meth == UNBIND then Some((UNLOCK, 2))
    else if meth == UNLINK then Some((UNLOCK, 3))
    else None
  }

  function Depth(meth: nat): nat {
    if meth == PURGE || meth == PROPPATCH then 2 else if Parent(meth).Some? then 1 else 0
  }

  /** The guess after `i` letters of the name of `meth`. */
  function Guess(meth: nat, i: nat): nat
    decreases Depth(meth)
  {
    match Parent(meth)
    case Some((q, k)) => if i <= k then Guess(q, i) else meth
    case None => meth
  }

  lemma ParentTurns(meth: nat)
    requires meth < |METHOD_STRINGS| && Parent(meth).Some?
    ensures var (q, k), name := Parent(meth).value, MethodName(meth);
      && q < |METHOD_STRINGS| && 1 <= k < |name| && k <= |MethodName(q)|
      && name[..k] == MethodName(q)[..k] && name[k] != At(MethodName(q), k)
      && ('A' <= name[k] <= 'Z' || name[k] == '-') && TurnMethod(q, k, name[k]) == Some(meth)
      && Guess(q, k) == q
  {
  }

  lemma RootStarts(meth: nat)
    requires meth < |METHOD_STRINGS| && Parent(meth).None?
    ensures |MethodName(meth)| >= 1 && FirstMethod(MethodName(meth)[0]) == Some(meth)
  {
  }

  /** A letter that is the guess's own. */
  lemma OwnLetter(meth: nat, i: nat)
    requires meth < |METHOD_STRINGS| && i < |MethodName(meth)|
    ensures NextMethod(meth, i, MethodName(meth)[i]) == Some((meth, ReqMethod))
  {
    NoBlank(meth);
    hide MethodName, TurnMethod;
  }

  lemma TurnLetter(q: nat, k: nat, meth: nat, ch: char)
    requires q < |METHOD_STRINGS| && ch != At(MethodName(q), k)
    requires ('A' <= ch <= 'Z' || ch == '-') && TurnMethod(q, k, ch) == Some(meth)
    ensures NextMethod(q, k, ch) == Some((meth, ReqMethod))
  {
    hide MethodName, TurnMethod;
  }

  /** Reading a name letter by letter goes through its guesses. */
  lemma {:induction false} GuessNext(meth: nat, i: nat)
    requires meth < |METHOD_STRINGS| && 1 <= i < |MethodName(meth)|
    ensures NextMethod(Guess(meth, i), i, MethodName(meth)[i]) == Some((Guess(meth, i + 1), ReqMethod))
    decreases Depth(meth)
  {
    hide MethodName, NextMethod, TurnMethod;
    match Parent(meth)
    case None => OwnLetter(meth, i);
    case Some((q, k)) =>
      ParentTurns(meth);
      if i < k {
        assert MethodName(meth)[..k][i] == MethodName(q)[..k][i];
        DepthLess(meth);
        GuessNext(q, i);
      } else if i == k {
        TurnLetter(q, k, meth, MethodName(meth)[k]);
      } else {
        OwnLetter(meth, i);
      }
  }

  lemma DepthLess(meth: nat)
    requires Parent(meth).Some?
    ensures Depth(Parent(meth).value.0) < Depth(meth)
  {
  }

  lemma {:induction false} GuessEnds(meth: nat)
    requires meth < |METHOD_STRINGS|
    ensures |MethodName(meth)| >= 1 && Guess(meth, |MethodName(meth)|) == meth
    ensures FirstMethod(MethodName(meth)[0]) == Some(Guess(meth, 1))
    decreases Depth(meth)
  {
    hide MethodName, TurnMethod, FirstMethod;
    match Parent(meth)
    case None => RootStarts(meth);
    case Some((q, k)) =>
      ParentTurns(meth);
      DepthLess(meth);
      GuessEnds(q);
      assert MethodName(meth)[..k][0] == MethodName(q)[..k][0];
  }

  // ----- runs --------------------------------------------------------------------------

  lemma LetterStep(s: Sys, ch: char, next: Option<char>)
    requires !Stopped(s) && s.core.state.ReqMethod? && s.core.nread < MAX_HEADER_SIZE
    ensures match NextMethod(s.core.meth, s.core.index, ch)
      case None => Step(s, ch, next).core.errno == InvalidMethod
      case Some((m, st)) =>
        Step(s, ch, next) == Sys(s.core.(meth := m, index := s.core.index + 1, state := st, nread := s.core.nread + 1),
                                 s.app.(meth := m))
  {
    hide NextMethod, Apply, Pending;
    var c := s.core.(nread := s.core.nread + 1);
    assert Trans(c, ch, next) == MethodByte(c, ch);
    match NextMethod(c.meth, c.index, ch)
    case None =>
    case Some((m, st)) =>
      ApplyOne(OnMethod(m), NoMarks, s.app, [ch], 0);
      NothingPending(s.app.(meth := m), [ch], 1);
  }

  /** The parser after `n` letters of a method, `m` being the guess. */
  function Begun(c: Core, m: nat, n: nat): Core {
    c.(flags := NoFlags, usesTransferEncoding := false, contentLength := ULLONG_MAX, state := ReqMethod, meth := m,
       index := n, nread := c.nread + n)
  }

  lemma Starts(c: Core, ch: char, next: Option<char>)
    requires c.state.StartReq? && c.errno == OK && ch != CR && ch != LF
    ensures var r := Trans(c, ch, next); match FirstMethod(ch)
      case None => r.core.errno == InvalidMethod
      case Some(m) => r == Outcome(Begun(c, m, 1).(nread := c.nread), [])
  {
    assert Trans(c, ch, next) == StartReqByte(c, ch);
  }

  lemma FirstStep(s: Sys, ch: char, next: Option<char>)
    requires !Stopped(s) && s.core.state.StartReq? && s.core.nread < MAX_HEADER_SIZE && ch != CR && ch != LF
    ensures match FirstMethod(ch)
      case None => Step(s, ch, next).core.errno == InvalidMethod
      case Some(m) => Step(s, ch, next) == Sys(Begun(s.core, m, 1), s.app)
  {
    hide Apply, Pending, Trans, FirstMethod;
    Starts(s.core.(nread := s.core.nread + 1), ch, next);
    HttpBody.ApplyNothing(NoMarks, s.app, [ch], 0);
    NothingPending(s.app, [ch], 1);
  }

  /** Until the first blank, the letters are those of the guess, or the method is refused. */
  lemma {:induction false} LettersAreSpelled(s: Sys, data: string, n: nat)
    requires !Stopped(s) && s.core.state.StartReq? && 0 < n <= |data| && s.core.nread + n <= MAX_HEADER_SIZE
    requires data[0] != CR && data[0] != LF && ' ' !in data[..n]
    ensures var s' := Run(s, data, n);
      s'.core.errno == OK ==>
        !Stopped(s') && s'.core.state.ReqMethod? && s'.core.nread == s.core.nread + n && s'.core.index == n
        && Spells(s'.core.meth, n, data[..n])
  {
    hide Step, MethodName;
    var s1, ch, next := Run(s, data, n - 1), data[n - 1], Next(data, n - 1);
    if n == 1 {
      FirstStep(s, ch, next);
      if FirstMethod(ch).Some? { FirstSpells(ch); }
      assert data[..1] == [ch];
    } else {
      assert data[..n - 1] + [ch] == data[..n] && data[..n][n - 1] == ch;
      assert ' ' !in data[..n - 1];
      LettersAreSpelled(s, data, n - 1);
      if s1.core.errno != OK {
        StepStopped(s1, ch, next);
      } else {
        LetterStep(s1, ch, next);
        if NextMethod(s1.core.meth, n - 1, ch).Some? { NextSpells(s1.core.meth, n - 1, ch, data[..n - 1]); }
      }
    }
  }

  lemma {:induction false} NameIsGuessed(s: Sys, data: string, n: nat, meth: nat)
    requires !Stopped(s) && s.core.state.StartReq? && s.core.nread + n <= MAX_HEADER_SIZE
    requires meth < |METHOD_STRINGS| && 0 < n <= |MethodName(meth)| && MethodName(meth) <= data
    ensures Run(s, data, n).core == Begun(s.core, Guess(meth, n), n)
    ensures Run(s, data, n).app.(meth := DELETE) == s.app.(meth := DELETE)
  {
    hide Step, MethodName, Guess, NextMethod, FirstMethod;
    var s1, ch, next := Run(s, data, n - 1), data[n - 1], Next(data, n - 1);
    assert ch == MethodName(meth)[n - 1];
    if n == 1 {
      GuessEnds(meth);
      assert FirstMethod(CR).None? && FirstMethod(LF).None? by { NoMethod(); }
      FirstStep(s, ch, next);
    } else {
      NameIsGuessed(s, data, n - 1, meth);
      GuessNext(meth, n - 1);
      LetterStep(s1, ch, next);
    }
  }

  lemma NoMethod()
    ensures FirstMethod(CR).None? && FirstMethod(LF).None?
  {
  }

  /** The text before the first blank is accepted exactly when it is the name of a
      method, and the method is then that one. */
  lemma MethodIsItsName(s: Sys, data: string, n: nat)
    requires !Stopped(s) && s.core.state.StartReq? && 0 < n < |data| && s.core.nread + n < MAX_HEADER_SIZE
    requires data[0] != CR && data[0] != LF && ' ' !in data[..n] && data[n] == ' '
    ensures var s' := Run(s, data, n + 1);
      && (s'.core.errno == OK <==> data[..n] in METHOD_STRINGS)
      && (s'.core.errno == OK ==>
            s'.core.state.ReqSpacesBeforeUrl? && MethodName(s'.core.meth) == data[..n] && s'.app.meth == s'.core.meth)
  {
    hide Step;
    var s1, next := Run(s, data, n), Next(data, n);
    LettersAreSpelled(s, data, n);
    if s1.core.errno != OK {
      StepStopped(s1, ' ', next);
    } else {
      LetterStep(s1, ' ', next);
      BlankEnds(s1.core.meth, n, data[..n]);
    }
    if data[..n] in METHOD_STRINGS {
      var meth :| 0 <= meth < |METHOD_STRINGS| && METHOD_STRINGS[meth] == data[..n];
      NameIsGuessed(s, data, n, meth);
      GuessEnds(meth);
      BlankEnds(meth, n, data[..n]);
    }
  }

  lemma BlankEnds(meth: nat, n: nat, text: string)
    requires Spells(meth, n, text)
    ensures NextMethod(meth, n, ' ') == if text == MethodName(meth) then Some((meth, ReqSpacesBeforeUrl)) else None
  {
    NoBlank(meth);
    hide MethodName, TurnMethod;
  }
}
