/** Which header names and methods the parser knows: the letter-by-letter matchers
    against the words themselves. */
module HttpNames {
  import opened Wrappers
  import opened HttpBytes
  import opened HttpGrammar
  import opened HttpStep
  import opened HttpRun
  import opened HttpMarks
  import opened HttpRefine

  // ----- header names -----------------------------------------------------------------

  /** The name in lower case, as the table `tokens` gives it. */
  function Folded(s: string): string {
    if s == "" then "" else Folded(s[..|s| - 1]) + [Token(s[|s| - 1])]
  }

  /** The header state that belongs to a name, or to the first part of one. */
  function Classify(s: string): HeaderState {
    if s == "" then General
    else if s <= "con" then (if |s| == 1 then C else if |s| == 2 then CO else CON)
    else if s == "connection" || s == "proxy-connection" then Connection
    else if s == "content-length" then ContentLength
    else if s == "transfer-encoding" then TransferEncoding
    else if s == "upgrade" then Upgrade
    else if s < "connection" then MatchingConnection
    else if s < "proxy-connection" then MatchingProxyConnection
    else if s < "content-length" then MatchingContentLength
    else if s < "transfer-encoding" then MatchingTransferEncoding
    else if s < "upgrade" then MatchingUpgrade
    else General
  }

  /** A name whose matching is under way; its letters are counted by the index. */
  predicate UnderWay(h: HeaderState) {
    match h
    case General | Connection | ContentLength | TransferEncoding | Upgrade => false
    case _ => true
  }

  predicate Classified(s: string, l: Letter) {
    l.h == Classify(s) && (UnderWay(l.h) ==> l.index == |s| - 1)
  }

  lemma PrefixMore(s: string, t: char, w: string)
    ensures s < w ==> (s + [t] <= w <==> t == w[|s|])
    ensures !(s < w) ==> !(s + [t] <= w)
  {
    if s + [t] <= w {
      assert w[..|s| + 1][..|s|] == s;
    }
  }

  /** The words differ within their first four letters. */
  lemma Apart(s: string)
    requires s != ""
    ensures s <= "con" ==> s[0] == 'c' && |s| <= 3
    ensures s <= "connection" ==> s[0] == 'c' && (|s| >= 4 ==> s[3] == 'n')
    ensures s <= "content-length" ==> s[0] == 'c' && (|s| >= 4 ==> s[3] == 't')
    ensures s <= "proxy-connection" ==> s[0] == 'p'
    ensures s <= "transfer-encoding" ==> s[0] == 't'
    ensures s <= "upgrade" ==> s[0] == 'u'
  {
    assert s <= "connection" ==> s[0] == "connection"[0] && (|s| >= 4 ==> s[3] == "connection"[3]);
    assert s <= "content-length" ==> s[0] == "content-length"[0] && (|s| >= 4 ==> s[3] == "content-length"[3]);
    assert s <= "proxy-connection" ==> s[0] == "proxy-connection"[0];
    assert s <= "transfer-encoding" ==> s[0] == "transfer-encoding"[0];
    assert s <= "upgrade" ==> s[0] == "upgrade"[0];
  }

  lemma NextOfConnection(s: string, i: nat, t: char)
    requires s != "" && |s| >= 4 && s < "connection" && i == |s| - 1
    ensures Classified(s + [t], NextField(MatchingConnection, i, t))
  {
    Apart(s);
    Apart(s + [t]);
    PrefixMore(s, t, "connection");
    assert (s + [t])[0] == s[0] && (s + [t])[3] == s[3];
  }

  lemma NextOfContentLength(s: string, i: nat, t: char)
    requires s != "" && |s| >= 4 && s < "content-length" && i == |s| - 1
    ensures Classified(s + [t], NextField(MatchingContentLength, i, t))
  {
    Apart(s);
    Apart(s + [t]);
    PrefixMore(s, t, "content-length");
    assert (s + [t])[0] == s[0] && (s + [t])[3] == s[3];
  }

  lemma NextOfProxyConnection(s: string, i: nat, t: char)
    requires s != "" && s < "proxy-connection" && i == |s| - 1
    ensures Classified(s + [t], NextField(MatchingProxyConnection, i, t))
  {
    Apart(s);
    Apart(s + [t]);
    PrefixMore(s, t, "proxy-connection");
    assert (s + [t])[0] == s[0];
  }

  lemma NextOfTransferEncoding(s: string, i: nat, t: char)
    requires s != "" && s < "transfer-encoding" && i == |s| - 1
    ensures Classified(s + [t], NextField(MatchingTransferEncoding, i, t))
  {
    Apart(s);
    Apart(s + [t]);
    PrefixMore(s, t, "transfer-encoding");
    assert (s + [t])[0] == s[0];
  }

  lemma NextOfUpgrade(s: string, i: nat, t: char)
    requires s != "" && s < "upgrade" && i == |s| - 1
    ensures Classified(s + [t], NextField(MatchingUpgrade, i, t))
  {
    Apart(s);
    Apart(s + [t]);
    PrefixMore(s, t, "upgrade");
    assert (s + [t])[0] == s[0];
  }

  lemma NextOfCon(s: string, h: HeaderState, i: nat, t: char)
    requires s != "" && s <= "con" && i == |s| - 1 && h == (if |s| == 1 then C else if |s| == 2 then CO else CON)
    ensures Classified(s + [t], NextField(h, i, t))
  {
    Apart(s);
    Apart(s + [t]);
    PrefixMore(s, t, "con");
    assert (s + [t])[0] == s[0];
    if |s| == 3 {
      PrefixMore(s, t, "connection");
      PrefixMore(s, t, "content-length");
      assert (s + [t])[3] == t;
    }
  }

  /** A whole word, or a name that is no word: no letter leads to a word any more. */
  lemma NextOfOther(s: string, h: HeaderState, i: nat, t: char)
    requires s != "" && h == Classify(s) && !UnderWay(h)
    ensures Classified(s + [t], NextField(h, i, t))
  {
    Apart(s);
    assert s == "connection" ==> s[0] == 'c' && s[3] == 'n';
    assert s == "proxy-connection" ==> s[0] == 'p';
    assert s == "content-length" ==> s[0] == 'c' && s[3] == 't';
    assert s == "transfer-encoding" ==> s[0] == 't';
    assert s == "upgrade" ==> s[0] == 'u';
    PrefixMore(s, t, "con");
    PrefixMore(s, t, "connection");
    PrefixMore(s, t, "proxy-connection");
    PrefixMore(s, t, "content-length");
    PrefixMore(s, t, "transfer-encoding");
    PrefixMore(s, t, "upgrade");
  }

  /** One letter more. */
  lemma NextClassified(s: string, l: Letter, t: char)
    requires s != "" && Classified(s, l)
    ensures Classified(s + [t], NextField(l.h, l.index, t))
  {
    hide NextField, Classified;
    assert l.h == Classify(s) && (UnderWay(l.h) ==> l.index == |s| - 1) by { ClassifiedMeans(s, l); }
    match l.h
    case MatchingConnection => NextOfConnection(s, l.index, t);
    case MatchingContentLength => NextOfContentLength(s, l.index, t);
    case MatchingProxyConnection => NextOfProxyConnection(s, l.index, t);
    case MatchingTransferEncoding => NextOfTransferEncoding(s, l.index, t);
    case MatchingUpgrade => NextOfUpgrade(s, l.index, t);
    case C => NextOfCon(s, C, l.index, t);
    case CO => NextOfCon(s, CO, l.index, t);
    case CON => NextOfCon(s, CON, l.index, t);
    case _ => NextOfOther(s, l.h, l.index, t);
  }

  lemma ClassifiedMeans(s: string, l: Letter)
    requires Classified(s, l)
    ensures l.h == Classify(s) && (UnderWay(l.h) ==> l.index == |s| - 1)
  {
  }

  /** The first letter of a name. */
  lemma FirstClassified(c: Core, ch: char)
    requires c.state.HeaderFieldStart? && c.errno == OK && Token(ch) != '\0'
    ensures var r := HeaderFieldStartByte(c, ch);
      r.core.state.HeaderField? && r.core.errno == OK && Classified([Token(ch)], Letter(r.core.headerState, r.core.index))
  {
    Apart([Token(ch)]);
  }

  predicate IsName(s: string) { forall i :: 0 <= i < |s| ==> Token(s[i]) != '\0' }

  lemma FieldStarts(c: Core, ch: char, next: Option<char>)
    requires c.state.HeaderFieldStart? && c.errno == OK && Token(ch) != '\0'
    ensures Trans(c, ch, next) == HeaderFieldStartByte(c, ch)
    ensures HeaderFieldStartByte(c, ch).acts == [Mark(Field)] && HeaderFieldStartByte(c, ch).core.errno == OK
  {
  }

  lemma FirstStep(s: Sys, ch: char, next: Option<char>)
    requires !Stopped(s) && s.core.nread < MAX_HEADER_SIZE && Token(ch) != '\0' && s.core.state.HeaderFieldStart?
    ensures Step(s, ch, next).core == HeaderFieldStartByte(s.core.(nread := s.core.nread + 1), ch).core
    ensures !Stopped(Step(s, ch, next))
  {
    hide Pending, Trans, HeaderFieldStartByte, Apply, Token;
    FieldStarts(s.core.(nread := s.core.nread + 1), ch, next);
    ApplyOne(Mark(Field), NoMarks, s.app, [ch], 0);
    PendingComplete(Only(Field, 0), s.app, [ch], 1);
  }

  lemma LetterStep(s: Sys, ch: char, next: Option<char>)
    requires !Stopped(s) && s.core.nread < MAX_HEADER_SIZE && Token(ch) != '\0' && s.core.state.HeaderField?
    ensures Step(s, ch, next).core == FieldLetter(s.core.(nread := s.core.nread + 1), Token(ch))
    ensures !Stopped(Step(s, ch, next))
  {
    hide Pending, FieldLetter, Trans;
    var c := s.core.(nread := s.core.nread + 1);
    FieldLetterNread(c, Token(ch), 0);
    TransField(c, ch, next);
    PendingComplete(StartMarks(c.state), s.app, [ch], 1);
  }

  lemma {:induction false} NameRun(s: Sys, data: string, n: nat)
    requires !Stopped(s) && s.core.state.HeaderFieldStart? && 0 < n <= |data|
    requires IsName(data[..n]) && s.core.nread + n <= MAX_HEADER_SIZE
    ensures var s' := Run(s, data, n);
      && !Stopped(s') && s'.core.state.HeaderField? && s'.core.nread == s.core.nread + n
      && Classified(Folded(data[..n]), Letter(s'.core.headerState, s'.core.index))
      && |Folded(data[..n])| == n
      && (s'.core.usesTransferEncoding <==> s.core.usesTransferEncoding || "transfer-encoding" <= Folded(data[..n]))
  {
    hide Step, Classified, NextField;
    var ch, next, front := data[n - 1], Next(data, n - 1), data[..n - 1];
    assert data[..n][..n - 1] == front && data[..n][n - 1] == ch;
    if n == 1 {
      FirstStep(s, ch, next);
      FirstClassified(s.core.(nread := s.core.nread + 1), ch);
      assert "" + [Token(ch)] == [Token(ch)];
      assert |"transfer-encoding"| > 1;
    } else {
      assert IsName(front);
      NameRun(s, data, n - 1);
      var c := Run(s, data, n - 1).core;
      LetterStep(Run(s, data, n - 1), ch, next);
      NextClassified(Folded(front), Letter(c.headerState, c.index), Token(ch));
      UsesTransferEncoding(Folded(front), c, Token(ch));
      assert Folded(data[..n]) == Folded(front) + [Token(ch)];
    }
  }

  /** The transfer encoding is noted as soon as its name was read, even when the name
      goes on. */
  lemma UsesTransferEncoding(s: string, c: Core, t: char)
    requires s != "" && Classified(s, Letter(c.headerState, c.index))
    ensures Classified(s + [t], NextField(c.headerState, c.index, t)) ==>
      (FieldLetter(c, t).usesTransferEncoding <==>
        c.usesTransferEncoding || ("transfer-encoding" <= s + [t] && !("transfer-encoding" <= s)))
  {
    hide NextField;
    var w := "transfer-encoding";
    if w <= s + [t] && !(w <= s) {
      assert s + [t] == w && s == w[..16];
      WordUnderWay(s);
    }
    if Classify(s + [t]).TransferEncoding? { WordDone(s, t); }
  }

  lemma WordUnderWay(s: string)
    requires s == "transfer-encoding"[..16]
    ensures Classify(s) == MatchingTransferEncoding && Classify("transfer-encoding") == TransferEncoding
  {
    Apart(s);
    Apart("transfer-encoding");
    assert s[0] == 't';
  }

  lemma WordDone(s: string, t: char)
    requires Classify(s + [t]).TransferEncoding?
    ensures s + [t] == "transfer-encoding" && !("transfer-encoding" <= s)
  {
    Whole(s + [t]);
  }

  lemma {:induction false} FoldedAt(s: string, i: nat)
    requires i < |s|
    ensures |Folded(s)| == |s| && Folded(s)[i] == Token(s[i])
  {
    if i < |s| - 1 {
      FoldedAt(s[..|s| - 1], i);
    } else if |s| > 1 {
      FoldedAt(s[..|s| - 1], 0);
    }
  }

  /** Folding is what makes names equal in any case. */
  lemma {:induction false} FoldedIs(s: string, w: string)
    requires IsLowerWord(w)
    ensures Folded(s) == w <==> InAnyCase(s, w)
  {
    if s == "" || w == "" {
      FoldedSize(s);
    } else {
      var front, last, most := s[..|s| - 1], s[|s| - 1], w[..|w| - 1];
      assert IsWordChar(w[|w| - 1]) && w == most + [w[|w| - 1]] && forall i :: 0 <= i < |most| ==> most[i] == w[i];
      FoldedIs(front, most);
      TokenFolds(last, w[|w| - 1]);
      FoldedSize(s);
      FoldedSize(front);
      if InAnyCase(s, w) { assert forall i :: 0 <= i < |front| ==> SameLetter(front[i], most[i]) by { FrontInAnyCase(s, w); } }
      if InAnyCase(front, most) && |s| == |w| && SameLetter(last, w[|w| - 1]) {
        forall i | 0 <= i < |s| ensures SameLetter(s[i], w[i]) {
          if i < |front| { assert SameLetter(front[i], most[i]); }
        }
      }
      assert Folded(s)[..|s| - 1] == Folded(front) && Folded(s)[|s| - 1] == Token(last);
      if Folded(s) == w { assert w[..|w| - 1] == Folded(front); }
    }
  }

  lemma FrontInAnyCase(s: string, w: string)
    requires s != "" && InAnyCase(s, w)
    ensures InAnyCase(s[..|s| - 1], w[..|w| - 1]) && SameLetter(s[|s| - 1], w[|w| - 1])
  {
    var front, most := s[..|s| - 1], w[..|w| - 1];
    forall i | 0 <= i < |front| ensures SameLetter(front[i], most[i]) { assert SameLetter(s[i], w[i]); }
  }

  lemma {:induction false} FoldedSize(s: string)
    ensures |Folded(s)| == |s|
  {
    if s != "" { FoldedSize(s[..|s| - 1]); }
  }

  lemma {:induction false} FoldedPrefix(s: string, n: nat)
    requires n <= |s|
    ensures Folded(s[..n]) <= Folded(s) && |Folded(s)| == |s|
  {
    FoldedSize(s);
    if n < |s| {
      FoldedPrefix(s[..|s| - 1], n);
      assert s[..|s| - 1][..n] == s[..n];
    } else {
      assert s[..n] == s;
    }
  }

  lemma FoldedBegins(s: string, w: string)
    requires IsLowerWord(w)
    ensures w <= Folded(s) <==> BeginsInAnyCase(s, w)
  {
    FoldedSize(s);
    if |w| <= |s| {
      FoldedPrefix(s, |w|);
      FoldedSize(s[..|w|]);
      FoldedIs(s[..|w|], w);
      assert Folded(s)[..|w|] == Folded(s[..|w|]);
    }
  }

  /** Names are of the characters of tokens. */
  lemma NamesAreTokens(s: string)
    ensures s != "" && IsName(s) <==> IsToken(s)
  {
    forall i | 0 <= i < |s| ensures Token(s[i]) != '\0' <==> IsTchar(s[i]) { TokensAreTchars(s[i]); }
  }

  /** The names that the parser acts on. */
  lemma KnownNames(s: string)
    ensures Folded(s) == "connection" <==> InAnyCase(s, "connection")
    ensures Folded(s) == "proxy-connection" <==> InAnyCase(s, "proxy-connection")
    ensures Folded(s) == "content-length" <==> InAnyCase(s, "content-length")
    ensures Folded(s) == "transfer-encoding" <==> InAnyCase(s, "transfer-encoding")
    ensures Folded(s) == "upgrade" <==> InAnyCase(s, "upgrade")
    ensures "transfer-encoding" <= Folded(s) <==> BeginsInAnyCase(s, "transfer-encoding")
  {
    hide Folded, InAnyCase, BeginsInAnyCase;
    FoldedIs(s, "connection");
    FoldedIs(s, "proxy-connection");
    FoldedIs(s, "content-length");
    FoldedIs(s, "transfer-encoding");
    FoldedIs(s, "upgrade");
    FoldedBegins(s, "transfer-encoding");
  }

  /** A field name is taken for one of the names the parser acts on exactly when it is
      that name, in any case of its letters. */
  lemma NamesAreKnown(s: Sys, data: string, n: nat)
    requires !Stopped(s) && s.core.state.HeaderFieldStart? && 0 < n <= |data|
    requires IsToken(data[..n]) && s.core.nread + n <= MAX_HEADER_SIZE
    ensures var h, name := Run(s, data, n).core.headerState, data[..n];
      && (h.Connection? <==> InAnyCase(name, "connection") || InAnyCase(name, "proxy-connection"))
      && (h.ContentLength? <==> InAnyCase(name, "content-length"))
      && (h.TransferEncoding? <==> InAnyCase(name, "transfer-encoding"))
      && (h.Upgrade? <==> InAnyCase(name, "upgrade"))
    ensures Run(s, data, n).core.usesTransferEncoding <==>
      s.core.usesTransferEncoding || BeginsInAnyCase(data[..n], "transfer-encoding")
  {
    hide InAnyCase, BeginsInAnyCase, Folded, Classify, Run, IsName, IsToken;
    NamesAreTokens(data[..n]);
    NameRun(s, data, n);
    var l := Letter(Run(s, data, n).core.headerState, Run(s, data, n).core.index);
    ClassifiedMeans(Folded(data[..n]), l);
    FoldedSize(data[..n]);
    Whole(Folded(data[..n]));
    KnownNames(data[..n]);
  }

  lemma Whole(s: string)
    requires s != ""
    ensures Classify(s).Connection? <==> s == "connection" || s == "proxy-connection"
    ensures Classify(s).ContentLength? <==> s == "content-length"
    ensures Classify(s).TransferEncoding? <==> s == "transfer-encoding"
    ensures Classify(s).Upgrade? <==> s == "upgrade"
  {
    Apart(s);
    assert |"connection"| == 10 && |"content-length"| == 14;
    assert s == "content-length" ==> s[3] == 't';
    assert s == "transfer-encoding" ==> s[0] == 't';
    assert s == "upgrade" ==> s[0] == 'u';
  }
}
