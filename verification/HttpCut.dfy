/** Cutting the bytes of a request into buffers differently. */
module HttpCut {
  import opened Wrappers
  import opened HttpBytes
  import opened HttpStep
  import opened HttpRun

  /** The cut between the buffers does not separate an Upgrade value's first byte 'h'
      from a '2' after it. */
  predicate HarmlessCut(s: Sys, a: string, b: string)
    requires a != "" && b != ""
  {
    !(LooksAhead(Run(s, a, |a| - 1).core, a[|a| - 1]) && b[0] == '2')
  }

  lemma StepIgnoresNext(s: Sys, ch: char, next: Option<char>)
    requires !(LooksAhead(s.core, ch) && next == Some('2'))
    ensures Step(s, ch, next) == Step(s, ch, None)
  {
    NextMattersOnlyThere(Count(s.core, 1), ch, next);
    NextMattersOnlyThere(s.core, ch, next);
  }

  lemma {:induction false} RunOfFront(s: Sys, a: string, b: string, n: nat)
    requires n < |a|
    ensures Run(s, a + b, n) == Run(s, a, n)
  {
    if n > 0 {
      RunOfFront(s, a, b, n - 1);
      assert Next(a + b, n - 1) == Next(a, n - 1);
    }
  }

  lemma {:induction false} RunOfBack(s: Sys, a: string, b: string, n: nat)
    requires n <= |b| && Run(s, a + b, |a|) == RunAll(s, a)
    ensures Run(s, a + b, |a| + n) == Run(RunAll(s, a), b, n)
  {
    if n > 0 {
      RunOfBack(s, a, b, n - 1);
      assert (a + b)[|a| + n - 1] == b[n - 1];
      assert Next(a + b, |a| + n - 1) == Next(b, n - 1);
    }
  }

  /** One cut: the two buffers leave the parser as the whole does. */
  lemma OneCut(s: Sys, a: string, b: string)
    requires a != "" && b != "" && HarmlessCut(s, a, b)
    ensures RunAll(RunAll(s, a), b) == RunAll(s, a + b)
  {
    RunOfFront(s, a, b, |a| - 1);
    var s1, ch := Run(s, a, |a| - 1), a[|a| - 1];
    StepIgnoresNext(s1, ch, Next(a + b, |a| - 1));
    assert Run(s, a + b, |a|) == Step(s1, ch, Next(a + b, |a| - 1));
    RunOfBack(s, a, b, |b|);
  }

  function Concat(feeds: seq<string>): string {
    if feeds == [] then "" else feeds[0] + Concat(feeds[1..])
  }

  ghost predicate HarmlessFeeds(s: Sys, feeds: seq<string>)
    decreases |feeds|
  {
    && (forall i :: 0 <= i < |feeds| ==> feeds[i] != "")
    && (|feeds| > 1 ==> HarmlessCut(s, feeds[0], feeds[1]) && HarmlessFeeds(RunAll(s, feeds[0]), feeds[1..]))
  }

  lemma {:induction false} FeedsAreOneBuffer(s: Sys, feeds: seq<string>)
    requires feeds != [] && HarmlessFeeds(s, feeds)
    ensures Feed(s, feeds) == RunAll(s, Concat(feeds))
    decreases |feeds|
  {
    if |feeds| == 1 {
      assert feeds[1..] == [] && Concat(feeds) == feeds[0];
    } else {
      var rest := feeds[1..];
      FeedsAreOneBuffer(RunAll(s, feeds[0]), rest);
      assert Concat(rest) == rest[0] + Concat(rest[1..]);
      OneCut(s, feeds[0], Concat(rest));
    }
  }

  /** However the same bytes are cut into buffers, the parser ends in the same state
      with the same url, header pairs, body and flags, or fails either way. */
  lemma CutsDoNotMatter(s: Sys, feeds: seq<string>, other: seq<string>)
    requires feeds != [] && other != [] && Concat(feeds) == Concat(other)
    requires HarmlessFeeds(s, feeds) && HarmlessFeeds(s, other)
    ensures Feed(s, feeds) == Feed(s, other)
  {
    FeedsAreOneBuffer(s, feeds);
    FeedsAreOneBuffer(s, other);
  }

  lemma UpgradeTrans(c: Core, next: Option<char>)
    requires LooksAhead(c, 'h') && c.errno == OK
    ensures Trans(c, 'h', next) == Outcome(AfterH(c, next), [Mark(Value)])
  {
    assert Trans(c, 'h', next) == ValueStartByte(c, 'h', next);
  }

  function AfterH(c: Core, next: Option<char>): Core {
    c.(state := HeaderValue, index := 0, headerState := General,
       flags := if next == Some('2') then c.flags else c.flags.(upgrade := true))
  }

  lemma UpgradeStep(s: Sys, next: Option<char>)
    requires !Stopped(s) && LooksAhead(s.core, 'h') && s.core.nread < MAX_HEADER_SIZE
    ensures Step(s, 'h', next) == Sys(AfterH(Count(s.core, 1), next), Deliver(s.app, Value, "h"))
  {
    UpgradeTrans(Count(s.core, 1), next);
    ApplyOne(Mark(Value), NoMarks, s.app, "h", 0);
    PendingOnly(Value, 0, s.app, "h", 1);
  }

  lemma PlainValueStep(s: Sys, ch: char)
    requires !Stopped(s) && s.core.state.HeaderValue? && s.core.headerState.General? && s.core.nread < MAX_HEADER_SIZE
    requires '0' <= ch <= '9'
    ensures Step(s, ch, None) == Sys(s.core.(nread := s.core.nread + 1), Deliver(s.app, Value, [ch]))
  {
    assert Trans(Count(s.core, 1), ch, None) == Outcome(Count(s.core, 1), []);
  }

  /** A harmful cut does matter: cut between 'h' and '2' the value counts as an
      upgrade, in one buffer it does not. */
  lemma HarmfulCut(s: Sys)
    requires !Stopped(s) && LooksAhead(s.core, 'h') && s.core.nread + 2 <= MAX_HEADER_SIZE
    ensures !HarmlessCut(s, "h", "2")
    ensures RunAll(RunAll(s, "h"), "2").core.flags.upgrade
    ensures RunAll(s, "h2").core.flags.upgrade == s.core.flags.upgrade
    ensures RunAll(s, "h2") == RunAll(RunAll(s, "h"), "2") <==> s.core.flags.upgrade
  {
    UpgradeStep(s, None);
    UpgradeStep(s, Some('2'));
    var cut, whole := Step(s, 'h', None), Step(s, 'h', Some('2'));
    assert Run(s, "h2", 1) == Step(Run(s, "h2", 0), 'h', Some('2'));
    assert RunAll(s, "h") == Step(Run(s, "h", 0), 'h', None);
    PlainValueStep(cut, '2');
    PlainValueStep(whole, '2');
    assert RunAll(cut, "2") == Step(Run(cut, "2", 0), '2', None);
    assert RunAll(s, "h2") == Step(Run(s, "h2", 1), '2', None);
  }
}
