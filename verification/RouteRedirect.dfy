/** Rules with a trailing slash: the pattern stored without it, and the URL that the
    redirect sends the client to. */
module RouteRedirect {
  import opened Wrappers
  import opened RouteTree
  import opened RouteRule

  /** A scanner of doubles never looks past a '/'. */
  ghost predicate StopsAtSlash(strtod: DoubleScanner) {
    forall url: string, pos: nat {:trigger strtod(url + "/", pos)} ::
      pos < |url| ==> strtod(url + "/", pos) == strtod(url, pos)
  }

  // ----- the rule without its slash --------------------------------------------

  lemma {:induction false} TagBeforeSlash(r: string, i: nat, k: nat)
    requires i <= |r| && k <= |PARAM_TRAITS|
    ensures TagFrom(r + "/", i, k) == TagFrom(r, i, k)
    decreases |PARAM_TRAITS| - k
  {
    if k < |PARAM_TRAITS| {
      var name := PARAM_TRAITS[k].name;
      assert name[|name| - 1] == '>';
      var end := i + |name|;
      if end <= |r| { assert (r + "/")[i..end] == r[i..end]; }
      if end == |r| + 1 { assert (r + "/")[i..end][|name| - 1] == '/'; }
      TagBeforeSlash(r, i, k + 1);
    }
  }

  lemma {:induction false} RuleBeforeSlash(r: string, i: nat)
    requires i <= |r| && GoodRule(r + "/", i)
    ensures GoodRule(r, i)
    ensures Segs(Tokenize(r + "/", i, 0, None)) == Segs(Tokenize(r, i, 0, None)) + [Lit('/')]
    decreases |r| - i
  {
    if i == |r| {
      SegsCons(Tok(Lit('/'), None), []);
    } else {
      TagBeforeSlash(r, i, 0);
      assert NextTok(r + "/", i, 0, None) == NextTok(r, i, 0, None);
      var (tok, next) := NextTok(r, i, 0, None).value;
      RuleBeforeSlash(r, next);
      SegsCons(tok, Tokenize(r, next, 0, None));
      SegsCons(tok, Tokenize(r + "/", next, 0, None));
    }
  }

  /** Dropping the trailing slash of a rule drops the last segment of its pattern. */
  lemma PatternBeforeSlash(rule: string)
    requires |rule| > 0 && rule[|rule| - 1] == '/' && GoodRule(rule, 0)
    ensures GoodRule(rule[..|rule| - 1], 0)
    ensures PatternOf(rule) == PatternOf(rule[..|rule| - 1]) + [Lit('/')]
  {
    assert rule[..|rule| - 1] + "/" == rule;
    RuleBeforeSlash(rule[..|rule| - 1], 0);
  }

  // ----- the URL with a slash added -------------------------------------------------

  lemma {:induction false} DigitsBeforeSlash(u: string, i: nat)
    requires i <= |u|
    ensures DigitsEnd(u + "/", i) == DigitsEnd(u, i)
    decreases |u| - i
  {
    if i < |u| { DigitsBeforeSlash(u, i + 1); }
  }

  lemma {:induction false} SlashBeforeSlash(u: string, i: nat)
    requires i <= |u|
    ensures SlashOrEnd(u + "/", i) == SlashOrEnd(u, i)
    decreases |u| - i
  {
    if i < |u| { SlashBeforeSlash(u, i + 1); }
  }

  lemma ScanIntBeforeSlash(u: string, pos: nat)
    requires pos < |u|
    ensures ScanInt(u + "/", pos) == ScanInt(u, pos)
  {
    var start := if u[pos] == '+' || u[pos] == '-' then pos + 1 else pos;
    DigitsBeforeSlash(u, start);
    var end := DigitsEnd(u, start);
    assert (u + "/")[start..end] == u[start..end];
  }

  lemma ScanUintBeforeSlash(u: string, pos: nat)
    requires pos < |u|
    ensures ScanUint(u + "/", pos) == ScanUint(u, pos)
  {
    var start := if u[pos] == '+' then pos + 1 else pos;
    DigitsBeforeSlash(u, start);
    var end := DigitsEnd(u, start);
    assert (u + "/")[start..end] == u[start..end];
  }

  lemma ScanBeforeSlash(t: ParamType, u: string, pos: nat, strtod: DoubleScanner)
    requires pos < |u| && t != PATH && StopsAtSlash(strtod)
    ensures Scan(t, u + "/", pos, strtod) == Scan(t, u, pos, strtod)
  {
    match t
    case INT => ScanIntBeforeSlash(u, pos);
    case UINT => ScanUintBeforeSlash(u, pos);
    case STRING =>
      SlashBeforeSlash(u, pos);
      assert (u + "/")[pos..SlashOrEnd(u, pos)] == u[pos..SlashOrEnd(u, pos)];
    case _ =>
  }

  /** What a pattern without `<path>` matches, the pattern with a slash matches with
      a slash added, and captures the same. */
  lemma {:induction false} MatchWithSlash(segs: Pattern, u: string, pos: nat, p: Params, strtod: DoubleScanner)
    requires pos <= |u| && ValidScanner(strtod) && StopsAtSlash(strtod)
    requires Par(PATH) !in segs && Match(segs, u, pos, p, strtod).Some?
    ensures Match(segs + [Lit('/')], u + "/", pos, p, strtod) == Match(segs, u, pos, p, strtod)
    decreases |segs|
  {
    var longer := segs + [Lit('/')];
    if segs == [] {
      assert longer[1..] == [];
    } else {
      assert longer[1..] == segs[1..] + [Lit('/')];
      match segs[0]
      case Lit(c) =>
        MatchWithSlash(segs[1..], u, pos + 1, p, strtod);
      case Par(t) =>
        ScanBeforeSlash(t, u, pos, strtod);
        ScanAdvances(t, u, pos, strtod);
        var (capture, end) := Scan(t, u, pos, strtod).value;
        MatchWithSlash(segs[1..], u, end, Push(p, capture), strtod);
    }
  }
}
