/** Rules as text, and one segment's step of `add`. */
module RouteRule {
  import opened Wrappers
  import opened RouteTree
  import opened RouteProofs

  // ----- rules as text ----------------------------------------------------------

  datatype ParamTraits = ParamTraits(t: ParamType, name: string)

  const PARAM_TRAITS: seq<ParamTraits> := [
    ParamTraits(INT, "<int>"),
    ParamTraits(UINT, "<uint>"),
    ParamTraits(DOUBLE, "<float>"),
    ParamTraits(DOUBLE, "<double>"),
    ParamTraits(STRING, "<str>"),
    ParamTraits(STRING, "<string>"),
    ParamTraits(PATH, "<path>")]

  /** The first table entry from `k` on whose name stands in `url` at `i`. */
  function TagFrom(url: string, i: nat, k: nat): (r: nat)
    requires i <= |url| && k <= |PARAM_TRAITS|
    ensures k <= r <= |PARAM_TRAITS|
    ensures r < |PARAM_TRAITS| ==> KeyAt(url, i, PARAM_TRAITS[r].name)
    decreases |PARAM_TRAITS| - k
  {
    if k == |PARAM_TRAITS| || KeyAt(url, i, PARAM_TRAITS[k].name) then k else TagFrom(url, i, k + 1)
  }

  /** The segment that stands in a rule at `i` and the position after it: a tag, or
      one character. A literal at the end of the blueprint's prefix carries the
      blueprint's index. None for a '<' that starts no known tag, and for NUL. */
  function NextTok(url: string, i: nat, bpLength: nat, bp: Option<nat>): (r: Option<(Tok, nat)>)
    requires i < |url|
    ensures r.Some? ==> i < r.value.1 <= |url| && GoodSeg(r.value.0.seg)
  {
    if url[i] == '<' then
      var k := TagFrom(url, i, 0);
      if k == |PARAM_TRAITS| then None
      else Some((Tok(Par(PARAM_TRAITS[k].t), None), i + |PARAM_TRAITS[k].name|))
    else if url[i] == '\0' then None
    else Some((Tok(Lit(url[i]), if bpLength != 0 && i == bpLength then bp else None), i + 1))
  }

  /** Every '<' read from `i` on starts a known tag, and there is no NUL. */
  predicate GoodRule(url: string, i: nat)
    requires i <= |url|
    decreases |url| - i
  {
    i < |url| ==>
      var r := NextTok(url, i, 0, None);
      r.Some? && GoodRule(url, r.value.1)
  }

  /** The segments of a rule. */
  function Tokenize(url: string, i: nat, bpLength: nat, bp: Option<nat>): (toks: seq<Tok>)
    requires i <= |url| && GoodRule(url, i)
    ensures GoodSegs(Segs(toks))
    decreases |url| - i
  {
    if i == |url| then []
    else
      var (tok, next) := NextTok(url, i, bpLength, bp).value;
      [tok] + Tokenize(url, next, bpLength, bp)
  }

  /** The pattern a rule stands for. */
  function PatternOf(rule: string): (segs: Pattern)
    requires GoodRule(rule, 0)
    ensures GoodSegs(segs)
  {
    Segs(Tokenize(rule, 0, 0, None))
  }

  lemma SegsCons(tok: Tok, toks: seq<Tok>)
    ensures Segs([tok] + toks) == [tok.seg] + Segs(toks)
  {
  }

  lemma {:induction false} BlueprintsKeepPattern(rule: string, i: nat, bpLength: nat, bp: Option<nat>)
    requires i <= |rule| && GoodRule(rule, i)
    ensures Segs(Tokenize(rule, i, bpLength, bp)) == Segs(Tokenize(rule, i, 0, None))
    decreases |rule| - i
  {
    if i < |rule| {
      var (tok, next) := NextTok(rule, i, bpLength, bp).value;
      var (tok0, _) := NextTok(rule, i, 0, None).value;
      BlueprintsKeepPattern(rule, next, bpLength, bp);
      SegsCons(tok, Tokenize(rule, next, bpLength, bp));
      SegsCons(tok0, Tokenize(rule, next, 0, None));
    }
  }

  // ----- one segment of `add` -------------------------------------------------------

  predicate IsLeaf(t: Tree) { t.children == [] && t.rule == 0 }

  lemma {:induction false} AddedToLeaf(t: Tree, toks: seq<Tok>, rule: nat)
    requires IsLeaf(t)
    ensures Added(t, toks, rule).Some?
    decreases |toks|
  {
    if toks != [] { AddedToLeaf(NewNode(toks[0]), toks[1..], rule); }
  }

  lemma {:induction false} FirstFollows(cs: seq<Tree>, s: Seg, k: nat)
    requires k <= |cs| && (forall j :: 0 <= j < k ==> !Follows(cs[j], s)) && (k < |cs| ==> Follows(cs[k], s))
    ensures ChildFor(cs, s) == k
  {
    var i := ChildFor(cs, s);
    assert k < |cs| ==> i <= k;
  }

  /** The tree after the step to the child for a segment, new or not. */
  function Entered(t: Tree, tok: Tok): (r: Tree)
    ensures ChildFor(t.children, tok.seg) < |r.children|
  {
    if ChildFor(t.children, tok.seg) < |t.children| then t
    else t.(children := t.children + [NewNode(tok)])
  }

  lemma AddedEntered(t: Tree, toks: seq<Tok>, rule: nat)
    requires toks != []
    ensures var e, i := Entered(t, toks[0]), ChildFor(t.children, toks[0].seg);
      var c := Added(e.children[i], toks[1..], rule);
      && Added(t, toks, rule) == (if c.Some? then Some(e.(children := e.children[i := c.value])) else None)
      && (c.None? ==> e == t)
  {
    var e, i := Entered(t, toks[0]), ChildFor(t.children, toks[0].seg);
    if i == |t.children| {
      AddedToLeaf(NewNode(toks[0]), toks[1..], rule);
      var c := Added(NewNode(toks[0]), toks[1..], rule).value;
      assert e.children[i := c] == t.children + [c];
    }
  }
}
