/** Crow's router: one rule list and one trie a method, rules registered in both, and
    the rule that a URL is routed to. */
module Router {
  import opened Wrappers
  import opened RouteTree
  import opened RouteProofs
  import opened RouteRule
  import opened RouteRedirect
  import opened Trie

  const REDIRECT_SLASH: nat := 1  // RULE_SPECIAL_REDIRECT_SLASH

  /** `rules`: the texts of the registered rules; places 0 and 1 stay vacant. */
  type RuleList = seq<Option<string>>

  predicate HasTrailingSlash(rule: string) { |rule| > 1 && rule[|rule| - 1] == '/' }

  function WithoutSlash(rule: string): string
    requires |rule| > 0
  {
    rule[..|rule| - 1]
  }

  ghost predicate GoodList(rules: RuleList) {
    && |rules| >= 2 && rules[0].None? && rules[1].None?
    && forall k :: 2 <= k < |rules| ==> rules[k].Some? && GoodRule(rules[k].value, 0)
  }

  /** The entry stores rule `k` under its own pattern. */
  ghost predicate IsRule(e: Entry, rules: RuleList, k: nat)
    requires GoodList(rules)
  {
    2 <= k < |rules| && e.rule == k && Segs(e.toks) == PatternOf(rules[k].value)
  }

  /** The entry is the redirect to rule `k`. */
  ghost predicate IsRedirect(e: Entry, rules: RuleList, k: nat)
    requires GoodList(rules)
  {
    && 2 <= k < |rules| && e.rule == REDIRECT_SLASH
    && HasTrailingSlash(rules[k].value)
    && PatternOf(rules[k].value) == Segs(e.toks) + [Lit('/')]
  }

  /** Rule `k` is stored under its own pattern. */
  ghost predicate HasRule(es: seq<Entry>, rules: RuleList, k: nat)
    requires GoodList(rules)
  {
    es != [] && (IsRule(es[|es| - 1], rules, k) || HasRule(es[..|es| - 1], rules, k))
  }

  /** What a trie entry is for: a blueprint prefix, a rule, or the redirect to a rule
      that is stored before it. */
  ghost predicate GoodEntry(e: Entry, es: seq<Entry>, rules: RuleList)
    requires GoodList(rules)
  {
    || e.rule == 0
    || IsRule(e, rules, e.rule)
    || (exists k :: IsRedirect(e, rules, k) && HasRule(es, rules, k))
  }

  ghost predicate Consistent(es: seq<Entry>, rules: RuleList) {
    && GoodList(rules)
    && (es != [] ==>
          var front, e := es[..|es| - 1], es[|es| - 1];
          Consistent(front, rules) && GoodSegs(Segs(e.toks)) && GoodEntry(e, front, rules))
  }

  lemma {:induction false} HasRuleAt(es: seq<Entry>, rules: RuleList, k: nat) returns (i: nat)
    requires GoodList(rules) && HasRule(es, rules, k)
    ensures i < |es| && IsRule(es[i], rules, k)
  {
    i := |es| - 1;
    if !IsRule(es[i], rules, k) {
      i := HasRuleAt(es[..|es| - 1], rules, k);
    }
  }

  lemma {:induction false} HasRuleGrows(es: seq<Entry>, rules: RuleList, k: nat, rule: string)
    requires GoodList(rules) && GoodRule(rule, 0) && HasRule(es, rules, k)
    ensures HasRule(es, rules + [Some(rule)], k)
  {
    if !IsRule(es[|es| - 1], rules, k) { HasRuleGrows(es[..|es| - 1], rules, k, rule); }
  }

  lemma {:induction false} RulesGrow(es: seq<Entry>, rules: RuleList, rule: string)
    requires Consistent(es, rules) && GoodRule(rule, 0)
    ensures Consistent(es, rules + [Some(rule)])
  {
    if es != [] {
      var front, e, rules' := es[..|es| - 1], es[|es| - 1], rules + [Some(rule)];
      RulesGrow(front, rules, rule);
      if e.rule != 0 && !IsRule(e, rules, e.rule) {
        var k :| IsRedirect(e, rules, k) && HasRule(front, rules, k);
        HasRuleGrows(front, rules, k, rule);
        assert IsRedirect(e, rules', k);
      }
    }
  }

  /** Entry `i` is good, and a redirect leads to a rule stored somewhere. */
  lemma {:induction false} GoodEntryAt(es: seq<Entry>, rules: RuleList, i: nat) returns (k: nat, j: nat)
    requires Consistent(es, rules) && i < |es|
    ensures es[i].rule != 0 ==> j < |es| && IsRule(es[j], rules, k)
    ensures es[i].rule != 0 ==> (k == es[i].rule && j == i) || IsRedirect(es[i], rules, k)
  {
    if i < |es| - 1 {
      k, j := GoodEntryAt(es[..|es| - 1], rules, i);
    } else if es[i].rule == 0 {
      k, j := 0, 0;
    } else if IsRule(es[i], rules, es[i].rule) {
      k, j := es[i].rule, i;
    } else {
      k :| IsRedirect(es[i], rules, k) && HasRule(es[..i], rules, k);
      j := HasRuleAt(es[..i], rules, k);
    }
  }

  lemma {:induction false} ConsistentIsGood(es: seq<Entry>, rules: RuleList)
    requires Consistent(es, rules)
    ensures GoodEntries(es)
  {
    hide GoodEntry, GoodList, GoodSegs, Segs;
    if es != [] { ConsistentIsGood(es[..|es| - 1], rules); }
  }

  lemma RedirectPattern(e: Entry, rules: RuleList, k: nat)
    requires GoodList(rules) && IsRedirect(e, rules, k)
    ensures GoodRule(WithoutSlash(rules[k].value), 0)
    ensures Segs(e.toks) == PatternOf(WithoutSlash(rules[k].value))
  {
    PatternBeforeSlash(rules[k].value);
    var segs, front := Segs(e.toks), PatternOf(WithoutSlash(rules[k].value));
    assert (segs + [Lit('/')])[..|segs|] == segs && (front + [Lit('/')])[..|front|] == front;
  }

  /** Rule `k` has a trailing slash and its pattern without it matches the URL. */
  ghost predicate Redirects(rules: RuleList, k: nat, url: string, strtod: DoubleScanner)
    requires GoodList(rules) && ValidScanner(strtod)
  {
    && 2 <= k < |rules| && HasTrailingSlash(rules[k].value)
    && GoodRule(WithoutSlash(rules[k].value), 0)
    && Match(PatternOf(WithoutSlash(rules[k].value)), url, 0, NoParams, strtod).Some?
  }

  /** A search never returns an index outside the rule list; what it returns is what
      the request matches, and a redirect is caused by a stored rule. */
  lemma FoundIsListed(es: seq<Entry>, rules: RuleList, url: string, strtod: DoubleScanner) returns (k: nat, j: nat)
    requires Consistent(es, rules) && AddAll(es).Some? && ValidScanner(strtod)
    ensures LowestRule(es, url, strtod) < |rules|
    ensures LowestRule(es, url, strtod) != 0 ==> j < |es| && IsRule(es[j], rules, k)
    ensures LowestRule(es, url, strtod) >= 2 ==> k == LowestRule(es, url, strtod) && Matches(es[j], url, strtod)
    ensures LowestRule(es, url, strtod) == 1 ==> Redirects(rules, k, url, strtod)
  {
    LowestRuleIsLeast(es, url, strtod);
    var r := LowestRule(es, url, strtod);
    if r != 0 {
      var i :| 0 <= i < |es| && es[i].rule == r && Matches(es[i], url, strtod);
      k, j := GoodEntryAt(es, rules, i);
      if r == 1 { RedirectPattern(es[i], rules, k); }
    } else {
      k, j := 0, 0;
    }
  }

  /** The URL that a redirect names is matched by the rule that caused it, unless the
      rule has a `<path>`; so the second request finds a rule no later than it. */
  lemma RedirectLands(es: seq<Entry>, rules: RuleList, k: nat, url: string, strtod: DoubleScanner)
    requires Consistent(es, rules) && AddAll(es).Some? && ValidScanner(strtod) && StopsAtSlash(strtod)
    requires Redirects(rules, k, url, strtod) && HasRule(es, rules, k) && Par(PATH) !in PatternOf(rules[k].value)
    ensures Match(PatternOf(rules[k].value), url + "/", 0, NoParams, strtod)
      == Match(PatternOf(WithoutSlash(rules[k].value)), url, 0, NoParams, strtod)
    ensures 0 < LowestRule(es, url + "/", strtod) <= k
  {
    PatternBeforeSlash(rules[k].value);
    var front := PatternOf(WithoutSlash(rules[k].value));
    assert Par(PATH) !in front by {
      assert forall j :: 0 <= j < |front| ==> front[j] == PatternOf(rules[k].value)[j];
    }
    MatchWithSlash(front, url, 0, NoParams, strtod);
    LowestRuleIsLeast(es, url + "/", strtod);
    var i := HasRuleAt(es, rules, k);
    assert Matches(es[i], url + "/", strtod);
  }

  function RuleEntry(k: nat, rule: string, bpLength: nat, bp: Option<nat>): Entry
    requires GoodRule(rule, 0)
  {
    EntryOf(rule, k, bpLength, bp)
  }

  function RedirectEntry(rule: string, bpLength: nat, bp: Option<nat>): Entry
    requires HasTrailingSlash(rule) && GoodRule(WithoutSlash(rule), 0)
  {
    EntryOf(WithoutSlash(rule), REDIRECT_SLASH, bpLength, bp)
  }

  /** The entries after a rule is registered as rule `k`, and whether both of its
      patterns were new. */
  ghost function Registered(es: seq<Entry>, k: nat, rule: string, bpLength: nat, bp: Option<nat>): (seq<Entry>, bool)
    requires GoodRule(rule, 0)
  {
    if Present(es, PatternOf(rule)) then (es, false)
    else
      var es' := es + [RuleEntry(k, rule, bpLength, bp)];
      if !HasTrailingSlash(rule) then (es', true)
      else
        PatternBeforeSlash(rule);
        if Present(es', PatternOf(WithoutSlash(rule))) then (es', false)
        else (es' + [RedirectEntry(rule, bpLength, bp)], true)
  }

  /** The rule's own entry. */
  lemma RuleAdded(es: seq<Entry>, rules: RuleList, rule: string, bpLength: nat, bp: Option<nat>)
    requires Consistent(es, rules) && GoodRule(rule, 0)
    ensures var e, rules' := RuleEntry(|rules|, rule, bpLength, bp), rules + [Some(rule)];
      && Segs(e.toks) == PatternOf(rule)
      && Consistent(es, rules') && Consistent(es + [e], rules') && HasRule(es + [e], rules', |rules|)
  {
    hide GoodRule, Tokenize, Segs;
    var rules', e := rules + [Some(rule)], RuleEntry(|rules|, rule, bpLength, bp);
    BlueprintsKeepPattern(rule, 0, bpLength, bp);
    RulesGrow(es, rules, rule);
    assert (es + [e])[..|es|] == es;
    assert IsRule(e, rules', |rules|);
  }

  /** The entry that redirects to it. */
  lemma RedirectAdded(es: seq<Entry>, rules: RuleList, k: nat, rule: string, bpLength: nat, bp: Option<nat>)
    requires Consistent(es, rules) && HasRule(es, rules, k) && k < |rules| && rules[k] == Some(rule) && k >= 2
    requires GoodRule(rule, 0) && HasTrailingSlash(rule)
    ensures GoodRule(WithoutSlash(rule), 0)
    ensures var r := RedirectEntry(rule, bpLength, bp);
      && Segs(r.toks) == PatternOf(WithoutSlash(rule))
      && Consistent(es + [r], rules) && HasRule(es + [r], rules, k)
  {
    hide GoodRule, Tokenize, Segs;
    PatternBeforeSlash(rule);
    BlueprintsKeepPattern(WithoutSlash(rule), 0, bpLength, bp);
    var r := RedirectEntry(rule, bpLength, bp);
    assert (es + [r])[..|es|] == es;
    assert IsRedirect(r, rules, k);
  }

  /** Registering keeps the entries consistent with the longer list, and stores the
      rule under its own index when it succeeds. */
  lemma Registering(es: seq<Entry>, rules: RuleList, rule: string, bpLength: nat, bp: Option<nat>)
    requires Consistent(es, rules) && GoodRule(rule, 0)
    ensures var (es', added) := Registered(es, |rules|, rule, bpLength, bp);
      && Consistent(es', rules + [Some(rule)])
      && (added ==> HasRule(es', rules + [Some(rule)], |rules|))
    ensures Segs(RuleEntry(|rules|, rule, bpLength, bp).toks) == PatternOf(rule)
    ensures HasTrailingSlash(rule) ==> (GoodRule(WithoutSlash(rule), 0)
      && Segs(RedirectEntry(rule, bpLength, bp).toks) == PatternOf(WithoutSlash(rule)))
  {
    hide GoodRule, Segs, Present, HasRule, Consistent, RuleEntry, RedirectEntry, PatternOf;
    var rules', e := rules + [Some(rule)], RuleEntry(|rules|, rule, bpLength, bp);
    ConsistentHasList(es, rules);
    RuleAdded(es, rules, rule, bpLength, bp);
    if HasTrailingSlash(rule) {
      RedirectAdded(es + [e], rules', |rules|, rule, bpLength, bp);
    }
  }

  lemma RegisteredCases(es: seq<Entry>, k: nat, rule: string, bpLength: nat, bp: Option<nat>)
    requires GoodRule(rule, 0)
    ensures HasTrailingSlash(rule) ==> GoodRule(WithoutSlash(rule), 0)
    ensures var es' := es + [RuleEntry(k, rule, bpLength, bp)];
      Registered(es, k, rule, bpLength, bp)
      == if Present(es, PatternOf(rule)) then (es, false)
         else if !HasTrailingSlash(rule) then (es', true)
         else if Present(es', PatternOf(WithoutSlash(rule))) then (es', false)
         else (es' + [RedirectEntry(rule, bpLength, bp)], true)
  {
    hide Present, PatternOf, GoodRule, RuleEntry, RedirectEntry;
    if HasTrailingSlash(rule) { PatternBeforeSlash(rule); }
  }

  lemma ConsistentHasList(es: seq<Entry>, rules: RuleList)
    requires Consistent(es, rules)
    ensures GoodList(rules)
  {
  }

  /** Once a rule with a trailing slash is registered, and whatever is registered after
      it, every URL that its pattern without the slash matches is redirected. */
  lemma RedirectIsFound(es: seq<Entry>, k: nat, rule: string, bpLength: nat, bp: Option<nat>, later: seq<Entry>, url: string,
                        strtod: DoubleScanner)
    requires GoodRule(rule, 0) && HasTrailingSlash(rule) && Registered(es, k, rule, bpLength, bp).1
    requires Registered(es, k, rule, bpLength, bp).0 <= later && ValidScanner(strtod)
    requires GoodRule(WithoutSlash(rule), 0) && Match(PatternOf(WithoutSlash(rule)), url, 0, NoParams, strtod).Some?
    ensures LowestRule(later, url, strtod) == 1
  {
    PatternBeforeSlash(rule);
    BlueprintsKeepPattern(WithoutSlash(rule), 0, bpLength, bp);
    var added := Registered(es, k, rule, bpLength, bp).0;
    var i := |added| - 1;
    assert added[i] == RedirectEntry(rule, bpLength, bp) == later[i];
    assert Matches(later[i], url, strtod);
    LowestRuleIsLeast(later, url, strtod);
  }

  /** `PerMethod`. */
  class PerMethod {
    var rules: RuleList
    const trie: Trie

    ghost predicate Valid()
      reads this, trie, trie.head, trie.head.Repr
    {
      trie.Valid() && Consistent(trie.entries, rules)
    }

    constructor ()
      ensures Valid() && fresh(trie) && fresh(trie.head.Repr) && trie.entries == [] && rules == [None, None] && !trie.optimized
    {
      rules := [None, None];
      trie := new Trie();
    }

    /** What `internal_add_rule_object` does for one method; false stands for the
        exception of `add`. */
    method AddRule(rule: string, bpLength: nat, bp: Option<nat>) returns (added: bool)
      requires Valid() && !trie.optimized && GoodRule(rule, 0)
      modifies this, trie, trie.head.Repr
      ensures Valid() && !trie.optimized && fresh(trie.head.Repr - old(trie.head.Repr))
      ensures rules == old(rules) + [Some(rule)]
      ensures (trie.entries, added) == Registered(old(trie.entries), |old(rules)|, rule, bpLength, bp)
    {
      hide Consistent, HasRule, GoodRule, Tokenize, Segs, Present, PatternOf, Registered, AddAll, GoodList, EntryOf;
      ghost var es := trie.entries;
      Registering(es, rules, rule, bpLength, bp);
      RegisteredCases(es, |rules|, rule, bpLength, bp);
      var index := |rules|;
      rules := rules + [Some(rule)];
      added := trie.Add(rule, index, bpLength, bp);
      if !added {
        return;
      }
      assert trie.entries == es + [RuleEntry(index, rule, bpLength, bp)];
      if HasTrailingSlash(rule) {
        added := AddRedirect(rule, bpLength, bp);
      }
    }

    /** The directory case: the rule's pattern without the slash redirects. */
    method AddRedirect(rule: string, bpLength: nat, bp: Option<nat>) returns (added: bool)
      requires trie.Valid() && !trie.optimized && HasTrailingSlash(rule) && GoodRule(WithoutSlash(rule), 0)
      requires Segs(RedirectEntry(rule, bpLength, bp).toks) == PatternOf(WithoutSlash(rule))
      modifies trie, trie.head.Repr
      ensures trie.Valid() && !trie.optimized && fresh(trie.head.Repr - old(trie.head.Repr))
      ensures added == !Present(old(trie.entries), PatternOf(WithoutSlash(rule)))
      ensures trie.entries == if added then old(trie.entries) + [RedirectEntry(rule, bpLength, bp)] else old(trie.entries)
    {
      added := trie.Add(WithoutSlash(rule), REDIRECT_SLASH, bpLength, bp);
    }

    /** `trie.find` for a request, with the list it indexes. */
    method Find(url: string, strtod: DoubleScanner) returns (r: Found)
      requires Valid() && ValidScanner(strtod)
      ensures r.rule == LowestRule(trie.entries, url, strtod) && r.rule < |rules|
      ensures r.rule >= 2 ==> Match(PatternOf(rules[r.rule].value), url, 0, NoParams, strtod) == Some(r.params)
      ensures r.rule == 1 ==> exists k :: Redirects(rules, k, url, strtod)
    {
      r := trie.Find(url, strtod);
      ghost var k, j := FoundIsListed(trie.entries, rules, url, strtod);
      if r.rule >= 2 {
        ghost var i :| 0 <= i < |trie.entries| && trie.entries[i].rule == r.rule
          && Match(Segs(trie.entries[i].toks), url, 0, NoParams, strtod) == Some(r.params);
        k, j := GoodEntryAt(trie.entries, rules, i);
      }
    }
  }
}
