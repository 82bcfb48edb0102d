/** What the route tree promises: compression keeps every lookup, and the search
    agrees with reading the whole list of added rules. */
module RouteProofs {
  import opened Wrappers
  import opened RouteTree

  // ----- compression keeps the search ------------------------------------------

  /** Below the head every node consumes at least one character. */
  ghost predicate Keyed(n: Tree)
    decreases n
  {
    forall i :: 0 <= i < |n.children| ==>
      (n.children[i].param == MAX ==> n.children[i].key != "") && Keyed(n.children[i])
  }

  /** Results that `update_found` cannot tell apart. */
  predicate SameFound(a: Found, b: Found) { a.rule == b.rule && (a.rule != 0 ==> a == b) }

  lemma PlainIsKeyed(n: Tree)
    requires Plain(n)
    ensures Keyed(n)
  {
  }

  lemma AbsorbKeepsFind(url: string, n: Tree, pos: nat, p: Params, strtod: DoubleScanner)
    requires pos < |url| && ValidScanner(strtod)
    requires IsSimple(n) && |n.children| == 1 && Keyed(n)
    ensures SameFound(FindChild(url, Absorb(n), pos, p, strtod), FindChild(url, n, pos, p, strtod))
  {
    var c := n.children[0];
    KeyAtConcat(url, pos, n.key, c.key);
    var mid := pos + |n.key|;
    var end := mid + |c.key|;
    assert n.param == MAX && c.param == MAX && |n.key + c.key| == |n.key| + |c.key|;
    if KeyAt(url, pos, n.key) && KeyAt(url, mid, c.key) {
      assert FindNode(url, Absorb(n), end, p, strtod) == FindNode(url, c, end, p, strtod);
    }
    if KeyAt(url, pos, n.key) && mid < |url| {
      assert n.children[1..] == [];
      assert FindChildren(url, n.children, mid, p, NotFound, strtod)
        == Better(NotFound, FindChild(url, c, mid, p, strtod));
    }
  }

  lemma KeyAtConcat(url: string, pos: nat, a: string, b: string)
    requires pos <= |url|
    ensures KeyAt(url, pos, a + b) <==> KeyAt(url, pos, a) && KeyAt(url, pos + |a|, b)
  {
    var mid, end := pos + |a|, pos + |a| + |b|;
    if end <= |url| {
      assert url[pos..end] == url[pos..mid] + url[mid..end];
      assert url[pos..end][..|a|] == url[pos..mid] && url[pos..end][|a|..] == url[mid..end];
      assert (a + b)[..|a|] == a && (a + b)[|a|..] == b;
    }
  }

  lemma {:induction false} OptimizedKeepsFind(url: string, n: Tree, pos: nat, p: Params, strtod: DoubleScanner)
    requires pos < |url| && ValidScanner(strtod) && Keyed(n)
    ensures SameFound(FindChild(url, Optimized(n), pos, p, strtod), FindChild(url, n, pos, p, strtod))
    decreases Size(n), 0
  {
    if n.children == [] {
    } else if IsSimple(n) {
      assert ForestSize(n.children) == Size(n.children[0]) + ForestSize(n.children[1..]);
      OptimizedKeepsFind(url, Absorb(n), pos, p, strtod);
      AbsorbKeepsFind(url, n, pos, p, strtod);
    } else {
      var r := n.(children := OptimizedAll(n.children));
      forall at: nat, q | pos < at < |url|
        ensures FindNode(url, r, at, q, strtod) == FindNode(url, n, at, q, strtod)
      {
        OptimizedAllKeepsFind(url, n.children, at, q, NotFound, strtod);
      }
      if n.param == MAX {
        if n.key == "" { OptimizedAllKeepsFind(url, n.children, pos, p, NotFound, strtod); }
      } else {
        ScanAdvances(n.param, url, pos, strtod);
      }
    }
  }

  lemma {:induction false} OptimizedAllKeepsFind(url: string, cs: seq<Tree>, pos: nat, p: Params, best: Found, strtod: DoubleScanner)
    requires pos < |url| && ValidScanner(strtod)
    requires forall i :: 0 <= i < |cs| ==> Keyed(cs[i])
    ensures FindChildren(url, OptimizedAll(cs), pos, p, best, strtod) == FindChildren(url, cs, pos, p, best, strtod)
    decreases ForestSize(cs), 1, |cs|
  {
    if cs == [] {
    } else {
      OptimizedKeepsFind(url, cs[0], pos, p, strtod);
      assert OptimizedAll(cs)[1..] == OptimizedAll(cs[1..]);
      OptimizedAllKeepsFind(url, cs[1..], pos, p, Better(best, FindChild(url, cs[0], pos, p, strtod)), strtod);
    }
  }

  /** Path compression never changes what `find` returns: the same rule index and
      the same captured parameters for every URL. */
  lemma CompressionKeepsFind(head: Tree, url: string, p: Params, strtod: DoubleScanner)
    requires Keyed(head) && ValidScanner(strtod)
    ensures FindNode(url, OptimizedHead(head), 0, p, strtod) == FindNode(url, head, 0, p, strtod)
  {
    if url != "" { OptimizedAllKeepsFind(url, head.children, 0, p, NotFound, strtod); }
  }

  // ----- what compression leaves ----------------------------------------------------

  /** No node of the tree could absorb its child. */
  ghost predicate Compressed(n: Tree)
    decreases n
  {
    && (n.children != [] ==> !IsSimple(n))
    && forall i :: 0 <= i < |n.children| ==> Compressed(n.children[i])
  }

  ghost predicate HeadCompressed(head: Tree) {
    forall i :: 0 <= i < |head.children| ==> Compressed(head.children[i])
  }

  lemma {:induction false} OptimizedShape(n: Tree)
    ensures Compressed(Optimized(n))
    ensures Optimized(n).param == n.param
    ensures Size(Optimized(n)) <= Size(n)
    ensures Optimized(n) != n ==> Size(Optimized(n)) < Size(n)
    ensures Compressed(n) ==> Optimized(n) == n
    decreases Size(n), 0
  {
    if n.children == [] {
    } else if IsSimple(n) {
      assert ForestSize(n.children) == Size(n.children[0]) + ForestSize(n.children[1..]);
      OptimizedShape(Absorb(n));
    } else {
      OptimizedAllShape(n.children);
      var r := Optimized(n);
      assert forall i :: 0 <= i < |n.children| ==> r.children[i].param == n.children[i].param;
    }
  }

  lemma {:induction false} OptimizedAllShape(ns: seq<Tree>)
    ensures forall i :: 0 <= i < |ns| ==> Compressed(OptimizedAll(ns)[i]) && OptimizedAll(ns)[i].param == ns[i].param
    ensures ForestSize(OptimizedAll(ns)) <= ForestSize(ns)
    ensures OptimizedAll(ns) != ns ==> ForestSize(OptimizedAll(ns)) < ForestSize(ns)
    ensures (forall i :: 0 <= i < |ns| ==> Compressed(ns[i])) ==> OptimizedAll(ns) == ns
    decreases ForestSize(ns), 1, |ns|
  {
    if ns == [] {
    } else {
      OptimizedShape(ns[0]);
      OptimizedAllShape(ns[1..]);
      assert OptimizedAll(ns)[1..] == OptimizedAll(ns[1..]);
      assert ns == [ns[0]] + ns[1..];
    }
  }

  /** `optimize` leaves nothing to merge below the head, never adds a node, drops
      at least one whenever it changes anything, and does nothing the second time. */
  lemma CompressionIsComplete(head: Tree)
    ensures HeadCompressed(OptimizedHead(head))
    ensures Size(OptimizedHead(head)) <= Size(head)
    ensures OptimizedHead(head) != head <==> Size(OptimizedHead(head)) < Size(head)
    ensures OptimizedHead(head) == head <==> HeadCompressed(head)
    ensures OptimizedHead(OptimizedHead(head)) == OptimizedHead(head)
  {
    OptimizedAllShape(head.children);
    OptimizedAllShape(OptimizedHead(head).children);
  }

  // ----- the search against the stored patterns ---------------------------------------

  lemma {:induction false} ChildForIs(cs: seq<Tree>, s: Seg, k: nat)
    requires k < |cs| && GoodSeg(s)
    requires forall i :: 0 <= i < |cs| ==> PlainChild(cs[i])
    requires forall i, j :: 0 <= i < j < |cs| ==> SegOf(cs[i]) != SegOf(cs[j])
    ensures ChildFor(cs, s) == k <==> SegOf(cs[k]) == s
  {
    assert forall i :: 0 <= i < |cs| ==> (Follows(cs[i], s) <==> SegOf(cs[i]) == s);
  }

  lemma {:induction false} ChildrenBest(url: string, cs: seq<Tree>, pos: nat, p: Params, best: Found, strtod: DoubleScanner)
    requires pos < |url| && ValidScanner(strtod)
    ensures var r := FindChildren(url, cs, pos, p, best, strtod);
      && (r == best || (r.rule != 0 && exists i :: 0 <= i < |cs| && r == FindChild(url, cs[i], pos, p, strtod)))
      && (best.rule != 0 ==> 0 < r.rule <= best.rule)
      && forall i :: 0 <= i < |cs| && FindChild(url, cs[i], pos, p, strtod).rule != 0 ==>
           0 < r.rule <= FindChild(url, cs[i], pos, p, strtod).rule
  {
    if cs == [] {
    } else {
      var best' := Better(best, FindChild(url, cs[0], pos, p, strtod));
      ChildrenBest(url, cs[1..], pos, p, best', strtod);
      var r := FindChildren(url, cs, pos, p, best, strtod);
      if r != best' {
        var i :| 0 <= i < |cs[1..]| && r == FindChild(url, cs[1..][i], pos, p, strtod);
        assert r == FindChild(url, cs[i + 1], pos, p, strtod);
      }
      forall i | 0 <= i < |cs| && FindChild(url, cs[i], pos, p, strtod).rule != 0
        ensures 0 < r.rule <= FindChild(url, cs[i], pos, p, strtod).rule
      {
        if i > 0 { assert cs[i] == cs[1..][i - 1]; }
      }
    }
  }

  /** A search result is the match of some stored pattern. */
  lemma {:induction false} FindIsSound(url: string, n: Tree, pos: nat, p: Params, strtod: DoubleScanner) returns (segs: Pattern)
    requires pos <= |url| && ValidScanner(strtod) && Plain(n)
    requires FindNode(url, n, pos, p, strtod).rule != 0
    ensures var r := FindNode(url, n, pos, p, strtod);
      GoodSegs(segs) && Lookup(n, segs) == r.rule && Match(segs, url, pos, p, strtod) == Some(r.params)
    decreases n
  {
    if pos == |url| {
      return [];
    }
    ChildrenBest(url, n.children, pos, p, NotFound, strtod);
    var r := FindNode(url, n, pos, p, strtod);
    var i :| 0 <= i < |n.children| && r == FindChild(url, n.children[i], pos, p, strtod);
    var c := n.children[i];
    ChildForIs(n.children, SegOf(c), i);
    var rest;
    if c.param == MAX {
      assert url[pos..pos + 1] == [url[pos]];
      rest := FindIsSound(url, c, pos + 1, p, strtod);
    } else {
      var (capture, end) := Scan(c.param, url, pos, strtod).value;
      ScanAdvances(c.param, url, pos, strtod);
      rest := FindIsSound(url, c, end, Push(p, capture), strtod);
    }
    segs := [SegOf(c)] + rest;
    assert segs[1..] == rest;
  }

  /** No stored pattern that matches has a smaller index than the search result. */
  lemma {:induction false} FindIsComplete(url: string, n: Tree, pos: nat, p: Params, strtod: DoubleScanner, segs: Pattern)
    requires pos <= |url| && ValidScanner(strtod) && Plain(n) && GoodSegs(segs)
    requires Lookup(n, segs) != 0 && Match(segs, url, pos, p, strtod).Some?
    ensures 0 < FindNode(url, n, pos, p, strtod).rule <= Lookup(n, segs)
    decreases |segs|
  {
    if segs == [] {
    } else {
      var i := ChildFor(n.children, segs[0]);
      var c := n.children[i];
      ChildForIs(n.children, segs[0], i);
      ChildrenBest(url, n.children, pos, p, NotFound, strtod);
      if c.param == MAX {
        assert url[pos..pos + 1] == [url[pos]];
        FindIsComplete(url, c, pos + 1, p, strtod, segs[1..]);
      } else {
        var (capture, end) := Scan(c.param, url, pos, strtod).value;
        ScanAdvances(c.param, url, pos, strtod);
        FindIsComplete(url, c, end, Push(p, capture), strtod, segs[1..]);
      }
    }
  }

  // ----- adding against the stored patterns --------------------------------------------

  lemma {:induction false} AddedLookup(n: Tree, toks: seq<Tok>, rule: nat, segs: Pattern)
    requires Plain(n) && GoodSegs(Segs(toks)) && GoodSegs(segs)
    requires Added(n, toks, rule).Some?
    ensures Lookup(Added(n, toks, rule).value, segs) == if segs == Segs(toks) then rule else Lookup(n, segs)
    decreases |toks|
  {
    if toks != [] && segs != [] {
      var s, i := toks[0].seg, ChildFor(n.children, toks[0].seg);
      var n' := Added(n, toks, rule).value;
      AddedPlain(n, toks, rule);
      AddedChildSeg(n, toks, rule);
      assert segs == [segs[0]] + segs[1..] && Segs(toks) == [s] + Segs(toks[1..]);
      if segs[0] == s {
        var below := if i < |n.children| then n.children[i] else NewNode(toks[0]);
        assert GoodSegs(Segs(toks[1..])) by { assert Segs(toks[1..]) == Segs(toks)[1..]; }
        AddedLookup(below, toks[1..], rule, segs[1..]);
        ChildForIs(n'.children, s, i);
        if i == |n.children| { LookupLeaf(below, segs[1..]); }
      } else {
        OtherChild(n.children, n'.children, segs[0], i);
      }
    }
  }

  /** `add` leaves the segments of the old children, and child `i` has the added one. */
  lemma AddedChildSeg(n: Tree, toks: seq<Tok>, rule: nat)
    requires Plain(n) && toks != [] && GoodSeg(toks[0].seg) && Added(n, toks, rule).Some?
    ensures var i, cs := ChildFor(n.children, toks[0].seg), Added(n, toks, rule).value.children;
      && i < |cs|
      && |cs| == (if i < |n.children| then |n.children| else i + 1)
      && SegOf(cs[i]) == toks[0].seg
      && (forall j :: 0 <= j < |n.children| && j != i ==> cs[j] == n.children[j])
      && (i < |n.children| ==> SegOf(n.children[i]) == toks[0].seg)
  {
    var i := ChildFor(n.children, toks[0].seg);
    var below := if i < |n.children| then n.children[i] else NewNode(toks[0]);
    AddedKeepsRoot(below, toks[1..], rule);
    if i < |n.children| { ChildForIs(n.children, toks[0].seg, i); }
  }

  /** Two families of children that differ only at `i` agree on other segments. */
  lemma OtherChild(cs: seq<Tree>, cs': seq<Tree>, s: Seg, i: nat)
    requires GoodSeg(s) && i <= |cs| && i < |cs'| && |cs'| == (if i < |cs| then |cs| else i + 1)
    requires forall j :: 0 <= j < |cs| ==> PlainChild(cs[j])
    requires forall j :: 0 <= j < |cs'| ==> PlainChild(cs'[j])
    requires forall j, k :: 0 <= j < k < |cs| ==> SegOf(cs[j]) != SegOf(cs[k])
    requires forall j, k :: 0 <= j < k < |cs'| ==> SegOf(cs'[j]) != SegOf(cs'[k])
    requires forall j :: 0 <= j < |cs| && j != i ==> cs'[j] == cs[j]
    requires SegOf(cs'[i]) != s && (i < |cs| ==> SegOf(cs[i]) != s)
    ensures var k, k' := ChildFor(cs, s), ChildFor(cs', s);
      if k < |cs| then k' == k && k != i else k' == |cs'|
  {
    var k, k' := ChildFor(cs, s), ChildFor(cs', s);
    if k < |cs| {
      ChildForIs(cs, s, k);
      ChildForIs(cs', s, k);
    } else if k' < |cs'| {
      ChildForIs(cs', s, k');
      if k' < |cs| { ChildForIs(cs, s, k'); }
    }
  }

  lemma LookupLeaf(n: Tree, segs: Pattern)
    requires n.children == [] && n.rule == 0
    ensures Lookup(n, segs) == 0
  {
  }

  lemma AddedKeepsRoot(n: Tree, toks: seq<Tok>, rule: nat)
    requires Added(n, toks, rule).Some?
    ensures var n' := Added(n, toks, rule).value;
      n'.key == n.key && n'.param == n.param && n'.bp == n.bp && (toks != [] ==> n'.rule == n.rule)
  {
  }

  lemma {:induction false} AddedPlain(n: Tree, toks: seq<Tok>, rule: nat)
    requires Plain(n) && GoodSegs(Segs(toks)) && Added(n, toks, rule).Some?
    ensures Plain(Added(n, toks, rule).value)
    decreases |toks|
  {
    if toks != [] {
      var s := toks[0].seg;
      assert GoodSeg(s) by { assert Segs(toks)[0] == s; }
      assert GoodSegs(Segs(toks[1..])) by { assert Segs(toks[1..]) == Segs(toks)[1..]; }
      var i := ChildFor(n.children, s);
      var below := if i < |n.children| then n.children[i] else NewNode(toks[0]);
      AddedPlain(below, toks[1..], rule);
      AddedKeepsRoot(below, toks[1..], rule);
      AddedChildSeg(n, toks, rule);
      forall j | 0 <= j < |n.children| && j != i ensures SegOf(n.children[j]) != s {
        ChildForIs(n.children, s, j);
      }
    }
  }

  /** `add` throws exactly when the same segments already hold a rule. */
  lemma {:induction false} AddedThrows(n: Tree, toks: seq<Tok>, rule: nat)
    ensures Added(n, toks, rule).None? <==> Lookup(n, Segs(toks)) != 0
    decreases |toks|
  {
    if toks == [] {
    } else {
      assert Segs(toks)[0] == toks[0].seg;
      assert Segs(toks[1..]) == Segs(toks)[1..];
      var i := ChildFor(n.children, toks[0].seg);
      if i < |n.children| {
        AddedThrows(n.children[i], toks[1..], rule);
      } else {
        AddedThrows(NewNode(toks[0]), toks[1..], rule);
        LookupLeaf(NewNode(toks[0]), Segs(toks[1..]));
      }
    }
  }

  // ----- the trie against the list of rules ---------------------------------------------

  /** One call of `add`. */
  datatype Entry = Entry(toks: seq<Tok>, rule: nat)

  ghost predicate GoodEntries(es: seq<Entry>) {
    forall i :: 0 <= i < |es| ==> GoodSegs(Segs(es[i].toks))
  }

  /** The tree after a sequence of `add` calls none of which threw. */
  function AddAll(es: seq<Entry>): Option<Tree> {
    if es == [] then Some(EmptyTree)
    else
      var n :- AddAll(es[..|es| - 1]);
      Added(n, es[|es| - 1].toks, es[|es| - 1].rule)
  }

  predicate Matches(e: Entry, url: string, strtod: DoubleScanner)
    requires ValidScanner(strtod)
  {
    Match(Segs(e.toks), url, 0, NoParams, strtod).Some?
  }

  /** What the trie replaces: read every rule and keep the smallest non-zero index
      whose pattern matches the whole URL. */
  ghost function LowestRule(es: seq<Entry>, url: string, strtod: DoubleScanner): nat
    requires ValidScanner(strtod)
  {
    if es == [] then 0
    else
      var e := es[|es| - 1];
      var best := LowestRule(es[..|es| - 1], url, strtod);
      if Matches(e, url, strtod) && e.rule != 0 && (best == 0 || e.rule < best) then e.rule else best
  }

  lemma LowestRuleIsLeast(es: seq<Entry>, url: string, strtod: DoubleScanner)
    requires ValidScanner(strtod)
    ensures var r := LowestRule(es, url, strtod);
      && (forall i :: 0 <= i < |es| && es[i].rule != 0 && Matches(es[i], url, strtod) ==> 0 < r <= es[i].rule)
      && (r != 0 ==> exists i :: 0 <= i < |es| && es[i].rule == r && Matches(es[i], url, strtod))
  {
    if es != [] {
      var front := es[..|es| - 1];
      LowestRuleIsLeast(front, url, strtod);
      forall i | 0 <= i < |es| && es[i].rule != 0 && Matches(es[i], url, strtod)
        ensures 0 < LowestRule(es, url, strtod) <= es[i].rule
      {
        if i < |front| { assert front[i] == es[i]; }
      }
    }
  }

  /** The index the last `add` of exactly these segments stored. */
  ghost function Stored(es: seq<Entry>, segs: Pattern): nat {
    if es == [] then 0
    else if Segs(es[|es| - 1].toks) == segs then es[|es| - 1].rule
    else Stored(es[..|es| - 1], segs)
  }

  lemma {:induction false} AddAllPlain(es: seq<Entry>)
    requires GoodEntries(es) && AddAll(es).Some?
    ensures Plain(AddAll(es).value)
  {
    if es != [] {
      AddAllPlain(es[..|es| - 1]);
      AddedPlain(AddAll(es[..|es| - 1]).value, es[|es| - 1].toks, es[|es| - 1].rule);
    }
  }

  lemma {:induction false} AddAllLookup(es: seq<Entry>, segs: Pattern)
    requires GoodEntries(es) && GoodSegs(segs) && AddAll(es).Some?
    ensures Lookup(AddAll(es).value, segs) == Stored(es, segs)
  {
    if es == [] {
      LookupLeaf(EmptyTree, segs);
    } else {
      var front, e := es[..|es| - 1], es[|es| - 1];
      AddAllLookup(front, segs);
      AddAllPlain(front);
      AddedLookup(AddAll(front).value, e.toks, e.rule, segs);
    }
  }

  /** A non-zero index is never overwritten, so it stays the stored one. */
  lemma {:induction false} StoredForever(es: seq<Entry>, i: nat)
    requires GoodEntries(es) && AddAll(es).Some? && i < |es| && es[i].rule != 0
    ensures Stored(es, Segs(es[i].toks)) == es[i].rule
  {
    if i < |es| - 1 {
      var front, e := es[..|es| - 1], es[|es| - 1];
      assert front[i] == es[i];
      StoredForever(front, i);
      AddAllLookup(front, Segs(e.toks));
      AddedThrows(AddAll(front).value, e.toks, e.rule);
    }
  }

  lemma {:induction false} StoredComesFrom(es: seq<Entry>, segs: Pattern) returns (i: nat)
    requires Stored(es, segs) != 0
    ensures i < |es| && es[i].rule == Stored(es, segs) && Segs(es[i].toks) == segs
  {
    i := |es| - 1;
    if Segs(es[i].toks) != segs {
      i := StoredComesFrom(es[..|es| - 1], segs);
    }
  }

  /** After any sequence of successful `add` calls `find` returns the smallest
      non-zero index among all added patterns that match the whole URL, 0 if there
      is none, and the captures of an added pattern with that index. */
  lemma FindAgreesWithList(es: seq<Entry>, url: string, strtod: DoubleScanner)
    requires GoodEntries(es) && AddAll(es).Some? && ValidScanner(strtod)
    ensures Plain(AddAll(es).value)
    ensures var r := FindNode(url, AddAll(es).value, 0, NoParams, strtod);
      && r.rule == LowestRule(es, url, strtod)
      && (r.rule != 0 ==> exists i :: (0 <= i < |es| && es[i].rule == r.rule
            && Match(Segs(es[i].toks), url, 0, NoParams, strtod) == Some(r.params)))
  {
    var n := AddAll(es).value;
    AddAllPlain(es);
    var r := FindNode(url, n, 0, NoParams, strtod);
    LowestRuleIsLeast(es, url, strtod);
    if r.rule != 0 {
      var segs := FindIsSound(url, n, 0, NoParams, strtod);
      AddAllLookup(es, segs);
      var i := StoredComesFrom(es, segs);
      assert Matches(es[i], url, strtod);
    }
    var low := LowestRule(es, url, strtod);
    if low != 0 {
      var i :| 0 <= i < |es| && es[i].rule == low && Matches(es[i], url, strtod);
      var segs := Segs(es[i].toks);
      AddAllLookup(es, segs);
      StoredForever(es, i);
      FindIsComplete(url, n, 0, NoParams, strtod, segs);
    }
  }

  /** The segments were added with a non-zero index. */
  ghost predicate Present(es: seq<Entry>, segs: Pattern) {
    && es != []
    && ((es[|es| - 1].rule != 0 && Segs(es[|es| - 1].toks) == segs) || Present(es[..|es| - 1], segs))
  }

  lemma {:induction false} PresentAt(es: seq<Entry>, segs: Pattern) returns (i: nat)
    requires Present(es, segs)
    ensures i < |es| && es[i].rule != 0 && Segs(es[i].toks) == segs
  {
    i := |es| - 1;
    if es[i].rule == 0 || Segs(es[i].toks) != segs {
      i := PresentAt(es[..|es| - 1], segs);
    }
  }

  lemma {:induction false} PresentFrom(es: seq<Entry>, i: nat)
    requires i < |es| && es[i].rule != 0
    ensures Present(es, Segs(es[i].toks))
  {
    if i < |es| - 1 { PresentFrom(es[..|es| - 1], i); }
  }

  /** The next `add` throws exactly when its segments were already added with a
      non-zero index. */
  lemma AddThrowsIffPresent(es: seq<Entry>, e: Entry)
    requires GoodEntries(es) && AddAll(es).Some? && GoodSegs(Segs(e.toks))
    ensures AddAll(es + [e]) == Added(AddAll(es).value, e.toks, e.rule)
    ensures AddAll(es + [e]).None? <==> Present(es, Segs(e.toks))
  {
    assert (es + [e])[..|es|] == es;
    var segs := Segs(e.toks);
    AddAllLookup(es, segs);
    AddedThrows(AddAll(es).value, e.toks, e.rule);
    if Stored(es, segs) != 0 {
      var i := StoredComesFrom(es, segs);
      PresentFrom(es, i);
    }
    if Present(es, segs) {
      var i := PresentAt(es, segs);
      StoredForever(es, i);
    }
  }

  // ----- when the head may stay unmerged ----------------------------------------------------

  /** The segments that added rules begin with. */
  ghost function FirstSegs(es: seq<Entry>): set<Seg> {
    if es == [] then {}
    else
      var e := es[|es| - 1];
      FirstSegs(es[..|es| - 1]) + if e.toks == [] then {} else {e.toks[0].seg}
  }

  /** A non-zero index was added for the empty pattern. */
  ghost predicate StoresEmpty(es: seq<Entry>) {
    es != [] && ((es[|es| - 1].toks == [] && es[|es| - 1].rule != 0) || StoresEmpty(es[..|es| - 1]))
  }

  ghost function ChildSegs(n: Tree): set<Seg> { set i | 0 <= i < |n.children| :: SegOf(n.children[i]) }

  lemma AddedChildSegs(n: Tree, toks: seq<Tok>, rule: nat)
    requires Plain(n) && toks != [] && GoodSeg(toks[0].seg) && Added(n, toks, rule).Some?
    ensures ChildSegs(Added(n, toks, rule).value) == ChildSegs(n) + {toks[0].seg}
  {
    AddedChildSeg(n, toks, rule);
    var cs := Added(n, toks, rule).value.children;
    assert forall j :: 0 <= j < |n.children| ==> SegOf(cs[j]) == SegOf(n.children[j]);
    forall x | x in ChildSegs(n) ensures x in ChildSegs(Added(n, toks, rule).value) {
      var j :| 0 <= j < |n.children| && SegOf(n.children[j]) == x;
      assert SegOf(cs[j]) == x;
    }
  }

  lemma {:induction false} AddAllHead(es: seq<Entry>)
    requires GoodEntries(es) && AddAll(es).Some?
    ensures var n := AddAll(es).value;
      && Plain(n) && n.key == "" && n.param == MAX && n.bp.None?
      && (n.rule != 0 <==> StoresEmpty(es)) && ChildSegs(n) == FirstSegs(es)
  {
    if es != [] {
      var front, e := es[..|es| - 1], es[|es| - 1];
      AddAllHead(front);
      var n := AddAll(front).value;
      AddedPlain(n, e.toks, e.rule);
      AddedKeepsRoot(n, e.toks, e.rule);
      if e.toks != [] {
        assert GoodSeg(e.toks[0].seg) by { assert Segs(e.toks)[0] == e.toks[0].seg; }
        AddedChildSegs(n, e.toks, e.rule);
      }
    }
  }

  /** `validate` accepts the head exactly when no rule is stored for the empty
      pattern and all added rules begin with one and the same literal character. */
  lemma HeadIsSimpleIff(es: seq<Entry>)
    requires GoodEntries(es) && AddAll(es).Some?
    ensures IsSimple(AddAll(es).value) <==> !StoresEmpty(es) && exists c :: FirstSegs(es) <= {Lit(c)}
  {
    AddAllHead(es);
    var n := AddAll(es).value;
    if IsSimple(n) {
      var c := if n.children == [] then '/' else KeyHead(n.children[0].key);
      assert FirstSegs(es) <= {Lit(c)};
    }
    if exists c :: FirstSegs(es) <= {Lit(c)} {
      var c :| FirstSegs(es) <= {Lit(c)};
      forall k | 0 <= k < |n.children| ensures SegOf(n.children[k]) == Lit(c) {
        assert SegOf(n.children[k]) in ChildSegs(n);
      }
    }
  }

  /** Rules that start with '/', as every registered rule does, always validate. */
  lemma SlashRulesValidate(es: seq<Entry>)
    requires GoodEntries(es) && AddAll(es).Some?
    requires forall i :: 0 <= i < |es| ==> es[i].toks != [] && es[i].toks[0].seg == Lit('/')
    ensures IsSimple(AddAll(es).value)
  {
    FirstIsSlash(es);
    HeadIsSimpleIff(es);
  }

  lemma FirstIsSlash(es: seq<Entry>)
    requires forall i :: 0 <= i < |es| ==> es[i].toks != [] && es[i].toks[0].seg == Lit('/')
    ensures !StoresEmpty(es) && FirstSegs(es) <= {Lit('/')}
  {
  }
}
