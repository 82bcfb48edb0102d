/** The trie of include/Crow/include/crow/routing.h as heap objects: nodes that
    `add` and `optimize` rewrite in place, and a search that pushes and pops one
    shared parameter stack. Every method is tied to the tree its nodes carry. */
module Trie {
  import opened Wrappers
  import opened RouteTree
  import opened RouteProofs
  import opened RouteRule

  /** `routing_params`, shared by all levels of one search. */
  class RoutingParams {
    var intParams: seq<int>
    var uintParams: seq<nat>
    var doubleParams: seq<Double>
    var stringParams: seq<string>

    constructor ()
      ensures Contents() == NoParams
    {
      intParams, uintParams, doubleParams, stringParams := [], [], [], [];
    }

    function Contents(): Params
      reads this
    {
      Params(intParams, uintParams, doubleParams, stringParams)
    }

    method PushCapture(c: Capture)
      modifies this
      ensures Contents() == Push(old(Contents()), c)
    {
      match c
      case IntCapture(i) => intParams := intParams + [i];
      case UintCapture(u) => uintParams := uintParams + [u];
      case DoubleCapture(d) => doubleParams := doubleParams + [d];
      case StringCapture(s) => stringParams := stringParams + [s];
    }

    /** `pop_back` on the vector that `c` was pushed to. */
    method PopCapture(c: Capture, ghost before: Params)
      requires Contents() == Push(before, c)
      modifies this
      ensures Contents() == before
    {
      match c
      case IntCapture(i) => intParams := intParams[..|intParams| - 1];
      case UintCapture(u) => uintParams := uintParams[..|uintParams| - 1];
      case DoubleCapture(d) => doubleParams := doubleParams[..|doubleParams| - 1];
      case StringCapture(s) => stringParams := stringParams[..|stringParams| - 1];
    }
  }

  /** The reading step of `add`: a literal, or the first tag of the table that
      stands at `i`. */
  method ReadSegment(url: string, i: nat, bpLength: nat, bp: Option<nat>) returns (tok: Tok, next: nat)
    requires i < |url| && GoodRule(url, i)
    ensures NextTok(url, i, bpLength, bp) == Some((tok, next)) && GoodRule(url, next)
    ensures Tokenize(url, i, bpLength, bp) == [tok] + Tokenize(url, next, bpLength, bp)
  {
    next := i + 1;
    if url[i] == '<' {
      var k := 0;
      while !KeyAt(url, i, PARAM_TRAITS[k].name)
        invariant k <= TagFrom(url, i, 0) == TagFrom(url, i, k) < |PARAM_TRAITS|
        decreases |PARAM_TRAITS| - k
      {
        k := k + 1;
      }
      tok, next := Tok(Par(PARAM_TRAITS[k].t), None), i + |PARAM_TRAITS[k].name|;
    } else {
      tok := Tok(Lit(url[i]), if bpLength != 0 && i == bpLength then bp else None);
    }
  }

  class Node {
    var ruleIndex: nat
    var blueprintIndex: Option<nat>
    var key: string
    var param: ParamType
    var children: seq<Node>
    ghost var Repr: set<Node>

    /** The node and everything below it form the tree `t`, and no node below is
        shared. */
    ghost predicate Carries(t: Tree)
      reads this, Repr
      decreases t
    {
      && this in Repr
      && t == Tree(ruleIndex, blueprintIndex, key, param, t.children)
      && |children| == |t.children|
      && (forall i :: 0 <= i < |children| ==>
            children[i] in Repr && children[i].Repr <= Repr && this !in children[i].Repr)
      && (forall i, j :: 0 <= i < j < |children| ==> children[i].Repr !! children[j].Repr)
      && (forall i :: 0 <= i < |children| ==> children[i].Carries(t.children[i]))
    }

    constructor ()
      ensures Carries(EmptyTree) && fresh(Repr) && Repr == {this}
    {
      ruleIndex, blueprintIndex, key, param, children := 0, None, "", MAX, [];
      Repr := {this};
    }

    constructor ForSegment(tok: Tok)
      ensures Carries(NewNode(tok)) && fresh(Repr) && Repr == {this}
    {
      ruleIndex, blueprintIndex, key, param, children := 0, None, "", MAX, [];
      match tok.seg {
        case Lit(c) => key := [c]; blueprintIndex := tok.bp;
        case Par(t) => param := t;
      }
      Repr := {this};
    }

    /** `add_child_node`. */
    method AddChildNode(child: Node, ghost t: Tree, ghost c: Tree)
      requires Carries(t) && child.Carries(c) && child.Repr !! Repr
      modifies this
      ensures children == old(children) + [child] && Repr == old(Repr) + child.Repr
      ensures Carries(t.(children := t.children + [c]))
    {
      children := children + [child];
      Repr := Repr + child.Repr;
    }

    /** The loop of `add` over the children for one segment: the child it follows,
        or a new one. */
    method ChildOrNew(tok: Tok, ghost t: Tree) returns (k: nat)
      requires Carries(t)
      modifies this
      ensures k == ChildFor(t.children, tok.seg) && k < |children|
      ensures Carries(Entered(t, tok))
      ensures fresh(Repr - old(Repr)) && old(Repr) <= Repr
    {
      k := 0;
      while k < |children|
        invariant k <= |children|
        invariant forall j :: 0 <= j < k ==> !Follows(t.children[j], tok.seg)
      {
        var child := children[k];
        assert child.Carries(t.children[k]);
        if (match tok.seg case Lit(c) => KeyHead(child.key) == c case Par(p) => child.param == p) {
          FirstFollows(t.children, tok.seg, k);
          return;
        }
        k := k + 1;
      }
      FirstFollows(t.children, tok.seg, k);
      var child := new Node.ForSegment(tok);
      AddChildNode(child, t, NewNode(tok));
    }

    /** The end of `add`: the last node must not hold a rule yet. */
    method StoreRule(rule: nat, ghost t: Tree) returns (added: bool)
      requires Carries(t)
      modifies this
      ensures added == Added(t, [], rule).Some? && Repr == old(Repr)
      ensures Carries(if added then Added(t, [], rule).value else t)
    {
      if ruleIndex != 0 {
        return false;
      }
      ruleIndex := rule;
      return true;
    }

    /** `add` from the node its cursor is at; false stands for the exception. */
    method AddFrom(url: string, i: nat, rule: nat, bpLength: nat, bp: Option<nat>, ghost t: Tree) returns (added: bool)
      requires Carries(t) && i <= |url| && GoodRule(url, i)
      modifies Repr
      ensures fresh(Repr - old(Repr)) && old(Repr) <= Repr
      ensures var r := Added(t, Tokenize(url, i, bpLength, bp), rule);
        added == r.Some? && Carries(if added then r.value else t)
      decreases |url| - i, 0
    {
      if i == |url| {
        added := StoreRule(rule, t);
        return;
      }
      var tok, next := ReadSegment(url, i, bpLength, bp);
      ghost var toks := Tokenize(url, i, bpLength, bp);
      AddedEntered(t, toks, rule);
      var k := ChildOrNew(tok, t);
      ghost var mid := Repr;
      added := AddBelow(k, url, next, rule, bpLength, bp, Entered(t, tok));
      assert Repr - old(Repr) == (Repr - mid) + (mid - old(Repr));
    }

    /** The cursor moves to child `k`. */
    method AddBelow(k: nat, url: string, i: nat, rule: nat, bpLength: nat, bp: Option<nat>, ghost t: Tree) returns (added: bool)
      requires Carries(t) && k < |children| && i <= |url| && GoodRule(url, i)
      modifies Repr
      ensures fresh(Repr - old(Repr)) && old(Repr) <= Repr
      ensures var r := Added(t.children[k], Tokenize(url, i, bpLength, bp), rule);
        added == r.Some? && Carries(if added then t.(children := t.children[k := r.value]) else t)
      decreases |url| - i, 1
    {
      var child := children[k];
      added := child.AddFrom(url, i, rule, bpLength, bp, t.children[k]);
      Repr := Repr + child.Repr;
    }

    method IsSimpleNode(ghost t: Tree) returns (simple: bool)
      requires Carries(t)
      ensures simple == IsSimple(t)
    {
      simple := ruleIndex == 0 && blueprintIndex.None? && |children| < 2 && param == MAX
        && (forall i :: 0 <= i < |children| ==> children[i].param == MAX);
      assert forall i :: 0 <= i < |children| ==> children[i].param == t.children[i].param;
    }

    /** The node takes the key, the indices and the children of its only child. */
    method TakeOverChild(ghost t: Tree)
      requires Carries(t) && |children| == 1
      modifies this
      ensures Carries(Absorb(t)) && Repr == old(Repr)
    {
      var child := children[0];
      ghost var c := t.children[0];
      assert child.Carries(c);
      key := key + child.key;
      ruleIndex := child.ruleIndex;
      blueprintIndex := child.blueprintIndex;
      children := child.children;
    }

    /** `optimizeNode`. */
    method OptimizeNode(ghost t: Tree)
      requires Carries(t)
      modifies Repr
      ensures Carries(Optimized(t)) && Repr == old(Repr)
      decreases Size(t), 0
    {
      if |children| == 0 {
        return;
      }
      var simple := IsSimpleNode(t);
      if simple {
        assert ForestSize(t.children) == Size(t.children[0]) + ForestSize(t.children[1..]);
        TakeOverChild(t);
        OptimizeNode(Absorb(t));
      } else {
        OptimizeChildren(t);
      }
    }

    /** The loop of `optimizeNode` and of `optimize` over the children. */
    method OptimizeChildren(ghost t: Tree)
      requires Carries(t)
      modifies Repr
      ensures Carries(t.(children := OptimizedAll(t.children))) && Repr == old(Repr)
      decreases ForestSize(t.children), 3
    {
      ghost var done := OptimizedAll(t.children);
      ghost var now := t;
      for i := 0 to |children|
        invariant Repr == old(Repr) && children == old(children)
        invariant Carries(now) && now.(children := []) == t.(children := []) && |now.children| == |done|
        invariant forall j :: 0 <= j < |done| ==> now.children[j] == if j < i then done[j] else t.children[j]
      {
        OptimizeChild(i, now);
        now := now.(children := now.children[i := done[i]]);
      }
      assert now.children == done;
    }

    method OptimizeChild(i: nat, ghost t: Tree)
      requires Carries(t) && i < |children|
      modifies children[i].Repr
      ensures Carries(t.(children := t.children[i := Optimized(t.children[i])]))
      ensures Repr == old(Repr) && children == old(children)
      decreases Size(t.children[i]), 2
    {
      children[i].OptimizeNode(t.children[i]);
    }

    /** `find` below one node. The stack `params` is pushed to and popped from, and
        comes back as it was. */
    method Find(url: string, pos: nat, params: RoutingParams, strtod: DoubleScanner, ghost t: Tree) returns (r: Found)
      requires Carries(t) && pos <= |url| && ValidScanner(strtod)
      modifies params
      ensures r == FindNode(url, t, pos, params.Contents(), strtod)
      ensures params.Contents() == old(params.Contents())
      decreases t
    {
      if pos == |url| {
        return Found(ruleIndex, params.Contents());
      }
      var found := NotFound;
      ghost var p := params.Contents();
      for i := 0 to |children|
        invariant params.Contents() == p
        invariant FindChildren(url, t.children, pos, p, NotFound, strtod)
          == FindChildren(url, t.children[i..], pos, p, found, strtod)
      {
        var child := children[i];
        var ret := NotFound;
        if child.param != MAX {
          match Scan(child.param, url, pos, strtod) {
            case None =>
            case Some((capture, end)) =>
              ScanAdvances(child.param, url, pos, strtod);
              params.PushCapture(capture);
              ret := child.Find(url, end, params, strtod, t.children[i]);
              params.PopCapture(capture, p);
          }
        } else if KeyAt(url, pos, child.key) {
          ret := child.Find(url, pos + |child.key|, params, strtod, t.children[i]);
        }
        found := Better(found, ret);
        assert t.children[i..][1..] == t.children[i + 1..];
      }
      return found;
    }
  }

  /** The `add` call for a rule as text. */
  function EntryOf(url: string, rule: nat, bpLength: nat, bp: Option<nat>): Entry
    requires GoodRule(url, 0)
  {
    Entry(Tokenize(url, 0, bpLength, bp), rule)
  }

  class Trie {
    const head: Node
    ghost var entries: seq<Entry>  // the calls of add that did not throw
    ghost var optimized: bool

    ghost predicate Valid()
      reads this, head, head.Repr
    {
      && GoodEntries(entries) && AddAll(entries).Some?
      && head.Carries(Shape())
    }

    ghost function Shape(): Tree
      requires AddAll(entries).Some?
      reads this
    {
      if optimized then OptimizedHead(AddAll(entries).value) else AddAll(entries).value
    }

    constructor ()
      ensures Valid() && fresh(head.Repr) && entries == [] && !optimized
    {
      head := new Node();
      entries, optimized := [], false;
    }

    method IsEmpty() returns (empty: bool)
      requires Valid()
      ensures empty == (Shape().children == [])
    {
      empty := head.children == [];
    }

    /** `add`; false stands for the exception "handler already exists". */
    method Add(url: string, rule: nat, bpLength: nat, bp: Option<nat>) returns (added: bool)
      requires Valid() && !optimized && GoodRule(url, 0)
      modifies this, head.Repr
      ensures Valid() && !optimized && fresh(head.Repr - old(head.Repr)) && old(head.Repr) <= head.Repr
      ensures var e := EntryOf(url, rule, bpLength, bp);
        && added == !Present(old(entries), Segs(e.toks))
        && entries == if added then old(entries) + [e] else old(entries)
    {
      ghost var e := EntryOf(url, rule, bpLength, bp);
      AddThrowsIffPresent(entries, e);
      added := head.AddFrom(url, 0, rule, bpLength, bp, Shape());
      if added {
        entries := entries + [e];
      }
    }

    /** `optimize`: every child of the head is compressed, the head is not. */
    method Optimize()
      requires Valid()
      modifies this, head.Repr
      ensures Valid() && optimized && entries == old(entries) && head.Repr == old(head.Repr)
    {
      ghost var n := AddAll(entries).value;
      CompressionIsComplete(n);
      assert OptimizedHead(Shape()) == OptimizedHead(n);
      head.OptimizeChildren(Shape());
      optimized := true;
    }

    /** `validate`; false stands for "Trie header should be simple". */
    method Validate() returns (ok: bool)
      requires Valid() && !optimized
      modifies this, head.Repr
      ensures Valid() && entries == old(entries) && optimized == ok && head.Repr == old(head.Repr)
      ensures ok <==> !StoresEmpty(entries) && exists c :: FirstSegs(entries) <= {Lit(c)}
    {
      HeadIsSimpleIff(entries);
      ok := head.IsSimpleNode(Shape());
      if ok {
        Optimize();
      }
    }

    /** `find`, before or after `optimize`: the smallest non-zero index among the
        added patterns that match the whole URL, with the captures of one of them. */
    method Find(url: string, strtod: DoubleScanner) returns (r: Found)
      requires Valid() && ValidScanner(strtod)
      ensures r.rule == LowestRule(entries, url, strtod)
      ensures r.rule != 0 ==> exists i :: (0 <= i < |entries| && entries[i].rule == r.rule
        && Match(Segs(entries[i].toks), url, 0, NoParams, strtod) == Some(r.params))
    {
      var params := new RoutingParams();
      r := head.Find(url, 0, params, strtod, Shape());
      FindAgreesWithList(entries, url, strtod);
      PlainIsKeyed(AddAll(entries).value);
      CompressionKeepsFind(AddAll(entries).value, url, NoParams, strtod);
    }
  }
}
