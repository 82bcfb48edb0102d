/** Sections as they nest in the tags of a template: the block stack of `parse`
    against the trees of sections. */
module MustacheNest {
  import opened Wrappers
  import opened MustacheTree
  import opened MustacheProgram

  // ----- nested actions -----------------------------------------------------------------

  /** Only the actions from `b` to before `e` matter. */
  lemma {:induction false} NestedSame(body: string, x: seq<Action>, y: seq<Action>, b: nat, e: nat)
    requires Nested(body, x, b, e) && e <= |y| && forall i :: b <= i < e ==> x[i] == y[i]
    ensures Nested(body, y, b, e)
    decreases e - b
  {
    if b < e {
      if IsBlock(x[b].t) {
        NestedSame(body, x, y, b + 1, x[b].pos);
        NestedSame(body, x, y, x[b].pos + 1, e);
      } else {
        NestedSame(body, x, y, b + 1, e);
      }
    }
  }

  lemma {:induction false} NestedConcat(body: string, x: seq<Action>, b: nat, m: nat, e: nat)
    requires Nested(body, x, b, m) && Nested(body, x, m, e)
    ensures Nested(body, x, b, e)
    decreases m - b
  {
    if b < m {
      if IsBlock(x[b].t) { NestedConcat(body, x, x[b].pos + 1, m, e); } else { NestedConcat(body, x, b + 1, m, e); }
    }
  }

  /** A section closed: its block at `m`, its closing tag last. */
  lemma NestedClose(body: string, x: seq<Action>, b: nat, m: nat, n: nat)
    requires Nested(body, x, b, m) && m < n < |x| && IsBlock(x[m].t) && x[m].pos == n && x[n].t.CloseBlock?
    requires TagName(body, x[n]) == TagName(body, x[m])
    requires Nested(body, x, m + 1, n)
    ensures Nested(body, x, b, n + 1)
  {
    assert Nested(body, x, n + 1, n + 1);
    NestedConcat(body, x, b, m, n + 1);
  }

  // ----- tags and trees -------------------------------------------------------------------

  datatype TagOf = TagOf(t: ActionType, name: string)

  /** The tags of a template without its comments. */
  function TagsOf(body: string, actions: seq<Action>, b: nat, e: nat): seq<TagOf>
    requires b <= e <= |actions|
    decreases e - b
  {
    if b == e then []
    else if actions[b].t.Ignore? then TagsOf(body, actions, b + 1, e)
    else [TagOf(actions[b].t, TagName(body, actions[b]))] + TagsOf(body, actions, b + 1, e)
  }

  /** The tags that a tree of sections is written with. */
  function Written(nodes: seq<Node>): seq<TagOf>
    decreases nodes, 0
  {
    if nodes == [] then [] else WrittenNode(nodes[0]) + Written(nodes[1..])
  }

  function WrittenNode(n: Node): seq<TagOf>
    decreases n, 0
  {
    match n
    case Text(_) => []
    case Variable(name, escaped) => [TagOf(if escaped then Tag else UnescapeTag, name)]
    case Include(name) => [TagOf(Partial, name)]
    case Section(name, inverted, body) =>
      [TagOf(if inverted then ElseBlock else OpenBlock, name)] + Written(body) + [TagOf(CloseBlock, name)]
  }

  lemma {:induction false} WrittenConcat(x: seq<Node>, y: seq<Node>)
    ensures Written(x + y) == Written(x) + Written(y)
    decreases |x|
  {
    if x == [] {
      assert x + y == y;
    } else {
      assert (x + y)[1..] == x[1..] + y;
      WrittenConcat(x[1..], y);
    }
  }

  lemma {:induction false} TagsConcat(body: string, actions: seq<Action>, b: nat, m: nat, e: nat)
    requires b <= m <= e <= |actions|
    ensures TagsOf(body, actions, b, e) == TagsOf(body, actions, b, m) + TagsOf(body, actions, m, e)
    decreases m - b
  {
    if b < m {
      TagsConcat(body, actions, b + 1, m, e);
    }
  }

  /** The tree of a program is written with the template's own tags. */
  lemma {:induction false} TreeIsWritten(p: Program, b: nat, e: nat)
    requires Nested(p.body, p.actions, b, e)
    ensures Written(Nodes(p, b, e)) == TagsOf(p.body, p.actions, b, e)
    decreases e - b, 1
  {
    if b < e {
      var a, text := p.actions[b], Text(FragmentText(p, b));
      if IsBlock(a.t) {
        BlockIsWritten(p, b, e);
      } else {
        var rest := Nodes(p, b + 1, e);
        TreeIsWritten(p, b + 1, e);
        if a.t.Ignore? {
          assert ([text] + rest)[1..] == rest;
        } else {
          WrittenTwo(text, if a.t.Partial? then Include(NameAt(p, b)) else Variable(NameAt(p, b), a.t.Tag?), rest);
        }
      }
    }
  }

  lemma {:induction false} BlockIsWritten(p: Program, b: nat, e: nat)
    requires Nested(p.body, p.actions, b, e) && b < e && IsBlock(p.actions[b].t)
    ensures Written(Nodes(p, b, e)) == TagsOf(p.body, p.actions, b, e)
    decreases e - b, 0
  {
    hide TagsOf, Written;
    var a := p.actions[b];
    var inner, after := Nodes(p, b + 1, a.pos), Nodes(p, a.pos + 1, e);
    TreeIsWritten(p, b + 1, a.pos);
    TreeIsWritten(p, a.pos + 1, e);
    WrittenLast(inner, FragmentText(p, a.pos));
    WrittenTwo(Text(FragmentText(p, b)), Section(NameAt(p, b), a.t.ElseBlock?, TreeOf(p, b + 1, a.pos)), after);
    BlockTags(p, b, e);
  }

  lemma BlockTags(p: Program, b: nat, e: nat)
    requires Nested(p.body, p.actions, b, e) && b < e && IsBlock(p.actions[b].t)
    ensures var a, name := p.actions[b], NameAt(p, b);
      TagsOf(p.body, p.actions, b, e)
      == [TagOf(a.t, name)] + TagsOf(p.body, p.actions, b + 1, a.pos) + [TagOf(CloseBlock, name)]
         + TagsOf(p.body, p.actions, a.pos + 1, e)
  {
    hide TagName, TagsOf, Nested, IsBlock;
    BlockIsClosed(p.body, p.actions, b, e);
    var a, name := p.actions[b], NameAt(p, b);
    TagsUnfold(p.body, p.actions, b, e);
    TagsConcat(p.body, p.actions, b + 1, a.pos, e);
    TagsUnfold(p.body, p.actions, a.pos, e);
    Regroup([TagOf(a.t, name)], TagsOf(p.body, p.actions, b + 1, a.pos), [TagOf(CloseBlock, name)],
            TagsOf(p.body, p.actions, a.pos + 1, e), TagsOf(p.body, p.actions, a.pos, e),
            TagsOf(p.body, p.actions, b + 1, e), TagsOf(p.body, p.actions, b, e));
  }

  lemma Regroup(x: seq<TagOf>, y: seq<TagOf>, z: seq<TagOf>, w: seq<TagOf>,
                zw: seq<TagOf>, yzw: seq<TagOf>, all: seq<TagOf>)
    requires zw == z + w && yzw == y + zw && all == x + yzw
    ensures all == x + y + z + w
  {
  }

  lemma BlockIsClosed(body: string, actions: seq<Action>, b: nat, e: nat)
    requires Nested(body, actions, b, e) && b < e && IsBlock(actions[b].t)
    ensures var pos := actions[b].pos;
      b < pos < e <= |actions| && !actions[b].t.Ignore? && actions[pos].t == CloseBlock
      && TagName(body, actions[pos]) == TagName(body, actions[b])
  {
  }

  lemma TagsUnfold(body: string, actions: seq<Action>, b: nat, e: nat)
    requires b < e <= |actions| && !actions[b].t.Ignore?
    ensures TagsOf(body, actions, b, e) == [TagOf(actions[b].t, TagName(body, actions[b]))] + TagsOf(body, actions, b + 1, e)
  {
  }

  lemma WrittenLast(nodes: seq<Node>, s: string)
    ensures Written(nodes + [Text(s)]) == Written(nodes)
  {
    WrittenConcat(nodes, [Text(s)]);
    assert [Text(s)][1..] == [];
  }

  lemma WrittenTwo(text: Node, n: Node, rest: seq<Node>)
    requires text.Text?
    ensures Written([text, n] + rest) == WrittenNode(n) + Written(rest)
  {
    var all := [text, n] + rest;
    assert all[1..] == [n] + rest && all[1..][1..] == rest;
  }

  // ----- the stack of open blocks -------------------------------------------------------------

  /** The names of the open blocks after one more tag, the last opened last: none is
      closed but the last opened. */
  function Turn(open: seq<string>, tag: TagOf): Option<seq<string>> {
    if IsBlock(tag.t) then Some(open + [tag.name])
    else if !tag.t.CloseBlock? then Some(open)
    else if open != [] && open[|open| - 1] == tag.name then Some(open[..|open| - 1])
    else None
  }

  function OpenAfter(tags: seq<TagOf>, open: seq<string>): Option<seq<string>> {
    if tags == [] then Some(open)
    else
      var o :- OpenAfter(tags[..|tags| - 1], open);
      Turn(o, tags[|tags| - 1])
  }

  /** The tags are closed in order, and none stays open. */
  predicate Balanced(tags: seq<TagOf>) { OpenAfter(tags, []) == Some([]) }

  lemma {:induction false} OpenAfterConcat(x: seq<TagOf>, y: seq<TagOf>, open: seq<string>)
    ensures OpenAfter(x + y, open)
      == match OpenAfter(x, open) case None => None case Some(o) => OpenAfter(y, o)
    decreases |y|
  {
    if y == [] {
      assert x + y == x;
    } else {
      assert (x + y)[..|x + y| - 1] == x + y[..|y| - 1];
      OpenAfterConcat(x, y[..|y| - 1], open);
    }
  }

  lemma OneTag(tag: TagOf, open: seq<string>)
    ensures OpenAfter([tag], open) == Turn(open, tag)
  {
    assert [tag][..0] == [];
  }

  lemma {:induction false} WrittenBalances(nodes: seq<Node>, open: seq<string>)
    ensures OpenAfter(Written(nodes), open) == Some(open)
    decreases nodes, 1
  {
    if nodes != [] {
      NodeBalances(nodes[0], open);
      WrittenBalances(nodes[1..], open);
      OpenAfterConcat(WrittenNode(nodes[0]), Written(nodes[1..]), open);
    }
  }

  lemma {:induction false} NodeBalances(n: Node, open: seq<string>)
    ensures OpenAfter(WrittenNode(n), open) == Some(open)
    decreases n, 0
  {
    match n
    case Text(_) =>
    case Variable(name, escaped) => OneTag(TagOf(if escaped then Tag else UnescapeTag, name), open);
    case Include(name) => OneTag(TagOf(Partial, name), open);
    case Section(name, inverted, body) =>
      var first, last := TagOf(if inverted then ElseBlock else OpenBlock, name), TagOf(CloseBlock, name);
      OneTag(first, open);
      WrittenBalances(body, open + [name]);
      OpenAfterConcat([first], Written(body), open);
      OneTag(last, open + [name]);
      OpenAfterConcat([first] + Written(body), [last], open);
      assert (open + [name])[..|open|] == open;
  }

  /** The tags of any tree of sections are balanced. */
  lemma TreesAreBalanced(nodes: seq<Node>)
    ensures Balanced(Written(nodes))
  {
    WrittenBalances(nodes, []);
  }
}
