/** The flat program a template is compiled to: text fragments and actions with jump
    targets; its run against the tree it stands for. */
module MustacheProgram {
  import opened Wrappers
  import opened MustacheTree

  datatype ActionType = Ignore | Tag | UnescapeTag | OpenBlock | CloseBlock | ElseBlock | Partial

  datatype Action = Action(tagChar: char, t: ActionType, start: nat, end: nat, pos: nat, hasEndMatch: bool)

  /** `fragments_[i]` is the text before `actions_[i]`. */
  datatype Program = Program(body: string, fragments: seq<(nat, nat)>, actions: seq<Action>)

  /** `body_.substr(start, end - start)`. With `end` before `start` the count wraps
      around, and the rest of the body is taken. */
  function SubText(body: string, start: nat, end: nat): string {
    if start > |body| then "" else if start <= end <= |body| then body[start..end] else body[start..]
  }

  function TagName(body: string, a: Action): string { SubText(body, a.start, a.end) }

  /** The text of a fragment; here, too, an end before the start takes the rest. */
  function FragmentText(p: Program, i: nat): string {
    if i < |p.fragments| then SubText(p.body, p.fragments[i].0, p.fragments[i].1) else ""
  }

  function NameAt(p: Program, i: nat): string
    requires i < |p.actions|
  {
    TagName(p.body, p.actions[i])
  }

  predicate IsBlock(t: ActionType) { t.OpenBlock? || t.ElseBlock? }

  /** The actions from `b` to before `e` are nested sections: every block is closed
      inside by the action at its `pos`, which has the same name. */
  predicate Nested(body: string, actions: seq<Action>, b: nat, e: nat)
    decreases e - b
  {
    b <= e <= |actions|
    && (b < e ==>
          var a := actions[b];
          if IsBlock(a.t) then
            && b < a.pos < e && actions[a.pos].t.CloseBlock? && TagName(body, actions[a.pos]) == TagName(body, a)
            && Nested(body, actions, b + 1, a.pos) && Nested(body, actions, a.pos + 1, e)
          else !a.t.CloseBlock? && Nested(body, actions, b + 1, e))
  }

  /** The nodes of nested actions, up to the fragment at `e`. */
  function Nodes(p: Program, b: nat, e: nat): seq<Node>
    requires Nested(p.body, p.actions, b, e)
    decreases e - b, 0
  {
    if b == e then []
    else
      var a, text, name := p.actions[b], Text(FragmentText(p, b)), NameAt(p, b);
      if IsBlock(a.t) then
        [text, Section(name, a.t.ElseBlock?, TreeOf(p, b + 1, a.pos))] + Nodes(p, a.pos + 1, e)
      else if a.t.Ignore? then [text] + Nodes(p, b + 1, e)
      else [text, if a.t.Partial? then Include(name) else Variable(name, a.t.Tag?)] + Nodes(p, b + 1, e)
  }

  /** The same with that fragment. */
  function TreeOf(p: Program, b: nat, e: nat): seq<Node>
    requires Nested(p.body, p.actions, b, e)
    decreases e - b, 1
  {
    Nodes(p, b, e) + [Text(FragmentText(p, e))]
  }

  // ----- the flat run --------------------------------------------------------------------

  /** How a run of actions ends: with text and the context stack left, with the
      exception, at a partial, or with a jump or a pop that the program does not
      provide for. */
  datatype End = Ended(text: string, stack: seq<Value>) | Raised | Loading | Stuck

  function Before(s: string, r: End): End {
    if r.Ended? then r.(text := s + r.text) else r
  }

  /** `render_internal` from the action `cur` on. */
  function Flat(p: Program, cur: nat, e: nat, stack: seq<Value>): End
    decreases e - cur, 0, 0
  {
    if cur >= e then Ended(FragmentText(p, e), stack)
    else if cur >= |p.actions| then Stuck
    else Before(FragmentText(p, cur), FlatAction(p, cur, e, stack))
  }

  function FlatAction(p: Program, cur: nat, e: nat, stack: seq<Value>): End
    requires cur < e && cur < |p.actions|
    decreases e - cur - 1, 2, 0
  {
    var a := p.actions[cur];
    match a.t
    case Ignore => Flat(p, cur + 1, e, stack)
    case Partial => Loading
    case Tag => FlatTag(p, cur, e, stack, true)
    case UnescapeTag => FlatTag(p, cur, e, stack, false)
    case CloseBlock => if stack == [] then Stuck else Flat(p, cur + 1, e, stack[..|stack| - 1])
    case ElseBlock =>
      var frames := Frames(Lookup(NameAt(p, cur), stack), true);
      if frames == [] then Jump(p, cur, e, stack) else Flat(p, cur + 1, e, stack + frames)
    case OpenBlock =>
      var v := Lookup(NameAt(p, cur), stack);
      if v.Some? && v.value.List? then
        if !(cur < a.pos < e) then Stuck
        else
          match FlatEach(p, cur + 1, a.pos, stack, v.value.elements)
          case Ended(text, stack') => Before(text, Jump(p, cur, e, stack'))
          case r => r
      else
        var frames := Frames(v, false);
        if frames == [] then Jump(p, cur, e, stack) else Flat(p, cur + 1, e, stack + frames)
  }

  function FlatTag(p: Program, cur: nat, e: nat, stack: seq<Value>, escaped: bool): End
    requires cur < e && cur < |p.actions|
    decreases e - cur - 1, 1, 0
  {
    match Show(Lookup(NameAt(p, cur), stack), escaped)
    case Done(text) => Before(text, Flat(p, cur + 1, e, stack))
    case Thrown => Raised
    case Loads => Loading
  }

  /** On from the closing tag. */
  function Jump(p: Program, cur: nat, e: nat, stack: seq<Value>): End
    requires cur < e && cur < |p.actions|
    decreases e - cur - 1, 1, 0
  {
    if cur < p.actions[cur].pos < e then Flat(p, p.actions[cur].pos + 1, e, stack) else Stuck
  }

  /** The loop over a list: a frame is pushed, the section's actions run up to the
      closing tag, and the frame is popped. */
  function FlatEach(p: Program, b: nat, e: nat, stack: seq<Value>, frames: seq<Value>): End
    decreases e - b, 1, |frames|
  {
    if frames == [] then Ended("", stack)
    else
      match FlatEach(p, b, e, stack, frames[..|frames| - 1])
      case Ended(text, stack1) =>
        (match Flat(p, b, e, stack1 + [frames[|frames| - 1]])
         case Ended(more, stack2) => if stack2 == [] then Stuck else Ended(text + more, stack2[..|stack2| - 1])
         case r => r)
      case r => r
  }

  // ----- the run against the tree -----------------------------------------------------------

  /** What was rendered, and then the rest of the run. */
  function Follow(o: Output, r: End): End {
    match o
    case Done(text) => Before(text, r)
    case Thrown => Raised
    case Loads => Loading
  }

  lemma FollowThen(a: Output, b: Output, r: End)
    ensures Follow(Then(a, b), r) == Follow(a, Follow(b, r))
  {
    if a.Done? && b.Done? && r.Ended? { assert a.text + b.text + r.text == a.text + (b.text + r.text); }
  }

  lemma FollowText(s: string, o: Output, r: End)
    ensures Follow(Then(Done(s), o), r) == Before(s, Follow(o, r))
  {
    FollowThen(Done(s), o, r);
  }

  lemma EvalText(s: string, rest: seq<Node>, stack: seq<Value>)
    ensures Eval([Text(s)] + rest, stack) == Then(Done(s), Eval(rest, stack))
  {
    assert ([Text(s)] + rest)[1..] == rest;
  }

  lemma EvalTwo(s: string, n: Node, rest: seq<Node>, stack: seq<Value>)
    ensures Eval([Text(s), n] + rest, stack) == Then(Done(s), Then(EvalNode(n, stack), Eval(rest, stack)))
  {
    assert [Text(s), n] + rest == [Text(s)] + ([n] + rest);
    EvalText(s, [n] + rest, stack);
    assert ([n] + rest)[1..] == rest;
  }

  lemma EvalLast(nodes: seq<Node>, s: string, stack: seq<Value>)
    ensures Eval(nodes + [Text(s)], stack) == Then(Eval(nodes, stack), Done(s))
  {
    EvalConcat(nodes, [Text(s)], stack);
    assert [Text(s)][1..] == [];
    ThenDone(Done(s), "", "");
    assert Eval([Text(s)], stack) == Then(Done(s), Done(""));
    assert s + "" == s;
  }

  /** Nested actions run to their end with the stack as it was, and render their nodes. */
  lemma {:induction false} FlatRuns(p: Program, b: nat, m: nat, e: nat, stack: seq<Value>)
    requires Nested(p.body, p.actions, b, m) && m <= e
    ensures Flat(p, b, e, stack) == Follow(Eval(Nodes(p, b, m), stack), Flat(p, m, e, stack))
    decreases m - b, 0
  {
    var rest := Flat(p, m, e, stack);
    if b == m {
      if rest.Ended? { assert "" + rest.text == rest.text; }
    } else {
      var a, s := p.actions[b], FragmentText(p, b);
      if IsBlock(a.t) {
        BlockRuns(p, b, m, e, stack);
      } else {
        FlatRuns(p, b + 1, m, e, stack);
        var tail := Nodes(p, b + 1, m);
        if a.t.Ignore? {
          EvalText(s, tail, stack);
          FollowText(s, Eval(tail, stack), rest);
        } else {
          var n := if a.t.Partial? then Include(NameAt(p, b)) else Variable(NameAt(p, b), a.t.Tag?);
          assert FlatAction(p, b, e, stack) == Follow(EvalNode(n, stack), Flat(p, b + 1, e, stack)) by {
            assert !a.t.Partial? ==> FlatAction(p, b, e, stack) == FlatTag(p, b, e, stack, a.t.Tag?);
          }
          EvalTwo(s, n, tail, stack);
          FollowText(s, Then(EvalNode(n, stack), Eval(tail, stack)), rest);
          FollowThen(EvalNode(n, stack), Eval(tail, stack), rest);
        }
      }
    }
  }

  lemma {:induction false} BlockRuns(p: Program, b: nat, m: nat, e: nat, stack: seq<Value>)
    requires Nested(p.body, p.actions, b, m) && b < m <= e && IsBlock(p.actions[b].t)
    ensures Flat(p, b, e, stack) == Follow(Eval(Nodes(p, b, m), stack), Flat(p, m, e, stack))
    decreases m - b - 1, 3
  {
    var a, s := p.actions[b], FragmentText(p, b);
    var n := Section(NameAt(p, b), a.t.ElseBlock?, TreeOf(p, b + 1, a.pos));
    var tail, rest := Nodes(p, a.pos + 1, m), Flat(p, m, e, stack);
    FlatRuns(p, a.pos + 1, m, e, stack);
    EvalTwo(s, n, tail, stack);
    FollowText(s, Then(EvalNode(n, stack), Eval(tail, stack)), rest);
    FollowThen(EvalNode(n, stack), Eval(tail, stack), rest);
    SectionRuns(p, b, m, e, stack);
  }

  /** A section, and on from its closing tag. */
  lemma {:induction false} SectionRuns(p: Program, b: nat, m: nat, e: nat, stack: seq<Value>)
    requires Nested(p.body, p.actions, b, m) && b < m <= e && IsBlock(p.actions[b].t)
    ensures var a := p.actions[b];
      FlatAction(p, b, e, stack)
      == Follow(EvalNode(Section(NameAt(p, b), a.t.ElseBlock?, TreeOf(p, b + 1, a.pos)), stack), Flat(p, a.pos + 1, e, stack))
    decreases m - b - 1, 2
  {
    var a := p.actions[b];
    var body, after := TreeOf(p, b + 1, a.pos), Flat(p, a.pos + 1, e, stack);
    var v := Lookup(NameAt(p, b), stack);
    var frames := Frames(v, a.t.ElseBlock?);
    assert Jump(p, b, e, stack) == after;
    if a.t.OpenBlock? && v.Some? && v.value.List? {
      EachRuns(p, b + 1, a.pos, stack, frames);
      var o := EvalEach(body, stack, frames);
      if o.Done? { assert o.text + "" == o.text; }
    } else if frames == [] {
      if after.Ended? { assert "" + after.text == after.text; }
    } else {
      assert frames == [frames[0]];
      PushRuns(p, b, m, e, stack, frames[0]);
      OneFrame(body, stack, frames[0]);
    }
  }

  /** The body with one frame pushed, to past the closing tag, which pops it. */
  lemma {:induction false} PushRuns(p: Program, b: nat, m: nat, e: nat, stack: seq<Value>, v: Value)
    requires Nested(p.body, p.actions, b, m) && b < m <= e && IsBlock(p.actions[b].t)
    ensures var pos := p.actions[b].pos;
      Flat(p, b + 1, e, stack + [v]) == Follow(Eval(TreeOf(p, b + 1, pos), stack + [v]), Flat(p, pos + 1, e, stack))
    decreases m - b - 1, 1
  {
    var pos, frame := p.actions[b].pos, stack + [v];
    FlatRuns(p, b + 1, pos, e, frame);
    assert frame[..|stack|] == stack;
    var s, rest := FragmentText(p, pos), Flat(p, pos + 1, e, stack);
    assert Flat(p, pos, e, frame) == Before(s, rest);
    EvalLast(Nodes(p, b + 1, pos), s, frame);
    FollowThen(Eval(Nodes(p, b + 1, pos), frame), Done(s), rest);
  }

  lemma {:induction false} EachRuns(p: Program, b: nat, e: nat, stack: seq<Value>, frames: seq<Value>)
    requires Nested(p.body, p.actions, b, e)
    ensures FlatEach(p, b, e, stack, frames) == Follow(EvalEach(TreeOf(p, b, e), stack, frames), Ended("", stack))
    decreases e - b, 1, |frames|
  {
    if frames != [] {
      var front, v := frames[..|frames| - 1], frames[|frames| - 1];
      EachRuns(p, b, e, stack, front);
      var frame := stack + [v];
      FlatRuns(p, b, e, e, frame);
      assert frame[..|stack|] == stack;
      EvalLast(Nodes(p, b, e), FragmentText(p, e), frame);
      var o, o1 := EvalEach(TreeOf(p, b, e), stack, front), Eval(TreeOf(p, b, e), frame);
      FollowThen(o, o1, Ended("", stack));
      if o.Done? && o1.Done? {
        assert o.text + "" == o.text && o1.text + "" == o1.text && o.text + o1.text + "" == o.text + o1.text;
      }
    } else {
      assert "" + "" == "";
    }
  }
}
