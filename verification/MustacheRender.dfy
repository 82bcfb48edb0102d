/** `render_internal`: the loop over the flat program with its context stack, proved
    to render the tree. */
module MustacheRender {
  import opened Wrappers
  import opened MustacheTree
  import opened MustacheProgram

  /** How rendering returns: normally, by the exception, or at a partial. */
  datatype Status = Finished | Threw | AtPartial

  lemma {:induction false} EachPrefix(p: Program, b: nat, e: nat, stack: seq<Value>, frames: seq<Value>, k: nat)
    requires k <= |frames|
    ensures var all, some := FlatEach(p, b, e, stack, frames), FlatEach(p, b, e, stack, frames[..k]);
      if some.Ended? then true else all == some
    decreases |frames|
  {
    if k < |frames| {
      assert frames[..|frames| - 1][..k] == frames[..k];
      EachPrefix(p, b, e, stack, frames[..|frames| - 1], k);
    } else {
      assert frames[..k] == frames;
    }
  }

  lemma BeforeBefore(s: string, t: string, r: End)
    ensures Before(s, Before(t, r)) == Before(s + t, r)
  {
    if r.Ended? { assert s + (t + r.text) == s + t + r.text; }
  }

  ghost predicate Matches(st: Status, r: End, out: string, stack: seq<Value>, was: string) {
    match r
    case Ended(text, stack') => st == Finished && out == was + text && stack == stack'
    case Raised => st == Threw
    case Loading => st == AtPartial
    case Stuck => false
  }

  /** The two objects that `render_internal` is given by reference. */
  class Renderer {
    var stack: seq<Value>
    var out: string

    constructor (ctx: Value)
      ensures stack == [ctx] && out == ""
    {
      stack, out := [ctx], "";
    }

    /** `escape`: appends the text with the special characters replaced. */
    method AppendEscaped(text: string)
      modifies this`out
      ensures out == old(out) + Escape(text)
    {
      hide EscapeChar;
      for i := 0 to |text|
        invariant out == old(out) + Escape(text[..i])
      {
        assert text[..i + 1][..i] == text[..i];
        out := out + EscapeChar(text[i]);
      }
      assert text[..|text|] == text;
    }

    /** The switch on the value of a tag. */
    method AppendTag(v: Option<Value>, escaped: bool) returns (ok: bool)
      modifies this`out
      ensures match Show(v, escaped)
        case Done(text) => ok && out == old(out) + text
        case Thrown => !ok && out == old(out)
        case Loads => false
    {
      ok := true;
      match v
      case None =>
      case Some(Bool(b)) => out := out + (if b then "true" else "false");
      case Some(Number(t)) => out := out + t;
      case Some(String(s)) =>
        if escaped {
          AppendEscaped(s);
        } else {
          out := out + s;
        }
      case Some(_) => ok := false;
    }

    /** The loop over the elements of a list. */
    method RenderEach(p: Program, b: nat, e: nat, elements: seq<Value>) returns (st: Status)
      requires FlatEach(p, b, e, stack, elements) != Stuck
      modifies this
      ensures Matches(st, FlatEach(p, b, e, old(stack), elements), out, stack, old(out))
      decreases e - b, 1
    {
      st := Finished;
      ghost var text := "";
      assert elements[..0] == [] && out == old(out) + "";
      for i := 0 to |elements|
        invariant st == Finished && out == old(out) + text
        invariant FlatEach(p, b, e, old(stack), elements[..i]) == Ended(text, stack)
      {
        EachPrefix(p, b, e, old(stack), elements, i + 1);
        assert elements[..i + 1][..i] == elements[..i];
        stack := stack + [elements[i]];
        st := RenderInternal(p, b, e);
        if st != Finished {
          return;
        }
        text := out[|old(out)|..];
        stack := stack[..|stack| - 1];
      }
      assert elements[..|elements|] == elements;
    }

    /** One action: `current` after the switch, before it is increased. */
    method Perform(p: Program, cur: nat, e: nat) returns (st: Status, next: nat, ghost text: string)
      requires cur < e && cur < |p.actions| && FlatAction(p, cur, e, stack) != Stuck
      modifies this
      ensures st == Finished ==>
        cur <= next < e && out == old(out) + text
        && FlatAction(p, cur, e, old(stack)) == Before(text, Flat(p, next + 1, e, stack))
      ensures st == Threw ==> FlatAction(p, cur, e, old(stack)) == Raised
      ensures st == AtPartial ==> FlatAction(p, cur, e, old(stack)) == Loading
      decreases e - cur - 1, 2
    {
      hide Flat, FlatAction, Lookup, NameAt, Show;
      var a := p.actions[cur];
      st, next, text := Finished, cur, "";
      PerformUnfolds(p, cur, e, stack);
      BeforeNothing(Flat(p, cur + 1, e, stack));
      assert out == out + "";
      match a.t
      case Ignore =>
      case Partial => st := AtPartial;
      case Tag =>
        var ok := AppendTag(Lookup(NameAt(p, cur), stack), true);
        if !ok { st := Threw; }
        text := out[|old(out)|..];
      case UnescapeTag =>
        var ok := AppendTag(Lookup(NameAt(p, cur), stack), false);
        if !ok { st := Threw; }
        text := out[|old(out)|..];
      case ElseBlock =>
        var enter := EntersElse(Lookup(NameAt(p, cur), stack));
        if enter {
          stack := stack + [Null];
          BeforeNothing(Flat(p, cur + 1, e, stack));
        } else {
          next := a.pos;
          BeforeNothing(Flat(p, next + 1, e, stack));
        }
      case OpenBlock =>
        st, next, text := Open(p, cur, e);
      case CloseBlock =>
        stack := stack[..|stack| - 1];
        BeforeNothing(Flat(p, cur + 1, e, stack));
    }

    /** Whether the switch of an inverted section pushes the null context. */
    method EntersElse(v: Option<Value>) returns (enter: bool)
      ensures Frames(v, true) == if enter then [Null] else []
    {
      if v.None? {
        return true;
      }
      match v.value
      case List(xs) => return xs == [];
      case Bool(b) => return !b;
      case Null => return true;
      case _ => return false;
    }

    /** The switch of a section. */
    method Open(p: Program, cur: nat, e: nat) returns (st: Status, next: nat, ghost text: string)
      requires cur < e && cur < |p.actions| && p.actions[cur].t.OpenBlock? && FlatAction(p, cur, e, stack) != Stuck
      modifies this
      ensures st == Finished ==>
        cur <= next < e && out == old(out) + text
        && FlatAction(p, cur, e, old(stack)) == Before(text, Flat(p, next + 1, e, stack))
      ensures st == Threw ==> FlatAction(p, cur, e, old(stack)) == Raised
      ensures st == AtPartial ==> FlatAction(p, cur, e, old(stack)) == Loading
      decreases e - cur - 1, 1
    {
      hide Flat, FlatAction, FlatEach, Lookup, NameAt;
      var a := p.actions[cur];
      var v := Lookup(NameAt(p, cur), stack);
      OpenUnfolds(p, cur, e, stack);
      st, next, text := Finished, a.pos, "";
      assert out == out + "";
      if v.None? {
        BeforeNothing(Flat(p, next + 1, e, stack));
        return;
      }
      match v.value
      case List(elements) =>
        st := RenderEach(p, cur + 1, a.pos, elements);
        if st == Finished { text := out[|old(out)|..]; }
      case Null => BeforeNothing(Flat(p, next + 1, e, stack));
      case Bool(b) =>
        if b {
          stack, next := stack + [v.value], cur;
        }
        BeforeNothing(Flat(p, next + 1, e, stack));
      case _ =>
        stack, next := stack + [v.value], cur;
        BeforeNothing(Flat(p, next + 1, e, stack));
    }

    /** `render_internal`, without indentation. */
    method RenderInternal(p: Program, b: nat, e: nat) returns (st: Status)
      requires Flat(p, b, e, stack) != Stuck
      modifies this
      ensures Matches(st, Flat(p, b, e, old(stack)), out, stack, old(out))
      decreases e - b, 0
    {
      hide Flat, FlatAction, FragmentText, Before;
      var current := b;
      ghost var text := "";
      ghost var all := Flat(p, b, e, stack);
      BeforeNothing(all);
      ghost var was := out;
      assert out == was + "";
      while current < e
        invariant out == was + text && b <= current
        invariant all == Before(text, Flat(p, current, e, stack)) && Flat(p, current, e, stack) != Stuck
        decreases e - current
      {
        FlatUnfolds(p, current, e, stack);
        ghost var fragment, r := FragmentText(p, current), FlatAction(p, current, e, stack);
        BeforeBefore(text, fragment, r);
        BeforeEnds(fragment, r);
        BeforeEnds(text + fragment, r);
        Longer(was, text, fragment);
        out := out + FragmentText(p, current);
        ghost var more;
        st, current, more := Perform(p, current, e);
        if st != Finished {
          return;
        }
        BeforeBefore(text + fragment, more, Flat(p, current + 1, e, stack));
        BeforeEnds(more, Flat(p, current + 1, e, stack));
        Longer(was, text + fragment, more);
        text := text + fragment + more;
        current := current + 1;
      }
      FlatEnds(p, current, e, stack);
      BeforeEnds(text, Flat(p, current, e, stack));
      Longer(was, text, FragmentText(p, e));
      out := out + FragmentText(p, e);
      return Finished;
    }
  }

  lemma Longer(x: string, y: string, z: string)
    ensures x + y + z == x + (y + z)
  {
  }

  /** Text before a run leaves how it ends. */
  lemma BeforeEnds(s: string, r: End)
    ensures Before(s, r) == if r.Ended? then Ended(s + r.text, r.stack) else r
  {
  }

  lemma FlatUnfolds(p: Program, cur: nat, e: nat, stack: seq<Value>)
    requires cur < e && Flat(p, cur, e, stack) != Stuck
    ensures cur < |p.actions| && Flat(p, cur, e, stack) == Before(FragmentText(p, cur), FlatAction(p, cur, e, stack))
  {
  }

  /** What the other actions do. */
  lemma PerformUnfolds(p: Program, cur: nat, e: nat, stack: seq<Value>)
    requires cur < e && cur < |p.actions| && FlatAction(p, cur, e, stack) != Stuck
    ensures var a, r, v := p.actions[cur], FlatAction(p, cur, e, stack), Lookup(NameAt(p, cur), stack);
      match a.t
      case Ignore => r == Flat(p, cur + 1, e, stack)
      case Partial => r == Loading
      case CloseBlock => stack != [] && r == Flat(p, cur + 1, e, stack[..|stack| - 1])
      case ElseBlock =>
        if Frames(v, true) == [] then cur < a.pos < e && r == Flat(p, a.pos + 1, e, stack)
        else r == Flat(p, cur + 1, e, stack + [Null])
      case OpenBlock => true
      case _ =>
        match Show(v, a.t.Tag?)
        case Done(text) => r == Before(text, Flat(p, cur + 1, e, stack))
        case _ => r == Raised
  {
  }

  /** What a section does, by the value of its name. */
  lemma OpenUnfolds(p: Program, cur: nat, e: nat, stack: seq<Value>)
    requires cur < e && cur < |p.actions| && p.actions[cur].t.OpenBlock? && FlatAction(p, cur, e, stack) != Stuck
    ensures var v, pos, r := Lookup(NameAt(p, cur), stack), p.actions[cur].pos, FlatAction(p, cur, e, stack);
      if v.Some? && v.value.List? then
        cur < pos < e
        && match FlatEach(p, cur + 1, pos, stack, v.value.elements)
           case Ended(text, stack') => r == Before(text, Flat(p, pos + 1, e, stack'))
           case q => r == q
      else if Frames(v, false) == [] then cur < pos < e && r == Flat(p, pos + 1, e, stack)
      else r == Flat(p, cur + 1, e, stack + Frames(v, false))
  {
  }

  lemma FlatEnds(p: Program, cur: nat, e: nat, stack: seq<Value>)
    requires cur >= e
    ensures Flat(p, cur, e, stack) == Ended(FragmentText(p, e), stack)
  {
  }

  lemma BeforeNothing(r: End)
    ensures Before("", r) == r
  {
    if r.Ended? { assert "" + r.text == r.text; }
  }

  /** A nested program runs as its tree is rendered, and leaves the stack as it was. */
  lemma FlatIsTree(p: Program, b: nat, e: nat, stack: seq<Value>)
    requires Nested(p.body, p.actions, b, e)
    ensures Flat(p, b, e, stack) == Follow(Eval(TreeOf(p, b, e), stack), Ended("", stack))
  {
    FlatRuns(p, b, e, e, stack);
    var o, s := Eval(Nodes(p, b, e), stack), FragmentText(p, e);
    EvalLast(Nodes(p, b, e), s, stack);
    FollowThen(o, Done(s), Ended("", stack));
    assert s + "" == s;
  }

  /** `render`: the output is that of the tree of sections, rendered recursively. */
  method Render(p: Program, ctx: Value) returns (st: Status, out: string)
    requires p.actions != [] && Nested(p.body, p.actions, 0, |p.actions| - 1)
    ensures match Eval(TreeOf(p, 0, |p.actions| - 1), [ctx])
      case Done(text) => st == Finished && out == text
      case Thrown => st == Threw
      case Loads => st == AtPartial
  {
    var r := new Renderer(ctx);
    FlatIsTree(p, 0, |p.actions| - 1, [ctx]);
    st := r.RenderInternal(p, 0, |p.actions| - 1);
    out := r.out;
    ghost var o := Eval(TreeOf(p, 0, |p.actions| - 1), [ctx]);
    if o.Done? { assert o.text + "" == o.text && "" + o.text == o.text; }
  }
}
