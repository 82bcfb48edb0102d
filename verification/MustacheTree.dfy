/** Templates as trees of nested sections and what they render to. */
module MustacheTree {
  import opened Wrappers

  /** A context value, without functions; a number is the text it is dumped as. */
  datatype Value =
    | Null
    | Bool(b: bool)
    | Number(text: string)
    | String(s: string)
    | List(elements: seq<Value>)
    | Object(members: map<string, Value>)

  datatype Node =
    | Text(text: string)
    | Variable(name: string, escaped: bool)
    | Section(name: string, inverted: bool, body: seq<Node>)
    | Include(name: string)

  /** What rendering ends with: the text, the exception for a tag whose value is no
      scalar, or a partial, which another template would have to be loaded for. */
  datatype Output = Done(text: string) | Thrown | Loads

  function Then(a: Output, b: Output): Output {
    if !a.Done? then a else if !b.Done? then b else Done(a.text + b.text)
  }

  lemma ThenDone(a: Output, s: string, t: string)
    ensures Then(Done(s), Then(Done(t), a)) == Then(Done(s + t), a)
    ensures Then(a, Done("")) == a == Then(Done(""), a)
  {
    if a.Done? { assert s + (t + a.text) == s + t + a.text; }
  }

  lemma ThenThen(a: Output, b: Output, c: Output)
    ensures Then(Then(a, b), c) == Then(a, Then(b, c))
  {
    if a.Done? && b.Done? && c.Done? { assert a.text + b.text + c.text == a.text + (b.text + c.text); }
  }

  /** `find_context` for a name without a dot inside: the innermost object that has it. */
  function Lookup(name: string, stack: seq<Value>): Option<Value> {
    if stack == [] then None
    else if name == "." then Some(stack[|stack| - 1])
    else
      var top := stack[|stack| - 1];
      if top.Object? && name in top.members then Some(top.members[name])
      else Lookup(name, stack[..|stack| - 1])
  }

  function EscapeChar(c: char): string {
    match c
    case '&' => "&amp;"
    case '<' => "&lt;"
    case '>' => "&gt;"
    case '"' => "&quot;"
    case '\'' => "&#39;"
    case '/' => "&#x2F;"
    case '`' => "&#x60;"
    case '=' => "&#x3D;"
    case _ => [c]
  }

  function Escape(s: string): string {
    if s == "" then "" else Escape(s[..|s| - 1]) + EscapeChar(s[|s| - 1])
  }

  /** The text of a variable tag; a name that is not found is the empty string. */
  function Show(v: Option<Value>, escaped: bool): Output {
    match v
    case None => Done("")
    case Some(Bool(b)) => Done(if b then "true" else "false")
    case Some(Number(t)) => Done(t)
    case Some(String(s)) => Done(if escaped then Escape(s) else s)
    case Some(_) => Thrown
  }

  /** The contexts a section's body is rendered in, one after the other. */
  function Frames(v: Option<Value>, inverted: bool): seq<Value> {
    if inverted then
      match v
      case None => [Null]
      case Some(List(xs)) => if xs == [] then [Null] else []
      case Some(Bool(b)) => if b then [] else [Null]
      case Some(Null) => [Null]
      case Some(_) => []
    else
      match v
      case None => []
      case Some(List(xs)) => xs
      case Some(Bool(b)) => if b then [v.value] else []
      case Some(Null) => []
      case Some(x) => [x]
  }

  function Eval(nodes: seq<Node>, stack: seq<Value>): Output
    decreases nodes, 0, 0
  {
    if nodes == [] then Done("") else Then(EvalNode(nodes[0], stack), Eval(nodes[1..], stack))
  }

  function EvalNode(node: Node, stack: seq<Value>): Output
    decreases node, 0, 0
  {
    match node
    case Text(t) => Done(t)
    case Variable(name, escaped) => Show(Lookup(name, stack), escaped)
    case Include(_) => Loads
    case Section(name, inverted, body) => EvalEach(body, stack, Frames(Lookup(name, stack), inverted))
  }

  function EvalEach(body: seq<Node>, stack: seq<Value>, frames: seq<Value>): Output
    decreases body, 1, |frames|
  {
    if frames == [] then Done("")
    else Then(EvalEach(body, stack, frames[..|frames| - 1]), Eval(body, stack + [frames[|frames| - 1]]))
  }

  lemma {:induction false} EvalConcat(a: seq<Node>, b: seq<Node>, stack: seq<Value>)
    ensures Eval(a + b, stack) == Then(Eval(a, stack), Eval(b, stack))
    decreases |a|
  {
    if a == [] {
      assert a + b == b;
      ThenDone(Eval(b, stack), "", "");
    } else {
      assert (a + b)[1..] == a[1..] + b;
      EvalConcat(a[1..], b, stack);
      ThenThen(EvalNode(a[0], stack), Eval(a[1..], stack), Eval(b, stack));
    }
  }

  lemma OneFrame(body: seq<Node>, stack: seq<Value>, v: Value)
    ensures EvalEach(body, stack, [v]) == Eval(body, stack + [v])
  {
    assert [v][..0] == [];
    ThenDone(Eval(body, stack + [v]), "", "");
  }

  lemma EscapedChar(c: char)
    ensures (EscapeChar(c) == [c] && c !in "&<>\"'/`=") || EscapeChar(c) in ENTITIES
  {
  }

  lemma EntityChars(e: string)
    requires e in ENTITIES
    ensures forall c :: c in e ==> c !in "<>\"'/`="
    ensures e != "" && forall k :: 0 < k < |e| ==> e[k] != '&'
  {
  }

  /** Escaped text holds none of the characters that are special in a page, but for the
      ampersands that begin its entities. */
  lemma EscapeIsSafe(s: string)
    ensures forall c :: c in Escape(s) ==> c !in "<>\"'/`="
    ensures forall i :: 0 <= i < |Escape(s)| && Escape(s)[i] == '&' ==> BeginsEntity(Escape(s), i)
  {
    hide Escape, BeginsEntity;
    EscapeHasNoMarkup(s);
    EscapeHasEntities(s);
  }

  lemma {:induction false} EscapeHasNoMarkup(s: string)
    ensures forall c :: c in Escape(s) ==> c !in "<>\"'/`="
  {
    hide EscapeChar;
    if s != "" {
      EscapeHasNoMarkup(s[..|s| - 1]);
      var last := EscapeChar(s[|s| - 1]);
      EscapedChar(s[|s| - 1]);
      if last in ENTITIES { EntityChars(last); }
    }
  }

  lemma {:induction false} EscapeHasEntities(s: string)
    ensures forall i :: 0 <= i < |Escape(s)| && Escape(s)[i] == '&' ==> BeginsEntity(Escape(s), i)
  {
    hide EscapeChar, BeginsEntity;
    if s != "" {
      var front, last := Escape(s[..|s| - 1]), EscapeChar(s[|s| - 1]);
      EscapeHasEntities(s[..|s| - 1]);
      EscapedChar(s[|s| - 1]);
      if last in ENTITIES { EntityChars(last); }
      forall i | 0 <= i < |front + last| && (front + last)[i] == '&' ensures BeginsEntity(front + last, i) {
        if i < |front| { EntityKept(front, last, i); } else { EntityAdded(front, last); }
      }
    }
  }

  lemma EntityAdded(s: string, e: string)
    requires e in ENTITIES
    ensures BeginsEntity(s + e, |s|)
  {
    assert (s + e)[|s|..|s| + |e|] == e;
  }

  lemma EntityKept(s: string, t: string, i: nat)
    requires BeginsEntity(s, i)
    ensures BeginsEntity(s + t, i)
  {
    var e :| e in ENTITIES && i + |e| <= |s| && s[i..i + |e|] == e;
    assert (s + t)[i..i + |e|] == e;
  }

  const ENTITIES: seq<string> := ["&amp;", "&lt;", "&gt;", "&quot;", "&#39;", "&#x2F;", "&#x60;", "&#x3D;"]

  predicate BeginsEntity(s: string, i: nat) { exists e :: e in ENTITIES && i + |e| <= |s| && s[i..i + |e|] == e }

  // ----- the null context of inverted sections --------------------------------------------

  /** No tag of these nodes asks for the innermost context itself. */
  predicate NoDot(nodes: seq<Node>) {
    forall i :: 0 <= i < |nodes| ==> !(nodes[i].Variable? || nodes[i].Section?) || nodes[i].name != "."
  }

  lemma {:induction false} NullIsNoObject(name: string, x: seq<Value>, y: seq<Value>)
    requires name != "." || y != []
    ensures Lookup(name, x + [Null] + y) == Lookup(name, x + y)
    decreases |y|
  {
    var with, without := x + [Null] + y, x + y;
    if y == [] {
      assert with[..|x|] == x && without == x;
    } else {
      assert with[..|with| - 1] == x + [Null] + y[..|y| - 1] && without[..|without| - 1] == x + y[..|y| - 1];
      if name != "." { NullIsNoObject(name, x, y[..|y| - 1]); }
    }
  }

  lemma {:induction false} NullIsIgnored(nodes: seq<Node>, x: seq<Value>, y: seq<Value>)
    requires NoDot(nodes) || y != []
    ensures Eval(nodes, x + [Null] + y) == Eval(nodes, x + y)
    decreases nodes, 1, 0
  {
    if nodes != [] {
      var n := nodes[0];
      NullIsIgnored(nodes[1..], x, y);
      match n
      case Text(_) =>
      case Include(_) =>
      case Variable(name, _) => NullIsNoObject(name, x, y);
      case Section(name, inverted, body) =>
        NullIsNoObject(name, x, y);
        NullIsIgnoredEach(body, x, y, Frames(Lookup(name, x + y), inverted));
    }
  }

  lemma {:induction false} NullIsIgnoredEach(body: seq<Node>, x: seq<Value>, y: seq<Value>, frames: seq<Value>)
    ensures EvalEach(body, x + [Null] + y, frames) == EvalEach(body, x + y, frames)
    decreases body, 2, |frames|
  {
    if frames != [] {
      var last := [frames[|frames| - 1]];
      NullIsIgnoredEach(body, x, y, frames[..|frames| - 1]);
      NullIsIgnored(body, x, y + last);
      assert x + [Null] + y + last == x + [Null] + (y + last) && x + y + last == x + (y + last);
    }
  }

  /** An inverted section that is rendered sees the contexts around it, as if no context
      had been pushed for it. */
  lemma InvertedSeesOutside(name: string, body: seq<Node>, stack: seq<Value>)
    requires NoDot(body)
    ensures EvalNode(Section(name, true, body), stack)
      == if Frames(Lookup(name, stack), true) == [] then Done("") else Eval(body, stack)
  {
    if Frames(Lookup(name, stack), true) != [] {
      NullIsIgnored(body, stack, []);
      assert stack + [Null] + [] == stack + [Null] && stack + [] == stack;
      assert Frames(Lookup(name, stack), true) == [Null];
      OneFrame(body, stack, Null);
    }
  }

  /** But a tag for the context itself meets the null context, and the rendering fails. */
  lemma InvertedHidesTheDot(name: string, stack: seq<Value>, escaped: bool)
    requires Frames(Lookup(name, stack), true) != []
    ensures EvalNode(Section(name, true, [Variable(".", escaped)]), stack) == Thrown
  {
    var body := [Variable(".", escaped)];
    assert Lookup(".", stack + [Null]) == Some(Null);
    assert Eval(body, stack + [Null]) == Then(EvalNode(body[0], stack + [Null]), Eval(body[1..], stack + [Null]));
    assert Frames(Lookup(name, stack), true) == [Null];
    OneFrame(body, stack, Null);
  }
}
