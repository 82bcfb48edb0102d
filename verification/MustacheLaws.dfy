/** What tags and sections mean on the page: which value a name finds, how often a section
    is rendered, and that escaped values show as themselves and bring no markup. */
module MustacheLaws {
  import opened Wrappers
  import opened MustacheTree

  // ----- names ----------------------------------------------------------------------------

  predicate HasMember(v: Value, name: string) { v.Object? && name in v.members }

  /** The innermost object with the member is the one at `k`. */
  predicate InnermostAt(stack: seq<Value>, name: string, v: Value, k: nat) {
    && k < |stack| && HasMember(stack[k], name) && stack[k].members[name] == v
    && forall j :: k < j < |stack| ==> !HasMember(stack[j], name)
  }

  /** A name finds the member of the innermost object that has it. */
  lemma {:induction false} LookupIsInnermost(name: string, stack: seq<Value>, v: Value)
    requires name != "."
    ensures Lookup(name, stack) == Some(v) <==> exists k: nat :: InnermostAt(stack, name, v, k)
    decreases |stack|
  {
    if stack != [] {
      var n := |stack| - 1;
      var top, below := stack[n], stack[..n];
      if HasMember(top, name) {
        assert top.members[name] == v ==> InnermostAt(stack, name, v, n);
        assert forall k: nat :: InnermostAt(stack, name, v, k) ==> k == n;
      } else {
        LookupIsInnermost(name, below, v);
        forall k: nat | InnermostAt(below, name, v, k) ensures InnermostAt(stack, name, v, k) {}
        forall k: nat | InnermostAt(stack, name, v, k) ensures InnermostAt(below, name, v, k) {
          assert below[k] == stack[k];
        }
      }
    }
  }

  /** What a tag shows: nothing for a name that is not found, the words for a flag, the
      text of a number or a string, this one escaped or as it is; no other value. */
  lemma VariablesShow(name: string, escaped: bool, stack: seq<Value>)
    ensures var node, v := EvalNode(Variable(name, escaped), stack), Lookup(name, stack);
      && (v == None ==> node == Done(""))
      && (v == Some(Bool(true)) ==> node == Done("true"))
      && (v == Some(Bool(false)) ==> node == Done("false"))
      && (forall t :: v == Some(Number(t)) ==> node == Done(t))
      && (forall s :: v == Some(String(s)) ==> node == Done(if escaped then Escape(s) else s))
      && (v.Some? && (v.value.Null? || v.value.List? || v.value.Object?) ==> node == Thrown)
  {
  }

  // ----- sections ---------------------------------------------------------------------------

  /** How often a section is rendered for a value. */
  function Times(v: Option<Value>): nat {
    match v
    case None => 0
    case Some(Null) => 0
    case Some(Bool(b)) => if b then 1 else 0
    case Some(List(xs)) => |xs|
    case Some(_) => 1
  }

  function Repeated(t: string, n: nat): string { if n == 0 then "" else Repeated(t, n - 1) + t }

  lemma TextAlone(t: string, stack: seq<Value>)
    ensures Eval([Text(t)], stack) == Done(t)
  {
    assert [Text(t)][1..] == [];
    ThenDone(Done(t), "", "");
    assert t + "" == t;
  }

  lemma {:induction false} EachRepeats(t: string, stack: seq<Value>, frames: seq<Value>)
    ensures EvalEach([Text(t)], stack, frames) == Done(Repeated(t, |frames|))
    decreases |frames|
  {
    hide Eval;
    if frames != [] {
      EachRepeats(t, stack, frames[..|frames| - 1]);
      TextAlone(t, stack + [frames[|frames| - 1]]);
    }
  }

  /** The text of a section is repeated as often as its value says: once for true and for
      a scalar or an object, once for each element of a list, never for false, for null
      and for a name that is not found. The inverted section is rendered just when the
      section is not. */
  lemma SectionsRepeat(name: string, t: string, stack: seq<Value>)
    ensures var n := Times(Lookup(name, stack));
      && EvalNode(Section(name, false, [Text(t)]), stack) == Done(Repeated(t, n))
      && EvalNode(Section(name, true, [Text(t)]), stack) == Done(if n == 0 then t else "")
  {
    hide Lookup, EvalEach;
    var v := Lookup(name, stack);
    EachRepeats(t, stack, Frames(v, false));
    EachRepeats(t, stack, Frames(v, true));
    assert Repeated(t, 1) == "" + t == t && Repeated(t, 0) == "";
  }

  function Joined(texts: seq<string>): string {
    if texts == [] then "" else Joined(texts[..|texts| - 1]) + texts[|texts| - 1]
  }

  function Strings(texts: seq<string>): seq<Value> { seq(|texts|, i requires 0 <= i < |texts| => String(texts[i])) }

  lemma DotAlone(v: Value, stack: seq<Value>)
    requires v.String?
    ensures Eval([Variable(".", false)], stack + [v]) == Done(v.s)
  {
    var node := Variable(".", false);
    assert [node][1..] == [];
    assert Lookup(".", stack + [v]) == Some(v);
    ThenDone(Done(v.s), "", "");
    assert v.s + "" == v.s;
  }

  lemma {:induction false} EachShows(texts: seq<string>, stack: seq<Value>)
    ensures EvalEach([Variable(".", false)], stack, Strings(texts)) == Done(Joined(texts))
    decreases |texts|
  {
    hide Eval;
    var frames := Strings(texts);
    if texts != [] {
      var front := texts[..|texts| - 1];
      assert frames[..|frames| - 1] == Strings(front);
      EachShows(front, stack);
      DotAlone(frames[|frames| - 1], stack);
    }
  }

  /** In a section over a list the dot is each of its elements in turn. */
  lemma SectionsShowEach(name: string, texts: seq<string>, stack: seq<Value>)
    requires Lookup(name, stack) == Some(List(Strings(texts)))
    ensures EvalNode(Section(name, false, [Variable(".", false)]), stack) == Done(Joined(texts))
  {
    hide Lookup;
    EachShows(texts, stack);
  }

  // ----- escaped values -------------------------------------------------------------------------

  predicate IsMarkup(c: char) { c in "<>\"'/`=" }

  predicate NoMarkup(t: string) { forall i :: 0 <= i < |t| ==> !IsMarkup(t[i]) }

  /** Numbers are dumped without markup. */
  predicate PlainNumbers(v: Value)
    decreases v
  {
    match v
    case Number(t) => NoMarkup(t)
    case List(xs) => forall i :: 0 <= i < |xs| ==> PlainNumbers(xs[i])
    case Object(ms) => forall k :: k in ms ==> PlainNumbers(ms[k])
    case _ => true
  }

  predicate AllPlain(stack: seq<Value>) { forall i :: 0 <= i < |stack| ==> PlainNumbers(stack[i]) }

  /** Only escaped variables, and texts without markup. */
  predicate OnlyEscaped(nodes: seq<Node>)
    decreases nodes
  {
    forall i :: 0 <= i < |nodes| ==>
      match nodes[i]
      case Text(t) => NoMarkup(t)
      case Variable(_, escaped) => escaped
      case Section(_, _, body) => OnlyEscaped(body)
      case Include(_) => true
  }

  lemma {:induction false} LookupPlain(name: string, stack: seq<Value>)
    requires AllPlain(stack)
    ensures Lookup(name, stack).Some? ==> PlainNumbers(Lookup(name, stack).value)
    decreases |stack|
  {
    if stack != [] {
      assert PlainNumbers(stack[|stack| - 1]);
      LookupPlain(name, stack[..|stack| - 1]);
    }
  }

  lemma FramesPlain(v: Option<Value>, inverted: bool)
    requires v.Some? ==> PlainNumbers(v.value)
    ensures AllPlain(Frames(v, inverted))
  {
  }

  lemma ShowPlain(v: Option<Value>)
    requires v.Some? ==> PlainNumbers(v.value)
    ensures Show(v, true).Done? ==> NoMarkup(Show(v, true).text)
  {
    hide Escape;
    if v.Some? && v.value.String? { EscapePlain(v.value.s); }
  }

  lemma EscapePlain(s: string)
    ensures NoMarkup(Escape(s))
  {
    hide Escape;
    EscapeHasNoMarkup(s);
  }

  lemma JoinPlain(x: string, y: string)
    requires NoMarkup(x) && NoMarkup(y)
    ensures NoMarkup(x + y)
  {
  }

  /** Where all values are escaped, the page has no markup but that of the texts: none, if
      they have none. */
  lemma {:induction false} EscapedIsSafe(nodes: seq<Node>, stack: seq<Value>)
    requires OnlyEscaped(nodes) && AllPlain(stack)
    ensures Eval(nodes, stack).Done? ==> NoMarkup(Eval(nodes, stack).text)
    decreases nodes, 1, 0
  {
    hide NoMarkup, Show, Lookup, Frames, AllPlain;
    if nodes == [] {
      NothingPlain();
    } else {
      EscapedFront(nodes);
      EscapedNode(nodes[0], stack);
      EscapedIsSafe(nodes[1..], stack);
      var a, b := EvalNode(nodes[0], stack), Eval(nodes[1..], stack);
      if a.Done? && b.Done? { JoinPlain(a.text, b.text); }
    }
  }

  lemma NothingPlain()
    ensures NoMarkup("")
  {
  }

  predicate NodeEscaped(n: Node) {
    match n
    case Text(t) => NoMarkup(t)
    case Variable(_, escaped) => escaped
    case Section(_, _, body) => OnlyEscaped(body)
    case Include(_) => true
  }

  lemma EscapedFront(nodes: seq<Node>)
    requires OnlyEscaped(nodes) && nodes != []
    ensures NodeEscaped(nodes[0]) && OnlyEscaped(nodes[1..])
  {
  }

  lemma {:induction false} EscapedNode(n: Node, stack: seq<Value>)
    requires NodeEscaped(n) && AllPlain(stack)
    ensures EvalNode(n, stack).Done? ==> NoMarkup(EvalNode(n, stack).text)
    decreases n, 0, 0
  {
    hide NoMarkup, Show, Lookup, Frames, AllPlain;
    match n
    case Text(_) =>
    case Include(_) =>
    case Variable(name, _) =>
      LookupPlain(name, stack);
      ShowPlain(Lookup(name, stack));
    case Section(name, inverted, body) =>
      LookupPlain(name, stack);
      FramesPlain(Lookup(name, stack), inverted);
      EscapedEach(body, stack, Frames(Lookup(name, stack), inverted));
  }

  lemma {:induction false} EscapedEach(body: seq<Node>, stack: seq<Value>, frames: seq<Value>)
    requires OnlyEscaped(body) && AllPlain(stack) && AllPlain(frames)
    ensures EvalEach(body, stack, frames).Done? ==> NoMarkup(EvalEach(body, stack, frames).text)
    decreases body, 2, |frames|
  {
    hide NoMarkup, Eval;
    if frames == [] {
      NothingPlain();
    } else {
      var front, last := frames[..|frames| - 1], frames[|frames| - 1];
      assert frames[|frames| - 1] == last;
      EscapedEach(body, stack, front);
      EscapedIsSafe(body, stack + [last]);
      var a, b := EvalEach(body, stack, front), Eval(body, stack + [last]);
      if a.Done? && b.Done? { JoinPlain(a.text, b.text); }
    }
  }

  // ----- entities ------------------------------------------------------------------------------------

  /** A character reference of HTML at the start of a text: the character's code, and the
      length of the reference. */
  function Reference(s: string): Option<(nat, nat)> {
    if "&amp;" <= s then Some((38, 5))
    else if "&lt;" <= s then Some((60, 4))
    else if "&gt;" <= s then Some((62, 4))
    else if "&quot;" <= s then Some((34, 6))
    else if "&#x" <= s && |s| >= 6 && s[5] == ';' && HexOf(s[3]).Some? && HexOf(s[4]).Some? then
      Some((16 * HexOf(s[3]).value + HexOf(s[4]).value, 6))
    else if "&#" <= s && |s| >= 5 && s[4] == ';' && '0' <= s[2] <= '9' && '0' <= s[3] <= '9' then
      Some((10 * (s[2] as int - 48) + (s[3] as int - 48), 5))
    else None
  }

  function HexOf(c: char): Option<nat> {
    if '0' <= c <= '9' then Some(c as int - 48)
    else if 'A' <= c <= 'F' then Some(c as int - 55)
    else if 'a' <= c <= 'f' then Some(c as int - 87)
    else None
  }

  /** What a page shows for a text: each reference is its character. */
  function Displayed(s: string): string
    decreases |s|
  {
    if s == "" then ""
    else
      match Reference(s)
      case None => [s[0]] + Displayed(s[1..])
      case Some((code, n)) =>
        if 0 < n <= |s| && code < 256 then [code as char] + Displayed(s[n..]) else [s[0]] + Displayed(s[1..])
  }

  lemma CharDisplays(c: char, rest: string)
    ensures Displayed(EscapeChar(c) + rest) == [c] + Displayed(rest)
  {
    var e := EscapeChar(c);
    var s := e + rest;
    assert s[|e|..] == rest;
    if |e| == 1 { NoReference(s); } else { EntityReads(c, rest); }
    hide EscapeChar, Reference;
  }

  lemma NoReference(s: string)
    requires s != "" && s[0] != '&'
    ensures Reference(s) == None
  {
  }

  lemma EntityReads(c: char, rest: string)
    requires |EscapeChar(c)| > 1
    ensures Reference(EscapeChar(c) + rest) == Some((c as int, |EscapeChar(c)|)) && c as int < 256
  {
    var e := EscapeChar(c);
    var s := e + rest;
    assert e <= s && forall k :: 0 <= k < |e| ==> s[k] == e[k];
    if c == '\'' || c == '/' || c == '`' || c == '=' {
      assert s[1] == '#';
      assert !("&amp;" <= s) && !("&lt;" <= s) && !("&gt;" <= s) && !("&quot;" <= s);
      if c == '\'' {
        assert s[2] == '3' && s[3] == '9' && s[4] == ';' && "&#" <= s && !("&#x" <= s);
      } else {
        assert s[2] == 'x' && s[5] == ';' && "&#x" <= s;
      }
    } else {
      assert s[1] == 'a' || s[1] == 'l' || s[1] == 'g' || s[1] == 'q';
    }
  }

  /** An escaped text shows on a page as the text itself. */
  lemma {:induction false} EscapedDisplays(s: string, rest: string)
    ensures Displayed(Escape(s) + rest) == s + Displayed(rest)
    decreases |s|
  {
    hide EscapeChar, Displayed;
    if s == "" {
      assert "" + rest == rest && "" + Displayed(rest) == Displayed(rest);
    } else {
      var front, last := s[..|s| - 1], s[|s| - 1];
      assert Escape(s) + rest == Escape(front) + (EscapeChar(last) + rest);
      EscapedDisplays(front, EscapeChar(last) + rest);
      CharDisplays(last, rest);
      assert front + ([last] + Displayed(rest)) == s + Displayed(rest);
    }
  }

  lemma EscapeShowsItself(s: string)
    ensures Displayed(Escape(s)) == s
  {
    hide Escape;
    EscapedDisplays(s, "");
    assert Escape(s) + "" == Escape(s) && s + "" == s;
  }
}
