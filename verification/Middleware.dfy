/** Global and local middlewares around a handler: which ones are called, in what order,
    and that every one that began a request also ends it. */
module Middleware {
  import opened Wrappers

  // ----- packed indices ----------------------------------------------------------------

  predicate Increasing(s: seq<nat>) { forall i, j :: 0 <= i < j < |s| ==> s[i] < s[j] }

  /** `i` put in its place, unless it is there. */
  function Insert(s: seq<nat>, i: nat): seq<nat> {
    if s == [] then [i]
    else
      var last := s[|s| - 1];
      if i > last then s + [i] else if i == last then s else Insert(s[..|s| - 1], i) + [last]
  }

  lemma {:induction false} Inserted(s: seq<nat>, i: nat)
    requires Increasing(s)
    ensures Increasing(Insert(s, i)) && forall x :: x in Insert(s, i) <==> x in s || x == i
  {
    if s != [] {
      var front, last := s[..|s| - 1], s[|s| - 1];
      assert s == front + [last];
      if i < last {
        Inserted(front, i);
        var r := Insert(front, i);
        forall x | x in r ensures x < last { assert x in front ==> x in s; }
        forall k | 0 <= k < |r| ensures r[k] < last { assert r[k] in r; }
      }
    }
  }

  /** `middleware_indices::pack`: sorted, and without duplicates. */
  function Packed(s: seq<nat>): seq<nat> {
    if s == [] then [] else Insert(Packed(s[..|s| - 1]), s[|s| - 1])
  }

  lemma {:induction false} PackedIsTheSet(s: seq<nat>)
    ensures Increasing(Packed(s)) && forall x :: x in Packed(s) <==> x in s
  {
    if s != [] {
      assert s == s[..|s| - 1] + [s[|s| - 1]];
      PackedIsTheSet(s[..|s| - 1]);
      Inserted(Packed(s[..|s| - 1]), s[|s| - 1]);
    }
  }

  // ----- which middlewares are called -----------------------------------------------------

  /** The call criteria: the global middlewares, or those of packed indices, read
      forwards or backwards. */
  datatype Kind = OnlyGlobal(isGlobal: seq<bool>) | Forward(indices: seq<nat>) | Backward(indices: seq<nat>)

  predicate Wants(kind: Kind, i: nat) {
    match kind
    case OnlyGlobal(isGlobal) => i < |isGlobal| && isGlobal[i]
    case Forward(indices) => i in indices
    case Backward(indices) => i in indices
  }

  /** The middlewares wanted, from `i` to before `n`. */
  function Wanted(kind: Kind, i: nat, n: nat): seq<nat>
    decreases n - i
  {
    if i >= n then [] else if Wants(kind, i) then [i] + Wanted(kind, i + 1, n) else Wanted(kind, i + 1, n)
  }

  /** A call criterion with its sliding index. */
  class Criteria {
    const kind: Kind
    var slider: int

    constructor (kind: Kind, ghost n: nat)
      requires !kind.OnlyGlobal? ==> Increasing(kind.indices) && forall x :: x in kind.indices ==> x < n
      ensures this.kind == kind && Ready(if kind.Backward? then n - 1 else 0)
    {
      if !kind.OnlyGlobal? { assert forall k :: 0 <= k < |kind.indices| ==> kind.indices[k] in kind.indices; }
      this.kind := kind;
      slider := if kind.Backward? then |kind.indices| - 1 else 0;
    }

    /** The indices passed already are on one side of `i`, the others on the other. */
    ghost predicate Ready(i: int)
      reads this
    {
      match kind
      case OnlyGlobal(_) => true
      case Forward(indices) =>
        && Increasing(indices) && 0 <= slider <= |indices|
        && (forall k :: 0 <= k < slider ==> indices[k] < i) && (forall k :: slider <= k < |indices| ==> indices[k] >= i)
      case Backward(indices) =>
        && Increasing(indices) && -1 <= slider < |indices|
        && (forall k :: 0 <= k <= slider ==> indices[k] <= i) && (forall k :: slider < k < |indices| ==> indices[k] > i)
    }

    /** `enabled`: on a traversal in order, the comparison with the one index at the
        slider is membership. */
    method Enabled(i: nat) returns (r: bool)
      requires Ready(i)
      modifies this
      ensures r <==> Wants(kind, i)
      ensures Ready(if kind.Backward? then i - 1 else i + 1)
    {
      match kind
      case OnlyGlobal(isGlobal) => r := i < |isGlobal| && isGlobal[i];
      case Forward(indices) =>
        r := slider < |indices| && indices[slider] == i;
        if r { slider := slider + 1; }
      case Backward(indices) =>
        r := slider >= 0 && indices[slider] == i;
        if r { slider := slider - 1; }
    }
  }

  // ----- the trace of a request ---------------------------------------------------------------

  datatype Event = Before(i: nat) | After(i: nat) | Handler | Sent

  function Befores(w: seq<nat>): seq<Event> {
    if w == [] then [] else [Before(w[0])] + Befores(w[1..])
  }

  /** The same middlewares in reverse order. */
  function Afters(w: seq<nat>): seq<Event> {
    if w == [] then [] else Afters(w[1..]) + [After(w[0])]
  }

  /** The middlewares up to the first whose before handler ends the response. */
  function UpToEnd(w: seq<nat>, ends: seq<bool>): seq<nat> {
    if w == [] then [] else if w[0] < |ends| && ends[w[0]] then [w[0]] else [w[0]] + UpToEnd(w[1..], ends)
  }

  predicate Completes(w: seq<nat>, ends: seq<bool>) { exists k :: 0 <= k < |w| && w[k] < |ends| && ends[w[k]] }

  /** What a pass over the before handlers adds to the trace. */
  function Pass(w: seq<nat>, ends: seq<bool>): seq<Event> {
    if Completes(w, ends) then Befores(UpToEnd(w, ends)) + Afters(UpToEnd(w, ends)) else Befores(w)
  }

  /** The trace of a whole request: `g` are the global middlewares, `l` the local ones. */
  function Trace(g: seq<nat>, l: seq<nat>, ends: seq<bool>): seq<Event> {
    if Completes(g, ends) then Pass(g, ends) + [Sent]
    else if Completes(l, ends) then Befores(g) + Pass(l, ends) + Afters(g) + [Sent]
    else Befores(g) + Befores(l) + [Handler] + Afters(l) + Afters(g) + [Sent]
  }

  /** The middlewares called in turn: the global ones in the order of their registration,
      and then the registered local ones. */
  ghost predicate InTurn(w: seq<nat>, isGlobal: seq<bool>, indices: seq<nat>) {
    exists g, l :: (w == g + l && Increasing(g) && Increasing(l)
      && (forall i: nat :: i in g <==> i < |isGlobal| && isGlobal[i]) && (forall i: nat :: i in l <==> i in indices))
  }

  predicate IsEarly(e: Event) { e.Before? || e.Handler? }

  /** The trace begins with these before handlers, and no other runs. */
  ghost predicate Begins(trace: seq<Event>, w: seq<nat>) {
    && |w| < |trace|
    && (forall k :: 0 <= k < |w| ==> trace[k] == Before(w[k]))
    && (forall k :: |w| < k < |trace| ==> !IsEarly(trace[k]))
  }

  /** What a request is to cause, in terms of what was registered: if no before handler
      ends the response, all run in turn and then the handler; otherwise they run up to
      the first that ends it, and the handler does not. The response is sent last. */
  ghost predicate Runs(trace: seq<Event>, isGlobal: seq<bool>, indices: seq<nat>, ends: seq<bool>) {
    exists w, k :: InTurn(w, isGlobal, indices) && RunsTo(trace, w, k, ends)
  }

  ghost predicate RunsTo(trace: seq<Event>, w: seq<nat>, k: nat, ends: seq<bool>) {
    && trace != [] && trace[|trace| - 1] == Sent
    && k <= |w| && (forall j :: 0 <= j < k ==> !EndsAt(w, ends, j))
    && if k == |w| then Begins(trace, w) && trace[k] == Handler
       else EndsAt(w, ends, k) && Begins(trace, w[..k + 1]) && !IsEarly(trace[k + 1])
  }

  predicate EndsAt(w: seq<nat>, ends: seq<bool>, k: nat)
    requires k < |w|
  {
    w[k] < |ends| && ends[w[k]]
  }

  // ----- the connection ---------------------------------------------------------------------------

  /** `complete_request_handler_`: none, the empty one, `complete_request`, or the local
      after handlers and then `complete_request`. */
  datatype Completion = Nothing | Ignore | Request | Rule(indices: seq<nat>)

  /** A connection with its response: `ends[i]` says whether the before handler of the
      middleware `i` ends the response. */
  class Connection {
    const n: nat
    const isGlobal: seq<bool>
    const ends: seq<bool>
    var completed: bool
    var needAfter: bool
    var onComplete: Completion
    var trace: seq<Event>

    constructor (isGlobal: seq<bool>, ends: seq<bool>)
      requires |ends| == |isGlobal|
      ensures n == |isGlobal| && this.isGlobal == isGlobal && this.ends == ends && trace == [] && !completed
    {
      n, this.isGlobal, this.ends := |isGlobal|, isGlobal, ends;
      completed, needAfter, onComplete, trace := false, false, Nothing, [];
    }

    function Globals(): seq<nat> { Wanted(OnlyGlobal(isGlobal), 0, n) }

    /** A before handler, which may end the response; no request is completed by that. */
    method CallBefore(i: nat)
      requires i < n == |ends| && !completed && (onComplete.Nothing? || onComplete.Ignore?)
      modifies this`trace, this`completed
      ensures trace == old(trace) + [Before(i)] && completed == ends[i]
    {
      trace := trace + [Before(i)];
      if ends[i] { completed := true; }
    }

    /** `middleware_call_helper`: true if a before handler ended the response. */
    method MiddlewareCallHelper(cc: Criteria, i: nat) returns (r: bool)
      requires i <= n == |ends| && !completed && (onComplete.Nothing? || onComplete.Ignore?)
      requires !cc.kind.Backward? && cc.Ready(i)
      modifies this`trace, this`completed, cc
      ensures var w := Wanted(cc.kind, i, n);
        trace == old(trace) + Pass(w, ends) && r == completed == Completes(w, ends)
      decreases n - i
    {
      hide Pass, Completes;
      if i >= n {
        NoPass(ends);
        return false;
      }
      var enabled := cc.Enabled(i);
      if !enabled {
        r := MiddlewareCallHelper(cc, i + 1);
        return;
      }
      ghost var rest := Wanted(cc.kind, i + 1, n);
      PassUnfolds(i, rest, ends);
      CallBefore(i);
      if completed {
        trace := trace + [After(i)];
        return true;
      }
      r := MiddlewareCallHelper(cc, i + 1);
      if r {
        trace := trace + [After(i)];
        return true;
      }
      return false;
    }

    /** `after_handlers_call_helper`. */
    method AfterHandlersCallHelper(cc: Criteria, i: int)
      requires -1 <= i < n && (cc.kind.Backward? || cc.kind.OnlyGlobal?) && cc.Ready(i)
      modifies this`trace, cc
      ensures trace == old(trace) + Afters(Wanted(cc.kind, 0, (i + 1) as nat))
      decreases i
    {
      if i < 0 {
        return;
      }
      WantedLast(cc.kind, 0, i);
      var enabled := cc.Enabled(i);
      ghost var before := Wanted(cc.kind, 0, i);
      if enabled {
        trace := trace + [After(i)];
        AftersLast(before, i);
      }
      assert before + [] == before;
      AfterHandlersCallHelper(cc, i - 1);
    }

    /** `response::end`. */
    method End()
      requires Shape() && !completed && (onComplete.Request? || onComplete.Rule?) && needAfter
      modifies this
      ensures completed
      ensures var l := if old(onComplete).Rule? then Wanted(Backward(old(onComplete).indices), 0, n) else [];
        trace == old(trace) + Afters(l) + Afters(Globals()) + [Sent]
    {
      completed := true;
      if onComplete.Rule? {
        var cc := new Criteria(Backward(onComplete.indices), n);
        AfterHandlersCallHelper(cc, n - 1);
      }
      CompleteRequest();
    }

    ghost predicate Shape()
      reads this
    {
      |ends| == |isGlobal| == n
      && (onComplete.Rule? ==> Increasing(onComplete.indices) && forall x :: x in onComplete.indices ==> x < n)
    }

    /** `complete_request`, up to the writing of the response. */
    method CompleteRequest()
      requires |ends| == |isGlobal| == n
      modifies this
      ensures trace == old(trace) + (if old(needAfter) then Afters(Globals()) else []) + [Sent] && completed == old(completed)
    {
      if needAfter {
        needAfter := false;
        var cc := new Criteria(OnlyGlobal(isGlobal), n);
        AfterHandlersCallHelper(cc, n - 1);
      } else {
        assert trace + [] == trace;
      }
      trace := trace + [Sent];
      onComplete := Nothing;
    }

    /** `handle_rule` of a rule with these local middlewares, whose handler ends the
        response once. */
    method HandleRule(indices: seq<nat>)
      requires Shape() && !completed && onComplete.Request? && needAfter
      requires Increasing(indices) && forall x :: x in indices ==> x < n
      modifies this
      ensures completed
      ensures var l, g := Wanted(Forward(indices), 0, n), Globals();
        trace == old(trace)
          + (if Completes(l, ends) then Pass(l, ends) else Befores(l) + [Handler] + Afters(l)) + Afters(g) + [Sent]
    {
      hide Pass, Befores, Afters, Completes, Wanted, Increasing;
      ghost var l := Wanted(Forward(indices), 0, n);
      if indices == [] {
        NothingWanted(Forward(indices), 0, n);
        Nobody(ends);
      } else {
        var cc := new Criteria(Forward(indices), n);
        onComplete := Ignore;
        var r := MiddlewareCallHelper(cc, 0);
        PassNotEnded(l, ends);
        if completed {
          onComplete := Request;
          CompleteRequest();
          return;
        }
        onComplete := Rule(indices);
      }
      trace := trace + [Handler];
      SameWanted(indices, 0, n);
      ghost var was, a := old(trace), Afters(l);
      assert was + Befores(l) + [Handler] + a + Afters(Globals()) + [Sent]
          == was + (Befores(l) + [Handler] + a) + Afters(Globals()) + [Sent];
      assert was + [Handler] == was + [] + [Handler];
      End();
    }

    /** `handle` of a valid request that is routed to such a rule. */
    method Handle(indices: seq<nat>)
      requires |ends| == |isGlobal| == n && trace == [] && !completed
      requires forall x :: x in indices ==> x < n
      modifies this
      ensures completed && trace == Trace(Globals(), Packed(indices), ends)
      ensures Runs(trace, isGlobal, indices, ends)
    {
      hide Packed, Completes, Pass, Befores, Afters, Wanted, Increasing, Runs;
      TraceRuns(isGlobal, indices, ends);
      PackedIsTheSet(indices);
      var packed := Packed(indices);
      assert forall j :: 0 <= j < |packed| ==> packed[j] in packed;
      WantedIs(packed, 0, n, 0);
      needAfter, onComplete := false, Nothing;
      var cc := new Criteria(OnlyGlobal(isGlobal), n);
      var r := MiddlewareCallHelper(cc, 0);
      PassNotEnded(Globals(), ends);
      if !completed {
        onComplete, needAfter := Request, true;
        assert packed[0..] == packed;
        HandleRule(packed);
        ghost var b := Befores(Globals());
        assert b + (Befores(packed) + [Handler] + Afters(packed)) + Afters(Globals()) + [Sent]
            == b + Befores(packed) + [Handler] + Afters(packed) + Afters(Globals()) + [Sent];
      } else {
        CompleteRequest();
        assert Pass(Globals(), ends) + [] + [Sent] == Pass(Globals(), ends) + [Sent];
      }
    }
  }

  lemma {:induction false} NothingWanted(kind: Kind, i: nat, n: nat)
    requires kind == Forward([])
    ensures Wanted(kind, i, n) == []
    decreases n - i
  {
    if i < n { NothingWanted(kind, i + 1, n); }
  }

  lemma {:induction false} SameWanted(indices: seq<nat>, i: nat, n: nat)
    ensures Wanted(Backward(indices), i, n) == Wanted(Forward(indices), i, n)
    decreases n - i
  {
    if i < n { SameWanted(indices, i + 1, n); }
  }

  /** The middlewares wanted by packed indices are those indices. */
  lemma {:induction false} WantedIs(s: seq<nat>, i: nat, n: nat, k: nat)
    requires Increasing(s) && (forall j :: 0 <= j < |s| ==> s[j] < n) && i <= n && k <= |s|
    requires (k > 0 ==> s[k - 1] < i) && (k < |s| ==> s[k] >= i)
    ensures Wanted(Forward(s), i, n) == s[k..]
    decreases n - i
  {
    if i == n {
      assert s[k..] == [];
    } else if k < |s| && s[k] == i {
      WantedIs(s, i + 1, n, k + 1);
      assert s[k..] == [i] + s[k + 1..];
    } else {
      NotThere(s, i, k);
      WantedIs(s, i + 1, n, k);
    }
  }

  /** Between two neighbours there is no index. */
  lemma NotThere(s: seq<nat>, i: nat, k: nat)
    requires Increasing(s) && k <= |s| && (k > 0 ==> s[k - 1] < i) && (k < |s| ==> s[k] > i)
    ensures i !in s
  {
    forall j | 0 <= j < |s| ensures s[j] != i {
      if j < k - 1 { assert s[j] < s[k - 1]; } else if j > k { assert s[k] < s[j]; }
    }
  }

  lemma PassNotEnded(w: seq<nat>, ends: seq<bool>)
    ensures !Completes(w, ends) ==> Pass(w, ends) == Befores(w)
  {
  }

  lemma Nobody(ends: seq<bool>)
    ensures !Completes([], ends) && Befores([]) == [] && Afters([]) == []
  {
  }

  lemma NoPass(ends: seq<bool>)
    ensures Pass([], ends) == [] && !Completes([], ends)
  {
  }

  lemma CompletesUnfolds(i: nat, rest: seq<nat>, ends: seq<bool>)
    requires i < |ends|
    ensures Completes([i] + rest, ends) <==> ends[i] || Completes(rest, ends)
  {
    var w := [i] + rest;
    if ends[i] { assert w[0] == i; }
    if Completes(rest, ends) {
      var k :| 0 <= k < |rest| && rest[k] < |ends| && ends[rest[k]];
      assert w[k + 1] == rest[k];
    }
    if Completes(w, ends) {
      var k :| 0 <= k < |w| && w[k] < |ends| && ends[w[k]];
      if k > 0 { assert rest[k - 1] == w[k]; }
    }
  }

  lemma FirstUnfolds(i: nat, u: seq<nat>)
    ensures Befores([i] + u) == [Before(i)] + Befores(u) && Afters([i] + u) == Afters(u) + [After(i)]
  {
    assert ([i] + u)[0] == i && ([i] + u)[1..] == u;
  }

  lemma PassUnfolds(i: nat, rest: seq<nat>, ends: seq<bool>)
    requires i < |ends|
    ensures Completes([i] + rest, ends) <==> ends[i] || Completes(rest, ends)
    ensures ends[i] ==> Pass([i] + rest, ends) == [Before(i)] + [After(i)]
    ensures !ends[i] ==> Pass([i] + rest, ends) == [Before(i)] + Pass(rest, ends) + if Completes(rest, ends) then [After(i)] else []
  {
    CompletesUnfolds(i, rest, ends);
    hide Completes;
    var w, u := [i] + rest, UpToEnd(rest, ends);
    assert w[0] == i && w[1..] == rest;
    if ends[i] {
      FirstUnfolds(i, []);
      assert [i] + [] == [i] && Befores([]) == [] && Afters([]) == [];
    } else {
      FirstUnfolds(i, u);
      assert [Before(i)] + Befores(u) + (Afters(u) + [After(i)]) == [Before(i)] + (Befores(u) + Afters(u)) + [After(i)];
      assert Befores(w) == [Before(i)] + Befores(rest);
      assert [Before(i)] + Befores(rest) + [] == [Before(i)] + Befores(rest);
    }
  }

  lemma {:induction false} WantedLast(kind: Kind, i: nat, n: nat)
    requires i <= n
    ensures Wanted(kind, i, n + 1) == Wanted(kind, i, n) + if Wants(kind, n) then [n] else []
    decreases n - i
  {
    if i < n { WantedLast(kind, i + 1, n); }
  }

  lemma {:induction false} AftersLast(w: seq<nat>, i: nat)
    ensures Afters(w + [i]) == [After(i)] + Afters(w)
    decreases |w|
  {
    if w == [] {
      assert w + [i] == [i];
    } else {
      assert (w + [i])[1..] == w[1..] + [i];
      AftersLast(w[1..], i);
    }
  }

  // ----- the bracketing ------------------------------------------------------------------------------

  /** The middlewares open after an event; an after handler must be that of the one
      opened last, and the response is sent when none is open. */
  function Turn(open: seq<nat>, e: Event): Option<seq<nat>> {
    match e
    case Before(i) => Some(open + [i])
    case After(i) => if open != [] && open[|open| - 1] == i then Some(open[..|open| - 1]) else None
    case Handler => Some(open)
    case Sent => if open == [] then Some([]) else None
  }

  function Open(trace: seq<Event>, open: seq<nat>): Option<seq<nat>> {
    if trace == [] then Some(open)
    else
      var o :- Open(trace[..|trace| - 1], open);
      Turn(o, trace[|trace| - 1])
  }

  lemma {:induction false} OpenConcat(x: seq<Event>, y: seq<Event>, open: seq<nat>)
    ensures Open(x + y, open) == match Open(x, open) case None => None case Some(o) => Open(y, o)
    decreases |y|
  {
    if y == [] {
      assert x + y == x;
    } else {
      assert (x + y)[..|x + y| - 1] == x + y[..|y| - 1];
      OpenConcat(x, y[..|y| - 1], open);
    }
  }

  lemma OpenOne(e: Event, open: seq<nat>)
    ensures Open([e], open) == Turn(open, e)
  {
    assert [e][..0] == [];
  }

  lemma {:induction false} BeforesOpen(w: seq<nat>, open: seq<nat>)
    ensures Open(Befores(w), open) == Some(open + w)
    decreases |w|
  {
    if w == [] {
      assert open + w == open;
    } else {
      OpenOne(Before(w[0]), open);
      BeforesOpen(w[1..], open + [w[0]]);
      OpenConcat([Before(w[0])], Befores(w[1..]), open);
      assert open + [w[0]] + w[1..] == open + w;
    }
  }

  lemma {:induction false} AftersClose(w: seq<nat>, open: seq<nat>)
    ensures Open(Afters(w), open + w) == Some(open)
    decreases |w|
  {
    if w == [] {
      assert open + w == open;
    } else {
      var more := open + [w[0]];
      assert more + w[1..] == open + w && more[..|open|] == open;
      AftersClose(w[1..], more);
      OpenOne(After(w[0]), more);
      OpenConcat(Afters(w[1..]), [After(w[0])], open + w);
    }
  }

  /** A pass leaves its middlewares open, or has closed them all. */
  lemma PassOpens(w: seq<nat>, ends: seq<bool>, open: seq<nat>)
    ensures Open(Pass(w, ends), open) == Some(if Completes(w, ends) then open else open + w)
  {
    var u := UpToEnd(w, ends);
    BeforesOpen(w, open);
    BeforesOpen(u, open);
    AftersClose(u, open);
    OpenConcat(Befores(u), Afters(u), open);
  }

  /** In the trace of every request each middleware whose before handler ran has its
      after handler run, innermost first, and all of them before the response is sent. */
  lemma TraceIsBracketed(g: seq<nat>, l: seq<nat>, ends: seq<bool>)
    ensures Open(Trace(g, l, ends), []) == Some([])
  {
    hide Open, Turn, Pass, Completes;
    assert [] + g == g;
    OpenSent();
    PassOpens(g, ends, []);
    PassOpens(l, ends, g);
    BeforesOpen(g, []);
    BeforesOpen(l, g);
    AftersClose(l, g);
    AftersClose(g, []);
    OpenHandler(g + l);
    if Completes(g, ends) {
      OpenConcat(Pass(g, ends), [Sent], []);
    } else if Completes(l, ends) {
      OpenConcat(Befores(g), Pass(l, ends), []);
      OpenConcat(Befores(g) + Pass(l, ends), Afters(g), []);
      OpenConcat(Befores(g) + Pass(l, ends) + Afters(g), [Sent], []);
    } else {
      OpenConcat(Befores(g), Befores(l), []);
      OpenConcat(Befores(g) + Befores(l), [Handler], []);
      OpenConcat(Befores(g) + Befores(l) + [Handler], Afters(l), []);
      OpenConcat(Befores(g) + Befores(l) + [Handler] + Afters(l), Afters(g), []);
      OpenConcat(Befores(g) + Befores(l) + [Handler] + Afters(l) + Afters(g), [Sent], []);
    }
  }

  lemma OpenSent()
    ensures Open([Sent], []) == Some([])
  {
    OpenOne(Sent, []);
  }

  lemma OpenHandler(open: seq<nat>)
    ensures Open([Handler], open) == Some(open)
  {
    OpenOne(Handler, open);
  }

  // ----- once each ------------------------------------------------------------------------------------

  /** A before handler more than the after handlers for every middleware still open. */
  lemma {:induction false} OpenCounts(trace: seq<Event>, i: nat)
    requires Open(trace, []).Some?
    ensures multiset(trace)[Before(i)] == multiset(trace)[After(i)] + multiset(Open(trace, []).value)[i]
    decreases |trace|
  {
    if trace != [] {
      var front, e := trace[..|trace| - 1], trace[|trace| - 1];
      assert trace == front + [e];
      OpenCounts(front, i);
      var o, o' := Open(front, []).value, Open(trace, []).value;
      match e
      case Before(j) =>
      case After(j) => assert o == o' + [j];
      case _ =>
    }
  }

  lemma {:induction false} BeforesOnce(w: seq<nat>, i: nat)
    requires Increasing(w)
    ensures multiset(Befores(w))[Before(i)] == if i in w then 1 else 0
    decreases |w|
  {
    if w != [] {
      assert Befores(w) == [Before(w[0])] + Befores(w[1..]);
      BeforesOnce(w[1..], i);
    }
  }

  lemma {:induction false} AftersHaveNoBefore(w: seq<nat>, i: nat)
    ensures multiset(Afters(w))[Before(i)] == 0
    decreases |w|
  {
    if w != [] { AftersHaveNoBefore(w[1..], i); }
  }

  lemma {:induction false} UpToEndIsPrefix(w: seq<nat>, ends: seq<bool>)
    ensures UpToEnd(w, ends) <= w
    decreases |w|
  {
    if w != [] { UpToEndIsPrefix(w[1..], ends); }
  }

  lemma PassOnce(w: seq<nat>, ends: seq<bool>, i: nat)
    requires Increasing(w)
    ensures multiset(Pass(w, ends))[Before(i)] <= if i in w then 1 else 0
  {
    var u := UpToEnd(w, ends);
    UpToEndIsPrefix(w, ends);
    assert u == w[..|u|];
    BeforesOnce(w, i);
    BeforesOnce(u, i);
    AftersHaveNoBefore(u, i);
  }

  /** Each middleware's before handler runs at most once, and its after handler as often. */
  lemma TraceRunsEachOnce(g: seq<nat>, l: seq<nat>, ends: seq<bool>, i: nat)
    requires Increasing(g) && Increasing(l) && forall x :: x in g ==> x !in l
    ensures multiset(Trace(g, l, ends))[Before(i)] == multiset(Trace(g, l, ends))[After(i)] <= 1
  {
    hide Pass, Befores, Afters, Completes, Open, Increasing;
    TraceIsBracketed(g, l, ends);
    OpenCounts(Trace(g, l, ends), i);
    PassOnce(g, ends, i);
    PassOnce(l, ends, i);
    BeforesOnce(g, i);
    BeforesOnce(l, i);
    AftersHaveNoBefore(g, i);
    AftersHaveNoBefore(l, i);
  }

  // ----- the trace in terms of what was registered ---------------------------------------------------

  lemma {:induction false} WantedInOrder(kind: Kind, i: nat, n: nat)
    ensures Increasing(Wanted(kind, i, n))
    ensures forall x: nat :: x in Wanted(kind, i, n) <==> i <= x < n && Wants(kind, x)
    decreases n - i
  {
    hide Increasing, Wants;
    if i >= n {
      NothingIncreases();
    } else {
      WantedInOrder(kind, i + 1, n);
      OneMoreIncreases(i, Wanted(kind, i + 1, n));
    }
  }

  lemma NothingIncreases()
    ensures Increasing([])
  {
  }

  lemma OneMoreIncreases(i: nat, rest: seq<nat>)
    requires Increasing(rest) && forall x :: x in rest ==> i < x
    ensures Increasing([i] + rest) && forall x :: x in [i] + rest <==> x == i || x in rest
  {
    var all := [i] + rest;
    forall a, b | 0 <= a < b < |all| ensures all[a] < all[b] {
      assert all[b] == rest[b - 1] && rest[b - 1] in rest;
      if a > 0 { assert all[a] == rest[a - 1]; }
    }
  }

  lemma {:induction false} BeforeAt(w: seq<nat>, k: nat)
    ensures |Befores(w)| == |w| && (k < |w| ==> Befores(w)[k] == Before(w[k]))
    decreases |w|
  {
    if w != [] { BeforeAt(w[1..], if k > 0 then k - 1 else 0); }
  }

  lemma {:induction false} NoneEarly(w: seq<nat>, k: nat)
    ensures k < |Afters(w)| ==> !IsEarly(Afters(w)[k])
    decreases |w|
  {
    if w != [] { NoneEarly(w[1..], k); }
  }

  predicate AreLate(es: seq<Event>) { forall k :: 0 <= k < |es| ==> !IsEarly(es[k]) }

  lemma JoinedAt(x: seq<Event>, y: seq<Event>, k: nat)
    requires k < |x| + |y|
    ensures (x + y)[k] == if k < |x| then x[k] else y[k - |x|]
  {
  }

  lemma BeginsAt(w: seq<nat>, tail: seq<Event>, k: nat)
    requires tail != [] && AreLate(tail[1..])
    ensures var trace := Befores(w) + tail;
      && |trace| == |w| + |tail| && (k < |w| ==> trace[k] == Before(w[k])) && (|w| < k < |trace| ==> !IsEarly(trace[k]))
      && trace[|w|] == tail[0]
  {
    hide Befores, IsEarly;
    BeforeAt(w, k);
    JoinedAt(Befores(w), tail, |w|);
    if k < |w| + |tail| { JoinedAt(Befores(w), tail, k); }
    if |w| < k < |w| + |tail| { assert tail[k - |w|] == tail[1..][k - |w| - 1]; }
  }

  /** Before handlers, one event, and then what is not early. */
  lemma BeginsSo(w: seq<nat>, tail: seq<Event>)
    requires tail != [] && AreLate(tail[1..])
    ensures Begins(Befores(w) + tail, w) && (Befores(w) + tail)[|w|] == tail[0]
  {
    hide Befores, IsEarly, AreLate;
    var trace := Befores(w) + tail;
    BeginsAt(w, tail, 0);
    forall k | 0 <= k < |w| ensures trace[k] == Before(w[k]) { BeginsAt(w, tail, k); }
    forall k | |w| < k < |trace| ensures !IsEarly(trace[k]) { BeginsAt(w, tail, k); }
  }

  lemma {:induction false} BeforesConcat(x: seq<nat>, y: seq<nat>)
    ensures Befores(x + y) == Befores(x) + Befores(y)
    decreases |x|
  {
    if x == [] {
      assert x + y == y;
    } else {
      assert (x + y)[1..] == x[1..] + y;
      BeforesConcat(x[1..], y);
    }
  }

  /** The first whose before handler ends the response. */
  lemma {:induction false} FirstEnd(w: seq<nat>, ends: seq<bool>) returns (k: nat)
    ensures k <= |w| && (forall j :: 0 <= j < k ==> !EndsAt(w, ends, j)) && (k < |w| ==> EndsAt(w, ends, k))
    ensures Completes(w, ends) <==> k < |w|
    ensures UpToEnd(w, ends) == if k < |w| then w[..k + 1] else w
    decreases |w|
  {
    k := 0;
    if w != [] && !EndsAt(w, ends, 0) {
      var rest := w[1..];
      var k1 := FirstEnd(rest, ends);
      k := k1 + 1;
      forall j | 0 <= j < k ensures !EndsAt(w, ends, j) { if j > 0 { assert !EndsAt(rest, ends, j - 1); } }
      if k < |w| { assert EndsAt(rest, ends, k1) && w[..k + 1] == [w[0]] + rest[..k1 + 1]; } else { assert w == [w[0]] + rest; }
    } else if w != [] {
      assert w[..1] == [w[0]];
    }
  }

  lemma LateEvents(x: seq<nat>, y: seq<nat>)
    ensures AreLate(Afters(x) + Afters(y) + [Sent])
  {
    hide Afters;
    var late := Afters(x) + Afters(y) + [Sent];
    forall k | 0 <= k < |late| ensures !IsEarly(late[k]) {
      NoneEarly(x, k);
      if k >= |Afters(x)| { NoneEarly(y, k - |Afters(x)|); }
    }
  }

  lemma GlobalsFirst(g: seq<nat>, l: seq<nat>, isGlobal: seq<bool>, indices: seq<nat>)
    requires Increasing(g) && Increasing(l)
    requires (forall i: nat :: i in g <==> i < |isGlobal| && isGlobal[i]) && (forall i: nat :: i in l <==> i in indices)
    ensures InTurn(g + l, isGlobal, indices)
  {
  }

  lemma EndedRuns(w: seq<nat>, k: nat, trace: seq<Event>, x: seq<nat>, y: seq<nat>, ends: seq<bool>)
    requires k < |w| && EndsAt(w, ends, k) && (forall j :: 0 <= j < k ==> !EndsAt(w, ends, j))
    requires trace == Befores(w[..k + 1]) + (Afters(x) + Afters(y) + [Sent])
    ensures RunsTo(trace, w, k, ends)
  {
    hide Befores, Afters, EndsAt, Begins, IsEarly;
    LateEvents(x, y);
    LateAfterFirst(Afters(x) + Afters(y) + [Sent]);
    BeginsSo(w[..k + 1], Afters(x) + Afters(y) + [Sent]);
  }

  lemma LateAfterFirst(es: seq<Event>)
    requires AreLate(es) && es != []
    ensures AreLate(es[1..]) && !IsEarly(es[0])
  {
  }

  /** The same for the local ones behind the global ones. */
  lemma {:induction false} EndsBehind(g: seq<nat>, l: seq<nat>, ends: seq<bool>, j: nat)
    requires j < |g + l|
    ensures EndsAt(g + l, ends, j) == if j < |g| then EndsAt(g, ends, j) else EndsAt(l, ends, j - |g|)
  {
  }

  lemma GlobalEnds(g: seq<nat>, l: seq<nat>, ends: seq<bool>, k: nat)
    requires k < |g| && EndsAt(g, ends, k) && (forall j :: 0 <= j < k ==> !EndsAt(g, ends, j))
    requires Completes(g, ends) && UpToEnd(g, ends) == g[..k + 1]
    ensures RunsTo(Trace(g, l, ends), g + l, k, ends)
  {
    hide Completes, UpToEnd, Befores, Afters, RunsTo, EndsAt;
    var w, u := g + l, g[..k + 1];
    forall j | 0 <= j <= k ensures EndsAt(w, ends, j) == EndsAt(g, ends, j) { EndsBehind(g, l, ends, j); }
    NoAfters();
    assert w[..k + 1] == u;
    var trace := Trace(g, l, ends);
    assert trace == Befores(u) + (Afters(u) + Afters([]) + [Sent]) by {
      assert trace == Befores(u) + Afters(u) + [Sent];
      assert Afters(u) + [] == Afters(u);
    }
    EndedRuns(w, k, trace, u, [], ends);
  }

  lemma Regroup(a: seq<Event>, b: seq<Event>, c: seq<Event>, d: seq<Event>, e: seq<Event>)
    ensures a + (b + c) + d + e == a + b + (c + d + e)
  {
  }

  lemma LocalEndsFirst(g: seq<nat>, l: seq<nat>, ends: seq<bool>, k: nat)
    requires k < |l| && EndsAt(l, ends, k) && (forall j :: 0 <= j < k ==> !EndsAt(l, ends, j))
    requires forall j :: 0 <= j < |g| ==> !EndsAt(g, ends, j)
    ensures EndsAt(g + l, ends, |g| + k) && forall j :: 0 <= j < |g| + k ==> !EndsAt(g + l, ends, j)
  {
    hide EndsAt;
    EndsBehind(g, l, ends, |g| + k);
    forall j | 0 <= j < |g| + k ensures !EndsAt(g + l, ends, j) { EndsBehind(g, l, ends, j); }
  }

  lemma LocalEnds(g: seq<nat>, l: seq<nat>, ends: seq<bool>, k: nat)
    requires k < |l| && EndsAt(l, ends, k) && (forall j :: 0 <= j < k ==> !EndsAt(l, ends, j))
    requires !Completes(g, ends) && (forall j :: 0 <= j < |g| ==> !EndsAt(g, ends, j))
    requires Completes(l, ends) && UpToEnd(l, ends) == l[..k + 1]
    ensures RunsTo(Trace(g, l, ends), g + l, |g| + k, ends)
  {
    hide Completes, UpToEnd, Befores, Afters, RunsTo, EndsAt;
    var w, u := g + l, l[..k + 1];
    LocalEndsFirst(g, l, ends, k);
    BeforesConcat(g, u);
    assert w[..|g| + k + 1] == g + u;
    var trace := Trace(g, l, ends);
    Regroup(Befores(g), Befores(u), Afters(u), Afters(g), [Sent]);
    EndedRuns(w, |g| + k, trace, u, g, ends);
  }

  lemma NoneEnds(g: seq<nat>, l: seq<nat>, ends: seq<bool>)
    requires !Completes(g, ends) && !Completes(l, ends)
    requires (forall j :: 0 <= j < |g| ==> !EndsAt(g, ends, j)) && (forall j :: 0 <= j < |l| ==> !EndsAt(l, ends, j))
    ensures RunsTo(Trace(g, l, ends), g + l, |g + l|, ends)
  {
    hide Completes, Befores, Afters, EndsAt, Begins;
    var w, late := g + l, Afters(l) + Afters(g) + [Sent];
    forall j | 0 <= j < |w| ensures !EndsAt(w, ends, j) { EndsBehind(g, l, ends, j); }
    BeforesConcat(g, l);
    LateEvents(l, g);
    assert ([Handler] + late)[1..] == late;
    BeginsSo(w, [Handler] + late);
    assert Trace(g, l, ends) == Befores(w) + ([Handler] + late);
  }

  /** The trace of a request runs the global middlewares and then the local ones, as far as
      none ends the response. */
  lemma TraceRuns(isGlobal: seq<bool>, indices: seq<nat>, ends: seq<bool>)
    ensures Runs(Trace(Wanted(OnlyGlobal(isGlobal), 0, |isGlobal|), Packed(indices), ends), isGlobal, indices, ends)
  {
    hide Wanted, Packed, InTurn, Completes, UpToEnd, Befores, Afters, Increasing, Trace, RunsTo, EndsAt;
    var g, l := Wanted(OnlyGlobal(isGlobal), 0, |isGlobal|), Packed(indices);
    WantedInOrder(OnlyGlobal(isGlobal), 0, |isGlobal|);
    PackedIsTheSet(indices);
    GlobalsFirst(g, l, isGlobal, indices);
    var kg := FirstEnd(g, ends);
    var kl := FirstEnd(l, ends);
    if kg < |g| {
      GlobalEnds(g, l, ends, kg);
    } else if kl < |l| {
      LocalEnds(g, l, ends, kl);
    } else {
      NoneEnds(g, l, ends);
    }
  }

  lemma NoAfters()
    ensures Afters([]) == []
  {
  }
}
