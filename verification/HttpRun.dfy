/** The parser one byte at a time: what the callbacks of `HTTPParser` build
    (include/Crow/include/crow/parser.h), one byte's step, and runs of bytes. */
module HttpRun {
  import opened Wrappers
  import opened HttpBytes
  import opened HttpStep

  /** The request as far as it is built. `headers` lists the pairs in the order in
      which they enter the multimap; `building` is `header_building_state`. */
  datatype App = App(
    meth: nat,
    url: string,
    headers: seq<(string, string)>,
    field: string,
    value: string,
    building: bool,
    body: string,
    conn: Option<Conn>,
    complete: bool)

  const NewApp := App(DELETE, "", [], "", "", false, "", None, false)

  /** The data callbacks `on_url`, `on_header_field`, `on_header_value`, `on_body`. A
      string that was moved from is empty. */
  function Deliver(a: App, k: Kind, s: string): App {
    match k
    case Url => a.(url := a.url + s)
    case Body => a.(body := a.body + s)
    case Field =>
      if a.building then a.(field := a.field + s)
      else if a.value != "" then
        a.(headers := a.headers + [(a.field, a.value)], field := s, value := "", building := true)
      else a.(field := s, building := true)
    case Value => if a.building then a.(value := s, building := false) else a.(value := a.value + s)
  }

  /** `on_headers_complete`. */
  function HeadersComplete(a: App, conn: Conn): App {
    var a1 := a.(conn := Some(conn));
    if a.field != "" then a1.(headers := a.headers + [(a.field, a.value)], field := "", value := "") else a1
  }

  // ----- marks ---------------------------------------------------------------------

  /** The mark pointers into the buffer: `header_field_mark` and its like. */
  datatype Marks = Marks(field: Option<nat>, value: Option<nat>, url: Option<nat>, body: Option<nat>)

  const NoMarks := Marks(None, None, None, None)

  function Get(m: Marks, k: Kind): Option<nat> {
    match k case Field => m.field case Value => m.value case Url => m.url case Body => m.body
  }

  function Set(m: Marks, k: Kind, q: Option<nat>): Marks {
    match k
    case Field => m.(field := q)
    case Value => m.(value := q)
    case Url => m.(url := q)
    case Body => m.(body := q)
  }

  /** The marks set at the start of a buffer for a state left open by the last one. */
  function StartMarks(s: State): Marks { OpenMarks(s, 0) }

  /** The marks of a state that leaves data open, set at `p`. */
  function OpenMarks(s: State, p: nat): Marks {
    if s.HeaderField? then Only(Field, p)
    else if s.HeaderValue? then Only(Value, p)
    else if InUrl(s) then Only(Url, p)
    else NoMarks
  }

  /** The marks with only `k` set. */
  function Only(k: Kind, q: nat): Marks { Set(NoMarks, k, Some(q)) }

  function Slice(data: string, q: nat, p: nat): string {
    if q <= p <= |data| then data[q..p] else ""
  }

  function Apply(acts: seq<Act>, m: Marks, a: App, data: string, p: nat): (Marks, App) {
    if acts == [] then (m, a)
    else
      var (m1, a1) := ApplyAct(acts[0], m, a, data, p);
      Apply(acts[1..], m1, a1, data, p)
  }

  function ApplyAct(act: Act, m: Marks, a: App, data: string, p: nat): (Marks, App) {
    match act
    case Mark(k) => (if Get(m, k).None? then Set(m, k, Some(p)) else m, a)
    case Emit(k) =>
      if Get(m, k).Some? then (Set(m, k, None), Deliver(a, k, Slice(data, Get(m, k).value, p))) else (m, a)
    case EmitThrough(k) =>
      if Get(m, k).Some? then (Set(m, k, None), Deliver(a, k, Slice(data, Get(m, k).value, p + 1))) else (m, a)
    case OnMethod(v) => (m, a.(meth := v))
    case OnHeadersComplete(conn) => (m, HeadersComplete(a, conn))
    case OnMessageComplete => (m, a.(complete := true))
  }

  /** What the application has once the data marked before `p` is delivered. */
  function Pending(m: Marks, a: App, data: string, p: nat): App {
    var a1 := PendingOf(m, a, data, p, Field);
    var a2 := PendingOf(m, a1, data, p, Value);
    var a3 := PendingOf(m, a2, data, p, Url);
    PendingOf(m, a3, data, p, Body)
  }

  function PendingOf(m: Marks, a: App, data: string, p: nat, k: Kind): App {
    if Get(m, k).Some? && Get(m, k).value < p then Deliver(a, k, Slice(data, Get(m, k).value, p)) else a
  }

  // ----- one byte, and runs -----------------------------------------------------------

  datatype Sys = Sys(core: Core, app: App)

  predicate Stopped(s: Sys) { s.core.errno != OK || s.app.complete }

  /** `CROW_COUNT_HEADER_SIZE`. */
  function Count(c: Core, n: nat): Core {
    var c1 := c.(nread := c.nread + n);
    if c1.nread > MAX_HEADER_SIZE then c1.(errno := HeaderOverflow) else c1
  }

  /** The count at the top of the loop. */
  function Counted(c: Core): Core {
    if CountsBytes(c.state) then Count(c, 1) else c
  }

  /** A buffer of the single byte `ch`, with a look at the byte after it. */
  function Step(s: Sys, ch: char, next: Option<char>): Sys {
    if Stopped(s) then s
    else
      var c := Counted(s.core);
      if c.errno != OK then Sys(c, s.app)
      else
        var r := Trans(c, ch, next);
        if r.core.errno != OK then Sys(r.core, s.app)
        else
          var (m, a) := Apply(r.acts, StartMarks(s.core.state), s.app, [ch], 0);
          Sys(r.core, Pending(m, a, [ch], 1))
  }

  function Next(data: string, i: nat): Option<char> {
    if i + 1 < |data| then Some(data[i + 1]) else None
  }

  /** The first `n` bytes of a buffer, one after the other. */
  function Run(s: Sys, data: string, n: nat): Sys
    requires n <= |data|
  {
    if n == 0 then s else Step(Run(s, data, n - 1), data[n - 1], Next(data, n - 1))
  }

  function RunAll(s: Sys, data: string): Sys { Run(s, data, |data|) }

  /** Several buffers, one after the other. */
  function Feed(s: Sys, feeds: seq<string>): Sys
    decreases |feeds|
  {
    if feeds == [] then s else Feed(RunAll(s, feeds[0]), feeds[1..])
  }

  lemma StepFails(s: Sys, ch: char, next: Option<char>)
    requires !Stopped(s)
    requires Counted(s.core).errno != OK || Trans(Counted(s.core), ch, next).core.errno != OK
    ensures Step(s, ch, next).core.errno != OK
  {
  }

  lemma StepStopped(s: Sys, ch: char, next: Option<char>)
    requires Stopped(s)
    ensures Step(s, ch, next) == s
  {
  }

  lemma {:induction false} RunStaysStopped(s: Sys, data: string, i: nat, n: nat)
    requires i <= n <= |data| && Stopped(Run(s, data, i))
    ensures Run(s, data, n) == Run(s, data, i)
    decreases n - i
  {
    if i < n {
      StepStopped(Run(s, data, i), data[i], Next(data, i));
      RunStaysStopped(s, data, i + 1, n);
    }
  }

  lemma DeliverTwice(a: App, k: Kind, x: string, y: string)
    ensures Deliver(Deliver(a, k, x), k, y) == Deliver(a, k, x + y)
  {
    match k
    case Url => assert a.url + x + y == a.url + (x + y);
    case Body => assert a.body + x + y == a.body + (x + y);
    case Field => if a.building { assert a.field + x + y == a.field + (x + y); }
    case Value => if !a.building { assert a.value + x + y == a.value + (x + y); }
  }

  lemma PendingOnly(k: Kind, q: nat, a: App, data: string, p: nat)
    ensures Pending(Only(k, q), a, data, p) == if q < p then Deliver(a, k, Slice(data, q, p)) else a
  {
  }

  lemma ApplyOne(act: Act, m: Marks, a: App, data: string, p: nat)
    ensures Apply([act], m, a, data, p) == ApplyAct(act, m, a, data, p)
  {
    var (m1, a1) := ApplyAct(act, m, a, data, p);
    assert Apply([act], m, a, data, p) == Apply([act][1..], m1, a1, data, p);
  }
}
