/** `http_parser_execute` on a buffer: marks, callbacks and the inner loops over many
    bytes, proved to do what reading the bytes one by one does. */
module HttpExec {
  import opened Wrappers
  import opened HttpBytes
  import opened HttpStep
  import opened HttpRun
  import opened HttpMarks
  import opened HttpRefine
  import opened HttpInv

  function Min(a: nat, b: nat): nat { if a < b then a else b }

  /** No more than one mark is set. */
  predicate AtMostOneMark(m: Marks) {
    m == NoMarks || exists k :: Get(m, k).Some? && m == Only(k, Get(m, k).value)
  }

  lemma FitsOneMark(m: Marks, s: State, p: nat)
    requires Fits(m, s, p)
    ensures AtMostOneMark(m)
    ensures forall k :: Get(m, k).Some? ==> Before(Get(m, k).value, p)
  {
    if m != NoMarks {
      var k := if s.HeaderField? then Field else if s.HeaderValue? then Value else if InUrl(s) then Url else Body;
      assert Get(m, k).Some? && m == Only(k, Get(m, k).value);
    }
  }

  lemma GeneralStays(c: Core, t: char)
    requires c.headerState.General?
    ensures FieldLetter(c, t) == c
  {
  }

  /** The parser object of a connection with the request it builds. */
  class HttpParser {
    var core: Core
    var app: App

    ghost predicate Valid()
      reads this
    {
      Inv(Sys(core, app))
    }

    constructor (allowChunkedLength: bool, lenient: bool)
      ensures Valid() && core == Init(allowChunkedLength, lenient) && app == NewApp
    {
      InitInv(allowChunkedLength, lenient);
      core, app := Init(allowChunkedLength, lenient), NewApp;
    }

    /** The marks and callbacks of one byte, in order. */
    method Perform(acts: seq<Act>, marks: Marks, data: string, p: nat) returns (m: Marks)
      modifies this`app
      ensures (m, app) == Apply(acts, marks, old(app), data, p)
    {
      m := marks;
      var i := 0;
      while i < |acts|
        invariant i <= |acts|
        invariant Apply(acts, marks, old(app), data, p) == Apply(acts[i..], m, app, data, p)
      {
        var (m1, a1) := ApplyAct(acts[i], m, app, data, p);
        assert acts[i..][1..] == acts[i + 1..];
        m, app := m1, a1;
        i := i + 1;
      }
    }

    /** The callbacks for marks left over at the end of the buffer. */
    method Flush(marks: Marks, data: string, p: nat)
      requires p <= |data| && forall k :: Get(marks, k).Some? ==> Get(marks, k).value < p
      modifies this`app
      ensures app == Pending(marks, old(app), data, p)
    {
      assert Get(marks, Field) == marks.field && Get(marks, Value) == marks.value;
      assert Get(marks, Url) == marks.url && Get(marks, Body) == marks.body;
      if marks.field.Some? { app := Deliver(app, Field, data[marks.field.value..p]); }
      if marks.value.Some? { app := Deliver(app, Value, data[marks.value.value..p]); }
      if marks.url.Some? { app := Deliver(app, Url, data[marks.url.value..p]); }
      if marks.body.Some? { app := Deliver(app, Body, data[marks.body.value..p]); }
    }

    /** The fast loop over the rest of a name or value that is not compared. */
    method SkipGeneral(data: string, start: nat, from: nat, ghost s0: Sys, ghost q: nat) returns (p: nat)
      requires start <= from < |data| <= MAX_HEADER_SIZE && Token(data[from]) != '\0' && !app.complete
      requires core.state.HeaderField? && core.headerState.General?
      requires BulkReads(s0, data, start, from, core, app, Only(Field, q))
      ensures from <= p < |data| && BulkReads(s0, data, start, p + 1, core, app, Only(Field, q))
    {
      hide BulkReads;
      p := from;
      var pe := p + Min(|data| - p, MAX_HEADER_SIZE);
      FieldBulk(s0, data, start, p, core, app, q);
      GeneralStays(core, Token(data[p]));
      while p + 1 < pe && Token(data[p + 1]) != '\0'
        invariant from <= p < |data| && BulkReads(s0, data, start, p + 1, core, app, Only(Field, q))
      {
        p := p + 1;
        FieldBulk(s0, data, start, p, core, app, q);
        GeneralStays(core, Token(data[p]));
      }
    }

    /** `s_header_field`: all letters of the name that the buffer holds. */
    method FieldLoop(data: string, start: nat, marks: Marks, ghost s0: Sys, ghost c: Core) returns (p: nat, m: Marks)
      requires start < |data| <= MAX_HEADER_SIZE && c.errno == OK && !app.complete && c.state.HeaderField?
      requires Reads(s0, data, start, c, app, marks) && core == Counted(c) && core.errno == OK
      modifies this
      ensures core.errno != OK ==> Fails(s0, data)
      ensures core.errno == OK ==> start < p <= |data| && Reads(s0, data, p, core, app, m) && !app.complete
    {
      hide BulkReads, Reads, Trans, Apply, Pending, FieldLetter, Step;
      ghost var q := OpenMark(s0, data, start, c, app, marks);
      BulkStart(s0, data, start, c, app, marks);
      p, m := start, marks;
      while p < |data| && Token(data[p]) != '\0'
        invariant start <= p <= |data| && core.state.HeaderField? && app == old(app)
        invariant BulkReads(s0, data, start, p, core, app, Only(Field, q))
      {
        if core.headerState.General? {
          p := SkipGeneral(data, start, p, s0, q);
        } else {
          FieldBulk(s0, data, start, p, core, app, q);
          FieldLetterNread(core, Token(data[p]), 0);
          core := FieldLetter(core, Token(data[p]));
        }
        p := p + 1;
      }
      BulkCount(s0, data, start, p, core, app, marks);
      if p == |data| {
        core := Count(core, p - 1 - start);
      } else {
        ghost var c1 := core.(nread := core.nread - 1 + (p - start));
        core := Count(core, p - start);
        if core.errno == OK {
          m := FieldEnd(data, p, marks, s0, c1);
          p := p + 1;
        }
      }
    }

    /** The byte after a field name, which must be a colon. */
    method FieldEnd(data: string, p: nat, marks: Marks, ghost s0: Sys, ghost c: Core) returns (m: Marks)
      requires p < |data| && Token(data[p]) == '\0' && c.errno == OK && !app.complete && c.state.HeaderField?
      requires Reads(s0, data, p, c, app, marks) && core == Counted(c) && core.errno == OK
      modifies this
      ensures core.errno != OK ==> Fails(s0, data)
      ensures core.errno == OK ==> Reads(s0, data, p + 1, core, app, m) && !app.complete
    {
      hide Trans, Apply, Pending, Step, Fits, Reads, Token, Fails;
      ghost var q := OpenMark(s0, data, p, c, app, marks);
      TransField(core, data[p], Next(data, p));
      m := marks;
      if data[p] == ':' {
        EmitByteRefines(s0, data, p, c, app, q);
        core := core.(state := HeaderValueDiscardWs);
        app := Deliver(app, Field, data[marks.field.value..p]);
        m := NoMarks;
      } else {
        ByteFails(s0, data, p, c, app, marks);
        core := core.(errno := InvalidHeaderToken);
      }
    }

    /** The fast loop of `s_header_value` in `h_general`: up to the byte before a CR or
        LF, or the end of the buffer. */
    method SkipValue(data: string, start: nat, from: nat, ghost s0: Sys, ghost q: nat) returns (p: nat)
      requires start <= from < |data| <= MAX_HEADER_SIZE && data[from] != CR && data[from] != LF && !app.complete
      requires core.errno == OK && core.state.HeaderValue? && core.headerState.General?
      requires core.lenient || IsHeaderChar(data[from])
      requires BulkReads(s0, data, start, from, core, app, Only(Value, q))
      modifies this`core
      ensures from <= p && core.state.HeaderValue?
      ensures core.errno != OK ==> Fails(s0, data)
      ensures core.errno == OK ==> p < |data| && BulkReads(s0, data, start, p + 1, core, app, Only(Value, q))
    {
      hide BulkReads, IsHeaderChar, ValueLetter;
      p := from;
      var pe := p + Min(|data| - p, MAX_HEADER_SIZE);
      ValueBulk(s0, data, start, p, core, app, q);
      GeneralLetter(core, data[p]);
      p := p + 1;
      while p != pe
        invariant from < p <= |data| && core == old(core)
        invariant BulkReads(s0, data, start, p, core, app, Only(Value, q))
        decreases pe - p
      {
        var ch := data[p];
        if ch == CR || ch == LF {
          break;
        }
        ValueBulk(s0, data, start, p, core, app, q);
        GeneralLetter(core, ch);
        if !core.lenient && !IsHeaderChar(ch) {
          core := core.(errno := InvalidHeaderToken);
          return;
        }
        p := p + 1;
      }
      p := p - 1;
    }

    /** `s_header_value`: all of the value that the buffer holds. */
    method ValueLoop(data: string, start: nat, marks: Marks, ghost s0: Sys, ghost c: Core) returns (p: nat, m: Marks)
      requires start < |data| <= MAX_HEADER_SIZE && c.errno == OK && !app.complete && c.state.HeaderValue?
      requires Reads(s0, data, start, c, app, marks) && core == Counted(c) && core.errno == OK
      modifies this
      ensures core.errno != OK ==> Fails(s0, data)
      ensures core.errno == OK ==> start < p <= |data| && Reads(s0, data, p, core, app, m) && !app.complete
    {
      hide BulkReads, Reads, Trans, Apply, Pending, ValueLetter, Step, IsHeaderChar, Fails;
      ghost var q := OpenMark(s0, data, start, c, app, marks);
      BulkStart(s0, data, start, c, app, marks);
      p, m := start, marks;
      while p < |data| && data[p] != CR && data[p] != LF
        invariant start <= p <= |data| && core.state.HeaderValue? && app == old(app) && core.errno == OK
        invariant BulkReads(s0, data, start, p, core, app, Only(Value, q))
        decreases |data| - p
      {
        if !core.lenient && !IsHeaderChar(data[p]) {
          ValueBulk(s0, data, start, p, core, app, q);
          BadLetter(core, data[p]);
          core := core.(errno := InvalidHeaderToken);
          return;
        }
        if core.headerState.General? {
          p := SkipValue(data, start, p, s0, q);
        } else {
          ValueBulk(s0, data, start, p, core, app, q);
          ValueLetterNread(core, data[p], 0);
          core := ValueLetter(core, data[p]).core;
        }
        if core.errno != OK {
          return;
        }
        p := p + 1;
      }
      BulkCount(s0, data, start, p, core, app, marks);
      if p == |data| {
        core := Count(core, p - 1 - start);
      } else {
        ghost var c1 := core.(nread := core.nread - 1 + (p - start));
        core := Count(core, p - start);
        if core.errno == OK {
          m := ValueEnd(data, p, marks, s0, c1);
          p := p + 1;
        }
      }
    }

    /** The CR or LF after a value. */
    method ValueEnd(data: string, p: nat, marks: Marks, ghost s0: Sys, ghost c: Core) returns (m: Marks)
      requires p < |data| && (data[p] == CR || data[p] == LF) && c.errno == OK && !app.complete && c.state.HeaderValue?
      requires Reads(s0, data, p, c, app, marks) && core == Counted(c) && core.errno == OK
      modifies this
      ensures core.errno == OK && Reads(s0, data, p + 1, core, app, m) && !app.complete
    {
      hide Trans, Apply, Pending, Step, Fits, Reads;
      ghost var q := OpenMark(s0, data, p, c, app, marks);
      TransValue(core, data[p], Next(data, p));
      EmitByteRefines(s0, data, p, c, app, q);
      core := core.(state := if data[p] == CR then HeaderAlmostDone else HeaderValueLws);
      app := Deliver(app, Value, data[marks.value.value..p]);
      m := NoMarks;
    }

    /** `s_body_identity` and `s_chunk_data`: as much counted data as there is. */
    method DataBytes(data: string, start: nat, marks: Marks, ghost s0: Sys) returns (p: nat, m: Marks)
      requires start < |data| && core.errno == OK && !app.complete && Counting(core.state) && core.contentLength > 0
      requires Reads(s0, data, start, core, app, marks)
      modifies this
      ensures core.errno == OK && start < p <= |data| && Reads(s0, data, p, core, app, m)
    {
      hide Apply, Step, Deliver, Pending;
      ghost var c, a := core, app;
      var n := Min(core.contentLength, |data| - start);
      m := if marks.body.None? then marks.(body := Some(start)) else marks;
      PendingComplete(marks, app, data, start);
      DataRun(s0, data, start, core, Pending(marks, app, data, start), n);
      DataMark(c, a, marks, m, data, start, n);
      core := core.(contentLength := core.contentLength - n);
      p := start + n;
      if core.contentLength == 0 {
        if core.state.BodyIdentity? {
          app := Deliver(app, Body, data[m.body.value..p]);
          m := NoMarks;
          core := core.(state := MessageDone);
          app := app.(complete := true);
          NothingPending(app, data, p);
        } else {
          core := core.(state := ChunkDataAlmostDone);
        }
      }
    }

    /** `s_body_identity_eof`: the rest of the buffer. */
    method EofBytes(data: string, start: nat, marks: Marks, ghost s0: Sys) returns (p: nat, m: Marks)
      requires start < |data| && core.errno == OK && !app.complete && core.state.BodyIdentityEof?
      requires Reads(s0, data, start, core, app, marks)
      ensures p == |data| && Reads(s0, data, p, core, app, m)
    {
      hide Apply, Step, Deliver, Pending;
      m := if marks.body.None? then marks.(body := Some(start)) else marks;
      p := |data|;
      PendingComplete(marks, app, data, start);
      EofRun(s0, data, start, core, Pending(marks, app, data, start), p - start);
      BodyMark(app, marks, m, data, start, p);
    }

    /** The states that read one byte: the byte's marks and callbacks in order. */
    method OneByte(data: string, p: nat, marks: Marks, ghost s0: Sys, ghost c: Core) returns (m: Marks)
      requires p < |data| && c.errno == OK && !app.complete && Reads(s0, data, p, c, app, marks)
      requires core == Counted(c) && core.errno == OK
      requires Fresh(c.state) || InUrl(c.state) || c.state.ChunkDataAlmostDone?
      modifies this
      ensures core.errno != OK ==> Fails(s0, data)
      ensures core.errno == OK ==> Reads(s0, data, p + 1, core, app, m)
    {
      hide Trans, Apply, Reads, Fails;
      var r := Trans(core, data[p], Next(data, p));
      m := marks;
      if r.core.errno != OK {
        ByteFails(s0, data, p, c, app, marks);
        core := r.core;
      } else {
        ByteRefines(s0, data, p, c, app, marks);
        core := r.core;
        m := Perform(r.acts, marks, data, p);
      }
    }

    /** One turn of the loop over the buffer. */
    method Turn(data: string, p: nat, marks: Marks, ghost s0: Sys) returns (p': nat, m: Marks)
      requires p < |data| <= MAX_HEADER_SIZE && core.errno == OK && !app.complete && Inv(s0)
      requires Reads(s0, data, p, core, app, marks)
      modifies this
      ensures core.errno != OK ==> Fails(s0, data)
      ensures core.errno == OK ==> p < p' <= |data| && Reads(s0, data, p', core, app, m)
    {
      hide Trans, Apply, Fails, Reads;
      ghost var c := core;
      DataIsThere(s0, data, p, core, app, marks);
      p', m := p, marks;
      if CountsBytes(core.state) {
        core := Count(core, 1);
        if core.errno != OK {
          ByteFails(s0, data, p, c, app, marks);
          return;
        }
      }
      if core.state.HeaderField? {
        p', m := FieldLoop(data, p, marks, s0, c);
      } else if core.state.HeaderValue? {
        p', m := ValueLoop(data, p, marks, s0, c);
      } else if Counting(core.state) {
        p', m := DataBytes(data, p, marks, s0);
      } else if core.state.BodyIdentityEof? {
        p', m := EofBytes(data, p, marks, s0);
      } else {
        m := OneByte(data, p, marks, s0, c);
        p' := p + 1;
      }
    }

    /** `http_parser_execute` until the first message is complete: the number of bytes
        read. It accepts what the bytes read one by one accept, and then leaves the
        same parser and the same request. */
    method Execute(data: string) returns (n: nat)
      requires Valid() && !app.complete && |data| <= MAX_HEADER_SIZE
      modifies this
      ensures Valid()
      ensures var s := RunAll(Sys(old(core), old(app)), data);
        && (old(core).errno == OK && data == "" ==> Sys(core, app) == AtEof(old(core), old(app)))
        && (old(core).errno != OK || data != "" ==>
              (core.errno == OK <==> s.core.errno == OK) && (core.errno == OK ==> Sys(core, app) == s))
    {
      hide Reads, Fails, Inv, Step;
      ghost var s0 := Sys(core, app);
      if core.errno != OK {
        RunStaysStopped(s0, data, 0, |data|);
        return 0;
      }
      if data == "" {
        n := EndOfInput();
        return;
      }
      var marks, p := StartMarks(core.state), 0;
      StartReads(s0, data);
      while p < |data|
        invariant p <= |data| && core.errno == OK && !app.complete
        invariant Reads(s0, data, p, core, app, marks)
        decreases |data| - p
      {
        p, marks := Turn(data, p, marks, s0);
        if core.errno != OK {
          FailedInv(s0, Sys(core, app), data);
          return p;
        }
        if app.complete {
          break;
        }
      }
      EndReads(s0, data, p, core, app, marks);
      Flush(marks, data, p);
      RunKeeps(s0, data, |data|);
      return p;
    }

    /** The call with no data: the connection was closed. */
    method EndOfInput() returns (n: nat)
      requires Valid() && core.errno == OK && !app.complete
      modifies this
      ensures Valid() && Sys(core, app) == AtEof(old(core), old(app))
    {
      if core.state.BodyIdentityEof? {
        app := app.(complete := true);
        n := 0;
      } else if core.state.Dead? || core.state.StartReq? {
        n := 0;
      } else {
        core := core.(errno := InvalidEofState);
        n := 1;
      }
    }
  }

  function AtEof(c: Core, a: App): Sys {
    if c.state.BodyIdentityEof? then Sys(c, a.(complete := true))
    else if c.state.Dead? || c.state.StartReq? then Sys(c, a)
    else Sys(c.(errno := InvalidEofState), a)
  }

  lemma DataIsThere(s0: Sys, data: string, p: nat, c: Core, a: App, m: Marks)
    requires Inv(s0) && Reads(s0, data, p, c, a, m) && c.errno == OK
    ensures Counting(c.state) ==> c.contentLength > 0
  {
    hide Step, Pending, MethodOk, FieldOk, ValueOk;
    RunKeeps(s0, data, p);
  }

  lemma StartReads(s0: Sys, data: string)
    ensures Reads(s0, data, 0, s0.core, s0.app, StartMarks(s0.core.state))
  {
    assert Before(0, 0);
    var s := s0.core.state;
    if s.HeaderField? {
      PendingOnly(Field, 0, s0.app, data, 0);
    } else if s.HeaderValue? {
      PendingOnly(Value, 0, s0.app, data, 0);
    } else if InUrl(s) {
      PendingOnly(Url, 0, s0.app, data, 0);
    }
  }

  lemma FailedInv(s0: Sys, s: Sys, data: string)
    requires Fails(s0, data) && s.core.errno != OK
    ensures Inv(s) && RunAll(s0, data).core.errno != OK
  {
  }

  /** At the end of the buffer, or of the message, the marks left are all before `p`
      and the byte-by-byte run is where they lead. */
  lemma EndReads(s0: Sys, data: string, p: nat, c: Core, a: App, m: Marks)
    requires Reads(s0, data, p, c, a, m) && 0 < p && c.errno == OK && (p == |data| || a.complete)
    ensures AtMostOneMark(m)
    ensures forall k :: Get(m, k).Some? ==> Get(m, k).value < p
    ensures RunAll(s0, data) == Sys(c, Pending(m, a, data, p))
  {
    FitsOneMark(m, c.state, p);
    PendingComplete(m, a, data, p);
    if p < |data| { RunStaysStopped(s0, data, p, |data|); }
  }


  /** Setting the body mark at `start` if it is not set yet: what is pending at a later
      `p` is what was pending and the bytes in between. */
  lemma BodyMark(a: App, marks: Marks, m: Marks, data: string, start: nat, p: nat)
    requires start < p <= |data| && (marks == NoMarks || exists q: nat :: q < start && marks == Only(Body, q))
    requires m == if marks.body.None? then marks.(body := Some(start)) else marks
    ensures m.body.Some? && m == Only(Body, m.body.value) && m.body.value < p
    ensures Pending(m, a, data, p) == Deliver(Pending(marks, a, data, start), Body, data[start..p])
    ensures Deliver(a, Body, data[m.body.value..p]) == Pending(m, a, data, p)
  {
    hide Deliver;
    PendingOnly(Body, m.body.value, a, data, p);
    if marks == NoMarks {
      NothingPending(a, data, start);
    } else {
      var q: nat :| q < start && marks == Only(Body, q);
      PendingOnly(Body, q, a, data, start);
      assert data[q..p] == data[q..start] + data[start..p];
      DeliverTwice(a, Body, data[q..start], data[start..p]);
    }
  }

  lemma DataMark(c: Core, a: App, marks: Marks, m: Marks, data: string, start: nat, n: nat)
    requires 0 < n <= c.contentLength && start + n <= |data| && Counting(c.state)
    requires marks == NoMarks || exists q: nat :: q < start && marks == Only(Body, q)
    requires m == if marks.body.None? then marks.(body := Some(start)) else marks
    ensures var p := start + n;
      && m.body.Some? && m.body.value < p && m == Only(Body, m.body.value)
      && Deliver(a, Body, data[m.body.value..p]) == Pending(m, a, data, p)
      && AfterDataApp(c, Pending(marks, a, data, start), data[start..p])
        == if n == c.contentLength && c.state.BodyIdentity? then Pending(m, a, data, p).(complete := true)
           else Pending(m, a, data, p)
  {
    hide Deliver, Pending;
    BodyMark(a, marks, m, data, start, start + n);
  }


  lemma GeneralLetter(c: Core, ch: char)
    requires c.state.HeaderValue? && c.headerState.General? && c.errno == OK
    ensures c.lenient || IsHeaderChar(ch) ==> ValueLetter(c, ch).core == c
    ensures !c.lenient && !IsHeaderChar(ch) ==> ValueLetter(c, ch).core.errno != OK
  {
  }

  lemma BadLetter(c: Core, ch: char)
    requires !c.lenient && !IsHeaderChar(ch)
    ensures ValueLetter(c, ch).core.errno != OK
  {
  }
}
