/** A buffer read with marks against the same buffer read byte by byte. */
module HttpRefine {
  import opened Wrappers
  import opened HttpBytes
  import opened HttpStep
  import opened HttpRun
  import opened HttpMarks

  /** The parser has read `p` bytes of the buffer, `m` being its marks. */
  ghost predicate Reads(s0: Sys, data: string, p: nat, c: Core, a: App, m: Marks) {
    p <= |data| && Run(s0, data, p) == Sys(c, Pending(m, a, data, p)) && Fits(m, c.state, p)
  }

  ghost predicate Fails(s0: Sys, data: string) { RunAll(s0, data).core.errno != OK }

  lemma FailsAt(s0: Sys, data: string, p: nat)
    requires p <= |data| && Run(s0, data, p).core.errno != OK
    ensures Fails(s0, data)
  {
    RunStaysStopped(s0, data, p, |data|);
  }

  lemma ByteFails(s0: Sys, data: string, p: nat, c: Core, a: App, m: Marks)
    requires p < |data| && Reads(s0, data, p, c, a, m) && c.errno == OK && !a.complete
    requires Counted(c).errno != OK || Trans(Counted(c), data[p], Next(data, p)).core.errno != OK
    ensures Fails(s0, data)
  {
    PendingComplete(m, a, data, p);
    StepFails(Run(s0, data, p), data[p], Next(data, p));
    FailsAt(s0, data, p + 1);
  }

  lemma PendingComplete(m: Marks, a: App, data: string, p: nat)
    ensures Pending(m, a, data, p).complete == a.complete
  {
  }

  /** What the byte at `p` leads to, when nothing fails. */
  lemma ByteGoes(s0: Sys, data: string, p: nat, c: Core, a: App, m: Marks)
    requires p < |data| && Reads(s0, data, p, c, a, m) && c.errno == OK && !a.complete
    requires Counted(c).errno == OK && Trans(Counted(c), data[p], Next(data, p)).core.errno == OK
    ensures var r := Trans(Counted(c), data[p], Next(data, p));
      var (m1, b1) := Apply(r.acts, StartMarks(c.state), Pending(m, a, data, p), [data[p]], 0);
      Run(s0, data, p + 1) == Sys(r.core, Pending(m1, b1, [data[p]], 1))
  {
    PendingComplete(m, a, data, p);
    assert Run(s0, data, p + 1) == Step(Run(s0, data, p), data[p], Next(data, p));
  }

  /** One byte of the big switch: its actions on the marks into the buffer leave
      parser and application where a buffer of that byte alone does. */
  lemma ByteRefines(s0: Sys, data: string, p: nat, c: Core, a: App, m: Marks)
    requires p < |data| && Reads(s0, data, p, c, a, m) && c.errno == OK && !a.complete
    requires Counted(c).errno == OK && Trans(Counted(c), data[p], Next(data, p)).core.errno == OK
    requires Fresh(c.state) || InUrl(c.state) || c.state.ChunkDataAlmostDone?
    ensures var r := Trans(Counted(c), data[p], Next(data, p));
      var (m', a') := Apply(r.acts, m, a, data, p);
      Reads(s0, data, p + 1, r.core, a', m')
  {
    ByteGoes(s0, data, p, c, a, m);
    var r := Trans(Counted(c), data[p], Next(data, p));
    if Fresh(c.state) {
      FreshByteRefines(data, p, c, a, m, r);
    } else {
      OpenByteRefines(data, p, c, a, m, r);
    }
  }

  lemma FreshByteRefines(data: string, p: nat, c: Core, a: App, m: Marks, r: Outcome)
    requires p < |data| && Fresh(c.state) && Fits(m, c.state, p) && Counted(c).errno == OK
    requires r == Trans(Counted(c), data[p], Next(data, p)) && r.core.errno == OK
    ensures SameEnd(data, p, c.state, a, m, r)
  {
    NothingPending(a, data, p);
    FreshByte(Counted(c), a, data[p], data, p, r);
  }

  lemma OpenByteRefines(data: string, p: nat, c: Core, a: App, m: Marks, r: Outcome)
    requires p < |data| && Fits(m, c.state, p) && Counted(c).errno == OK
    requires InUrl(c.state) || c.state.ChunkDataAlmostDone?
    requires r == Trans(Counted(c), data[p], Next(data, p)) && r.core.errno == OK
    ensures SameEnd(data, p, c.state, a, m, r)
  {
    if InUrl(c.state) {
      TransUrl(Counted(c), data[p], Next(data, p));
      UrlActs(Counted(c), data[p]);
      UrlByteRefines(data, p, c.state, a, m, r);
    } else {
      TransChunkEnd(c, data[p], Next(data, p));
      ChunkEndRefines(data, p, a, m, r);
    }
  }

  /** The actions `r` on the marks and on one byte lead to the same application. */
  ghost predicate SameEnd(data: string, p: nat, s: State, a: App, m: Marks, r: Outcome)
    requires p < |data|
  {
    var (m', a') := Apply(r.acts, m, a, data, p);
    var (m1, b1) := Apply(r.acts, StartMarks(s), Pending(m, a, data, p), [data[p]], 0);
    Fits(m', r.core.state, p + 1) && Pending(m', a', data, p + 1) == Pending(m1, b1, [data[p]], 1)
  }

  lemma UrlByteRefines(data: string, p: nat, s: State, a: App, m: Marks, r: Outcome)
    requires p < |data| && InUrl(s) && Fits(m, s, p)
    requires (r.acts == [] && InUrl(r.core.state)) || (r.acts == [Emit(Url)] && Fresh(r.core.state))
    ensures SameEnd(data, p, s, a, m, r)
  {
    var q: nat :| Before(q, p) && m == Only(Url, q);
    if r.acts == [] {
      KeptByte(Url, q, a, data, p);
      assert Before(q, p + 1);
    } else {
      EmittedByte(Url, q, a, data, p);
      NothingPending(Deliver(a, Url, data[q..p]), data, p + 1);
      NothingPending(Deliver(a, Url, data[q..p]), [data[p]], 1);
    }
  }

  lemma ChunkEndRefines(data: string, p: nat, a: App, m: Marks, r: Outcome)
    requires p < |data| && Fits(m, ChunkDataAlmostDone, p) && r.acts == [Emit(Body)] && Fresh(r.core.state)
    ensures SameEnd(data, p, ChunkDataAlmostDone, a, m, r)
  {
    var a1 := Pending(m, a, data, p);
    ApplyOne(Emit(Body), NoMarks, a1, [data[p]], 0);
    NothingPending(a1, [data[p]], 1);
    ApplyOne(Emit(Body), m, a, data, p);
    NothingPending(a1, data, p + 1);
    if m == NoMarks {
      NothingPending(a, data, p);
    } else {
      var q: nat :| q < p && m == Only(Body, q);
      PendingOnly(Body, q, a, data, p);
    }
  }

  lemma UrlActs(c: Core, ch: char)
    requires InUrl(c.state) && c.errno == OK
    ensures var r := UrlByte(c, ch); r.core.errno == OK ==>
      (r.acts == [] && InUrl(r.core.state)) || (r.acts == [Emit(Url)] && Fresh(r.core.state))
  {
  }

  lemma TransUrl(c: Core, ch: char, next: Option<char>)
    requires InUrl(c.state)
    ensures Trans(c, ch, next) == UrlByte(c, ch)
  {
  }

  lemma TransChunkEnd(c: Core, ch: char, next: Option<char>)
    requires c.state.ChunkDataAlmostDone? && Trans(c, ch, next).core.errno == OK
    ensures Trans(c, ch, next).acts == [Emit(Body)] && Fresh(Trans(c, ch, next).core.state)
  {
  }

  // ----- loops over many bytes of one state ------------------------------------------

  /** The kind of data a header field name or value is. */
  function OpenKind(s: State): Kind
    requires s.HeaderField? || s.HeaderValue?
  {
    if s.HeaderField? then Field else Value
  }

  lemma KeepByteRefines(s0: Sys, data: string, p: nat, c: Core, a: App, q: nat)
    requires c.state.HeaderField? || c.state.HeaderValue?
    requires p < |data| && Reads(s0, data, p, c, a, Only(OpenKind(c.state), q)) && c.errno == OK && !a.complete
    requires Counted(c).errno == OK
    requires var r := Trans(Counted(c), data[p], Next(data, p)); r.core.errno == OK && r.acts == [] && r.core.state == c.state
    ensures Reads(s0, data, p + 1, Trans(Counted(c), data[p], Next(data, p)).core, a, Only(OpenKind(c.state), q))
  {
    hide Trans;
    ByteGoes(s0, data, p, c, a, Only(OpenKind(c.state), q));
    assert Before(q, p);
    KeptByte(OpenKind(c.state), q, a, data, p);
    assert Before(q, p + 1);
  }

  lemma EmitByteRefines(s0: Sys, data: string, p: nat, c: Core, a: App, q: nat)
    requires c.state.HeaderField? || c.state.HeaderValue?
    requires p < |data| && Reads(s0, data, p, c, a, Only(OpenKind(c.state), q)) && c.errno == OK && !a.complete
    requires Counted(c).errno == OK
    requires var r := Trans(Counted(c), data[p], Next(data, p));
      r.core.errno == OK && r.acts == [Emit(OpenKind(c.state))] && Fresh(r.core.state)
    ensures q <= p
    ensures Reads(s0, data, p + 1, Trans(Counted(c), data[p], Next(data, p)).core,
                  Deliver(a, OpenKind(c.state), data[q..p]), NoMarks)
  {
    hide Trans;
    var k := OpenKind(c.state);
    ByteGoes(s0, data, p, c, a, Only(k, q));
    assert Before(q, p);
    EmittedByte(k, q, a, data, p);
    NothingPending(Deliver(a, k, data[q..p]), data, p + 1);
    NothingPending(Deliver(a, k, data[q..p]), [data[p]], 1);
  }

  /** In a loop that counts its bytes only at its end: `core` was counted once at
      `start`, and the bytes up to `p` are read. */
  ghost predicate BulkReads(s0: Sys, data: string, start: nat, p: nat, core: Core, a: App, m: Marks) {
    && start <= p && core.nread >= 1 && core.errno == OK
    && var n := core.nread - 1 + (p - start);
       if n <= MAX_HEADER_SIZE then Reads(s0, data, p, core.(nread := n), a, m) else Fails(s0, data)
  }

  lemma BulkStart(s0: Sys, data: string, start: nat, c: Core, a: App, m: Marks)
    requires Reads(s0, data, start, c, a, m) && Counted(c).errno == OK && c.errno == OK && CountsBytes(c.state)
    ensures BulkReads(s0, data, start, start, Counted(c), a, m)
  {
    hide Reads;
    assert Counted(c).(nread := Counted(c).nread - 1) == c;
  }

  /** The one mark of a header state. */
  lemma OpenMark(s0: Sys, data: string, p: nat, c: Core, a: App, m: Marks) returns (q: nat)
    requires Reads(s0, data, p, c, a, m) && (c.state.HeaderField? || c.state.HeaderValue?)
    ensures Before(q, p) && m == Only(OpenKind(c.state), q)
  {
    if c.state.HeaderField? {
      q :| Before(q, p) && m == Only(Field, q);
    } else {
      q :| Before(q, p) && m == Only(Value, q);
    }
  }

  /** The count after the loop. */
  lemma BulkCount(s0: Sys, data: string, start: nat, p: nat, core: Core, a: App, m: Marks)
    requires BulkReads(s0, data, start, p, core, a, m) && start <= p <= |data| && CountsBytes(core.state)
    ensures core.nread >= 1
    ensures Count(core, p - start).errno != OK && !a.complete && p < |data| ==> Fails(s0, data)
    ensures Count(core, p - start).errno == OK ==>
      var c := core.(nread := core.nread - 1 + (p - start));
      Reads(s0, data, p, c, a, m) && Counted(c) == Count(core, p - start)
    ensures start < p && Count(core, p - 1 - start).errno != OK ==> Fails(s0, data)
    ensures start < p && Count(core, p - 1 - start).errno == OK ==> Reads(s0, data, p, Count(core, p - 1 - start), a, m)
  {
    var c := core.(nread := core.nread - 1 + (p - start));
    if Count(core, p - start).errno != OK && !a.complete && p < |data| && c.nread <= MAX_HEADER_SIZE {
      ByteFails(s0, data, p, c, a, m);
    }
  }

  // ----- field names --------------------------------------------------------------------

  lemma FieldLetterNread(c: Core, t: char, n: nat)
    ensures FieldLetter(c.(nread := n), t) == FieldLetter(c, t).(nread := n)
    ensures FieldLetter(c, t).state == c.state && FieldLetter(c, t).errno == c.errno && FieldLetter(c, t).nread == c.nread
  {
  }

  lemma FieldBulk(s0: Sys, data: string, start: nat, p: nat, core: Core, a: App, q: nat)
    requires BulkReads(s0, data, start, p, core, a, Only(Field, q)) && p < |data| && core.state.HeaderField?
    requires Token(data[p]) != '\0' && !a.complete
    ensures BulkReads(s0, data, start, p + 1, FieldLetter(core, Token(data[p])), a, Only(Field, q))
  {
    hide FieldLetter, Trans, Pending, Fits, Step;
    var n, t := core.nread - 1 + (p - start), Token(data[p]);
    FieldLetterNread(core, t, n + 1);
    if n <= MAX_HEADER_SIZE {
      var c := core.(nread := n);
      if n + 1 > MAX_HEADER_SIZE {
        ByteFails(s0, data, p, c, a, Only(Field, q));
      } else {
        TransField(Counted(c), data[p], Next(data, p));
        KeepByteRefines(s0, data, p, c, a, q);
      }
    }
  }

  lemma TransField(c: Core, ch: char, next: Option<char>)
    requires c.state.HeaderField? && c.errno == OK
    ensures Token(ch) != '\0' ==> Trans(c, ch, next) == Outcome(FieldLetter(c, Token(ch)), [])
    ensures Token(ch) == '\0' && ch == ':' ==>
      Trans(c, ch, next) == Outcome(c.(state := HeaderValueDiscardWs), [Emit(Field)])
    ensures Token(ch) == '\0' && ch != ':' ==> Trans(c, ch, next).core.errno != OK
  {
    assert Trans(c, ch, next) == HeaderFieldByte(c, ch);
  }

  // ----- values ----------------------------------------------------------------------------

  lemma ValueLetterNread(c: Core, ch: char, n: nat)
    ensures ValueLetter(c.(nread := n), ch).acts == [] == ValueLetter(c, ch).acts
    ensures ValueLetter(c.(nread := n), ch).core == ValueLetter(c, ch).core.(nread := n)
    ensures ValueLetter(c, ch).core.state == c.state && ValueLetter(c, ch).core.nread == c.nread
  {
    hide NextValue, IsHeaderChar, DigitStep;
    DigitStepNread(c, ch, n);
  }

  lemma DigitStepNread(c: Core, ch: char, n: nat)
    ensures DigitStep(c.(nread := n), ch).acts == [] == DigitStep(c, ch).acts
    ensures DigitStep(c.(nread := n), ch).core == DigitStep(c, ch).core.(nread := n)
    ensures DigitStep(c, ch).core.state == c.state && DigitStep(c, ch).core.nread == c.nread
  {
  }

  lemma TransValue(c: Core, ch: char, next: Option<char>)
    requires c.state.HeaderValue? && c.errno == OK
    ensures ch != CR && ch != LF ==> Trans(c, ch, next) == ValueLetter(c, ch)
    ensures ch == CR ==> Trans(c, ch, next) == Outcome(c.(state := HeaderAlmostDone), [Emit(Value)])
    ensures ch == LF ==> Trans(c, ch, next) == Outcome(c.(state := HeaderValueLws), [Emit(Value)])
  {
    assert Trans(c, ch, next) == HeaderValueByte(c, ch);
  }

  lemma ValueBulk(s0: Sys, data: string, start: nat, p: nat, core: Core, a: App, q: nat)
    requires BulkReads(s0, data, start, p, core, a, Only(Value, q)) && p < |data| && core.state.HeaderValue?
    requires data[p] != CR && data[p] != LF && !a.complete
    ensures var r := ValueLetter(core, data[p]);
      if r.core.errno == OK then BulkReads(s0, data, start, p + 1, r.core, a, Only(Value, q)) else Fails(s0, data)
  {
    hide ValueLetter, Trans, Pending, Fits, Step;
    var n := core.nread - 1 + (p - start);
    ValueLetterNread(core, data[p], n + 1);
    if n <= MAX_HEADER_SIZE {
      var c := core.(nread := n);
      if Counted(c).errno != OK {
        ByteFails(s0, data, p, c, a, Only(Value, q));
      } else {
        TransValue(Counted(c), data[p], Next(data, p));
        if ValueLetter(core, data[p]).core.errno != OK {
          ByteFails(s0, data, p, c, a, Only(Value, q));
        } else {
          KeepByteRefines(s0, data, p, c, a, q);
        }
      }
    }
  }

  // ----- bodies -------------------------------------------------------------------------------

  predicate Counting(s: State) { s.BodyIdentity? || s.ChunkData? }

  /** The parser after `n` bytes of counted data. */
  function AfterData(c: Core, n: nat): Core
    requires n <= c.contentLength
  {
    var c1 := c.(contentLength := c.contentLength - n);
    if n == 0 || c1.contentLength > 0 then c1
    else c1.(state := if c.state.ChunkData? then ChunkDataAlmostDone else MessageDone)
  }

  function AfterDataApp(c: Core, a: App, s: string): App
    requires |s| <= c.contentLength
  {
    var b := if s == "" then a else Deliver(a, Body, s);
    if |s| > 0 && |s| == c.contentLength && c.state.BodyIdentity? then b.(complete := true) else b
  }

  lemma TransData(c: Core, ch: char, next: Option<char>)
    requires Counting(c.state) && c.contentLength > 0
    ensures Trans(c, ch, next) == Outcome(AfterData(c, 1),
      if c.contentLength == 1 && c.state.BodyIdentity? then [Mark(Body), EmitThrough(Body), OnMessageComplete]
      else [Mark(Body)])
  {
    assert Trans(c, ch, next) == DataByte(c, ch);
  }

  lemma DataStep(s: Sys, ch: char, next: Option<char>)
    requires !Stopped(s) && Counting(s.core.state) && s.core.contentLength > 0
    ensures Step(s, ch, next) == Sys(AfterData(s.core, 1), AfterDataApp(s.core, s.app, [ch]))
  {
    hide Trans, DataByte, Apply, Pending, Deliver;
    var c := s.core;
    TransData(c, ch, next);
    DataActs(c.contentLength == 1 && c.state.BodyIdentity?, s.app, ch);
  }

  lemma DataActs(last: bool, a: App, ch: char)
    ensures var acts := if last then [Mark(Body), EmitThrough(Body), OnMessageComplete] else [Mark(Body)];
      var (m, b) := Apply(acts, NoMarks, a, [ch], 0);
      Pending(m, b, [ch], 1) == (if last then Deliver(a, Body, [ch]).(complete := true) else Deliver(a, Body, [ch]))
  {
    hide Pending;
    var b := Deliver(a, Body, [ch]);
    assert [ch][0..1] == [ch];
    ApplyOne(Mark(Body), NoMarks, a, [ch], 0);
    if last {
      var acts := [Mark(Body), EmitThrough(Body), OnMessageComplete];
      assert acts[1..] == [EmitThrough(Body), OnMessageComplete] && acts[1..][1..] == [OnMessageComplete];
      ApplyOne(OnMessageComplete, NoMarks, b, [ch], 0);
      NothingPending(b.(complete := true), [ch], 1);
    } else {
      PendingOnly(Body, 0, a, [ch], 1);
    }
  }

  lemma {:induction false} DataRun(s0: Sys, data: string, p: nat, c: Core, a: App, n: nat)
    requires p + n <= |data| && Run(s0, data, p) == Sys(c, a) && c.errno == OK && !a.complete
    requires Counting(c.state) && n <= c.contentLength
    ensures Run(s0, data, p + n) == Sys(AfterData(c, n), AfterDataApp(c, a, data[p..p + n]))
  {
    hide Step;
    if n > 0 {
      DataRun(s0, data, p, c, a, n - 1);
      var s := Run(s0, data, p + n - 1);
      DataStep(s, data[p + n - 1], Next(data, p + n - 1));
      var front, last := data[p..p + n - 1], [data[p + n - 1]];
      assert data[p..p + n] == front + last;
      DeliverTwice(a, Body, front, last);
    }
  }

  lemma EofStep(s: Sys, ch: char, next: Option<char>)
    requires !Stopped(s) && s.core.state.BodyIdentityEof?
    ensures Step(s, ch, next) == Sys(s.core, Deliver(s.app, Body, [ch]))
  {
    assert Trans(s.core, ch, next) == Outcome(s.core, [Mark(Body)]);
    ApplyOne(Mark(Body), NoMarks, s.app, [ch], 0);
    PendingOnly(Body, 0, s.app, [ch], 1);
    assert [ch][0..1] == [ch];
  }

  lemma {:induction false} EofRun(s0: Sys, data: string, p: nat, c: Core, a: App, n: nat)
    requires p + n <= |data| && Run(s0, data, p) == Sys(c, a) && c.errno == OK && !a.complete
    requires c.state.BodyIdentityEof?
    ensures Run(s0, data, p + n) == Sys(c, Deliver(a, Body, data[p..p + n]))
  {
    hide Step;
    if n > 0 {
      EofRun(s0, data, p, c, a, n - 1);
      EofStep(Run(s0, data, p + n - 1), data[p + n - 1], Next(data, p + n - 1));
      var front, last := data[p..p + n - 1], [data[p + n - 1]];
      assert data[p..p + n] == front + last;
      DeliverTwice(a, Body, front, last);
    } else {
      assert data[p..p] == "";
    }
  }
}
