/** Marks into a longer buffer against marks into buffers of one byte. */
module HttpMarks {
  import opened Wrappers
  import opened HttpBytes
  import opened HttpStep
  import opened HttpRun

  /** Application data is carried over from one byte to the next. */
  predicate InBody(s: State) {
    s.BodyIdentity? || s.BodyIdentityEof? || s.ChunkData? || s.ChunkDataAlmostDone?
  }

  predicate Fresh(s: State) { !s.HeaderField? && !s.HeaderValue? && !InUrl(s) && !InBody(s) }

  // ----- which marks a byte leaves -------------------------------------------------

  function MarksOf(acts: seq<Act>, m: Marks, p: nat): Marks {
    if acts == [] then m
    else MarksOf(acts[1..], ApplyAct(acts[0], m, NewApp, "", p).0, p)
  }

  lemma {:induction false} ApplyMarks(acts: seq<Act>, m: Marks, a: App, data: string, p: nat)
    ensures Apply(acts, m, a, data, p).0 == MarksOf(acts, m, p)
    decreases |acts|
  {
    if acts != [] {
      var (m1, a1) := ApplyAct(acts[0], m, a, data, p);
      ApplyMarks(acts[1..], m1, a1, data, p);
    }
  }

  lemma {:induction false} MarksOfThen(acts: seq<Act>, more: seq<Act>, m: Marks, p: nat)
    ensures MarksOf(acts + more, m, p) == MarksOf(more, MarksOf(acts, m, p), p)
    decreases |acts|
  {
    if acts == [] {
      assert acts + more == more;
    } else {
      assert (acts + more)[1..] == acts[1..] + more;
      MarksOfThen(acts[1..], more, ApplyAct(acts[0], m, NewApp, "", p).0, p);
    }
  }

  /** The result of a byte read with no mark set: the marks are those the state it
      leads to leaves open, set at the byte. */
  ghost predicate Opens(r: Outcome, p: nat) {
    r.core.errno == OK ==> MarksOf(r.acts, NoMarks, p) == OpenMarks(r.core.state, p)
  }

  lemma OpensThen(acts: seq<Act>, r: Outcome, p: nat)
    requires Opens(r, p) && MarksOf(acts, NoMarks, p) == NoMarks
    ensures Opens(Then(acts, r), p)
  {
    MarksOfThen(acts, r.acts, NoMarks, p);
  }

  lemma MarksOfOne(act: Act, m: Marks, p: nat)
    ensures MarksOf([act], m, p) == ApplyAct(act, m, NewApp, "", p).0
  {
    assert MarksOf([act], m, p) == MarksOf([], ApplyAct(act, m, NewApp, "", p).0, p);
  }

  lemma HeadersDoneOpens(c: Core, ch: char, p: nat)
    requires c.errno == OK && Fresh(c.state)
    ensures Opens(HeadersDoneByte(c, ch), p)
  {
    MarksOfOne(OnMessageComplete, NoMarks, p);
  }

  lemma HeadersAlmostDoneOpens(c: Core, ch: char, p: nat)
    requires c.errno == OK && Fresh(c.state)
    ensures Opens(HeadersAlmostDoneByte(c, ch), p)
  {
    MarksOfOne(OnMessageComplete, NoMarks, p);
    var c1 := c.(state := HeadersDone, upgrade := c.flags.upgrade || c.meth == CONNECT);
    HeadersDoneOpens(c1, ch, p);
    MarksOfOne(OnHeadersComplete(ConnOf(c1)), NoMarks, p);
    OpensThen([OnHeadersComplete(ConnOf(c1))], HeadersDoneByte(c1, ch), p);
  }

  lemma FieldStartOpens(c: Core, ch: char, p: nat)
    requires c.errno == OK && Fresh(c.state)
    ensures Opens(HeaderFieldStartByte(c, ch), p)
  {
    HeadersAlmostDoneOpens(c.(state := HeadersAlmostDone), ch, p);
    MarksOfOne(Mark(Field), NoMarks, p);
  }

  lemma ValueStartOpens(c: Core, ch: char, next: Option<char>, p: nat)
    requires c.errno == OK
    ensures Opens(ValueStartByte(c, ch, next), p)
  {
    MarksOfOne(Mark(Value), NoMarks, p);
  }

  lemma DiscardWsOpens(c: Core, ch: char, next: Option<char>, p: nat)
    requires c.errno == OK && Fresh(c.state)
    ensures Opens(ValueDiscardWsByte(c, ch, next), p)
  {
    hide ValueStartByte;
    ValueStartOpens(c, ch, next, p);
  }

  lemma DiscardLwsOpens(c: Core, ch: char, p: nat)
    requires c.errno == OK && Fresh(c.state)
    ensures Opens(ValueDiscardLwsByte(c, ch), p)
  {
    FieldStartOpens(c.(state := HeaderFieldStart), ch, p);
    var acts := [Mark(Value), Emit(Value)];
    assert acts[1..] == [Emit(Value)];
    MarksOfOne(Emit(Value), Only(Value, p), p);
    OpensThen(acts, HeaderFieldStartByte(c.(state := HeaderFieldStart), ch), p);
  }

  lemma MethodOpens(c: Core, ch: char, p: nat)
    requires c.errno == OK && Fresh(c.state)
    ensures Opens(MethodByte(c, ch), p)
  {
    match NextMethod(c.meth, c.index, ch)
    case None =>
    case Some((m, s)) =>
      assert s == ReqMethod || s == ReqSpacesBeforeUrl;
      MarksOfOne(OnMethod(m), NoMarks, p);
  }

  lemma UrlOpens(c: Core, ch: char, p: nat)
    requires c.errno == OK && c.state.ReqSpacesBeforeUrl?
    ensures Opens(SpacesBeforeUrlByte(c, ch), p)
  {
    assert [Mark(Url)] + [] == [Mark(Url)];
    MarksOfOne(Mark(Url), NoMarks, p);
  }

  lemma StartOpens(c: Core, ch: char, p: nat)
    requires c.errno == OK && c.state.StartReq?
    ensures Opens(StartReqByte(c, ch), p)
  {
  }

  lemma VersionOpens(c: Core, ch: char, p: nat)
    requires c.errno == OK && InVersion(c.state)
    ensures Opens(VersionByte(c, ch), p)
  {
    hide IsNum;
    match NextVersion(c.state, ch, c.meth)
    case Stop(e) =>
    case To(s) => assert Fresh(s);
  }

  lemma ChunkOpens(c: Core, ch: char, p: nat)
    requires c.errno == OK && Fresh(c.state) && IsChunkState(c.state)
    ensures Opens(ChunkByte(c, ch), p)
  {
    assert ChunkByte(c, ch).acts == [];
  }

  lemma HeaderOpens(c: Core, ch: char, next: Option<char>, p: nat)
    requires c.errno == OK && Fresh(c.state) && InHeaders(c.state)
    ensures Opens(HeaderByte(c, ch, next), p)
  {
    match c.state
    case HeaderFieldStart => FieldStartOpens(c, ch, p);
    case HeaderValueDiscardWs => DiscardWsOpens(c, ch, next, p);
    case HeaderValueDiscardLws => DiscardLwsOpens(c, ch, p);
    case HeaderValueStart => ValueStartOpens(c, ch, next, p);
    case HeaderValueLws => ValueLwsOpens(c, ch, next, p);
    case HeadersAlmostDone => HeadersAlmostDoneOpens(c, ch, p);
    case HeadersDone => HeadersDoneOpens(c, ch, p);
    case _ =>
  }

  /** Read in a state with no mark set, a byte sets just the mark of the state that
      it leads to. */
  lemma FreshOpens(c: Core, ch: char, next: Option<char>, p: nat)
    requires c.errno == OK && Fresh(c.state)
    ensures Opens(Trans(c, ch, next), p)
  {
    if InVersion(c.state) {
      VersionOpens(c, ch, p);
    } else if InHeaders(c.state) {
      HeaderOpens(c, ch, next, p);
    } else if IsChunkState(c.state) {
      ChunkOpens(c, ch, p);
    } else if c.state.StartReq? {
      StartOpens(c, ch, p);
    } else if c.state.ReqMethod? {
      MethodOpens(c, ch, p);
    } else if c.state.ReqSpacesBeforeUrl? {
      UrlOpens(c, ch, p);
    } else if c.state.MessageDone? {
      MarksOfOne(OnMessageComplete, NoMarks, p);
    }
  }

  lemma ValueLwsOpens(c: Core, ch: char, next: Option<char>, p: nat)
    requires c.errno == OK && Fresh(c.state)
    ensures Opens(ValueLwsByte(c, ch, next), p)
  {
    if ch == ' ' || ch == '\t' {
      var c1 := if c.headerState == ContentLengthNum then c.(headerState := ContentLengthWs) else c;
      ValueStartOpens(c1.(state := HeaderValueStart), ch, next, p);
    } else {
      FieldStartOpens(c.(flags := WithHeader(c.flags, c.headerState), state := HeaderFieldStart), ch, p);
    }
  }

  // ----- actions on a long buffer and on one byte ---------------------------------------

  /** The same marks, all set at `p`. */
  function MovedTo(m: Marks, p: nat): Marks {
    Marks(if m.field.Some? then Some(p) else None, if m.value.Some? then Some(p) else None,
          if m.url.Some? then Some(p) else None, if m.body.Some? then Some(p) else None)
  }

  lemma ActMoved(act: Act, m1: Marks, a: App, data: string, p: nat)
    requires p < |data| && MovedTo(m1, 0) == m1
    ensures var (r, b) := ApplyAct(act, MovedTo(m1, p), a, data, p);
      var (r1, b1) := ApplyAct(act, m1, a, [data[p]], 0);
      b == b1 && r == MovedTo(r1, p) && MovedTo(r1, 0) == r1
  {
    assert data[p..p + 1] == [data[p]] == [data[p]][0..1];
    assert data[p..p] == [data[p]][0..0];
    match act
    case Mark(k) =>
    case Emit(k) => if Get(m1, k).Some? { assert Get(MovedTo(m1, p), k) == Some(p) && Get(m1, k) == Some(0); }
    case EmitThrough(k) => if Get(m1, k).Some? { assert Get(MovedTo(m1, p), k) == Some(p) && Get(m1, k) == Some(0); }
    case _ =>
  }

  lemma {:induction false} ApplyMoved(acts: seq<Act>, m1: Marks, a: App, data: string, p: nat)
    requires p < |data| && MovedTo(m1, 0) == m1
    ensures var (r, b) := Apply(acts, MovedTo(m1, p), a, data, p);
      var (r1, b1) := Apply(acts, m1, a, [data[p]], 0);
      b == b1 && r == MovedTo(r1, p) && MovedTo(r1, 0) == r1
    decreases |acts|
  {
    if acts != [] {
      ActMoved(acts[0], m1, a, data, p);
      var (m1', a') := ApplyAct(acts[0], m1, a, [data[p]], 0);
      ApplyMoved(acts[1..], m1', a', data, p);
    }
  }

  /** Where a mark may stand when the buffer is read up to `p`. */
  predicate Before(q: nat, p: nat) { q < p || (q == 0 && p == 0) }

  /** The marks that fit a state in the middle of a buffer. */
  ghost predicate Fits(m: Marks, s: State, p: nat) {
    if s.HeaderField? then exists q :: Before(q, p) && m == Only(Field, q)
    else if s.HeaderValue? then exists q :: Before(q, p) && m == Only(Value, q)
    else if InUrl(s) then exists q :: Before(q, p) && m == Only(Url, q)
    else if InBody(s) then m == NoMarks || exists q: nat :: q < p && m == Only(Body, q)
    else m == NoMarks
  }

  lemma FreshByte(c: Core, a: App, ch: char, data: string, p: nat, r: Outcome)
    requires p < |data| && data[p] == ch && Fresh(c.state) && c.errno == OK
    requires r == Trans(c, ch, Next(data, p)) && r.core.errno == OK
    ensures var (m, b) := Apply(r.acts, NoMarks, a, data, p);
      var (m1, b1) := Apply(r.acts, NoMarks, a, [ch], 0);
      Fits(m, r.core.state, p + 1) && Pending(m, b, data, p + 1) == Pending(m1, b1, [ch], 1)
  {
    var (m, b) := Apply(r.acts, NoMarks, a, data, p);
    var (m1, b1) := Apply(r.acts, NoMarks, a, [ch], 0);
    ApplyMoved(r.acts, NoMarks, a, data, p);
    ApplyMarks(r.acts, NoMarks, a, data, p);
    ApplyMarks(r.acts, NoMarks, a, [ch], 0);
    FreshOpens(c, ch, Next(data, p), p);
    FreshOpens(c, ch, Next(data, p), 0);
    OpenedPending(r.core.state, b, ch, data, p);
  }

  lemma OpenedPending(s: State, a: App, ch: char, data: string, p: nat)
    requires p < |data| && data[p] == ch
    ensures Pending(OpenMarks(s, p), a, data, p + 1) == Pending(OpenMarks(s, 0), a, [ch], 1)
    ensures Fits(OpenMarks(s, p), s, p + 1)
  {
    assert Before(p, p + 1);
    if s.HeaderField? {
      PendingMoved(Field, a, ch, data, p);
    } else if s.HeaderValue? {
      PendingMoved(Value, a, ch, data, p);
    } else if InUrl(s) {
      PendingMoved(Url, a, ch, data, p);
    } else {
      NothingPending(a, data, p + 1);
      NothingPending(a, [ch], 1);
    }
  }

  lemma PendingMoved(k: Kind, a: App, ch: char, data: string, p: nat)
    requires p < |data| && data[p] == ch
    ensures Pending(Only(k, p), a, data, p + 1) == Pending(Only(k, 0), a, [ch], 1)
  {
    assert data[p..p + 1] == [ch][0..1] == [ch];
    PendingOnly(k, p, a, data, p + 1);
    PendingOnly(k, 0, a, [ch], 1);
  }

  /** An open mark goes on over the byte. */
  lemma KeptByte(k: Kind, q: nat, a: App, data: string, p: nat)
    requires p < |data| && Before(q, p)
    ensures Pending(Only(k, q), a, data, p + 1)
      == Pending(Only(k, 0), Pending(Only(k, q), a, data, p), [data[p]], 1)
    ensures Pending(Only(k, q), a, data, p + 1) == Deliver(Pending(Only(k, q), a, data, p), k, [data[p]])
  {
    var a1 := Pending(Only(k, q), a, data, p);
    PendingOnly(k, q, a, data, p);
    PendingOnly(k, q, a, data, p + 1);
    PendingOnly(k, 0, a1, [data[p]], 1);
    assert [data[p]][0..1] == [data[p]];
    if q < p {
      assert data[q..p + 1] == data[q..p] + [data[p]];
      DeliverTwice(a, k, data[q..p], [data[p]]);
    } else {
      assert data[q..p + 1] == [data[p]];
    }
  }

  /** The byte ends the data of an open mark. */
  lemma EmittedByte(k: Kind, q: nat, a: App, data: string, p: nat)
    requires p < |data| && Before(q, p)
    ensures Apply([Emit(k)], Only(k, q), a, data, p) == (NoMarks, Deliver(a, k, data[q..p]))
    ensures var a1 := Pending(Only(k, q), a, data, p);
      Apply([Emit(k)], Only(k, 0), a1, [data[p]], 0) == (NoMarks, Deliver(a, k, data[q..p]))
  {
    var a1 := Pending(Only(k, q), a, data, p);
    PendingOnly(k, q, a, data, p);
    ApplyOne(Emit(k), Only(k, q), a, data, p);
    ApplyOne(Emit(k), Only(k, 0), a1, [data[p]], 0);
    assert [data[p]][0..0] == "";
    if q < p {
      assert data[q..p] + "" == data[q..p];
      DeliverTwice(a, k, data[q..p], "");
    } else {
      assert data[q..p] == "";
    }
  }

  lemma NothingPending(a: App, data: string, p: nat)
    ensures Pending(NoMarks, a, data, p) == a
  {
  }
}
