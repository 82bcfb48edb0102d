/** Trees of sections as they are written, and what they compile and render to: the
    lines of lone tags cut, and the rest evaluated. */
module MustacheWritten {
  import opened Wrappers
  import opened MustacheTree
  import opened MustacheProgram
  import opened MustacheScan
  import opened MustacheNest
  import opened MustacheTrim
  import opened MustacheText
  import opened MustacheParse
  import MustacheRender

  // ----- lines of lone tags, in the texts ---------------------------------------------------

  /** A text without the blanks at its end, and without those at its start. */
  function Front(t: string): string { if t != "" && t[|t| - 1] == ' ' then Front(t[..|t| - 1]) else t }

  function Back(t: string): string { if t != "" && t[0] == ' ' then Back(t[1..]) else t }

  /** Before a tag: blanks behind a line end, or from the start of the template. */
  predicate BeginsALine(t: string, first: bool) {
    var f := Front(t);
    if f == "" then first else f[|f| - 1] == '\n'
  }

  /** After a tag: blanks up to a line end, or to the end of the template. */
  predicate EndsALine(t: string, last: bool) {
    var b := Back(t);
    if b == "" then last else b[0] == '\n' || (|b| > 1 && b[0] == '\r' && b[1] == '\n')
  }

  /** A text behind a lone tag, without the rest of the tag's line. */
  function AfterItsLine(t: string): string
    requires EndsALine(t, true)
  {
    var b := Back(t);
    if b == "" then t else if b[0] == '\n' then b[1..] else b[2..]
  }

  /** The text before the tag `i`, or after the last one. */
  function TextAt(bits: seq<Bit>, last: string, i: nat): string
    requires i <= |bits|
  {
    if i < |bits| then bits[i].text else last
  }

  predicate Lone(bits: seq<Bit>, last: string, i: nat)
    requires i < |bits|
  {
    && !bits[i].mark.Shown? && !bits[i].mark.Raw?
    && BeginsALine(bits[i].text, i == 0) && EndsALine(TextAt(bits, last, i + 1), i + 1 == |bits|)
  }

  /** A text without the rest of the line of a lone tag before it, and without the blanks
      before a lone tag behind it. */
  function CutText(bits: seq<Bit>, last: string, i: nat): string
    requires i <= |bits|
  {
    var s := HeadCut(bits, last, i);
    if i < |bits| && Lone(bits, last, i) then Front(s) else s
  }

  function HeadCut(bits: seq<Bit>, last: string, i: nat): string
    requires i <= |bits|
  {
    if i > 0 && Lone(bits, last, i - 1) then AfterItsLine(TextAt(bits, last, i)) else TextAt(bits, last, i)
  }

  lemma {:induction false} FrontIs(t: string)
    ensures |Front(t)| <= |t| && Front(t) == t[..|Front(t)|] && (forall k :: |Front(t)| <= k < |t| ==> t[k] == ' ')
    ensures Front(t) != "" ==> Front(t)[|Front(t)| - 1] != ' '
  {
    if t != "" && t[|t| - 1] == ' ' { FrontIs(t[..|t| - 1]); }
  }

  lemma {:induction false} BackIs(t: string)
    ensures |Back(t)| <= |t| && Back(t) == t[|t| - |Back(t)|..] && (forall k :: 0 <= k < |t| - |Back(t)| ==> t[k] == ' ')
    ensures Back(t) != "" ==> Back(t)[0] != ' '
  {
    if t != "" && t[0] == ' ' {
      BackIs(t[1..]);
      forall k | 0 <= k < |t| - |Back(t)| ensures t[k] == ' ' { if k > 0 { assert t[k] == t[1..][k - 1]; } }
    }
  }

  // ----- the same in the body ------------------------------------------------------------------

  predicate StandsAt(body: string, first: nat, second: nat, t: string) {
    first <= second <= |body| && body[first..second] == t
  }

  lemma StandsMeans(body: string, first: nat, second: nat, t: string)
    requires StandsAt(body, first, second, t)
    ensures second == first + |t| && forall j :: first <= j < second ==> body[j] == t[j - first]
  {
    assert forall j :: first <= j < second ==> body[j] == body[first..second][j - first];
  }

  lemma TailIs(body: string, first: nat, second: nat, t: string)
    requires StandsAt(body, first, second, t)
    ensures TailStart(body, first, second) == first + |Front(t)|
  {
    hide Front, TailStart;
    StandsMeans(body, first, second, t);
    FrontIs(t);
    var n := |Front(t)|;
    assert n > 0 ==> body[first + n - 1] == Front(t)[n - 1];
    assert forall j :: first + n <= j < second ==> body[j] == ' ';
  }

  lemma HeadIs(body: string, first: nat, second: nat, t: string)
    requires StandsAt(body, first, second, t)
    ensures HeadEnd(body, first, second) == second - |Back(t)|
  {
    hide Back, HeadEnd;
    StandsMeans(body, first, second, t);
    BackIs(t);
    var n := |t| - |Back(t)|;
    assert n < |t| ==> body[first + n] == Back(t)[0];
    assert forall j :: first <= j < first + n ==> body[j] == ' ';
  }

  /** The fragments hold the texts, and a tag follows each but the last. */
  predicate FragmentsAre(body: string, fs: Fragments, bits: seq<Bit>, last: string) {
    && |fs| == |bits| + 1
    && (forall i :: 0 <= i < |fs| ==> StandsAt(body, fs[i].0, fs[i].1, TextAt(bits, last, i)))
    && (forall i :: 0 <= i < |bits| ==> fs[i].1 < |body| && body[fs[i].1] == '{')
    && fs[|bits|].1 == |body|
  }

  predicate TypesAre(actions: seq<Action>, bits: seq<Bit>) {
    |actions| == |bits| + 1 && forall i :: 0 <= i < |bits| ==> actions[i].t == TypeOf(bits[i].mark)
  }

  lemma BeginsIs(body: string, fs: Fragments, bits: seq<Bit>, last: string, i: nat)
    requires FragmentsAre(body, fs, bits, last) && GoodFragments(body, fs) && i < |fs|
    ensures BeginsLine(body, fs, i) <==> BeginsALine(TextAt(bits, last, i), i == 0)
  {
    hide Front, TailStart;
    var t := TextAt(bits, last, i);
    TailIs(body, fs[i].0, fs[i].1, t);
    StandsMeans(body, fs[i].0, fs[i].1, t);
    FrontIs(t);
  }

  /** What stands behind the blanks of a text. */
  lemma BackStands(body: string, first: nat, second: nat, t: string)
    requires StandsAt(body, first, second, t)
    ensures var k, b := HeadEnd(body, first, second), Back(t);
      && k == second - |b| && StandsAt(body, k, second, b)
      && (|b| > 0 ==> body[k] == b[0]) && (|b| > 1 ==> body[k + 1] == b[1])
  {
    hide Back, HeadEnd;
    HeadIs(body, first, second, t);
    BackIs(t);
    var k := second - |Back(t)|;
    assert body[k..second] == body[first..second][k - first..];
    StandsMeans(body, k, second, Back(t));
  }

  lemma LineEndIs(body: string, k: nat, second: nat, b: string)
    requires StandsAt(body, k, second, b) && b != "" && (second < |body| ==> body[second] == '{')
    ensures EndsLine(body, k) <==> b[0] == '\n' || (|b| > 1 && b[0] == '\r' && b[1] == '\n')
    ensures EndsLine(body, k) ==>
      var n := if b[0] == '\n' then 1 else 2; StandsAt(body, k + n, second, b[n..]) && body[k + n - 1] == '\n'
  {
    StandsMeans(body, k, second, b);
    assert body[k] == b[0] && (|b| > 1 ==> body[k + 1] == b[1]);
    var n := if b[0] == '\n' then 1 else 2;
    if n <= |b| { assert body[k + n..second] == body[k..second][n..]; }
  }

  lemma EndsIs(body: string, fs: Fragments, bits: seq<Bit>, last: string, i: nat)
    requires FragmentsAre(body, fs, bits, last) && GoodFragments(body, fs) && i < |bits|
    ensures EndsItsLine(body, fs, i) <==> EndsALine(TextAt(bits, last, i + 1), i + 1 == |bits|)
    ensures EndsItsLine(body, fs, i) ==>
      var cut := AfterLine(body, fs, i);
      && StandsAt(body, cut, fs[i + 1].1, AfterItsLine(TextAt(bits, last, i + 1)))
      && fs[i + 1].0 <= cut && (fs[i + 1].0 < cut ==> body[cut - 1] != ' ')
  {
    hide Back, HeadEnd, StandsAt, EndsLine, TextAt, GoodFragments;
    var t, f := TextAt(bits, last, i + 1), fs[i + 1];
    AllStand(body, fs, bits, last, i + 1);
    BackStands(body, f.0, f.1, t);
    if Back(t) != "" { LineEndIs(body, HeadEnd(body, f.0, f.1), f.1, Back(t)); }
  }

  lemma AllStand(body: string, fs: Fragments, bits: seq<Bit>, last: string, i: nat)
    requires FragmentsAre(body, fs, bits, last) && i <= |bits|
    ensures StandsAt(body, fs[i].0, fs[i].1, TextAt(bits, last, i)) && fs[i].0 <= fs[i].1 <= |body|
    ensures fs[i].1 < |body| ==> body[fs[i].1] == '{'
  {
  }

  lemma AloneIs(body: string, fs: Fragments, actions: seq<Action>, bits: seq<Bit>, last: string, i: nat)
    requires FragmentsAre(body, fs, bits, last) && GoodFragments(body, fs) && TypesAre(actions, bits) && i <= |bits|
    ensures Alone(body, fs, actions, i) <==> i < |bits| && Lone(bits, last, i)
  {
    hide BeginsLine, EndsItsLine, BeginsALine, EndsALine, FragmentsAre, GoodFragments;
    FragmentCount(body, fs, bits, last);
    if i < |bits| {
      BeginsIs(body, fs, bits, last, i);
      EndsIs(body, fs, bits, last, i);
    }
  }

  lemma FragmentCount(body: string, fs: Fragments, bits: seq<Bit>, last: string)
    requires FragmentsAre(body, fs, bits, last)
    ensures |fs| == |bits| + 1
  {
  }

  /** The start of a fragment after the cut. */
  lemma StartIs(body: string, fs: Fragments, actions: seq<Action>, bits: seq<Bit>, last: string, i: nat)
    requires FragmentsAre(body, fs, bits, last) && GoodFragments(body, fs) && TypesAre(actions, bits) && i <= |bits|
    requires |fs| == |actions|
    ensures var first := TrimmedFragment(body, fs, actions, i).0;
      && fs[i].0 <= first && (fs[i].0 < first ==> body[first - 1] != ' ')
      && StandsAt(body, first, fs[i].1, HeadCut(bits, last, i))
  {
    hide Alone, Lone, AfterLine, AfterItsLine, EndsItsLine, EndsALine, FragmentsAre, GoodFragments, StandsAt, TextAt;
    AllStand(body, fs, bits, last, i);
    AloneIs(body, fs, actions, bits, last, i);
    if i > 0 {
      AloneIs(body, fs, actions, bits, last, i - 1);
      EndsIs(body, fs, bits, last, i - 1);
      if Lone(bits, last, i - 1) { LoneEnds(bits, last, i - 1); }
    }
  }

  lemma TailCut(body: string, from: nat, first: nat, second: nat, s: string)
    requires StandsAt(body, first, second, s) && from <= first && (from < first ==> body[first - 1] != ' ')
    ensures StandsAt(body, first, TailStart(body, from, second), Front(s))
  {
    hide Front, TailStart;
    TailIs(body, first, second, s);
    TailSame(body, from, first, second);
    FrontIs(s);
    StandsMeans(body, first, second, s);
    assert body[first..first + |Front(s)|] == body[first..second][..|Front(s)|];
  }

  /** What is left of a fragment is what is left of its text. */
  lemma CutIs(body: string, fs: Fragments, actions: seq<Action>, bits: seq<Bit>, last: string, i: nat)
    requires FragmentsAre(body, fs, bits, last) && GoodFragments(body, fs) && TypesAre(actions, bits) && i <= |bits|
    requires |fs| == |actions|
    ensures var (first, second) := TrimmedFragment(body, fs, actions, i); StandsAt(body, first, second, CutText(bits, last, i))
  {
    hide Alone, Lone, Front, TailStart, AfterLine, HeadCut, EndsItsLine, EndsALine, FragmentsAre, GoodFragments, StandsAt, TextAt;
    StartIs(body, fs, actions, bits, last, i);
    AloneIs(body, fs, actions, bits, last, i);
    if i < |bits| && Lone(bits, last, i) {
      TailCut(body, fs[i].0, TrimmedFragment(body, fs, actions, i).0, fs[i].1, HeadCut(bits, last, i));
    }
  }

  lemma LoneEnds(bits: seq<Bit>, last: string, i: nat)
    requires i < |bits| && Lone(bits, last, i)
    ensures EndsALine(TextAt(bits, last, i + 1), i + 1 == |bits|) && EndsALine(TextAt(bits, last, i + 1), true)
  {
  }

  /** The blanks at the end are the same after a cut at the start. */
  lemma TailSame(body: string, first: nat, cut: nat, second: nat)
    requires first <= cut <= second <= |body| && (first < cut ==> body[cut - 1] != ' ')
    ensures TailStart(body, cut, second) == TailStart(body, first, second)
  {
  }

  // ----- trees as they are written ---------------------------------------------------------------

  /** A tag or a section with the text before it; a section also has the text before its
      closing tag. */
  datatype Entry =
    | Leaf(text: string, mark: Mark, pad: Pad)
    | Block(text: string, name: string, inverted: bool, body: seq<Entry>, last: string, open: Pad, close: Pad)

  function BitsOf(entries: seq<Entry>): seq<Bit>
    decreases entries, 0
  {
    if entries == [] then [] else EntryBits(entries[0]) + BitsOf(entries[1..])
  }

  function EntryBits(x: Entry): seq<Bit>
    decreases x, 0
  {
    match x
    case Leaf(text, mark, pad) => [Bit(text, mark, pad)]
    case Block(text, name, inverted, body, last, open, close) =>
      [Bit(text, if inverted then Inverts(name) else Opens(name), open)] + BitsOf(body) + [Bit(last, Closes(name), close)]
  }

  predicate IsLeafMark(m: Mark) { m.Shown? || m.Raw? || m.Includes? || m.Comment? }

  predicate LeavesAreTags(entries: seq<Entry>)
    decreases entries
  {
    forall i :: 0 <= i < |entries| ==>
      match entries[i]
      case Leaf(_, mark, _) => IsLeafMark(mark)
      case Block(_, _, _, body, _, _, _) => LeavesAreTags(body)
  }

  /** Texts without delimiters, and names without blanks, braces and sigils. */
  predicate GoodTemplate(entries: seq<Entry>, last: string) {
    LeavesAreTags(entries) && AreBits(BitsOf(entries)) && IsText(last)
  }

  /** The template as it is written. */
  function TemplateText(entries: seq<Entry>, last: string): string { Source(BitsOf(entries), last) }

  /** The tree with these texts, from the text `k` on. */
  function Grown(entries: seq<Entry>, texts: seq<string>, k: nat): seq<Node>
    requires k + |BitsOf(entries)| <= |texts|
    decreases entries, 0
  {
    if entries == [] then []
    else EntryNodes(entries[0], texts, k) + Grown(entries[1..], texts, k + |EntryBits(entries[0])|)
  }

  function EntryNodes(x: Entry, texts: seq<string>, k: nat): seq<Node>
    requires k + |EntryBits(x)| <= |texts|
    decreases x, 0
  {
    match x
    case Leaf(_, Shown(name), _) => [Text(texts[k]), Variable(name, true)]
    case Leaf(_, Raw(name, _), _) => [Text(texts[k]), Variable(name, false)]
    case Leaf(_, Includes(name), _) => [Text(texts[k]), Include(name)]
    case Leaf(_, _, _) => [Text(texts[k])]
    case Block(_, name, inverted, body, _, _, _) =>
      [Text(texts[k]), Section(name, inverted, Grown(body, texts, k + 1) + [Text(texts[k + 1 + |BitsOf(body)|])])]
  }

  function CutTexts(bits: seq<Bit>, last: string): (r: seq<string>)
    ensures |r| == |bits| + 1
  {
    seq(|bits| + 1, i requires 0 <= i <= |bits| => CutText(bits, last, i))
  }

  /** What a template stands for: its tree, with the lines of lone tags cut. */
  function Meant(entries: seq<Entry>, last: string): seq<Node> {
    var bits := BitsOf(entries);
    var texts := CutTexts(bits, last);
    Grown(entries, texts, 0) + [Text(texts[|bits|])]
  }

  // ----- the program of a tree -----------------------------------------------------------------------

  /** The actions from `b` on are those of the bits. */
  ghost predicate Hosts(p: Program, bits: seq<Bit>, b: nat) {
    && b + |bits| < |p.actions|
    && forall i :: 0 <= i < |bits| ==>
         p.actions[b + i].t == TypeOf(bits[i].mark) && NameAt(p, b + i) == bits[i].mark.name
  }

  predicate IsEnd(p: Program, e: nat) { e < |p.actions| && (p.actions[e].t.CloseBlock? || e == |p.actions| - 1) }

  ghost predicate TextsAre(p: Program, texts: seq<string>) {
    |texts| == |p.actions| && forall i :: 0 <= i < |texts| ==> texts[i] == FragmentText(p, i)
  }

  lemma HostsParts(p: Program, x: seq<Bit>, y: seq<Bit>, b: nat)
    requires Hosts(p, x + y, b)
    ensures Hosts(p, x, b) && Hosts(p, y, b + |x|)
  {
    var all := x + y;
    forall i | 0 <= i < |x| ensures p.actions[b + i].t == TypeOf(x[i].mark) && NameAt(p, b + i) == x[i].mark.name {
      assert all[i] == x[i];
    }
    forall i | 0 <= i < |y|
      ensures p.actions[b + |x| + i].t == TypeOf(y[i].mark) && NameAt(p, b + |x| + i) == y[i].mark.name
    {
      assert all[|x| + i] == y[i];
      assert b + |x| + i == b + (|x| + i);
    }
  }

  /** The tree of a program that hosts these entries first. */
  lemma {:induction false} Walk(p: Program, b: nat, e: nat, entries: seq<Entry>, texts: seq<string>)
    requires Nested(p.body, p.actions, b, e) && IsEnd(p, e) && Hosts(p, BitsOf(entries), b) && TextsAre(p, texts)
    requires LeavesAreTags(entries)
    ensures var n := |BitsOf(entries)|;
      && b + n <= e && Nested(p.body, p.actions, b + n, e)
      && Nodes(p, b, e) == Grown(entries, texts, b) + Nodes(p, b + n, e)
    decreases entries, 1
  {
    hide Nodes, EntryNodes, Hosts, EntryBits, TextsAre, Nested, IsEnd;
    Bounds(p, BitsOf(entries), b, e, texts);
    if entries == [] {
      NothingGrown(texts, b);
      assert [] + Nodes(p, b, e) == Nodes(p, b, e);
    } else {
      var x, more := entries[0], entries[1..];
      var n := |EntryBits(x)|;
      HostsParts(p, EntryBits(x), BitsOf(more), b);
      LeavesFront(entries);
      WalkOne(p, b, e, x, texts);
      Walk(p, b + n, e, more, texts);
      Assoc(EntryNodes(x, texts, b), Grown(more, texts, b + n), Nodes(p, b + n + |BitsOf(more)|, e));
    }
  }

  lemma Bounds(p: Program, bits: seq<Bit>, b: nat, e: nat, texts: seq<string>)
    requires Hosts(p, bits, b) && TextsAre(p, texts) && Nested(p.body, p.actions, b, e)
    ensures b + |bits| < |texts| == |p.actions| && b <= e <= |p.actions|
  {
  }

  lemma LeavesFront(entries: seq<Entry>)
    requires LeavesAreTags(entries) && entries != []
    ensures LeavesAreTags(entries[1..])
    ensures match entries[0] case Leaf(_, mark, _) => IsLeafMark(mark) case Block(_, _, _, body, _, _, _) => LeavesAreTags(body)
  {
  }

  lemma Assoc(x: seq<Node>, y: seq<Node>, z: seq<Node>)
    ensures x + (y + z) == x + y + z
  {
  }

  lemma NothingGrown(texts: seq<string>, b: nat)
    requires b <= |texts|
    ensures Grown([], texts, b) == []
  {
  }

  lemma HostsOne(p: Program, bit: Bit, b: nat)
    requires Hosts(p, [bit], b)
    ensures b + 1 < |p.actions| && p.actions[b].t == TypeOf(bit.mark) && NameAt(p, b) == bit.mark.name
  {
    assert p.actions[b + 0].t == TypeOf([bit][0].mark) && NameAt(p, b + 0) == [bit][0].mark.name;
  }

  /** A tag that is not the end goes on. */
  lemma NotAtEnd(p: Program, b: nat, e: nat)
    requires Nested(p.body, p.actions, b, e) && IsEnd(p, e) && b + 1 < |p.actions| && !p.actions[b].t.CloseBlock?
    ensures b < e
  {
  }

  lemma LeafNodes(p: Program, b: nat, e: nat, x: Entry, texts: seq<string>)
    requires Nested(p.body, p.actions, b, e) && IsEnd(p, e) && TextsAre(p, texts)
    requires x.Leaf? && IsLeafMark(x.mark) && Hosts(p, [Bit(x.text, x.mark, x.pad)], b)
    ensures b + 1 <= e && Nested(p.body, p.actions, b + 1, e)
    ensures Nodes(p, b, e) == EntryNodes(x, texts, b) + Nodes(p, b + 1, e)
  {
    hide Hosts, NameAt, IsEnd, FragmentText;
    HostsOne(p, Bit(x.text, x.mark, x.pad), b);
    NotAtEnd(p, b, e);
  }

  lemma BlockNodes(p: Program, b: nat, e: nat, x: Entry, texts: seq<string>, m: nat)
    requires Nested(p.body, p.actions, b, e) && b < e && IsBlock(p.actions[b].t) && TextsAre(p, texts)
    requires x.Block? && m == b + 1 + |BitsOf(x.body)| == p.actions[b].pos && m < |texts|
    requires NameAt(p, b) == x.name && (p.actions[b].t.ElseBlock? <==> x.inverted)
    requires Nodes(p, b + 1, m) == Grown(x.body, texts, b + 1) + Nodes(p, m, m)
    ensures |EntryBits(x)| == m + 1 - b && Nested(p.body, p.actions, m + 1, e)
    ensures Nodes(p, b, e) == EntryNodes(x, texts, b) + Nodes(p, m + 1, e)
  {
    hide NameAt, FragmentText, Grown;
    assert Nodes(p, m, m) == [];
    assert Grown(x.body, texts, b + 1) + [] == Grown(x.body, texts, b + 1);
    assert texts[b] == FragmentText(p, b) && texts[m] == FragmentText(p, m);
  }

  lemma CloseIsThere(p: Program, m: nat, e: nat)
    requires Nested(p.body, p.actions, m, e) && m < |p.actions| && p.actions[m].t.CloseBlock?
    ensures m == e
  {
  }

  lemma {:induction false} WalkOne(p: Program, b: nat, e: nat, x: Entry, texts: seq<string>)
    requires Nested(p.body, p.actions, b, e) && IsEnd(p, e) && Hosts(p, EntryBits(x), b) && TextsAre(p, texts)
    requires match x case Leaf(_, mark, _) => IsLeafMark(mark) case Block(_, _, _, body, _, _, _) => LeavesAreTags(body)
    ensures var n := |EntryBits(x)|;
      && b + n <= e && Nested(p.body, p.actions, b + n, e)
      && Nodes(p, b, e) == EntryNodes(x, texts, b) + Nodes(p, b + n, e)
    decreases x, 0
  {
    hide Hosts, Nodes, EntryNodes, NameAt;
    if x.Leaf? {
      LeafNodes(p, b, e, x, texts);
    } else {
      var first, inner := Bit(x.text, if x.inverted then Inverts(x.name) else Opens(x.name), x.open), BitsOf(x.body);
      var close := Bit(x.last, Closes(x.name), x.close);
      HostsParts(p, [first] + inner, [close], b);
      HostsParts(p, [first], inner, b);
      HostsOne(p, first, b);
      var m := b + 1 + |inner|;
      HostsOne(p, close, m);
      NotAtEnd(p, b, e);
      Walk(p, b + 1, p.actions[b].pos, x.body, texts);
      CloseIsThere(p, m, p.actions[b].pos);
      BlockNodes(p, b, e, x, texts, m);
    }
  }

  // ----- the tags of a tree ------------------------------------------------------------------------------

  function TagsOfBits(bits: seq<Bit>): seq<TagOf> {
    if bits == [] then []
    else (if bits[0].mark.Comment? then [] else [TagOf(TypeOf(bits[0].mark), bits[0].mark.name)]) + TagsOfBits(bits[1..])
  }

  lemma {:induction false} TagsOfConcat(x: seq<Bit>, y: seq<Bit>)
    ensures TagsOfBits(x + y) == TagsOfBits(x) + TagsOfBits(y)
    decreases |x|
  {
    if x == [] {
      assert x + y == y;
    } else {
      assert (x + y)[1..] == x[1..] + y;
      TagsOfConcat(x[1..], y);
    }
  }

  lemma TagsOfOne(b: Bit)
    ensures TagsOfBits([b]) == if b.mark.Comment? then [] else [TagOf(TypeOf(b.mark), b.mark.name)]
  {
    assert [b][1..] == [];
  }

  lemma {:induction false} GrownTags(entries: seq<Entry>, texts: seq<string>, k: nat)
    requires LeavesAreTags(entries) && k + |BitsOf(entries)| <= |texts|
    ensures Written(Grown(entries, texts, k)) == TagsOfBits(BitsOf(entries))
    decreases entries, 1
  {
    hide Written, EntryNodes, TagsOfBits, EntryBits;
    if entries == [] {
      NoTags();
    } else {
      var x, more := entries[0], entries[1..];
      LeavesFront(entries);
      EntryTags(x, texts, k);
      GrownTags(more, texts, k + |EntryBits(x)|);
      TagsOfConcat(EntryBits(x), BitsOf(more));
      WrittenConcat(EntryNodes(x, texts, k), Grown(more, texts, k + |EntryBits(x)|));
    }
  }

  lemma NoTags()
    ensures Written([]) == [] && TagsOfBits([]) == []
  {
  }

  lemma OneWritten(t: string, n: Node)
    ensures Written([Text(t)]) == [] && Written([Text(t), n]) == WrittenNode(n)
  {
    assert [Text(t)][1..] == [] && [Text(t), n] + [] == [Text(t), n];
    WrittenTwo(Text(t), n, []);
  }

  lemma {:induction false} EntryTags(x: Entry, texts: seq<string>, k: nat)
    requires k + |EntryBits(x)| <= |texts|
    requires match x case Leaf(_, mark, _) => IsLeafMark(mark) case Block(_, _, _, body, _, _, _) => LeavesAreTags(body)
    ensures Written(EntryNodes(x, texts, k)) == TagsOfBits(EntryBits(x))
    decreases x, 0
  {
    hide Written, TagsOfBits, Grown;
    if x.Leaf? {
      TagsOfOne(Bit(x.text, x.mark, x.pad));
      OneWritten(texts[k], Variable(x.mark.name, x.mark.Shown?));
      OneWritten(texts[k], Include(x.mark.name));
    } else {
      var first, inner := Bit(x.text, if x.inverted then Inverts(x.name) else Opens(x.name), x.open), BitsOf(x.body);
      var close := Bit(x.last, Closes(x.name), x.close);
      TagsOfConcat([first] + inner, [close]);
      TagsOfConcat([first], inner);
      TagsOfOne(first);
      TagsOfOne(close);
      GrownTags(x.body, texts, k + 1);
      var grown, last := Grown(x.body, texts, k + 1), texts[k + 1 + |inner|];
      WrittenLast(grown, last);
      OneWritten(texts[k], Section(x.name, x.inverted, grown + [Text(last)]));
    }
  }

  /** Pieces with the bits' tags have their tags. */
  lemma {:induction false} PieceTags(body: string, actions: seq<Action>, bits: seq<Bit>, b: nat)
    requires b <= |bits| && |actions| == |bits| + 1 && actions[|bits|] == END_ACTION
    requires forall i :: 0 <= i < |bits| ==> actions[i].t == TypeOf(bits[i].mark) && TagName(body, actions[i]) == bits[i].mark.name
    ensures TagsOf(body, actions, b, |bits| + 1) == TagsOfBits(bits[b..])
    decreases |bits| - b
  {
    hide TagName;
    if b == |bits| {
      assert TagsOf(body, actions, b + 1, b + 1) == [] && bits[b..] == [];
    } else {
      PieceTags(body, actions, bits, b + 1);
      assert bits[b..] == [bits[b]] + bits[b + 1..];
      TagsOfConcat([bits[b]], bits[b + 1..]);
      TagsOfOne(bits[b]);
    }
  }

  // ----- what a template compiles to ---------------------------------------------------------------------

  /** The pieces of a template's text. */
  lemma PiecesFit(entries: seq<Entry>, last: string)
    requires GoodTemplate(entries, last)
    ensures var body, bits := TemplateText(entries, last), BitsOf(entries); var pieces := PiecesOf(0, bits, last);
      && Scan(body, 0, "{{", "}}") == Ok(pieces) && |pieces| == |bits| + 1
      && (forall i :: 0 <= i <= |bits| ==> Holds(body, pieces[i], bits, last, i))
  {
    hide LeavesAreTags, AreBits, BitsOf, Source, PiecesOf, Scan, Holds, IsText;
    var body, bits := TemplateText(entries, last), BitsOf(entries);
    assert "" + body == body;
    ScanIs("", bits, last);
    PiecesHold("", bits, last, 0);
    forall i | 0 <= i <= |bits| ensures Holds(body, PiecesOf(0, bits, last)[i], bits, last, i) { PiecesHold("", bits, last, i); }
  }

  lemma PiecesMean(body: string, pieces: seq<Piece>, bits: seq<Bit>, last: string)
    requires |pieces| == |bits| + 1 && forall i :: 0 <= i <= |bits| ==> Holds(body, pieces[i], bits, last, i)
    ensures FragmentsAre(body, FragmentsOf(pieces), bits, last) && GoodFragments(body, FragmentsOf(pieces))
    ensures TypesAre(ActionsOf(pieces), bits) && pieces[|bits|].action == END_ACTION
    ensures forall i :: 0 <= i < |bits| ==> TagName(body, pieces[i].action) == bits[i].mark.name
  {
    hide TagName;
    var fs := FragmentsOf(pieces);
    forall i | 0 <= i < |fs| ensures StandsAt(body, fs[i].0, fs[i].1, TextAt(bits, last, i)) && fs[i].0 <= fs[i].1 <= |body| {
      assert Holds(body, pieces[i], bits, last, i);
    }
    forall i | 0 <= i < |bits|
      ensures fs[i].1 < |body| && body[fs[i].1] == '{' && ActionsOf(pieces)[i].t == TypeOf(bits[i].mark)
      ensures TagName(body, pieces[i].action) == bits[i].mark.name
    {
      assert Holds(body, pieces[i], bits, last, i);
    }
    assert Holds(body, pieces[|bits|], bits, last, |bits|);
  }

  /** A template that is written from a tree compiles. */
  lemma TemplatesCompile(entries: seq<Entry>, last: string)
    requires GoodTemplate(entries, last)
    ensures var scan := Scan(TemplateText(entries, last), 0, "{{", "}}");
      scan.Ok? && exists nodes :: Written(nodes) == TagsIn(TemplateText(entries, last), scan.value)
  {
    hide TemplateText, BitsOf, Scan, Holds, AreBits, TagsOf, TagName, Written;
    var body, bits := TemplateText(entries, last), BitsOf(entries);
    PiecesFit(entries, last);
    var pieces := PiecesOf(0, bits, last);
    PiecesMean(body, pieces, bits, last);
    PieceTags(body, ActionsOf(pieces), bits, 0);
    assert bits[0..] == bits;
    GrownTags(entries, CutTexts(bits, last), 0);
  }

  /** And the program compiled stands for the tree that is meant. */
  lemma ProgramMeans(p: Program, entries: seq<Entry>, last: string, pieces: seq<Piece>)
    requires GoodTemplate(entries, last) && p.body == TemplateText(entries, last)
    requires Scan(p.body, 0, "{{", "}}") == Ok(pieces) && |p.fragments| == |p.actions| == |pieces| > 0
    requires SameTags(p.actions, ActionsOf(pieces)) && Nested(p.body, p.actions, 0, |p.actions| - 1)
    requires GoodFragments(p.body, FragmentsOf(pieces))
    requires forall i :: 0 <= i < |p.fragments| ==>
      p.fragments[i] == TrimmedFragment(p.body, FragmentsOf(pieces), ActionsOf(pieces), i)
    ensures TreeOf(p, 0, |p.actions| - 1) == Meant(entries, last)
  {
    hide TemplateText, BitsOf, Scan, Holds, AreBits, TagName, Nested, TrimmedFragment, CutText, Nodes, Grown, FragmentsAre, LeavesAreTags;
    var bits := BitsOf(entries);
    var texts, n := CutTexts(bits, last), |bits|;
    PiecesFit(entries, last);
    PiecesMean(p.body, pieces, bits, last);
    forall i | 0 <= i <= n ensures texts[i] == FragmentText(p, i) {
      CutIs(p.body, FragmentsOf(pieces), ActionsOf(pieces), bits, last, i);
    }
    forall i | 0 <= i < n ensures p.actions[0 + i].t == TypeOf(bits[i].mark) && NameAt(p, 0 + i) == bits[i].mark.name {
      SameName(p.body, p.actions[i], pieces[i].action);
      assert SameTag(p.actions[i], ActionsOf(pieces)[i]);
    }
    GoodMeans(entries, last);
    Walk(p, 0, n, entries, texts);
    NothingLeft(p, n);
    assert Grown(entries, texts, 0) + [] == Grown(entries, texts, 0);
  }

  lemma SameName(body: string, a: Action, b: Action)
    ensures SameTag(a, b) ==> TagName(body, a) == TagName(body, b)
  {
  }

  lemma GoodMeans(entries: seq<Entry>, last: string)
    requires GoodTemplate(entries, last)
    ensures LeavesAreTags(entries)
  {
  }

  lemma NothingLeft(p: Program, n: nat)
    requires Nested(p.body, p.actions, n, n)
    ensures Nodes(p, n, n) == []
  {
  }

  /** `compile` and `render_string`: the text of a tree of sections renders what the tree
      evaluates to, with the lines of lone tags cut. */
  method RenderText(text: string, ctx: Value, ghost entries: seq<Entry>, ghost last: string)
    returns (st: MustacheRender.Status, out: string)
    requires GoodTemplate(entries, last) && text == TemplateText(entries, last)
    ensures match Eval(Meant(entries, last), [ctx])
      case Done(done) => st == MustacheRender.Finished && out == done
      case Thrown => st == MustacheRender.Threw
      case Loads => st == MustacheRender.AtPartial
  {
    hide GoodTemplate, TemplateText, Meant, Scan, Eval, TagsIn, Nested, TrimmedFragment, SameTags, GoodFragments;
    TemplatesCompile(entries, last);
    var t := new Template(text);
    var r := t.Parse();
    ghost var pieces := Scan(text, 0, "{{", "}}").value;
    ProgramMeans(Program(text, t.fragments, t.actions), entries, last, pieces);
    st, out := t.RenderString(ctx, pieces);
  }
}
