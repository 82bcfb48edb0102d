/** Templates as they are written: the text of a tree of sections, and what it compiles
    and renders to. */
module MustacheText {
  import opened Wrappers
  import opened MustacheTree
  import opened MustacheProgram
  import opened MustacheScan

  // ----- the text of a tag ------------------------------------------------------------------

  datatype Mark =
    | Shown(name: string)               // {{name}}
    | Raw(name: string, braces: bool)   // {{{name}}} or {{&name}}
    | Opens(name: string)               // {{#name}}
    | Inverts(name: string)             // {{^name}}
    | Closes(name: string)              // {{/name}}
    | Includes(name: string)            // {{>name}}
    | Comment(name: string)             // {{!text}}

  /** The blanks around a name. */
  datatype Pad = Pad(left: nat, right: nat)

  /** Text and the tag after it. */
  datatype Bit = Bit(text: string, mark: Mark, pad: Pad)

  function Blanks(n: nat): string { if n == 0 then "" else Blanks(n - 1) + " " }

  function Sigil(m: Mark): string {
    match m
    case Shown(_) => ""
    case Raw(_, braces) => if braces then "{" else "&"
    case Opens(_) => "#"
    case Inverts(_) => "^"
    case Closes(_) => "/"
    case Includes(_) => ">"
    case Comment(_) => "!"
  }

  function Padded(m: Mark, pad: Pad): string {
    if m.Comment? then m.name else Blanks(pad.left) + m.name + Blanks(pad.right)
  }

  predicate HasBraces(m: Mark) { m.Raw? && m.braces }

  function MarkText(m: Mark, pad: Pad): string {
    "{{" + Sigil(m) + Padded(m, pad) + (if HasBraces(m) then "}}}" else "}}")
  }

  /** The text of a template: bits, and the text after the last tag. */
  function Source(bits: seq<Bit>, last: string): string {
    if bits == [] then last else bits[0].text + MarkText(bits[0].mark, bits[0].pad) + Source(bits[1..], last)
  }

  /** Text that holds no delimiter, and does not end in half of one. */
  predicate IsText(t: string) { forall i :: 0 <= i < |t| && t[i] == '{' ==> i + 1 < |t| && t[i + 1] != '{' }

  /** A name holds no blank and no brace that closes, and begins with no sigil. */
  predicate IsName(m: Mark) {
    && (forall i :: 0 <= i < |m.name| ==> m.name[i] != '}')
    && (!m.Comment? ==> m.name != "" && (forall i :: 0 <= i < |m.name| ==> m.name[i] != ' ') && m.name[0] !in "#/^!>{&=")
  }

  predicate IsBit(b: Bit) { IsText(b.text) && IsName(b.mark) }

  predicate AreBits(bits: seq<Bit>) { forall i :: 0 <= i < |bits| ==> IsBit(bits[i]) }

  // ----- what is scanned -----------------------------------------------------------------------

  function TypeOf(m: Mark): ActionType {
    match m
    case Shown(_) => Tag
    case Raw(_, _) => UnescapeTag
    case Opens(_) => OpenBlock
    case Inverts(_) => ElseBlock
    case Closes(_) => CloseBlock
    case Includes(_) => Partial
    case Comment(_) => Ignore
  }

  /** The action of a tag whose delimiter stands at `p`. */
  function ActionAt(p: nat, b: Bit): Action {
    var start := p + 2 + |Sigil(b.mark)| + (if b.mark.Comment? then 0 else b.pad.left);
    Action(MarkText(b.mark, b.pad)[2], TypeOf(b.mark), start, start + |b.mark.name|, 0, false)
  }

  function PiecesOf(at: nat, bits: seq<Bit>, last: string): seq<Piece>
    decreases |bits|
  {
    if bits == [] then [Piece(at, at + |last|, END_ACTION)]
    else
      var p := at + |bits[0].text|;
      [Piece(at, p, ActionAt(p, bits[0]))] + PiecesOf(p + |MarkText(bits[0].mark, bits[0].pad)|, bits[1..], last)
  }

  lemma {:induction false} BlanksAre(n: nat)
    ensures |Blanks(n)| == n && forall i :: 0 <= i < n ==> Blanks(n)[i] == ' '
  {
    if n > 0 { BlanksAre(n - 1); }
  }

  /** The first occurrence. */
  lemma FindAt(body: string, pat: string, from: nat, at: nat)
    requires from <= at && OccursAt(body, pat, at) && forall i: nat :: from <= i < at ==> !OccursAt(body, pat, i)
    ensures Find(body, pat, from) == Some(at)
  {
  }

  /** Two equal characters occur nowhere before. */
  lemma NotBefore(body: string, c: char, i: nat)
    requires i + 1 >= |body| || body[i] != c || body[i + 1] != c
    ensures !OccursAt(body, [c, c], i)
  {
    if i + 1 < |body| { assert body[i..i + 2][0] == body[i] && body[i..i + 2][1] == body[i + 1]; }
  }

  /** In the middle of three texts. */
  lemma MiddleAt(pre: string, t: string, rest: string, i: nat)
    requires |pre| <= i < |pre| + |t|
    ensures (pre + t + rest)[i] == t[i - |pre|]
    ensures i + 1 < |pre| + |t| ==> (pre + t + rest)[i + 1] == t[i + 1 - |pre|]
  {
  }

  lemma NotInText(pre: string, t: string, rest: string, i: nat)
    requires IsText(t) && |pre| <= i < |pre| + |t|
    ensures !OccursAt(pre + t + rest, "{{", i)
  {
    MiddleAt(pre, t, rest, i);
    NotBefore(pre + t + rest, '{', i);
  }

  lemma NotInName(pre: string, t: string, rest: string, i: nat)
    requires (forall k :: 0 <= k < |t| ==> t[k] != '}') && |pre| <= i < |pre| + |t|
    ensures !OccursAt(pre + t + rest, "}}", i)
  {
    MiddleAt(pre, t, rest, i);
    NotBefore(pre + t + rest, '}', i);
  }

  lemma Behind(pre: string, t: string, pat: string, rest: string)
    ensures OccursAt(pre + t + (pat + rest), pat, |pre| + |t|)
  {
    assert pre + t + (pat + rest) == pre + t + pat + rest;
  }

  lemma OpenFound(pre: string, t: string, rest: string)
    requires IsText(t)
    ensures Find(pre + t + ("{{" + rest), "{{", |pre|) == Some(|pre| + |t|)
  {
    hide Find, OccursAt, IsText;
    var body, at := pre + t + ("{{" + rest), |pre| + |t|;
    Behind(pre, t, "{{", rest);
    forall i: nat | |pre| <= i < at ensures !OccursAt(body, "{{", i) { NotInText(pre, t, "{{" + rest, i); }
    FindAt(body, "{{", |pre|, at);
  }

  lemma CloseFound(pre: string, t: string, rest: string)
    requires forall k :: 0 <= k < |t| ==> t[k] != '}'
    ensures Find(pre + t + ("}}" + rest), "}}", |pre|) == Some(|pre| + |t|)
  {
    hide Find, OccursAt;
    var body, at := pre + t + ("}}" + rest), |pre| + |t|;
    Behind(pre, t, "}}", rest);
    forall i: nat | |pre| <= i < at ensures !OccursAt(body, "}}", i) { NotInName(pre, t, "}}" + rest, i); }
    FindAt(body, "}}", |pre|, at);
  }

  lemma NoOpen(pre: string, t: string)
    requires IsText(t)
    ensures Find(pre + t, "{{", |pre|) == None
  {
    hide IsText;
    var body := pre + t;
    if Find(body, "{{", |pre|).Some? {
      var i := Find(body, "{{", |pre|).value;
      assert body + "" == body;
      NotInText(pre, t, "", i);
    }
  }

  /** The blanks around a name are skipped. */
  lemma NameFound(pre: string, pad: Pad, name: string, rest: string)
    requires name != "" && forall i :: 0 <= i < |name| ==> name[i] != ' '
    ensures var body, s := pre + (Blanks(pad.left) + name + Blanks(pad.right)) + rest, |pre| + pad.left;
      var e := s + |name| + pad.right;
      && |pre| <= |body| && e <= |body| && SkipSpaces(body, |pre|) == s && TrimEnd(body, e) == s + |name|
      && body[s..s + |name|] == name
  {
    BlanksAre(pad.left);
    BlanksAre(pad.right);
    hide Blanks;
    var x, y := Blanks(pad.left), Blanks(pad.right);
    var body, s := pre + (x + name + y) + rest, |pre| + pad.left;
    var e := s + |name| + pad.right;
    assert body == pre + x + name + y + rest;
    forall k | |pre| <= k < s ensures body[k] == ' ' { assert body[k] == x[k - |pre|]; }
    forall k | s + |name| <= k < e ensures body[k] == ' ' { assert body[k] == y[k - s - |name|]; }
    assert body[s] == name[0] && body[s + |name| - 1] == name[|name| - 1];
    assert body[s..s + |name|] == name;
  }

  // ----- one tag ---------------------------------------------------------------------------------

  /** What stands between the delimiters. */
  function Inner(m: Mark, pad: Pad): string { Sigil(m) + Padded(m, pad) }

  function Closing(m: Mark): string { if HasBraces(m) then "}}}" else "}}" }

  lemma PaddedIs(m: Mark, pad: Pad)
    requires IsName(m)
    ensures forall k :: 0 <= k < |Inner(m, pad)| ==> Inner(m, pad)[k] != '}'
    ensures Inner(m, pad) != ""
    ensures m.Shown? ==> Inner(m, pad)[0] !in "#/^!>{&="
    ensures !m.Shown? ==> Inner(m, pad)[0] == Sigil(m)[0]
  {
    BlanksAre(pad.left);
    BlanksAre(pad.right);
    hide Blanks;
    var inner := Inner(m, pad);
    if m.Comment? {
      assert inner[1..] == m.name;
    } else {
      var x, y, n := Blanks(pad.left), Blanks(pad.right), |Sigil(m)|;
      assert forall k :: 0 <= k < |x| ==> x[k] == ' ';
      forall k | 0 <= k < |inner| ensures inner[k] != '}' {
        if k >= n + pad.left + |m.name| {
          assert inner[k] == y[k - n - pad.left - |m.name|];
        } else if k >= n + pad.left {
          assert inner[k] == m.name[k - n - pad.left];
        } else if k >= n {
          assert inner[k] == x[k - n];
        }
      }
    }
  }

  /** A tag that shows its name without the blanks. */
  lemma TrimmedIs(pre: string, m: Mark, pad: Pad, rest: string, t: ActionType, ch: char)
    requires IsName(m) && !m.Comment?
    ensures var body, idx := pre + "{{" + Inner(m, pad) + rest, |pre| + 2 + |Sigil(m)|;
      var endIdx, s := |pre| + 2 + |Inner(m, pad)|, idx + pad.left;
      idx <= |body| && endIdx <= |body| && Trimmed(body, ch, t, idx, endIdx) == Action(ch, t, s, s + |m.name|, 0, false)
  {
    hide Sigil, Blanks, SkipSpaces, TrimEnd;
    var before := pre + "{{" + Sigil(m);
    NameFound(before, pad, m.name, rest);
    BlanksAre(pad.left);
    BlanksAre(pad.right);
    assert pre + "{{" + Inner(m, pad) + rest == before + Padded(m, pad) + rest;
  }

  /** The switch takes the case of the tag's sigil. */
  lemma ReadSwitch(body: string, idx: nat, endIdx: nat, m: Mark, a: Action)
    requires 0 < idx < endIdx && endIdx + 2 <= |body|
    requires if m.Shown? then body[idx] !in "#/^!>{&=" else body[idx] == Sigil(m)[0]
    requires HasBraces(m) ==> endIdx + 2 < |body| && body[endIdx + 2] == '}'
    requires a == if m.Comment? then Action('!', Ignore, idx + 1, endIdx, 0, false)
                  else Trimmed(body, body[idx], TypeOf(m), idx + |Sigil(m)|, endIdx)
    ensures ReadTag(body, idx, endIdx, "{{", "}}") == Ok(Read(a, endIdx + |Closing(m)|, "{{", "}}"))
  {
    hide Trimmed;
  }

  /** Where its parts stand in the text of a tag. */
  lemma Places(pre: string, inner: string, closing: string, rest: string)
    requires inner != ""
    ensures var body, idx := pre + "{{" + inner + (closing + rest), |pre| + 2;
      && |body| == idx + |inner| + |closing| + |rest| && body[idx] == inner[0]
      && (|closing| > 2 ==> body[idx + |inner| + 2] == closing[2]) && ("{{" + inner + closing)[2] == inner[0]
  {
  }

  /** The action is the one that the switch makes. */
  lemma ActionIs(pre: string, b: Bit, rest: string, body: string)
    requires IsName(b.mark) && body == pre + "{{" + Inner(b.mark, b.pad) + rest
    ensures var m, idx, endIdx := b.mark, |pre| + 2, |pre| + 2 + |Inner(b.mark, b.pad)|;
      && endIdx <= |body| && idx < endIdx && idx + |Sigil(m)| <= |body|
      && MarkText(m, b.pad)[2] == body[idx]
      && ActionAt(|pre|, b) == if m.Comment? then Action('!', Ignore, idx + 1, endIdx, 0, false)
                               else Trimmed(body, body[idx], TypeOf(m), idx + |Sigil(m)|, endIdx)
  {
    var m, pad := b.mark, b.pad;
    PaddedIs(m, pad);
    Places(pre, Inner(m, pad), "", rest);
    Places(pre, Inner(m, pad), Closing(m), "");
    MarkTextIs(m, pad);
    if m.Comment? { CommentSize(m, pad); } else { TrimmedIs(pre, m, pad, rest, TypeOf(m), Inner(m, pad)[0]); }
    hide Inner, SkipSpaces, TrimEnd, IsName, Trimmed, MarkText, Closing;
    assert "" + rest == rest;
  }

  lemma ReadIs(pre: string, b: Bit, rest: string)
    requires IsName(b.mark)
    ensures var m := b.mark; var body := pre + "{{" + Inner(m, b.pad) + (Closing(m) + rest);
      var endIdx := |pre| + 2 + |Inner(m, b.pad)|;
      && endIdx + 2 <= |body| && |pre| + 2 < endIdx
      && ReadTag(body, |pre| + 2, endIdx, "{{", "}}")
        == Ok(Read(ActionAt(|pre|, b), |pre| + |MarkText(m, b.pad)|, "{{", "}}"))
  {
    hide Inner, IsName, Trimmed, MarkText, ReadTag, ActionAt, Sigil;
    var m, pad := b.mark, b.pad;
    var body := pre + "{{" + Inner(m, pad) + (Closing(m) + rest);
    PaddedIs(m, pad);
    Places(pre, Inner(m, pad), Closing(m), rest);
    MarkTextIs(m, pad);
    ActionIs(pre, b, Closing(m) + rest, body);
    ReadSwitch(body, |pre| + 2, |pre| + 2 + |Inner(m, pad)|, m, ActionAt(|pre|, b));
  }

  lemma MarkTextIs(m: Mark, pad: Pad)
    ensures MarkText(m, pad) == "{{" + Inner(m, pad) + Closing(m)
  {
  }

  lemma CommentSize(m: Mark, pad: Pad)
    requires m.Comment?
    ensures |Inner(m, pad)| == 1 + |m.name|
  {
  }

  // ----- the whole text -----------------------------------------------------------------------------

  lemma Views(pre: string, t: string, inner: string, brace: string, rest: string)
    ensures var body := pre + t + ("{{" + inner + ("}}" + brace)) + rest;
      && body == pre + t + ("{{" + (inner + ("}}" + brace) + rest))
      && body == pre + t + "{{" + inner + ("}}" + (brace + rest))
      && body == pre + t + "{{" + inner + (("}}" + brace) + rest)
  {
  }

  lemma NextTagIs(pre: string, b: Bit, rest: string)
    requires IsBit(b)
    ensures var body, p := pre + b.text + MarkText(b.mark, b.pad) + rest, |pre| + |b.text|;
      |pre| <= |body| && NextTag(body, |pre|, "{{", "}}")
        == Ok(Some((p, Read(ActionAt(p, b), p + |MarkText(b.mark, b.pad)|, "{{", "}}"))))
  {
    hide Find, ReadTag, Inner, IsName, IsText, MarkText;
    var m := b.mark;
    var inner, brace := Inner(m, b.pad), if HasBraces(m) then "}" else "";
    assert Closing(m) == "}}" + brace;
    MarkTextIs(m, b.pad);
    Views(pre, b.text, inner, brace, rest);
    OpenFound(pre, b.text, inner + ("}}" + brace) + rest);
    PaddedIs(m, b.pad);
    CloseFound(pre + b.text + "{{", inner, brace + rest);
    ReadIs(pre + b.text, b, rest);
  }

  lemma {:induction false} ScanIs(pre: string, bits: seq<Bit>, last: string)
    requires AreBits(bits) && IsText(last)
    ensures |pre| <= |pre + Source(bits, last)|
    ensures Scan(pre + Source(bits, last), |pre|, "{{", "}}") == Ok(PiecesOf(|pre|, bits, last))
    decreases |bits|
  {
    hide NextTag, MarkText, ActionAt, IsBit, IsText;
    var body := pre + Source(bits, last);
    if bits == [] {
      NoOpen(pre, last);
      NoTag(body, |pre|);
    } else {
      var b, more := bits[0], bits[1..];
      var tag := MarkText(b.mark, b.pad);
      NextTagIs(pre, b, Source(more, last));
      assert body == pre + b.text + tag + Source(more, last) == (pre + b.text + tag) + Source(more, last);
      ScanIs(pre + b.text + tag, more, last);
    }
  }

  lemma NoTag(body: string, current: nat)
    requires current <= |body| && Find(body, "{{", current) == None
    ensures NextTag(body, current, "{{", "}}") == Ok(None)
  {
  }

  /** The piece has the text and the tag of a bit, or the text after the last one. */
  predicate Holds(body: string, piece: Piece, bits: seq<Bit>, last: string, i: nat)
    requires i <= |bits|
  {
    && piece.first <= piece.second <= |body|
    && if i == |bits| then body[piece.first..piece.second] == last && piece.action == END_ACTION && piece.second == |body|
       else
         && body[piece.first..piece.second] == bits[i].text && piece.second < |body| && body[piece.second] == '{'
         && piece.action.t == TypeOf(bits[i].mark) && TagName(body, piece.action) == bits[i].mark.name
  }

  lemma SliceAt(pre: string, t: string, rest: string)
    ensures (pre + (t + rest))[|pre|..|pre| + |t|] == t
  {
  }

  lemma Assoc(pre: string, t: string, tag: string, rest: string)
    ensures pre + (t + tag + rest) == pre + t + tag + rest
  {
  }

  lemma Assoc3(t: string, tag: string, rest: string)
    ensures t + tag + rest == t + (tag + rest)
  {
  }

  lemma Unfolds(at: nat, bits: seq<Bit>, last: string)
    requires bits != []
    ensures var b := bits[0]; var p, tag := at + |b.text|, MarkText(b.mark, b.pad);
      && Source(bits, last) == b.text + tag + Source(bits[1..], last)
      && PiecesOf(at, bits, last) == [Piece(at, p, ActionAt(p, b))] + PiecesOf(p + |tag|, bits[1..], last)
  {
  }

  lemma NoBits(at: nat, last: string)
    ensures Source([], last) == last && PiecesOf(at, [], last) == [Piece(at, at + |last|, END_ACTION)]
  {
  }

  lemma LastHolds(pre: string, last: string)
    ensures Holds(pre + Source([], last), PiecesOf(|pre|, [], last)[0], [], last, 0)
  {
    hide Source, PiecesOf;
    NoBits(|pre|, last);
    SliceAt(pre, last, "");
    assert last + "" == last;
  }

  lemma FirstHoldsIn(body: string, at: nat, bits: seq<Bit>, last: string)
    requires bits != []
    requires var b := bits[0]; var p := at + |b.text|; var a := ActionAt(p, b);
      p < |body| && body[at..p] == b.text && body[p] == '{' && a.t == TypeOf(b.mark) && TagName(body, a) == b.mark.name
    ensures var b := bits[0]; var p := at + |b.text|; Holds(body, Piece(at, p, ActionAt(p, b)), bits, last, 0)
  {
  }

  lemma FirstHolds(pre: string, bits: seq<Bit>, last: string)
    requires AreBits(bits)
    ensures Holds(pre + Source(bits, last), PiecesOf(|pre|, bits, last)[0], bits, last, 0)
  {
    hide MarkText, ActionAt, IsBit, TagName, Source, PiecesOf, Holds;
    if bits == [] {
      LastHolds(pre, last);
    } else {
      var b, rest := bits[0], Source(bits[1..], last);
      var tag := MarkText(b.mark, b.pad);
      Unfolds(|pre|, bits, last);
      TagHolds(pre + b.text, b, rest);
      Assoc(pre, b.text, tag, rest);
      Assoc3(b.text, tag, rest);
      SliceAt(pre, b.text, tag + rest);
      FirstHoldsIn(pre + Source(bits, last), |pre|, bits, last);
    }
  }

  /** The fragments and the names are the bits' own. */
  lemma {:induction false} PiecesHold(pre: string, bits: seq<Bit>, last: string, i: nat)
    requires AreBits(bits) && i <= |bits|
    ensures var body, pieces := pre + Source(bits, last), PiecesOf(|pre|, bits, last);
      |pieces| == |bits| + 1 && Holds(body, pieces[i], bits, last, i)
    decreases |bits|
  {
    hide MarkText, ActionAt, IsBit, TagName, Source, PiecesOf, Holds;
    FirstHolds(pre, bits, last);
    if bits == [] {
      NoBits(|pre|, last);
    } else {
      var b, more := bits[0], bits[1..];
      var tag := MarkText(b.mark, b.pad);
      Unfolds(|pre|, bits, last);
      Assoc(pre, b.text, tag, Source(more, last));
      PiecesHold(pre + b.text + tag, more, last, if i > 0 then i - 1 else 0);
      if i > 0 { HoldsNext(pre + Source(bits, last), PiecesOf(|pre|, bits, last)[i], bits, last, i); }
    }
  }

  lemma HoldsNext(body: string, piece: Piece, bits: seq<Bit>, last: string, i: nat)
    requires 0 < i <= |bits| && Holds(body, piece, bits[1..], last, i - 1)
    ensures Holds(body, piece, bits, last, i)
  {
  }

  lemma TagHolds(pre: string, b: Bit, rest: string)
    requires IsBit(b)
    ensures var body, a := pre + MarkText(b.mark, b.pad) + rest, ActionAt(|pre|, b);
      a.t == TypeOf(b.mark) && TagName(body, a) == b.mark.name && |pre| < |body| && body[|pre|] == '{'
  {
    var m, pad := b.mark, b.pad;
    BlanksAre(pad.left);
    hide Blanks, Sigil, IsName;
    var x, y := if m.Comment? then "" else Blanks(pad.left), if m.Comment? then "" else Blanks(pad.right);
    var front := "{{" + Sigil(m) + x;
    assert MarkText(m, pad) == front + m.name + (y + Closing(m)) by { MarkParts(m, pad); }
    NameInside(pre, front, m.name, y + Closing(m), rest);
  }

  lemma MarkParts(m: Mark, pad: Pad)
    ensures var x, y := if m.Comment? then "" else Blanks(pad.left), if m.Comment? then "" else Blanks(pad.right);
      MarkText(m, pad) == "{{" + Sigil(m) + x + m.name + (y + Closing(m))
  {
    hide Sigil, Blanks;
    if m.Comment? { assert "{{" + Sigil(m) + "" == "{{" + Sigil(m) && "" + Closing(m) == Closing(m); }
  }

  lemma NameInside(pre: string, front: string, name: string, back: string, rest: string)
    ensures var body, s := pre + (front + name + back) + rest, |pre| + |front|;
      s + |name| <= |body| && body[s..s + |name|] == name && (front != "" ==> |pre| < |body| && body[|pre|] == front[0])
  {
  }
}
