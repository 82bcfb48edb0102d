/** `template_t::parse`: the loop that compiles a template, with its stack of open
    blocks, and the removal of lines that hold nothing but a tag. */
module MustacheParse {
  import opened Wrappers
  import opened MustacheTree
  import opened MustacheProgram
  import opened MustacheScan
  import opened MustacheNest
  import opened MustacheTrim
  import MustacheRender

  /** The actions as they are read, before any is matched. */
  function ActionsOf(pieces: seq<Piece>): (r: seq<Action>)
    ensures |r| == |pieces|
  {
    seq(|pieces|, i requires 0 <= i < |pieces| => pieces[i].action)
  }

  function FragmentsOf(pieces: seq<Piece>): (r: seq<(nat, nat)>)
    ensures |r| == |pieces|
  {
    seq(|pieces|, i requires 0 <= i < |pieces| => (pieces[i].first, pieces[i].second))
  }

  /** The same tag; only the match of a block may have been entered. */
  predicate SameTag(a: Action, b: Action) { a.tagChar == b.tagChar && a.t == b.t && a.start == b.start && a.end == b.end }

  predicate SameTags(x: seq<Action>, y: seq<Action>) { |x| == |y| && forall i :: 0 <= i < |x| ==> SameTag(x[i], y[i]) }

  lemma {:induction false} TagsSame(body: string, x: seq<Action>, y: seq<Action>, b: nat, e: nat)
    requires SameTags(x, y) && b <= e <= |x|
    ensures TagsOf(body, x, b, e) == TagsOf(body, y, b, e)
    decreases e - b
  {
    if b < e {
      assert SameTag(x[b], y[b]);
      TagsSame(body, x, y, b + 1, e);
    }
  }

  /** The first `n` actions, with the blocks at `blocks` still open and nested sections
      between them. */
  predicate Opened(body: string, actions: seq<Action>, blocks: seq<nat>, n: nat) {
    if blocks == [] then Nested(body, actions, 0, n)
    else
      var b := blocks[|blocks| - 1];
      b < n <= |actions| && IsBlock(actions[b].t) && Nested(body, actions, b + 1, n)
      && Opened(body, actions, blocks[..|blocks| - 1], b)
  }

  function Names(body: string, actions: seq<Action>, blocks: seq<nat>): seq<string>
    requires forall i :: 0 <= i < |blocks| ==> blocks[i] < |actions|
  {
    seq(|blocks|, i requires 0 <= i < |blocks| => TagName(body, actions[blocks[i]]))
  }

  lemma {:induction false} OpenedSame(body: string, x: seq<Action>, y: seq<Action>, blocks: seq<nat>, n: nat)
    requires Opened(body, x, blocks, n) && n <= |y| && forall i :: 0 <= i < n ==> x[i] == y[i]
    ensures Opened(body, y, blocks, n)
    decreases |blocks|
  {
    if blocks == [] {
      NestedSame(body, x, y, 0, n);
    } else {
      var b := blocks[|blocks| - 1];
      NestedSame(body, x, y, b + 1, n);
      OpenedSame(body, x, y, blocks[..|blocks| - 1], b);
    }
  }

  /** A tag that opens and closes nothing. */
  lemma OpenedPlain(body: string, x: seq<Action>, a: Action, blocks: seq<nat>)
    requires Opened(body, x, blocks, |x|) && !IsBlock(a.t) && !a.t.CloseBlock?
    ensures Opened(body, x + [a], blocks, |x| + 1)
  {
    var y, n := x + [a], |x|;
    assert Nested(body, y, n + 1, n + 1);
    assert Nested(body, y, n, n + 1);
    if blocks == [] {
      NestedSame(body, x, y, 0, n);
      NestedConcat(body, y, 0, n, n + 1);
    } else {
      var b := blocks[|blocks| - 1];
      NestedSame(body, x, y, b + 1, n);
      NestedConcat(body, y, b + 1, n, n + 1);
      OpenedSame(body, x, y, blocks[..|blocks| - 1], b);
    }
  }

  lemma OpenedBlock(body: string, x: seq<Action>, a: Action, blocks: seq<nat>)
    requires Opened(body, x, blocks, |x|) && IsBlock(a.t)
    ensures Opened(body, x + [a], blocks + [|x|], |x| + 1)
  {
    OpenedSame(body, x, x + [a], blocks, |x|);
    assert (blocks + [|x|])[..|blocks|] == blocks;
  }

  /** The actions after a closing tag `c`: the last open block gets its `pos`. */
  function Closed(x: seq<Action>, b: nat, c: Action): seq<Action>
    requires b < |x|
  {
    x[b := x[b].(pos := |x|, hasEndMatch := true)] + [c.(pos := b)]
  }

  lemma ClosedActions(x: seq<Action>, b: nat, c: Action)
    requires b < |x|
    ensures var y := Closed(x, b, c);
      && |y| == |x| + 1 && y[b] == x[b].(pos := |x|, hasEndMatch := true) && y[|x|] == c.(pos := b)
      && (forall i :: 0 <= i < b ==> y[i] == x[i]) && (forall i :: b < i < |x| ==> y[i] == x[i])
  {
  }

  lemma CloseSegment(body: string, x: seq<Action>, b: nat, c: Action, start: nat)
    requires b < |x| && Nested(body, x, start, b) && Nested(body, x, b + 1, |x|) && IsBlock(x[b].t) && c.t.CloseBlock?
    requires TagName(body, c) == TagName(body, x[b])
    ensures Nested(body, Closed(x, b, c), start, |x| + 1)
  {
    hide Nested, Closed;
    var y := Closed(x, b, c);
    ClosedActions(x, b, c);
    NestedSame(body, x, y, start, b);
    NestedSame(body, x, y, b + 1, |x|);
    NestedClose(body, y, start, b, |x|);
  }

  lemma OpenedClose(body: string, x: seq<Action>, c: Action, blocks: seq<nat>)
    requires blocks != [] && Opened(body, x, blocks, |x|) && c.t.CloseBlock?
    requires TagName(body, c) == TagName(body, x[blocks[|blocks| - 1]])
    ensures Opened(body, Closed(x, blocks[|blocks| - 1], c), blocks[..|blocks| - 1], |x| + 1)
  {
    hide Nested, Closed;
    var b, front := blocks[|blocks| - 1], blocks[..|blocks| - 1];
    var y := Closed(x, b, c);
    ClosedActions(x, b, c);
    if front == [] {
      CloseSegment(body, x, b, c, 0);
    } else {
      var b1 := front[|front| - 1];
      CloseSegment(body, x, b, c, b1 + 1);
      OpenedSame(body, x, y, front[..|front| - 1], b1);
    }
  }

  /** One more tag, for the stack of names. */
  lemma TagsMore(body: string, x: seq<Action>, a: Action)
    ensures OpenAfter(TagsOf(body, x + [a], 0, |x| + 1), [])
      == match OpenAfter(TagsOf(body, x, 0, |x|), [])
         case None => None
         case Some(o) => Turn(o, TagOf(a.t, TagName(body, a)))
  {
    var y, n := x + [a], |x|;
    TagsConcat(body, y, 0, n, n + 1);
    TagsSameFront(body, x, y, 0, n);
    var tag := TagOf(a.t, TagName(body, a));
    assert TagsOf(body, y, n + 1, n + 1) == [];
    OpenAfterConcat(TagsOf(body, x, 0, n), [tag], []);
    if OpenAfter(TagsOf(body, x, 0, n), []).Some? { OneTag(tag, OpenAfter(TagsOf(body, x, 0, n), []).value); }
    if a.t.Ignore? { assert TagsOf(body, x, 0, n) + [] == TagsOf(body, x, 0, n); }
  }

  lemma {:induction false} TagsSameFront(body: string, x: seq<Action>, y: seq<Action>, b: nat, e: nat)
    requires b <= e <= |x| <= |y| && y[..|x|] == x
    ensures TagsOf(body, x, b, e) == TagsOf(body, y, b, e)
    decreases e - b
  {
    if b < e {
      assert x[b] == y[..|x|][b];
      TagsSameFront(body, x, y, b + 1, e);
    }
  }

  // ----- the loop --------------------------------------------------------------------------

  /** `missing_end_pair`. */
  predicate MissingEnd(a: Action) { IsBlock(a.t) && !a.hasEndMatch }

  /** The blocks on the stack are the ones without an end, and the sections closed so
      far are nested. */
  ghost predicate Matched(body: string, actions: seq<Action>, blocks: seq<nat>) {
    && (forall i :: 0 <= i < |blocks| ==> blocks[i] < |actions|)
    && (forall i, j :: 0 <= i < j < |blocks| ==> blocks[i] < blocks[j])
    && (forall i :: 0 <= i < |actions| ==> (MissingEnd(actions[i]) <==> i in blocks))
    && Opened(body, actions, blocks, |actions|)
    && OpenAfter(TagsOf(body, actions, 0, |actions|), []) == Some(Names(body, actions, blocks))
  }

  lemma MatchedBlock(body: string, x: seq<Action>, a: Action, blocks: seq<nat>)
    requires Matched(body, x, blocks) && IsBlock(a.t) && !a.hasEndMatch
    ensures Matched(body, x + [a], blocks + [|x|])
    ensures Turn(Names(body, x, blocks), TagOf(a.t, TagName(body, a))) == Some(Names(body, x + [a], blocks + [|x|]))
  {
    hide Opened, Nested, TagsOf, OpenAfter, TagName;
    var y, more := x + [a], blocks + [|x|];
    TagsMore(body, x, a);
    OpenedBlock(body, x, a, blocks);
    assert Names(body, y, more) == Names(body, x, blocks) + [TagName(body, a)];
  }

  lemma MatchedPlain(body: string, x: seq<Action>, a: Action, blocks: seq<nat>)
    requires Matched(body, x, blocks) && !IsBlock(a.t) && !a.t.CloseBlock?
    ensures Matched(body, x + [a], blocks)
    ensures Turn(Names(body, x, blocks), TagOf(a.t, TagName(body, a))) == Some(Names(body, x + [a], blocks))
  {
    hide Opened, Nested, TagsOf, OpenAfter, TagName;
    TagsMore(body, x, a);
    OpenedPlain(body, x, a, blocks);
    assert Names(body, x + [a], blocks) == Names(body, x, blocks);
  }

  lemma ClosedSame(x: seq<Action>, b: nat, c: Action)
    requires b < |x|
    ensures SameTags(Closed(x, b, c), x + [c])
  {
  }

  lemma MatchedClose(body: string, x: seq<Action>, c: Action, blocks: seq<nat>)
    requires Matched(body, x, blocks) && blocks != [] && c.t.CloseBlock?
    requires TagName(body, c) == TagName(body, x[blocks[|blocks| - 1]])
    ensures Matched(body, Closed(x, blocks[|blocks| - 1], c), blocks[..|blocks| - 1])
  {
    hide Opened, Nested, TagsOf, OpenAfter, SubText, Closed;
    var b, front := blocks[|blocks| - 1], blocks[..|blocks| - 1];
    var y := Closed(x, b, c);
    TagsMore(body, x, c);
    OpenedClose(body, x, c, blocks);
    ClosedActions(x, b, c);
    ClosedSame(x, b, c);
    TagsSame(body, y, x + [c], 0, |y|);
    NamesFront(body, x, y, blocks);
    forall i | 0 <= i < |y| ensures MissingEnd(y[i]) <==> i in front {
      if i < |x| && i != b { assert y[i] == x[i]; assert i in blocks <==> i in front; }
    }
  }

  lemma NamesFront(body: string, x: seq<Action>, y: seq<Action>, blocks: seq<nat>)
    requires blocks != [] && forall i :: 0 <= i < |blocks| ==> blocks[i] < |x| <= |y|
    requires forall i, j :: 0 <= i < j < |blocks| ==> blocks[i] < blocks[j]
    requires forall i :: 0 <= i < blocks[|blocks| - 1] ==> y[i] == x[i]
    ensures Names(body, x, blocks)[..|blocks| - 1] == Names(body, y, blocks[..|blocks| - 1])
  {
  }

  function Prefixed(pieces: seq<Piece>, r: Result<seq<Piece>, ParseError>): Result<seq<Piece>, ParseError> {
    match r
    case Ok(rest) => Ok(pieces + rest)
    case Err(e) => Err(e)
  }

  lemma PrefixedMore(pieces: seq<Piece>, piece: Piece, r: Result<seq<Piece>, ParseError>)
    ensures Prefixed(pieces, Prefixed([piece], r)) == Prefixed(pieces + [piece], r)
  {
    if r.Ok? { assert pieces + ([piece] + r.value) == pieces + [piece] + r.value; }
  }

  /** The tags of the whole text: those read so far, and then the rest. */
  function TagsIn(body: string, pieces: seq<Piece>): seq<TagOf> {
    TagsOf(body, ActionsOf(pieces), 0, |pieces|)
  }

  lemma NoPieces()
    ensures FragmentsOf([]) == [] && SameTags([], ActionsOf([]))
  {
  }

  lemma PiecesMore(actions: seq<Action>, pieces: seq<Piece>, piece: Piece)
    requires SameTags(actions, ActionsOf(pieces))
    ensures FragmentsOf(pieces + [piece]) == FragmentsOf(pieces) + [(piece.first, piece.second)]
    ensures ActionsOf(pieces + [piece]) == ActionsOf(pieces) + [piece.action]
    ensures SameTags(actions + [piece.action], ActionsOf(pieces + [piece])) && |actions| == |pieces|
  {
  }

  lemma SameTagsTrans(x: seq<Action>, y: seq<Action>, z: seq<Action>)
    requires SameTags(x, y) && SameTags(y, z)
    ensures SameTags(x, z)
  {
    forall i | 0 <= i < |x| ensures SameTag(x[i], z[i]) { assert SameTag(x[i], y[i]) && SameTag(y[i], z[i]); }
  }

  /** A closing tag that does not fit: no text after it can make the tags balanced. */
  lemma NotBalanced(body: string, actions: seq<Action>, blocks: seq<nat>, a: Action, pieces: seq<Piece>, rest: seq<Piece>, piece: Piece)
    requires Matched(body, actions, blocks) && SameTags(actions, ActionsOf(pieces)) && piece.action == a
    requires Turn(Names(body, actions, blocks), TagOf(a.t, TagName(body, a))) == None
    ensures !Balanced(TagsIn(body, pieces + [piece] + rest))
  {
    hide Opened, Nested, TagsOf, OpenAfter, TagName, Turn, Names;
    var some, all, n := pieces + [piece], pieces + [piece] + rest, |pieces|;
    TagsSame(body, actions, ActionsOf(pieces), 0, n);
    TagsMore(body, ActionsOf(pieces), a);
    assert ActionsOf(some) == ActionsOf(pieces) + [a];
    assert ActionsOf(all)[..n + 1] == ActionsOf(some);
    TagsSameFront(body, ActionsOf(some), ActionsOf(all), 0, n + 1);
    TagsConcat(body, ActionsOf(all), 0, n + 1, |all|);
    OpenAfterConcat(TagsIn(body, some), TagsOf(body, ActionsOf(all), n + 1, |all|), []);
  }

  class Template {
    const body: string
    var fragments: seq<(nat, nat)>
    var actions: seq<Action>

    constructor (body: string)
      ensures this.body == body && fragments == [] && actions == []
    {
      this.body := body;
      fragments, actions := [], [];
    }

    /** The end of the switch: the action is entered, a closing tag is matched with the
        block opened last. */
    method Enter(a: Action, blocks: seq<nat>) returns (r: Result<seq<nat>, ParseError>)
      requires Matched(body, actions, blocks) && a.pos == 0 && !a.hasEndMatch
      modifies this`actions
      ensures r.Ok? ==> Matched(body, actions, r.value) && SameTags(actions, old(actions) + [a])
      ensures r.Err? ==> actions == old(actions) && Turn(Names(body, old(actions), blocks), TagOf(a.t, TagName(body, a))) == None
    {
      hide Matched, Closed, TagName;
      if IsBlock(a.t) {
        MatchedBlock(body, actions, a, blocks);
        r := Ok(blocks + [|actions|]);
        actions := actions + [a];
      } else if a.t.CloseBlock? {
        if blocks == [] {
          return Err(UnexpectedClosing);
        }
        var b := blocks[|blocks| - 1];
        BlocksAreThere(body, actions, blocks);
        if TagName(body, a) != TagName(body, actions[b]) {
          return Err(NotMatched);
        }
        MatchedClose(body, actions, a, blocks);
        ClosedSame(actions, b, a);
        Closing(actions, b, a);
        actions := actions[b := actions[b].(pos := |actions|, hasEndMatch := true)];
        actions := actions + [a.(pos := b)];
        r := Ok(blocks[..|blocks| - 1]);
      } else {
        MatchedPlain(body, actions, a, blocks);
        actions := actions + [a];
        r := Ok(blocks);
      }
    }

    /** The loop over the text, and the check that no block stays open. */
    method ParseTags() returns (r: Result<(), ParseError>)
      requires fragments == [] && actions == []
      modifies this
      ensures var scan := Scan(body, 0, "{{", "}}");
        && (r.Ok? <==> scan.Ok? && Balanced(TagsIn(body, scan.value)))
        && (r.Ok? ==>
              |actions| == |scan.value| > 0 && fragments == FragmentsOf(scan.value) && SameTags(actions, ActionsOf(scan.value))
              && Nested(body, actions, 0, |actions| - 1))
    {
      hide Matched, Scan, NextTag, TagsIn, Balanced, Nested, Turn, TagName, FragmentsOf, ActionsOf, SameTags;
      var open, close, current, blocks := "{{", "}}", 0, [];
      ghost var pieces: seq<Piece> := [];
      NothingMatched(body);
      NoPieces();
      ghost var scan := Scan(body, 0, open, close);
      assert Prefixed([], scan) == scan by { if scan.Ok? { assert [] + scan.value == scan.value; } }
      while true
        invariant current <= |body| && GoodDelimiters(open, close)
        invariant scan == Prefixed(pieces, Scan(body, current, open, close))
        invariant fragments == FragmentsOf(pieces) && SameTags(actions, ActionsOf(pieces))
        invariant Matched(body, actions, blocks)
        decreases |body| - current
      {
        var tag := NextTag(body, current, open, close);
        ScanUnfolds(body, current, open, close);
        if tag.Err? {
          return Err(tag.error);
        }
        if tag.value.None? {
          break;
        }
        var (start, read) := tag.value.value;
        ghost var piece := Piece(current, start, read.action);
        ghost var rest := Scan(body, read.next, read.open, read.close);
        PrefixedMore(pieces, piece, rest);
        PiecesMore(actions, pieces, piece);
        ghost var was := actions;
        var blocks' := Enter(read.action, blocks);
        if blocks'.Err? {
          if rest.Ok? { NotBalanced(body, actions, blocks, read.action, pieces, rest.value, piece); }
          return Err(blocks'.error);
        }
        fragments := fragments + [(current, start)];
        blocks, current, open, close := blocks'.value, read.next, read.open, read.close;
        SameTagsTrans(actions, was + [read.action], ActionsOf(pieces + [piece]));
        pieces := pieces + [piece];
      }
      PiecesMore(actions, pieces, Piece(current, |body|, END_ACTION));
      Ends(body, actions, blocks, pieces, Piece(current, |body|, END_ACTION));
      fragments := fragments + [(current, |body|)];
      actions := actions + [END_ACTION];
      for i := 0 to |actions|
        invariant forall k :: 0 <= k < i ==> !MissingEnd(actions[k])
      {
        if MissingEnd(actions[i]) {
          return Err(NoEnd);
        }
      }
      return Ok(());
    }

    /** The two inner loops: the last character before a tag that is no blank, and the
        first one after it. */
    method BlanksBefore(first: nat, second: nat) returns (j: int)
      requires first <= second <= |body|
      ensures j + 1 == TailStart(body, first, second)
    {
      j := second - 1;
      while j >= first && body[j] == ' '
        invariant first - 1 <= j < second && TailStart(body, first, second) == TailStart(body, first, j + 1)
      {
        j := j - 1;
      }
    }

    method BlanksAfter(first: nat, second: nat) returns (k: nat)
      requires first <= second <= |body|
      ensures k == HeadEnd(body, first, second)
    {
      k := first;
      while k < second && body[k] == ' '
        invariant first <= k <= second && HeadEnd(body, first, second) == HeadEnd(body, k, second)
      {
        k := k + 1;
      }
    }

    /** The tests of the loop that cuts the lines of lone tags: whether the tag `i` is
        one, with the last character before it and the first after it that are no blanks. */
    method StandsAlone(i: nat, ghost fs: Fragments, ghost was: seq<Action>) returns (alone: bool, j: int, k: nat)
      requires GoodFragments(body, fs) && |fs| == |was| == |fragments| == |actions| && i + 1 < |fs|
      requires fragments[i] == fs[i] && fragments[i + 1] == (fs[i + 1].0, TrimmedFragment(body, fs, was, i + 1).1)
      requires actions[i] == was[i]
      ensures alone <==> Alone(body, fs, was, i)
      ensures alone ==> j + 1 == TailStart(body, fs[i].0, fs[i].1) && k == HeadEnd(body, fs[i + 1].0, fs[i + 1].1)
      ensures alone ==> (k == fragments[i + 1].1 <==> k == fs[i + 1].1)
    {
      hide TrimmedFragment;
      alone, j, k := false, 0, 0;
      if actions[i].t.Tag? || actions[i].t.UnescapeTag? {
        return;
      }
      CutTellsTheSame(body, fs, was, i);
      var before, after := fragments[i], fragments[i + 1];
      j := BlanksBefore(before.0, before.1);
      var allSpaceBefore := j < before.0;
      if allSpaceBefore && i > 0 {
        return;
      }
      if !allSpaceBefore && body[j] != '\n' {
        return;
      }
      k := BlanksAfter(after.0, after.1);
      var allSpaceAfter := k == after.1;
      if allSpaceAfter && i != |actions| - 2 {
        return;
      }
      if !allSpaceAfter && !EndsLine(body, k) {
        return;
      }
      alone := true;
    }

    /** One turn of that loop. */
    method RemoveStandalone(i: nat, ghost fs: Fragments, ghost was: seq<Action>)
      requires GoodFragments(body, fs) && |fs| == |was| == |fragments| == |actions| && i + 1 < |fs|
      requires TrimmedFrom(body, fs, fragments, was, i + 1) && ActionsFrom(body, fs, was, actions, i + 1)
      modifies this
      ensures |fs| == |fragments| == |actions|
      ensures TrimmedFrom(body, fs, fragments, was, i) && ActionsFrom(body, fs, was, actions, i)
    {
      hide TrimmedFrom, ActionsFrom, TrimmedFragment, Alone;
      Untouched(body, fs, fragments, was, actions, i);
      var alone, j, k := StandsAlone(i, fs, was);
      if !alone {
        Skipped(body, fs, fragments, was, actions, i);
        return;
      }
      ghost var now, acts := fragments, actions;
      Cut(body, fs, now, was, acts, i, AfterLine(body, fs, i));
      var before, after := fragments[i], fragments[i + 1];
      if actions[i].t.Partial? {
        actions := actions[i := actions[i].(pos := before.1 - j - 1)];
      }
      assert actions == acts[i := TrimmedAction(body, fs, was, i)];
      fragments := fragments[i := (before.0, j + 1)];
      if k != after.1 {
        k := if body[k] == '\n' then k + 1 else k + 2;
        fragments := fragments[i + 1 := (k, after.1)];
      }
      assert fragments == now[i := (before.0, j + 1)][i + 1 := (AfterLine(body, fs, i), after.1)];
    }

    /** The loop over the tags, last one first. */
    method RemoveStandalones()
      requires |fragments| == |actions| && GoodFragments(body, fragments)
      modifies this
      ensures |fragments| == |actions| == |old(actions)|
      ensures forall i :: 0 <= i < |fragments| ==> fragments[i] == TrimmedFragment(body, old(fragments), old(actions), i)
      ensures forall i :: 0 <= i < |actions| ==> actions[i] == TrimmedAction(body, old(fragments), old(actions), i)
    {
      hide Alone, TrimmedAction;
      var i := |actions| - 2;
      ghost var fs, was := fragments, actions;
      if |actions| > 0 { LastStays(body, fs, was); }
      while i >= 0
        invariant -2 <= i <= |was| - 2 && (|was| > 0 ==> i >= -1) && |fragments| == |actions| == |was|
        invariant |was| > 0 ==> TrimmedFrom(body, fs, fragments, was, i + 1) && ActionsFrom(body, fs, was, actions, i + 1)
      {
        RemoveStandalone(i, fs, was);
        i := i - 1;
      }
    }

    /** `parse`. A template compiles exactly when its tags are those of a tree of
        sections, and the program compiled stands for the tree written with them. */
    method Parse() returns (r: Result<(), ParseError>)
      requires fragments == [] && actions == []
      modifies this
      ensures var scan := Scan(body, 0, "{{", "}}");
        && (r.Ok? <==> scan.Ok? && exists nodes :: Written(nodes) == TagsIn(body, scan.value))
        && (r.Ok? ==> Compiled(scan.value))
    {
      hide Scan, TagsIn, Nested, TrimmedFragment, TrimmedAction;
      ghost var scan := Scan(body, 0, "{{", "}}");
      if scan.Ok? { TreesOf(TagsIn(body, scan.value)); }
      r := ParseTags();
      if r.Err? {
        return;
      }
      ScanCovers(body, 0, "{{", "}}");
      ghost var n := |actions| - 1;
      ghost var read := actions;
      NodesAreTags(Program(body, fragments, actions), scan.value);
      RemoveStandalones();
      AfterTrim(body, scan.value, read, fragments, actions);
    }

    /** `render_string`: a compiled template renders its tree of sections. */
    method RenderString(ctx: Value, ghost pieces: seq<Piece>) returns (st: MustacheRender.Status, out: string)
      requires Compiled(pieces)
      ensures match Eval(TreeOf(Program(body, fragments, actions), 0, |actions| - 1), [ctx])
        case Done(text) => st == MustacheRender.Finished && out == text
        case Thrown => st == MustacheRender.Threw
        case Loads => st == MustacheRender.AtPartial
    {
      st, out := MustacheRender.Render(Program(body, fragments, actions), ctx);
    }

    ghost predicate Compiled(pieces: seq<Piece>)
      reads this
    {
      && |fragments| == |actions| == |pieces| > 0 && GoodFragments(body, FragmentsOf(pieces))
      && SameTags(actions, ActionsOf(pieces))
      && Nested(body, actions, 0, |actions| - 1)
      && (forall i :: 0 <= i < |fragments| ==>
            fragments[i] == TrimmedFragment(body, FragmentsOf(pieces), ActionsOf(pieces), i))
      && Written(Nodes(Program(body, fragments, actions), 0, |actions| - 1)) == TagsIn(body, pieces)
    }
  }

  lemma TreesOf(tags: seq<TagOf>)
    ensures (exists nodes :: Written(nodes) == tags) ==> Balanced(tags)
  {
    if nodes :| Written(nodes) == tags { TreesAreBalanced(nodes); }
  }

  /** The end action adds no tag. */
  lemma NodesAreTags(p: Program, pieces: seq<Piece>)
    requires |p.actions| == |pieces| > 0 && SameTags(p.actions, ActionsOf(pieces))
    requires pieces[|pieces| - 1].action == END_ACTION && Nested(p.body, p.actions, 0, |pieces| - 1)
    ensures Written(Nodes(p, 0, |pieces| - 1)) == TagsIn(p.body, pieces)
  {
    hide Nested, Nodes, Written;
    var n := |pieces| - 1;
    TreeIsWritten(p, 0, n);
    TagsSame(p.body, p.actions, ActionsOf(pieces), 0, n);
    TagsConcat(p.body, ActionsOf(pieces), 0, n, n + 1);
    assert TagsOf(p.body, ActionsOf(pieces), n, n + 1) == [];
  }

  lemma {:induction false} NestedTrim(body: string, x: seq<Action>, y: seq<Action>, b: nat, e: nat)
    requires Nested(body, x, b, e) && SameTags(x, y) && forall i :: 0 <= i < |x| ==> x[i].t.Partial? || y[i] == x[i]
    ensures Nested(body, y, b, e)
    decreases e - b
  {
    if b < e {
      assert SameTag(x[b], y[b]);
      if IsBlock(x[b].t) {
        assert y[b] == x[b];
        NestedTrim(body, x, y, b + 1, x[b].pos);
        NestedTrim(body, x, y, x[b].pos + 1, e);
      } else {
        NestedTrim(body, x, y, b + 1, e);
      }
    }
  }

  lemma TrimSame(body: string, fs: Fragments, x: seq<Action>, y: seq<Action>, i: nat)
    requires GoodFragments(body, fs) && |fs| == |x| == |y| && i < |fs| && SameTags(x, y)
    ensures TrimmedFragment(body, fs, x, i) == TrimmedFragment(body, fs, y, i)
    ensures SameTag(TrimmedAction(body, fs, x, i), x[i]) && (x[i].t.Partial? || TrimmedAction(body, fs, x, i) == x[i])
  {
    assert SameTag(x[i], y[i]);
    if i > 0 { assert SameTag(x[i - 1], y[i - 1]); }
  }

  lemma AfterTrim(body: string, pieces: seq<Piece>, read: seq<Action>, fragments: Fragments, actions: seq<Action>)
    requires |read| == |fragments| == |actions| == |pieces| > 0 && GoodFragments(body, FragmentsOf(pieces))
    requires SameTags(read, ActionsOf(pieces)) && Nested(body, read, 0, |read| - 1)
    requires pieces[|pieces| - 1].action == END_ACTION
    requires forall i :: 0 <= i < |fragments| ==> fragments[i] == TrimmedFragment(body, FragmentsOf(pieces), read, i)
    requires forall i :: 0 <= i < |actions| ==> actions[i] == TrimmedAction(body, FragmentsOf(pieces), read, i)
    ensures Nested(body, actions, 0, |actions| - 1) && SameTags(actions, ActionsOf(pieces))
    ensures forall i :: 0 <= i < |fragments| ==>
      fragments[i] == TrimmedFragment(body, FragmentsOf(pieces), ActionsOf(pieces), i)
    ensures Written(Nodes(Program(body, fragments, actions), 0, |actions| - 1)) == TagsIn(body, pieces)
  {
    hide Nested, TrimmedFragment, TrimmedAction, Nodes, Written, TagsOf;
    forall i | 0 <= i < |read|
      ensures SameTag(actions[i], read[i]) && (read[i].t.Partial? || actions[i] == read[i])
      ensures fragments[i] == TrimmedFragment(body, FragmentsOf(pieces), ActionsOf(pieces), i)
    {
      TrimSame(body, FragmentsOf(pieces), read, ActionsOf(pieces), i);
    }
    NestedTrim(body, read, actions, 0, |read| - 1);
    forall i | 0 <= i < |actions| ensures SameTag(actions[i], ActionsOf(pieces)[i]) {
      assert SameTag(read[i], ActionsOf(pieces)[i]);
    }
    NodesAreTags(Program(body, fragments, actions), pieces);
  }

  /** What the turn for the tag `i` finds. */
  lemma Untouched(body: string, fs: Fragments, now: Fragments, was: seq<Action>, acts: seq<Action>, i: nat)
    requires GoodFragments(body, fs) && |fs| == |now| == |was| == |acts| && i + 1 < |fs|
    requires TrimmedFrom(body, fs, now, was, i + 1) && ActionsFrom(body, fs, was, acts, i + 1)
    ensures now[i] == fs[i] && now[i + 1] == (fs[i + 1].0, TrimmedFragment(body, fs, was, i + 1).1) && acts[i] == was[i]
  {
    hide Alone;
  }

  lemma LastStays(body: string, fs: Fragments, was: seq<Action>)
    requires GoodFragments(body, fs) && |fs| == |was| > 0
    ensures TrimmedFrom(body, fs, fs, was, |fs| - 1) && ActionsFrom(body, fs, was, was, |fs| - 1)
  {
  }

  lemma BlocksAreThere(body: string, actions: seq<Action>, blocks: seq<nat>)
    requires Matched(body, actions, blocks)
    ensures forall i :: 0 <= i < |blocks| ==> blocks[i] < |actions|
  {
  }

  lemma Closing(x: seq<Action>, b: nat, c: Action)
    requires b < |x|
    ensures Closed(x, b, c) == x[b := x[b].(pos := |x|, hasEndMatch := true)] + [c.(pos := b)]
  {
  }

  lemma NothingMatched(body: string)
    ensures Matched(body, [], [])
  {
    assert Nested(body, [], 0, 0);
    assert Names(body, [], []) == [];
  }

  lemma ScanUnfolds(body: string, current: nat, open: string, close: string)
    requires current <= |body| && GoodDelimiters(open, close)
    ensures var scan, tag := Scan(body, current, open, close), NextTag(body, current, open, close);
      && (tag.Err? ==> scan == Err(tag.error))
      && (tag.Ok? && tag.value.None? ==> scan == Ok([Piece(current, |body|, END_ACTION)]))
      && (tag.Ok? && tag.value.Some? ==>
            var (start, read) := tag.value.value;
            scan == Prefixed([Piece(current, start, read.action)], Scan(body, read.next, read.open, read.close)))
  {
  }

  lemma NoneIsMissing(body: string, actions: seq<Action>, blocks: seq<nat>)
    requires Matched(body, actions, blocks)
    ensures blocks == [] <==> forall i :: 0 <= i < |actions| ==> !MissingEnd(actions[i])
    ensures blocks == [] <==> OpenAfter(TagsOf(body, actions, 0, |actions|), []) == Some([])
  {
    hide OpenAfter, TagsOf, Opened, TagName;
    var names := Names(body, actions, blocks);
    assert |names| == |blocks|;
    if blocks == [] {
      assert names == [];
    } else {
      assert blocks[0] in blocks && MissingEnd(actions[blocks[0]]);
    }
  }

  /** The text after the last tag closes nothing. */
  lemma Ends(body: string, actions: seq<Action>, blocks: seq<nat>, pieces: seq<Piece>, last: Piece)
    requires Matched(body, actions, blocks) && SameTags(actions, ActionsOf(pieces)) && last.action == END_ACTION
    ensures Balanced(TagsIn(body, pieces + [last])) <==> blocks == []
    ensures (forall i :: 0 <= i < |actions| + 1 ==> !MissingEnd((actions + [END_ACTION])[i])) <==> blocks == []
    ensures blocks == [] ==> Nested(body, actions + [END_ACTION], 0, |actions|)
    ensures SameTags(actions + [END_ACTION], ActionsOf(pieces + [last]))
  {
    hide Opened, TagsOf, OpenAfter, Nested;
    var n := |pieces|;
    MatchedPlain(body, actions, END_ACTION, blocks);
    NoneIsMissing(body, actions + [END_ACTION], blocks);
    assert ActionsOf(pieces + [last]) == ActionsOf(pieces) + [END_ACTION];
    TagsSame(body, actions + [END_ACTION], ActionsOf(pieces + [last]), 0, n + 1);
    if blocks == [] {
      assert Nested(body, actions, 0, n) by { NothingOpen(body, actions); }
      NestedSame(body, actions, actions + [END_ACTION], 0, n);
    }
  }

  lemma NothingOpen(body: string, actions: seq<Action>)
    requires Matched(body, actions, [])
    ensures Nested(body, actions, 0, |actions|)
  {
  }
}
