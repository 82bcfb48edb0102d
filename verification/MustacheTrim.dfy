/** Lines that hold one tag and nothing else but blanks: which they are, and what is
    cut from the fragments before and after the tag. */
module MustacheTrim {
  import opened MustacheProgram

  type Fragments = seq<(nat, nat)>

  /** Where the blanks at the end of a fragment begin. */
  function TailStart(body: string, first: nat, second: nat): (r: nat)
    requires first <= second <= |body|
    ensures first <= r <= second && (forall k :: r <= k < second ==> body[k] == ' ') && (r > first ==> body[r - 1] != ' ')
  {
    if first < second && body[second - 1] == ' ' then TailStart(body, first, second - 1) else second
  }

  /** Where the blanks at its start end. */
  function HeadEnd(body: string, first: nat, second: nat): (r: nat)
    requires first <= second <= |body|
    ensures first <= r <= second && (forall k :: first <= k < r ==> body[k] == ' ') && (r < second ==> body[r] != ' ')
    decreases second - first
  {
    if first < second && body[first] == ' ' then HeadEnd(body, first + 1, second) else first
  }

  predicate GoodFragments(body: string, fs: Fragments) {
    forall i :: 0 <= i < |fs| ==> fs[i].0 <= fs[i].1 <= |body|
  }

  /** A line ends at `k`. */
  predicate EndsLine(body: string, k: nat) {
    k < |body| && (body[k] == '\n' || (body[k] == '\r' && k + 1 < |body| && body[k + 1] == '\n'))
  }

  /** The tag `i` begins its line: before it there are blanks only, back to the line end
      before or to the start of the text. */
  predicate BeginsLine(body: string, fs: Fragments, i: nat)
    requires GoodFragments(body, fs) && i < |fs|
  {
    var s := TailStart(body, fs[i].0, fs[i].1);
    if s == fs[i].0 then i == 0 else body[s - 1] == '\n'
  }

  /** After the tag `i` there are blanks only, up to a line end or the end of the text. */
  predicate EndsItsLine(body: string, fs: Fragments, i: nat)
    requires GoodFragments(body, fs) && i + 1 < |fs|
  {
    var k := HeadEnd(body, fs[i + 1].0, fs[i + 1].1);
    if k == fs[i + 1].1 then i + 2 == |fs| else EndsLine(body, k)
  }

  /** The tag stands alone in its line, and is not one that shows a value. */
  predicate Alone(body: string, fs: Fragments, actions: seq<Action>, i: nat)
    requires GoodFragments(body, fs) && |fs| == |actions|
  {
    i + 1 < |fs| && !actions[i].t.Tag? && !actions[i].t.UnescapeTag? && BeginsLine(body, fs, i) && EndsItsLine(body, fs, i)
  }

  /** The line end after the tag `i`. */
  function AfterLine(body: string, fs: Fragments, i: nat): nat
    requires GoodFragments(body, fs) && i + 1 < |fs|
  {
    var k := HeadEnd(body, fs[i + 1].0, fs[i + 1].1);
    if k == fs[i + 1].1 then fs[i + 1].0 else if body[k] == '\n' then k + 1 else k + 2
  }

  /** A fragment without the lines of lone tags: each end is judged by the fragments as
      they were read. */
  function TrimmedFragment(body: string, fs: Fragments, actions: seq<Action>, i: nat): (nat, nat)
    requires GoodFragments(body, fs) && |fs| == |actions| && i < |fs|
  {
    (if i > 0 && Alone(body, fs, actions, i - 1) then AfterLine(body, fs, i - 1) else fs[i].0,
     if Alone(body, fs, actions, i) then TailStart(body, fs[i].0, fs[i].1) else fs[i].1)
  }

  /** Blanks and their line end at the start of a fragment do not depend on blanks cut
      after a later line end. */
  lemma {:induction false} HeadEndStays(body: string, first: nat, mid: nat, second: nat)
    requires first < mid <= second <= |body| && body[mid - 1] != ' '
    ensures HeadEnd(body, first, mid) == HeadEnd(body, first, second) < mid
    decreases mid - first
  {
    if body[first] == ' ' { HeadEndStays(body, first + 1, mid, second); }
  }

  /** Halfway: the tags from `n` on are done. */
  predicate TrimmedFrom(body: string, was: Fragments, now: Fragments, actions: seq<Action>, n: nat)
    requires GoodFragments(body, was) && |was| == |now| == |actions|
  {
    && (forall i :: 0 <= i < |was| ==> now[i].1 == if i >= n then TrimmedFragment(body, was, actions, i).1 else was[i].1)
    && (forall i :: 0 <= i < |was| ==> now[i].0 == if i > n then TrimmedFragment(body, was, actions, i).0 else was[i].0)
  }

  /** The fragment after a tag, whose end may have been cut already, tells the same. */
  lemma CutTellsTheSame(body: string, fs: Fragments, actions: seq<Action>, i: nat)
    requires GoodFragments(body, fs) && |fs| == |actions| && i + 1 < |fs|
    ensures var f, cut := fs[i + 1], TrimmedFragment(body, fs, actions, i + 1).1;
      && f.0 <= cut <= f.1
      && var k, k' := HeadEnd(body, f.0, f.1), HeadEnd(body, f.0, cut);
         k == k' && (k == f.1 <==> k' == cut)
  {
    var f := fs[i + 1];
    if Alone(body, fs, actions, i + 1) {
      HeadEndStays(body, f.0, TailStart(body, f.0, f.1), f.1);
    }
  }

  /** What is cut is blanks, and after the tag one line end. */
  lemma OnlyBlanksAreCut(body: string, fs: Fragments, actions: seq<Action>, i: nat)
    requires GoodFragments(body, fs) && |fs| == |actions| && Alone(body, fs, actions, i)
    ensures var cut := TrimmedFragment(body, fs, actions, i).1; forall k :: cut <= k < fs[i].1 ==> body[k] == ' '
    ensures var f, next := fs[i + 1], TrimmedFragment(body, fs, actions, i + 1).0;
      next == f.0
      || (f.0 < next <= |body| && body[next - 1] == '\n'
          && forall k :: f.0 <= k < next - 1 ==> body[k] == ' ' || (body[k] == '\r' && k == next - 2))
  {
    var f := fs[i + 1];
    var k := HeadEnd(body, f.0, f.1);
    if k < f.1 { assert EndsLine(body, k); }
  }

  /** The action of a partial keeps the number of blanks cut before it. */
  function TrimmedAction(body: string, fs: Fragments, actions: seq<Action>, i: nat): Action
    requires GoodFragments(body, fs) && |fs| == |actions| && i < |fs|
  {
    var a := actions[i];
    if a.t.Partial? && Alone(body, fs, actions, i) then a.(pos := fs[i].1 - TailStart(body, fs[i].0, fs[i].1)) else a
  }

  predicate ActionsFrom(body: string, fs: Fragments, was: seq<Action>, now: seq<Action>, n: nat)
    requires GoodFragments(body, fs) && |fs| == |was| == |now|
  {
    forall i :: 0 <= i < |was| ==> now[i] == if i >= n then TrimmedAction(body, fs, was, i) else was[i]
  }

  /** The tag `i` left as it is. */
  lemma Skipped(body: string, fs: Fragments, now: Fragments, was: seq<Action>, acts: seq<Action>, i: nat)
    requires GoodFragments(body, fs) && |fs| == |now| == |was| == |acts| && i + 1 < |fs| && !Alone(body, fs, was, i)
    requires TrimmedFrom(body, fs, now, was, i + 1) && ActionsFrom(body, fs, was, acts, i + 1)
    ensures TrimmedFrom(body, fs, now, was, i) && ActionsFrom(body, fs, was, acts, i)
  {
    hide Alone;
  }

  /** The line of the tag `i` cut. */
  lemma Cut(body: string, fs: Fragments, now: Fragments, was: seq<Action>, acts: seq<Action>, i: nat, next: nat)
    requires GoodFragments(body, fs) && |fs| == |now| == |was| == |acts| && i + 1 < |fs| && Alone(body, fs, was, i)
    requires TrimmedFrom(body, fs, now, was, i + 1) && ActionsFrom(body, fs, was, acts, i + 1)
    requires next == AfterLine(body, fs, i)
    ensures var s := TailStart(body, fs[i].0, fs[i].1);
      TrimmedFrom(body, fs, now[i := (fs[i].0, s)][i + 1 := (next, now[i + 1].1)], was, i)
    ensures ActionsFrom(body, fs, was, acts[i := TrimmedAction(body, fs, was, i)], i)
  {
    hide Alone, AfterLine, TrimmedAction;
  }
}
