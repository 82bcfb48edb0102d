/** The text of a template cut into fragments and tags. */
module MustacheScan {
  import opened Wrappers
  import opened MustacheProgram

  datatype ParseError =
    | EmptyTag | NoClosingDelimiter | UnexpectedClosing | NotMatched | NoEnd
    | TripleDelimiter | TripleNotMatched
    | NoEquals | EmptyOpen | EmptyClose | InvalidDelimiters | NoSpace

  predicate OccursAt(body: string, pat: string, i: nat) { i + |pat| <= |body| && body[i..i + |pat|] == pat }

  /** `std::string::find`. */
  function Find(body: string, pat: string, from: nat): (r: Option<nat>)
    ensures r.Some? ==> from <= r.value && OccursAt(body, pat, r.value)
    ensures forall i: nat :: from <= i && (r.None? || i < r.value) ==> !OccursAt(body, pat, i)
    decreases |body| - from
  {
    if from + |pat| > |body| then None
    else if body[from..from + |pat|] == pat then Some(from)
    else Find(body, pat, from + 1)
  }

  function SkipSpaces(body: string, i: nat): (r: nat)
    requires i <= |body|
    ensures i <= r <= |body| && (forall k :: i <= k < r ==> body[k] == ' ') && (r < |body| ==> body[r] != ' ')
    decreases |body| - i
  {
    if i < |body| && body[i] == ' ' then SkipSpaces(body, i + 1) else i
  }

  function TrimEnd(body: string, e: nat): (r: nat)
    requires e <= |body|
    ensures r <= e && (forall k :: r <= k < e ==> body[k] == ' ') && (r > 0 ==> body[r - 1] != ' ')
  {
    if e > 0 && body[e - 1] == ' ' then TrimEnd(body, e - 1) else e
  }

  /** The new delimiters that a tag `{{=open close=}}` sets. */
  function Delimiters(body: string, idx: nat, endIdx: nat): Result<(string, string), ParseError>
    requires idx <= endIdx <= |body| && 2 <= endIdx
  {
    if body[endIdx - 1] != '=' then Err(NoEquals)
    else
      var s, e := SkipSpaces(body, idx), TrimEnd(body, endIdx - 1);
      match FindSpace(body, s, e)
      case None => Err(NoSpace)
      case Some(i) =>
        var j := SkipSpaces(body, i);
        assert j < e by { assert body[e - 1] != ' '; }
        if i == s then Err(EmptyOpen)
        else if j == e then Err(EmptyClose)
        else if ' ' in body[j..e] then Err(InvalidDelimiters)
        else Ok((body[s..i], body[j..e]))
  }

  function FindSpace(body: string, s: nat, e: nat): (r: Option<nat>)
    requires e <= |body|
    ensures r.Some? ==> s <= r.value < e && body[r.value] == ' ' && ' ' !in body[s..r.value]
    decreases e - s
  {
    if s >= e then None else if body[s] == ' ' then Some(s) else FindSpace(body, s + 1, e)
  }

  /** A tag as it is read: its action, where the text goes on, and the delimiters then. */
  datatype Read = Read(action: Action, next: nat, open: string, close: string)

  function Trimmed(body: string, tagChar: char, t: ActionType, idx: nat, endIdx: nat): Action
    requires idx <= |body| && endIdx <= |body|
  {
    Action(tagChar, t, SkipSpaces(body, idx), TrimEnd(body, endIdx), 0, false)
  }

  /** Delimiters are not empty and hold no blank. */
  predicate GoodDelimiters(open: string, close: string) {
    open != "" && close != "" && ' ' !in open && ' ' !in close
  }

  /** The switch on the first character of a tag. */
  function ReadTag(body: string, idx: nat, endIdx: nat, open: string, close: string): (r: Result<Read, ParseError>)
    requires 0 < idx < endIdx && endIdx + |close| <= |body| && GoodDelimiters(open, close)
    ensures r.Ok? ==> endIdx < r.value.next <= |body| && GoodDelimiters(r.value.open, r.value.close)
    ensures r.Ok? ==> r.value.action.pos == 0 && !r.value.action.hasEndMatch
  {
    var ch, next := body[idx], endIdx + |close|;
    match ch
    case '#' => Ok(Read(Trimmed(body, ch, OpenBlock, idx + 1, endIdx), next, open, close))
    case '/' => Ok(Read(Trimmed(body, ch, CloseBlock, idx + 1, endIdx), next, open, close))
    case '^' => Ok(Read(Trimmed(body, ch, ElseBlock, idx + 1, endIdx), next, open, close))
    case '!' => Ok(Read(Action(ch, Ignore, idx + 1, endIdx, 0, false), next, open, close))
    case '>' => Ok(Read(Trimmed(body, ch, Partial, idx + 1, endIdx), next, open, close))
    case '{' =>
      if open != "{{" || close != "}}" then Err(TripleDelimiter)
      else if endIdx + 2 == |body| || body[endIdx + 2] != '}' then Err(TripleNotMatched)
      else Ok(Read(Trimmed(body, ch, UnescapeTag, idx + 1, endIdx), next + 1, open, close))
    case '&' => Ok(Read(Trimmed(body, ch, UnescapeTag, idx + 1, endIdx), next, open, close))
    case '=' =>
      var d :- Delimiters(body, idx + 1, endIdx);
      Ok(Read(Action(ch, Ignore, idx + 1, endIdx, 0, false), next, d.0, d.1))
    case _ => Ok(Read(Trimmed(body, ch, Tag, idx, endIdx), next, open, close))
  }

  /** A fragment and the tag after it; the last fragment has none. */
  datatype Piece = Piece(first: nat, second: nat, action: Action)

  const END_ACTION := Action('!', Ignore, 0, 0, 0, false)

  /** One turn of the loop of `parse`: the fragment from `current` and the tag after it. */
  function NextTag(body: string, current: nat, open: string, close: string): (r: Result<Option<(nat, Read)>, ParseError>)
    requires current <= |body| && GoodDelimiters(open, close)
    ensures r.Ok? && r.value.Some? ==>
      current <= r.value.value.0 < r.value.value.1.next <= |body|
      && GoodDelimiters(r.value.value.1.open, r.value.value.1.close)
      && r.value.value.1.action.pos == 0 && !r.value.value.1.action.hasEndMatch
  {
    match Find(body, open, current)
    case None => Ok(None)
    case Some(start) =>
      var idx := start + |open|;
      match Find(body, close, idx)
      case None => Err(NoClosingDelimiter)
      case Some(endIdx) =>
        if endIdx == idx then Err(EmptyTag)
        else
          var read :- ReadTag(body, idx, endIdx, open, close);
          Ok(Some((start, read)))
  }

  function Scan(body: string, current: nat, open: string, close: string): Result<seq<Piece>, ParseError>
    requires current <= |body| && GoodDelimiters(open, close)
    decreases |body| - current
  {
    var tag :- NextTag(body, current, open, close);
    match tag
    case None => Ok([Piece(current, |body|, END_ACTION)])
    case Some((start, read)) =>
      var rest :- Scan(body, read.next, read.open, read.close);
      Ok([Piece(current, start, read.action)] + rest)
  }

  /** The fragments and tags follow one another through the whole text. */
  predicate Covers(body: string, current: nat, pieces: seq<Piece>) {
    && pieces != [] && pieces[0].first == current && pieces[|pieces| - 1].second == |body|
    && pieces[|pieces| - 1].action == END_ACTION
    && (forall i :: 0 <= i < |pieces| ==> pieces[i].first <= pieces[i].second <= |body|)
    && (forall i :: 0 <= i < |pieces| - 1 ==> pieces[i].second < pieces[i + 1].first)
  }

  lemma {:induction false} ScanCovers(body: string, current: nat, open: string, close: string)
    requires current <= |body| && GoodDelimiters(open, close) && Scan(body, current, open, close).Ok?
    ensures Covers(body, current, Scan(body, current, open, close).value)
    decreases |body| - current
  {
    var tag := NextTag(body, current, open, close);
    if tag.value.Some? {
      var (start, read) := tag.value.value;
      ScanCovers(body, read.next, read.open, read.close);
      var rest := Scan(body, read.next, read.open, read.close).value;
      var all := Scan(body, current, open, close).value;
      assert all == [Piece(current, start, read.action)] + rest;
      assert forall i {:trigger all[i]} :: 1 <= i < |all| ==> all[i] == rest[i - 1];
    }
  }
}
