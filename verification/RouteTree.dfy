/** The route trie of Crow's router as a value: segments, captures, the shape of
    the tree, and the tree-level meaning of adding, compressing and searching.
    The heap objects that carry these trees are in Trie.dfy. */
module RouteTree {
  import opened Wrappers

  // ----- what a URL piece is read as -----------------------------------------

  datatype ParamType = INT | UINT | DOUBLE | STRING | PATH | MAX  // MAX: no parameter

  /** A `double` is kept as its 64-bit pattern; only `strtod` creates one. */
  datatype Double = Double(bits: nat)

  datatype Capture =
    | IntCapture(i: int)
    | UintCapture(u: nat)
    | DoubleCapture(d: Double)
    | StringCapture(s: string)

  datatype Params = Params(ints: seq<int>, uints: seq<nat>, doubles: seq<Double>, strings: seq<string>)

  const NoParams := Params([], [], [], [])

  /** `strtod` applied to a URL from a position: the value and the end position,
      or nothing when it consumed no character or reported a range error. */
  type DoubleScanner = (string, nat) -> Option<(Double, nat)>

  ghost predicate ValidScanner(strtod: DoubleScanner) {
    forall url, pos: nat {:trigger strtod(url, pos)} ::
      strtod(url, pos).Some? ==> pos < strtod(url, pos).value.1 <= |url|
  }

  predicate IsDigit(c: char) { '0' <= c <= '9' }

  /** The end of the digit run that starts at `i`. */
  function DigitsEnd(s: string, i: nat): (j: nat)
    requires i <= |s|
    ensures i <= j <= |s|
    ensures forall k :: i <= k < j ==> IsDigit(s[k])
    ensures j < |s| ==> !IsDigit(s[j])
    decreases |s| - i
  {
    if i < |s| && IsDigit(s[i]) then DigitsEnd(s, i + 1) else i
  }

  function DigitsValue(s: string): nat
    requires forall k :: 0 <= k < |s| ==> IsDigit(s[k])
  {
    if s == [] then 0
    else assert IsDigit(s[|s| - 1]); DigitsValue(s[..|s| - 1]) * 10 + (s[|s| - 1] as int - '0' as int)
  }

  /** `strtoll(…, 10)` from a digit or a sign: none when no digit follows or the
      value does not fit a signed 64-bit integer (ERANGE). */
  function ScanInt(url: string, pos: nat): (r: Option<(int, nat)>)
    requires pos < |url|
    ensures r.Some? ==> pos < r.value.1 <= |url|
  {
    var start := if url[pos] == '+' || url[pos] == '-' then pos + 1 else pos;
    var end := DigitsEnd(url, start);
    if end == start then None
    else
      var magnitude: int := DigitsValue(url[start..end]);
      var v: int := if url[pos] == '-' then -magnitude else magnitude;
      if -0x8000_0000_0000_0000 <= v < 0x8000_0000_0000_0000 then Some((v, end)) else None
  }

  /** `strtoull(…, 10)` from a digit or a plus sign. */
  function ScanUint(url: string, pos: nat): (r: Option<(nat, nat)>)
    requires pos < |url|
    ensures r.Some? ==> pos < r.value.1 <= |url|
  {
    var start := if url[pos] == '+' then pos + 1 else pos;
    var end := DigitsEnd(url, start);
    if end == start then None
    else
      var v := DigitsValue(url[start..end]);
      if v < 0x1_0000_0000_0000_0000 then Some((v, end)) else None
  }

  /** The position of the next '/' at or after `i`, or the end of the URL. */
  function SlashOrEnd(url: string, i: nat): (j: nat)
    requires i <= |url|
    ensures i <= j <= |url|
    ensures forall k :: i <= k < j ==> url[k] != '/'
    ensures j < |url| ==> url[j] == '/'
    decreases |url| - i
  {
    if i < |url| && url[i] != '/' then SlashOrEnd(url, i + 1) else i
  }

  /** What a parameter of type `t` captures at `pos`, and where it ends. */
  function Scan(t: ParamType, url: string, pos: nat, strtod: DoubleScanner): Option<(Capture, nat)>
    requires pos < |url|
  {
    var c := url[pos];
    match t
    case INT =>
      if IsDigit(c) || c == '+' || c == '-' then
        var (v, end) :- ScanInt(url, pos);
        Some((IntCapture(v), end))
      else None
    case UINT =>
      if IsDigit(c) || c == '+' then
        var (v, end) :- ScanUint(url, pos);
        Some((UintCapture(v), end))
      else None
    case DOUBLE =>
      if IsDigit(c) || c == '+' || c == '-' || c == '.' then
        var (v, end) :- strtod(url, pos);
        Some((DoubleCapture(v), end))
      else None
    case STRING =>
      var end := SlashOrEnd(url, pos);
      if end == pos then None else Some((StringCapture(url[pos..end]), end))
    case PATH => Some((StringCapture(url[pos..]), |url|))
    case MAX => None
  }

  lemma ScanAdvances(t: ParamType, url: string, pos: nat, strtod: DoubleScanner)
    requires pos < |url| && ValidScanner(strtod)
    ensures var r := Scan(t, url, pos, strtod); r.Some? ==> pos < r.value.1 <= |url|
  {
  }

  function Push(p: Params, c: Capture): Params {
    match c
    case IntCapture(i) => p.(ints := p.ints + [i])
    case UintCapture(u) => p.(uints := p.uints + [u])
    case DoubleCapture(d) => p.(doubles := p.doubles + [d])
    case StringCapture(s) => p.(strings := p.strings + [s])
  }

  // ----- patterns: the list a trie is to agree with ---------------------------

  /** One segment of a rule: a literal character or a parameter. */
  datatype Seg = Lit(c: char) | Par(t: ParamType)

  type Pattern = seq<Seg>

  /** The parameters `url[pos..]` yields when all of it is read by `segs`, added
      to those already captured; none when it does not match. */
  function Match(segs: Pattern, url: string, pos: nat, p: Params, strtod: DoubleScanner): Option<Params>
    requires pos <= |url| && ValidScanner(strtod)
  {
    if segs == [] then (if pos == |url| then Some(p) else None)
    else if pos == |url| then None
    else
      match segs[0]
      case Lit(c) => if url[pos] == c then Match(segs[1..], url, pos + 1, p, strtod) else None
      case Par(t) =>
        var (capture, end) :- Scan(t, url, pos, strtod);
        ScanAdvances(t, url, pos, strtod);
        Match(segs[1..], url, end, Push(p, capture), strtod)
  }

  // ----- the tree --------------------------------------------------------------

  datatype Tree = Tree(rule: nat, bp: Option<nat>, key: string, param: ParamType, children: seq<Tree>)

  const EmptyTree := Tree(0, None, "", MAX, [])

  /** `Node::IsSimpleNode`. */
  predicate IsSimple(n: Tree) {
    && n.rule == 0
    && n.bp.None?
    && |n.children| < 2
    && n.param == MAX
    && forall i :: 0 <= i < |n.children| ==> n.children[i].param == MAX
  }

  function Size(n: Tree): nat
    decreases n, 0
  {
    1 + ForestSize(n.children)
  }

  function ForestSize(ns: seq<Tree>): (size: nat)
    ensures forall i :: 0 <= i < |ns| ==> Size(ns[i]) <= size
    decreases ns, 1
  {
    if ns == [] then 0 else
      assert forall i :: 1 <= i < |ns| ==> ns[i] == ns[1..][i - 1];
      Size(ns[0]) + ForestSize(ns[1..])
  }

  // ----- searching ---------------------------------------------------------------

  datatype Found = Found(rule: nat, params: Params)

  const NotFound := Found(0, NoParams)

  /** `update_found`: keep the smaller non-zero rule index. */
  function Better(best: Found, r: Found): Found {
    if r.rule != 0 && (best.rule == 0 || best.rule > r.rule) then r else best
  }

  predicate KeyAt(url: string, pos: nat, key: string)
    requires pos <= |url|
  {
    pos + |key| <= |url| && url[pos..pos + |key|] == key
  }

  function FindNode(url: string, n: Tree, pos: nat, p: Params, strtod: DoubleScanner): Found
    requires pos <= |url| && ValidScanner(strtod)
    decreases n, 1
  {
    if pos == |url| then Found(n.rule, p)
    else FindChildren(url, n.children, pos, p, NotFound, strtod)
  }

  function FindChildren(url: string, cs: seq<Tree>, pos: nat, p: Params, best: Found, strtod: DoubleScanner): Found
    requires pos < |url| && ValidScanner(strtod)
    decreases cs, 0
  {
    if cs == [] then best
    else FindChildren(url, cs[1..], pos, p, Better(best, FindChild(url, cs[0], pos, p, strtod)), strtod)
  }

  /** The search through one child: nothing when the child does not fit at `pos`. */
  function FindChild(url: string, c: Tree, pos: nat, p: Params, strtod: DoubleScanner): Found
    requires pos < |url| && ValidScanner(strtod)
    decreases c, 2
  {
    if c.param != MAX then
      match Scan(c.param, url, pos, strtod)
      case None => NotFound
      case Some((capture, end)) =>
        ScanAdvances(c.param, url, pos, strtod);
        FindNode(url, c, end, Push(p, capture), strtod)
    else if KeyAt(url, pos, c.key) then FindNode(url, c, pos + |c.key|, p, strtod)
    else NotFound
  }

  // ----- path compression -----------------------------------------------------------

  /** A simple node takes over its only child. */
  function Absorb(n: Tree): Tree
    requires |n.children| > 0
  {
    var c := n.children[0];
    Tree(c.rule, c.bp, n.key + c.key, n.param, c.children)
  }

  function Optimized(n: Tree): Tree
    decreases Size(n), 0
  {
    if n.children == [] then n
    else if IsSimple(n) then
      assert ForestSize(n.children) == Size(n.children[0]) + ForestSize(n.children[1..]);
      Optimized(Absorb(n))
    else n.(children := OptimizedAll(n.children))
  }

  function OptimizedAll(ns: seq<Tree>): (rs: seq<Tree>)
    ensures |rs| == |ns|
    ensures forall i :: 0 <= i < |ns| ==> rs[i] == Optimized(ns[i])
    decreases ForestSize(ns), 1
  {
    if ns == [] then [] else [Optimized(ns[0])] + OptimizedAll(ns[1..])
  }

  /** `Trie::optimize`: the head itself is never merged. */
  function OptimizedHead(head: Tree): Tree {
    head.(children := OptimizedAll(head.children))
  }

  // ----- adding ----------------------------------------------------------------------

  /** A segment to be added, with the blueprint index a new node for it receives. */
  datatype Tok = Tok(seg: Seg, bp: Option<nat>)

  function Segs(toks: seq<Tok>): (segs: Pattern)
    ensures |segs| == |toks|
    ensures forall i :: 0 <= i < |toks| ==> segs[i] == toks[i].seg
  {
    seq(|toks|, i requires 0 <= i < |toks| => toks[i].seg)
  }

  /** `child.key[0]`; the character after the end of a std::string is NUL. */
  function KeyHead(key: string): char {
    if key == "" then '\0' else key[0]
  }

  /** Whether `add` follows this child for the segment. */
  predicate Follows(c: Tree, s: Seg) {
    match s
    case Lit(ch) => KeyHead(c.key) == ch
    case Par(t) => c.param == t
  }

  /** The first child `add` follows, or the number of children. */
  function ChildFor(cs: seq<Tree>, s: Seg): (i: nat)
    ensures i <= |cs|
    ensures i < |cs| ==> Follows(cs[i], s)
    ensures forall j :: 0 <= j < i ==> !Follows(cs[j], s)
  {
    if cs == [] then 0 else if Follows(cs[0], s) then 0 else 1 + ChildFor(cs[1..], s)
  }

  function NewNode(tok: Tok): Tree {
    match tok.seg
    case Lit(c) => Tree(0, tok.bp, [c], MAX, [])
    case Par(t) => Tree(0, None, "", t, [])
  }

  /** The tree after `add`; none when `add` throws because the rule exists. */
  function Added(n: Tree, toks: seq<Tok>, rule: nat): Option<Tree>
    decreases |toks|
  {
    if toks == [] then
      if n.rule != 0 then None else Some(n.(rule := rule))
    else
      var i := ChildFor(n.children, toks[0].seg);
      if i < |n.children| then
        var c :- Added(n.children[i], toks[1..], rule);
        Some(n.(children := n.children[i := c]))
      else
        var c :- Added(NewNode(toks[0]), toks[1..], rule);
        Some(n.(children := n.children + [c]))
  }

  // ----- the list of patterns a tree holds ----------------------------------------------

  /** The rule index stored for exactly these segments, 0 when there is none. */
  function Lookup(n: Tree, segs: Pattern): nat
    decreases |segs|
  {
    if segs == [] then n.rule
    else
      var i := ChildFor(n.children, segs[0]);
      if i < |n.children| then Lookup(n.children[i], segs[1..]) else 0
  }

  predicate GoodSeg(s: Seg) {
    match s
    case Lit(c) => c != '\0'
    case Par(t) => t != MAX
  }

  ghost predicate GoodSegs(segs: Pattern) { forall i :: 0 <= i < |segs| ==> GoodSeg(segs[i]) }

  /** The segment a node of an uncompressed tree stands for. */
  function SegOf(n: Tree): Seg {
    if n.param != MAX then Par(n.param) else Lit(KeyHead(n.key))
  }

  /** Trees built by `add`: one character or one parameter a node, and no two
      children of a node for the same segment. */
  ghost predicate Plain(n: Tree)
    decreases n
  {
    && (forall i :: 0 <= i < |n.children| ==> PlainChild(n.children[i]))
    && (forall i, j :: 0 <= i < j < |n.children| ==> SegOf(n.children[i]) != SegOf(n.children[j]))
    && (forall i :: 0 <= i < |n.children| ==> Plain(n.children[i]))
  }

  predicate PlainChild(c: Tree) {
    if c.param != MAX then c.key == "" && c.bp.None? else |c.key| == 1 && c.key[0] != '\0'
  }
}
