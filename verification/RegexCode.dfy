/** The flat program: nodes of an opcode and a link, operands behind them, and how an expression is laid out. */
module RegexCode {
  import opened Bits
  import opened RegexSyntax

  const MAGIC: byte := 0x9c

  const END: byte := 0
  const BOL: byte := 1
  const EOL: byte := 2
  const ANY: byte := 3
  const ANYOF: byte := 4
  const ANYBUT: byte := 5
  const BRANCH: byte := 6
  const BACK: byte := 7
  const EXACTLY: byte := 8
  const NOTHING: byte := 9
  const STARS: byte := 10
  const PLUSES: byte := 11
  const OPEN: byte := 20
  const CLOSE: byte := 30

  /** The null pointer; no node lies at the place of the magic number. */
  const NULL: int := 0

  predicate InCode(code: seq<byte>, p: nat) {
    p + 3 <= |code|
  }

  function Offset(code: seq<byte>, p: nat): nat
    requires InCode(code, p)
  {
    code[p + 1] as int * 256 + code[p + 2]
  }

  /** Where the link of a node leads. */
  function Next(code: seq<byte>, p: nat): int
    requires InCode(code, p)
  {
    if Offset(code, p) == 0 then NULL
    else if code[p] == BACK then p - Offset(code, p)
    else p + Offset(code, p)
  }

  predicate Node(code: seq<byte>, p: nat, op: byte, next: int) {
    InCode(code, p) && code[p] == op && Next(code, p) == next
  }

  /** A terminated string operand, from its `i`-th character on. */
  predicate OperandFrom(code: seq<byte>, p: nat, t: seq<byte>, i: nat)
    requires i <= |t|
    decreases |t| - i
  {
    && p + i < |code|
    && if i == |t| then code[p + i] == NUL else code[p + i] == t[i] && OperandFrom(code, p, t, i + 1)
  }

  predicate Operand(code: seq<byte>, p: nat, t: seq<byte>) {
    OperandFrom(code, p, t, 0)
  }

  // ----- Sizes -----

  predicate IsLeaf(x: Piece) {
    x.Bol? || x.Eol? || x.Dot? || x.OneOf? || x.NoneOf? || x.Text?
  }

  function LeafOp(x: Piece): byte
    requires IsLeaf(x)
  {
    match x
    case Bol => BOL
    case Eol => EOL
    case Dot => ANY
    case OneOf(_) => ANYOF
    case NoneOf(_) => ANYBUT
    case Text(_) => EXACTLY
  }

  /** A leaf with a string operand has its characters and a terminator behind the node. */
  function LeafSize(x: Piece): (n: nat)
    requires IsLeaf(x)
    ensures n >= 3
  {
    match x
    case OneOf(c) => 4 + |c|
    case NoneOf(c) => 4 + |c|
    case Text(t) => 4 + |t|
    case _ => 3
  }

  function Size(x: Piece): (n: nat)
    ensures n >= 3
    decreases x
  {
    if IsLeaf(x) then LeafSize(x)
    else
      match x
      case Group(_, a) => 6 + AltsSize(a)
      case Star(y) => if Simple(y) then 3 + Size(y) else 12 + Size(y)
      case Plus(y) => if Simple(y) then 3 + Size(y) else 12 + Size(y)
      case Opt(y) => 9 + Size(y)
  }

  function BranchSize(b: Branch): (n: nat)
    ensures n >= 3
    decreases b
  {
    match b
    case Empty => 3
    case Then(x, rest) => Size(x) + if rest == Empty then 0 else BranchSize(rest)
  }

  /** The alternatives without what follows them. */
  function AltsSize(a: Alts): (n: nat)
    ensures n >= 6
    decreases a
  {
    3 + BranchSize(a.b) + if a.Or? then AltsSize(a.others) else 0
  }

  function Count(a: Alts): (n: nat)
    ensures n > 0
    decreases a
  {
    if a.Or? then 1 + Count(a.others) else 1
  }

  // ----- Layout -----

  predicate LaidLeaf(code: seq<byte>, p: nat, x: Piece, k: int)
    requires IsLeaf(x)
  {
    && Node(code, p, LeafOp(x), k)
    && match x
       case OneOf(c) => Operand(code, p + 3, c)
       case NoneOf(c) => Operand(code, p + 3, c)
       case Text(t) => Operand(code, p + 3, t)
       case _ => true
  }

  /** The nodes around a repeated operand that ends at `b`: to it, back to the choice, or on. */
  predicate StarNodes(code: seq<byte>, p: nat, b: nat, k: int) {
    && Node(code, p, BRANCH, b + 3) && Node(code, b, BACK, p)
    && Node(code, b + 3, BRANCH, b + 6) && Node(code, b + 6, NOTHING, k)
  }

  predicate PlusNodes(code: seq<byte>, p: nat, b: nat, k: int) {
    && Node(code, b, BRANCH, b + 6) && Node(code, b + 3, BACK, p)
    && Node(code, b + 6, BRANCH, b + 9) && Node(code, b + 9, NOTHING, k)
  }

  predicate OptNodes(code: seq<byte>, p: nat, b: nat, k: int) {
    Node(code, p, BRANCH, b) && Node(code, b, BRANCH, b + 3) && Node(code, b + 3, NOTHING, k)
  }

  /** `code` holds `x` at `p`, and what follows it is at `k`. */
  ghost predicate Laid(code: seq<byte>, p: nat, x: Piece, k: int)
    decreases x, 0
  {
    if IsLeaf(x) then LaidLeaf(code, p, x, k)
    else
      match x
      case Group(n, a) => LaidGroup(code, p, n, a, k)
      case Star(y) => LaidStar(code, p, y, k)
      case Plus(y) => LaidPlus(code, p, y, k)
      case Opt(y) => LaidOpt(code, p, y, k)
  }

  ghost predicate LaidGroup(code: seq<byte>, p: nat, n: nat, a: Alts, k: int)
    decreases a, 2
  {
    var e := p + 3 + AltsSize(a);
    && n < NSUBEXP
    && Node(code, p, OPEN + n, p + 3) && LaidAlts(code, p + 3, a, e, Count(a), e) && Node(code, e, CLOSE + n, k)
  }

  ghost predicate LaidStar(code: seq<byte>, p: nat, y: Piece, k: int)
    decreases y, 1
  {
    if Simple(y) then Node(code, p, STARS, k) && Laid(code, p + 3, y, NULL)
    else Laid(code, p + 3, y, p + 3 + Size(y)) && StarNodes(code, p, p + 3 + Size(y), k)
  }

  ghost predicate LaidPlus(code: seq<byte>, p: nat, y: Piece, k: int)
    decreases y, 1
  {
    if Simple(y) then Node(code, p, PLUSES, k) && Laid(code, p + 3, y, NULL)
    else Laid(code, p, y, p + Size(y)) && PlusNodes(code, p, p + Size(y), k)
  }

  ghost predicate LaidOpt(code: seq<byte>, p: nat, y: Piece, k: int)
    decreases y, 1
  {
    Laid(code, p + 3, y, p + 6 + Size(y)) && OptNodes(code, p, p + 3 + Size(y), k)
  }

  ghost predicate LaidBranch(code: seq<byte>, p: nat, b: Branch, k: int)
    decreases b, 0
  {
    match b
    case Empty => Node(code, p, NOTHING, k)
    case Then(x, rest) =>
      if rest == Empty then Laid(code, p, x, k)
      else Laid(code, p, x, p + Size(x)) && LaidBranch(code, p + Size(x), rest, k)
  }

  /**
   The alternatives at `p`: each choice node leads to the next, the last one to `last`; the first
   `hooked` alternatives go on at `e`, the others nowhere yet.
   */
  ghost predicate LaidAlts(code: seq<byte>, p: nat, a: Alts, last: int, hooked: nat, e: int)
    decreases a, 0
  {
    var q := p + 3 + BranchSize(a.b);
    && Node(code, p, BRANCH, if a.Or? then q else last)
    && LaidBranch(code, p + 3, a.b, if hooked > 0 then e else NULL)
    && (a.Or? ==> LaidAlts(code, q, a.others, last, if hooked > 0 then hooked - 1 else 0, e))
  }

  /** The nodes of the alternatives when all of them go on at `e`. */
  lemma {:induction false} AltsParts(code: seq<byte>, p: nat, a: Alts, hooked: nat, e: int)
    requires LaidAlts(code, p, a, e, hooked, e) == true && hooked >= Count(a)
    ensures var q := p + 3 + BranchSize(a.b);
      && Node(code, p, BRANCH, if a.Or? then q else e) && LaidBranch(code, p + 3, a.b, e)
      && (a.Or? ==>
            && LaidAlts(code, q, a.others, e, hooked - 1, e) && hooked - 1 >= Count(a.others)
            && Node(code, q, BRANCH, if a.others.Or? then q + 3 + BranchSize(a.others.b) else e))
  {
    hide Node, LaidBranch;
  }

  /** A complete program for `a`. */
  ghost predicate Program(code: seq<byte>, a: Alts) {
    var e := 1 + AltsSize(a);
    && |code| == e + 3 && code[0] == MAGIC
    && LaidAlts(code, 1, a, e, Count(a), e) && Node(code, e, END, NULL)
  }

  // ----- The node whose link leads on -----

  function Tail(p: nat, x: Piece): (t: nat)
    ensures p <= t && t + 3 <= p + Size(x)
  {
    match x
    case Group(_, a) => p + 3 + AltsSize(a)
    case Star(y) => if Simple(y) then p else p + 9 + Size(y)
    case Plus(y) => if Simple(y) then p else p + 9 + Size(y)
    case Opt(y) => p + 6 + Size(y)
    case _ => p
  }

  function BranchTail(p: nat, b: Branch): (t: nat)
    ensures p <= t && t + 3 <= p + BranchSize(b)
    decreases b
  {
    match b
    case Empty => p
    case Then(x, rest) => if rest == Empty then Tail(p, x) else BranchTail(p + Size(x), rest)
  }

  /** The last piece of a branch. */
  function LastAt(p: nat, b: Branch): (q: nat)
    ensures p <= q && q + 3 <= p + BranchSize(b)
    decreases b
  {
    match b
    case Empty => p
    case Then(x, rest) => if rest == Empty then p else LastAt(p + Size(x), rest)
  }

  /** The last choice node. */
  function LastChoice(p: nat, a: Alts): (t: nat)
    ensures p <= t && t + 6 <= p + AltsSize(a)
    decreases a
  {
    if a.Or? then LastChoice(p + 3 + BranchSize(a.b), a.others) else p
  }

  // ----- Moving code -----

  /** `to` holds at `delta` further on what `from` holds in `[lo, hi)`. */
  ghost predicate Moved(from: seq<byte>, to: seq<byte>, lo: nat, hi: nat, delta: nat)
    decreases hi - lo
  {
    lo < hi ==> lo < |from| && lo + delta < |to| && to[lo + delta] == from[lo] && Moved(from, to, lo + 1, hi, delta)
  }

  lemma {:induction false} MovedAll(from: seq<byte>, to: seq<byte>, lo: nat, hi: nat, delta: nat)
    requires hi <= |from| && hi + delta <= |to| && forall i :: lo <= i < hi ==> to[i + delta] == from[i]
    ensures Moved(from, to, lo, hi, delta)
    decreases hi - lo
  {
    if lo < hi {
      MovedAll(from, to, lo + 1, hi, delta);
    }
  }

  lemma {:induction false} MovedAt(from: seq<byte>, to: seq<byte>, lo: nat, hi: nat, delta: nat, i: nat)
    requires Moved(from, to, lo, hi, delta) && lo <= i < hi
    ensures i < |from| && i + delta < |to| && to[i + delta] == from[i]
    decreases i - lo
  {
    if lo < i {
      MovedAt(from, to, lo + 1, hi, delta, i);
    }
  }

  function Shift(k: int, delta: nat): int {
    if k == NULL then NULL else k + delta
  }

  lemma {:induction false} MoveNode(from: seq<byte>, to: seq<byte>, lo: nat, hi: nat, delta: nat, p: nat, op: byte, k: int)
    requires Moved(from, to, lo, hi, delta) && lo <= p && p + 3 <= hi
    requires Node(from, p, op, k) && p > 0 && k >= 0 && (op == BACK ==> k > 0)
    ensures Node(to, p + delta, op, Shift(k, delta))
  {
    MovedAt(from, to, lo, hi, delta, p);
    MovedAt(from, to, lo, hi, delta, p + 1);
    MovedAt(from, to, lo, hi, delta, p + 2);
  }

  lemma {:induction false} MoveOperand(from: seq<byte>, to: seq<byte>, lo: nat, hi: nat, delta: nat, p: nat, t: seq<byte>, i: nat)
    requires Moved(from, to, lo, hi, delta) && lo <= p && p + |t| + 1 <= hi && i <= |t|
    requires OperandFrom(from, p, t, i)
    ensures OperandFrom(to, p + delta, t, i)
    decreases |t| - i
  {
    MovedAt(from, to, lo, hi, delta, p + i);
    if i < |t| {
      MoveOperand(from, to, lo, hi, delta, p, t, i + 1);
    }
  }

  lemma {:induction false} MoveLeaf(from: seq<byte>, to: seq<byte>, lo: nat, hi: nat, delta: nat, p: nat, x: Piece, k: int)
    requires Moved(from, to, lo, hi, delta) && IsLeaf(x) && lo <= p && p + LeafSize(x) <= hi
    requires LaidLeaf(from, p, x, k) && p > 0 && k >= 0
    ensures LaidLeaf(to, p + delta, x, Shift(k, delta))
  {
    MoveNode(from, to, lo, hi, delta, p, LeafOp(x), k);
    match x
    case OneOf(c) => MoveOperand(from, to, lo, hi, delta, p + 3, c, 0);
    case NoneOf(c) => MoveOperand(from, to, lo, hi, delta, p + 3, c, 0);
    case Text(t) => MoveOperand(from, to, lo, hi, delta, p + 3, t, 0);
    case _ =>
  }

  lemma {:induction false} MoveStarNodes(from: seq<byte>, to: seq<byte>, lo: nat, hi: nat, delta: nat, p: nat, b: nat, k: int)
    requires Moved(from, to, lo, hi, delta) && lo <= p && b + 9 <= hi && 0 < p && p + 3 <= b && k >= 0
    requires StarNodes(from, p, b, k)
    ensures StarNodes(to, p + delta, b + delta, Shift(k, delta))
  {
    hide Node, Moved;
    MoveNode(from, to, lo, hi, delta, p, BRANCH, b + 3);
    MoveNode(from, to, lo, hi, delta, b, BACK, p);
    MoveNode(from, to, lo, hi, delta, b + 3, BRANCH, b + 6);
    MoveNode(from, to, lo, hi, delta, b + 6, NOTHING, k);
  }

  lemma {:induction false} MovePlusNodes(from: seq<byte>, to: seq<byte>, lo: nat, hi: nat, delta: nat, p: nat, b: nat, k: int)
    requires Moved(from, to, lo, hi, delta) && lo <= p && b + 12 <= hi && 0 < p && p <= b && k >= 0
    requires PlusNodes(from, p, b, k)
    ensures PlusNodes(to, p + delta, b + delta, Shift(k, delta))
  {
    hide Node, Moved;
    MoveNode(from, to, lo, hi, delta, b, BRANCH, b + 6);
    MoveNode(from, to, lo, hi, delta, b + 3, BACK, p);
    MoveNode(from, to, lo, hi, delta, b + 6, BRANCH, b + 9);
    MoveNode(from, to, lo, hi, delta, b + 9, NOTHING, k);
  }

  lemma {:induction false} MoveOptNodes(from: seq<byte>, to: seq<byte>, lo: nat, hi: nat, delta: nat, p: nat, b: nat, k: int)
    requires Moved(from, to, lo, hi, delta) && lo <= p && b + 6 <= hi && 0 < p && p + 3 <= b && k >= 0
    requires OptNodes(from, p, b, k)
    ensures OptNodes(to, p + delta, b + delta, Shift(k, delta))
  {
    hide Node, Moved;
    MoveNode(from, to, lo, hi, delta, p, BRANCH, b);
    MoveNode(from, to, lo, hi, delta, b, BRANCH, b + 3);
    MoveNode(from, to, lo, hi, delta, b + 3, NOTHING, k);
  }

  lemma {:induction false} MoveStar(from: seq<byte>, to: seq<byte>, lo: nat, hi: nat, delta: nat, p: nat, y: Piece, k: int)
    requires Moved(from, to, lo, hi, delta) == true && lo <= p && p + Size(Star(y)) <= hi && p > 0 && k >= 0
    requires LaidStar(from, p, y, k) == true
    ensures LaidStar(to, p + delta, y, Shift(k, delta)) == true
    decreases y, 1
  {
    hide Node, Moved, Laid, StarNodes;
    if Simple(y) {
      MoveNode(from, to, lo, hi, delta, p, STARS, k);
      MovePiece(from, to, lo, hi, delta, p + 3, y, NULL);
    } else {
      MovePiece(from, to, lo, hi, delta, p + 3, y, p + 3 + Size(y));
      MoveStarNodes(from, to, lo, hi, delta, p, p + 3 + Size(y), k);
    }
  }

  lemma {:induction false} MovePlus(from: seq<byte>, to: seq<byte>, lo: nat, hi: nat, delta: nat, p: nat, y: Piece, k: int)
    requires Moved(from, to, lo, hi, delta) == true && lo <= p && p + Size(Plus(y)) <= hi && p > 0 && k >= 0
    requires LaidPlus(from, p, y, k) == true
    ensures LaidPlus(to, p + delta, y, Shift(k, delta)) == true
    decreases y, 1
  {
    hide Node, Moved, Laid, PlusNodes;
    if Simple(y) {
      MoveNode(from, to, lo, hi, delta, p, PLUSES, k);
      MovePiece(from, to, lo, hi, delta, p + 3, y, NULL);
    } else {
      MovePiece(from, to, lo, hi, delta, p, y, p + Size(y));
      MovePlusNodes(from, to, lo, hi, delta, p, p + Size(y), k);
    }
  }

  lemma {:induction false} MoveOpt(from: seq<byte>, to: seq<byte>, lo: nat, hi: nat, delta: nat, p: nat, y: Piece, k: int)
    requires Moved(from, to, lo, hi, delta) == true && lo <= p && p + Size(Opt(y)) <= hi && p > 0 && k >= 0
    requires LaidOpt(from, p, y, k) == true
    ensures LaidOpt(to, p + delta, y, Shift(k, delta)) == true
    decreases y, 1
  {
    hide Node, Moved, Laid, OptNodes;
    MovePiece(from, to, lo, hi, delta, p + 3, y, p + 6 + Size(y));
    MoveOptNodes(from, to, lo, hi, delta, p, p + 3 + Size(y), k);
  }

  lemma {:induction false} MoveGroup(from: seq<byte>, to: seq<byte>, lo: nat, hi: nat, delta: nat, p: nat, n: nat, a: Alts, k: int)
    requires Moved(from, to, lo, hi, delta) == true && lo <= p && p + Size(Group(n, a)) <= hi && p > 0 && k >= 0
    requires LaidGroup(from, p, n, a, k) == true
    ensures LaidGroup(to, p + delta, n, a, Shift(k, delta)) == true
    decreases a, 2
  {
    hide Node, Moved, LaidAlts;
    var e := p + 3 + AltsSize(a);
    MoveNode(from, to, lo, hi, delta, p, OPEN + n, p + 3);
    MoveAlts(from, to, lo, hi, delta, p + 3, a, e, Count(a), e);
    MoveNode(from, to, lo, hi, delta, e, CLOSE + n, k);
  }

  /** Code that is moved as a whole keeps its layout: links are relative. */
  lemma {:induction false} MovePiece(from: seq<byte>, to: seq<byte>, lo: nat, hi: nat, delta: nat, p: nat, x: Piece, k: int)
    requires Moved(from, to, lo, hi, delta) == true && lo <= p && p + Size(x) <= hi && p > 0 && k >= 0
    requires Laid(from, p, x, k) == true
    ensures Laid(to, p + delta, x, Shift(k, delta)) == true
    decreases x, 0
  {
    hide Moved, LaidLeaf, LaidGroup, LaidStar, LaidPlus, LaidOpt;
    if IsLeaf(x) {
      MoveLeaf(from, to, lo, hi, delta, p, x, k);
    } else {
      match x
      case Group(n, a) => MoveGroup(from, to, lo, hi, delta, p, n, a, k);
      case Star(y) => MoveStar(from, to, lo, hi, delta, p, y, k);
      case Plus(y) => MovePlus(from, to, lo, hi, delta, p, y, k);
      case Opt(y) => MoveOpt(from, to, lo, hi, delta, p, y, k);
    }
  }

  lemma {:induction false} MoveBranch(from: seq<byte>, to: seq<byte>, lo: nat, hi: nat, delta: nat, p: nat, b: Branch, k: int)
    requires Moved(from, to, lo, hi, delta) == true && lo <= p && p + BranchSize(b) <= hi && p > 0 && k >= 0
    requires LaidBranch(from, p, b, k) == true
    ensures LaidBranch(to, p + delta, b, Shift(k, delta)) == true
    decreases b, 0
  {
    hide Node, Moved, Laid;
    match b
    case Empty => MoveNode(from, to, lo, hi, delta, p, NOTHING, k);
    case Then(x, rest) =>
      if rest == Empty {
        MovePiece(from, to, lo, hi, delta, p, x, k);
      } else {
        MovePiece(from, to, lo, hi, delta, p, x, p + Size(x));
        MoveBranch(from, to, lo, hi, delta, p + Size(x), rest, k);
      }
  }

  lemma {:induction false} MoveAlts(from: seq<byte>, to: seq<byte>, lo: nat, hi: nat, delta: nat,
                                    p: nat, a: Alts, last: int, hooked: nat, e: int)
    requires Moved(from, to, lo, hi, delta) == true && lo <= p && p + AltsSize(a) <= hi
    requires LaidAlts(from, p, a, last, hooked, e) == true && p > 0 && last >= 0 && e > 0
    ensures LaidAlts(to, p + delta, a, Shift(last, delta), hooked, e + delta) == true
    decreases a, 0
  {
    hide Node, Moved, LaidBranch;
    var q := p + 3 + BranchSize(a.b);
    MoveNode(from, to, lo, hi, delta, p, BRANCH, if a.Or? then q else last);
    MoveBranch(from, to, lo, hi, delta, p + 3, a.b, if hooked > 0 then e else NULL);
    if a.Or? {
      MoveAlts(from, to, lo, hi, delta, q, a.others, last, if hooked > 0 then hooked - 1 else 0, e);
    }
  }

  // ----- Linking -----

  /** The bytes of a link of size `d`. */
  function Linked(code: seq<byte>, p: nat, d: nat): (r: seq<byte>)
    requires InCode(code, p)
    ensures |r| == |code| && forall i :: 0 <= i < |code| && i != p + 1 && i != p + 2 ==> r[i] == code[i]
    ensures d < 65536 ==> Offset(r, p) == d
  {
    code[p + 1 := d / 256 % 256][p + 2 := d % 256]
  }

  /** Between `lo` and `hi` the codes agree but for the link at `t`, which now leads to `k`. */
  ghost predicate Relinked(from: seq<byte>, to: seq<byte>, lo: nat, hi: nat, t: nat, k: int) {
    && lo <= t && t + 3 <= hi <= |to| && Next(to, t) == k
    && Moved(from, to, lo, t + 1, 0) && Moved(from, to, t + 3, hi, 0)
  }

  /** The node itself, the part before the link, and the part behind it. */
  lemma {:induction false} RelinkNode(from: seq<byte>, to: seq<byte>, lo: nat, hi: nat, t: nat, op: byte, k0: int, k: int)
    requires Relinked(from, to, lo, hi, t, k) && Node(from, t, op, k0)
    ensures Node(to, t, op, k)
    ensures Moved(from, to, lo, t + 1, 0) && Moved(from, to, t + 3, hi, 0)
  {
    MovedAt(from, to, lo, t + 1, 0, t);
  }

  lemma {:induction false} RelinkedBefore(from: seq<byte>, to: seq<byte>, lo: nat, hi: nat, t: nat, k: int)
    requires Relinked(from, to, lo, hi, t, k)
    ensures lo <= t && Moved(from, to, lo, t + 1, 0)
  {
  }

  lemma {:induction false} Nearer(from: seq<byte>, to: seq<byte>, lo: nat, q: nat, hi: nat, t: nat, k: int)
    requires Relinked(from, to, lo, hi, t, k) && lo <= q <= t
    ensures Relinked(from, to, q, hi, t, k)
    decreases q - lo
  {
    if lo < q {
      Nearer(from, to, lo + 1, q, hi, t, k);
    }
  }

  lemma {:induction false} RelinkLeaf(from: seq<byte>, to: seq<byte>, p: nat, x: Piece, k0: int, k: int)
    requires IsLeaf(x) && LaidLeaf(from, p, x, k0) == true && p > 0 && Relinked(from, to, p, p + LeafSize(x), p, k) == true
    ensures LaidLeaf(to, p, x, k) == true
  {
    var hi := p + LeafSize(x);
    RelinkNode(from, to, p, hi, p, LeafOp(x), k0, k);
    match x
    case OneOf(c) => MoveOperand(from, to, p + 3, hi, 0, p + 3, c, 0);
    case NoneOf(c) => MoveOperand(from, to, p + 3, hi, 0, p + 3, c, 0);
    case Text(s) => MoveOperand(from, to, p + 3, hi, 0, p + 3, s, 0);
    case _ =>
  }

  lemma {:induction false} RelinkStar(from: seq<byte>, to: seq<byte>, p: nat, y: Piece, k0: int, k: int)
    requires LaidStar(from, p, y, k0) == true && p > 0
    requires Relinked(from, to, p, p + Size(Star(y)), Tail(p, Star(y)), k) == true
    ensures LaidStar(to, p, y, k) == true
  {
    hide Node, Moved, Laid, Relinked;
    var t, hi := Tail(p, Star(y)), p + Size(Star(y));
    if Simple(y) {
      RelinkNode(from, to, p, hi, p, STARS, k0, k);
      MovePiece(from, to, p + 3, hi, 0, p + 3, y, NULL);
    } else {
      var b := p + 3 + Size(y);
      assert t == b + 6 && hi == b + 9;
      RelinkNode(from, to, p, hi, t, NOTHING, k0, k);
      MovePiece(from, to, p, t + 1, 0, p + 3, y, b);
      MoveNode(from, to, p, t + 1, 0, p, BRANCH, b + 3);
      MoveNode(from, to, p, t + 1, 0, b, BACK, p);
      MoveNode(from, to, p, t + 1, 0, b + 3, BRANCH, b + 6);
    }
  }

  lemma {:induction false} RelinkPlus(from: seq<byte>, to: seq<byte>, p: nat, y: Piece, k0: int, k: int)
    requires LaidPlus(from, p, y, k0) == true && p > 0
    requires Relinked(from, to, p, p + Size(Plus(y)), Tail(p, Plus(y)), k) == true
    ensures LaidPlus(to, p, y, k) == true
  {
    hide Node, Moved, Laid, Relinked;
    var t, hi := Tail(p, Plus(y)), p + Size(Plus(y));
    if Simple(y) {
      RelinkNode(from, to, p, hi, p, PLUSES, k0, k);
      MovePiece(from, to, p + 3, hi, 0, p + 3, y, NULL);
    } else {
      var b := p + Size(y);
      assert t == b + 9 && hi == b + 12;
      RelinkNode(from, to, p, hi, t, NOTHING, k0, k);
      MovePiece(from, to, p, t + 1, 0, p, y, b);
      MoveNode(from, to, p, t + 1, 0, b, BRANCH, b + 6);
      MoveNode(from, to, p, t + 1, 0, b + 3, BACK, p);
      MoveNode(from, to, p, t + 1, 0, b + 6, BRANCH, b + 9);
    }
  }

  lemma {:induction false} RelinkGroup(from: seq<byte>, to: seq<byte>, p: nat, n: nat, a: Alts, k0: int, k: int)
    requires LaidGroup(from, p, n, a, k0) == true && p > 0
    requires Relinked(from, to, p, p + 6 + AltsSize(a), p + 3 + AltsSize(a), k) == true
    ensures LaidGroup(to, p, n, a, k) == true
  {
    hide Node, Moved, LaidAlts, Relinked;
    var t := p + 3 + AltsSize(a);
    RelinkNode(from, to, p, t + 3, t, CLOSE + n, k0, k);
    MoveNode(from, to, p, t + 1, 0, p, OPEN + n, p + 3);
    MoveAlts(from, to, p, t + 1, 0, p + 3, a, t, Count(a), t);
  }

  lemma {:induction false} RelinkOpt(from: seq<byte>, to: seq<byte>, p: nat, y: Piece, k0: int, k: int)
    requires LaidOpt(from, p, y, k0) == true && p > 0
    requires Relinked(from, to, p, p + Size(Opt(y)), Tail(p, Opt(y)), k) == true
    ensures LaidOpt(to, p, y, k) == true
  {
    hide Node, Moved, Laid, Relinked;
    var t, b := p + 6 + Size(y), p + 3 + Size(y);
    assert Size(Opt(y)) == 9 + Size(y) && Tail(p, Opt(y)) == t;
    RelinkNode(from, to, p, p + Size(Opt(y)), t, NOTHING, k0, k);
    MovePiece(from, to, p, t + 1, 0, p + 3, y, b + 3);
    MoveNode(from, to, p, t + 1, 0, p, BRANCH, b);
    MoveNode(from, to, p, t + 1, 0, b, BRANCH, b + 3);
  }

  /** Setting the link of its tail makes a piece go on where that link leads. */
  lemma {:induction false} RelinkPiece(from: seq<byte>, to: seq<byte>, p: nat, x: Piece, k0: int, k: int)
    requires Laid(from, p, x, k0) == true && p > 0
    requires Relinked(from, to, p, p + Size(x), Tail(p, x), k) == true
    ensures Laid(to, p, x, k) == true
  {
    hide Moved, LaidLeaf, LaidGroup, LaidStar, LaidPlus, LaidOpt, Relinked;
    if IsLeaf(x) {
      RelinkLeaf(from, to, p, x, k0, k);
    } else {
      match x
      case Group(n, a) => RelinkGroup(from, to, p, n, a, k0, k);
      case Star(y) => RelinkStar(from, to, p, y, k0, k);
      case Plus(y) => RelinkPlus(from, to, p, y, k0, k);
      case Opt(y) => RelinkOpt(from, to, p, y, k0, k);
    }
  }

  lemma {:induction false} RelinkBranch(from: seq<byte>, to: seq<byte>, p: nat, b: Branch, k0: int, k: int)
    requires LaidBranch(from, p, b, k0) == true && p > 0
    requires Relinked(from, to, p, p + BranchSize(b), BranchTail(p, b), k) == true
    ensures LaidBranch(to, p, b, k) == true
    decreases b
  {
    hide Node, Moved, Laid, Relinked;
    var t, hi := BranchTail(p, b), p + BranchSize(b);
    match b
    case Empty => RelinkNode(from, to, p, hi, p, NOTHING, k0, k);
    case Then(x, rest) =>
      if rest == Empty {
        RelinkPiece(from, to, p, x, k0, k);
      } else {
        var q := p + Size(x);
        RelinkedBefore(from, to, p, hi, t, k);
        MovePiece(from, to, p, t + 1, 0, p, x, q);
        Nearer(from, to, p, q, hi, t, k);
        RelinkBranch(from, to, q, rest, k0, k);
      }
  }

  // ----- Following links -----

  /** Links lead forward from `p` to `t`. */
  ghost predicate Path(code: seq<byte>, p: nat, t: nat)
    decreases t - p
  {
    p == t || (p < t && InCode(code, p) && code[p] != BACK && p < Next(code, p) <= t && Path(code, Next(code, p), t))
  }

  lemma {:induction false} PathJoin(code: seq<byte>, p: nat, t: nat, u: nat)
    requires Path(code, p, t) && Path(code, t, u)
    ensures Path(code, p, u)
    decreases t - p
  {
    if p < t {
      PathJoin(code, Next(code, p), t, u);
    }
  }

  /** From `p` links lead forward to `t`, and from there to `k`. */
  ghost predicate Leads(code: seq<byte>, p: nat, t: nat, k: int) {
    Path(code, p, t) && InCode(code, t) && Next(code, t) == k && code[t] != BACK
  }

  lemma {:induction false} LeadsHere(code: seq<byte>, p: nat, op: byte, k: int)
    requires Node(code, p, op, k) && op != BACK
    ensures Leads(code, p, p, k)
  {
  }

  lemma {:induction false} LeadsStep(code: seq<byte>, p: nat, op: byte, q: int, t: nat, k: int)
    requires Node(code, p, op, q) && op != BACK && p < q && Leads(code, q, t, k) && q <= t
    ensures Leads(code, p, t, k)
  {
  }

  lemma {:induction false} LeadsJoin(code: seq<byte>, p: nat, u: nat, q: nat, t: nat, k: int)
    requires Leads(code, p, u, q) && u < q <= t && Leads(code, q, t, k) && p <= u
    ensures Leads(code, p, t, k)
  {
    PathJoin(code, p, u, t);
  }

  lemma {:induction false} LeadsPlus(code: seq<byte>, p: nat, y: Piece, k: int)
    requires LaidPlus(code, p, y, k) == true
    ensures Leads(code, p, Tail(p, Plus(y)), k)
    decreases y, 1
  {
    hide Node, Laid, Leads;
    if Simple(y) {
      LeadsHere(code, p, PLUSES, k);
    } else {
      var b := p + Size(y);
      LeadsHere(code, b + 9, NOTHING, k);
      LeadsStep(code, b + 6, BRANCH, b + 9, b + 9, k);
      LeadsStep(code, b, BRANCH, b + 6, b + 9, k);
      LeadsPiece(code, p, y, b);
      LeadsJoin(code, p, Tail(p, y), b, b + 9, k);
    }
  }

  lemma {:induction false} LeadsStar(code: seq<byte>, p: nat, y: Piece, k: int)
    requires LaidStar(code, p, y, k) == true
    ensures Leads(code, p, Tail(p, Star(y)), k)
  {
    hide Node, Laid, Leads;
    if Simple(y) {
      LeadsHere(code, p, STARS, k);
    } else {
      var b := p + 3 + Size(y);
      LeadsHere(code, b + 6, NOTHING, k);
      LeadsStep(code, b + 3, BRANCH, b + 6, b + 6, k);
      LeadsStep(code, p, BRANCH, b + 3, b + 6, k);
    }
  }

  lemma {:induction false} LeadsOpt(code: seq<byte>, p: nat, y: Piece, k: int)
    requires LaidOpt(code, p, y, k) == true
    ensures Leads(code, p, Tail(p, Opt(y)), k)
  {
    hide Node, Laid, Leads;
    var b := p + 3 + Size(y);
    LeadsHere(code, b + 3, NOTHING, k);
    LeadsStep(code, b, BRANCH, b + 3, b + 3, k);
    LeadsStep(code, p, BRANCH, b, b + 3, k);
  }

  lemma {:induction false} LeadsGroup(code: seq<byte>, p: nat, n: nat, a: Alts, k: int)
    requires LaidGroup(code, p, n, a, k) == true
    ensures Leads(code, p, p + 3 + AltsSize(a), k)
  {
    hide Node, LaidAlts, Leads;
    var e := p + 3 + AltsSize(a);
    LeadsHere(code, e, CLOSE + n, k);
    LeadsAlts(code, p + 3, a, e, Count(a), e);
    LeadsJoin(code, p + 3, LastChoice(p + 3, a), e, e, k);
    LeadsStep(code, p, OPEN + n, p + 3, e, k);
  }

  /** From its first node the links of a piece lead to its tail, and from there to what follows. */
  lemma {:induction false} LeadsPiece(code: seq<byte>, p: nat, x: Piece, k: int)
    requires Laid(code, p, x, k) == true
    ensures Leads(code, p, Tail(p, x), k)
    decreases x, 0
  {
    hide Node, Leads, LaidGroup, LaidStar, LaidPlus, LaidOpt;
    if IsLeaf(x) {
      LeadsHere(code, p, LeafOp(x), k);
    } else {
      match x
      case Group(n, a) => LeadsGroup(code, p, n, a, k);
      case Plus(y) => LeadsPlus(code, p, y, k);
      case Star(y) => LeadsStar(code, p, y, k);
      case Opt(y) => LeadsOpt(code, p, y, k);
    }
  }

  /** From the first choice node links lead to the last. */
  lemma {:induction false} LeadsAlts(code: seq<byte>, p: nat, a: Alts, last: int, hooked: nat, e: int)
    requires LaidAlts(code, p, a, last, hooked, e) == true
    ensures Leads(code, p, LastChoice(p, a), last)
    decreases a, 0
  {
    hide Node, Leads, LaidBranch;
    if a.Or? {
      var q := p + 3 + BranchSize(a.b);
      LeadsAlts(code, q, a.others, last, if hooked > 0 then hooked - 1 else 0, e);
      LeadsStep(code, p, BRANCH, q, LastChoice(q, a.others), last);
    } else {
      LeadsHere(code, p, BRANCH, last);
    }
  }

  /** The links of a branch, from its first piece and from its last. */
  lemma {:induction false} LeadsBranch(code: seq<byte>, p: nat, b: Branch, k: int)
    requires LaidBranch(code, p, b, k) == true
    ensures Leads(code, p, BranchTail(p, b), k) && Leads(code, LastAt(p, b), BranchTail(p, b), k)
    decreases b, 0
  {
    hide Node, Leads, Laid;
    match b
    case Empty => LeadsHere(code, p, NOTHING, k);
    case Then(x, rest) =>
      if rest == Empty {
        LeadsPiece(code, p, x, k);
      } else {
        var q := p + Size(x);
        LeadsPiece(code, p, x, q);
        LeadsBranch(code, q, rest, k);
        LeadsJoin(code, p, Tail(p, x), q, BranchTail(q, rest), k);
      }
  }
}
