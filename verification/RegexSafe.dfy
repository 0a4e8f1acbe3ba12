/** Every walk through a compiled program stays inside it and comes to an end. */
module RegexSafe {
  import opened Bits
  import opened RegexSyntax
  import opened RegexCode
  import opened RegexOrder
  import opened RegexRun

  /** A string operand to be matched literally is not empty. */
  predicate HasText(code: seq<byte>, p: nat)
    requires InCode(code, p)
  {
    code[p] == EXACTLY ==> At(code, p + 3) != NUL
  }

  predicate Repeatable(code: seq<byte>, p: nat)
    requires InCode(code, p)
  {
    (code[p] == ANY || code[p] == EXACTLY || code[p] == ANYOF || code[p] == ANYBUT) && HasText(code, p)
  }

  /** From `p` at `i`, whatever choices are made, the walk is over in fewer than `n` steps, and has met only nodes. */
  ghost predicate Safe(code: seq<byte>, p: int, s: seq<byte>, i: nat, n: nat)
    requires i <= |s|
    decreases n
  {
    n > 0 && p > 0 && InCode(code, p) &&
    var op, next := code[p], Next(code, p);
    if op == END then true
    else if op == BRANCH then
      && next > 0 && InCode(code, next)
      && Safe(code, p + 3, s, i, n - 1) && (code[next] == BRANCH ==> Safe(code, next, s, i, n - 1))
    else if op == STARS || op == PLUSES then
      && InCode(code, p + 3) && Repeatable(code, p + 3) && next > 0 && InCode(code, next)
      && forall c: nat :: Min(op) <= c <= Run(code, p + 3, s, i) ==> SafeAfter(code, next, s, i, c, n)
    else IsOrdinary(op) && HasText(code, p) && (Eats(code, p, s, i) >= 0 ==> Safe(code, next, s, i + Eats(code, p, s, i), n - 1))
  }

  ghost predicate SafeAfter(code: seq<byte>, p: int, s: seq<byte>, i: nat, c: nat, n: nat)
    requires i + c <= |s| && n > 0
    decreases n, 0
  {
    Safe(code, p, s, i + c, n - 1)
  }

  /** Safe from `lo` on. */
  ghost predicate AllSafe(code: seq<byte>, p: int, s: seq<byte>, lo: nat, n: nat) {
    forall i: nat :: lo <= i <= |s| ==> Safe(code, p, s, i, n)
  }

  lemma {:induction false} SafeMore(code: seq<byte>, p: int, s: seq<byte>, i: nat, n: nat, m: nat)
    requires i <= |s| && Safe(code, p, s, i, n) && n <= m
    ensures Safe(code, p, s, i, m)
    decreases n
  {
    var op, next := code[p], Next(code, p);
    if op == END {
    } else if op == BRANCH {
      SafeMore(code, p + 3, s, i, n - 1, m - 1);
      if code[next] == BRANCH { SafeMore(code, next, s, i, n - 1, m - 1); }
    } else if op == STARS || op == PLUSES {
      forall c: nat | Min(op) <= c <= Run(code, p + 3, s, i)
        ensures SafeAfter(code, next, s, i, c, m)
      {
        assert SafeAfter(code, next, s, i, c, n);
        SafeMore(code, next, s, i + c, n - 1, m - 1);
      }
    } else if Eats(code, p, s, i) >= 0 {
      SafeMore(code, next, s, i + Eats(code, p, s, i), n - 1, m - 1);
    }
  }

  lemma AllSafeMore(code: seq<byte>, p: int, s: seq<byte>, lo: nat, n: nat, m: nat)
    requires AllSafe(code, p, s, lo, n) && n <= m
    ensures AllSafe(code, p, s, lo, m)
  {
    forall i: nat | lo <= i <= |s|
      ensures Safe(code, p, s, i, m)
    {
      SafeMore(code, p, s, i, n, m);
    }
  }

  lemma Later(code: seq<byte>, p: int, s: seq<byte>, lo: nat, hi: nat, n: nat)
    requires AllSafe(code, p, s, lo, n) && lo <= hi
    ensures AllSafe(code, p, s, hi, n)
  {
  }

  // ----- By the kind of node -----

  lemma PassSafe(code: seq<byte>, p: nat, s: seq<byte>, lo: nat, op: byte, k: int, n: nat)
    requires p > 0 && Node(code, p, op, k) && IsOrdinary(op) && (op == NOTHING || op == BACK || op > OPEN)
    requires AllSafe(code, k, s, lo, n)
    ensures AllSafe(code, p, s, lo, n + 1)
  {
    var m := n + 1;
    forall i: nat | lo <= i <= |s|
      ensures Safe(code, p, s, i, m)
    {
      assert Eats(code, p, s, i) == 0 && Safe(code, k, s, i, n);
    }
  }

  lemma LastBranchSafe(code: seq<byte>, p: nat, s: seq<byte>, lo: nat, k: nat, n: nat)
    requires p > 0 && Node(code, p, BRANCH, k) && k > 0 && InCode(code, k) && code[k] != BRANCH
    requires AllSafe(code, p + 3, s, lo, n)
    ensures AllSafe(code, p, s, lo, n + 1)
  {
    var m := n + 1;
    forall i: nat | lo <= i <= |s|
      ensures Safe(code, p, s, i, m)
    {
      assert Safe(code, p + 3, s, i, n);
    }
  }

  lemma OtherBranchSafe(code: seq<byte>, p: nat, s: seq<byte>, lo: nat, k: nat, l: int, n: nat, m: nat) returns (r: nat)
    requires p > 0 && k > 0 && Node(code, p, BRANCH, k) && Node(code, k, BRANCH, l)
    requires AllSafe(code, p + 3, s, lo, n) && AllSafe(code, k, s, lo, m)
    ensures AllSafe(code, p, s, lo, r)
  {
    var x := if n < m then m else n;
    AllSafeMore(code, p + 3, s, lo, n, x);
    AllSafeMore(code, k, s, lo, m, x);
    r := x + 1;
    forall i: nat | lo <= i <= |s|
      ensures Safe(code, p, s, i, r)
    {
      assert Safe(code, p + 3, s, i, x) && Safe(code, k, s, i, x);
    }
  }

  function Width(x: Piece): nat {
    if HasWidth(x) then 1 else 0
  }

  function BranchWidth(b: Branch): nat {
    if BranchHasWidth(b) then 1 else 0
  }

  function AltsWidth(a: Alts): nat {
    if AltsHaveWidth(a) then 1 else 0
  }

  lemma LeafHasText(code: seq<byte>, p: nat, x: Piece, k: int)
    requires IsLeaf(x) && LaidLeaf(code, p, x, k) && Good(x)
    ensures HasText(code, p)
  {
  }

  lemma LeafSafe(code: seq<byte>, p: nat, x: Piece, k: int, s: seq<byte>, lo: nat, n: nat)
    requires IsLeaf(x) && LaidLeaf(code, p, x, k) && Good(x) && p > 0
    requires AllSafe(code, k, s, lo + Width(x), n)
    ensures AllSafe(code, p, s, lo, n + 1)
  {
    var m := n + 1;
    LeafHasText(code, p, x, k);
    forall i: nat | lo <= i <= |s|
      ensures Safe(code, p, s, i, m)
    {
      var w := Eats(code, p, s, i);
      if w >= 0 {
        LeafTries(code, p, x, k, s, i, Done);
        assert Safe(code, k, s, i + w, n);
      }
    }
  }

  lemma SimpleLoopSafe(code: seq<byte>, p: nat, y: Piece, op: byte, k: nat, s: seq<byte>, lo: nat, n: nat)
    requires Simple(y) && LaidLeaf(code, p + 3, y, NULL) && Good(y) && p > 0 && (op == STARS || op == PLUSES)
    requires Node(code, p, op, k) && k > 0 && InCode(code, k) && AllSafe(code, k, s, lo + Min(op), n)
    ensures AllSafe(code, p, s, lo, n + 1)
  {
    var m := n + 1;
    LeafHasText(code, p + 3, y, NULL);
    forall i: nat | lo <= i <= |s|
      ensures Safe(code, p, s, i, m)
    {
      forall c: nat | Min(op) <= c <= Run(code, p + 3, s, i)
        ensures SafeAfter(code, k, s, i, c, m)
      {
        assert Safe(code, k, s, i + c, n);
      }
    }
  }

  // ----- By the kind of piece -----

  /** Each time round the loop takes at least one character. */
  lemma StarSafe(code: seq<byte>, p: nat, y: Piece, k: nat, s: seq<byte>, lo: nat, n: nat) returns (m: nat)
    requires LaidStar(code, p, y, k) == true && !Simple(y) && Good(y) && HasWidth(y) && p > 0
    requires k > 0 && InCode(code, k) && AllSafe(code, k, s, lo, n)
    ensures AllSafe(code, p, s, lo, m)
    decreases y, 1, |s| + 1 - lo
  {
    if lo > |s| { return 0; }
    hide Node, Laid, Safe;
    var b := p + 3 + Size(y);
    var m1 := StarSafe(code, p, y, k, s, lo + 1, n);
    PassSafe(code, b, s, lo + 1, BACK, p, m1);
    NotBranch(code, b, BACK, p);
    var m2 := PieceSafe(code, p + 3, y, b, s, lo, m1 + 1);
    PassSafe(code, b + 6, s, lo, NOTHING, k, n);
    NotBranch(code, b + 6, NOTHING, k);
    LastBranchSafe(code, b + 3, s, lo, b + 6, n + 1);
    m := OtherBranchSafe(code, p, s, lo, b + 3, b + 6, m2, n + 2);
  }

  lemma PlusSafe(code: seq<byte>, p: nat, y: Piece, k: nat, s: seq<byte>, lo: nat, n: nat) returns (m: nat)
    requires LaidPlus(code, p, y, k) == true && !Simple(y) && Good(y) && HasWidth(y) && p > 0
    requires k > 0 && InCode(code, k) && AllSafe(code, k, s, lo + 1, n)
    ensures AllSafe(code, p, s, lo, m)
    decreases y, 1, |s| + 1 - lo
  {
    if lo > |s| { return 0; }
    hide Node, Laid, Safe;
    var b := p + Size(y);
    var m1 := PlusSafe(code, p, y, k, s, lo + 1, n);
    PassSafe(code, b + 3, s, lo + 1, BACK, p, m1);
    PassSafe(code, b + 9, s, lo + 1, NOTHING, k, n);
    NotBranch(code, b + 9, NOTHING, k);
    LastBranchSafe(code, b + 6, s, lo + 1, b + 9, n + 1);
    var m2 := OtherBranchSafe(code, b, s, lo + 1, b + 6, b + 9, m1 + 1, n + 2);
    IsNode(code, b, BRANCH, b + 6);
    m := PieceSafe(code, p, y, b, s, lo, m2);
  }

  lemma IsNode(code: seq<byte>, p: nat, op: byte, k: int)
    requires Node(code, p, op, k)
    ensures InCode(code, p)
  {
  }

  lemma OptSafe(code: seq<byte>, p: nat, y: Piece, k: nat, s: seq<byte>, lo: nat, n: nat) returns (m: nat)
    requires LaidOpt(code, p, y, k) == true && Good(y) && p > 0
    requires k > 0 && InCode(code, k) && AllSafe(code, k, s, lo, n)
    ensures AllSafe(code, p, s, lo, m)
    decreases y, 1
  {
    hide Node, Laid, Safe;
    var b := p + 3 + Size(y);
    PassSafe(code, b + 3, s, lo, NOTHING, k, n);
    NotBranch(code, b + 3, NOTHING, k);
    LastBranchSafe(code, b, s, lo, b + 3, n + 1);
    var m1 := PieceSafe(code, p + 3, y, b + 3, s, lo, n + 1);
    m := OtherBranchSafe(code, p, s, lo, b, b + 3, m1, n + 2);
  }

  lemma GroupSafe(code: seq<byte>, p: nat, no: nat, a: Alts, k: nat, s: seq<byte>, lo: nat, n: nat) returns (m: nat)
    requires LaidGroup(code, p, no, a, k) == true && Good(Group(no, a)) && p > 0
    requires AllSafe(code, k, s, lo + AltsWidth(a), n)
    ensures AllSafe(code, p, s, lo, m)
    decreases a, 2
  {
    hide Node, LaidAlts, Safe;
    var q := p + 3 + AltsSize(a);
    PassSafe(code, q, s, lo + AltsWidth(a), CLOSE + no, k, n);
    NotBranch(code, q, CLOSE + no, k);
    var m1 := AltsSafe(code, p + 3, a, q, Count(a), s, lo, n + 1);
    PassSafe(code, p, s, lo, OPEN + no, p + 3, m1);
    m := m1 + 1;
  }

  lemma PieceSafe(code: seq<byte>, p: nat, x: Piece, k: nat, s: seq<byte>, lo: nat, n: nat) returns (m: nat)
    requires Laid(code, p, x, k) == true && Good(x) && p > 0
    requires k > 0 && InCode(code, k) && AllSafe(code, k, s, lo + Width(x), n)
    ensures AllSafe(code, p, s, lo, m)
    decreases x, 0, 0
  {
    hide Node, AllSafe;
    if IsLeaf(x) {
      LeafSafe(code, p, x, k, s, lo, n);
      m := n + 1;
    } else {
      match x
      case Group(no, a) => m := GroupSafe(code, p, no, a, k, s, lo, n);
      case Star(y) =>
        if Simple(y) {
          SimpleStarLaid(code, p, y, k);
          SimpleLoopSafe(code, p, y, STARS, k, s, lo, n);
          m := n + 1;
        } else {
          m := StarSafe(code, p, y, k, s, lo, n);
        }
      case Plus(y) =>
        if Simple(y) {
          SimplePlusLaid(code, p, y, k);
          SimpleLoopSafe(code, p, y, PLUSES, k, s, lo, n);
          m := n + 1;
        } else {
          m := PlusSafe(code, p, y, k, s, lo, n);
        }
      case Opt(y) => m := OptSafe(code, p, y, k, s, lo, n);
    }
  }

  lemma SimpleStarLaid(code: seq<byte>, p: nat, y: Piece, k: int)
    requires LaidStar(code, p, y, k) == true && Simple(y)
    ensures Node(code, p, STARS, k) && LaidLeaf(code, p + 3, y, NULL)
  {
    assert Laid(code, p + 3, y, NULL);
  }

  lemma SimplePlusLaid(code: seq<byte>, p: nat, y: Piece, k: int)
    requires LaidPlus(code, p, y, k) == true && Simple(y)
    ensures Node(code, p, PLUSES, k) && LaidLeaf(code, p + 3, y, NULL)
  {
    assert Laid(code, p + 3, y, NULL);
  }

  lemma {:induction false} BranchSafe(code: seq<byte>, p: nat, b: Branch, k: nat, s: seq<byte>, lo: nat, n: nat) returns (m: nat)
    requires LaidBranch(code, p, b, k) == true && GoodBranch(b) && p > 0
    requires k > 0 && InCode(code, k) && AllSafe(code, k, s, lo + BranchWidth(b), n)
    ensures AllSafe(code, p, s, lo, m)
    decreases b, 0
  {
    hide Node, Laid, Safe;
    match b
    case Empty =>
      PassSafe(code, p, s, lo, NOTHING, k, n);
      m := n + 1;
    case Then(x, rest) =>
      if rest == Empty {
        assert !BranchHasWidth(rest);
        m := PieceSafe(code, p, x, k, s, lo, n);
      } else {
        var q := p + Size(x);
        Later(code, k, s, lo + BranchWidth(b), lo + Width(x) + BranchWidth(rest), n);
        var m1 := BranchSafe(code, q, rest, k, s, lo + Width(x), n);
        BranchStarts(code, q, rest, k);
        m := PieceSafe(code, p, x, q, s, lo, m1);
      }
  }

  /** A branch begins with a node. */
  lemma BranchStarts(code: seq<byte>, p: nat, b: Branch, k: int)
    requires LaidBranch(code, p, b, k) == true
    ensures InCode(code, p)
  {
    if b.Then? { PieceStarts(code, p, b.first, if b.rest == Empty then k else p + Size(b.first)); }
  }

  lemma PieceStarts(code: seq<byte>, p: nat, x: Piece, k: int)
    requires Laid(code, p, x, k) == true
    ensures InCode(code, p)
    decreases x
  {
    if x.Plus? && !Simple(x.x) {
      assert LaidPlus(code, p, x.x, k);
      PieceStarts(code, p, x.x, p + Size(x.x));
    }
  }

  lemma {:induction false} AltsSafe(code: seq<byte>, p: nat, a: Alts, q: nat, hooked: nat, s: seq<byte>, lo: nat, n: nat)
    returns (m: nat)
    requires LaidAlts(code, p, a, q, hooked, q) == true && GoodAlts(a) && hooked >= Count(a) && p > 0
    requires q > 0 && InCode(code, q) && code[q] != BRANCH && AllSafe(code, q, s, lo + AltsWidth(a), n)
    ensures AllSafe(code, p, s, lo, m)
    decreases a, 0
  {
    hide Node, LaidBranch, LaidAlts, Safe, AllSafe;
    AltsParts(code, p, a, hooked, q);
    Later(code, q, s, lo + AltsWidth(a), lo + BranchWidth(a.b), n);
    var m1 := BranchSafe(code, p + 3, a.b, q, s, lo, n);
    match a
    case One(b) =>
      LastBranchSafe(code, p, s, lo, q, m1);
      m := m1 + 1;
    case Or(b, others) =>
      var r := p + 3 + BranchSize(b);
      Later(code, q, s, lo + AltsWidth(a), lo + AltsWidth(others), n);
      var m2 := AltsSafe(code, r, others, q, hooked - 1, s, lo, n);
      m := OtherBranchSafe(code, p, s, lo, r, if others.Or? then r + 3 + BranchSize(others.b) else q, m1, m2);
  }

  /** Matching with a compiled program always terminates. */
  lemma ProgramSafe(code: seq<byte>, a: Alts, s: seq<byte>) returns (n: nat)
    requires Program(code, a) && GoodAlts(a)
    ensures AllSafe(code, 1, s, 0, n)
  {
    hide Node;
    var q := 1 + AltsSize(a);
    NotBranch(code, q, END, NULL);
    EndSafe(code, q, s);
    n := AltsSafe(code, 1, a, q, Count(a), s, 0, 1);
  }

  lemma EndSafe(code: seq<byte>, q: nat, s: seq<byte>)
    requires q > 0 && Node(code, q, END, NULL)
    ensures forall lo: nat :: AllSafe(code, q, s, lo, 1)
  {
  }
}
