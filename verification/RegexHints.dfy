/** What every match must begin with or contain, as the compiler finds it in the finished program. */
module RegexHints {
  import opened Bits
  import opened RegexSyntax
  import opened RegexMeaning
  import opened RegexCode
  import opened RegexRun
  import opened RegexBuild
  import opened RegexMatch

  // ----- The nodes on the way through a piece -----

  /** From `p` links lead forward to `t`, over no literal, and from `t` to `k`. */
  ghost predicate Skips(code: seq<byte>, p: nat, t: nat, k: int)
    decreases t - p
  {
    && p <= t && InCode(code, p) && code[p] != EXACTLY
    && if p == t then Next(code, p) == k else p < Next(code, p) <= t && Skips(code, Next(code, p), t, k)
  }

  lemma {:induction false} SkipsHere(code: seq<byte>, p: nat, op: byte, k: int)
    requires Node(code, p, op, k) && op != EXACTLY
    ensures Skips(code, p, p, k)
  {
  }

  lemma {:induction false} SkipsStep(code: seq<byte>, p: nat, op: byte, q: int, t: nat, k: int)
    requires Node(code, p, op, q) && op != EXACTLY && p < q <= t && Skips(code, q, t, k)
    ensures Skips(code, p, t, k)
  {
  }

  lemma {:induction false} SkipsJoin(code: seq<byte>, p: nat, u: nat, q: nat, t: nat, k: int)
    requires Skips(code, p, u, q) && u < q <= t && Skips(code, q, t, k)
    ensures Skips(code, p, t, k)
    decreases u - p
  {
    if p < u { SkipsJoin(code, Next(code, p), u, q, t, k); }
  }

  lemma {:induction false} SkipsAlts(code: seq<byte>, p: nat, a: Alts, hooked: nat, e: nat)
    requires LaidAlts(code, p, a, e, hooked, e) == true && e >= p + AltsSize(a)
    ensures Skips(code, p, LastChoice(p, a), e)
    decreases a
  {
    hide Node, Skips, LaidBranch, LaidAlts;
    AltsApart(code, p, a, e, hooked, e);
    if a.Or? {
      var q := p + 3 + BranchSize(a.b);
      SkipsAlts(code, q, a.others, if hooked > 0 then hooked - 1 else 0, e);
      SkipsStep(code, p, BRANCH, q, LastChoice(q, a.others), e);
    } else {
      SkipsHere(code, p, BRANCH, e);
    }
  }

  lemma {:induction false} SkipsGroup(code: seq<byte>, p: nat, n: nat, a: Alts, k: int)
    requires LaidGroup(code, p, n, a, k) == true
    ensures Skips(code, p, p + 3 + AltsSize(a), k)
  {
    hide Node, Skips, LaidAlts;
    var e := p + 3 + AltsSize(a);
    SkipsHere(code, e, CLOSE + n, k);
    SkipsAlts(code, p + 3, a, Count(a), e);
    SkipsJoin(code, p + 3, LastChoice(p + 3, a), e, e, k);
    SkipsStep(code, p, OPEN + n, p + 3, e, k);
  }

  lemma {:induction false} SkipsStar(code: seq<byte>, p: nat, y: Piece, k: int)
    requires LaidStar(code, p, y, k) == true
    ensures Skips(code, p, Tail(p, Star(y)), k)
  {
    hide Node, Laid, Skips;
    if Simple(y) {
      SkipsHere(code, p, STARS, k);
    } else {
      var b := p + 3 + Size(y);
      SkipsHere(code, b + 6, NOTHING, k);
      SkipsStep(code, b + 3, BRANCH, b + 6, b + 6, k);
      SkipsStep(code, p, BRANCH, b + 3, b + 6, k);
    }
  }

  lemma {:induction false} SkipsPlus(code: seq<byte>, p: nat, y: Piece, k: int)
    requires LaidPlus(code, p, y, k) == true && (Simple(y) || y.Group?)
    ensures Skips(code, p, Tail(p, Plus(y)), k)
  {
    hide Node, Laid, Skips;
    if Simple(y) {
      SkipsHere(code, p, PLUSES, k);
    } else {
      var b := p + Size(y);
      SkipsHere(code, b + 9, NOTHING, k);
      SkipsStep(code, b + 6, BRANCH, b + 9, b + 9, k);
      SkipsStep(code, b, BRANCH, b + 6, b + 9, k);
      GroupLaid(code, p, y, b);
      SkipsGroup(code, p, y.no, y.body, b);
      SkipsJoin(code, p, p + 3 + AltsSize(y.body), b, b + 9, k);
    }
  }

  lemma {:induction false} GroupLaid(code: seq<byte>, p: nat, y: Piece, k: int)
    requires Laid(code, p, y, k) == true && y.Group?
    ensures LaidGroup(code, p, y.no, y.body, k) == true
    ensures Size(y) == 6 + AltsSize(y.body)
  {
    hide LaidGroup;
  }

  lemma {:induction false} SkipsOpt(code: seq<byte>, p: nat, y: Piece, k: int)
    requires LaidOpt(code, p, y, k) == true
    ensures Skips(code, p, Tail(p, Opt(y)), k)
  {
    hide Node, Laid, Skips;
    var b := p + 3 + Size(y);
    SkipsHere(code, b + 3, NOTHING, k);
    SkipsStep(code, b, BRANCH, b + 3, b + 3, k);
    SkipsStep(code, p, BRANCH, b, b + 3, k);
  }

  /** Through a piece that is no literal one meets none. */
  lemma {:induction false} SkipsPiece(code: seq<byte>, p: nat, x: Piece, k: int)
    requires Laid(code, p, x, k) == true && Good(x) && !x.Text?
    ensures Skips(code, p, Tail(p, x), k)
  {
    hide Node, Skips, LaidGroup, LaidStar, LaidPlus, LaidOpt;
    if IsLeaf(x) {
      SkipsHere(code, p, LeafOp(x), k);
    } else {
      match x
      case Group(n, a) => SkipsGroup(code, p, n, a, k);
      case Plus(y) => SkipsPlus(code, p, y, k);
      case Star(y) => SkipsStar(code, p, y, k);
      case Opt(y) => SkipsOpt(code, p, y, k);
    }
  }

  // ----- Literals of a branch -----

  predicate Among(t: seq<byte>, b: Branch) {
    b.Then? && (b.first == Text(t) || Among(t, b.rest))
  }

  /** The longest literal, the later one among equals; empty if there is none. */
  function LongestText(b: Branch): seq<byte> {
    if b.Empty? then []
    else
      var t := LongestText(b.rest);
      if b.first.Text? && |b.first.t| > |t| then b.first.t else t
  }

  lemma {:induction false} LongestIs(b: Branch)
    requires GoodBranch(b)
    ensures var t := LongestText(b);
      && (t != [] ==> Among(t, b))
      && forall u :: Among(u, b) ==> 0 < |u| <= |t|
  {
    if b.Then? {
      LongestIs(b.rest);
      if b.first.Text? { assert Among(b.first.t, b); }
      assert forall u :: Among(u, b) <==> Among(u, b.rest) || b.first == Text(u);
    }
  }

  /** The longer of what is found and what is still to come, the later one among equals. */
  function Longer(found: seq<byte>, ahead: seq<byte>): seq<byte> {
    if |ahead| >= |found| then ahead else found
  }

  lemma LongerOn(found: seq<byte>, b: Branch)
    requires b.Then?
    ensures Longer(found, LongestText(b)) ==
      Longer(if b.first.Text? && |b.first.t| >= |found| then b.first.t else found, LongestText(b.rest))
  {
  }

  /** A literal among the pieces of a branch is found in whatever the branch matches. */
  lemma {:induction false} MatchContains(b: Branch, t: seq<byte>, s: seq<byte>, i: nat, j: nat)
    requires BranchMatches(b, s, i, j) && Among(t, b)
    ensures Contains(s, t)
    decreases b
  {
    var m := FirstOf(b.first, b.rest, s, i, j);
    if b.first == Text(t) {
      assert StartsWith(s, i, t);
    } else {
      MatchContains(b.rest, t, s, m, j);
    }
  }

  lemma MustHold(b: Branch, t: seq<byte>)
    requires Among(t, b)
    ensures MustAppear(One(b), t)
  {
    forall s: seq<byte>, i: nat, j: nat | AltsMatch(One(b), s, i, j)
      ensures Contains(s, t)
    {
      MatchContains(b, t, s, i, j);
    }
  }

  /** The search for literals stands at `scan`, in the first piece of `rest`, which begins at `p`; or behind them all. */
  ghost predicate Standing(code: seq<byte>, scan: nat, p: nat, rest: Branch, e: nat) {
    && p > 0 && Node(code, e, END, NULL) && scan < |code|
    && if rest == Empty then scan == e || Node(code, scan, NOTHING, e)
       else
         && LaidBranch(code, p, rest, e) == true && GoodBranch(rest) && p + BranchSize(rest) <= e
         && if rest.first.Text? then scan == p else Skips(code, scan, Tail(p, rest.first), NextAfter(p, rest, e))
  }

  function NextAfter(p: nat, rest: Branch, e: nat): nat
    requires rest.Then?
  {
    if rest.rest == Empty then e else p + Size(rest.first)
  }

  lemma {:induction false} PiecesApart(code: seq<byte>, p: nat, rest: Branch, e: nat)
    requires rest.Then? && LaidBranch(code, p, rest, e) == true
    ensures Laid(code, p, rest.first, NextAfter(p, rest, e)) == true
    ensures rest.rest.Then? ==> LaidBranch(code, NextAfter(p, rest, e), rest.rest, e) == true
    ensures rest.rest.Then? ==> BranchSize(rest) == Size(rest.first) + BranchSize(rest.rest)
  {
    hide Laid;
  }

  lemma {:induction false} Enter(code: seq<byte>, p: nat, rest: Branch, e: nat)
    requires rest.Then? && LaidBranch(code, p, rest, e) == true && GoodBranch(rest) && p + BranchSize(rest) <= e
    requires p > 0 && Node(code, e, END, NULL)
    ensures Standing(code, p, p, rest, e)
  {
    hide Laid, Node, Skips, LaidBranch;
    PiecesApart(code, p, rest, e);
    if !rest.first.Text? { SkipsPiece(code, p, rest.first, NextAfter(p, rest, e)); }
    OpOf(code, e, END, NULL);
  }

  /** Following one link. */
  lemma {:induction false} Advance(code: seq<byte>, scan: nat, p: nat, rest: Branch, e: nat) returns (p': nat, rest': Branch)
    requires Standing(code, scan, p, rest, e)
    ensures InCode(code, scan)
    ensures code[scan] == EXACTLY ==> rest.Then? && GoodBranch(rest) && rest.first.Text? && Operand(code, scan + 3, rest.first.t)
    ensures Next(code, scan) != NULL ==> scan < Next(code, scan) && Standing(code, Next(code, scan), p', rest', e)
    ensures rest' == rest || (rest.Then? && rest' == rest.rest)
    ensures rest.Then? && rest.first.Text? ==> code[scan] == EXACTLY && rest' == rest.rest
    ensures Next(code, scan) == NULL ==> rest == Empty
  {
    hide Laid, LaidBranch;
    p', rest' := p, rest;
    if rest.Then? {
      var k := NextAfter(p, rest, e);
      PiecesApart(code, p, rest, e);
      if rest.first.Text? { TextLaid(code, p, rest.first, k); }
      if rest.first.Text? || scan == Tail(p, rest.first) {
        p', rest' := k, rest.rest;
        if rest'.Then? { Enter(code, k, rest', e); }
      }
    }
  }

  lemma {:induction false} TextLaid(code: seq<byte>, p: nat, x: Piece, k: int)
    requires Laid(code, p, x, k) == true && x.Text?
    ensures Node(code, p, EXACTLY, k) && Operand(code, p + 3, x.t)
  {
  }

  // ----- The first node -----

  lemma {:induction false} FirstOp(code: seq<byte>, p: nat, x: Piece, k: int)
    requires Laid(code, p, x, k) == true && Good(x)
    ensures InCode(code, p) && (code[p] == BOL <==> x == Bol) && (code[p] == EXACTLY ==> x.Text?)
  {
    if IsLeaf(x) {
    } else if x.Plus? && !Simple(x.x) {
      PlusFirst(code, p, x.x, k);
    }
  }

  lemma {:induction false} PlusFirst(code: seq<byte>, p: nat, y: Piece, k: int)
    requires LaidPlus(code, p, y, k) == true && !Simple(y) && y.Group?
    ensures y.no < NSUBEXP && Node(code, p, OPEN + y.no, p + 3)
  {
    hide Node, LaidAlts;
    GroupLaid(code, p, y, p + Size(y));
  }

  lemma GoodText(a: Alts)
    requires GoodAlts(a) && a.b.Then?
    ensures Good(a.b.first) && GoodBranch(a.b.rest) && (a.b.first.Text? ==> a.b.first.t != [] && NulFree(a.b.first.t))
  {
    assert GoodBranch(a.b);
  }

  /** A match of a literal begins with its first character. */
  lemma TextFirst(a: Alts, s: seq<byte>, i: nat, j: nat)
    requires a.One? && a.b.Then? && a.b.first.Text? && a.b.first.t != [] && AltsMatch(a, s, i, j)
    ensures i < |s| && s[i] == a.b.first.t[0]
  {
    var m := FirstOf(a.b.first, a.b.rest, s, i, j);
    assert s[i..m][0] == s[i];
  }

  /** A match of `^` begins at the beginning. */
  lemma BolFirst(a: Alts, s: seq<byte>, i: nat, j: nat)
    requires a.One? && a.b.Then? && a.b.first == Bol && AltsMatch(a, s, i, j)
    ensures i == 0
  {
    var m := FirstOf(a.b.first, a.b.rest, s, i, j);
  }
}
