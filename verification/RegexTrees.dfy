/**
 The ways in which an expression can match, as trees: which alternative is taken, how often each
 repetition goes round, where each bracketed part begins and ends. One way is preferred to another as
 the manual of regular expressions says: earlier alternatives to later ones, more rounds to fewer.
 */
module RegexTrees {
  import opened Bits
  import opened RegexMeaning
  import opened RegexSpelling
  import opened RegexSyntax

  /** `Pair` is a round and those after it, or a piece and those behind it; `mid` is where the first ends. */
  datatype Tree =
    | Leaf | End
    | Part(no: nat, from: nat, to: nat, body: Tree)
    | Pair(first: Tree, mid: nat, rest: Tree)
    | Left(t: Tree) | Right(t: Tree)

  /** The tree is a way for the piece to match from `i` to `j`; a round of a repetition takes something. */
  ghost predicate Derives(x: Piece, s: seq<byte>, i: nat, j: nat, t: Tree)
    decreases t, x
  {
    i <= j <= |s| &&
    match x
    case Group(n, a) => t.Part? && t.no == n && t.from == i && t.to == j && DerivesAlts(a, s, i, j, t.body)
    case Star(y) => if t.Pair? then i < t.mid && Derives(y, s, i, t.mid, t.first) && Derives(x, s, t.mid, j, t.rest) else t.End? && i == j
    case Plus(y) => t.Pair? && Derives(y, s, i, t.mid, t.first) && Derives(Star(y), s, t.mid, j, t.rest)
    case Opt(y) => if t.Pair? then t.rest.End? && t.mid == j && Derives(y, s, i, j, t.first) else t.End? && i == j
    case _ => t.Leaf? && Matches(x, s, i, j)
  }

  ghost predicate DerivesBranch(b: Branch, s: seq<byte>, i: nat, j: nat, t: Tree)
    decreases t, b
  {
    match b
    case Empty => t.End? && i == j <= |s|
    case Then(x, rest) => t.Pair? && Derives(x, s, i, t.mid, t.first) && DerivesBranch(rest, s, t.mid, j, t.rest)
  }

  ghost predicate DerivesAlts(a: Alts, s: seq<byte>, i: nat, j: nat, t: Tree)
    decreases t, a
  {
    match a
    case One(b) => DerivesBranch(b, s, i, j, t)
    case Or(b, others) => if t.Left? then DerivesBranch(b, s, i, j, t.t) else t.Right? && DerivesAlts(others, s, i, j, t.t)
  }

  // ----- Preference -----

  /** `t` is preferred to `u`: at the first place where they differ it takes the earlier alternative, or goes round once more. */
  predicate Before(t: Tree, u: Tree) {
    match t
    case Leaf => false
    case End => false
    case Part(_, _, _, b) => u.Part? && Before(b, u.body)
    case Pair(f, m, r) => u.End? || (u.Pair? && (Before(f, u.first) || (f == u.first && m == u.mid && Before(r, u.rest))))
    case Left(b) => u.Right? || (u.Left? && Before(b, u.t))
    case Right(b) => u.Right? && Before(b, u.t)
  }

  /** Of two ways at most one is preferred to the other, and none to itself. */
  lemma {:induction false} BeforeOneWay(t: Tree, u: Tree)
    ensures !(Before(t, u) && Before(u, t)) && !Before(t, t)
    decreases t
  {
    match t
    case Part(_, _, _, b) => BeforeOneWay(b, if u.Part? then u.body else b);
    case Pair(f, _, r) =>
      BeforeOneWay(f, if u.Pair? then u.first else f);
      BeforeOneWay(r, if u.Pair? then u.rest else r);
    case Left(b) => BeforeOneWay(b, if u.Left? then u.t else b);
    case Right(b) => BeforeOneWay(b, if u.Right? then u.t else b);
    case _ =>
  }

  // ----- Bounds of the parts -----

  /** Where the part numbered `n` begins and ends, the last time round; -1 if it took no part. */
  function Bounds(t: Tree, n: nat): (b: (int, int))
    ensures b == (-1, -1) || (b.0 >= 0 && b.1 >= 0)
  {
    match t
    case Part(m, from, to, body) => if m == n then (from, to) else Bounds(body, n)
    case Pair(f, _, r) => if Bounds(r, n).0 >= 0 then Bounds(r, n) else Bounds(f, n)
    case Left(b) => Bounds(b, n)
    case Right(b) => Bounds(b, n)
    case _ => (-1, -1)
  }

  // ----- Trees and matches -----

  /** A tree says where the match ends. */
  lemma {:induction false} SameEnd(x: Piece, s: seq<byte>, i: nat, j: nat, k: nat, t: Tree)
    requires Derives(x, s, i, j, t) && Derives(x, s, i, k, t)
    ensures j == k
    decreases t, x
  {
    match x
    case Star(_) => if t.Pair? { SameEnd(x, s, t.mid, j, k, t.rest); }
    case Plus(y) => SameEnd(Star(y), s, t.mid, j, k, t.rest);
    case Text(txt) => assert |s[i..j]| == |s[i..k]|;
    case _ =>
  }

  lemma {:induction false} SameBranchEnd(b: Branch, s: seq<byte>, i: nat, j: nat, k: nat, t: Tree)
    requires DerivesBranch(b, s, i, j, t) && DerivesBranch(b, s, i, k, t)
    ensures j == k
    decreases t
  {
    if b.Then? { SameBranchEnd(b.rest, s, t.mid, j, k, t.rest); }
  }

  lemma {:induction false} SameAltsEnd(a: Alts, s: seq<byte>, i: nat, j: nat, k: nat, t: Tree)
    requires DerivesAlts(a, s, i, j, t) && DerivesAlts(a, s, i, k, t)
    ensures j == k
    decreases t, a
  {
    match a
    case One(b) => SameBranchEnd(b, s, i, j, k, t);
    case Or(b, others) =>
      if t.Left? { SameBranchEnd(b, s, i, j, k, t.t); } else { SameAltsEnd(others, s, i, j, k, t.t); }
  }

  lemma {:induction false} TreeMatches(x: Piece, s: seq<byte>, i: nat, j: nat, t: Tree)
    requires Derives(x, s, i, j, t)
    ensures Matches(x, s, i, j)
    decreases t, x
  {
    match x
    case Group(_, a) => AltsTreeMatches(a, s, i, j, t.body);
    case Star(y) =>
      if t.Pair? {
        TreeMatches(y, s, i, t.mid, t.first);
        TreeMatches(x, s, t.mid, j, t.rest);
        RoundMore(y, s, i, t.mid, j);
      } else {
        StarUnfolds(y, s, i, j);
      }
    case Plus(y) =>
      TreeMatches(y, s, i, t.mid, t.first);
      TreeMatches(Star(y), s, t.mid, j, t.rest);
      OnceAndMore(y, s, i, t.mid, j);
    case Opt(y) => if t.Pair? { TreeMatches(y, s, i, j, t.first); }
    case _ =>
  }

  lemma RoundMore(y: Piece, s: seq<byte>, i: nat, m: nat, j: nat)
    requires i < m <= j <= |s| && Matches(y, s, i, m) && Matches(Star(y), s, m, j)
    ensures Matches(Star(y), s, i, j)
  {
    hide Matches;
    StarUnfolds(y, s, i, j);
  }

  lemma OnceAndMore(y: Piece, s: seq<byte>, i: nat, m: nat, j: nat)
    requires i <= m && Matches(y, s, i, m) && Matches(Star(y), s, m, j)
    ensures Matches(Plus(y), s, i, j)
  {
    hide Matches;
    var n := RepeatCount(Star(y), s, m, j);
    RepeatsMore(y, s, i, m, j, n);
    RepeatsMatch(Plus(y), s, i, j, n + 1);
  }

  lemma {:induction false} BranchTreeMatches(b: Branch, s: seq<byte>, i: nat, j: nat, t: Tree)
    requires DerivesBranch(b, s, i, j, t)
    ensures i <= j <= |s| && BranchMatches(b, s, i, j)
    decreases t, b
  {
    hide Matches;
    if b.Then? {
      TreeMatches(b.first, s, i, t.mid, t.first);
      BranchTreeMatches(b.rest, s, t.mid, j, t.rest);
    }
  }

  lemma {:induction false} AltsTreeMatches(a: Alts, s: seq<byte>, i: nat, j: nat, t: Tree)
    requires DerivesAlts(a, s, i, j, t)
    ensures i <= j <= |s| && AltsMatch(a, s, i, j)
    decreases t, a
  {
    match a
    case One(b) => BranchTreeMatches(b, s, i, j, t);
    case Or(b, others) => if t.Left? { BranchTreeMatches(b, s, i, j, t.t); } else { AltsTreeMatches(others, s, i, j, t.t); }
  }

  /** Every match has a tree. */
  lemma {:induction false} MatchTree(x: Piece, s: seq<byte>, i: nat, j: nat) returns (t: Tree)
    requires Good(x) && Matches(x, s, i, j)
    ensures Derives(x, s, i, j, t)
    decreases x, j - i
  {
    match x
    case Group(n, a) =>
      var body := AltsMatchTree(a, s, i, j);
      t := Part(n, i, j, body);
    case Star(y) =>
      t := End;
      StarUnfolds(y, s, i, j);
      if i != j {
        var m: nat :| i < m <= j && Matches(y, s, i, m) && Matches(Star(y), s, m, j);
        var f := MatchTree(y, s, i, m);
        var r := MatchTree(x, s, m, j);
        t := Pair(f, m, r);
      }
    case Plus(y) =>
      var n := RepeatCount(x, s, i, j);
      var m := FirstMatch(y, s, i, j, n);
      RepeatsMatch(Star(y), s, m, j, n - 1);
      MatchMoves(y, s, i, m);
      var f := MatchTree(y, s, i, m);
      var r := StarTree(y, s, m, j);
      t := Pair(f, m, r);
    case Opt(y) =>
      t := End;
      if i != j {
        var f := MatchTree(y, s, i, j);
        t := Pair(f, j, End);
      }
    case _ => t := Leaf;
  }

  lemma {:induction false} StarTree(y: Piece, s: seq<byte>, i: nat, j: nat) returns (t: Tree)
    requires Good(y) && Matches(Star(y), s, i, j)
    ensures Derives(Star(y), s, i, j, t)
    decreases y, j - i + 1
  {
    t := End;
    StarUnfolds(y, s, i, j);
    if i != j {
      var m: nat :| i < m <= j && Matches(y, s, i, m) && Matches(Star(y), s, m, j);
      var f := MatchTree(y, s, i, m);
      var r := StarTree(y, s, m, j);
      t := Pair(f, m, r);
    }
  }

  lemma {:induction false} BranchMatchTree(b: Branch, s: seq<byte>, i: nat, j: nat) returns (t: Tree)
    requires GoodBranch(b) && BranchMatches(b, s, i, j)
    ensures DerivesBranch(b, s, i, j, t)
    decreases b, 0
  {
    hide Matches;
    t := End;
    if b.Then? {
      var m := FirstOf(b.first, b.rest, s, i, j);
      var f := MatchTree(b.first, s, i, m);
      var r := BranchMatchTree(b.rest, s, m, j);
      t := Pair(f, m, r);
    }
  }

  lemma {:induction false} AltsMatchTree(a: Alts, s: seq<byte>, i: nat, j: nat) returns (t: Tree)
    requires GoodAlts(a) && AltsMatch(a, s, i, j)
    ensures DerivesAlts(a, s, i, j, t)
    decreases a, 0
  {
    match a
    case One(b) => t := BranchMatchTree(b, s, i, j);
    case Or(b, others) =>
      if BranchMatches(b, s, i, j) {
        var l := BranchMatchTree(b, s, i, j);
        t := Left(l);
      } else {
        var r := AltsMatchTree(others, s, i, j);
        t := Right(r);
      }
  }

  ghost predicate HasTree(a: Alts, s: seq<byte>, i: nat, j: nat) {
    exists t :: DerivesAlts(a, s, i, j, t)
  }

  /** There are ways to match from `i` to `j` exactly if the stretch matches. */
  lemma TreeIffMatch(a: Alts, s: seq<byte>, i: nat, j: nat)
    requires GoodAlts(a)
    ensures AltsMatch(a, s, i, j) <==> HasTree(a, s, i, j)
  {
    hide AltsMatch, DerivesAlts;
    if AltsMatch(a, s, i, j) {
      var t := AltsMatchTree(a, s, i, j);
      assert DerivesAlts(a, s, i, j, t);
      assert HasTree(a, s, i, j);
    }
    if HasTree(a, s, i, j) {
      var t :| DerivesAlts(a, s, i, j, t);
      AltsTreeMatches(a, s, i, j, t);
    }
  }
}
