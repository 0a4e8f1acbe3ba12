/**
 What a regular expression means: which stretches of a string it matches. Places matter, since
 `^` and `$` match only at the ends.
 */
module RegexMeaning {
  import opened Bits
  import opened RegexSyntax

  ghost predicate Matches(x: Piece, s: seq<byte>, i: nat, j: nat)
    decreases x, 0
  {
    i <= j <= |s| &&
    match x
    case Bol => i == j == 0
    case Eol => i == j == |s|
    case Dot => j == i + 1
    case OneOf(c) => j == i + 1 && s[i] in c
    case NoneOf(c) => j == i + 1 && s[i] !in c
    case Text(t) => s[i..j] == t
    case Group(_, a) => AltsMatch(a, s, i, j)
    case Star(y) => exists n: nat :: Repeats(y, s, i, j, n)
    case Plus(y) => exists n: nat :: n > 0 && Repeats(y, s, i, j, n)
    case Opt(y) => i == j || Matches(y, s, i, j)
  }

  /** `n` matches of `x` in a row. */
  ghost predicate Repeats(x: Piece, s: seq<byte>, i: nat, j: nat, n: nat)
    decreases x, n, 1
  {
    if n == 0 then i == j
    else exists m: nat :: FirstThen(x, s, i, m, j, n)
  }

  /** One match up to `m`, then the others. */
  ghost predicate FirstThen(x: Piece, s: seq<byte>, i: nat, m: nat, j: nat, n: nat)
    requires n > 0
    decreases x, n, 0
  {
    i <= m <= j && Matches(x, s, i, m) && Repeats(x, s, m, j, n - 1)
  }

  ghost predicate BranchMatches(b: Branch, s: seq<byte>, i: nat, j: nat) {
    match b
    case Empty => i == j <= |s|
    case Then(x, rest) => exists m: nat :: i <= m <= j && Matches(x, s, i, m) && BranchMatches(rest, s, m, j)
  }

  ghost predicate AltsMatch(a: Alts, s: seq<byte>, i: nat, j: nat) {
    match a
    case One(b) => BranchMatches(b, s, i, j)
    case Or(b, others) => BranchMatches(b, s, i, j) || AltsMatch(others, s, i, j)
  }

  /** A match begins at `i`. */
  ghost predicate MatchesAt(a: Alts, s: seq<byte>, i: nat) {
    exists j: nat :: AltsMatch(a, s, i, j)
  }

  /** The expression matches some stretch of `s`. */
  ghost predicate Found(a: Alts, s: seq<byte>) {
    exists i: nat :: MatchesAt(a, s, i)
  }

  lemma FirstMatch(x: Piece, s: seq<byte>, i: nat, j: nat, n: nat) returns (m: nat)
    requires n > 0 && Repeats(x, s, i, j, n)
    ensures FirstThen(x, s, i, m, j, n)
  {
    m :| FirstThen(x, s, i, m, j, n);
  }

  lemma RepeatCount(x: Piece, s: seq<byte>, i: nat, j: nat) returns (n: nat)
    requires (x.Star? || x.Plus?) && Matches(x, s, i, j)
    ensures i <= j <= |s| && Repeats(x.x, s, i, j, n) && (x.Plus? ==> n > 0)
  {
    if x.Star? {
      n :| Repeats(x.x, s, i, j, n);
    } else {
      n :| n > 0 && Repeats(x.x, s, i, j, n);
    }
  }

  lemma RepeatsMatch(x: Piece, s: seq<byte>, i: nat, j: nat, n: nat)
    requires (x.Star? || (x.Plus? && n > 0)) && i <= j <= |s| && Repeats(x.x, s, i, j, n)
    ensures Matches(x, s, i, j)
  {
  }

  /** One more match in front. */
  lemma RepeatsMore(x: Piece, s: seq<byte>, i: nat, m: nat, j: nat, n: nat)
    requires i <= m <= j && Matches(x, s, i, m) && Repeats(x, s, m, j, n)
    ensures Repeats(x, s, i, j, n + 1)
  {
    assert FirstThen(x, s, i, m, j, n + 1);
  }

  /** Passing over the repetitions that take nothing, one comes to one that takes a character. */
  lemma {:induction false} FirstThatMoves(y: Piece, s: seq<byte>, i: nat, j: nat, n: nat) returns (m: nat)
    requires i < j <= |s| && Repeats(y, s, i, j, n)
    ensures i < m <= j && Matches(y, s, i, m) && Matches(Star(y), s, m, j)
    decreases n
  {
    m := FirstMatch(y, s, i, j, n);
    if m == i {
      m := FirstThatMoves(y, s, i, j, n - 1);
    } else {
      RepeatsMatch(Star(y), s, m, j, n - 1);
    }
  }

  /** A starred piece matches nothing, or a match of the piece that takes a character and then again. */
  lemma StarUnfolds(y: Piece, s: seq<byte>, i: nat, j: nat)
    ensures Matches(Star(y), s, i, j) <==>
      i <= j <= |s| && (i == j || exists m: nat :: i < m <= j && Matches(y, s, i, m) && Matches(Star(y), s, m, j))
  {
    if Matches(Star(y), s, i, j) && i != j {
      var n := RepeatCount(Star(y), s, i, j);
      var m := FirstThatMoves(y, s, i, j, n);
      assert i < m <= j && Matches(y, s, i, m) && Matches(Star(y), s, m, j);
    }
    if i == j <= |s| {
      assert Repeats(y, s, i, j, 0);
      RepeatsMatch(Star(y), s, i, j, 0);
    }
    if m: nat :| i < m <= j <= |s| && Matches(y, s, i, m) && Matches(Star(y), s, m, j) {
      var n := RepeatCount(Star(y), s, m, j);
      RepeatsMore(y, s, i, m, j, n);
      RepeatsMatch(Star(y), s, i, j, n + 1);
    }
  }

  /** A piece with a plus matches as the piece does, or a match of the piece and then again. */
  lemma PlusUnfolds(y: Piece, s: seq<byte>, i: nat, j: nat)
    ensures Matches(Plus(y), s, i, j) <==>
      exists m: nat :: i <= m <= j <= |s| && Matches(y, s, i, m) && (m == j || Matches(Plus(y), s, m, j))
  {
    if Matches(Plus(y), s, i, j) {
      var n := RepeatCount(Plus(y), s, i, j);
      var m := FirstMatch(y, s, i, j, n);
      if n > 1 {
        RepeatsMatch(Plus(y), s, m, j, n - 1);
      }
      assert i <= m <= j <= |s| && Matches(y, s, i, m) && (m == j || Matches(Plus(y), s, m, j));
    }
    if m: nat :| i <= m <= j <= |s| && Matches(y, s, i, m) && (m == j || Matches(Plus(y), s, m, j)) {
      var n := 0;
      if m == j {
        assert Repeats(y, s, m, j, 0);
      } else {
        n := RepeatCount(Plus(y), s, m, j);
      }
      RepeatsMore(y, s, i, m, j, n);
      RepeatsMatch(Plus(y), s, i, j, n + 1);
    }
  }

  lemma FirstOf(x: Piece, rest: Branch, s: seq<byte>, i: nat, j: nat) returns (m: nat)
    requires BranchMatches(Then(x, rest), s, i, j)
    ensures i <= m <= j && Matches(x, s, i, m) && BranchMatches(rest, s, m, j)
  {
    m :| i <= m <= j && Matches(x, s, i, m) && BranchMatches(rest, s, m, j);
  }

  // ----- Width -----

  lemma {:induction false} MatchMoves(x: Piece, s: seq<byte>, i: nat, j: nat)
    requires Good(x) && Matches(x, s, i, j)
    ensures i <= j <= |s| && (HasWidth(x) ==> i < j)
    decreases x, 0
  {
    match x
    case Group(_, a) => AltsMove(a, s, i, j);
    case Plus(y) =>
      var n: nat :| n > 0 && Repeats(y, s, i, j, n);
      var m := FirstMatch(y, s, i, j, n);
      MatchMoves(y, s, i, m);
    case _ =>
  }

  lemma {:induction false} BranchMoves(b: Branch, s: seq<byte>, i: nat, j: nat)
    requires GoodBranch(b) && BranchMatches(b, s, i, j)
    ensures i <= j <= |s| && (BranchHasWidth(b) ==> i < j)
    decreases b, 0
  {
    if b.Then? {
      var m: nat :| i <= m <= j && Matches(b.first, s, i, m) && BranchMatches(b.rest, s, m, j);
      MatchMoves(b.first, s, i, m);
      BranchMoves(b.rest, s, m, j);
    }
  }

  lemma {:induction false} AltsMove(a: Alts, s: seq<byte>, i: nat, j: nat)
    requires GoodAlts(a) && AltsMatch(a, s, i, j)
    ensures i <= j <= |s| && (AltsHaveWidth(a) ==> i < j)
    decreases a, 0
  {
    if BranchMatches(a.b, s, i, j) {
      BranchMoves(a.b, s, i, j);
    } else {
      AltsMove(a.others, s, i, j);
    }
  }
}
