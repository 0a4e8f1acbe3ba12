/**
 Which match is found first: expressions as searches. Each expression is handed what is to be done
 with the rest of the string, and tries its ways in order: alternatives from left to right, and
 repetitions as often as possible first.
 */
module RegexOrder {
  import opened Bits
  import opened RegexSyntax
  import opened RegexMeaning

  /** What a search comes to: where it ends, and the bounds of the bracketed parts, -1 for those that took no part. */
  datatype Result = Fail | Match(end: nat, starts: seq<int>, ends: seq<int>)

  type Rest = nat -> Result

  function NoBounds(): seq<int> {
    [-1, -1, -1, -1, -1, -1, -1, -1, -1, -1]
  }

  /** Nothing is left to do. */
  function Done(j: nat): Result {
    Match(j, NoBounds(), NoBounds())
  }

  function OrElse(a: Result, b: Result): Result {
    if a.Match? then a else b
  }

  /** A part begins at `i`; what a later time round has noted stands. */
  function Opened(n: nat, i: nat, r: Result): Result {
    if r.Match? && n < |r.starts| && r.starts[n] == -1 then r.(starts := r.starts[n := i]) else r
  }

  function Closed(n: nat, i: nat, r: Result): Result {
    if r.Match? && n < |r.ends| && r.ends[n] == -1 then r.(ends := r.ends[n := i]) else r
  }

  function ThenClosed(n: nat, k: Rest): Rest {
    (j: nat) => Closed(n, j, k(j))
  }

  /** Find the first way for `x`, from `i` on, after which `k` succeeds. */
  function Try(x: Piece, s: seq<byte>, i: nat, k: Rest): Result
    requires i <= |s|
    decreases x, |s| - i, 1
  {
    match x
    case Bol => if i == 0 then k(i) else Fail
    case Eol => if i == |s| then k(i) else Fail
    case Dot => if i < |s| then k(i + 1) else Fail
    case OneOf(c) => if i < |s| && s[i] in c then k(i + 1) else Fail
    case NoneOf(c) => if i < |s| && s[i] !in c then k(i + 1) else Fail
    case Text(t) => if i + |t| <= |s| && s[i..i + |t|] == t then k(i + |t|) else Fail
    case Group(n, a) => Opened(n, i, TryAlts(a, s, i, ThenClosed(n, k)))
    case Star(y) => OrElse(Try(y, s, i, Again(y, s, i, k)), k(i))
    case Plus(y) => Try(y, s, i, More(y, s, i, k))
    case Opt(y) => OrElse(Try(y, s, i, k), k(i))
  }

  /** Once more, if something was taken, and then `k`. */
  function Again(y: Piece, s: seq<byte>, i: nat, k: Rest): Rest
    requires i <= |s|
    decreases Star(y), |s| - i, 0
  {
    (j: nat) => if i < j <= |s| then Try(Star(y), s, j, k) else Fail
  }

  function More(y: Piece, s: seq<byte>, i: nat, k: Rest): Rest
    requires i <= |s|
    decreases Plus(y), |s| - i, 0
  {
    (j: nat) => if i < j <= |s| then OrElse(Try(Plus(y), s, j, k), k(j)) else Fail
  }

  function TryBranch(b: Branch, s: seq<byte>, i: nat, k: Rest): Result
    requires i <= |s|
    decreases b, 0, 1
  {
    match b
    case Empty => k(i)
    case Then(x, rest) => Try(x, s, i, ThenRest(rest, s, k))
  }

  function ThenRest(rest: Branch, s: seq<byte>, k: Rest): Rest
    decreases rest, 0, 2
  {
    (j: nat) => if j <= |s| then TryBranch(rest, s, j, k) else Fail
  }

  function TryAlts(a: Alts, s: seq<byte>, i: nat, k: Rest): Result
    requires i <= |s|
    decreases a, 0, 1
  {
    match a
    case One(b) => TryBranch(b, s, i, k)
    case Or(b, others) => OrElse(TryBranch(b, s, i, k), TryAlts(others, s, i, k))
  }

  /** The first match of `a` that begins at `i`. */
  function First(a: Alts, s: seq<byte>, i: nat): Result
    requires i <= |s|
  {
    TryAlts(a, s, i, Done)
  }

  /** The bounds that are handed out for the search `r` from `i`: the whole match comes first. */
  predicate Reported(r: Result, i: nat, starts: seq<int>, ends: seq<int>) {
    && r.Match? && |r.starts| == |r.ends| == NSUBEXP
    && starts == r.starts[0 := i] && ends == r.ends[0 := r.end]
  }

  // ----- Only the places that can come up matter -----

  /** The two agree on the places where an expression that begins at `i` can end. */
  ghost predicate Agree(s: seq<byte>, i: nat, wide: bool, f: Rest, g: Rest) {
    forall j: nat :: i <= j <= |s| && (wide ==> i < j) ==> f(j) == g(j)
  }

  lemma {:induction false} SameTry(x: Piece, s: seq<byte>, i: nat, f: Rest, g: Rest)
    requires i <= |s| && Good(x) && Agree(s, i, HasWidth(x), f, g)
    ensures Try(x, s, i, f) == Try(x, s, i, g)
    decreases x, |s| - i
  {
    match x
    case Group(n, a) =>
      SameAlts(a, s, i, ThenClosed(n, f), ThenClosed(n, g));
    case Star(y) =>
      forall j: nat | i < j <= |s|
        ensures Again(y, s, i, f)(j) == Again(y, s, i, g)(j)
      {
        SameTry(x, s, j, f, g);
      }
      SameTry(y, s, i, Again(y, s, i, f), Again(y, s, i, g));
    case Plus(y) =>
      forall j: nat | i < j <= |s|
        ensures More(y, s, i, f)(j) == More(y, s, i, g)(j)
      {
        SameTry(x, s, j, f, g);
      }
      SameTry(y, s, i, More(y, s, i, f), More(y, s, i, g));
    case Opt(y) => SameTry(y, s, i, f, g);
    case _ =>
  }

  lemma {:induction false} SameBranch(b: Branch, s: seq<byte>, i: nat, f: Rest, g: Rest)
    requires i <= |s| && GoodBranch(b) && Agree(s, i, BranchHasWidth(b), f, g)
    ensures TryBranch(b, s, i, f) == TryBranch(b, s, i, g)
    decreases b, 0
  {
    match b
    case Empty =>
    case Then(x, rest) =>
      forall j: nat | i <= j <= |s| && (HasWidth(x) ==> i < j)
        ensures ThenRest(rest, s, f)(j) == ThenRest(rest, s, g)(j)
      {
        SameBranch(rest, s, j, f, g);
      }
      SameTry(x, s, i, ThenRest(rest, s, f), ThenRest(rest, s, g));
  }

  lemma {:induction false} SameAlts(a: Alts, s: seq<byte>, i: nat, f: Rest, g: Rest)
    requires i <= |s| && GoodAlts(a) && Agree(s, i, AltsHaveWidth(a), f, g)
    ensures TryAlts(a, s, i, f) == TryAlts(a, s, i, g)
    decreases a, 0
  {
    SameBranch(a.b, s, i, f, g);
    if a.Or? { SameAlts(a.others, s, i, f, g); }
  }

  // ----- The search finds a match exactly if there is one -----

  lemma {:induction false} TryFinds(x: Piece, s: seq<byte>, i: nat, k: Rest) returns (j: nat)
    requires i <= |s| && Good(x) && Try(x, s, i, k).Match?
    ensures i <= j <= |s| && Matches(x, s, i, j) && k(j).Match? && k(j).end == Try(x, s, i, k).end
    decreases x, |s| - i, 1
  {
    match x
    case Group(n, a) =>
      j := AltsFind(a, s, i, ThenClosed(n, k));
    case Star(y) => j := StarFinds(y, s, i, k);
    case Plus(y) => j := PlusFinds(y, s, i, k);
    case Opt(y) =>
      if Try(y, s, i, k).Match? { j := TryFinds(y, s, i, k); } else { j := i; }
    case Text(t) => j := i + |t|;
    case Bol => j := i;
    case Eol => j := i;
    case _ => j := i + 1;
  }

  lemma {:induction false} StarFinds(y: Piece, s: seq<byte>, i: nat, k: Rest) returns (j: nat)
    requires i <= |s| && Good(Star(y)) && Try(Star(y), s, i, k).Match?
    ensures i <= j <= |s| && Matches(Star(y), s, i, j) && k(j).Match? && k(j).end == Try(Star(y), s, i, k).end
    decreases Star(y), |s| - i, 0
  {
    hide Matches;
    if Try(y, s, i, Again(y, s, i, k)).Match? {
      var m := TryFinds(y, s, i, Again(y, s, i, k));
      j := TryFinds(Star(y), s, m, k);
      MatchMoves(y, s, i, m);
      assert i < m <= j && Matches(y, s, i, m) && Matches(Star(y), s, m, j);
    } else {
      j := i;
    }
    StarUnfolds(y, s, i, j);
  }

  lemma {:induction false} PlusFinds(y: Piece, s: seq<byte>, i: nat, k: Rest) returns (j: nat)
    requires i <= |s| && Good(Plus(y)) && Try(Plus(y), s, i, k).Match?
    ensures i <= j <= |s| && Matches(Plus(y), s, i, j) && k(j).Match? && k(j).end == Try(Plus(y), s, i, k).end
    decreases Plus(y), |s| - i, 0
  {
    hide Matches;
    var f := More(y, s, i, k);
    var m := TryFinds(y, s, i, f);
    assert Try(Plus(y), s, i, k) == Try(y, s, i, f) && f(m) == OrElse(Try(Plus(y), s, m, k), k(m));
    if Try(Plus(y), s, m, k).Match? { j := TryFinds(Plus(y), s, m, k); } else { j := m; }
    assert i <= m <= j <= |s| && Matches(y, s, i, m) && (m == j || Matches(Plus(y), s, m, j));
    PlusUnfolds(y, s, i, j);
  }

  lemma {:induction false} BranchFinds(b: Branch, s: seq<byte>, i: nat, k: Rest) returns (j: nat)
    requires i <= |s| && GoodBranch(b) && TryBranch(b, s, i, k).Match?
    ensures i <= j <= |s| && BranchMatches(b, s, i, j) && k(j).Match? && k(j).end == TryBranch(b, s, i, k).end
    decreases b, 0, 1
  {
    match b
    case Empty => j := i;
    case Then(x, rest) =>
      var m := TryFinds(x, s, i, ThenRest(rest, s, k));
      j := BranchFinds(rest, s, m, k);
  }

  lemma {:induction false} AltsFind(a: Alts, s: seq<byte>, i: nat, k: Rest) returns (j: nat)
    requires i <= |s| && GoodAlts(a) && TryAlts(a, s, i, k).Match?
    ensures i <= j <= |s| && AltsMatch(a, s, i, j) && k(j).Match? && k(j).end == TryAlts(a, s, i, k).end
    decreases a, 0, 1
  {
    if TryBranch(a.b, s, i, k).Match? { j := BranchFinds(a.b, s, i, k); } else { j := AltsFind(a.others, s, i, k); }
  }

  lemma {:induction false} TryMisses(x: Piece, s: seq<byte>, i: nat, j: nat, k: Rest)
    requires i <= |s| && Good(x) && Matches(x, s, i, j) && k(j).Match?
    ensures Try(x, s, i, k).Match?
    decreases x, |s| - i, 1
  {
    match x
    case Group(n, a) => AltsMiss(a, s, i, j, ThenClosed(n, k));
    case Star(y) => StarMisses(y, s, i, j, k);
    case Plus(y) => PlusMisses(y, s, i, j, k);
    case Opt(y) => if i != j { TryMisses(y, s, i, j, k); }
    case Text(t) => assert j == i + |t|;
    case _ =>
  }

  lemma {:induction false} StarMisses(y: Piece, s: seq<byte>, i: nat, j: nat, k: Rest)
    requires i <= |s| && Good(Star(y)) && Matches(Star(y), s, i, j) && k(j).Match?
    ensures Try(Star(y), s, i, k).Match?
    decreases Star(y), |s| - i, 0
  {
    hide Matches;
    StarUnfolds(y, s, i, j);
    if i < j {
      var m: nat :| i < m <= j && Matches(y, s, i, m) && Matches(Star(y), s, m, j);
      TryMisses(Star(y), s, m, j, k);
      var f := Again(y, s, i, k);
      assert f(m) == Try(Star(y), s, m, k);
      TryMisses(y, s, i, m, f);
    }
  }

  lemma {:induction false} PlusMisses(y: Piece, s: seq<byte>, i: nat, j: nat, k: Rest)
    requires i <= |s| && Good(Plus(y)) && Matches(Plus(y), s, i, j) && k(j).Match?
    ensures Try(Plus(y), s, i, k).Match?
    decreases Plus(y), |s| - i, 0
  {
    hide Matches;
    PlusUnfolds(y, s, i, j);
    var m: nat :| i <= m <= j <= |s| && Matches(y, s, i, m) && (m == j || Matches(Plus(y), s, m, j));
    MatchMoves(y, s, i, m);
    if m != j { TryMisses(Plus(y), s, m, j, k); }
    var f := More(y, s, i, k);
    assert f(m) == OrElse(Try(Plus(y), s, m, k), k(m));
    TryMisses(y, s, i, m, f);
  }

  lemma {:induction false} BranchMisses(b: Branch, s: seq<byte>, i: nat, j: nat, k: Rest)
    requires i <= |s| && GoodBranch(b) && BranchMatches(b, s, i, j) && k(j).Match?
    ensures TryBranch(b, s, i, k).Match?
    decreases b, 0, 1
  {
    match b
    case Empty =>
    case Then(x, rest) =>
      var m := FirstOf(x, rest, s, i, j);
      MatchMoves(x, s, i, m);
      BranchMisses(rest, s, m, j, k);
      TryMisses(x, s, i, m, ThenRest(rest, s, k));
  }

  lemma {:induction false} AltsMiss(a: Alts, s: seq<byte>, i: nat, j: nat, k: Rest)
    requires i <= |s| && GoodAlts(a) && AltsMatch(a, s, i, j) && k(j).Match?
    ensures TryAlts(a, s, i, k).Match?
    decreases a, 0, 1
  {
    if BranchMatches(a.b, s, i, j) { BranchMisses(a.b, s, i, j, k); } else { AltsMiss(a.others, s, i, j, k); }
  }

  /** There is a first match exactly if there is a match, and it is one. */
  lemma FirstIsMatch(a: Alts, s: seq<byte>, i: nat)
    requires i <= |s| && GoodAlts(a)
    ensures First(a, s, i).Match? <==> MatchesAt(a, s, i)
    ensures First(a, s, i).Match? ==> AltsMatch(a, s, i, First(a, s, i).end)
  {
    if First(a, s, i).Match? { var j := AltsFind(a, s, i, Done); }
    if j: nat :| AltsMatch(a, s, i, j) { AltsMiss(a, s, i, j, Done); }
  }
}
