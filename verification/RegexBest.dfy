/** The search finds, of all ways to match, the preferred one, and notes the bounds of its parts. */
module RegexBest {
  import opened Bits
  import opened RegexMeaning
  import opened RegexOrder
  import opened RegexSpelling
  import opened RegexSyntax
  import opened RegexTrees

  // ----- What is noted -----

  predicate Shaped(r: Result) {
    r.Match? && |r.starts| == |r.ends| == NSUBEXP
  }

  /** The bounds of part `n` are those noted behind, or else those of the tree. */
  predicate NotedAt(t: Tree, k: Result, r: Result, n: nat)
    requires Shaped(k) && Shaped(r) && n < NSUBEXP
  {
    (r.starts[n], r.ends[n]) ==
      if k.starts[n] == -1 == k.ends[n] && Bounds(t, n).0 >= 0 then Bounds(t, n) else (k.starts[n], k.ends[n])
  }

  ghost predicate Noted(t: Tree, k: Result, r: Result) {
    Shaped(k) && Shaped(r) && r.end == k.end && forall n: nat :: n < NSUBEXP ==> NotedAt(t, k, r, n)
  }

  /** Both bounds are set or neither. */
  predicate Paired(r: Result, n: nat)
    requires Shaped(r) && n < NSUBEXP
  {
    r.starts[n] == -1 <==> r.ends[n] == -1
  }

  /** So it is for the parts numbered from `lo` to below `hi`, wherever `k` begins. */
  ghost predicate Tidy(k: Rest, s: seq<byte>, lo: nat, hi: nat) {
    forall m: nat :: m <= |s| && k(m).Match? ==> TidyAt(k(m), lo, hi)
  }

  ghost predicate TidyAt(r: Result, lo: nat, hi: nat) {
    Shaped(r) && forall n: nat :: lo <= n < hi && n < NSUBEXP ==> Paired(r, n)
  }

  lemma NotedTidy(t: Tree, k: Result, r: Result, lo: nat, hi: nat)
    requires Noted(t, k, r) && TidyAt(k, lo, hi)
    ensures TidyAt(r, lo, hi)
  {
    forall n: nat | lo <= n < hi && n < NSUBEXP
      ensures Paired(r, n)
    {
      assert NotedAt(t, k, r, n) && Paired(k, n);
    }
  }

  lemma NotedTwice(f: Tree, m: nat, g: Tree, k: Result, q: Result, r: Result)
    requires Noted(g, k, q) && Noted(f, q, r)
    ensures Noted(Pair(f, m, g), k, r)
  {
    forall n: nat | n < NSUBEXP
      ensures NotedAt(Pair(f, m, g), k, r, n)
    {
      assert NotedAt(g, k, q, n) && NotedAt(f, q, r, n);
    }
  }

  lemma NotedNothing(t: Tree, k: Result)
    requires Shaped(k) && (t.Leaf? || t.End?)
    ensures Noted(t, k, k)
  {
  }

  lemma NotedInside(t: Tree, u: Tree, k: Result, r: Result)
    requires Noted(t, k, r) && (u == Left(t) || u == Right(t) || (u.Pair? && u.first == t && u.rest == End))
    ensures Noted(u, k, r)
  {
    forall n: nat | n < NSUBEXP
      ensures NotedAt(u, k, r, n)
    {
      assert NotedAt(t, k, r, n);
    }
  }

  lemma TidyPart(k: Rest, s: seq<byte>, lo: nat, hi: nat, lo': nat, hi': nat)
    requires Tidy(k, s, lo, hi) && lo <= lo' && hi' <= hi
    ensures Tidy(k, s, lo', hi')
  {
    forall m: nat | m <= |s| && k(m).Match?
      ensures TidyAt(k(m), lo', hi')
    {
      assert TidyAt(k(m), lo, hi);
      assert forall n: nat :: lo <= n < hi && n < NSUBEXP ==> Paired(k(m), n);
    }
  }

  // ----- Closing a part -----

  lemma ClosedTidy(g: nat, k: Rest, s: seq<byte>, lo: nat, hi: nat)
    requires g < lo && Tidy(k, s, lo, hi)
    ensures Tidy(ThenClosed(g, k), s, lo, hi)
  {
    forall m: nat | m <= |s| && ThenClosed(g, k)(m).Match?
      ensures TidyAt(ThenClosed(g, k)(m), lo, hi)
    {
      var r := k(m);
      assert TidyAt(r, lo, hi);
      var c := Closed(g, m, r);
      forall n: nat | lo <= n < hi && n < NSUBEXP
        ensures Paired(c, n)
      {
        assert Paired(r, n);
      }
      assert ThenClosed(g, k)(m) == c;
    }
  }

  lemma GroupNoted(g: nat, t: Tree, i: nat, j: nat, k: Result, r: Result)
    requires 0 < g < NSUBEXP && Shaped(k) && Paired(k, g) && Bounds(t, g).0 < 0
    requires Noted(t, Closed(g, j, k), r)
    ensures Noted(Part(g, i, j, t), k, Opened(g, i, r))
  {
    var c, o := Closed(g, j, k), Opened(g, i, r);
    forall n: nat | n < NSUBEXP
      ensures NotedAt(Part(g, i, j, t), k, o, n)
    {
      assert NotedAt(t, c, r, n);
    }
  }

  /** The parts of a tree have the numbers of the parts of the expression. */
  lemma {:induction false} BoundsNumber(x: Piece, lo: nat, s: seq<byte>, i: nat, j: nat, t: Tree, n: nat)
    requires Numbered(x, lo) && Derives(x, s, i, j, t) && Bounds(t, n).0 >= 0
    ensures lo <= n < lo + Groups(x)
    decreases t, x
  {
    match x
    case Group(m, a) => if m != n { AltsBoundsNumber(a, lo + 1, s, i, j, t.body, n); }
    case Star(y) => RoundNumber(x, y, lo, s, i, j, t, n);
    case Plus(y) => RoundNumber(x, y, lo, s, i, j, t, n);
    case Opt(y) => if t.Pair? { BoundsNumber(y, lo, s, i, j, t.first, n); }
    case _ =>
  }

  lemma {:induction false} RoundNumber(x: Piece, y: Piece, lo: nat, s: seq<byte>, i: nat, j: nat, t: Tree, n: nat)
    requires (x == Star(y) || x == Plus(y)) && Numbered(y, lo) && Derives(x, s, i, j, t) && Bounds(t, n).0 >= 0
    ensures lo <= n < lo + Groups(y)
    decreases t, y
  {
    if Bounds(t.rest, n).0 >= 0 {
      RoundNumber(Star(y), y, lo, s, t.mid, j, t.rest, n);
    } else {
      BoundsNumber(y, lo, s, i, t.mid, t.first, n);
    }
  }

  lemma {:induction false} BranchBoundsNumber(b: Branch, lo: nat, s: seq<byte>, i: nat, j: nat, t: Tree, n: nat)
    requires BranchNumbered(b, lo) && DerivesBranch(b, s, i, j, t) && Bounds(t, n).0 >= 0
    ensures lo <= n < lo + BranchGroups(b)
    decreases t, b
  {
    if Bounds(t.rest, n).0 >= 0 {
      BranchBoundsNumber(b.rest, lo + Groups(b.first), s, t.mid, j, t.rest, n);
    } else {
      BoundsNumber(b.first, lo, s, i, t.mid, t.first, n);
    }
  }

  lemma {:induction false} AltsBoundsNumber(a: Alts, lo: nat, s: seq<byte>, i: nat, j: nat, t: Tree, n: nat)
    requires AltsNumbered(a, lo) && DerivesAlts(a, s, i, j, t) && Bounds(t, n).0 >= 0
    ensures lo <= n < lo + AltsGroups(a)
    decreases t, a
  {
    match a
    case One(b) => BranchBoundsNumber(b, lo, s, i, j, t, n);
    case Or(b, others) =>
      if t.Left? {
        BranchBoundsNumber(b, lo, s, i, j, t.t, n);
      } else {
        AltsBoundsNumber(others, lo + BranchGroups(b), s, i, j, t.t, n);
      }
  }

  // ----- The search -----

  /** Of all ways after which `k` succeeds, `t` is preferred to every other. */
  ghost predicate Best(x: Piece, s: seq<byte>, i: nat, k: Rest, t: Tree) {
    forall u, j: nat :: Derives(x, s, i, j, u) && k(j).Match? ==> u == t || Before(t, u)
  }

  ghost predicate BestBranch(b: Branch, s: seq<byte>, i: nat, k: Rest, t: Tree) {
    forall u, j: nat :: DerivesBranch(b, s, i, j, u) && k(j).Match? ==> u == t || Before(t, u)
  }

  ghost predicate BestAlts(a: Alts, s: seq<byte>, i: nat, k: Rest, t: Tree) {
    forall u, j: nat :: DerivesAlts(a, s, i, j, u) && k(j).Match? ==> u == t || Before(t, u)
  }

  lemma {:induction false} TryBest(x: Piece, lo: nat, s: seq<byte>, i: nat, k: Rest) returns (j: nat, t: Tree)
    requires i <= |s| && Good(x) && Numbered(x, lo)
    requires Tidy(k, s, lo, lo + Groups(x)) && Try(x, s, i, k).Match?
    ensures i <= j <= |s| && Derives(x, s, i, j, t) && k(j).Match?
    ensures Noted(t, k(j), Try(x, s, i, k)) && Best(x, s, i, k, t)
    decreases x, |s| - i, 3
  {
    hide Noted, Tidy, Best;
    match x
    case Group(g, a) => j, t := GroupBest(x, lo, s, i, k);
    case Star(y) => j, t := StarBest(y, lo, s, i, k);
    case Plus(y) => j, t := PlusBest(y, lo, s, i, k);
    case Opt(y) => j, t := OptBest(y, lo, s, i, k);
    case Text(txt) => j, t := LeafBest(x, lo, s, i, i + |txt|, k);
    case Bol => j, t := LeafBest(x, lo, s, i, i, k);
    case Eol => j, t := LeafBest(x, lo, s, i, i, k);
    case _ => j, t := LeafBest(x, lo, s, i, i + 1, k);
  }

  lemma LeafBest(x: Piece, lo: nat, s: seq<byte>, i: nat, m: nat, k: Rest) returns (j: nat, t: Tree)
    requires IsAtom(x) && !x.Group? && i <= m <= |s| && Matches(x, s, i, m)
    requires Tidy(k, s, lo, lo + Groups(x)) && k(m).Match? && Try(x, s, i, k) == k(m)
    ensures j == m && Derives(x, s, i, j, t)
    ensures Noted(t, k(j), Try(x, s, i, k)) && Best(x, s, i, k, t)
  {
    hide Try, Noted, Matches;
    j, t := m, Leaf;
    assert TidyAt(k(m), lo, lo + Groups(x));
    NotedNothing(t, k(m));
  }

  lemma {:induction false} GroupBest(x: Piece, lo: nat, s: seq<byte>, i: nat, k: Rest) returns (j: nat, t: Tree)
    requires x.Group? && i <= |s| && Good(x) && Numbered(x, lo)
    requires Tidy(k, s, lo, lo + Groups(x)) && Try(x, s, i, k).Match?
    ensures i <= j <= |s| && Derives(x, s, i, j, t) && k(j).Match?
    ensures Noted(t, k(j), Try(x, s, i, k)) && Best(x, s, i, k, t)
    decreases x, |s| - i, 2
  {
    hide Noted, BestAlts, DerivesAlts, Bounds;
    var a := x.body;
    var f := ThenClosed(lo, k);
    TidyPart(k, s, lo, lo + Groups(x), lo + 1, lo + Groups(x));
    ClosedTidy(lo, k, s, lo + 1, lo + 1 + AltsGroups(a));
    var body;
    j, body := AltsBest(a, lo + 1, s, i, f);
    t := Part(lo, i, j, body);
    assert TidyAt(k(j), lo, lo + Groups(x)) && Paired(k(j), lo);
    if Bounds(body, lo).0 >= 0 { AltsBoundsNumber(a, lo + 1, s, i, j, body, lo); }
    GroupNoted(lo, body, i, j, k(j), TryAlts(a, s, i, f));
    PartBest(x, s, i, j, k, body);
  }

  lemma PartBest(x: Piece, s: seq<byte>, i: nat, j: nat, k: Rest, body: Tree)
    requires x.Group? && DerivesAlts(x.body, s, i, j, body) && BestAlts(x.body, s, i, ThenClosed(x.no, k), body)
    ensures Best(x, s, i, k, Part(x.no, i, j, body))
  {
    hide DerivesAlts;
    var t := Part(x.no, i, j, body);
    forall u, m: nat | Derives(x, s, i, m, u) && k(m).Match?
      ensures u == t || Before(t, u)
    {
      assert ThenClosed(x.no, k)(m).Match?;
      assert u.body == body || Before(body, u.body);
      if u.body == body { SameAltsEnd(x.body, s, i, j, m, body); }
    }
  }

  /** If the first round goes to every place from which a way goes on, the best first round with the best of the others is best. */
  lemma RoundBest(x: Piece, y: Piece, s: seq<byte>, i: nat, k: Rest, f: Rest, m: nat, first: Tree, rest: Tree)
    requires (x == Star(y) || x == Plus(y)) && Derives(y, s, i, m, first)
    requires Best(y, s, i, f, first) && Best(Star(y), s, m, k, rest)
    requires forall u, j: nat :: Derives(x, s, i, j, u) && k(j).Match? && u.Pair? ==> f(u.mid).Match?
    ensures Best(x, s, i, k, Pair(first, m, rest))
  {
    var t := Pair(first, m, rest);
    forall u, j: nat | Derives(x, s, i, j, u) && k(j).Match?
      ensures u == t || Before(t, u)
    {
      if u.Pair? {
        assert Derives(y, s, i, u.mid, u.first) && Derives(Star(y), s, u.mid, j, u.rest);
        assert u.first == first || Before(first, u.first);
        if u.first == first {
          SameEnd(y, s, i, m, u.mid, first);
          assert u.rest == rest || Before(rest, u.rest);
        }
      }
    }
  }

  /** Wherever a round of a starred piece ends from which a way goes on, the search goes on. */
  lemma StarGoesOn(y: Piece, s: seq<byte>, i: nat, k: Rest, u: Tree, j: nat)
    requires i <= |s| && Good(Star(y)) && Derives(Star(y), s, i, j, u) && u.Pair? && k(j).Match?
    ensures Again(y, s, i, k)(u.mid).Match?
    ensures Try(y, s, i, Again(y, s, i, k)).Match?
  {
    hide Matches, Try;
    TreeMatches(Star(y), s, u.mid, j, u.rest);
    TryMisses(Star(y), s, u.mid, j, k);
    TreeMatches(y, s, i, u.mid, u.first);
    TryMisses(y, s, i, u.mid, Again(y, s, i, k));
  }

  lemma {:induction false} StarTidy(y: Piece, lo: nat, s: seq<byte>, i: nat, k: Rest)
    requires i <= |s| && Good(Star(y)) && Numbered(y, lo) && Tidy(k, s, lo, lo + Groups(y))
    ensures Tidy(Again(y, s, i, k), s, lo, lo + Groups(y))
    decreases Star(y), |s| - i, 1
  {
    hide Noted, Best, Derives;
    var f := Again(y, s, i, k);
    forall m: nat | m <= |s| && f(m).Match?
      ensures TidyAt(f(m), lo, lo + Groups(y))
    {
      var j, t := TryBest(Star(y), lo, s, m, k);
      assert TidyAt(k(j), lo, lo + Groups(y));
      NotedTidy(t, k(j), f(m), lo, lo + Groups(y));
    }
  }

  lemma {:induction false} StarBest(y: Piece, lo: nat, s: seq<byte>, i: nat, k: Rest) returns (j: nat, t: Tree)
    requires i <= |s| && Good(Star(y)) && Numbered(y, lo)
    requires Tidy(k, s, lo, lo + Groups(y)) && Try(Star(y), s, i, k).Match?
    ensures i <= j <= |s| && Derives(Star(y), s, i, j, t) && k(j).Match?
    ensures Noted(t, k(j), Try(Star(y), s, i, k)) && Best(Star(y), s, i, k, t)
    decreases Star(y), |s| - i, 2
  {
    hide Noted, Tidy;
    var f := Again(y, s, i, k);
    forall u, j: nat | Derives(Star(y), s, i, j, u) && k(j).Match? && u.Pair?
      ensures f(u.mid).Match? && Try(y, s, i, f).Match?
    {
      StarGoesOn(y, s, i, k, u, j);
    }
    if Try(y, s, i, f).Match? {
      StarTidy(y, lo, s, i, k);
      var m, first := TryBest(y, lo, s, i, f);
      var rest;
      j, rest := TryBest(Star(y), lo, s, m, k);
      t := Pair(first, m, rest);
      NotedTwice(first, m, rest, k(j), f(m), Try(y, s, i, f));
      RoundBest(Star(y), y, s, i, k, f, m, first, rest);
    } else {
      j, t := i, End;
      NothingNoted(End, lo, lo + Groups(y), s, i, k);
    }
  }

  lemma NothingNoted(t: Tree, lo: nat, hi: nat, s: seq<byte>, i: nat, k: Rest)
    requires i <= |s| && Tidy(k, s, lo, hi) && k(i).Match? && (t.Leaf? || t.End?)
    ensures Noted(t, k(i), k(i))
  {
    assert TidyAt(k(i), lo, hi);
    NotedNothing(t, k(i));
  }

  lemma RoundsAreOnce(y: Piece, s: seq<byte>, i: nat, j: nat, t: Tree)
    requires Derives(Star(y), s, i, j, t) && t.Pair?
    ensures Derives(Plus(y), s, i, j, t)
  {
  }

  lemma PlusGoesOn(y: Piece, s: seq<byte>, i: nat, k: Rest, u: Tree, j: nat)
    requires i <= |s| && Good(Plus(y)) && Derives(Plus(y), s, i, j, u) && k(j).Match?
    ensures More(y, s, i, k)(u.mid).Match?
  {
    hide Matches, Try;
    TreeMatches(y, s, i, u.mid, u.first);
    MatchMoves(y, s, i, u.mid);
    assert Derives(Star(y), s, u.mid, j, u.rest);
    if u.rest.Pair? {
      RoundsAreOnce(y, s, u.mid, j, u.rest);
      TreeMatches(Plus(y), s, u.mid, j, u.rest);
      TryMisses(Plus(y), s, u.mid, j, k);
    }
    assert u.rest.Pair? || u.mid == j;
    assert More(y, s, i, k)(u.mid) == OrElse(Try(Plus(y), s, u.mid, k), k(u.mid));
  }

  lemma {:induction false} PlusTidy(y: Piece, lo: nat, s: seq<byte>, i: nat, k: Rest)
    requires i <= |s| && Good(Plus(y)) && Numbered(y, lo) && Tidy(k, s, lo, lo + Groups(y))
    ensures Tidy(More(y, s, i, k), s, lo, lo + Groups(y))
    decreases Plus(y), |s| - i, 1
  {
    hide Noted, Best, Derives;
    var f := More(y, s, i, k);
    forall m: nat | m <= |s| && f(m).Match?
      ensures TidyAt(f(m), lo, lo + Groups(y))
    {
      if Try(Plus(y), s, m, k).Match? {
        var j, t := TryBest(Plus(y), lo, s, m, k);
        assert TidyAt(k(j), lo, lo + Groups(y));
        NotedTidy(t, k(j), f(m), lo, lo + Groups(y));
      } else {
        assert TidyAt(k(m), lo, lo + Groups(y));
      }
    }
  }

  lemma MoreIs(y: Piece, s: seq<byte>, i: nat, m: nat, k: Rest)
    requires i < m <= |s|
    ensures More(y, s, i, k)(m) == if Try(Plus(y), s, m, k).Match? then Try(Plus(y), s, m, k) else k(m)
  {
    hide Try;
    assert More(y, s, i, k)(m) == OrElse(Try(Plus(y), s, m, k), k(m));
  }

  lemma BestAgain(y: Piece, s: seq<byte>, i: nat, k: Rest, t: Tree)
    requires Best(Plus(y), s, i, k, t) && t.Pair?
    ensures Best(Star(y), s, i, k, t)
  {
    forall u, j: nat | Derives(Star(y), s, i, j, u) && k(j).Match?
      ensures u == t || Before(t, u)
    {
      if u.Pair? { RoundsAreOnce(y, s, i, j, u); }
    }
  }

  lemma BestNotAgain(y: Piece, s: seq<byte>, i: nat, k: Rest)
    requires i <= |s| && Good(Plus(y)) && !Try(Plus(y), s, i, k).Match?
    ensures Best(Star(y), s, i, k, End)
  {
    hide Try;
    forall u, j: nat | Derives(Star(y), s, i, j, u) && k(j).Match?
      ensures u == End
    {
      if u.Pair? {
        RoundsAreOnce(y, s, i, j, u);
        TreeMatches(Plus(y), s, i, j, u);
        TryMisses(Plus(y), s, i, j, k);
      }
    }
  }

  /** Behind the first round of a piece with a plus: the best way round again, or none. */
  lemma {:induction false} PlusRest(y: Piece, lo: nat, s: seq<byte>, i: nat, m: nat, k: Rest) returns (j: nat, t: Tree)
    requires i < m <= |s| && Good(Plus(y)) && Numbered(y, lo)
    requires Tidy(k, s, lo, lo + Groups(y)) && More(y, s, i, k)(m).Match?
    ensures m <= j <= |s| && Derives(Star(y), s, m, j, t) && k(j).Match?
    ensures Noted(t, k(j), More(y, s, i, k)(m)) && Best(Star(y), s, m, k, t)
    decreases Plus(y), |s| - m, 4
  {
    hide Noted, Tidy, Best, Try, More;
    MoreIs(y, s, i, m, k);
    if Try(Plus(y), s, m, k).Match? {
      j, t := TryBest(Plus(y), lo, s, m, k);
      PairMoves(y, s, m, j, t);
      BestAgain(y, s, m, k, t);
    } else {
      j, t := m, End;
      NothingNoted(End, lo, lo + Groups(y), s, m, k);
      BestNotAgain(y, s, m, k);
    }
  }

  lemma PairMoves(y: Piece, s: seq<byte>, i: nat, j: nat, t: Tree)
    requires Good(Plus(y)) && Derives(Plus(y), s, i, j, t)
    ensures Derives(Star(y), s, i, j, t)
  {
    TreeMatches(y, s, i, t.mid, t.first);
    MatchMoves(y, s, i, t.mid);
  }

  lemma {:induction false} PlusBest(y: Piece, lo: nat, s: seq<byte>, i: nat, k: Rest) returns (j: nat, t: Tree)
    requires i <= |s| && Good(Plus(y)) && Numbered(y, lo)
    requires Tidy(k, s, lo, lo + Groups(y)) && Try(Plus(y), s, i, k).Match?
    ensures i <= j <= |s| && Derives(Plus(y), s, i, j, t) && k(j).Match?
    ensures Noted(t, k(j), Try(Plus(y), s, i, k)) && Best(Plus(y), s, i, k, t)
    decreases Plus(y), |s| - i, 2
  {
    hide Noted, Tidy, Best;
    var f := More(y, s, i, k);
    PlusTidy(y, lo, s, i, k);
    var m, first := TryBest(y, lo, s, i, f);
    var rest;
    j, rest := PlusRest(y, lo, s, i, m, k);
    t := Pair(first, m, rest);
    NotedTwice(first, m, rest, k(j), f(m), Try(y, s, i, f));
    forall u, l: nat | Derives(Plus(y), s, i, l, u) && k(l).Match? && u.Pair?
      ensures f(u.mid).Match?
    {
      PlusGoesOn(y, s, i, k, u, l);
    }
    RoundBest(Plus(y), y, s, i, k, f, m, first, rest);
  }

  lemma {:induction false} OptBest(y: Piece, lo: nat, s: seq<byte>, i: nat, k: Rest) returns (j: nat, t: Tree)
    requires i <= |s| && Good(Opt(y)) && Numbered(y, lo)
    requires Tidy(k, s, lo, lo + Groups(y)) && Try(Opt(y), s, i, k).Match?
    ensures i <= j <= |s| && Derives(Opt(y), s, i, j, t) && k(j).Match?
    ensures Noted(t, k(j), Try(Opt(y), s, i, k)) && Best(Opt(y), s, i, k, t)
    decreases Opt(y), |s| - i, 2
  {
    hide Noted, Tidy;
    if Try(y, s, i, k).Match? {
      var first;
      j, first := TryBest(y, lo, s, i, k);
      t := Pair(first, j, End);
      NotedInside(first, t, k(j), Try(y, s, i, k));
      forall u, l: nat | Derives(Opt(y), s, i, l, u) && k(l).Match?
        ensures u == t || Before(t, u)
      {
        if u.Pair? {
          assert u.first == first || Before(first, u.first);
          if u.first == first { SameEnd(y, s, i, j, l, first); }
        }
      }
    } else {
      j, t := i, End;
      NothingNoted(End, lo, lo + Groups(y), s, i, k);
      forall u, l: nat | Derives(Opt(y), s, i, l, u) && k(l).Match?
        ensures u == t
      {
        if u.Pair? {
          TreeMatches(y, s, i, l, u.first);
          TryMisses(y, s, i, l, k);
        }
      }
    }
  }

  lemma {:induction false} BranchTidy(b: Branch, lo: nat, mid: nat, s: seq<byte>, k: Rest)
    requires GoodBranch(b) && BranchNumbered(b, mid) && lo <= mid
    requires Tidy(k, s, lo, mid) && Tidy(k, s, mid, mid + BranchGroups(b))
    ensures Tidy(ThenRest(b, s, k), s, lo, mid)
    decreases b, 1
  {
    hide Noted, BestBranch, DerivesBranch;
    var f := ThenRest(b, s, k);
    forall m: nat | m <= |s| && f(m).Match?
      ensures TidyAt(f(m), lo, mid)
    {
      var j, t := BranchBest(b, mid, s, m, k);
      assert TidyAt(k(j), lo, mid);
      NotedTidy(t, k(j), f(m), lo, mid);
    }
  }

  lemma {:induction false} BranchBest(b: Branch, lo: nat, s: seq<byte>, i: nat, k: Rest) returns (j: nat, t: Tree)
    requires i <= |s| && GoodBranch(b) && BranchNumbered(b, lo)
    requires Tidy(k, s, lo, lo + BranchGroups(b)) && TryBranch(b, s, i, k).Match?
    ensures i <= j <= |s| && DerivesBranch(b, s, i, j, t) && k(j).Match?
    ensures Noted(t, k(j), TryBranch(b, s, i, k)) && BestBranch(b, s, i, k, t)
    decreases b, 0, 1
  {
    hide Noted, Tidy, Best;
    match b
    case Empty =>
      j, t := i, End;
      NothingNoted(End, lo, lo, s, i, k);
    case Then(x, rest) =>
      var mid, hi := lo + Groups(x), lo + BranchGroups(b);
      TidyPart(k, s, lo, hi, lo, mid);
      TidyPart(k, s, lo, hi, mid, hi);
      BranchTidy(rest, lo, mid, s, k);
      var f := ThenRest(rest, s, k);
      var m, first := TryBest(x, lo, s, i, f);
      var others;
      j, others := BranchBest(rest, mid, s, m, k);
      t := Pair(first, m, others);
      NotedTwice(first, m, others, k(j), f(m), Try(x, s, i, f));
      ChainBest(b, s, i, m, k, first, others);
  }

  lemma ChainBest(b: Branch, s: seq<byte>, i: nat, m: nat, k: Rest, first: Tree, rest: Tree)
    requires b.Then? && GoodBranch(b) && Derives(b.first, s, i, m, first)
    requires Best(b.first, s, i, ThenRest(b.rest, s, k), first) && BestBranch(b.rest, s, m, k, rest)
    ensures BestBranch(b, s, i, k, Pair(first, m, rest))
  {
    hide Derives;
    var t := Pair(first, m, rest);
    forall u, j: nat | DerivesBranch(b, s, i, j, u) && k(j).Match?
      ensures u == t || Before(t, u)
    {
      BranchTreeMatches(b.rest, s, u.mid, j, u.rest);
      BranchMisses(b.rest, s, u.mid, j, k);
      assert ThenRest(b.rest, s, k)(u.mid).Match?;
      assert u.first == first || Before(first, u.first);
      if u.first == first { SameEnd(b.first, s, i, m, u.mid, first); }
    }
  }

  lemma {:induction false} AltsBest(a: Alts, lo: nat, s: seq<byte>, i: nat, k: Rest) returns (j: nat, t: Tree)
    requires i <= |s| && GoodAlts(a) && AltsNumbered(a, lo)
    requires Tidy(k, s, lo, lo + AltsGroups(a)) && TryAlts(a, s, i, k).Match?
    ensures i <= j <= |s| && DerivesAlts(a, s, i, j, t) && k(j).Match?
    ensures Noted(t, k(j), TryAlts(a, s, i, k)) && BestAlts(a, s, i, k, t)
    decreases a, 0, 1
  {
    hide Noted, Tidy, DerivesBranch;
    var mid, hi := lo + BranchGroups(a.b), lo + AltsGroups(a);
    TidyPart(k, s, lo, hi, lo, mid);
    TidyPart(k, s, lo, hi, mid, hi);
    if TryBranch(a.b, s, i, k).Match? {
      var l;
      j, l := BranchBest(a.b, lo, s, i, k);
      t := if a.One? then l else Left(l);
      if a.Or? { NotedInside(l, t, k(j), TryBranch(a.b, s, i, k)); }
      forall u, m: nat | DerivesAlts(a, s, i, m, u) && k(m).Match?
        ensures u == t || Before(t, u)
      {
        if a.One? || u.Left? { assert DerivesBranch(a.b, s, i, m, if a.One? then u else u.t); }
      }
    } else {
      var r;
      j, r := AltsBest(a.others, mid, s, i, k);
      t := Right(r);
      NotedInside(r, t, k(j), TryAlts(a.others, s, i, k));
      forall u, m: nat | DerivesAlts(a, s, i, m, u) && k(m).Match?
        ensures u == t || Before(t, u)
      {
        if u.Left? {
          BranchTreeMatches(a.b, s, i, m, u.t);
          BranchMisses(a.b, s, i, m, k);
        }
      }
    }
  }

  // ----- The first match -----

  /** The preferred way of all ways to match from `i` on, wherever they end. */
  ghost predicate IsBest(a: Alts, s: seq<byte>, i: nat, j: nat, t: Tree) {
    DerivesAlts(a, s, i, j, t) && forall u, m: nat :: DerivesAlts(a, s, i, m, u) ==> u == t || Before(t, u)
  }

  /** There is one at most. */
  lemma OneBest(a: Alts, s: seq<byte>, i: nat, j: nat, t: Tree, m: nat, u: Tree)
    requires IsBest(a, s, i, j, t) && IsBest(a, s, i, m, u)
    ensures t == u && j == m
  {
    hide DerivesAlts;
    BeforeOneWay(t, u);
    SameAltsEnd(a, s, i, j, m, t);
  }

  /** The first match is the preferred one: its end, and the bounds of all its parts. */
  lemma FirstIsBest(a: Alts, s: seq<byte>, i: nat) returns (t: Tree)
    requires i <= |s| && GoodAlts(a) && AltsNumbered(a, 1) && First(a, s, i).Match?
    ensures var r := First(a, s, i);
      && IsBest(a, s, i, r.end, t) && Shaped(r)
      && forall n: nat :: n < NSUBEXP ==> (r.starts[n], r.ends[n]) == Bounds(t, n)
  {
    hide DerivesAlts, Bounds, TryAlts;
    var j;
    j, t := AltsBest(a, 1, s, i, Done);
    forall n: nat | n < NSUBEXP
      ensures (First(a, s, i).starts[n], First(a, s, i).ends[n]) == Bounds(t, n)
    {
      assert NotedAt(t, Done(j), First(a, s, i), n);
    }
  }
}
