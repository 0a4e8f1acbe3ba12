/**
 What the bounds of the bracketed parts say: what is noted for a part is a stretch within the match that
 the part itself matches, and a part that every match goes through is always noted.
 */
module RegexParts {
  import opened Bits
  import opened RegexMeaning
  import opened RegexBest
  import opened RegexOrder
  import opened RegexSpelling
  import opened RegexSyntax
  import opened RegexTrees

  // ----- Parts of an expression -----

  /** `body` stands between the brackets numbered `n`. */
  predicate Part(x: Piece, n: nat, body: Alts) {
    match x
    case Group(m, a) => (m == n && a == body) || AltsPart(a, n, body)
    case Star(y) => Part(y, n, body)
    case Plus(y) => Part(y, n, body)
    case Opt(y) => Part(y, n, body)
    case _ => false
  }

  predicate BranchPart(b: Branch, n: nat, body: Alts) {
    b.Then? && (Part(b.first, n, body) || BranchPart(b.rest, n, body))
  }

  predicate AltsPart(a: Alts, n: nat, body: Alts) {
    BranchPart(a.b, n, body) || (a.Or? && AltsPart(a.others, n, body))
  }

  lemma {:induction false} PartNumber(x: Piece, lo: nat, n: nat, body: Alts)
    requires Numbered(x, lo) && Part(x, n, body)
    ensures lo <= n < lo + Groups(x)
  {
    match x
    case Group(m, a) => if m != n { AltsPartNumber(a, lo + 1, n, body); }
    case Star(y) => PartNumber(y, lo, n, body);
    case Plus(y) => PartNumber(y, lo, n, body);
    case Opt(y) => PartNumber(y, lo, n, body);
  }

  lemma {:induction false} BranchPartNumber(b: Branch, lo: nat, n: nat, body: Alts)
    requires BranchNumbered(b, lo) && BranchPart(b, n, body)
    ensures lo <= n < lo + BranchGroups(b)
  {
    if Part(b.first, n, body) {
      PartNumber(b.first, lo, n, body);
    } else {
      BranchPartNumber(b.rest, lo + Groups(b.first), n, body);
    }
  }

  lemma {:induction false} AltsPartNumber(a: Alts, lo: nat, n: nat, body: Alts)
    requires AltsNumbered(a, lo) && AltsPart(a, n, body)
    ensures lo <= n < lo + AltsGroups(a)
  {
    if BranchPart(a.b, n, body) {
      BranchPartNumber(a.b, lo, n, body);
    } else {
      AltsPartNumber(a.others, lo + BranchGroups(a.b), n, body);
    }
  }

  // ----- Bounds in a tree -----

  lemma {:induction false} BoundsMatch(x: Piece, s: seq<byte>, i: nat, j: nat, t: Tree, n: nat) returns (body: Alts)
    requires Derives(x, s, i, j, t) && Bounds(t, n).0 >= 0
    ensures var (b, e) := Bounds(t, n); Part(x, n, body) && i <= b <= e <= j && AltsMatch(body, s, b, e)
    decreases t, x
  {
    match x
    case Group(m, a) =>
      if m == n {
        body := a;
        AltsTreeMatches(a, s, i, j, t.body);
      } else {
        body := AltsBoundsMatch(a, s, i, j, t.body, n);
      }
    case Star(y) => body := RoundMatch(x, y, s, i, j, t, n);
    case Plus(y) => body := RoundMatch(x, y, s, i, j, t, n);
    case Opt(y) => body := BoundsMatch(y, s, i, j, t.first, n);
  }

  lemma {:induction false} RoundMatch(x: Piece, y: Piece, s: seq<byte>, i: nat, j: nat, t: Tree, n: nat) returns (body: Alts)
    requires (x == Star(y) || x == Plus(y)) && Derives(x, s, i, j, t) && Bounds(t, n).0 >= 0
    ensures var (b, e) := Bounds(t, n); Part(y, n, body) && i <= b <= e <= j && AltsMatch(body, s, b, e)
    decreases t, y
  {
    if Bounds(t.rest, n).0 >= 0 {
      body := RoundMatch(Star(y), y, s, t.mid, j, t.rest, n);
    } else {
      body := BoundsMatch(y, s, i, t.mid, t.first, n);
    }
  }

  lemma {:induction false} BranchBoundsMatch(c: Branch, s: seq<byte>, i: nat, j: nat, t: Tree, n: nat) returns (body: Alts)
    requires DerivesBranch(c, s, i, j, t) && Bounds(t, n).0 >= 0
    ensures var (b, e) := Bounds(t, n); BranchPart(c, n, body) && i <= b <= e <= j && AltsMatch(body, s, b, e)
    decreases t, c
  {
    BranchTreeMatches(c.rest, s, t.mid, j, t.rest);
    if Bounds(t.rest, n).0 >= 0 {
      body := BranchBoundsMatch(c.rest, s, t.mid, j, t.rest, n);
    } else {
      body := BoundsMatch(c.first, s, i, t.mid, t.first, n);
    }
  }

  lemma {:induction false} AltsBoundsMatch(a: Alts, s: seq<byte>, i: nat, j: nat, t: Tree, n: nat) returns (body: Alts)
    requires DerivesAlts(a, s, i, j, t) && Bounds(t, n).0 >= 0
    ensures var (b, e) := Bounds(t, n); AltsPart(a, n, body) && i <= b <= e <= j && AltsMatch(body, s, b, e)
    decreases t, a
  {
    match a
    case One(b) => body := BranchBoundsMatch(b, s, i, j, t, n);
    case Or(b, others) =>
      if t.Left? { body := BranchBoundsMatch(b, s, i, j, t.t, n); } else { body := AltsBoundsMatch(others, s, i, j, t.t, n); }
  }

  /** Every match goes through the part numbered `n`: it stands outside every `*`, `?` and `|`. */
  predicate Must(x: Piece, n: nat) {
    match x
    case Group(m, a) => m == n || (a.One? && BranchMust(a.b, n))
    case Plus(y) => Must(y, n)
    case _ => false
  }

  predicate BranchMust(b: Branch, n: nat) {
    b.Then? && (Must(b.first, n) || BranchMust(b.rest, n))
  }

  lemma {:induction false} MustBeNoted(x: Piece, s: seq<byte>, i: nat, j: nat, t: Tree, n: nat)
    requires Derives(x, s, i, j, t) && Must(x, n)
    ensures Bounds(t, n).0 >= 0
    decreases t, x
  {
    match x
    case Group(m, a) => if m != n { BranchMustBeNoted(a.b, s, i, j, t.body, n); }
    case Plus(y) => MustBeNoted(y, s, i, t.mid, t.first, n);
  }

  lemma {:induction false} BranchMustBeNoted(b: Branch, s: seq<byte>, i: nat, j: nat, t: Tree, n: nat)
    requires DerivesBranch(b, s, i, j, t) && BranchMust(b, n)
    ensures Bounds(t, n).0 >= 0
    decreases t, b
  {
    if Must(b.first, n) {
      MustBeNoted(b.first, s, i, t.mid, t.first, n);
    } else {
      BranchMustBeNoted(b.rest, s, t.mid, j, t.rest, n);
    }
  }

  // ----- Each number once -----

  /** There is one part of each number at most. */
  lemma {:induction false} OnePart(x: Piece, lo: nat, n: nat, c: Alts, d: Alts)
    requires Numbered(x, lo) && Part(x, n, c) && Part(x, n, d)
    ensures c == d
  {
    match x
    case Group(m, a) =>
      if AltsPart(a, n, c) { AltsPartNumber(a, lo + 1, n, c); }
      if AltsPart(a, n, d) { AltsPartNumber(a, lo + 1, n, d); }
      if m != n { AltsOnePart(a, lo + 1, n, c, d); }
    case Star(y) => OnePart(y, lo, n, c, d);
    case Plus(y) => OnePart(y, lo, n, c, d);
    case Opt(y) => OnePart(y, lo, n, c, d);
  }

  lemma {:induction false} BranchOnePart(b: Branch, lo: nat, n: nat, c: Alts, d: Alts)
    requires BranchNumbered(b, lo) && BranchPart(b, n, c) && BranchPart(b, n, d)
    ensures c == d
  {
    var mid := lo + Groups(b.first);
    if Part(b.first, n, c) { PartNumber(b.first, lo, n, c); } else { BranchPartNumber(b.rest, mid, n, c); }
    if Part(b.first, n, d) { PartNumber(b.first, lo, n, d); } else { BranchPartNumber(b.rest, mid, n, d); }
    if n < mid { OnePart(b.first, lo, n, c, d); } else { BranchOnePart(b.rest, mid, n, c, d); }
  }

  lemma {:induction false} AltsOnePart(a: Alts, lo: nat, n: nat, c: Alts, d: Alts)
    requires AltsNumbered(a, lo) && AltsPart(a, n, c) && AltsPart(a, n, d)
    ensures c == d
  {
    var mid := lo + BranchGroups(a.b);
    if BranchPart(a.b, n, c) { BranchPartNumber(a.b, lo, n, c); } else { AltsPartNumber(a.others, mid, n, c); }
    if BranchPart(a.b, n, d) { BranchPartNumber(a.b, lo, n, d); } else { AltsPartNumber(a.others, mid, n, d); }
    if n < mid { BranchOnePart(a.b, lo, n, c, d); } else { AltsOnePart(a.others, mid, n, c, d); }
  }

  /** There is a part numbered `n`, and it matches from `b` to `e`, within `i` to `j`. */
  ghost predicate PartMatches(root: Alts, s: seq<byte>, i: nat, j: nat, n: nat, b: int, e: int) {
    && i <= b <= e <= j
    && (exists body :: AltsPart(root, n, body))
    && (forall body :: AltsPart(root, n, body) ==> AltsMatch(body, s, b, e))
  }

  /**
   What the bounds of a part are: none, which happens only to a part that a match can go without, or those
   of a stretch of the match that the one part of that number matches.
   */
  lemma PartsMatch(a: Alts, s: seq<byte>, i: nat, j: nat, t: Tree, n: nat)
    requires AltsNumbered(a, 1) && DerivesAlts(a, s, i, j, t)
    ensures Bounds(t, n) == (-1, -1) || PartMatches(a, s, i, j, n, Bounds(t, n).0, Bounds(t, n).1)
    ensures a.One? && BranchMust(a.b, n) ==> Bounds(t, n).0 >= 0
  {
    hide AltsMatch, AltsPart;
    if Bounds(t, n).0 >= 0 {
      var body := AltsBoundsMatch(a, s, i, j, t, n);
      forall other | AltsPart(a, n, other)
        ensures other == body
      {
        AltsOnePart(a, 1, n, other, body);
      }
    }
    if a.One? && BranchMust(a.b, n) { BranchMustBeNoted(a.b, s, i, j, t, n); }
  }
}
