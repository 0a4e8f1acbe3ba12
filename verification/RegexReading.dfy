/**
 The reader accepts every pattern there is, and there is one way to read it: whatever a text spells
 within the limits on numbers and repetitions, the reader finds, up to the order of class members.
 */
module RegexReading {
  import opened Bits
  import opened RegexClass
  import opened RegexMeaning
  import opened RegexSpelling
  import opened RegexSyntax

  // ----- The same but for the order in which classes list their members -----

  predicate SameMembers(c: seq<byte>, d: seq<byte>) {
    forall x :: x in c + d ==> x in c && x in d
  }

  predicate Alike(x: Piece, y: Piece) {
    match x
    case OneOf(c) => y.OneOf? && SameMembers(c, y.chars)
    case NoneOf(c) => y.NoneOf? && SameMembers(c, y.chars)
    case Group(no, a) => y.Group? && y.no == no && AltsAlike(a, y.body)
    case Star(z) => y.Star? && Alike(z, y.x)
    case Plus(z) => y.Plus? && Alike(z, y.x)
    case Opt(z) => y.Opt? && Alike(z, y.x)
    case _ => x == y
  }

  predicate BranchAlike(b: Branch, d: Branch) {
    if b.Empty? then d.Empty? else d.Then? && Alike(b.first, d.first) && BranchAlike(b.rest, d.rest)
  }

  predicate AltsAlike(a: Alts, d: Alts) {
    BranchAlike(a.b, d.b) && (if a.One? then d.One? else d.Or? && AltsAlike(a.others, d.others))
  }

  lemma {:induction false} AlikeWidth(x: Piece, y: Piece)
    requires Alike(x, y)
    ensures HasWidth(x) <==> HasWidth(y)
  {
    if x.Group? { AltsAlikeWidth(x.body, y.body); }
  }

  lemma {:induction false} BranchAlikeWidth(b: Branch, d: Branch)
    requires BranchAlike(b, d)
    ensures BranchHasWidth(b) <==> BranchHasWidth(d)
  {
    if b.Then? {
      AlikeWidth(b.first, d.first);
      BranchAlikeWidth(b.rest, d.rest);
    }
  }

  lemma {:induction false} AltsAlikeWidth(a: Alts, d: Alts)
    requires AltsAlike(a, d)
    ensures AltsHaveWidth(a) <==> AltsHaveWidth(d)
  {
    BranchAlikeWidth(a.b, d.b);
    if a.Or? { AltsAlikeWidth(a.others, d.others); }
  }

  // ----- Alike expressions match alike -----

  lemma {:induction false} AlikeMatches(x: Piece, y: Piece, s: seq<byte>, i: nat, j: nat)
    requires Alike(x, y) && Matches(x, s, i, j)
    ensures Matches(y, s, i, j)
    decreases x, 0
  {
    match x
    case OneOf(c) => assert s[i] in c + y.chars;
    case NoneOf(c) => assert s[i] !in c + y.chars;
    case Group(_, a) => AltsAlikeMatch(a, y.body, s, i, j);
    case Star(z) =>
      var n := RepeatCount(x, s, i, j);
      AlikeRepeats(z, y.x, s, i, j, n);
      RepeatsMatch(y, s, i, j, n);
    case Plus(z) =>
      var n := RepeatCount(x, s, i, j);
      AlikeRepeats(z, y.x, s, i, j, n);
      RepeatsMatch(y, s, i, j, n);
    case Opt(z) =>
      if i != j { AlikeMatches(z, y.x, s, i, j); }
    case _ =>
  }

  lemma {:induction false} AlikeRepeats(x: Piece, y: Piece, s: seq<byte>, i: nat, j: nat, n: nat)
    requires Alike(x, y) && Repeats(x, s, i, j, n)
    ensures Repeats(y, s, i, j, n)
    decreases x, 1, n
  {
    hide Matches;
    if n > 0 {
      var m := FirstMatch(x, s, i, j, n);
      AlikeMatches(x, y, s, i, m);
      AlikeRepeats(x, y, s, m, j, n - 1);
      RepeatsMore(y, s, i, m, j, n - 1);
    }
  }

  lemma {:induction false} BranchAlikeMatch(b: Branch, d: Branch, s: seq<byte>, i: nat, j: nat)
    requires BranchAlike(b, d) && BranchMatches(b, s, i, j)
    ensures BranchMatches(d, s, i, j)
    decreases b, 0
  {
    hide Matches;
    if b.Then? {
      var m := FirstOf(b.first, b.rest, s, i, j);
      AlikeMatches(b.first, d.first, s, i, m);
      BranchAlikeMatch(b.rest, d.rest, s, m, j);
    }
  }

  lemma {:induction false} AltsAlikeMatch(a: Alts, d: Alts, s: seq<byte>, i: nat, j: nat)
    requires AltsAlike(a, d) && AltsMatch(a, s, i, j)
    ensures AltsMatch(d, s, i, j)
    decreases a, 0
  {
    hide BranchMatches;
    if BranchMatches(a.b, s, i, j) {
      BranchAlikeMatch(a.b, d.b, s, i, j);
    } else {
      AltsAlikeMatch(a.others, d.others, s, i, j);
    }
  }

  // ----- What is spelled is read -----

  /** The reader of ordinary characters stops where the text is cut. */
  lemma {:induction false} SpanIs(e: seq<byte>, p: nat, q: nat)
    requires p <= q <= |e| && Ordinary(e[p..q]) && (q == |e| || IsMeta(e[q]))
    ensures Span(e, p) == q - p
    decreases q - p
  {
    if p < q {
      assert e[p..q][0] == e[p];
      assert e[p + 1..q] == e[p..q][1..];
      SpanIs(e, p + 1, q);
    }
  }

  lemma OneMore(e: seq<byte>, p: nat, q: nat)
    requires NulFree(e) && p <= q < |e| && Ordinary(e[p..q]) && !IsMeta(e[q]) && IsMult(At(e, q + 1))
    ensures Ordinary(e[p..q + 1]) && q + 1 < |e| && IsMeta(e[q + 1])
  {
    assert e[p..q + 1] == e[p..q] + [e[q]];
  }

  lemma TextRead(e: seq<byte>, p: nat, q: nat)
    requires NulFree(e) && p < q <= |e| && Ordinary(e[p..q]) && CutAt(e, p, q)
    ensures TextLength(e, p) == q - p
  {
    hide Ordinary, IsMeta, Span;
    if q < |e| && !IsMeta(e[q]) {
      OneMore(e, p, q);
      SpanIs(e, p, q + 1);
    } else {
      SpanIs(e, p, q);
    }
  }

  lemma ClassRead(c: seq<byte>, e: seq<byte>, p: nat, q: nat)
    requires NulFree(e) && 0 < p && p + 1 < q <= |e| && SpellsClass(c, e, p, q)
    ensures var r := ParseSet(e, p); r.Parsed? && r.pos == q && SameMembers(r.it, c)
  {
    SetReads(e, p, e[p..q - 1]);
  }

  /** A piece begins with none of the characters that end a branch or repeat. */
  lemma {:induction false} Opening(x: Piece, e: seq<byte>, p: nat, q: nat)
    requires NulFree(e) && Good(x) && Spells(x, e, p, q)
    ensures !EndsBranch(At(e, p)) && !IsMult(At(e, p))
  {
    hide SpellsAlts, SpellsClass;
    match x
    case Star(y) => Opening(y, e, p, q - 1);
    case Plus(y) => Opening(y, e, p, q - 1);
    case Opt(y) => Opening(y, e, p, q - 1);
    case _ => assert e[p] == e[p..q][0];
  }

  lemma {:induction false} AtomRead(x: Piece, e: seq<byte>, p: nat, q: nat, npar: nat)
    requires NulFree(e) && npar > 0 && IsAtom(x) && Good(x) && Numbered(x, npar) && Spells(x, e, p, q)
    ensures var r := ParseAtom(e, p, npar);
      r.Parsed? && r.pos == q && r.npar == npar + Groups(x) && Alike(r.it, x)
    decreases x, 0
  {
    hide SpellsAlts, SpellsClass, ParseSet, ParseAlts, TextLength, AltsAlike, AltsNumbered, SameMembers;
    assert e[p] == e[p..q][0];
    match x
    case OneOf(c) => ClassRead(c, e, p + 1, q);
    case NoneOf(c) => ClassRead(c, e, p + 2, q);
    case Group(_, a) => AltsRead(a, e, p + 1, q - 1, npar + 1);
    case Text(t) =>
      if e[p] == BACKSLASH {
        assert e[p + 1] == e[p..q][1];
      } else {
        TextRead(e, p, q);
      }
    case _ =>
  }

  lemma {:induction false} PieceRead(x: Piece, e: seq<byte>, p: nat, q: nat, npar: nat)
    requires NulFree(e) && npar > 0 && Good(x) && Numbered(x, npar) && Spells(x, e, p, q) && !IsMult(At(e, q))
    ensures var r := ParsePiece(e, p, npar);
      r.Parsed? && r.pos == q && r.npar == npar + Groups(x) && Alike(r.it, x)
    decreases x, 1
  {
    hide ParseAtom;
    if IsAtom(x) {
      AtomRead(x, e, p, q, npar);
    } else {
      AtomRead(x.x, e, p, q - 1, npar);
      AlikeWidth(ParseAtom(e, p, npar).it, x.x);
    }
  }

  lemma {:induction false} BranchRead(b: Branch, e: seq<byte>, p: nat, q: nat, npar: nat)
    requires NulFree(e) && npar > 0 && GoodBranch(b) && BranchNumbered(b, npar)
    requires p <= |e| && SpellsBranch(b, e, p, q) && EndsBranch(At(e, q))
    ensures var r := ParseBranch(e, p, npar);
      r.Parsed? && r.pos == q && r.npar == npar + BranchGroups(b) && BranchAlike(r.it, b)
    decreases b, 2
  {
    hide ParsePiece, Spells, Good, Alike, Numbered;
    if b.Then? {
      var m: nat :| p < m <= q && Spells(b.first, e, p, m) && SpellsBranch(b.rest, e, m, q);
      Within(b.first, e, p, m);
      Opening(b.first, e, p, m);
      BehindPiece(b.rest, e, m, q);
      PieceRead(b.first, e, p, m, npar);
      BranchRead(b.rest, e, m, q, npar + Groups(b.first));
    }
  }

  lemma Within(x: Piece, e: seq<byte>, p: nat, q: nat)
    requires NulFree(e) && Spells(x, e, p, q)
    ensures p < q <= |e|
  {
  }

  /** Behind a piece stands no repetition sign that is not its own. */
  lemma BehindPiece(b: Branch, e: seq<byte>, p: nat, q: nat)
    requires NulFree(e) && GoodBranch(b) && SpellsBranch(b, e, p, q) && EndsBranch(At(e, q))
    ensures !IsMult(At(e, p))
  {
    hide Spells, Good;
    if b.Then? {
      var m: nat :| p < m <= q && Spells(b.first, e, p, m) && SpellsBranch(b.rest, e, m, q);
      Opening(b.first, e, p, m);
    }
  }

  lemma {:induction false} AltsRead(a: Alts, e: seq<byte>, p: nat, q: nat, npar: nat)
    requires NulFree(e) && npar > 0 && GoodAlts(a) && AltsNumbered(a, npar)
    requires p <= |e| && SpellsAlts(a, e, p, q) && (At(e, q) == NUL || At(e, q) == RPAREN)
    ensures var r := ParseAlts(e, p, npar);
      r.Parsed? && r.pos == q && r.npar == npar + AltsGroups(a) && AltsAlike(r.it, a)
    decreases a, 3
  {
    hide ParseBranch, SpellsBranch, GoodBranch, BranchAlike, BranchNumbered;
    match a
    case One(b) => BranchRead(b, e, p, q, npar);
    case Or(b, others) =>
      var m: nat :| p <= m < q <= |e| && SpellsBranch(b, e, p, m) && e[m] == BAR && SpellsAlts(others, e, m + 1, q);
      BranchRead(b, e, p, m, npar);
      AltsRead(others, e, m + 1, q, npar + BranchGroups(b));
  }

  /** A text spells one pattern at most, and the reader finds it. */
  lemma OneReading(a: Alts, e: seq<byte>)
    requires NulFree(e) && IsPattern(a, e)
    ensures Parse(e).Parsed? && AltsAlike(Parse(e).it, a)
  {
    hide SpellsAlts;
    AltsRead(a, e, 0, |e|, 1);
  }

  /** The reader accepts exactly the texts that spell a pattern. */
  lemma AcceptedIffPattern(e: seq<byte>)
    requires NulFree(e)
    ensures Parse(e).Parsed? <==> exists a :: IsPattern(a, e)
  {
    hide IsPattern;
    if Parse(e).Parsed? {
      PatternSpelled(e);
    }
    if a :| IsPattern(a, e) {
      OneReading(a, e);
    }
  }

  lemma {:induction false} AlikeBack(x: Piece, y: Piece)
    requires Alike(x, y)
    ensures Alike(y, x)
  {
    match x
    case Group(_, a) => AltsAlikeBack(a, y.body);
    case Star(z) => AlikeBack(z, y.x);
    case Plus(z) => AlikeBack(z, y.x);
    case Opt(z) => AlikeBack(z, y.x);
    case _ =>
  }

  lemma {:induction false} BranchAlikeBack(b: Branch, d: Branch)
    requires BranchAlike(b, d)
    ensures BranchAlike(d, b)
  {
    if b.Then? {
      AlikeBack(b.first, d.first);
      BranchAlikeBack(b.rest, d.rest);
    }
  }

  lemma {:induction false} AltsAlikeBack(a: Alts, d: Alts)
    requires AltsAlike(a, d)
    ensures AltsAlike(d, a)
  {
    BranchAlikeBack(a.b, d.b);
    if a.Or? { AltsAlikeBack(a.others, d.others); }
  }

  /** So a pattern matches what the expression it spells matches, whichever that is taken to be. */
  lemma ReadingMatches(a: Alts, e: seq<byte>, s: seq<byte>, i: nat, j: nat)
    requires NulFree(e) && IsPattern(a, e)
    ensures Parse(e).Parsed? && (AltsMatch(Parse(e).it, s, i, j) <==> AltsMatch(a, s, i, j))
  {
    hide IsPattern, AltsMatch, AltsAlike;
    OneReading(a, e);
    var b := Parse(e).it;
    AltsAlikeBack(b, a);
    if AltsMatch(b, s, i, j) { AltsAlikeMatch(b, a, s, i, j); }
    if AltsMatch(a, s, i, j) { AltsAlikeMatch(a, b, s, i, j); }
  }
}
