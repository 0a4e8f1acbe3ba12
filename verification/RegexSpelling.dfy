/** The reader takes a pattern for what it says: reading and spelling out agree. */
module RegexSpelling {
  import opened Bits
  import opened RegexClass
  import opened RegexSyntax

  /** `e[p..q]` spells the piece. */
  ghost predicate Spells(x: Piece, e: seq<byte>, p: nat, q: nat)
    requires NulFree(e)
    decreases x
  {
    p < q <= |e| &&
    match x
    case Bol => e[p..q] == [HAT]
    case Eol => e[p..q] == [DOLLAR]
    case Dot => e[p..q] == [DOT]
    case OneOf(c) => p + 2 < q && e[p] == LBRACK && e[p + 1] != HAT && SpellsClass(c, e, p + 1, q)
    case NoneOf(c) => p + 3 < q && e[p] == LBRACK && e[p + 1] == HAT && SpellsClass(c, e, p + 2, q)
    case Text(t) => (e[p..q] == [BACKSLASH] + t && |t| == 1) || (e[p..q] == t && Ordinary(t) && CutAt(e, p, q))
    case Group(_, a) => p + 2 <= q && e[p] == LPAREN && e[q - 1] == RPAREN && SpellsAlts(a, e, p + 1, q - 1)
    case Star(y) => e[q - 1] == STAR && Spells(y, e, p, q - 1)
    case Plus(y) => e[q - 1] == PLUS && Spells(y, e, p, q - 1)
    case Opt(y) => e[q - 1] == QUERY && Spells(y, e, p, q - 1)
  }

  predicate Ordinary(t: seq<byte>) {
    forall i :: 0 <= i < |t| ==> !IsMeta(t[i])
  }

  /** Ordinary characters from `p` on are taken together up to `q`, except that a repetition sign takes but one. */
  predicate CutAt(e: seq<byte>, p: nat, q: nat)
    requires q <= |e|
  {
    if q < |e| && !IsMeta(e[q]) then IsMult(At(e, q + 1)) else IsMult(At(e, q)) ==> q == p + 1
  }

  /** The text up to the closing bracket has no backward range, and these members. */
  ghost predicate SpellsClass(c: seq<byte>, e: seq<byte>, p: nat, q: nat)
    requires p < q <= |e|
  {
    var t := e[p..q - 1];
    e[q - 1] == RBRACK && Enclosable(t) && InOrder(t) && Members(t, c)
  }

  ghost predicate SpellsBranch(b: Branch, e: seq<byte>, p: nat, q: nat)
    requires NulFree(e)
    decreases b
  {
    match b
    case Empty => p == q <= |e|
    case Then(x, rest) => exists m: nat :: p < m <= q && Spells(x, e, p, m) && SpellsBranch(rest, e, m, q)
  }

  ghost predicate SpellsAlts(a: Alts, e: seq<byte>, p: nat, q: nat)
    requires NulFree(e)
    decreases a
  {
    match a
    case One(b) => SpellsBranch(b, e, p, q)
    case Or(b, others) =>
      exists m: nat :: p <= m < q <= |e| && SpellsBranch(b, e, p, m) && e[m] == BAR && SpellsAlts(others, e, m + 1, q)
  }

  // ----- Numbers of bracketed expressions -----

  /** How many there are. */
  function Groups(x: Piece): nat {
    match x
    case Group(_, a) => 1 + AltsGroups(a)
    case Star(y) => Groups(y)
    case Plus(y) => Groups(y)
    case Opt(y) => Groups(y)
    case _ => 0
  }

  function BranchGroups(b: Branch): nat {
    if b.Empty? then 0 else Groups(b.first) + BranchGroups(b.rest)
  }

  function AltsGroups(a: Alts): nat {
    BranchGroups(a.b) + if a.One? then 0 else AltsGroups(a.others)
  }

  /** They are numbered by their opening brackets, from `n` on. */
  predicate Numbered(x: Piece, n: nat) {
    match x
    case Group(no, a) => no == n && AltsNumbered(a, n + 1)
    case Star(y) => Numbered(y, n)
    case Plus(y) => Numbered(y, n)
    case Opt(y) => Numbered(y, n)
    case _ => true
  }

  predicate BranchNumbered(b: Branch, n: nat) {
    b.Then? ==> Numbered(b.first, n) && BranchNumbered(b.rest, n + Groups(b.first))
  }

  predicate AltsNumbered(a: Alts, n: nat) {
    BranchNumbered(a.b, n) && (a.Or? ==> AltsNumbered(a.others, n + BranchGroups(a.b)))
  }

  /** `e` spells the expression, which keeps the limits on numbers and repetitions. */
  ghost predicate IsPattern(a: Alts, e: seq<byte>)
    requires NulFree(e)
  {
    SpellsAlts(a, e, 0, |e|) && GoodAlts(a) && AltsNumbered(a, 1)
  }

  // ----- What is read is spelled -----

  lemma AtomSpelled(e: seq<byte>, p: nat, npar: nat)
    requires NulFree(e) && p <= |e| && npar > 0
    ensures var r := ParseAtom(e, p, npar); r.Parsed? ==>
      Spells(r.it, e, p, r.pos) && Numbered(r.it, npar) && r.npar == npar + Groups(r.it)
    decreases |e| - p, 0
  {
    hide SpellsAlts, SpellsClass, ParseGroup, ParseSet, TextLength, CutAt, Ordinary, AltsNumbered;
    var r := ParseAtom(e, p, npar);
    if r.Parsed? {
      var c := At(e, p);
      if c == HAT || c == DOLLAR || c == DOT {
        assert e[p..p + 1] == [c];
      } else if c == LBRACK {
        ClassSpelled(e, if At(e, p + 1) == HAT then p + 2 else p + 1);
      } else if c == LPAREN {
        GroupSpelled(e, p, npar);
      } else if c == BACKSLASH {
        assert e[p..p + 2] == [BACKSLASH] + [e[p + 1]];
      } else {
        TextSpelled(e, p);
      }
    }
  }

  lemma TextSpelled(e: seq<byte>, p: nat)
    requires NulFree(e) && p < |e|
    ensures var q := p + TextLength(e, p); q <= |e| && Ordinary(e[p..q]) && (p < q ==> CutAt(e, p, q))
  {
    var n := Span(e, p);
    if n > 1 && IsMult(At(e, p + n)) { assert !IsMeta(e[p + n - 1]); }
  }

  lemma GroupSpelled(e: seq<byte>, p: nat, npar: nat)
    requires NulFree(e) && p < |e| && npar > 0 && e[p] == LPAREN
    ensures var r := ParseGroup(e, p + 1, npar); r.Parsed? ==>
      Spells(r.it, e, p, r.pos) && Numbered(r.it, npar) && r.npar == npar + Groups(r.it)
    decreases |e| - p - 1, 5
  {
    hide ParseAlts, SpellsAlts;
    AltsSpelled(e, p + 1, npar + 1);
  }

  lemma ClassSpelled(e: seq<byte>, p: nat)
    requires NulFree(e) && 0 < p <= |e|
    ensures var r := ParseSet(e, p); r.Parsed? ==> p + 1 < r.pos <= |e| && SpellsClass(r.it, e, p, r.pos)
  {
    SetAccepted(e, p);
    if ParseSet(e, p).Parsed? {
      var t :| Encloses(e, p, t) && InOrder(t);
      SetReads(e, p, t);
      assert t == e[p..p + |t|];
    }
  }

  lemma PieceSpelled(e: seq<byte>, p: nat, npar: nat)
    requires NulFree(e) && p <= |e| && npar > 0
    ensures var r := ParsePiece(e, p, npar); r.Parsed? ==>
      Spells(r.it, e, p, r.pos) && Numbered(r.it, npar) && r.npar == npar + Groups(r.it)
    decreases |e| - p, 1
  {
    hide ParseAtom;
    AtomSpelled(e, p, npar);
  }

  lemma BranchSpelled(e: seq<byte>, p: nat, npar: nat)
    requires NulFree(e) && p <= |e| && npar > 0
    ensures var r := ParseBranch(e, p, npar); r.Parsed? ==>
      SpellsBranch(r.it, e, p, r.pos) && BranchNumbered(r.it, npar) && r.npar == npar + BranchGroups(r.it)
    decreases |e| - p, 2
  {
    hide ParsePiece, Spells;
    var r := ParsePiece(e, p, npar);
    if !EndsBranch(At(e, p)) && r.Parsed? {
      PieceSpelled(e, p, npar);
      BranchSpelled(e, r.pos, r.npar);
    }
  }

  lemma AltsSpelled(e: seq<byte>, p: nat, npar: nat)
    requires NulFree(e) && p <= |e| && npar > 0
    ensures var r := ParseAlts(e, p, npar); r.Parsed? ==>
      SpellsAlts(r.it, e, p, r.pos) && AltsNumbered(r.it, npar) && r.npar == npar + AltsGroups(r.it)
    decreases |e| - p, 3
  {
    hide ParseBranch, SpellsBranch, BranchNumbered, BranchGroups, GoodBranch;
    var r := ParseBranch(e, p, npar);
    BranchSpelled(e, p, npar);
    if r.Parsed? && At(e, r.pos) == BAR {
      AltsSpelled(e, r.pos + 1, r.npar);
    }
  }

  /** An accepted pattern is, from end to end, the spelling of what it is read as. */
  lemma PatternSpelled(e: seq<byte>)
    requires NulFree(e) && Parse(e).Parsed?
    ensures IsPattern(Parse(e).it, e)
  {
    AltsSpelled(e, 0, 1);
  }
}
