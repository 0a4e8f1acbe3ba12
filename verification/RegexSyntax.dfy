/** Regular expressions: their parts, and how a pattern is read. */
module RegexSyntax {
  import opened Bits

  datatype Piece =
    | Bol | Eol | Dot
    | OneOf(chars: seq<byte>) | NoneOf(chars: seq<byte>)
    | Text(t: seq<byte>)
    | Group(no: nat, body: Alts)
    | Star(x: Piece) | Plus(x: Piece) | Opt(x: Piece)

  /** Pieces one after the other. */
  datatype Branch = Empty | Then(first: Piece, rest: Branch)

  /** Alternatives. */
  datatype Alts = One(b: Branch) | Or(b: Branch, others: Alts)

  datatype Error =
    | TooManyParens | UnmatchedParens | JunkOnEnd | OperandCouldBeEmpty | NestedRepeat | InternalUrp
    | InvalidRange | UnmatchedBracket | RepeatsNothing | TrailingBackslash | InternalDisaster | TooBig

  datatype Parsed<T> = Parsed(it: T, pos: nat, npar: nat) | Bad(error: Error)

  const NSUBEXP: nat := 10

  const NUL: byte := 0
  const HAT: byte := '^' as int
  const DOLLAR: byte := '$' as int
  const DOT: byte := '.' as int
  const LBRACK: byte := '[' as int
  const RBRACK: byte := ']' as int
  const LPAREN: byte := '(' as int
  const RPAREN: byte := ')' as int
  const BAR: byte := '|' as int
  const QUERY: byte := '?' as int
  const PLUS: byte := '+' as int
  const STAR: byte := '*' as int
  const BACKSLASH: byte := '\\' as int
  const MINUS: byte := '-' as int

  predicate IsMult(c: byte) {
    c == STAR || c == PLUS || c == QUERY
  }

  predicate IsMeta(c: byte) {
    c in [HAT, DOLLAR, DOT, LBRACK, LPAREN, RPAREN, BAR, QUERY, PLUS, STAR, BACKSLASH]
  }

  /** A string without the terminator, which `At` supplies. */
  predicate NulFree(s: seq<byte>) {
    forall i :: 0 <= i < |s| ==> s[i] != NUL
  }

  function At(e: seq<byte>, p: nat): byte {
    if p < |e| then e[p] else NUL
  }

  // ----- Width and simplicity -----

  /** Never matches the empty string. */
  predicate HasWidth(x: Piece) {
    match x
    case Bol | Eol => false
    case Dot => true
    case OneOf(_) => true
    case NoneOf(_) => true
    case Text(_) => true
    case Group(_, a) => AltsHaveWidth(a)
    case Star(_) => false
    case Plus(_) => true
    case Opt(_) => false
  }

  predicate BranchHasWidth(b: Branch) {
    b.Then? && (HasWidth(b.first) || BranchHasWidth(b.rest))
  }

  predicate AltsHaveWidth(a: Alts) {
    BranchHasWidth(a.b) && (a.Or? ==> AltsHaveWidth(a.others))
  }

  /** One character per match. */
  predicate Simple(x: Piece) {
    x.Dot? || x.OneOf? || x.NoneOf? || (x.Text? && |x.t| == 1)
  }

  /** Begins with `*` or `?`, so that a search for a literal may pay. */
  predicate SpStart(x: Piece) {
    x.Star? || x.Opt? || (x.Group? && AltsSpStart(x.body))
  }

  predicate BranchSpStart(b: Branch) {
    b.Then? && SpStart(b.first)
  }

  predicate AltsSpStart(a: Alts) {
    BranchSpStart(a.b) || (a.Or? && AltsSpStart(a.others))
  }

  predicate IsAtom(x: Piece) {
    !x.Star? && !x.Plus? && !x.Opt?
  }

  /** What the reader only ever builds. */
  predicate Good(x: Piece) {
    match x
    case Bol | Eol | Dot => true
    case OneOf(c) => NulFree(c)
    case NoneOf(c) => NulFree(c)
    case Text(t) => t != [] && NulFree(t)
    case Group(n, a) => 0 < n < NSUBEXP && GoodAlts(a)
    case Star(y) => Good(y) && HasWidth(y) && (Simple(y) || y.Group?)
    case Plus(y) => Good(y) && HasWidth(y) && (Simple(y) || y.Group?)
    case Opt(y) => Good(y) && IsAtom(y)
  }

  predicate GoodBranch(b: Branch) {
    b.Then? ==> Good(b.first) && GoodBranch(b.rest)
  }

  predicate GoodAlts(a: Alts) {
    GoodBranch(a.b) && (a.Or? ==> GoodAlts(a.others))
  }

  // ----- Reading a pattern -----

  function Range(lo: nat, hi: nat): (r: seq<byte>)
    requires hi < 256 && lo > 0
    ensures NulFree(r) && forall c: byte :: c in r <==> lo <= c <= hi
    decreases hi + 1 - lo
  {
    if lo > hi then [] else [lo] + Range(lo + 1, hi)
  }

  /** The rest of a bracketed class, of which `acc` is read. */
  function ParseClass(e: seq<byte>, p: nat, acc: seq<byte>): (r: Parsed<seq<byte>>)
    requires NulFree(e) && NulFree(acc) && 0 < p <= |e|
    ensures r.Parsed? ==> p < r.pos <= |e| && NulFree(r.it) && e[r.pos - 1] == RBRACK
    decreases |e| - p
  {
    if At(e, p) == NUL then Bad(UnmatchedBracket)
    else if At(e, p) == RBRACK then Parsed(acc, p + 1, 0)
    else if At(e, p) == MINUS then
      if At(e, p + 1) == RBRACK || At(e, p + 1) == NUL then ParseClass(e, p + 1, acc + [MINUS])
      else if e[p - 1] > At(e, p + 1) then Bad(InvalidRange)
      else ParseClass(e, p + 2, acc + Range(e[p - 1] as int + 1, e[p + 1]))
    else ParseClass(e, p + 1, acc + [e[p]])
  }

  /** A class from behind its bracket and, for a complement, its hat; a leading `]` or `-` is itself. */
  function ParseSet(e: seq<byte>, p: nat): (r: Parsed<seq<byte>>)
    requires NulFree(e) && 0 < p <= |e|
    ensures r.Parsed? ==> p < r.pos <= |e| && NulFree(r.it)
  {
    if At(e, p) == RBRACK || At(e, p) == MINUS then ParseClass(e, p + 1, [e[p]]) else ParseClass(e, p, [])
  }

  /** A class from behind its bracket. */
  function SetAt(e: seq<byte>, p: nat): (r: Parsed<seq<byte>>)
    requires NulFree(e) && 0 < p <= |e|
    ensures r.Parsed? ==> p < r.pos <= |e| && NulFree(r.it)
  {
    ParseSet(e, if At(e, p) == HAT then p + 1 else p)
  }

  /** How many ordinary characters follow. */
  function Span(e: seq<byte>, p: nat): (n: nat)
    requires p <= |e|
    ensures p + n <= |e| && forall i :: p <= i < p + n ==> !IsMeta(e[i])
    ensures p + n < |e| ==> IsMeta(e[p + n])
    decreases |e| - p
  {
    if p == |e| || IsMeta(e[p]) then 0 else 1 + Span(e, p + 1)
  }

  /** How many of them make one piece: a repetition operator takes only the last. */
  function TextLength(e: seq<byte>, p: nat): nat
    requires p <= |e|
  {
    var n := Span(e, p);
    if n > 1 && IsMult(At(e, p + n)) then n - 1 else n
  }

  /** A bracketed expression from behind the opening bracket. */
  function ParseGroup(e: seq<byte>, p: nat, npar: nat): (r: Parsed<Piece>)
    requires NulFree(e) && p <= |e| && npar > 0
    ensures r.Parsed? ==> p < r.pos <= |e| && r.npar >= npar && Good(r.it) && r.it.Group?
    decreases |e| - p, 4
  {
    if npar >= NSUBEXP then Bad(TooManyParens)
    else
      match ParseAlts(e, p, npar + 1)
      case Bad(m) => Bad(m)
      case Parsed(a, q, n) => if At(e, q) == RPAREN then Parsed(Group(npar, a), q + 1, n) else Bad(UnmatchedParens)
  }

  function ParseAtom(e: seq<byte>, p: nat, npar: nat): (r: Parsed<Piece>)
    requires NulFree(e) && p <= |e| && npar > 0
    ensures r.Parsed? ==> p < r.pos <= |e| && r.npar >= npar && Good(r.it) && IsAtom(r.it)
    decreases |e| - p, 0
  {
    var c := At(e, p);
    if c == HAT then Parsed(Bol, p + 1, npar)
    else if c == DOLLAR then Parsed(Eol, p + 1, npar)
    else if c == DOT then Parsed(Dot, p + 1, npar)
    else if c == LBRACK then
      match SetAt(e, p + 1)
      case Bad(m) => Bad(m)
      case Parsed(set_, q, _) => Parsed(if At(e, p + 1) == HAT then NoneOf(set_) else OneOf(set_), q, npar)
    else if c == LPAREN then
      ParseGroup(e, p + 1, npar)
    else if c == NUL || c == BAR || c == RPAREN then Bad(InternalUrp)
    else if IsMult(c) then Bad(RepeatsNothing)
    else if c == BACKSLASH then
      if At(e, p + 1) == NUL then Bad(TrailingBackslash) else Parsed(Text([e[p + 1]]), p + 2, npar)
    else
      var n := TextLength(e, p);
      if n <= 0 then Bad(InternalDisaster) else Parsed(Text(e[p..p + n]), p + n, npar)
  }

  /** An atom and possibly one repetition operator. */
  function ParsePiece(e: seq<byte>, p: nat, npar: nat): (r: Parsed<Piece>)
    requires NulFree(e) && p <= |e| && npar > 0
    ensures r.Parsed? ==> p < r.pos <= |e| && r.npar >= npar && Good(r.it)
    decreases |e| - p, 1
  {
    match ParseAtom(e, p, npar)
    case Bad(m) => Bad(m)
    case Parsed(x, q, n) =>
      var op := At(e, q);
      if !IsMult(op) then Parsed(x, q, n)
      else if !HasWidth(x) && op != QUERY then Bad(OperandCouldBeEmpty)
      else if IsMult(At(e, q + 1)) then Bad(NestedRepeat)
      else
        Parsed(if op == STAR then Star(x) else if op == PLUS then Plus(x) else Opt(x), q + 1, n)
  }

  predicate EndsBranch(c: byte) {
    c == NUL || c == BAR || c == RPAREN
  }

  function ParseBranch(e: seq<byte>, p: nat, npar: nat): (r: Parsed<Branch>)
    requires NulFree(e) && p <= |e| && npar > 0
    ensures r.Parsed? ==> p <= r.pos <= |e| && r.npar >= npar && GoodBranch(r.it) && EndsBranch(At(e, r.pos))
    decreases |e| - p, 2
  {
    if EndsBranch(At(e, p)) then Parsed(Empty, p, npar)
    else
      match ParsePiece(e, p, npar)
      case Bad(m) => Bad(m)
      case Parsed(x, q, n) =>
        match ParseBranch(e, q, n)
        case Bad(m) => Bad(m)
        case Parsed(b, q', n') => Parsed(Then(x, b), q', n')
  }

  function ParseAlts(e: seq<byte>, p: nat, npar: nat): (r: Parsed<Alts>)
    requires NulFree(e) && p <= |e| && npar > 0
    ensures r.Parsed? ==>
      p <= r.pos <= |e| && r.npar >= npar && GoodAlts(r.it) && (At(e, r.pos) == NUL || At(e, r.pos) == RPAREN)
    decreases |e| - p, 3
  {
    match ParseBranch(e, p, npar)
    case Bad(m) => Bad(m)
    case Parsed(b, q, n) =>
      if At(e, q) != BAR then Parsed(One(b), q, n)
      else
        match ParseAlts(e, q + 1, n)
        case Bad(m) => Bad(m)
        case Parsed(a, q', n') => Parsed(Or(b, a), q', n')
  }

  /** A whole pattern. */
  function Parse(e: seq<byte>): (r: Parsed<Alts>)
    requires NulFree(e)
    ensures r.Parsed? ==> GoodAlts(r.it) && r.pos == |e|
  {
    match ParseAlts(e, 0, 1)
    case Bad(m) => Bad(m)
    case Parsed(a, q, n) => if At(e, q) == NUL then Parsed(a, q, n) else Bad(UnmatchedParens)
  }
}
